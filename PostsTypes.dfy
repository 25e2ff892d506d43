/** The value shapes shared by the posts loader: the posts, media and users the
    feed API serves, and the `{success}` / `{error}` result objects the manager
    hands back to its callers. Only the fields the core reads are kept; the rest
    of a media or user record is an opaque string. */
module PostsTypes {

  /** JavaScript's `undefined` versus a present value. */
  datatype Option<+T> = None | Some(value: T)

  /** A value thrown by the HTTP layer (an axios error); opaque to the core. */
  datatype Exception = Exception(message: string)

  /** The payload of an error result: either the upstream's message string or
      the thrown error object itself (`Error | string`). */
  datatype ErrorPayload = ErrMessage(message: string) | ErrThrown(thrown: Exception)

  /** `ObjectResult<T> = { success: T } | { error: Error | string }`. */
  datatype ObjectResult<+T> = Success(success: T) | Error(error: ErrorPayload)

  datatype Media = Media(id: string, details: string)

  datatype User = User(id: string, username: string, details: string)

  /** A feed record. Identity is `id`; `mediaId` and `user.username` are the
      keys of its media and author lookups. */
  datatype Post = Post(id: string, mediaId: string, user: User, likes: int, title: string)
}
