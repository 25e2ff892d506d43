/** The `PostsManager` pagination state machine.

    It holds an append-only list of loaded posts and a read cursor. The HTTP
    API is a parameter: a function from the request the manager builds to the
    `{success, response}` envelope the server would answer with, or to the
    error axios would throw. Each operation is first defined on a `State`
    value (`FetchMore`, `NextPost`); the class's methods change the object's
    fields and are proved to follow those definitions. */
module PostManager {
  import opened PostsTypes

  /** The query parameters of `GET {base}/posts?offset=..&limit=..`. */
  datatype PageRequest = PageRequest(offset: int, limit: int)

  /** What one `axios.get` yields: `{success: true, response: {..}}`,
      `{success: false, response: {message}}`, or a thrown error. */
  datatype ApiResponse<+T> = Ok(body: T) | Failed(message: string) | Raised(error: Exception)

  /** The feed endpoint as seen by the manager. */
  type FeedApi = PageRequest -> ApiResponse<seq<Post>>

  /** The media and user endpoints, keyed by media id and by username. */
  type MediaApi = string -> ApiResponse<Media>
  type UserApi = string -> ApiResponse<User>

  /** The manager's two mutable fields as one value. */
  datatype State = State(posts: seq<Post>, cursor: nat)

  /** An operation's new state together with what it returns. */
  datatype Step<+R> = Step(state: State, result: R)

  /** The page size `getNextPost` asks for (the `limit` field). */
  const PageSize: int := 2

  /** `fetchMorePosts(postsNumber)`: request `postsNumber` posts at offset
      `cursor` (the read cursor, not the number of posts loaded). On success
      the page is appended and the whole accumulated list is returned; on an
      upstream failure or a thrown error nothing changes and the message or
      the error is returned. The cursor never moves. */
  function FetchMore(s: State, postsNumber: int, feed: FeedApi): (out: Step<ObjectResult<seq<Post>>>)
    ensures out.state.cursor == s.cursor
    ensures out.result.Success? <==> feed(PageRequest(s.cursor, postsNumber)).Ok?
    ensures out.result.Success? ==>
              out.result.success == out.state.posts &&
              out.state.posts == s.posts + feed(PageRequest(s.cursor, postsNumber)).body
    ensures out.result.Error? ==> out.state == s
    ensures feed(PageRequest(s.cursor, postsNumber)).Failed? ==>
              out.result.error == ErrMessage(feed(PageRequest(s.cursor, postsNumber)).message)
    ensures feed(PageRequest(s.cursor, postsNumber)).Raised? ==>
              out.result.error == ErrThrown(feed(PageRequest(s.cursor, postsNumber)).error)
  {
    match feed(PageRequest(s.cursor, postsNumber))
    case Failed(message) => Step(s, Error(ErrMessage(message)))
    case Raised(error) => Step(s, Error(ErrThrown(error)))
    case Ok(page) =>
      var posts := s.posts + page;
      Step(State(posts, s.cursor), Success(posts))
  }

  /** `getNextPost()`: fetch a page of `limit` posts only when no post is
      loaded at the cursor, ignoring whether that fetch failed; then return
      the post at the cursor if there is one, and advance the cursor by one
      in every case. */
  function NextPost(s: State, limit: int, feed: FeedApi): (out: Step<Option<Post>>)
    ensures out.state.cursor == s.cursor + 1
    ensures s.posts <= out.state.posts
    ensures s.cursor < |s.posts| ==> out.state.posts == s.posts
    ensures s.cursor >= |s.posts| ==> out.state.posts == FetchMore(s, limit, feed).state.posts
    ensures out.result.Some? <==> s.cursor < |out.state.posts|
    ensures out.result.Some? ==> out.result.value == out.state.posts[s.cursor]
  {
    var loaded := if s.cursor < |s.posts| then s else FetchMore(s, limit, feed).state;
    var post := if s.cursor < |loaded.posts| then Some(loaded.posts[s.cursor]) else None;
    Step(State(loaded.posts, s.cursor + 1), post)
  }

  /** What `getMediaFromId` and `getUserFromName` return: the entity itself,
      bare (not wrapped in `{success}`), or an `{error}` object. */
  datatype Lookup<+T> = Bare(value: T) | ErrorObject(error: ErrorPayload)

  /** Unwraps one lookup response the way both lookups do. */
  function Unwrap<T>(response: ApiResponse<T>): (r: Lookup<T>)
    ensures r.Bare? <==> response.Ok?
    ensures response.Ok? ==> r.value == response.body
    ensures response.Failed? ==> r.error == ErrMessage(response.message)
    ensures response.Raised? ==> r.error == ErrThrown(response.error)
  {
    match response
    case Ok(entity) => Bare(entity)
    case Failed(message) => ErrorObject(ErrMessage(message))
    case Raised(error) => ErrorObject(ErrThrown(error))
  }

  /** `getMediaFromId(mediaId)`: one unretried request for that id; it reads
      and changes no manager state. */
  function GetMediaFromId(mediaId: string, api: MediaApi): (r: Lookup<Media>)
    ensures r.Bare? <==> api(mediaId).Ok?
    ensures r.Bare? ==> r.value == api(mediaId).body
    ensures api(mediaId).Failed? ==> r == ErrorObject(ErrMessage(api(mediaId).message))
    ensures api(mediaId).Raised? ==> r == ErrorObject(ErrThrown(api(mediaId).error))
  {
    Unwrap(api(mediaId))
  }

  /** `getUserFromName(username)`: one unretried request for that username;
      it reads and changes no manager state. */
  function GetUserFromName(username: string, api: UserApi): (r: Lookup<User>)
    ensures r.Bare? <==> api(username).Ok?
    ensures r.Bare? ==> r.value == api(username).body
    ensures api(username).Failed? ==> r == ErrorObject(ErrMessage(api(username).message))
    ensures api(username).Raised? ==> r == ErrorObject(ErrThrown(api(username).error))
  {
    Unwrap(api(username))
  }

  class PostsManager {
    var posts: seq<Post>
    var currentCursor: nat
    const limit: int

    /** A new manager has loaded nothing and reads from the start. */
    constructor ()
      ensures posts == [] && currentCursor == 0 && limit == PageSize
    {
      posts := [];
      currentCursor := 0;
      limit := PageSize;
    }

    function Snapshot(): State
      reads this
    {
      State(posts, currentCursor)
    }

    method FetchMorePosts(postsNumber: int, feed: FeedApi) returns (r: ObjectResult<seq<Post>>)
      modifies this
      ensures Step(Snapshot(), r) == FetchMore(old(Snapshot()), postsNumber, feed)
    {
      match feed(PageRequest(currentCursor, postsNumber))
      case Failed(message) =>
        r := Error(ErrMessage(message));
      case Raised(error) =>
        r := Error(ErrThrown(error));
      case Ok(page) =>
        posts := posts + page;
        r := Success(posts);
    }

    method GetNextPost(feed: FeedApi) returns (post: Option<Post>)
      modifies this
      ensures Step(Snapshot(), post) == NextPost(old(Snapshot()), limit, feed)
    {
      if currentCursor >= |posts| {
        var _ := FetchMorePosts(limit, feed);
      }
      post := if currentCursor < |posts| then Some(posts[currentCursor]) else None;
      currentCursor := currentCursor + 1;
    }
  }
}
