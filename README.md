# posts-loader core in Dafny

This project models the client-side core of the posts loader. It has two parts.

- **`PostsManager`** is the pagination state machine. It keeps an append-only list of loaded posts and a read cursor. `fetchMorePosts(n)` requests `n` posts at offset `currentCursor` and appends the page. `getNextPost()` fetches a page of `limit = 2` posts only when nothing is loaded at the cursor. It then returns the post at the cursor, if one exists, and always advances the cursor. `getMediaFromId` and `getUserFromName` are single lookups.
- **`retryRequest(fn, retries, delay = 1000)`** is the exponential-backoff retrier.

The HTTP layer is a parameter. Each endpoint is a function from the request to what `axios.get` would yield: an `Ok` envelope, a `Failed(message)` envelope (`success: false`), or a `Raised` error. In particular, `FeedApi` maps a `PageRequest(offset, limit)` to a response, so the request's offset appears in every contract. For `retryRequest`, `fn` is the sequence of outcomes of its successive invocations. The model records the waits instead of sleeping them and counts the invocations.

Files:
- `PostsTypes.dfy` holds the shapes from `posts.types.ts`: `ObjectResult`, `Post`, `Media` and `User`, with the last three trimmed.
- `Retry.dfy` holds `retryRequest` and its counting and backoff lemmas.
- `PostManager.dfy` holds the operations defined on a `State` value (`FetchMore`, `NextPost`), the lookups, and the class `PostsManager`. The class's methods update `posts` and `currentCursor` and are proved to follow `FetchMore` and `NextPost`.
- `PostManagerProperties.dfy` holds lemmas about repeated `getNextPost` calls.

Behaviours of the code worth knowing:
- The page offset is `currentCursor`, not the number of loaded posts.
- `PostsManager` never calls `retryRequest` or the cache.
- `getNextPost` does no media or user enrichment.
- A failed fetch is ignored, and the cursor still advances. As a result, "cursor ≤ number of loaded posts" does not hold. `CursorMayPassLoadedPosts` exhibits a case where it breaks. `TransientFailureSkipsPosts` shows that after one failed fetch the loaded list no longer lines up with the feed: over three calls, feed positions 0 and 1 are never returned and feed position 2 is returned twice.
- The lookups return the entity bare, not wrapped in `{success}`.
- The media lookup (`/media/{id}`) and the user lookup (`/users/{username}`) send no API key.

`StreamsFeedInOrder` shows that against a server that always answers consistently, posts are returned in order with no gaps and no repeats.

## Model

| member | source | states |
|---|---|---|
| PostManager.FetchMore | posts-loader/libs/posts/PostManager.class.ts:12-27 | the request uses offset = cursor and limit = postsNumber; on `success` the page is appended after the old posts and the whole list is returned as `{success}`; on `success: false` the result is `{error: message}` and on a throw `{error}` with the thrown error, with the state unchanged; the cursor never moves |
| PostManager.NextPost | posts-loader/libs/posts/PostManager.class.ts:29-37 | fetches `limit` posts exactly when the cursor is at or past the loaded posts, otherwise leaves them untouched; loaded posts are only extended; returns the post at the old cursor in the (possibly extended) list, or nothing if there is none; the cursor grows by exactly 1 |
| PostManager.PostsManager.constructor | posts-loader/libs/posts/PostManager.class.ts:6-8 | a new manager has no posts, cursor 0 and limit 2 |
| PostManager.PostsManager.FetchMorePosts | posts-loader/libs/posts/PostManager.class.ts:12-27 | reassigning `posts` in place yields exactly the new state and result of `FetchMore` |
| PostManager.PostsManager.GetNextPost | posts-loader/libs/posts/PostManager.class.ts:29-37 | calling `FetchMorePosts(limit)` when nothing is loaded at the cursor and then incrementing the cursor yields exactly the new state and result of `NextPost` |
| PostManager.Unwrap | posts-loader/libs/posts/PostManager.class.ts:44-50 | an `Ok` envelope gives the entity bare; `success: false` gives `{error: message}`; a throw gives `{error}` with the thrown error |
| PostManager.GetMediaFromId | posts-loader/libs/posts/PostManager.class.ts:39-52 | the result is the media bare exactly when the lookup for that id succeeds; otherwise it is `{error: message}` or `{error}`; no manager state is involved |
| PostManager.GetUserFromName | posts-loader/libs/posts/PostManager.class.ts:54-67 | the result is the user bare exactly when the lookup for that username succeeds; otherwise it is `{error: message}` or `{error}`; no manager state is involved |
| PostManagerProperties.Run | posts-loader/libs/posts/PostManager.class.ts:29-37 | successive `getNextPost` calls produce one result per call |
| PostManagerProperties.RunGrowsMonotonically | posts-loader/libs/posts/PostManager.class.ts:19-35 | whatever the server answers, over n calls the loaded posts keep their prefix and the cursor grows by exactly n |
| PostManagerProperties.NextPostAgainstServe | posts-loader/libs/posts/PostManager.class.ts:16-36 | against a server serving a fixed list, one call from an aligned state returns the list's post at the cursor, or nothing past the end, and stays aligned |
| PostManagerProperties.StreamsFeedInOrder | posts-loader/libs/posts/PostManager.class.ts:16-36 | against a server serving a fixed list, the i-th call returns the list's post at cursor + i, or nothing past the end: no gaps and no repeats |
| PostManagerProperties.FreshManagerStreamsFeed | posts-loader/libs/posts/PostManager.class.ts:6-36 | starting from a new manager against such a server, the i-th call returns the i-th post |
| PostManagerProperties.CursorMayPassLoadedPosts | posts-loader/libs/posts/PostManager.class.ts:31-36 | a failed fetch still advances the cursor and returns nothing, leaving the cursor past the loaded posts |
| PostManagerProperties.TransientFailureSkipsPosts | posts-loader/libs/posts/PostManager.class.ts:16-36 | against a server serving `[a, b, c]`, a failed first call followed by two more calls returns nothing, then feed position 2, then feed position 2 again, leaving `[b, c, c]` loaded and the cursor at 3: pages are requested at the cursor, not at the end of the loaded list |
| Retry.RetryRequest | posts-loader/libs/common/retryRequest.ts:12-24 | `fn` runs at most `retries + 1` times; every call but the last threw; the result is the last call's value, or its error rethrown unchanged; the calls stop early only on a value; the k-th wait is `delay * 2^k` and there is one wait fewer than calls |
| Retry.DoubledBackoff | posts-loader/libs/common/retryRequest.ts:19-22 | waiting `delay` and then following a schedule that starts at `delay * 2` is the schedule that starts at `delay` |
| Retry.BackoffTail | posts-loader/libs/common/retryRequest.ts:19-22 | the waits after the first one follow the schedule that starts at `delay * 2` |
| Retry.RetryRequestDefault | posts-loader/libs/common/retryRequest.ts:12 | with `delay` omitted, the first wait is 1000 ms |
| Retry.FastPath | posts-loader/libs/common/retryRequest.ts:15 | a first call that resolves is returned after one call and no wait |
| Retry.NoRetriesRethrows | posts-loader/libs/common/retryRequest.ts:17 | with `retries == 0`, a throw is rethrown unchanged after one call |
| Retry.RetryStep | posts-loader/libs/common/retryRequest.ts:19-22 | after a throw with retries left, the call waits `delay` and then behaves as `retryRequest(fn, retries - 1, delay * 2)` |
| Retry.BackoffSum | posts-loader/libs/common/retryRequest.ts:19-22 | n geometric waits from `delay` add up to `delay * (2^n - 1)` |
| Retry.AllFail | posts-loader/libs/common/retryRequest.ts:17-22 | when every call throws, `fn` runs exactly `retries + 1` times, the last error is thrown, and the total wait is `delay * (2^retries - 1)` |
| Retry.FirstSuccessWins | posts-loader/libs/common/retryRequest.ts:15-22 | the result is the first value among the first `retries + 1` calls, and the number of waits equals the number of throws before it |
| Retry.FiveRetriesAllFail | posts-loader/libs/common/retryRequest.ts:12-22 | five retries with the default delay, all failing: six calls and 31000 ms of waiting |

## Left out

- Retry.RetryRequest: a negative or non-integer `retries` is not admitted. In the code such a value never meets the `=== 0` test, so it recurses for as long as `fn` throws.
- Retry.RetryRequest: `delay` is an unbounded integer. The code's floating-point doubling (which eventually reaches `Infinity`) is not modelled.
- The `console.warn` and `console.error` logging, and the real `setTimeout` waiting. The recorded waits are the delays requested, not the time actually slept. `setTimeout` treats delays above 2^31 - 1 ms specially, so with the default delay the real sleep differs from the 23rd wait on (1000 * 2^22 ms). The totals in `Retry.AllFail` and `Retry.FiveRetriesAllFail` are sums of requested delays.
- Async interleaving: overlapping un-awaited `getNextPost` calls from the UI's polling interval are not modelled. Every call is modelled as running to completion before the next one.
- HTTP details are not modelled: the URL strings, the base URL and the API key. Only the offset and limit of the page request, the media id and the username reach the model.
- Malformed envelopes are not modelled, for example `success: true` without `response.posts`. Every response is one of the three `ApiResponse` forms.
- The truthiness test `!this.posts[this.currentCursor]` is modelled as "no post at the cursor". Posts are objects, so a loaded post is never falsy.
- `Media` keeps only its id plus an opaque string, and `User` its id and username plus an opaque string. `Post` keeps its id, media id, user, likes and title.
- The React UI in `src/App.tsx` is not part of this model.
- The HTTP helper in `libs/services/api.service.ts` is not part of this model. It is a thin wrapper over `axios.get`.
- The `localStorage` cache in `libs/services/cache.service.ts` is not part of this model. `PostsManager` never uses it.
