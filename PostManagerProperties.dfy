/** What repeated `getNextPost` calls do: the loaded list only grows, the
    cursor counts the calls, a feed that serves one fixed list slice by slice
    is streamed in order without gaps, and a single failed fetch makes the
    manager skip and repeat feed positions because the next page is requested
    at the cursor. */
module PostManagerProperties {
  import opened PostsTypes
  import opened PostManager

  /** `feeds[i]` answers the i-th of |feeds| successive `getNextPost` calls;
      the result lists what each call returned. */
  function Run(s: State, limit: int, feeds: seq<FeedApi>): (out: Step<seq<Option<Post>>>)
    ensures |out.result| == |feeds|
    decreases |feeds|
  {
    if feeds == [] then Step(s, [])
    else
      var first := NextPost(s, limit, feeds[0]);
      var rest := Run(first.state, limit, feeds[1..]);
      Step(rest.state, [first.result] + rest.result)
  }

  /** Across any number of calls, whatever the server answers, the posts
      loaded before stay in place and the cursor advances by exactly the
      number of calls. */
  lemma {:induction false} RunGrowsMonotonically(s: State, limit: int, feeds: seq<FeedApi>)
    ensures s.posts <= Run(s, limit, feeds).state.posts
    ensures Run(s, limit, feeds).state.cursor == s.cursor + |feeds|
    decreases |feeds|
  {
    if feeds != [] {
      var first := NextPost(s, limit, feeds[0]);
      RunGrowsMonotonically(first.state, limit, feeds[1..]);
    }
  }

  /** A server holding the fixed list `all`: a request at an offset inside the
      list is answered with the next `limit` posts (fewer at the end), one at
      or past the end with an upstream failure. */
  function Serve(all: seq<Post>): FeedApi
  {
    (req: PageRequest) =>
      if 0 <= req.offset < |all| then
        var end := if req.limit <= 0 then req.offset
                   else if req.offset + req.limit <= |all| then req.offset + req.limit
                   else |all|;
        Ok(all[req.offset..end])
      else Failed("No more posts available")
  }

  /** The loaded posts are the start of `all`, and the cursor is within them
      unless everything has been loaded. */
  ghost predicate Aligned(s: State, all: seq<Post>)
  {
    s.posts <= all && (s.cursor <= |s.posts| || s.posts == all)
  }

  /** One call against `Serve(all)` from an aligned state returns the post
      of `all` at the cursor (nothing past the end) and stays aligned. */
  lemma NextPostAgainstServe(s: State, all: seq<Post>, limit: int)
    requires limit >= 1 && Aligned(s, all)
    ensures var out := NextPost(s, limit, Serve(all));
            Aligned(out.state, all) &&
            out.result == if s.cursor < |all| then Some(all[s.cursor]) else None
  {
  }

  /** Against a server that serves one fixed list and never fails inside it,
      the manager hands the posts out in order, each exactly once, starting
      at the cursor, and returns nothing once the list is exhausted. */
  lemma {:induction false} StreamsFeedInOrder(s: State, all: seq<Post>, limit: int, feeds: seq<FeedApi>)
    requires limit >= 1 && Aligned(s, all)
    requires forall i :: 0 <= i < |feeds| ==> feeds[i] == Serve(all)
    ensures var out := Run(s, limit, feeds).result;
            forall i :: 0 <= i < |feeds| ==>
              out[i] == if s.cursor + i < |all| then Some(all[s.cursor + i]) else None
    decreases |feeds|
  {
    if feeds != [] {
      var first := NextPost(s, limit, feeds[0]);
      NextPostAgainstServe(s, all, limit);
      StreamsFeedInOrder(first.state, all, limit, feeds[1..]);
      var out := Run(s, limit, feeds).result;
      assert out == [first.result] + Run(first.state, limit, feeds[1..]).result;
      forall i | 0 <= i < |feeds|
        ensures out[i] == if s.cursor + i < |all| then Some(all[s.cursor + i]) else None
      {
        if i > 0 {
          assert out[i] == Run(first.state, limit, feeds[1..]).result[i - 1];
        }
      }
    }
  }

  /** A new manager polled against such a server returns `all[i]` on its
      i-th call. */
  lemma FreshManagerStreamsFeed(all: seq<Post>, feeds: seq<FeedApi>)
    requires forall i :: 0 <= i < |feeds| ==> feeds[i] == Serve(all)
    ensures var out := Run(State([], 0), PageSize, feeds).result;
            forall i :: 0 <= i < |feeds| && i < |all| ==> out[i] == Some(all[i])
  {
    var start := State([], 0);
    assert Aligned(start, all) by { assert start.posts <= all; }
    StreamsFeedInOrder(start, all, PageSize, feeds);
  }

  /** The cursor can run past the loaded posts: when the fetch fails, the
      call returns nothing and the cursor still moves. So "cursor <= number
      of loaded posts" is not an invariant of `getNextPost`. */
  lemma CursorMayPassLoadedPosts(e: Exception)
    ensures var out := NextPost(State([], 0), PageSize, (req: PageRequest) => Raised(e));
            out.result == None && out.state == State([], 1) &&
            out.state.cursor > |out.state.posts|
  {
  }

  /** One transient failure misaligns the list against the feed. The first
      call fails and moves the cursor to 1. The second asks the server for
      offset 1 (the cursor), stores feed positions 1 and 2 at list positions 0
      and 1, and returns list position 1, which is feed position 2. The third
      asks for offset 2, appends feed position 2 again and returns it again.
      So in three calls feed positions 0 and 1 are never returned and feed
      position 2 is returned twice. */
  lemma TransientFailureSkipsPosts(a: Post, b: Post, c: Post, e: Exception)
    ensures var out := Run(State([], 0), PageSize,
                           [(req: PageRequest) => Raised(e), Serve([a, b, c]), Serve([a, b, c])]);
            out.result == [None, Some(c), Some(c)] && out.state == State([b, c, c], 3)
  {
    var all := [a, b, c];
    var feeds: seq<FeedApi> := [(req: PageRequest) => Raised(e), Serve(all), Serve(all)];
    assert NextPost(State([], 0), PageSize, feeds[0]) == Step(State([], 1), None);
    assert all[1..3] == [b, c] && all[2..3] == [c];
    assert Serve(all)(PageRequest(1, 2)) == Ok([b, c]);
    assert Serve(all)(PageRequest(2, 2)) == Ok([c]);
    var tail1 := feeds[1..];
    var tail2 := tail1[1..];
    assert tail1[0] == Serve(all) && tail2[0] == Serve(all) && tail2[1..] == [];
    assert NextPost(State([], 1), PageSize, tail1[0]) == Step(State([b, c], 2), Some(c));
    assert [b, c] + [c] == [b, c, c];
    assert NextPost(State([b, c], 2), PageSize, tail2[0]) == Step(State([b, c, c], 3), Some(c));
    assert Run(State([b, c, c], 3), PageSize, tail2[1..]) == Step(State([b, c, c], 3), []);
    assert tail2 != [] && [Some(c)] + [] == [Some(c)];
    assert Run(State([b, c], 2), PageSize, tail2) == Step(State([b, c, c], 3), [Some(c)]);
    assert tail1 != [] && [Some(c)] + [Some(c)] == [Some(c), Some(c)];
    assert Run(State([], 1), PageSize, tail1) == Step(State([b, c, c], 3), [Some(c), Some(c)]);
    assert [None] + [Some(c), Some(c)] == [None, Some(c), Some(c)];
  }
}
