/** `retryRequest(fn, retries, delay = 1000)`: call `fn`; on a throw, give up
    with that very error when no retries are left, otherwise wait `delay` and
    start over with one retry fewer and twice the delay.

    `fn` is modelled by the outcomes of its successive invocations: the i-th
    call of `fn` yields `outcomes[i]`. The waits are recorded instead of being
    slept, and the number of invocations is counted. */
module Retry {
  import opened PostsTypes

  /** What one invocation of `fn` does: resolve with a value or throw. */
  datatype Outcome<+T> = Returned(value: T) | Threw(error: Exception)

  /** The observable behaviour of one `retryRequest` call: the value it
      resolves with or the error it rethrows, how many times it invoked `fn`,
      and the delays it waited, in order. */
  datatype Trace<+T> = Trace(result: Outcome<T>, calls: nat, waits: seq<int>)

  /** The default value of the `delay` parameter, in milliseconds. */
  const DefaultDelay: int := 1000

  function Pow2(k: nat): (p: nat)
    ensures p >= 1
  {
    if k == 0 then 1 else 2 * Pow2(k - 1)
  }

  /** The k-th wait is `delay * 2^k`. */
  ghost predicate Backoff(waits: seq<int>, delay: int)
  {
    forall k :: 0 <= k < |waits| ==> waits[k] == delay * Pow2(k)
  }

  function Sum(s: seq<int>): int
  {
    if s == [] then 0 else s[0] + Sum(s[1..])
  }

  /** The whole behaviour of `retryRequest(fn, retries, delay)`. Only the first
      `retries + 1` invocations of `fn` can ever happen, so that many outcomes
      are needed. A negative `retries` is not admitted: it never meets the
      `=== 0` test and keeps recursing while `fn` throws.

      The contract says: `fn` is invoked at most `retries + 1` times; every
      invocation but the last threw; the result is the last invocation's
      outcome (its value, or its error rethrown unchanged); the calls stop
      early only on a value; one wait separates each two invocations, and the
      waits grow geometrically from `delay`. */
  function RetryRequest<T>(outcomes: seq<Outcome<T>>, retries: nat, delay: int): (r: Trace<T>)
    requires retries < |outcomes|
    ensures 1 <= r.calls <= retries + 1
    ensures forall i :: 0 <= i < r.calls - 1 ==> outcomes[i].Threw?
    ensures r.result == outcomes[r.calls - 1]
    ensures r.result.Threw? ==> r.calls == retries + 1
    ensures |r.waits| == r.calls - 1
    ensures Backoff(r.waits, delay)
    decreases retries
  {
    match outcomes[0]
    case Returned(_) => Trace(outcomes[0], 1, [])
    case Threw(error) =>
      if retries == 0 then Trace(Threw(error), 1, [])
      else
        var rest := RetryRequest(outcomes[1..], retries - 1, delay * 2);
        DoubledBackoff(rest.waits, delay);
        Trace(rest.result, rest.calls + 1, [delay] + rest.waits)
  }

  /** A backoff schedule started at `2 * delay` is the tail of one started at `delay`. */
  lemma DoubledBackoff(waits: seq<int>, delay: int)
    requires Backoff(waits, delay * 2)
    ensures Backoff([delay] + waits, delay)
  {
  }

  /** `retryRequest(fn, retries)` with `delay` omitted. */
  function RetryRequestDefault<T>(outcomes: seq<Outcome<T>>, retries: nat): (r: Trace<T>)
    requires retries < |outcomes|
    ensures r.waits != [] ==> r.waits[0] == 1000
  {
    RetryRequest(outcomes, retries, DefaultDelay)
  }

  /** A first invocation that resolves is returned at once: one call, no wait. */
  lemma FastPath<T>(outcomes: seq<Outcome<T>>, retries: nat, delay: int)
    requires retries < |outcomes| && outcomes[0].Returned?
    ensures RetryRequest(outcomes, retries, delay) == Trace(outcomes[0], 1, [])
  {
  }

  /** With no retries left, a throw is passed on unchanged after one call. */
  lemma NoRetriesRethrows<T>(outcomes: seq<Outcome<T>>, delay: int)
    requires 0 < |outcomes| && outcomes[0].Threw?
    ensures RetryRequest(outcomes, 0, delay) == Trace(Threw(outcomes[0].error), 1, [])
  {
  }

  /** After a throw with retries left, the call waits `delay` and then behaves
      exactly as `retryRequest(fn, retries - 1, delay * 2)` on the remaining
      invocations. */
  lemma RetryStep<T>(outcomes: seq<Outcome<T>>, retries: nat, delay: int)
    requires retries < |outcomes| && retries > 0 && outcomes[0].Threw?
    ensures var rest := RetryRequest(outcomes[1..], retries - 1, delay * 2);
            RetryRequest(outcomes, retries, delay)
              == Trace(rest.result, rest.calls + 1, [delay] + rest.waits)
  {
  }

  /** Dropping the first wait of a schedule started at `delay` leaves one
      started at `delay * 2`. */
  lemma BackoffTail(waits: seq<int>, delay: int)
    requires Backoff(waits, delay) && waits != []
    ensures Backoff(waits[1..], delay * 2)
  {
    forall k | 0 <= k < |waits| - 1 ensures waits[1..][k] == (delay * 2) * Pow2(k) {
      var q := Pow2(k);
      assert waits[k + 1] == delay * (2 * q);
      assert delay * (2 * q) == (delay * 2) * q;
    }
  }

  /** A geometric backoff schedule of n waits adds up to `delay * (2^n - 1)`. */
  lemma {:induction false} BackoffSum(waits: seq<int>, delay: int)
    requires Backoff(waits, delay)
    ensures Sum(waits) == delay * (Pow2(|waits|) - 1)
  {
    if waits != [] {
      var tail := waits[1..];
      BackoffTail(waits, delay);
      BackoffSum(tail, delay * 2);
      var p := Pow2(|tail|);
      assert Pow2(|waits|) == 2 * p;
      assert delay + (delay * 2) * (p - 1) == delay * (2 * p - 1) by {
        assert (delay * 2) * (p - 1) == delay * (2 * p - 2);
      }
    }
  }

  /** When every permitted invocation throws, `fn` runs exactly `retries + 1`
      times, the last error is rethrown, and the total waiting time is
      `delay * (2^retries - 1)`. */
  lemma {:induction false} AllFail<T>(outcomes: seq<Outcome<T>>, retries: nat, delay: int)
    requires retries < |outcomes|
    requires forall i :: 0 <= i <= retries ==> outcomes[i].Threw?
    ensures var r := RetryRequest(outcomes, retries, delay);
            r.calls == retries + 1 && r.result == outcomes[retries] &&
            |r.waits| == retries && Sum(r.waits) == delay * (Pow2(retries) - 1)
  {
    var r := RetryRequest(outcomes, retries, delay);
    assert r.result.Threw? by { assert outcomes[r.calls - 1].Threw?; }
    assert |r.waits| == retries;
    BackoffSum(r.waits, delay);
  }

  /** The result is the first value `fn` resolves with among its first
      `retries + 1` invocations, and the number of waits is the number of
      throws before it. */
  lemma FirstSuccessWins<T>(outcomes: seq<Outcome<T>>, retries: nat, delay: int, k: nat)
    requires k <= retries < |outcomes|
    requires outcomes[k].Returned?
    requires forall i :: 0 <= i < k ==> outcomes[i].Threw?
    ensures var r := RetryRequest(outcomes, retries, delay);
            r.result == outcomes[k] && r.calls == k + 1 && |r.waits| == k
  {
  }

  /** Five retries with the default delay, every call failing: six calls and
      1000 + 2000 + 4000 + 8000 + 16000 = 31000 ms of waiting. */
  lemma FiveRetriesAllFail<T>(outcomes: seq<Outcome<T>>)
    requires |outcomes| == 6 && forall i :: 0 <= i < 6 ==> outcomes[i].Threw?
    ensures var r := RetryRequestDefault(outcomes, 5);
            r.calls == 6 && r.result == outcomes[5] && Sum(r.waits) == 31000
  {
    AllFail(outcomes, 5, DefaultDelay);
    assert Pow2(5) == 32;
  }
}
