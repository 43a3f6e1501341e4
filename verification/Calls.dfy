/**
  How one call uses the pool: `Function._run_one` acquires a session per attempt, discards it
  when the session failed and tries again, and releases it when the body answered or raised.
*/
module Calls {
  /** What becomes of one attempt. */
  datatype Attempt<T> =
    | NoSession                // acquire raised
    | Lost                     // the session or its protocol failed
    | Threw                    // the body, or anything else, raised
    | Gave(value: T)

  datatype Op = Acquire | Release | Discard

  datatype Result<T> = Value(value: T) | BodyRaised | Refused | RuntimeLost

  /** Every session acquired is given back, once, before the next is acquired. */
  ghost predicate Paired(trace: seq<Op>) {
    |trace| % 2 == 0
    && forall k :: 0 <= k < |trace| / 2 ==> trace[2 * k] == Acquire && trace[2 * k + 1] != Acquire
  }

  /** The first attempt that was not lost, or all of them. */
  ghost predicate LostBefore<T>(attempts: seq<Attempt<T>>, n: nat) {
    n <= |attempts| && forall k | 0 <= k < n :: attempts[k].Lost?
  }

  ghost predicate Answers<T>(last: Attempt<T>, result: Result<T>) {
    match last
    case NoSession => result == Refused
    case Lost => false
    case Threw => result == BodyRaised
    case Gave(v) => result == Value(v)
  }

  method RunOne<T>(attempts: seq<Attempt<T>>, retries: nat) returns (trace: seq<Op>, result: Result<T>)
    requires |attempts| == retries + 1
    ensures Paired(trace)
    ensures result.RuntimeLost? <==> LostBefore(attempts, retries + 1)
    ensures !result.RuntimeLost? ==>
              exists n :: 0 <= n <= retries && LostBefore(attempts, n) && Answers(attempts[n], result)
                          && |trace| == 2 * (if attempts[n].NoSession? then n else n + 1)
                          && (forall k | 0 <= k < n :: trace[2 * k + 1] == Discard)
                          && (!attempts[n].NoSession? ==> trace[2 * n + 1] == Release)
    ensures result.RuntimeLost? ==>
              |trace| == 2 * (retries + 1) && forall k | 0 <= k <= retries :: trace[2 * k + 1] == Discard
  {
    trace := [];
    for n := 0 to retries + 1
      invariant |trace| == 2 * n && Paired(trace) && LostBefore(attempts, n)
      invariant forall k | 0 <= k < n :: trace[2 * k + 1] == Discard
    {
      match attempts[n]
      case NoSession =>
        assert Answers(attempts[n], Refused);
        return trace, Refused;
      case Lost =>
        trace := trace + [Acquire, Discard];
      case Threw =>
        trace := trace + [Acquire, Release];
        assert Answers(attempts[n], BodyRaised);
        return trace, BodyRaised;
      case Gave(v) =>
        trace := trace + [Acquire, Release];
        assert Answers(attempts[n], Value(v));
        return trace, Value(v);
    }
    result := RuntimeLost;
  }
}
