/** Finished focus sessions as the backend reports them (the `Session` binding), and their summed duration. */
module FocusSessions {

  /** A finished focus session: its length and the millisecond timestamp, as a string, at which it ended. */
  datatype Session = Session(duration: int, finishedAt: string)

  /** `sessions.reduce((p, c) => p + c.duration, 0)`: a left fold, so the last session is added last. */
  function TotalDuration(sessions: seq<Session>): (r: int)
    ensures (forall s :: s in sessions ==> s.duration >= 0) ==> r >= 0
  {
    if sessions == [] then 0
    else TotalDuration(sessions[..|sessions| - 1]) + sessions[|sessions| - 1].duration
  }

  /** The total of two runs of sessions is the sum of their totals. */
  lemma {:induction false} TotalDurationConcat(a: seq<Session>, b: seq<Session>)
    ensures TotalDuration(a + b) == TotalDuration(a) + TotalDuration(b)
  {
    if b == [] {
      assert a + b == a;
    } else {
      assert (a + b)[..|a + b| - 1] == a + b[..|b| - 1];
      TotalDurationConcat(a, b[..|b| - 1]);
    }
  }

  /** When every duration lies in `lo..hi`, the total lies between `lo` and `hi` times the count. */
  lemma {:induction false} TotalDurationBounds(sessions: seq<Session>, lo: int, hi: int)
    requires forall s :: s in sessions ==> lo <= s.duration <= hi
    ensures lo * |sessions| <= TotalDuration(sessions) <= hi * |sessions|
  {
    if sessions != [] {
      var init := sessions[..|sessions| - 1];
      assert forall s :: s in init ==> s in sessions;
      TotalDurationBounds(init, lo, hi);
      assert sessions[|sessions| - 1] in sessions;
      MulSucc(lo, |init|);
      MulSucc(hi, |init|);
    }
  }

  lemma MulSucc(x: int, n: nat)
    ensures x * (n + 1) == x * n + x
  {
  }
}
