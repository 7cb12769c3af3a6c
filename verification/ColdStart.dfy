/** Why the overshoot bound speaks of usages that fills lose: from a fresh key with cold counters, a fill
    that sleeps between its SELECT and its Set wipes out increments, and Q - 1 + C*M is exceeded with no
    backend error at all. */
module ColdStart {
  import opened Wrappers
  import opened QuotaLedger
  import opened QuotaBound
  import opened Schedule

  const Q := 2
  const C := 2
  const M := 1

  const LIMIT := Limit(Q, C, M, false, false)

  /** Request 0 has read the totals and sleeps before its Set; request 1 has filled both counters and gone. */
  lemma ColdFills(s: State) returns (run: seq<Action>, t: State)
    requires Fresh(s) && s.totals.Some?
    ensures Leads(LIMIT, s, run, t) && Serving(LIMIT, t, 0, 0, 1)
    ensures |t.reqs| == 2 && t.reqs[0] == Newcomer(LIMIT).(pc := SetTokNext(0, 0, 0))
  {
    run, t := TwoReadTotals(LIMIT, s);
    run, t := FillTokens(LIMIT, s, run, t, 1);
    run, t := FillCost(LIMIT, s, run, t, 1);
  }

  /** The bound of QuotaBound.OvershootBoundUnlessLost fails when a fill loses usages. */
  lemma ColdStartExceedsWarmBound(s: State) returns (run: seq<Action>)
    requires Fresh(s) && s.totals.Some?
    ensures ValidRun(s, run) && Concurrency(s, run, Q, C, M)
    ensures forall a :: a in run ==> Ordinary(a)
    ensures DbTokens(Final(s, run)) > Q - 1 + C * M
  {
    var t: State;
    run, t := ColdFills(s);
    run, t := ServeOne(LIMIT, s, run, t, 0, 0, 1);
    run, t := ServeOne(LIMIT, s, run, t, 1, 1, 1);
    assert t.reqs[0].pc == SetTokNext(0, 0, 0);
    run, t := ReopenAt(LIMIT, s, run, t, 0, 2, 2, 1);
    run, t := ServeOne(LIMIT, s, run, t, 0, 2, 1);
    run, t := ServeOne(LIMIT, s, run, t, 1, 3, 1);
    assert forall a :: a in run ==> Admissible(LIMIT, a);
  }
}
