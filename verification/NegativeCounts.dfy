/** Why ColdBound asks for counts that are not negative: a fill that read the totals while they were negative
    sets the counter as far below zero, and as much is served again.  No backend fails, nothing is lost, two
    requests are in the window at most and no response has more than one token. */
module NegativeCounts {
  import opened Wrappers
  import opened QuotaLedger
  import opened QuotaBound
  import opened Schedule

  /** Request 0 has missed the counter; request 1 has filled both counters and is let through. */
  lemma MissThenFill(l: Limit, s: State) returns (run: seq<Action>, t: State)
    requires Fresh(s) && s.totals.Some? && l.c >= 1 && l.quota >= 1
    ensures Leads(l, s, run, t) && Serving(l, t, 0, 0, 1)
    ensures |t.reqs| == 2 && t.reqs[0] == Newcomer(l).(pc := NeedSelect)
    ensures t.reqs[1] == Newcomer(l).(pc := Forward)
  {
    AtStart(l, s);
    run, t := Miss(l, s, [], s);
    run, t := ReadTotals(l, s, run, t);
    run, t := FillTokens(l, s, run, t, 1);
    run, t := SetTheCost(l, s, run, t, 1);
  }

  lemma SelectNow(l: Limit, s: State, run: seq<Action>, t: State, r: nat, db: int)
    returns (run': seq<Action>, u: State)
    requires Leads(l, s, run, t) && Serving(l, t, db, db, 0) && db < l.quota && l.c >= 1
    requires r < |t.reqs| && t.reqs[r] == Newcomer(l).(pc := NeedSelect)
    ensures Leads(l, s, run', u) && Serving(l, u, db, db, 1) && |u.reqs| == |t.reqs|
    ensures u.reqs[r].pc.SetTokNext? && u.reqs[r].pc.tok == db
  {
    run', u := More(l, s, run, t, r, Select);
  }

  /** Request 1 reports a negative count and request 0 reads that total, to sleep before its Set. */
  lemma ReadNegative(l: Limit, s: State, low: int) returns (run: seq<Action>, t: State)
    requires Fresh(s) && s.totals.Some? && l.c >= 2 && l.quota >= 1 && low < 0
    ensures Leads(l, s, run, t) && Serving(l, t, low, low, 1)
    ensures |t.reqs| == 2 && t.reqs[0].pc.SetTokNext? && t.reqs[0].pc.tok == low
  {
    run, t := MissThenFill(l, s);
    ghost var before := t.reqs;
    run, t := UseSome(l, s, run, t, 1, low, 0, 0, 1);
    assert t.reqs[0] == t.reqs[..1][0] == before[0];
    run, t := SelectNow(l, s, run, t, 0, low);
  }

  /** k requests of one token, one after the other, beside the sleeping one. */
  lemma {:induction false} ServeUp(l: Limit, s: State, run: seq<Action>, t: State, tok: int, db: int, k: nat)
    returns (run': seq<Action>, u: State)
    requires Leads(l, s, run, t) && Serving(l, t, tok, db, 1) && l.c >= 2 && l.m >= 1
    requires tok + k <= l.quota && |t.reqs| >= 1
    ensures Leads(l, s, run', u) && Serving(l, u, tok + k, db + k, 1)
    ensures |u.reqs| >= 1 && u.reqs[0] == t.reqs[0]
    decreases k
  {
    run', u := run, t;
    if k > 0 {
      run', u := ServeOne(l, s, run, t, tok, db, 1);
      assert u.reqs[0] == u.reqs[..|t.reqs|][0] == t.reqs[0];
      run', u := ServeUp(l, s, run', u, tok + 1, db + 1, k - 1);
    }
  }

  /** No bound in Q, C and M holds for cold counters when counts may be negative. */
  lemma NegativeCountsUnbounded(s: State, quota: int, total: nat) returns (run: seq<Action>)
    requires Fresh(s) && s.totals.Some? && quota >= 1
    ensures ValidRun(s, run) && Concurrency(s, run, quota, 2, 1)
    ensures forall a :: a in run ==> Ordinary(a)
    ensures DbTokens(Final(s, run)) > total
  {
    var l := Limit(quota, 2, 1, false, false);
    var low: int := -1 - total;
    var t;
    run, t := ReadNegative(l, s, low);
    run, t := ServeUp(l, s, run, t, low, low, quota - low);
    run, t := ReopenAt(l, s, run, t, 0, quota, quota, 1);
    run, t := ServeUp(l, s, run, t, low, quota, quota - low);
    assert forall a :: a in run ==> Admissible(l, a);
  }
}
