/** What a lost counter and a failed IncrBy cost.  When Redis drops qt:tok:<id> between a usage's commit and its
    IncrBy, the counter restarts from that usage alone; when the IncrBy fails, AddUsage ignores the error.
    QuotaGap.SoundExactlyWhenNothingIsLost names both as guards; here each is used, from a fresh key and with one
    request at a time, to pass every bound. */
module LostCounter {
  import opened Wrappers
  import opened QuotaLedger
  import opened QuotaGap
  import opened QuotaBound
  import opened Schedule

  lemma IncrementAfterLoss(l: Limit, s: State, run: seq<Action>, t: State, n: nat, tok: int, db: int)
    returns (run': seq<Action>, u: State)
    requires Leads(l, s, run, t) && Serving(l, t, tok, db, 1) && l.c >= 1 && l.losses && n < |t.reqs|
    requires t.reqs[n].pc == IncrTokNext && t.reqs[n].charge.tokens == 1 && InWindow(l, t.reqs[n]) == 1
    ensures Leads(l, s, run', u) && Serving(l, u, 1, db, 0)
  {
    run', u := MoreLoss(l, s, run, t);
    run', u := FirstIncrement(l, s, run', u, n, db);
  }

  lemma FirstIncrement(l: Limit, s: State, run: seq<Action>, t: State, n: nat, db: int)
    returns (run': seq<Action>, u: State)
    requires Leads(l, s, run, t) && t.redisTok == None && Serving(l, t.(redisTok := Some(0)), 0, db, 1) && l.c >= 1
    requires n < |t.reqs| && t.reqs[n].pc == IncrTokNext && t.reqs[n].charge.tokens == 1 && InWindow(l, t.reqs[n]) == 1
    ensures Leads(l, s, run', u) && Serving(l, u, 1, db, 0)
  {
    run', u := More(l, s, run, t, n, IncrTok);
  }

  lemma IncrementFails(l: Limit, s: State, run: seq<Action>, t: State, n: nat, tok: int, db: int)
    returns (run': seq<Action>, u: State)
    requires Leads(l, s, run, t) && Serving(l, t, tok, db, 1) && l.c >= 1 && l.fails && n < |t.reqs|
    requires t.reqs[n].pc == IncrTokNext && InWindow(l, t.reqs[n]) == 1
    ensures Leads(l, s, run', u) && Serving(l, u, tok, db, 0)
  {
    run', u := More(l, s, run, t, n, IncrTokFail);
  }

  /** One request of one token whose IncrBy finds the counter gone, or fails. */
  lemma ServeOneUncounted(l: Limit, s: State, run: seq<Action>, t: State, tok: int, db: int)
    returns (run': seq<Action>, u: State)
    requires Leads(l, s, run, t) && Serving(l, t, tok, db, 0) && tok < l.quota && l.c >= 1 && l.m >= 1
    requires l.losses || l.fails
    ensures Leads(l, s, run', u) && Serving(l, u, if l.losses then 1 else tok, db + 1, 0)
  {
    run', u := AdmitOne(l, s, run, t, tok, db, 0);
    run', u := CommitSome(l, s, run', u, |t.reqs|, 1, tok, db, 1);
    if l.losses {
      run', u := IncrementAfterLoss(l, s, run', u, |t.reqs|, tok, db + 1);
    } else {
      run', u := IncrementFails(l, s, run', u, |t.reqs|, tok, db + 1);
    }
  }

  lemma {:induction false} ServeMany(l: Limit, s: State, n: nat) returns (run: seq<Action>, t: State)
    requires Fresh(s) && s.totals.Some? && l.c >= 1 && l.m >= 1
    requires if l.losses then l.quota >= 2 else l.fails && l.quota >= 1
    ensures Leads(l, s, run, t) && Serving(l, t, if l.losses && n > 0 then 1 else 0, n, 0)
    decreases n
  {
    if n == 0 {
      run, t := QuietFill(l, s);
    } else {
      run, t := ServeMany(l, s, n - 1);
      run, t := ServeOneUncounted(l, s, run, t, if l.losses && n > 1 then 1 else 0, n - 1);
    }
  }

  /** Past the quota some guard must have fired. */
  lemma GuardMustFire(s: State, run: seq<Action>, quota: int)
    requires Fresh(s) && quota >= 1 && ValidRun(s, run) && Concurrency(s, run, quota, 1, 1)
    requires DbTokens(Final(s, run)) > quota
    ensures !NeverLosesUsage(s, run)
  {
    if NeverLosesUsage(s, run) {
      OvershootBoundUnlessLost(s, run, Final(s, run), quota, 1, 1);
    }
  }

  /** With losses there is no bound: whatever the quota (of at least 2), from a fresh key, one request at a
      time, one token each, with no error but counters dropped before their IncrBy, the database total
      reaches every number. */
  lemma LostCountersUnbounded(s: State, quota: int, total: nat) returns (run: seq<Action>)
    requires Fresh(s) && s.totals.Some? && quota >= 2
    ensures ValidRun(s, run) && Concurrency(s, run, quota, 1, 1)
    ensures forall a :: a in run ==> Ordinary(a) || a.LoseTok?
    ensures DbTokens(Final(s, run)) == total
    ensures total > quota ==> !NeverLosesUsage(s, run)
  {
    var l := Limit(quota, 1, 1, true, false);
    var t;
    run, t := ServeMany(l, s, total);
    assert forall a :: a in run ==> Admissible(l, a);
    if total > quota {
      GuardMustFire(s, run, quota);
    }
  }

  /** The same when nothing is dropped but every IncrBy fails, whatever the quota. */
  lemma FailedIncrementsUnbounded(s: State, quota: int, total: nat) returns (run: seq<Action>)
    requires Fresh(s) && s.totals.Some? && quota >= 1
    ensures ValidRun(s, run) && Concurrency(s, run, quota, 1, 1)
    ensures forall a :: a in run ==> Ordinary(a) || (a.On? && a.op.IncrTokFail?)
    ensures DbTokens(Final(s, run)) == total
    ensures total > quota ==> !NeverLosesUsage(s, run)
  {
    var l := Limit(quota, 1, 1, false, true);
    var t;
    run, t := ServeMany(l, s, total);
    assert forall a :: a in run ==> Admissible(l, a);
    if total > quota {
      GuardMustFire(s, run, quota);
    }
  }
}
