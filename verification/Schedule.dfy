/** Building runs of the quota ledger step by step, for the theorems that say a run exists. */
module Schedule {
  import opened Wrappers
  import opened Money
  import opened QuotaLedger
  import opened QuotaGap
  import opened QuotaBound

  /** Token quota of every request, requests in the window, tokens a response, and whether Redis may drop the
      token counter or fail an IncrBy. */
  datatype Limit = Limit(quota: int, c: nat, m: nat, losses: bool, fails: bool)

  /** No backend fails. */
  predicate Ordinary(a: Action) {
    Warm(a) && (a.On? ==> !a.op.SelectFail? && !a.op.IncrCostFail?)
  }

  predicate Admissible(l: Limit, a: Action) {
    Ordinary(a) || (l.losses && a.LoseTok?) || (l.fails && a.On? && a.op.IncrTokFail?)
  }

  /** A request that has not done anything yet. */
  function Newcomer(l: Limit): Req {
    NewReq(Quota(Some(l.quota), None), true)
  }

  /** The run leads from s to t, within the window and without any failure. */
  ghost predicate Leads(l: Limit, s: State, run: seq<Action>, t: State) {
    && ValidRun(s, run) && Final(s, run) == t
    && Concurrency(s, run, l.quota, l.c, l.m)
    && forall a :: a in run ==> Admissible(l, a)
  }

  lemma {:induction false} LeadsOn(l: Limit, s: State, first: seq<Action>, t: State, second: seq<Action>, u: State)
    requires Leads(l, s, first, t) && Leads(l, t, second, u)
    ensures Leads(l, s, first + second, u)
    decreases |first|
  {
    if first == [] {
      assert first + second == second;
    } else {
      var s1 := Apply(s, first[0]);
      assert Leads(l, s1, first[1..], t);
      LeadsOn(l, s1, first[1..], t, second, u);
      assert (first + second)[1..] == first[1..] + second;
    }
  }

  lemma Single(l: Limit, s: State, a: Action)
    requires Enabled(s, a) && Admissible(l, a) && Window(s, l.quota) <= l.c && Window(Apply(s, a), l.quota) <= l.c
    requires Limits(a, l.quota, l.m)
    ensures Leads(l, s, [a], Apply(s, a))
  {
    var t := Apply(s, a);
    var none: seq<Action> := [];
    assert [a][1..] == none;
    assert ValidRun(t, none) && Final(t, none) == t && Concurrency(t, none, l.quota, l.c, l.m);
    assert ValidRun(s, [a]);
    assert Concurrency(s, [a], l.quota, l.c, l.m);
  }

  function InWindow(l: Limit, q: Req): int {
    Weigh(Admitted(l.quota), q) + Weigh(ArrivingCount, q)
  }

  /** One more step: the window changes by what the request that moves contributes. */
  lemma More(l: Limit, s: State, run: seq<Action>, t: State, r: nat, op: Op) returns (run': seq<Action>, u: State)
    requires Leads(l, s, run, t) && Enabled(t, On(r, op)) && Admissible(l, On(r, op)) && !op.SelectFail?
    requires Window(t, l.quota) - InWindow(l, t.reqs[r]) + InWindow(l, NextReq(t, t.reqs[r], op)) <= l.c
    requires Window(t, l.quota) <= l.c
    requires op.Respond? ==> ChargeOf(op.usage, op.price).tokens <= l.m
    ensures u == Apply(t, On(r, op)) && Leads(l, s, run', u)
    ensures Window(u, l.quota) == Window(t, l.quota) - InWindow(l, t.reqs[r]) + InWindow(l, NextReq(t, t.reqs[r], op))
  {
    u, run' := Apply(t, On(r, op)), run + [On(r, op)];
    SumUpdate(Admitted(l.quota), t.reqs, r, NextReq(t, t.reqs[r], op));
    SumUpdate(ArrivingCount, t.reqs, r, NextReq(t, t.reqs[r], op));
    Single(l, t, On(r, op));
    LeadsOn(l, s, run, t, [On(r, op)], u);
  }

  lemma MoreBegin(l: Limit, s: State, run: seq<Action>, t: State) returns (run': seq<Action>, u: State)
    requires Leads(l, s, run, t) && Window(t, l.quota) <= l.c
    ensures u == Apply(t, Begin(Quota(Some(l.quota), None), true)) && Leads(l, s, run', u)
    ensures Window(u, l.quota) == Window(t, l.quota)
  {
    u, run' := Apply(t, Begin(Quota(Some(l.quota), None), true)), run + [Begin(Quota(Some(l.quota), None), true)];
    SumAppend(Admitted(l.quota), t.reqs, Newcomer(l));
    SumAppend(ArrivingCount, t.reqs, Newcomer(l));
    Single(l, t, Begin(Quota(Some(l.quota), None), true));
    LeadsOn(l, s, run, t, [Begin(Quota(Some(l.quota), None), true)], u);
  }

  lemma MoreLoss(l: Limit, s: State, run: seq<Action>, t: State) returns (run': seq<Action>, u: State)
    requires Leads(l, s, run, t) && Window(t, l.quota) <= l.c && l.losses
    ensures u == Apply(t, LoseTok) && Leads(l, s, run', u)
    ensures Window(u, l.quota) == Window(t, l.quota)
  {
    u, run' := Apply(t, LoseTok), run + [LoseTok];
    Single(l, t, LoseTok);
    LeadsOn(l, s, run, t, [LoseTok], u);
  }

  // ----- stretches -----

  /** A key that is served from Redis. */
  ghost predicate Serving(l: Limit, s: State, tok: int, db: int, window: int) {
    && s.present && s.redisTok == Some(tok) && s.redisCost.Some?
    && s.totals.Some? && s.totals.value.tokens == db
    && Window(s, l.quota) == window
  }

  /** A request reads both counters and is let through. */
  lemma AdmitOne(l: Limit, s: State, run: seq<Action>, t: State, tok: int, db: int, w: nat)
    returns (run': seq<Action>, u: State)
    requires Leads(l, s, run, t) && Serving(l, t, tok, db, w) && tok < l.quota && w < l.c
    ensures Leads(l, s, run', u) && Serving(l, u, tok, db, w + 1)
    ensures u.reqs == t.reqs + [Newcomer(l).(pc := Forward)]
  {
    run', u := MoreBegin(l, s, run, t);
    run', u := ReadCounters(l, s, run', u, |t.reqs|, tok, db, w);
  }

  lemma ReadCounters(l: Limit, s: State, run: seq<Action>, t: State, n: nat, tok: int, db: int, w: nat)
    returns (run': seq<Action>, u: State)
    requires Leads(l, s, run, t) && Serving(l, t, tok, db, w) && tok < l.quota && w < l.c
    requires n < |t.reqs| && t.reqs[n] == Newcomer(l)
    ensures Leads(l, s, run', u) && Serving(l, u, tok, db, w + 1)
    ensures u.reqs == t.reqs[n := Newcomer(l).(pc := Forward)]
  {
    run', u := More(l, s, run, t, n, GetTok);
    run', u := More(l, s, run', u, n, GetCost);
  }

  /** A response of k tokens; an upstream may report negative counts. */
  function Use(k: int): Op {
    Respond(Usage(k - 1, 1, 0), None)
  }

  /** It uses k tokens, which reach the database. */
  lemma CommitSome(l: Limit, s: State, run: seq<Action>, t: State, n: nat, k: int, tok: int, db: int, w: nat)
    returns (run': seq<Action>, u: State)
    requires Leads(l, s, run, t) && Serving(l, t, tok, db, w) && w <= l.c && k != 0 && k <= l.m
    requires n < |t.reqs| && t.reqs[n] == Newcomer(l).(pc := Forward)
    ensures Leads(l, s, run', u) && Serving(l, u, tok, db + k, w)
    ensures |u.reqs| == |t.reqs| && u.reqs[..n] == t.reqs[..n]
    ensures u.reqs[n].pc == IncrTokNext && u.reqs[n].charge.tokens == k && InWindow(l, u.reqs[n]) == 1
  {
    run', u := More(l, s, run, t, n, Use(k));
    run', u := Commit(l, s, run', u, n, tok, db, w);
  }

  lemma Commit(l: Limit, s: State, run: seq<Action>, t: State, n: nat, tok: int, db: int, w: nat)
    returns (run': seq<Action>, u: State)
    requires Leads(l, s, run, t) && Serving(l, t, tok, db, w) && w <= l.c
    requires n < |t.reqs| && t.reqs[n].pc == UpsertNext
    ensures Leads(l, s, run', u) && Serving(l, u, tok, db + t.reqs[n].charge.tokens, w)
    ensures |u.reqs| == |t.reqs| && u.reqs[..n] == t.reqs[..n]
    ensures u.reqs[n].pc == IncrTokNext && u.reqs[n].charge == t.reqs[n].charge && InWindow(l, u.reqs[n]) == 1
  {
    run', u := More(l, s, run, t, n, Upsert);
  }

  /** And the counter. */
  lemma UseSome(l: Limit, s: State, run: seq<Action>, t: State, n: nat, k: int, tok: int, db: int, w: nat)
    returns (run': seq<Action>, u: State)
    requires Leads(l, s, run, t) && Serving(l, t, tok, db, w) && w <= l.c && k != 0 && k <= l.m
    requires n < |t.reqs| && t.reqs[n] == Newcomer(l).(pc := Forward)
    ensures Leads(l, s, run', u) && Serving(l, u, tok + k, db + k, w - 1)
    ensures |u.reqs| == |t.reqs| && u.reqs[..n] == t.reqs[..n]
  {
    run', u := CommitSome(l, s, run, t, n, k, tok, db, w);
    run', u := Increment(l, s, run', u, n, k, tok, db + k, w);
  }

  lemma Increment(l: Limit, s: State, run: seq<Action>, t: State, n: nat, k: int, tok: int, db: int, w: nat)
    returns (run': seq<Action>, u: State)
    requires Leads(l, s, run, t) && Serving(l, t, tok, db, w) && w <= l.c && n < |t.reqs|
    requires t.reqs[n].pc == IncrTokNext && t.reqs[n].charge.tokens == k && InWindow(l, t.reqs[n]) == 1
    ensures Leads(l, s, run', u) && Serving(l, u, tok + k, db, w - 1)
    ensures |u.reqs| == |t.reqs| && u.reqs[..n] == t.reqs[..n]
  {
    run', u := More(l, s, run, t, n, IncrTok);
  }

  /** One request of one token, from its quota check to its IncrBy. */
  lemma ServeOne(l: Limit, s: State, run: seq<Action>, t: State, tok: int, db: int, w: nat)
    returns (run': seq<Action>, u: State)
    requires Leads(l, s, run, t) && Serving(l, t, tok, db, w) && tok < l.quota && w < l.c && l.m >= 1
    ensures Leads(l, s, run', u) && Serving(l, u, tok + 1, db + 1, w)
    ensures |t.reqs| < |u.reqs| && u.reqs[..|t.reqs|] == t.reqs
  {
    run', u := AdmitOne(l, s, run, t, tok, db, w);
    run', u := UseSome(l, s, run', u, |t.reqs|, 1, tok, db, w + 1);
  }

  /** A fill that read a total below the quota runs its Set. */
  lemma ReopenAt(l: Limit, s: State, run: seq<Action>, t: State, r: nat, tok: int, db: int, w: nat)
    returns (run': seq<Action>, u: State)
    requires Leads(l, s, run, t) && Serving(l, t, tok, db, w) && w <= l.c
    requires r < |t.reqs| && t.reqs[r].pc.SetTokNext? && t.reqs[r].pc.tok < l.quota
    ensures Leads(l, s, run', u) && Serving(l, u, t.reqs[r].pc.tok, db, w)
  {
    run', u := More(l, s, run, t, r, SetTok(true));
  }

  /** A key whose token counter is absent, with no usage so far. */
  ghost predicate Cold(l: Limit, s: State) {
    && s.present && s.redisTok == None
    && s.totals == Some(Totals(0, 0)) && s.commits == 0
  }

  lemma AtStart(l: Limit, s: State)
    requires Fresh(s)
    ensures Leads(l, s, [], s) && Window(s, l.quota) == 0 && s.reqs == []
    ensures s.totals.Some? ==> Cold(l, s)
  {
  }

  /** A new request misses the counter. */
  lemma Miss(l: Limit, s: State, run: seq<Action>, t: State) returns (run': seq<Action>, u: State)
    requires Leads(l, s, run, t) && t.redisTok == None && Window(t, l.quota) <= l.c
    ensures Leads(l, s, run', u) && Window(u, l.quota) == Window(t, l.quota)
    ensures u == t.(reqs := t.reqs + [Newcomer(l).(pc := NeedSelect)])
  {
    run', u := MoreBegin(l, s, run, t);
    assert u == t.(reqs := t.reqs + [Newcomer(l)]);
    run', u := MissTheCounter(l, s, run', u, |t.reqs|);
  }

  lemma MissTheCounter(l: Limit, s: State, run: seq<Action>, t: State, n: nat) returns (run': seq<Action>, u: State)
    requires Leads(l, s, run, t) && t.redisTok == None && Window(t, l.quota) <= l.c
    requires n < |t.reqs| && t.reqs[n] == Newcomer(l)
    ensures Leads(l, s, run', u) && Window(u, l.quota) == Window(t, l.quota)
    ensures u == t.(reqs := t.reqs[n := Newcomer(l).(pc := NeedSelect)])
  {
    run', u := More(l, s, run, t, n, GetTok);
  }

  /** A new request misses the counter and reads the totals. */
  lemma ReadTotals(l: Limit, s: State, run: seq<Action>, t: State) returns (run': seq<Action>, u: State)
    requires Leads(l, s, run, t) && Cold(l, t) && Window(t, l.quota) < l.c && l.quota >= 1
    ensures Leads(l, s, run', u) && Cold(l, u) && Window(u, l.quota) == Window(t, l.quota) + 1
    ensures u.reqs == t.reqs + [Newcomer(l).(pc := SetTokNext(0, 0, 0))]
  {
    run', u := Miss(l, s, run, t);
    run', u := More(l, s, run', u, |t.reqs|, Select);
  }

  /** Two requests of a fresh key have read the totals. */
  lemma TwoReadTotals(l: Limit, s: State) returns (run: seq<Action>, t: State)
    requires Fresh(s) && s.totals.Some? && l.c >= 2 && l.quota >= 1
    ensures Leads(l, s, run, t) && Cold(l, t) && Window(t, l.quota) == 2
    ensures |t.reqs| == 2 && t.reqs[0] == t.reqs[1] == Newcomer(l).(pc := SetTokNext(0, 0, 0))
  {
    AtStart(l, s);
    run, t := ReadTotals(l, s, [], s);
    run, t := ReadTotals(l, s, run, t);
  }

  /** A request that read the totals sets the token counter. */
  lemma FillTokens(l: Limit, s: State, run: seq<Action>, t: State, r: nat) returns (run': seq<Action>, u: State)
    requires Leads(l, s, run, t) && Window(t, l.quota) <= l.c && l.quota >= 1
    requires r < |t.reqs| && t.reqs[r] == Newcomer(l).(pc := SetTokNext(0, 0, 0))
    ensures Leads(l, s, run', u) && Window(u, l.quota) == Window(t, l.quota)
    ensures u.reqs == t.reqs[r := Newcomer(l).(pc := SetCostNext(0, 0, 0))]
    ensures u.redisTok == Some(0) && u.present == t.present
    ensures u.totals == t.totals && u.redisCost == t.redisCost
  {
    run', u := More(l, s, run, t, r, SetTok(true));
  }

  /** It sets the cost counter, is let through, and goes away without a response. */
  lemma FillCost(l: Limit, s: State, run: seq<Action>, t: State, r: nat) returns (run': seq<Action>, u: State)
    requires Leads(l, s, run, t) && Window(t, l.quota) <= l.c && l.quota >= 1
    requires r < |t.reqs| && t.reqs[r] == Newcomer(l).(pc := SetCostNext(0, 0, 0))
    ensures Leads(l, s, run', u) && Window(u, l.quota) == Window(t, l.quota) - 1
    ensures u.reqs == t.reqs[r := Newcomer(l).(pc := Done)]
    ensures u.redisTok == t.redisTok && u.present == t.present
    ensures u.totals == t.totals && u.redisCost.Some?
  {
    run', u := SetTheCost(l, s, run, t, r);
    run', u := GoAway(l, s, run', u, r);
  }

  lemma GoAway(l: Limit, s: State, run: seq<Action>, t: State, r: nat) returns (run': seq<Action>, u: State)
    requires Leads(l, s, run, t) && Window(t, l.quota) <= l.c
    requires r < |t.reqs| && t.reqs[r] == Newcomer(l).(pc := Forward)
    ensures Leads(l, s, run', u) && Window(u, l.quota) == Window(t, l.quota) - 1
    ensures u == t.(reqs := t.reqs[r := Newcomer(l).(pc := Done)])
  {
    run', u := More(l, s, run, t, r, Abort);
  }

  lemma SetTheCost(l: Limit, s: State, run: seq<Action>, t: State, r: nat) returns (run': seq<Action>, u: State)
    requires Leads(l, s, run, t) && Window(t, l.quota) <= l.c && l.quota >= 1
    requires r < |t.reqs| && t.reqs[r] == Newcomer(l).(pc := SetCostNext(0, 0, 0))
    ensures Leads(l, s, run', u) && Window(u, l.quota) == Window(t, l.quota)
    ensures u.reqs == t.reqs[r := Newcomer(l).(pc := Forward)]
    ensures u.redisTok == t.redisTok && u.present == t.present && u.totals == t.totals && u.redisCost.Some?
  {
    run', u := More(l, s, run, t, r, SetCost(true));
  }

  lemma SumOfOne(w: Weight, q: Req)
    ensures Sum(w, [q]) == Weigh(w, q)
  {
    SumAppend(w, [], q);
    assert [] + [q] == [q];
  }

  /** One quiet fill from a fresh key: a single request reads the totals, sets both counters and goes. */
  lemma QuietFill(l: Limit, s: State) returns (run: seq<Action>, t: State)
    requires Fresh(s) && s.totals.Some? && l.quota >= 1 && l.c >= 1
    ensures Leads(l, s, run, t) && Serving(l, t, 0, 0, 0) && t.reqs == [Newcomer(l).(pc := Done)]
  {
    AtStart(l, s);
    run, t := ReadTotals(l, s, [], s);
    assert t.reqs == [Newcomer(l).(pc := SetTokNext(0, 0, 0))];
    run, t := FillTokens(l, s, run, t, 0);
    run, t := FillCost(l, s, run, t, 0);
  }

  /** Such a fill leaves a warmed state, from which QuotaBound.WarmOvershootBound speaks of every run. */
  lemma QuietFillWarms(s: State, quota: int, c: nat, m: nat) returns (run: seq<Action>)
    requires Fresh(s) && s.totals.Some? && quota >= 1 && c >= 1
    ensures ValidRun(s, run) && Concurrency(s, run, quota, c, m) && forall a :: a in run ==> Ordinary(a)
    ensures Warmed(Final(s, run)) && BoundInv(Final(s, run), quota, c, m, 0)
  {
    var l := Limit(quota, c, m, false, false);
    var t;
    run, t := QuietFill(l, s);
    assert forall a :: a in run ==> Admissible(l, a);
    SumOfOne(Arriving, t.reqs[0]);
    assert Sum(Admitted(quota), t.reqs) == 0 by { SumOfOne(Admitted(quota), t.reqs[0]); }
    Scale(m, 0, c);
  }
}
