/** A bound for cold counters in Q, C and M alone.  Only a fill whose SELECT was below the quota can reopen
    it, such a fill is in the window, and none starts once the database has reached the quota: so at most
    C fills reopen the quota, and each adds at most Q - 1 + C*M to the total. */
module ColdBound {
  import opened Wrappers
  import opened QuotaLedger
  import opened QuotaGap
  import opened QuotaBound

  /** The bound for warm counters. */
  function WarmBound(quota: int, c: nat, m: nat): int {
    quota - 1 + c * m
  }

  /** No counter is lost, no IncrBy fails, and a response has from 0 to m tokens. */
  predicate ColdLimits(a: Action, quota: int, m: nat) {
    && Limits(a, quota, m) && !a.LoseTok?
    && (a.On? ==> !a.op.IncrTokFail? && (a.op.Respond? ==> ChargeOf(a.op.usage, a.op.price).tokens >= 0))
  }

  function LowFills(s: State, quota: int): int {
    Sum(LowFill(quota), s.reqs)
  }

  /** What may be committable while low fills are still to run their Set. */
  function Ceiling(quota: int, c: nat, m: nat, low: int): int {
    (c + 1 - low) * WarmBound(quota, c, m)
  }

  /** How far the counter may be behind while low fills are still to run their Set. */
  function Behind(quota: int, c: nat, m: nat, low: int): int {
    var b := (c - low) * WarmBound(quota, c, m);
    if quota - 1 <= b then b else quota - 1
  }

  /** What the database has and Redis has not, usages on their way apart. */
  function Missing(s: State): int {
    DbTokens(s) - RedisTokens(s) - Sum(Arriving, s.reqs)
  }

  predicate NonNegativeReq(q: Req) {
    q.charge.tokens >= 0 && (q.pc.SetTokNext? ==> q.pc.tok >= 0)
  }

  ghost predicate NonNegative(reqs: seq<Req>) {
    forall i :: 0 <= i < |reqs| ==> NonNegativeReq(reqs[i])
  }

  ghost predicate Base(s: State, quota: int, m: nat) {
    && AllWithin(s.reqs, quota, m) && NonNegative(s.reqs)
    && DbTokens(s) >= 0 && RedisTokens(s) >= 0
    && quota >= 1
  }

  /** How much is committable, and how far the counter is behind, by the low fills still to run their Set. */
  ghost predicate Levels(s: State, quota: int, c: nat, m: nat) {
    && Committable(s, quota, m) <= Ceiling(quota, c, m, LowFills(s, quota))
    && (RedisTokens(s) < quota ==> Missing(s) <= Behind(quota, c, m, LowFills(s, quota)))
  }

  lemma {:induction false} LowFillsAreAdmitted(quota: int, reqs: seq<Req>)
    ensures 0 <= Sum(LowFill(quota), reqs) <= Sum(Admitted(quota), reqs)
    ensures 0 <= Sum(ArrivingCount, reqs)
  {
    if reqs != [] {
      LowFillsAreAdmitted(quota, reqs[..|reqs| - 1]);
    }
  }

  lemma {:induction false} ArrivingNonNegative(reqs: seq<Req>)
    requires NonNegative(reqs)
    ensures Sum(Arriving, reqs) >= 0
  {
    if reqs != [] {
      assert NonNegativeReq(reqs[|reqs| - 1]);
      ArrivingNonNegative(reqs[..|reqs| - 1]);
    }
  }

  // ----- arithmetic -----

  /** The bounds grow as fewer low fills are left. */
  lemma FewerLeft(quota: int, c: nat, m: nat, low: int, low': int)
    requires quota >= 1 && low' <= low
    ensures Ceiling(quota, c, m, low) <= Ceiling(quota, c, m, low')
    ensures Behind(quota, c, m, low) <= Behind(quota, c, m, low')
  {
    Scale(c, 0, m);
    Scale(WarmBound(quota, c, m), c + 1 - low, c + 1 - low');
    Scale(WarmBound(quota, c, m), c - low, c - low');
  }

  /** Once a low fill has run its Set, what was committable may be missing. */
  lemma OneFewer(quota: int, c: nat, m: nat, low: int)
    ensures Ceiling(quota, c, m, low) <= Behind(quota, c, m, low - 1)
  {
  }

  /** While fewer than C low fills are left, one more warm bound covers what the counter is behind. */
  lemma RoomLeft(quota: int, c: nat, m: nat, low: int)
    requires quota >= 1 && low <= c - 1
    ensures WarmBound(quota, c, m) + Behind(quota, c, m, low) == Ceiling(quota, c, m, low)
  {
    var k := WarmBound(quota, c, m);
    Scale(c, 0, m);
    Scale(k, 1, c - low);
    assert k + (c - low) * k == (c + 1 - low) * k;
  }

  /** Below the quota the window alone bounds what is committable. */
  lemma BelowQuota(db: int, admitted: int, quota: int, c: nat, m: nat, low: int)
    requires 1 <= quota && db < quota && admitted <= c && low <= c
    ensures db + m * admitted <= Ceiling(quota, c, m, low)
    ensures db <= Behind(quota, c, m, low)
  {
    Scale(m, admitted, c);
    Scale(c, 0, m);
    Scale(WarmBound(quota, c, m), 1, c + 1 - low);
  }

  // ----- the steps -----

  lemma NonNegativeNext(s: State, q: Req, op: Op)
    requires OpEnabled(s, q, op) && NonNegativeReq(q) && DbTokens(s) >= 0 && RedisTokens(s) >= 0
    requires op.Respond? ==> ChargeOf(op.usage, op.price).tokens >= 0
    ensures NonNegativeReq(NextReq(s, q, op))
    ensures DbTokens(NextShared(s, q, op)) >= 0 && RedisTokens(NextShared(s, q, op)) >= 0
  {
  }

  lemma BaseStep(s: State, a: Action, quota: int, m: nat)
    requires Base(s, quota, m) && Enabled(s, a) && ColdLimits(a, quota, m)
    ensures Base(Apply(s, a), quota, m)
  {
    AllWithinStep(s, a, quota, m);
    if a.On? {
      assert NonNegativeReq(s.reqs[a.r]);
      NonNegativeNext(s, s.reqs[a.r], a.op);
      assert Apply(s, a).reqs == s.reqs[a.r := NextReq(s, s.reqs[a.r], a.op)];
    }
  }

  /** What a step of a request does to the numbers, a Set and a SELECT apart. */
  lemma QuietNumbers(s: State, q: Req, op: Op, quota: int)
    requires OpEnabled(s, q, op) && !op.SetTok? && !op.Select? && !op.IncrTokFail? && q.charge.tokens >= 0
    ensures Weigh(LowFill(quota), NextReq(s, q, op)) == Weigh(LowFill(quota), q)
    ensures var t, moved := NextShared(s, q, op), Weigh(Arriving, NextReq(s, q, op)) - Weigh(Arriving, q);
      RedisTokens(s) <= RedisTokens(t) && DbTokens(t) - RedisTokens(t) - moved == DbTokens(s) - RedisTokens(s)
  {
  }

  lemma QuietFills(s: State, r: nat, op: Op, quota: int)
    requires Enabled(s, On(r, op)) && !op.SetTok? && !op.Select? && !op.IncrTokFail? && s.reqs[r].charge.tokens >= 0
    ensures var t := Apply(s, On(r, op));
      LowFills(t, quota) == LowFills(s, quota) && Missing(t) == Missing(s) && RedisTokens(s) <= RedisTokens(t)
  {
    SumUpdate(LowFill(quota), s.reqs, r, NextReq(s, s.reqs[r], op));
    SumUpdate(Arriving, s.reqs, r, NextReq(s, s.reqs[r], op));
    QuietNumbers(s, s.reqs[r], op, quota);
  }

  /** The request that is let in by a read of the counter is not a low fill. */
  lemma WindowHasRoom(s: State, r: nat, quota: int, c: nat)
    requires Enabled(s, On(r, GetTok)) && s.redisTok.Some? && RedisTokens(s) < quota
    requires Window(Apply(s, On(r, GetTok)), quota) <= c
    ensures LowFills(s, quota) <= c - 1
  {
    LowFillsAreAdmitted(quota, s.reqs);
    LowFillsAreAdmitted(quota, Apply(s, On(r, GetTok)).reqs);
    SumUpdate(Admitted(quota), s.reqs, r, NextReq(s, s.reqs[r], GetTok));
  }

  /** A read of the counter below the quota lets one more request in. */
  lemma AdmitFromRedis(s: State, r: nat, quota: int, c: nat, m: nat)
    requires Base(s, quota, m) && Levels(s, quota, c, m) && Enabled(s, On(r, GetTok))
    requires s.redisTok.Some? && RedisTokens(s) < quota
    requires Window(Apply(s, On(r, GetTok)), quota) <= c
    ensures Committable(Apply(s, On(r, GetTok)), quota, m) <= Ceiling(quota, c, m, LowFills(s, quota))
  {
    var low := LowFills(s, quota);
    WindowHasRoom(s, r, quota, c);
    RoomLeft(quota, c, m, low);
    AdmitStep(s, r, GetTok, quota, c, m, Behind(quota, c, m, low));
  }

  lemma QuietCommittable(s: State, r: nat, op: Op, quota: int, c: nat, m: nat)
    requires Base(s, quota, m) && Levels(s, quota, c, m) && Enabled(s, On(r, op)) && !op.SelectFail? && !op.Select?
    requires Window(Apply(s, On(r, op)), quota) <= c
    ensures Committable(Apply(s, On(r, op)), quota, m) <= Ceiling(quota, c, m, LowFills(s, quota))
  {
    var q := s.reqs[r];
    if ReadBelow(NextReq(s, q, op).pc, quota) && !ReadBelow(q.pc, quota) {
      AdmittingOp(s, q, op, quota);
      AdmitFromRedis(s, r, quota, c, m);
    } else {
      OtherStep(s, r, op, quota, m);
    }
  }

  lemma QuietStep(s: State, r: nat, op: Op, quota: int, c: nat, m: nat)
    requires Base(s, quota, m) && Levels(s, quota, c, m) && Enabled(s, On(r, op)) && ColdLimits(On(r, op), quota, m)
    requires !op.SetTok? && !op.Select? && Window(Apply(s, On(r, op)), quota) <= c
    ensures Levels(Apply(s, On(r, op)), quota, c, m)
  {
    assert NonNegativeReq(s.reqs[r]);
    QuietFills(s, r, op, quota);
    QuietCommittable(s, r, op, quota, c, m);
  }

  /** The three sums after one request has changed. */
  lemma SumsUpdate(reqs: seq<Req>, r: nat, q: Req, quota: int)
    requires r < |reqs|
    ensures var w := LowFill(quota); Sum(w, reqs[r := q]) == Sum(w, reqs) - Weigh(w, reqs[r]) + Weigh(w, q)
    ensures var w := Admitted(quota); Sum(w, reqs[r := q]) == Sum(w, reqs) - Weigh(w, reqs[r]) + Weigh(w, q)
    ensures var w := Arriving; Sum(w, reqs[r := q]) == Sum(w, reqs) - Weigh(w, reqs[r]) + Weigh(w, q)
  {
    SumUpdate(LowFill(quota), reqs, r, q);
    SumUpdate(Admitted(quota), reqs, r, q);
    SumUpdate(Arriving, reqs, r, q);
  }

  lemma SelectReq(s: State, q: Req, quota: int)
    requires OpEnabled(s, q, Select)
    ensures var q' := NextReq(s, q, Select);
      && Weigh(Arriving, q') == Weigh(Arriving, q)
      && (DbTokens(s) >= quota ==>
            Weigh(LowFill(quota), q') == Weigh(LowFill(quota), q) && Weigh(Admitted(quota), q') == Weigh(Admitted(quota), q))
    ensures NextShared(s, q, Select) == s
  {
  }

  /** What a SELECT does to the numbers. */
  lemma SelectNumbers(s: State, r: nat, quota: int, t: State)
    requires Enabled(s, On(r, Select)) && t == Apply(s, On(r, Select))
    ensures DbTokens(t) == DbTokens(s) && RedisTokens(t) == RedisTokens(s) && Missing(t) == Missing(s)
    ensures DbTokens(s) >= quota ==>
      LowFills(t, quota) == LowFills(s, quota) && Sum(Admitted(quota), t.reqs) == Sum(Admitted(quota), s.reqs)
  {
    var q' := NextReq(s, s.reqs[r], Select);
    SelectReq(s, s.reqs[r], quota);
    assert t == s.(reqs := s.reqs[r := q']);
    SumsUpdate(s.reqs, r, q', quota);
  }

  /** A SELECT below the quota: the database is below it, and so is all that may be missing from Redis. */
  lemma SelectStep(s: State, r: nat, quota: int, c: nat, m: nat)
    requires Base(s, quota, m) && Levels(s, quota, c, m) && Enabled(s, On(r, Select))
    requires Window(Apply(s, On(r, Select)), quota) <= c
    ensures Levels(Apply(s, On(r, Select)), quota, c, m)
  {
    var t := Apply(s, On(r, Select));
    SelectNumbers(s, r, quota, t);
    if DbTokens(s) < quota {
      LowFillsAreAdmitted(quota, t.reqs);
      ArrivingNonNegative(s.reqs);
      BelowQuota(DbTokens(t), Sum(Admitted(quota), t.reqs), quota, c, m, LowFills(t, quota));
    }
  }

  lemma SetReq(s: State, q: Req, ok: bool, quota: int)
    requires OpEnabled(s, q, SetTok(ok))
    ensures var q' := NextReq(s, q, SetTok(ok));
      && Weigh(Arriving, q') == Weigh(Arriving, q) && Weigh(Admitted(quota), q') == Weigh(Admitted(quota), q)
      && Weigh(LowFill(quota), q') == Weigh(LowFill(quota), q) - (if q.pc.tok < quota then 1 else 0)
    ensures var t := NextShared(s, q, SetTok(ok));
      DbTokens(t) == DbTokens(s) && RedisTokens(t) == (if ok then q.pc.tok else RedisTokens(s))
  {
  }

  /** What a fill's Set does to the numbers. */
  lemma SetNumbers(s: State, r: nat, ok: bool, quota: int)
    requires Enabled(s, On(r, SetTok(ok)))
    ensures var t, pc := Apply(s, On(r, SetTok(ok))), s.reqs[r].pc;
      && DbTokens(t) == DbTokens(s)
      && Sum(Admitted(quota), t.reqs) == Sum(Admitted(quota), s.reqs)
      && LowFills(t, quota) == LowFills(s, quota) - (if pc.tok < quota then 1 else 0)
      && RedisTokens(t) == (if ok then pc.tok else RedisTokens(s))
      && Sum(Arriving, t.reqs) == Sum(Arriving, s.reqs)
  {
    SetReq(s, s.reqs[r], ok, quota);
    SumsUpdate(s.reqs, r, NextReq(s, s.reqs[r], SetTok(ok)), quota);
  }

  /** The Set of a fill: a low one leaves one fewer, one that read the quota or more closes it. */
  lemma SetStep(s: State, r: nat, ok: bool, quota: int, c: nat, m: nat)
    requires Base(s, quota, m) && Levels(s, quota, c, m) && Enabled(s, On(r, SetTok(ok)))
    ensures Levels(Apply(s, On(r, SetTok(ok))), quota, c, m)
  {
    var t := Apply(s, On(r, SetTok(ok)));
    assert NonNegativeReq(s.reqs[r]);
    SetNumbers(s, r, ok, quota);
    ArrivingNonNegative(s.reqs);
    FewerLeft(quota, c, m, LowFills(s, quota), LowFills(t, quota));
    OneFewer(quota, c, m, LowFills(s, quota));
    CommittableCoversDb(s, quota, m);
  }

  lemma NewcomerWeighsNothing(reqs: seq<Req>, q: Req, quota: int)
    requires q.pc.CheckQuota? || q.pc.RecordNext?
    ensures Sum(LowFill(quota), reqs + [q]) == Sum(LowFill(quota), reqs)
    ensures Sum(Admitted(quota), reqs + [q]) == Sum(Admitted(quota), reqs)
    ensures Sum(Arriving, reqs + [q]) == Sum(Arriving, reqs)
  {
    SumAppend(LowFill(quota), reqs, q);
    SumAppend(Admitted(quota), reqs, q);
    SumAppend(Arriving, reqs, q);
  }

  lemma BeginLevels(s: State, q: Req, quota: int, c: nat, m: nat)
    requires Levels(s, quota, c, m) && (q.pc.CheckQuota? || q.pc.RecordNext?)
    ensures Levels(s.(reqs := s.reqs + [q]), quota, c, m)
  {
    NewcomerWeighsNothing(s.reqs, q, quota);
  }

  lemma LevelsStep(s: State, a: Action, quota: int, c: nat, m: nat)
    requires Base(s, quota, m) && Levels(s, quota, c, m) && Enabled(s, a) && ColdLimits(a, quota, m)
    requires Window(Apply(s, a), quota) <= c
    ensures Levels(Apply(s, a), quota, c, m)
  {
    match a
    case Begin(q, rateOk) =>
      BeginLevels(s, NewReq(q, rateOk), quota, c, m);
    case On(r, op) =>
      if op.SetTok? {
        SetStep(s, r, op.ok, quota, c, m);
      } else if op.Select? {
        SelectStep(s, r, quota, c, m);
      } else {
        QuietStep(s, r, op, quota, c, m);
      }
    case _ =>
  }

  lemma {:induction false} ColdRun(s: State, run: seq<Action>, quota: int, c: nat, m: nat)
    requires Base(s, quota, m) && Levels(s, quota, c, m)
    requires ValidRun(s, run) && Concurrency(s, run, quota, c, m) && forall a :: a in run ==> ColdLimits(a, quota, m)
    ensures Base(Final(s, run), quota, m) && Levels(Final(s, run), quota, c, m)
    decreases |run|
  {
    if run != [] {
      var t := Apply(s, run[0]);
      assert ColdLimits(run[0], quota, m);
      assert Concurrency(t, run[1..], quota, c, m);
      BaseStep(s, run[0], quota, m);
      LevelsStep(s, run[0], quota, c, m);
      ColdRun(t, run[1..], quota, c, m);
    }
  }

  /** Quota overshoot with cold counters, Redis reads failing or not: whatever fills overlap AddUsage, the
      total never exceeds (C + 1) * (Q - 1 + C*M), for counts that are not negative. */
  lemma ColdOvershootBound(s: State, run: seq<Action>, t: State, quota: int, c: nat, m: nat)
    requires Fresh(s) && quota >= 1
    requires ValidRun(s, run) && Concurrency(s, run, quota, c, m) && forall a :: a in run ==> ColdLimits(a, quota, m)
    requires Final(s, run) == t
    ensures DbTokens(t) <= (c + 1) * (quota - 1 + c * m)
  {
    var k := WarmBound(quota, c, m);
    Scale(c, 0, m);
    Scale(k, 0, c + 1);
    assert LowFills(s, quota) == 0 && Sum(Admitted(quota), s.reqs) == 0;
    ColdRun(s, run, quota, c, m);
    LowFillsAreAdmitted(quota, t.reqs);
    FewerLeft(quota, c, m, LowFills(t, quota), 0);
    CommittableCoversDb(t, quota, m);
  }
}
