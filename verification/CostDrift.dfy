/** How far the Redis cost counter drifts from the database: %f rounds a fill to six decimals and
    the column rounds every usage to eight, so besides errCost (what an overlapping fill or a loss
    of the counter lost or doubled) the counters differ by at most 5e-7 once filled plus 5e-9 a usage. */
module CostDrift {
  import opened Wrappers
  import opened Money
  import opened QuotaLedger

  const FILL_ERROR := 0.0000005
  const USAGE_ERROR := 0.000000005

  /** Half of the sixth decimal, and half of the eighth. */
  lemma ErrorsInDollars()
    ensures FILL_ERROR * 2000000.0 == 1.0 && USAGE_ERROR * 200000000.0 == 1.0
  {
  }

  /** The cost counter is not dropped and its increments do not fail. */
  predicate KeepsCost(a: Action) {
    !a.LoseCost? && !a.Delete? && (a.On? ==> !a.op.IncrCostFail?)
  }

  function DriftBound(s: State): real {
    (if s.filled then FILL_ERROR else 0.0) + s.commits as real * USAGE_ERROR
  }

  function DbCost(s: State): real {
    FromUnits(DbUnits(s))
  }

  ghost predicate CostIncremented(q: Req) {
    q.commitNo.Some? && (q.pc.RecordNext? || q.pc.Done?) ==> q.costIn
  }

  ghost predicate CostFillOk(pc: Pc, reqs: seq<Req>) {
    pc.SetTokNext? || pc.SetCostNext? ==> pc.units == Sum(CommittedUnitsBefore(pc.mark), reqs)
  }

  /** Redis and what is still to reach it, against the database and errCost. */
  ghost predicate WithinBound(s: State) {
    Abs(RedisCost(s) + SumCost(CostPending, s.reqs) - DbCost(s) - s.errCost) <= DriftBound(s)
  }

  /** The database total and the number of usages are what the requests say. */
  ghost predicate CountsOk(s: State) {
    s.commits == Sum(CommittedCount, s.reqs) && DbUnits(s) == Sum(CommittedUnits, s.reqs)
  }

  ghost predicate DriftInv(s: State) {
    && WellFormed(s) && CountsOk(s) && WithinBound(s)
    && forall i :: 0 <= i < |s.reqs| ==> CostFillOk(s.reqs[i].pc, s.reqs)
  }

  /** What was booked past the mark, as costs and as column values: of one request, and of all. */
  function CostPastOf(m: nat, q: Req): real {
    WeighCost(CostPending, q) - WeighCost(CostPendingBefore(m), q) + WeighCost(CostIncrementedAfter(m), q)
  }

  function UnitsPastOf(m: nat, q: Req): int {
    Weigh(CommittedUnits, q) - Weigh(CommittedUnitsBefore(m), q)
  }

  function CostPast(m: nat, reqs: seq<Req>): real {
    SumCost(CostPending, reqs) - SumCost(CostPendingBefore(m), reqs) + SumCost(CostIncrementedAfter(m), reqs)
  }

  function UnitsPast(m: nat, reqs: seq<Req>): int {
    Sum(CommittedUnits, reqs) - Sum(CommittedUnitsBefore(m), reqs)
  }

  lemma PastStep(m: nat, init: seq<Req>, q: Req)
    ensures CostPast(m, init + [q]) == CostPast(m, init) + CostPastOf(m, q)
    ensures UnitsPast(m, init + [q]) == UnitsPast(m, init) + UnitsPastOf(m, q)
    ensures Sum(CommittedCount, init + [q]) == Sum(CommittedCount, init) + Weigh(CommittedCount, q)
  {
    assert (init + [q])[..|init|] == init;
  }

  /** One request's share of the roundings past the mark. */
  lemma RoundingOfOne(m: nat, q: Req)
    ensures Abs(CostPastOf(m, q) - FromUnits(UnitsPastOf(m, q))) <= Weigh(CommittedCount, q) as real * USAGE_ERROR
  {
    ToUnitsIsNearest(q.charge.cost);
  }

  lemma AddBounds(x: real, y: real, a: int, b: int, m: int, n: int)
    requires Abs(x - FromUnits(a)) <= m as real * USAGE_ERROR
    requires Abs(y - FromUnits(b)) <= n as real * USAGE_ERROR
    ensures Abs(x + y - FromUnits(a + b)) <= (m + n) as real * USAGE_ERROR
  {
  }

  /** Past the mark, costs and their column values differ by at most one rounding each. */
  lemma {:induction false} RoundingPastMark(m: nat, reqs: seq<Req>)
    ensures Abs(CostPast(m, reqs) - FromUnits(UnitsPast(m, reqs))) <= Sum(CommittedCount, reqs) as real * USAGE_ERROR
  {
    if reqs != [] {
      var q, init := reqs[|reqs| - 1], reqs[..|reqs| - 1];
      RoundingPastMark(m, init);
      RoundingOfOne(m, q);
      AddBounds(CostPast(m, init), CostPastOf(m, q), UnitsPast(m, init), UnitsPastOf(m, q),
                Sum(CommittedCount, init), Weigh(CommittedCount, q));
      PastStep(m, init, q);
      assert init + [q] == reqs;
    }
  }

  lemma {:induction false} UnitsBeforeMark(m: nat, reqs: seq<Req>)
    requires forall i :: 0 <= i < |reqs| && reqs[i].commitNo.Some? ==> reqs[i].commitNo.value < m
    ensures Sum(CommittedUnitsBefore(m), reqs) == Sum(CommittedUnits, reqs)
  {
    if reqs != [] {
      UnitsBeforeMark(m, reqs[..|reqs| - 1]);
    }
  }

  /** Usages committed before an earlier SELECT are not touched by any step. */
  lemma UnitsBeforeKept(s: State, r: nat, op: Op, m: nat)
    requires WellFormed(s) && Enabled(s, On(r, op)) && m <= s.commits
    ensures Sum(CommittedUnitsBefore(m), s.reqs[r := NextReq(s, s.reqs[r], op)]) == Sum(CommittedUnitsBefore(m), s.reqs)
  {
    assert ReqOk(s.reqs[r], s.commits);
    SumUpdate(CommittedUnitsBefore(m), s.reqs, r, NextReq(s, s.reqs[r], op));
  }

  lemma SelectReadsAll(s: State)
    requires WellFormed(s)
    ensures Sum(CommittedUnitsBefore(s.commits), s.reqs) == Sum(CommittedUnits, s.reqs)
  {
    forall j | 0 <= j < |s.reqs| && s.reqs[j].commitNo.Some? ensures s.reqs[j].commitNo.value < s.commits {
      assert ReqOk(s.reqs[j], s.commits);
    }
    UnitsBeforeMark(s.commits, s.reqs);
  }

  lemma CostFillStep(s: State, r: nat, op: Op, i: nat)
    requires DriftInv(s) && Enabled(s, On(r, op)) && i < |s.reqs|
    ensures CostFillOk(Apply(s, On(r, op)).reqs[i].pc, Apply(s, On(r, op)).reqs)
  {
    var pc := Apply(s, On(r, op)).reqs[i].pc;
    if pc.SetTokNext? || pc.SetCostNext? {
      assert ReqOk(s.reqs[i], s.commits) && CostFillOk(s.reqs[i].pc, s.reqs);
      UnitsBeforeKept(s, r, op, pc.mark);
      if i == r && op.Select? {
        SelectReadsAll(s);
      }
    }
  }

  lemma CostFillsStep(s: State, r: nat, op: Op)
    requires DriftInv(s) && Enabled(s, On(r, op))
    ensures forall i :: 0 <= i < |s.reqs| ==>
      CostFillOk(Apply(s, On(r, op)).reqs[i].pc, Apply(s, On(r, op)).reqs)
  {
    forall i | 0 <= i < |s.reqs| ensures CostFillOk(Apply(s, On(r, op)).reqs[i].pc, Apply(s, On(r, op)).reqs) {
      CostFillStep(s, r, op, i);
    }
  }

  lemma CostIncrementedNext(s: State, q: Req, op: Op)
    requires CostIncremented(q) && ReqOk(q, s.commits) && OpEnabled(s, q, op) && !op.IncrCostFail?
    ensures CostIncremented(NextReq(s, q, op))
  {
  }

  /** What a step does to the counts. */
  lemma UnitsDelta(s: State, q: Req, op: Op)
    requires ReqOk(q, s.commits) && OpEnabled(s, q, op)
    ensures var t, q' := NextShared(s, q, op), NextReq(s, q, op);
      && t.commits - s.commits == Weigh(CommittedCount, q') - Weigh(CommittedCount, q)
      && DbUnits(t) - DbUnits(s) == Weigh(CommittedUnits, q') - Weigh(CommittedUnits, q)
      && t.commits - s.commits == (if op.Upsert? then 1 else 0)
      && DbUnits(t) - DbUnits(s) == (if op.Upsert? then ToUnits(q.charge.cost) else 0)
  {
  }

  /** The counts behind the bound, over one step of one request. */
  lemma UnitsStep(s: State, r: nat, op: Op)
    requires CountsOk(s) && Enabled(s, On(r, op)) && ReqOk(s.reqs[r], s.commits)
    ensures CountsOk(Apply(s, On(r, op)))
  {
    var q := s.reqs[r];
    UnitsDelta(s, q, op);
    SumUpdate(CommittedCount, s.reqs, r, NextReq(s, q, op));
    SumUpdate(CommittedUnits, s.reqs, r, NextReq(s, q, op));
  }

  /** What a step that is not a Set adds to Redis and to what is pending: the cost that it commits. */
  lemma CostDelta(s: State, q: Req, op: Op)
    requires ReqOk(q, s.commits) && OpEnabled(s, q, op) && op != SetCost(true)
    ensures var t, q' := NextShared(s, q, op), NextReq(s, q, op);
      && RedisCost(t) - RedisCost(s) + WeighCost(CostPending, q') - WeighCost(CostPending, q)
         == (if op.Upsert? then q.charge.cost else 0.0)
      && t.errCost == s.errCost && t.filled == s.filled
  {
  }

  lemma FillArithmetic(redis: real, read: real, pending: real, err: real, total: int, before: int, n: int)
    requires Abs(redis - read) <= FILL_ERROR && read == FromUnits(before)
    requires Abs(pending - err - FromUnits(total - before)) <= n as real * USAGE_ERROR
    ensures Abs(redis + pending - FromUnits(total) - err) <= FILL_ERROR + n as real * USAGE_ERROR
  {
  }

  /** The numbers of the state after a step. */
  lemma ApplyNumbers(s: State, r: nat, op: Op)
    requires Enabled(s, On(r, op))
    ensures var t, u := Apply(s, On(r, op)), NextShared(s, s.reqs[r], op);
      && RedisCost(t) == RedisCost(u) && DbUnits(t) == DbUnits(u)
      && t.errCost == u.errCost && t.filled == u.filled && t.commits == u.commits
      && SumCost(CostPending, t.reqs) == SumCost(CostPending, s.reqs) - WeighCost(CostPending, s.reqs[r])
                                         + WeighCost(CostPending, NextReq(s, s.reqs[r], op))
  {
    SumCostUpdate(CostPending, s.reqs, r, NextReq(s, s.reqs[r], op));
  }

  lemma FillNumbers(s: State, r: nat)
    requires Enabled(s, On(r, SetCost(true)))
    ensures var t, m := Apply(s, On(r, SetCost(true))), s.reqs[r].pc.mark;
      && RedisCost(t) == Round6(FromUnits(s.reqs[r].pc.units)) && DbUnits(t) == DbUnits(s)
      && t.errCost == SumCost(CostPendingBefore(m), s.reqs) - SumCost(CostIncrementedAfter(m), s.reqs)
      && t.filled && t.commits == s.commits
      && SumCost(CostPending, t.reqs) == SumCost(CostPending, s.reqs)
  {
    ApplyNumbers(s, r, SetCost(true));
  }

  /** A fill: what it leaves out of errCost is one %f rounding and the roundings past its mark. */
  lemma FillDrift(s: State, r: nat)
    requires CountsOk(s) && Enabled(s, On(r, SetCost(true))) && CostFillOk(s.reqs[r].pc, s.reqs)
    ensures WithinBound(Apply(s, On(r, SetCost(true))))
  {
    var t, pc := Apply(s, On(r, SetCost(true))), s.reqs[r].pc;
    FillNumbers(s, r);
    FillGap(s, pc, t.errCost);
    var read := FromUnits(pc.units);
    Round6IsNearest(read);
    FillArithmetic(Round6(read), read, SumCost(CostPending, s.reqs), t.errCost, DbUnits(s), pc.units, s.commits);
  }

  /** What is pending, errCost apart, is what was booked since the fill read its units, up to the roundings. */
  lemma FillGap(s: State, pc: Pc, err: real)
    requires CountsOk(s) && pc.SetCostNext? && CostFillOk(pc, s.reqs)
    requires err == SumCost(CostPendingBefore(pc.mark), s.reqs) - SumCost(CostIncrementedAfter(pc.mark), s.reqs)
    ensures Abs(SumCost(CostPending, s.reqs) - err - FromUnits(DbUnits(s) - pc.units)) <= s.commits as real * USAGE_ERROR
  {
    RoundingPastMark(pc.mark, s.reqs);
  }

  /** Committing one more usage adds one rounding. */
  lemma CommitArithmetic(gap: real, total: int, err: real, fill: real, n: nat, cost: real)
    requires Abs(gap - FromUnits(total) - err) <= fill + n as real * USAGE_ERROR
    ensures Abs(gap + cost - FromUnits(total + ToUnits(cost)) - err) <= fill + (n + 1) as real * USAGE_ERROR
  {
    ToUnitsIsNearest(cost);
  }

  lemma UpsertDrift(s: State, r: nat)
    requires WithinBound(s) && Enabled(s, On(r, Upsert)) && ReqOk(s.reqs[r], s.commits)
    ensures WithinBound(Apply(s, On(r, Upsert)))
  {
    var q := s.reqs[r];
    ApplyNumbers(s, r, Upsert);
    CostDelta(s, q, Upsert);
    UnitsDelta(s, q, Upsert);
    CommitArithmetic(RedisCost(s) + SumCost(CostPending, s.reqs), DbUnits(s), s.errCost,
                     if s.filled then FILL_ERROR else 0.0, s.commits, q.charge.cost);
  }

  lemma QuietDrift(s: State, r: nat, op: Op)
    requires WithinBound(s) && Enabled(s, On(r, op)) && ReqOk(s.reqs[r], s.commits)
    requires op != SetCost(true) && !op.Upsert?
    ensures WithinBound(Apply(s, On(r, op)))
  {
    var q := s.reqs[r];
    ApplyNumbers(s, r, op);
    CostDelta(s, q, op);
    UnitsDelta(s, q, op);
    assert DbUnits(Apply(s, On(r, op))) == DbUnits(s);
  }

  lemma DriftBeginFills(s: State, q: Req, i: nat)
    requires DriftInv(s) && q.commitNo == None && i < |s.reqs|
    ensures CostFillOk(s.reqs[i].pc, s.reqs + [q])
  {
    var pc := s.reqs[i].pc;
    assert CostFillOk(pc, s.reqs);
    if pc.SetTokNext? || pc.SetCostNext? {
      SumAppend(CommittedUnitsBefore(pc.mark), s.reqs, q);
    }
  }

  lemma BeginNumbers(s: State, q: Req)
    requires CountsOk(s) && WithinBound(s) && q.commitNo == None
    ensures CountsOk(s.(reqs := s.reqs + [q])) && WithinBound(s.(reqs := s.reqs + [q]))
  {
    NewcomerCostsNothing(s.reqs, q);
  }

  lemma NewcomerCostsNothing(reqs: seq<Req>, q: Req)
    requires q.commitNo == None
    ensures Sum(CommittedCount, reqs + [q]) == Sum(CommittedCount, reqs)
    ensures Sum(CommittedUnits, reqs + [q]) == Sum(CommittedUnits, reqs)
    ensures SumCost(CostPending, reqs + [q]) == SumCost(CostPending, reqs)
  {
    SumAppend(CommittedCount, reqs, q);
    SumAppend(CommittedUnits, reqs, q);
    SumCostAppend(CostPending, reqs, q);
  }

  lemma DriftBegin(s: State, a: Action)
    requires DriftInv(s) && a.Begin?
    ensures DriftInv(Apply(s, a))
  {
    var t := Apply(s, a);
    WellFormedStep(s, a);
    BeginNumbers(s, NewReq(a.quota, a.rateOk));
    forall i | 0 <= i < |t.reqs| ensures CostFillOk(t.reqs[i].pc, t.reqs) {
      if i < |s.reqs| {
        DriftBeginFills(s, t.reqs[|s.reqs|], i);
      }
    }
  }

  /** A dropped counter: all that reached it is in errCost. */
  lemma DriftLoss(s: State)
    requires DriftInv(s)
    ensures DriftInv(Apply(s, LoseCost))
  {
    WellFormedStep(s, LoseCost);
    assert WithinBound(Apply(s, LoseCost));
  }

  lemma DriftStep(s: State, a: Action)
    requires DriftInv(s) && Enabled(s, a) && !a.Delete?
    ensures DriftInv(Apply(s, a))
  {
    match a
    case Begin(_, _) =>
      DriftBegin(s, a);
    case LoseCost =>
      DriftLoss(s);
    case On(r, op) =>
      assert ReqOk(s.reqs[r], s.commits) && CostFillOk(s.reqs[r].pc, s.reqs);
      WellFormedStep(s, a);
      CostFillsStep(s, r, op);
      UnitsStep(s, r, op);
      if op == SetCost(true) {
        FillDrift(s, r);
      } else if op.Upsert? {
        UpsertDrift(s, r);
      } else {
        QuietDrift(s, r, op);
      }
    case _ =>
  }

  lemma {:induction false} DriftRun(s: State, run: seq<Action>)
    requires DriftInv(s) && ValidRun(s, run) && forall a :: a in run ==> !a.Delete?
    ensures DriftInv(Final(s, run))
    decreases |run|
  {
    if run != [] {
      DriftStep(s, run[0]);
      DriftRun(Apply(s, run[0]), run[1..]);
    }
  }

  /** Cost drift over every interleaving, losses and failed increments included: a usage whose IncrByFloat
      failed counts as pending for good. */
  lemma CostDriftBound(s: State, run: seq<Action>, t: State)
    requires Fresh(s) && ValidRun(s, run) && Final(s, run) == t && forall a :: a in run ==> !a.Delete?
    ensures Abs(RedisCost(t) + SumCost(CostPending, t.reqs) - DbCost(t) - t.errCost) <= DriftBound(t)
  {
    DriftAtStart(s);
    DriftRun(s, run);
  }

  // ----- non-overlapping runs -----

  /** Requests run one after the other: a request begins only when the previous one is done. */
  ghost predicate OneAtATime(s: State, run: seq<Action>)
    requires ValidRun(s, run)
    decreases |run|
  {
    run == [] ||
    ( && (run[0].Begin? ==> forall i :: 0 <= i < |s.reqs| ==> s.reqs[i].pc.Done?)
      && OneAtATime(Apply(s, run[0]), run[1..]))
  }

  /** Only the last request is under way, and nothing was committed since it read the totals. */
  ghost predicate Alone(s: State) {
    && s.errCost == 0.0 && (forall i :: 0 <= i < |s.reqs| ==> CostIncremented(s.reqs[i]))
    && (forall i :: 0 <= i < |s.reqs| - 1 ==> s.reqs[i].pc.Done?)
    && forall i :: 0 <= i < |s.reqs| ==>
         (s.reqs[i].pc.SetTokNext? || s.reqs[i].pc.SetCostNext? ==> s.reqs[i].pc.mark == s.commits)
  }

  lemma {:induction false} NothingToLose(m: nat, reqs: seq<Req>)
    requires forall i :: 0 <= i < |reqs| ==>
      (reqs[i].commitNo.Some? ==> reqs[i].costIn && reqs[i].commitNo.value < m)
    ensures SumCost(CostPending, reqs) == 0.0
    ensures SumCost(CostPendingBefore(m), reqs) == 0.0 && SumCost(CostIncrementedAfter(m), reqs) == 0.0
  {
    if reqs != [] {
      NothingToLose(m, reqs[..|reqs| - 1]);
    }
  }

  /** No usage waits for its IncrByFloat: the point at which the next request reads the totals. */
  ghost predicate Settled(s: State) {
    forall i :: 0 <= i < |s.reqs| ==> !s.reqs[i].pc.IncrTokNext? && !s.reqs[i].pc.IncrCostNext?
  }

  lemma SettledHasNothingPending(s: State)
    requires WellFormed(s) && Settled(s) && forall i :: 0 <= i < |s.reqs| ==> CostIncremented(s.reqs[i])
    ensures SumCost(CostPending, s.reqs) == 0.0
    ensures SumCost(CostPendingBefore(s.commits), s.reqs) == 0.0
    ensures SumCost(CostIncrementedAfter(s.commits), s.reqs) == 0.0
  {
    forall i | 0 <= i < |s.reqs| && s.reqs[i].commitNo.Some?
      ensures s.reqs[i].costIn && s.reqs[i].commitNo.value < s.commits
    {
      assert ReqOk(s.reqs[i], s.commits) && CostIncremented(s.reqs[i]);
    }
    NothingToLose(s.commits, s.reqs);
  }

  lemma AloneOn(s: State, r: nat, op: Op)
    requires WellFormed(s) && Alone(s) && Enabled(s, On(r, op)) && !op.IncrCostFail?
    ensures Alone(Apply(s, On(r, op)))
  {
    var t := Apply(s, On(r, op));
    assert r == |s.reqs| - 1;
    assert CostIncremented(s.reqs[r]) && ReqOk(s.reqs[r], s.commits);
    CostIncrementedNext(s, s.reqs[r], op);
    if op.SetCost? {
      SettledHasNothingPending(s);
    }
    assert t.errCost == 0.0;
    forall i | 0 <= i < |t.reqs| && (t.reqs[i].pc.SetTokNext? || t.reqs[i].pc.SetCostNext?)
      ensures t.reqs[i].pc.mark == t.commits
    {
      assert i == r;
    }
  }

  lemma AloneStep(s: State, a: Action)
    requires DriftInv(s) && Alone(s) && Enabled(s, a) && KeepsCost(a)
    requires a.Begin? ==> forall i :: 0 <= i < |s.reqs| ==> s.reqs[i].pc.Done?
    ensures Alone(Apply(s, a))
  {
    if a.On? {
      AloneOn(s, a.r, a.op);
    }
  }

  lemma {:induction false} AloneRun(s: State, run: seq<Action>)
    requires DriftInv(s) && Alone(s) && ValidRun(s, run) && OneAtATime(s, run)
    requires forall a :: a in run ==> KeepsCost(a)
    ensures DriftInv(Final(s, run)) && Alone(Final(s, run))
    decreases |run|
  {
    if run != [] {
      DriftStep(s, run[0]);
      AloneStep(s, run[0]);
      AloneRun(Apply(s, run[0]), run[1..]);
    }
  }

  lemma DriftAtStart(s: State)
    requires Fresh(s)
    ensures DriftInv(s) && Alone(s)
  {
  }

  /** Where the next request stands when it has read both counters. */
  function NextAnswer(t: State, quota: Quota): Pc
    requires t.redisTok.Some? && t.redisCost.Some? && Limited(quota)
  {
    var r := |t.reqs|;
    Apply(Apply(Apply(t, Begin(quota, true)), On(r, GetTok)), On(r, GetCost)).reqs[r].pc
  }

  /** The counter is within the drift of the database, and the next request is let through by the counters when
      the database cost is not below its dollar quota, or refused when it is, only this close to the quota. */
  ghost predicate AgreesUpToDrift(t: State, dollars: real) {
    && Abs(RedisCost(t) - DbCost(t)) <= DriftBound(t)
    && (t.redisTok.Some? && t.redisCost.Some? ==>
          var pc := NextAnswer(t, Quota(None, Some(dollars)));
          && (pc == Forward || pc == RecordNext)
          && ((pc == Forward) != (DbCost(t) < dollars) ==> Abs(DbCost(t) - dollars) <= DriftBound(t)))
  }

  lemma SettledDrift(t: State, dollars: real)
    requires DriftInv(t) && Alone(t) && Settled(t)
    ensures AgreesUpToDrift(t, dollars)
  {
    SettledHasNothingPending(t);
  }

  /** Cost drift in non-overlapping runs, for the counter that AllowQuota reads. */
  lemma SequentialCostDrift(s: State, run: seq<Action>, t: State, dollars: real)
    requires Fresh(s) && ValidRun(s, run) && OneAtATime(s, run) && Final(s, run) == t
    requires forall a :: a in run ==> KeepsCost(a)
    requires Settled(t)
    ensures AgreesUpToDrift(t, dollars)
  {
    DriftAtStart(s);
    AloneRun(s, run);
    SettledDrift(t, dollars);
  }
}
