/** How far a key can run over its dollar quota.  A request is in the window from the read of a cost below
    the quota to its IncrByFloat; with at most C requests there, each of at most M dollars, the database
    never holds more than D + C*(M + 5e-9) dollars plus the drift of the counter (CostDrift), unless one of
    three guards lets the counter fall behind.  D is the largest dollar quota that any request carries. */
module DollarBound {
  import opened Wrappers
  import opened Money
  import opened QuotaLedger
  import opened CostDrift

  // ----- when the counter is behind -----

  /** A counter that is there has everything the database has, or a request is about to add it, up to the
      drift of the roundings. */
  ghost predicate CostSound(s: State) {
    s.redisCost.Some? ==> DbCost(s) <= RedisCost(s) + SumCost(CostArriving, s.reqs) + DriftBound(s)
  }

  /** The drift once a fill has been rounded. */
  function FilledDrift(s: State): real {
    FILL_ERROR + s.commits as real * USAGE_ERROR
  }

  /** The three guards: a Set of a cost to which more has been added since than is on its way; an IncrByFloat
      that finds no counter although more is booked than is on its way; and an IncrByFloat that fails while
      the counter needs it. */
  predicate LosesCost(s: State, a: Action)
    requires Enabled(s, a)
  {
    a.On? &&
    var q, arriving := s.reqs[a.r], SumCost(CostArriving, s.reqs);
    match a.op
    case SetCost(ok) => ok && DbCost(s) - Round6(FromUnits(q.pc.units)) > arriving + FilledDrift(s)
    case IncrCost => s.redisCost.None? && DbCost(s) > arriving + DriftBound(s)
    case IncrCostFail => s.redisCost.Some? && DbCost(s) - RedisCost(s) > arriving - q.charge.cost + DriftBound(s)
    case _ => false
  }

  /** What a step does to the numbers that soundness compares. */
  lemma CostArrivingDelta(s: State, q: Req, op: Op)
    requires ReqOk(q, s.commits) && OpEnabled(s, q, op)
    ensures var t, moved := NextShared(s, q, op), WeighCost(CostArriving, NextReq(s, q, op)) - WeighCost(CostArriving, q);
      match op
      case Upsert => DbUnits(t) == DbUnits(s) + ToUnits(moved) && t.redisCost == s.redisCost
                     && t.commits == s.commits + 1 && t.filled == s.filled
      case IncrCost => DbUnits(t) == DbUnits(s) && moved == -q.charge.cost && t.commits == s.commits
                       && t.filled == s.filled && t.redisCost == Some(RedisCost(s) + q.charge.cost)
      case IncrCostFail => DbUnits(t) == DbUnits(s) && t.redisCost == s.redisCost && moved == -q.charge.cost
                           && t.commits == s.commits && t.filled == s.filled
      case SetCost(ok) => DbUnits(t) == DbUnits(s) && moved == 0.0 && t.commits == s.commits
                          && t.filled == (ok || s.filled)
                          && t.redisCost == (if ok then Some(Round6(FromUnits(q.pc.units))) else s.redisCost)
      case _ => DbUnits(t) == DbUnits(s) && t.redisCost == s.redisCost && moved == 0.0
                && t.commits == s.commits && t.filled == s.filled
  {
  }

  /** A commit puts at most half a unit more into the column than it sends on its way. */
  lemma CommitRounds(units: int, cost: real)
    ensures FromUnits(units + ToUnits(cost)) <= FromUnits(units) + cost + USAGE_ERROR
  {
    ToUnitsIsNearest(cost);
  }

  lemma CostSoundCommit(s: State, r: nat)
    requires CostSound(s) && Enabled(s, On(r, Upsert)) && ReqOk(s.reqs[r], s.commits)
    ensures CostSound(Apply(s, On(r, Upsert)))
  {
    CostArrivingDelta(s, s.reqs[r], Upsert);
    SumCostUpdate(CostArriving, s.reqs, r, NextReq(s, s.reqs[r], Upsert));
    CommitRounds(DbUnits(s), s.reqs[r].charge.cost);
  }

  lemma CostSoundOn(s: State, r: nat, op: Op)
    requires CostSound(s) && Enabled(s, On(r, op)) && ReqOk(s.reqs[r], s.commits) && !op.Upsert?
    ensures CostSound(Apply(s, On(r, op))) <==> !LosesCost(s, On(r, op))
  {
    CostArrivingDelta(s, s.reqs[r], op);
    SumCostUpdate(CostArriving, s.reqs, r, NextReq(s, s.reqs[r], op));
  }

  lemma NewcomerBringsNothing(reqs: seq<Req>, q: Req)
    requires !CostOnItsWay(q.pc)
    ensures SumCost(CostArriving, reqs + [q]) == SumCost(CostArriving, reqs)
  {
    SumCostAppend(CostArriving, reqs, q);
  }

  /** The cost counter stays sound over a step exactly when no guard fires. */
  lemma CostSoundStep(s: State, a: Action)
    requires WellFormed(s) && CostSound(s) && Enabled(s, a) && !a.Delete?
    ensures CostSound(Apply(s, a)) <==> !LosesCost(s, a)
  {
    if a.On? && a.op.Upsert? {
      CostSoundCommit(s, a.r);
    } else if a.On? {
      CostSoundOn(s, a.r, a.op);
    } else if a.Begin? {
      NewcomerBringsNothing(s.reqs, NewReq(a.quota, a.rateOk));
    }
  }

  /** A Set that nothing was booked before since its SELECT is harmless. */
  lemma QuietSetIsHarmless(s: State, r: nat)
    requires Enabled(s, On(r, SetCost(true))) && s.reqs[r].pc.units == DbUnits(s) && SumCost(CostArriving, s.reqs) >= 0.0
    ensures !LosesCost(s, On(r, SetCost(true)))
  {
    Round6IsNearest(DbCost(s));
  }

  // ----- the window -----

  /** The requests between their read of the cost and their cost increment. */
  function Window(s: State, dollars: real): int {
    Sum(AdmittedDollars(dollars), s.reqs) + Sum(ArrivingCostCount, s.reqs)
  }

  /** The same with a share for each of them. */
  function WindowShare(s: State, dollars: real, share: real): real {
    SumCost(ReservedShare(dollars, share), s.reqs) + SumCost(ArrivingShare(share), s.reqs)
  }

  predicate QuotaAtMost(q: Quota, dollars: real) {
    q.dollars.Some? && q.dollars.value <= dollars
  }

  /** The key stays, no SELECT fails, no request has a larger dollar quota and no response costs more than m. */
  predicate Limits(a: Action, dollars: real, m: real) {
    match a
    case Begin(q, _) => QuotaAtMost(q, dollars)
    case On(_, op) => !op.SelectFail? && (op.Respond? ==> ChargeOf(op.usage, op.price).cost <= m)
    case Delete => false
    case _ => true
  }

  ghost predicate AllWithin(reqs: seq<Req>, dollars: real, m: real) {
    forall i :: 0 <= i < |reqs| ==> reqs[i].charge.cost <= m && QuotaAtMost(reqs[i].quota, dollars)
  }

  /** What one request can add to the column. */
  function Share(m: real): real {
    m + USAGE_ERROR
  }

  /** The database cost, counting one share for every admitted request that has not committed yet. */
  function Committable(s: State, dollars: real, m: real): real {
    DbCost(s) + SumCost(ReservedShare(dollars, Share(m)), s.reqs)
  }

  /** `room` is what all requests of a full window can add. */
  ghost predicate DollarInv(s: State, dollars: real, room: real, m: real) {
    && WellFormed(s) && AllWithin(s.reqs, dollars, m) && CostSound(s)
    && Committable(s, dollars, m) <= dollars + room + DriftBound(s)
  }

  function Shares(n: nat, share: real): real {
    if n == 0 then 0.0 else Shares(n - 1, share) + share
  }

  lemma {:induction false} SharesIsProduct(n: nat, share: real)
    ensures Shares(n, share) == n as real * share
  {
    if n > 0 {
      SharesIsProduct(n - 1, share);
      assert n as real * share == (n - 1) as real * share + share;
    }
  }

  lemma {:induction false} SharesUpTo(a: nat, b: nat, n: nat, share: real)
    requires a + b <= n && share >= 0.0
    ensures 0.0 <= Shares(a, share) + Shares(b, share) <= Shares(n, share)
  {
    if n > 0 {
      if a > 0 {
        SharesUpTo(a - 1, b, n - 1, share);
      } else {
        SharesUpTo(0, if b > 0 then b - 1 else 0, n - 1, share);
      }
    }
  }

  lemma {:induction false} AdmittedShares(dollars: real, share: real, reqs: seq<Req>)
    ensures Sum(AdmittedDollars(dollars), reqs) >= 0
    ensures SumCost(ReservedShare(dollars, share), reqs) == Shares(Sum(AdmittedDollars(dollars), reqs), share)
  {
    if reqs != [] {
      AdmittedShares(dollars, share, reqs[..|reqs| - 1]);
    }
  }

  lemma {:induction false} ArrivingShares(share: real, reqs: seq<Req>)
    ensures Sum(ArrivingCostCount, reqs) >= 0
    ensures SumCost(ArrivingShare(share), reqs) == Shares(Sum(ArrivingCostCount, reqs), share)
  {
    if reqs != [] {
      ArrivingShares(share, reqs[..|reqs| - 1]);
    }
  }

  lemma WindowFits(s: State, dollars: real, c: nat, share: real)
    requires Window(s, dollars) <= c && share >= 0.0
    ensures WindowShare(s, dollars, share) <= Shares(c, share)
  {
    AdmittedShares(dollars, share, s.reqs);
    ArrivingShares(share, s.reqs);
    SharesUpTo(Sum(AdmittedDollars(dollars), s.reqs), Sum(ArrivingCostCount, s.reqs), c, share);
  }

  lemma {:induction false} SharesNonNegative(dollars: real, share: real, reqs: seq<Req>)
    requires share >= 0.0
    ensures SumCost(ReservedShare(dollars, share), reqs) >= 0.0 && SumCost(ArrivingShare(share), reqs) >= 0.0
  {
    if reqs != [] {
      SharesNonNegative(dollars, share, reqs[..|reqs| - 1]);
    }
  }

  lemma {:induction false} ArrivingAtMost(reqs: seq<Req>, dollars: real, m: real)
    requires AllWithin(reqs, dollars, m) && m >= 0.0
    ensures SumCost(CostArriving, reqs) <= SumCost(ArrivingShare(Share(m)), reqs)
  {
    if reqs != [] {
      ArrivingAtMost(reqs[..|reqs| - 1], dollars, m);
    }
  }

  // ----- the steps -----

  /** A read below the quota, from Redis or from the database, bounds the database cost. */
  lemma ReadBelowQuota(s: State, dollars: real, m: real)
    requires CostSound(s) && AllWithin(s.reqs, dollars, m) && m >= 0.0
    requires (s.redisCost.Some? && RedisCost(s) < dollars) || DbCost(s) < dollars
    ensures DbCost(s) <= dollars + SumCost(ArrivingShare(Share(m)), s.reqs) + DriftBound(s)
  {
    ArrivingAtMost(s.reqs, dollars, m);
    SharesNonNegative(dollars, Share(m), s.reqs);
  }

  /** Only the two reads of the cost admit a request, and only below the quota. */
  lemma AdmittingOp(s: State, q: Req, op: Op, dollars: real, share: real)
    requires OpEnabled(s, q, op) && !op.SelectFail? && QuotaAtMost(q.quota, dollars)
    requires !CostBelow(q.pc, dollars) && CostBelow(NextReq(s, q, op).pc, dollars)
    ensures (op.GetCost? && s.redisCost.Some? && RedisCost(s) < dollars) || (op.Select? && DbCost(s) < dollars)
    ensures WeighCost(ArrivingShare(share), NextReq(s, q, op)) == WeighCost(ArrivingShare(share), q)
    ensures var t := NextShared(s, q, op); DbCost(t) == DbCost(s) && DriftBound(t) == DriftBound(s)
  {
  }

  /** What a step that admits nobody does to the numbers: a commit trades its share for what it adds. */
  lemma OtherOp(s: State, q: Req, op: Op, dollars: real, m: real)
    requires OpEnabled(s, q, op) && q.charge.cost <= m && m >= 0.0
    requires CostBelow(NextReq(s, q, op).pc, dollars) ==> CostBelow(q.pc, dollars)
    ensures var t, q', w := NextShared(s, q, op), NextReq(s, q, op), ReservedShare(dollars, Share(m));
      DriftBound(s) <= DriftBound(t) && DbCost(t) + WeighCost(w, q') <= DbCost(s) + WeighCost(w, q)
  {
    CommitRounds(DbUnits(s), q.charge.cost);
  }

  /** The numbers of the state after a step of a request. */
  lemma Numbers(s: State, r: nat, op: Op, dollars: real, share: real)
    requires Enabled(s, On(r, op))
    ensures var t, q, q' := Apply(s, On(r, op)), s.reqs[r], NextReq(s, s.reqs[r], op);
      && DbCost(t) == DbCost(NextShared(s, q, op)) && DriftBound(t) == DriftBound(NextShared(s, q, op))
      && SumCost(ReservedShare(dollars, share), t.reqs) == SumCost(ReservedShare(dollars, share), s.reqs)
           - WeighCost(ReservedShare(dollars, share), q) + WeighCost(ReservedShare(dollars, share), q')
      && SumCost(ArrivingShare(share), t.reqs) == SumCost(ArrivingShare(share), s.reqs)
           - WeighCost(ArrivingShare(share), q) + WeighCost(ArrivingShare(share), q')
  {
    SumCostUpdate(ReservedShare(dollars, share), s.reqs, r, NextReq(s, s.reqs[r], op));
    SumCostUpdate(ArrivingShare(share), s.reqs, r, NextReq(s, s.reqs[r], op));
  }

  lemma OnStep(s: State, r: nat, op: Op, dollars: real, room: real, m: real)
    requires DollarInv(s, dollars, room, m) && m >= 0.0 && Enabled(s, On(r, op)) && !op.SelectFail?
    requires WindowShare(Apply(s, On(r, op)), dollars, Share(m)) <= room
    ensures var t := Apply(s, On(r, op)); Committable(t, dollars, m) <= dollars + room + DriftBound(t)
  {
    var q := s.reqs[r];
    Numbers(s, r, op, dollars, Share(m));
    if CostBelow(NextReq(s, q, op).pc, dollars) && !CostBelow(q.pc, dollars) {
      AdmittingOp(s, q, op, dollars, Share(m));
      ReadBelowQuota(s, dollars, m);
    } else {
      OtherOp(s, q, op, dollars, m);
    }
  }

  lemma NewcomerHasNoShare(reqs: seq<Req>, q: Req, dollars: real, share: real)
    requires q.pc.CheckQuota? || q.pc.RecordNext?
    ensures SumCost(ReservedShare(dollars, share), reqs + [q]) == SumCost(ReservedShare(dollars, share), reqs)
  {
    SumCostAppend(ReservedShare(dollars, share), reqs, q);
  }

  lemma ReqWithinNext(s: State, q: Req, op: Op, dollars: real, m: real)
    requires OpEnabled(s, q, op) && q.charge.cost <= m && Limits(On(0, op), dollars, m)
    ensures NextReq(s, q, op).charge.cost <= m && NextReq(s, q, op).quota == q.quota
  {
  }

  lemma AllWithinStep(s: State, a: Action, dollars: real, m: real)
    requires AllWithin(s.reqs, dollars, m) && m >= 0.0 && Enabled(s, a) && Limits(a, dollars, m)
    ensures AllWithin(Apply(s, a).reqs, dollars, m)
  {
    if a.On? {
      ReqWithinNext(s, s.reqs[a.r], a.op, dollars, m);
      assert Apply(s, a).reqs == s.reqs[a.r := NextReq(s, s.reqs[a.r], a.op)];
    }
  }

  lemma DollarStep(s: State, a: Action, dollars: real, room: real, m: real)
    requires DollarInv(s, dollars, room, m) && m >= 0.0 && Enabled(s, a) && Limits(a, dollars, m) && !LosesCost(s, a)
    requires WindowShare(Apply(s, a), dollars, Share(m)) <= room
    ensures DollarInv(Apply(s, a), dollars, room, m)
  {
    WellFormedStep(s, a);
    CostSoundStep(s, a);
    AllWithinStep(s, a, dollars, m);
    match a
    case Begin(q, rateOk) => NewcomerHasNoShare(s.reqs, NewReq(q, rateOk), dollars, Share(m));
    case On(r, op) => OnStep(s, r, op, dollars, room, m);
    case _ =>
  }

  // ----- runs -----

  /** At most c requests in the window, at most m dollars a response, and no step that meets its guard. */
  ghost predicate Bounded(s: State, run: seq<Action>, dollars: real, c: nat, m: real)
    requires ValidRun(s, run)
    decreases |run|
  {
    && Window(s, dollars) <= c
    && (run != [] ==>
          Limits(run[0], dollars, m) && !LosesCost(s, run[0]) && Bounded(Apply(s, run[0]), run[1..], dollars, c, m))
  }

  lemma {:induction false} DollarRun(s: State, run: seq<Action>, dollars: real, c: nat, m: real, room: real)
    requires DollarInv(s, dollars, room, m) && m >= 0.0 && room == Shares(c, Share(m))
    requires ValidRun(s, run) && Bounded(s, run, dollars, c, m)
    ensures DollarInv(Final(s, run), dollars, room, m)
    decreases |run|
  {
    if run != [] {
      var t := Apply(s, run[0]);
      assert Bounded(t, run[1..], dollars, c, m);
      WindowFits(t, dollars, c, Share(m));
      DollarStep(s, run[0], dollars, room, m);
      DollarRun(t, run[1..], dollars, c, m, room);
    }
  }

  lemma DollarAtStart(s: State, dollars: real, room: real, m: real)
    requires Fresh(s) && dollars >= 0.0 && room >= 0.0
    ensures DollarInv(s, dollars, room, m)
  {
    assert SumCost(ReservedShare(dollars, Share(m)), s.reqs) == 0.0;
  }

  /** The cost is at most the quota, c shares and the drift. */
  ghost predicate CostAtMost(t: State, dollars: real, c: nat, share: real) {
    DbCost(t) <= dollars + c as real * share + DriftBound(t)
  }

  lemma SharesMakeTheBound(t: State, dollars: real, c: nat, share: real)
    requires DbCost(t) <= dollars + Shares(c, share) + DriftBound(t)
    ensures CostAtMost(t, dollars, c, share)
  {
    SharesIsProduct(c, share);
  }

  lemma DollarTotal(s: State, run: seq<Action>, t: State, dollars: real, c: nat, m: real)
    requires Fresh(s) && dollars >= 0.0 && m >= 0.0
    requires ValidRun(s, run) && Final(s, run) == t && Bounded(s, run, dollars, c, m)
    ensures DbCost(t) <= dollars + Shares(c, Share(m)) + DriftBound(t)
  {
    var room := Shares(c, Share(m));
    SharesUpTo(0, 0, c, Share(m));
    DollarAtStart(s, dollars, room, m);
    DollarRun(s, run, dollars, c, m, room);
    SharesNonNegative(dollars, Share(m), t.reqs);
  }

  /** Dollar overshoot, over every interleaving from a fresh key with cold counters, losses and failed increments
      included: at most D + C*(M + 5e-9), plus 5e-7 once filled and 5e-9 for every usage, when no guard fires. */
  lemma DollarOvershootBound(s: State, run: seq<Action>, t: State, dollars: real, c: nat, m: real)
    requires Fresh(s) && dollars >= 0.0 && m >= 0.0
    requires ValidRun(s, run) && Final(s, run) == t && Bounded(s, run, dollars, c, m)
    ensures CostAtMost(t, dollars, c, Share(m))
  {
    DollarTotal(s, run, t, dollars, c, m);
    SharesMakeTheBound(t, dollars, c, Share(m));
  }
}
