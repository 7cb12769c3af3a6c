/** The quota ledger of one key and the requests that race over it: ServeHTTP and checkLimits
    (internal/proxy/proxy.go) driving AllowQuota, quotaTotals, AddUsage and RecordRequest
    (internal/keys/keys.go).  Each Postgres statement and each Redis command is one atomic step
    of one request; any number of requests interleave. */
module QuotaLedger {
  import opened Wrappers
  import opened Money
  import Pricing

  /** The quotas of a key; None is nil, "unlimited". */
  datatype Quota = Quota(tokens: Option<int>, dollars: Option<real>)

  datatype Usage = Usage(input: int, output: int, cached: int)

  /** What a request is charged; the cost is as computed, before any column rounds it. */
  datatype Charge = Charge(tokens: int, cost: real)

  const NO_CHARGE := Charge(0, 0.0)

  /** Where a request stands.  `mark` is the number of usages committed when the SELECT ran. */
  datatype Pc =
    | CheckQuota
    | GotTok(tok: int)
    | NeedSelect
    | SetTokNext(tok: int, units: int, mark: nat)
    | SetCostNext(tok: int, units: int, mark: nat)
    | Forward
    | UpsertNext
    | IncrTokNext
    | IncrCostNext
    | RecordNext
    | Done

  /** `quota` is what the key said when the request was authenticated, possibly from the verify cache.
      `commitNo` is the position of this request's usage among all usages committed to the database;
      `recorded` says that its usage_records row was written. */
  datatype Req = Req(pc: Pc, quota: Quota, charge: Charge, commitNo: Option<nat>,
                     tokIn: bool, costIn: bool, recorded: bool)

  datatype Totals = Totals(tokens: int, units: int)

  datatype Row = Row(tokens: int, units: int)

  /** Shared state.  commits, errTok, errCost and filled are history: no step is guarded by them. */
  datatype State = State(
    present: bool,              // the api_keys row exists
    totals: Option<Totals>,     // the quota_totals row
    rows: seq<Row>,             // the key's usage_records
    redisTok: Option<int>,      // qt:tok:<id>
    redisCost: Option<real>,    // qt:cost:<id>
    reqs: seq<Req>,
    commits: nat,
    errTok: int,
    errCost: real,
    filled: bool
  )

  /** The steps of one request. */
  datatype Op =
    | SkipQuota
    | GetTok
    | GetCost
    | ReadError
    | Select
    | SelectFail
    | SetTok(ok: bool)
    | SetCost(ok: bool)
    | Abort
    | Unreachable
    | Respond(usage: Usage, price: Option<Pricing.ModelPrice>)
    | Upsert
    | UpsertFail
    | IncrTok
    | IncrTokFail
    | IncrCost
    | IncrCostFail
    | Record
    | RecordFail

  datatype Action =
    | Begin(quota: Quota, rateOk: bool)  // a verified key reaches checkLimits; AllowRate's answer is an input
    | On(r: nat, op: Op)    // request r takes a step
    | LoseTok               // Redis drops a counter
    | LoseCost
    | Delete                // DELETE FROM api_keys

  function DbTokens(s: State): int {
    if s.totals.Some? then s.totals.value.tokens else 0
  }

  function DbUnits(s: State): int {
    if s.totals.Some? then s.totals.value.units else 0
  }

  /** An absent Redis counter counts as 0: INCRBY and INCRBYFLOAT start from there. */
  function RedisTokens(s: State): int {
    if s.redisTok.Some? then s.redisTok.value else 0
  }

  function RedisCost(s: State): real {
    if s.redisCost.Some? then s.redisCost.value else 0.0
  }

  /** AllowQuota's comparison of the totals it read. */
  predicate WithinQuota(q: Quota, tokens: int, cost: real) {
    && (q.tokens.Some? ==> tokens < q.tokens.value)
    && (q.dollars.Some? ==> cost < q.dollars.value)
  }

  /** ServeHTTP after the response: the cost is priced and AddUsage is called, or skipped. */
  function ChargeOf(u: Usage, price: Option<Pricing.ModelPrice>): Charge {
    Charge(u.input + u.output, Pricing.Cost(price, u.input, u.output, u.cached))
  }

  predicate AddsUsage(u: Usage, price: Option<Pricing.ModelPrice>) {
    (u.input > 0 || u.output > 0) && ChargeOf(u, price) != NO_CHARGE
  }

  predicate Limited(q: Quota) {
    q.tokens.Some? || q.dollars.Some?
  }

  predicate OpEnabled(s: State, q: Req, op: Op) {
    var pc := q.pc;
    match op
    case SkipQuota => pc.CheckQuota? && !Limited(q.quota)
    case GetTok => pc.CheckQuota? && Limited(q.quota)
    case GetCost => pc.GotTok?
    case ReadError => pc.GotTok? || (pc.CheckQuota? && Limited(q.quota))
    case Select => pc.NeedSelect? && s.totals.Some?
    case SelectFail => pc.NeedSelect?
    case SetTok(_) => pc.SetTokNext?
    case SetCost(_) => pc.SetCostNext?
    case Abort => pc.Forward?
    case Unreachable => pc.Forward?
    case Respond(_, _) => pc.Forward?
    case Upsert => pc.UpsertNext? && s.present
    case UpsertFail => pc.UpsertNext?
    case IncrTok => pc.IncrTokNext?
    case IncrTokFail => pc.IncrTokNext?
    case IncrCost => pc.IncrCostNext?
    case IncrCostFail => pc.IncrCostNext?
    case Record => pc.RecordNext? && s.present
    case RecordFail => pc.RecordNext?
  }

  predicate Enabled(s: State, a: Action) {
    match a
    case On(r, op) => r < |s.reqs| && OpEnabled(s, s.reqs[r], op)
    case Delete => s.present
    case _ => true
  }

  /** checkLimits on the totals read: forward the request, or refuse it and record a row without charge. */
  function Decide(quota: Quota, tokens: int, cost: real): Pc {
    if WithinQuota(quota, tokens, cost) then Forward else RecordNext
  }

  /** What a step does to the request that takes it. */
  function NextReq(s: State, q: Req, op: Op): Req
    requires OpEnabled(s, q, op)
  {
    match op
    case SkipQuota => q.(pc := Forward)
    case GetTok => q.(pc := if s.redisTok.Some? then GotTok(s.redisTok.value) else NeedSelect)
    case GetCost => q.(pc := if s.redisCost.Some? then Decide(q.quota, q.pc.tok, s.redisCost.value) else NeedSelect)
    case ReadError => q.(pc := NeedSelect)
    case Select => q.(pc := SetTokNext(s.totals.value.tokens, s.totals.value.units, s.commits))
    case SelectFail => q.(pc := Forward)  // checkLimits logs the error and lets the request through
    case SetTok(_) => q.(pc := SetCostNext(q.pc.tok, q.pc.units, q.pc.mark))
    case SetCost(_) => q.(pc := Decide(q.quota, q.pc.tok, FromUnits(q.pc.units)))
    case Abort => q.(pc := Done)
    case Unreachable => q.(pc := RecordNext)
    case Respond(u, price) =>
      q.(charge := ChargeOf(u, price), pc := if AddsUsage(u, price) then UpsertNext else RecordNext)
    case Upsert => q.(pc := IncrTokNext, commitNo := Some(s.commits))
    case UpsertFail => q.(pc := RecordNext)
    case IncrTok => q.(pc := IncrCostNext, tokIn := true)
    case IncrTokFail => q.(pc := IncrCostNext)
    case IncrCost => q.(pc := RecordNext, costIn := true)
    case IncrCostFail => q.(pc := RecordNext)
    case Record => q.(pc := Done, recorded := true)
    case RecordFail => q.(pc := Done)
  }

  /** What a step does to everything but the requests. */
  function NextShared(s: State, q: Req, op: Op): State
    requires OpEnabled(s, q, op)
  {
    match op
    case SetTok(ok) =>
      if !ok then s else
        s.(redisTok := Some(q.pc.tok),
           errTok := Sum(PendingBefore(q.pc.mark), s.reqs) - Sum(IncrementedAfter(q.pc.mark), s.reqs))
    case SetCost(ok) =>
      if !ok then s else
        s.(redisCost := Some(Round6(FromUnits(q.pc.units))),
           errCost := SumCost(CostPendingBefore(q.pc.mark), s.reqs) - SumCost(CostIncrementedAfter(q.pc.mark), s.reqs),
           filled := true)
    case Upsert =>
      s.(totals := Some(Totals(DbTokens(s) + q.charge.tokens, DbUnits(s) + ToUnits(q.charge.cost))),
         commits := s.commits + 1)
    case IncrTok => s.(redisTok := Some(RedisTokens(s) + q.charge.tokens))
    case IncrCost => s.(redisCost := Some(RedisCost(s) + q.charge.cost))
    case Record => s.(rows := s.rows + [Row(q.charge.tokens, ToUnits(q.charge.cost))])
    case _ => s
  }

  function NewReq(quota: Quota, rateOk: bool): Req {
    Req(if rateOk then CheckQuota else RecordNext, quota, NO_CHARGE, None, false, false, false)
  }

  function Apply(s: State, a: Action): State
    requires Enabled(s, a)
  {
    match a
    case Begin(quota, rateOk) => s.(reqs := s.reqs + [NewReq(quota, rateOk)])
    case On(r, op) => NextShared(s, s.reqs[r], op).(reqs := s.reqs[r := NextReq(s, s.reqs[r], op)])
    case LoseTok => s.(redisTok := None, errTok := Sum(Pending, s.reqs) - Sum(Committed, s.reqs))
    case LoseCost => s.(redisCost := None, errCost := SumCost(CostPending, s.reqs) - FromUnits(DbUnits(s)))
    case Delete => s.(present := false, totals := None, rows := [])  // both tables cascade
  }

  /** A key just issued; its quota_totals row was inserted or not, as Issue ignores that error. */
  predicate Fresh(s: State) {
    && s.present && (s.totals == None || s.totals == Some(Totals(0, 0)))
    && s.rows == [] && s.reqs == [] && s.commits == 0
    && s.redisTok == None && s.redisCost == None
    && s.errTok == 0 && s.errCost == 0.0 && !s.filled
  }

  ghost predicate ValidRun(s: State, run: seq<Action>)
    decreases |run|
  {
    run == [] || (Enabled(s, run[0]) && ValidRun(Apply(s, run[0]), run[1..]))
  }

  ghost function Final(s: State, run: seq<Action>): State
    requires ValidRun(s, run)
    decreases |run|
  {
    if run == [] then s else Final(Apply(s, run[0]), run[1..])
  }

  lemma {:induction false} RunsCompose(s: State, first: seq<Action>, second: seq<Action>)
    requires ValidRun(s, first) && ValidRun(Final(s, first), second)
    ensures ValidRun(s, first + second) && Final(s, first + second) == Final(Final(s, first), second)
    decreases |first|
  {
    if first == [] {
      assert first + second == second;
    } else {
      RunsCompose(Apply(s, first[0]), first[1..], second);
      assert (first + second)[1..] == first[1..] + second;
    }
  }

  /** A run, one action longer. */
  lemma OneMore(s: State, run: seq<Action>, t: State, a: Action) returns (run': seq<Action>, u: State)
    requires ValidRun(s, run) && Final(s, run) == t && Enabled(t, a)
    ensures u == Apply(t, a) && ValidRun(s, run') && Final(s, run') == u
  {
    u := Apply(t, a);
    var none: seq<Action> := [];
    assert [a][1..] == none && ValidRun(u, none);
    assert ValidRun(t, [a]) && Final(t, [a]) == u;
    RunsCompose(s, run, [a]);
    run' := run + [a];
  }

  // ----- sums over requests -----

  datatype Weight =
    | Committed
    | Pending
    | CommittedBefore(m: nat)
    | PendingBefore(m: nat)
    | IncrementedAfter(m: nat)
    | CommittedUnits
    | CommittedUnitsBefore(m: nat)
    | CommittedCount
    | InFlightTokens
    | InFlightUnits
    | UnrecordedTokens
    | UnrecordedUnits
    | UncountedTokens
    | UncountedUnits
    | Admitted(quota: int)
    | Arriving
    | ArrivingCount
    | LowFill(quota: int)
    | AdmittedDollars(dollars: real)
    | ArrivingCostCount

  /** The request has read totals below the token quota and has not committed its usage. */
  predicate ReadBelow(pc: Pc, quota: int) {
    match pc
    case GotTok(t) => t < quota
    case SetTokNext(t, _, _) => t < quota
    case SetCostNext(t, _, _) => t < quota
    case Forward | UpsertNext => true
    case _ => false
  }

  /** The request has read a cost below the dollar quota and has not committed its usage. */
  predicate CostBelow(pc: Pc, dollars: real) {
    match pc
    case SetTokNext(_, u, _) => FromUnits(u) < dollars
    case SetCostNext(_, u, _) => FromUnits(u) < dollars
    case Forward | UpsertNext => true
    case _ => false
  }

  /** The usage is committed and its IncrByFloat is still to run. */
  predicate CostOnItsWay(pc: Pc) {
    pc.IncrTokNext? || pc.IncrCostNext?
  }

  function Weigh(w: Weight, q: Req): int {
    var committed := q.commitNo.Some?;
    match w
    case Committed => if committed then q.charge.tokens else 0
    case Pending => if committed && !q.tokIn then q.charge.tokens else 0
    case CommittedBefore(m) => if committed && q.commitNo.value < m then q.charge.tokens else 0
    case PendingBefore(m) => if committed && q.commitNo.value < m && !q.tokIn then q.charge.tokens else 0
    case IncrementedAfter(m) => if committed && q.commitNo.value >= m && q.tokIn then q.charge.tokens else 0
    case CommittedUnits => if committed then ToUnits(q.charge.cost) else 0
    case CommittedUnitsBefore(m) => if committed && q.commitNo.value < m then ToUnits(q.charge.cost) else 0
    case CommittedCount => if committed then 1 else 0
    case InFlightTokens => if committed && q.pc != Done then q.charge.tokens else 0
    case InFlightUnits => if committed && q.pc != Done then ToUnits(q.charge.cost) else 0
    case UnrecordedTokens => if committed && !q.recorded then q.charge.tokens else 0
    case UnrecordedUnits => if committed && !q.recorded then ToUnits(q.charge.cost) else 0
    case UncountedTokens => if !committed && q.recorded then q.charge.tokens else 0
    case UncountedUnits => if !committed && q.recorded then ToUnits(q.charge.cost) else 0
    case Admitted(quota) => if ReadBelow(q.pc, quota) then 1 else 0
    case LowFill(quota) => if q.pc.SetTokNext? && q.pc.tok < quota then 1 else 0
    case AdmittedDollars(dollars) => if CostBelow(q.pc, dollars) then 1 else 0
    case ArrivingCostCount => if CostOnItsWay(q.pc) then 1 else 0
    case Arriving => if q.pc.IncrTokNext? then q.charge.tokens else 0
    case ArrivingCount => if q.pc.IncrTokNext? then 1 else 0
  }

  function Sum(w: Weight, reqs: seq<Req>): int {
    if reqs == [] then 0 else Sum(w, reqs[..|reqs| - 1]) + Weigh(w, reqs[|reqs| - 1])
  }

  /** The last two give every request in the dollar window the same share. */
  datatype CostWeight =
    | CostPending
    | CostArriving
    | CostPendingBefore(m: nat)
    | CostIncrementedAfter(m: nat)
    | ReservedShare(dollars: real, share: real)
    | ArrivingShare(share: real)

  function WeighCost(w: CostWeight, q: Req): real {
    var committed := q.commitNo.Some?;
    match w
    case CostPending => if committed && !q.costIn then q.charge.cost else 0.0
    case ReservedShare(dollars, share) => if CostBelow(q.pc, dollars) then share else 0.0
    case ArrivingShare(share) => if CostOnItsWay(q.pc) then share else 0.0
    case CostArriving => if CostOnItsWay(q.pc) then q.charge.cost else 0.0
    case CostPendingBefore(m) => if committed && q.commitNo.value < m && !q.costIn then q.charge.cost else 0.0
    case CostIncrementedAfter(m) => if committed && q.commitNo.value >= m && q.costIn then q.charge.cost else 0.0
  }

  function SumCost(w: CostWeight, reqs: seq<Req>): real {
    if reqs == [] then 0.0 else SumCost(w, reqs[..|reqs| - 1]) + WeighCost(w, reqs[|reqs| - 1])
  }

  lemma SumAppend(w: Weight, reqs: seq<Req>, q: Req)
    ensures Sum(w, reqs + [q]) == Sum(w, reqs) + Weigh(w, q)
  {
    assert (reqs + [q])[..|reqs|] == reqs;
  }

  lemma {:induction false} SumUpdate(w: Weight, reqs: seq<Req>, i: nat, q: Req)
    requires i < |reqs|
    ensures Sum(w, reqs[i := q]) == Sum(w, reqs) - Weigh(w, reqs[i]) + Weigh(w, q)
  {
    var n := |reqs| - 1;
    if i == n {
      assert reqs[i := q][..n] == reqs[..n];
    } else {
      assert reqs[i := q][..n] == reqs[..n][i := q];
      SumUpdate(w, reqs[..n], i, q);
    }
  }

  lemma SumCostAppend(w: CostWeight, reqs: seq<Req>, q: Req)
    ensures SumCost(w, reqs + [q]) == SumCost(w, reqs) + WeighCost(w, q)
  {
    assert (reqs + [q])[..|reqs|] == reqs;
  }

  lemma {:induction false} SumCostUpdate(w: CostWeight, reqs: seq<Req>, i: nat, q: Req)
    requires i < |reqs|
    ensures SumCost(w, reqs[i := q]) == SumCost(w, reqs) - WeighCost(w, reqs[i]) + WeighCost(w, q)
  {
    var n := |reqs| - 1;
    if i == n {
      assert reqs[i := q][..n] == reqs[..n];
    } else {
      assert reqs[i := q][..n] == reqs[..n][i := q];
      SumCostUpdate(w, reqs[..n], i, q);
    }
  }

  // ----- what every step keeps -----

  /** A request's flags agree with where it stands. */
  predicate ReqOk(q: Req, commits: nat) {
    && (q.commitNo.Some? ==> q.commitNo.value < commits)
    && ((q.tokIn || q.costIn) ==> q.commitNo.Some?)
    && (q.recorded ==> q.pc.Done?)
    && match q.pc
       case SetTokNext(_, _, m) => q.commitNo.None? && m <= commits && q.charge == NO_CHARGE
       case SetCostNext(_, _, m) => q.commitNo.None? && m <= commits && q.charge == NO_CHARGE
       case CheckQuota | GotTok(_) | NeedSelect | Forward => q.commitNo.None? && q.charge == NO_CHARGE
       case UpsertNext => q.commitNo.None?
       case IncrTokNext => q.commitNo.Some? && !q.tokIn && !q.costIn
       case IncrCostNext => q.commitNo.Some? && !q.costIn
       case _ => true
  }

  ghost predicate WellFormed(s: State) {
    forall i :: 0 <= i < |s.reqs| ==> ReqOk(s.reqs[i], s.commits)
  }

  lemma ReqOkStep(s: State, q: Req, op: Op)
    requires ReqOk(q, s.commits) && OpEnabled(s, q, op)
    ensures ReqOk(NextReq(s, q, op), NextShared(s, q, op).commits)
    ensures s.commits <= NextShared(s, q, op).commits
  {
  }

  lemma ReqOkLater(q: Req, commits: nat, later: nat)
    requires ReqOk(q, commits) && commits <= later
    ensures ReqOk(q, later)
  {
  }

  lemma WellFormedStep(s: State, a: Action)
    requires WellFormed(s) && Enabled(s, a)
    ensures WellFormed(Apply(s, a))
  {
    if a.On? {
      var q, t := s.reqs[a.r], Apply(s, a);
      ReqOkStep(s, q, a.op);
      forall i | 0 <= i < |t.reqs| ensures ReqOk(t.reqs[i], t.commits) {
        if i != a.r { ReqOkLater(s.reqs[i], s.commits, t.commits); }
      }
    }
  }
}
