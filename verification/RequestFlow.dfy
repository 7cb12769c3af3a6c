/** What one request does when nobody disturbs it: which requests AllowQuota lets through, what a response is
    charged, and what ServeHTTP leaves in both tables and both counters (internal/proxy/proxy.go). */
module RequestFlow {
  import opened Wrappers
  import opened Money
  import opened QuotaLedger
  import opened QuotaGap
  import Pricing

  /** The two comparisons of AllowQuota on the totals read. */
  predicate Allows(q: Quota, tokens: int, cost: real) {
    && (q.tokens == None || tokens < q.tokens.value)
    && (q.dollars == None || cost < q.dollars.value)
  }

  /** A key just issued, with and without its row in quota_totals. */
  lemma FreshKeys()
    ensures Fresh(State(true, None, [], None, None, [], 0, 0, 0.0, false))
    ensures Fresh(State(true, Some(Totals(0, 0)), [], None, None, [], 0, 0, 0.0, false))
  {
  }

  // ----- the path -----

  /** What a request can do next, by where it stands: ServeHTTP read from top to bottom. */
  predicate Next(s: State, q: Req, op: Op) {
    match q.pc
    case CheckQuota => if q.quota == Quota(None, None) then op == SkipQuota else op == GetTok || op == ReadError
    case GotTok(_) => op == GetCost || op == ReadError
    case NeedSelect => op == SelectFail || (op == Select && s.totals != None)
    case SetTokNext(_, _, _) => op == SetTok(true) || op == SetTok(false)
    case SetCostNext(_, _, _) => op == SetCost(true) || op == SetCost(false)
    case Forward => op == Abort || op == Unreachable || op.Respond?
    case UpsertNext => op == UpsertFail || (op == Upsert && s.present)
    case IncrTokNext => op == IncrTok || op == IncrTokFail
    case IncrCostNext => op == IncrCost || op == IncrCostFail
    case RecordNext => op == RecordFail || (op == Record && s.present)
    case Done => false
  }

  lemma PathExactly(s: State, r: nat, op: Op)
    requires r < |s.reqs|
    ensures Enabled(s, On(r, op)) <==> Next(s, s.reqs[r], op)
  {
  }

  /** What else can happen: a request begins, Redis drops a counter, or the key is deleted with all its rows. */
  lemma OtherActions(s: State, quota: Quota, rateOk: bool)
    ensures Enabled(s, Begin(quota, rateOk)) && Enabled(s, LoseTok) && Enabled(s, LoseCost)
    ensures Apply(s, LoseTok) == s.(redisTok := None, errTok := Apply(s, LoseTok).errTok)
    ensures Apply(s, LoseCost) == s.(redisCost := None, errCost := Apply(s, LoseCost).errCost)
    ensures Enabled(s, Delete) <==> s.present
    ensures s.present ==> Apply(s, Delete) == s.(present := false, totals := None, rows := [])
  {
  }

  // ----- the decision -----

  /** A request that finds both counters is let through exactly when they are below its quotas, and else refused. */
  lemma DecisionFromCounters(s: State, r: nat) returns (run: seq<Action>, t: State)
    requires r < |s.reqs| && s.reqs[r].pc == CheckQuota && s.reqs[r].quota != Quota(None, None)
    requires s.redisTok.Some? && s.redisCost.Some?
    ensures ValidRun(s, run) && Final(s, run) == t
    ensures var ok := Allows(s.reqs[r].quota, s.redisTok.value, s.redisCost.value);
      t == s.(reqs := s.reqs[r := s.reqs[r].(pc := if ok then Forward else RecordNext)])
  {
    run, t := OneMore(s, [], s, On(r, GetTok));
    run, t := OneMore(s, run, t, On(r, GetCost));
  }

  /** A request that misses a counter goes to the database. */
  lemma MissGoesToDatabase(s: State, r: nat) returns (run: seq<Action>, t: State)
    requires r < |s.reqs| && s.reqs[r].pc == CheckQuota && s.reqs[r].quota != Quota(None, None)
    requires s.redisTok.None? || s.redisCost.None?
    ensures ValidRun(s, run) && Final(s, run) == t
    ensures t == s.(reqs := s.reqs[r := s.reqs[r].(pc := NeedSelect)])
  {
    run, t := OneMore(s, [], s, On(r, GetTok));
    if s.redisTok.Some? {
      run, t := OneMore(s, run, t, On(r, GetCost));
    }
  }

  /** Its fill sets both counters to the totals and decides by the totals themselves. */
  lemma FillDecides(s: State, r: nat) returns (run: seq<Action>, t: State)
    requires r < |s.reqs| && s.reqs[r].pc == NeedSelect && s.totals.Some?
    ensures ValidRun(s, run) && Final(s, run) == t
    ensures t.redisTok == Some(s.totals.value.tokens) && t.totals == s.totals && t.rows == s.rows
    ensures t.redisCost == Some(Round6(FromUnits(s.totals.value.units)))
    ensures var ok := Allows(s.reqs[r].quota, s.totals.value.tokens, FromUnits(s.totals.value.units));
      t.reqs == s.reqs[r := s.reqs[r].(pc := if ok then Forward else RecordNext)]
  {
    run, t := OneMore(s, [], s, On(r, Select));
    run, t := OneMore(s, run, t, On(r, SetTok(true)));
    run, t := OneMore(s, run, t, On(r, SetCost(true)));
  }

  lemma DecisionFromDatabase(s: State, r: nat) returns (run: seq<Action>, t: State)
    requires r < |s.reqs| && s.reqs[r].pc == CheckQuota && s.reqs[r].quota != Quota(None, None)
    requires (s.redisTok.None? || s.redisCost.None?) && s.totals.Some?
    ensures ValidRun(s, run) && Final(s, run) == t
    ensures t.redisTok == Some(s.totals.value.tokens)
    ensures t.redisCost == Some(Round6(FromUnits(s.totals.value.units)))
    ensures var ok := Allows(s.reqs[r].quota, s.totals.value.tokens, FromUnits(s.totals.value.units));
      t.reqs == s.reqs[r := s.reqs[r].(pc := if ok then Forward else RecordNext)]
  {
    var second;
    run, t := MissGoesToDatabase(s, r);
    second, t := FillDecides(t, r);
    RunsCompose(s, run, second);
    run := run + second;
  }

  /** How a request begins: refused by the rate limiter, forwarded unseen without quotas, else to be decided; and
      when the SELECT of a decision fails it is let through. */
  lemma HowRequestsBegin(s: State, quota: Quota, rateOk: bool)
    ensures var t := Apply(s, Begin(quota, rateOk));
      var r := |s.reqs|;
      && t.reqs == s.reqs + [t.reqs[r]] && t.reqs[r].quota == quota && t == s.(reqs := t.reqs)
      && (t.reqs[r].pc == RecordNext <==> !rateOk)
      && (Enabled(t, On(r, SkipQuota)) <==> rateOk && quota == Quota(None, None))
      && (Enabled(t, On(r, GetTok)) <==> rateOk && quota != Quota(None, None))
      && (rateOk && quota == Quota(None, None) ==> Apply(t, On(r, SkipQuota)).reqs[r].pc == Forward)
    ensures forall r: nat :: Enabled(s, On(r, SelectFail)) ==> Apply(s, On(r, SelectFail)).reqs[r].pc == Forward
  {
  }

  /** A refused request leaves one record without charge and touches nothing else. */
  lemma RefusalIsRecorded(s: State, r: nat)
    requires r < |s.reqs| && s.reqs[r].pc == RecordNext && s.reqs[r].charge == NO_CHARGE && s.present
    ensures Enabled(s, On(r, Record))
    ensures var t := Apply(s, On(r, Record));
      && t.rows == s.rows + [Row(0, 0)] && t.reqs[r].pc == Done
      && t == s.(rows := t.rows, reqs := t.reqs)
  {
  }

  /** Where each of the other steps takes its request; they touch nothing else. */
  function After(op: Op): Option<Pc> {
    match op
    case ReadError => Some(NeedSelect)
    case Abort => Some(Done)
    case Unreachable => Some(RecordNext)
    case UpsertFail => Some(RecordNext)
    case IncrTokFail => Some(IncrCostNext)
    case IncrCostFail => Some(RecordNext)
    case RecordFail => Some(Done)
    case _ => None
  }

  lemma OtherEffects(s: State, r: nat, op: Op)
    requires Enabled(s, On(r, op)) && After(op).Some?
    ensures Apply(s, On(r, op)) == s.(reqs := s.reqs[r := s.reqs[r].(pc := After(op).value)])
  {
  }

  // ----- the charge -----

  /** Dollars per million tokens, summed over the tokens of a response: cached input at its own rate if there is
      one, no more of it than there is input. */
  function Priced(u: Usage, mp: Pricing.ModelPrice): real {
    var fromCache := Min(u.cached, u.input);
    (u.input - fromCache) as real * mp.input
    + fromCache as real * (if mp.cached == 0.0 then mp.input else mp.cached)
    + u.output as real * mp.output
  }

  /** ServeHTTP charges the tokens in and out and their price; a model without a price costs nothing. */
  lemma ChargeIsPriced(u: Usage, price: Option<Pricing.ModelPrice>)
    requires u.input >= 0 && u.output >= 0 && u.cached >= 0
    ensures ChargeOf(u, price).tokens == u.input + u.output
    ensures price.Some? ==> ChargeOf(u, price).cost * 1000000.0 == Priced(u, price.value)
    ensures price.None? ==> ChargeOf(u, price).cost == 0.0
  {
    if price.Some? {
      var asCached, asUncached := Pricing.CostBillsEveryInputToken(price.value, u.input, u.output, u.cached);
    }
  }

  // ----- the booking -----

  /** The response of a forwarded request. */
  lemma RespondEffect(s: State, r: nat, u: Usage, price: Option<Pricing.ModelPrice>)
    requires r < |s.reqs| && s.reqs[r].pc == Forward
    ensures Enabled(s, On(r, Respond(u, price)))
    ensures Apply(s, On(r, Respond(u, price))) ==
      s.(reqs := s.reqs[r := s.reqs[r].(charge := ChargeOf(u, price),
                                        pc := if AddsUsage(u, price) then UpsertNext else RecordNext)])
  {
  }

  lemma UpsertEffect(s: State, r: nat)
    requires r < |s.reqs| && s.reqs[r].pc == UpsertNext && s.present
    ensures Enabled(s, On(r, Upsert))
    ensures var t, c := Apply(s, On(r, Upsert)), s.reqs[r].charge;
      && t.totals == Some(Totals(DbTokens(s) + c.tokens, DbUnits(s) + ToUnits(c.cost)))
      && t.rows == s.rows && t.redisTok == s.redisTok && t.redisCost == s.redisCost && t.present
      && |t.reqs| == |s.reqs| && t.reqs[r].pc == IncrTokNext && t.reqs[r].charge == c
  {
  }

  lemma IncrementsEffect(s: State, r: nat)
    requires r < |s.reqs|
    ensures s.reqs[r].pc == IncrTokNext ==>
      Apply(s, On(r, IncrTok)) == s.(redisTok := Some(RedisTokens(s) + s.reqs[r].charge.tokens),
                                     reqs := s.reqs[r := s.reqs[r].(pc := IncrCostNext, tokIn := true)])
    ensures s.reqs[r].pc == IncrCostNext ==>
      Apply(s, On(r, IncrCost)) == s.(redisCost := Some(RedisCost(s) + s.reqs[r].charge.cost),
                                      reqs := s.reqs[r := s.reqs[r].(pc := RecordNext, costIn := true)])
  {
  }

  lemma RecordEffect(s: State, r: nat)
    requires r < |s.reqs| && s.reqs[r].pc == RecordNext && s.present
    ensures Enabled(s, On(r, Record))
    ensures var c := s.reqs[r].charge;
      Apply(s, On(r, Record)) == s.(rows := s.rows + [Row(c.tokens, ToUnits(c.cost))],
                                    reqs := s.reqs[r := s.reqs[r].(pc := Done, recorded := true)])
  {
  }

  /** A response that is added reaches the totals. */
  lemma RespondCommits(s: State, r: nat, u: Usage, price: Option<Pricing.ModelPrice>)
    returns (run: seq<Action>, t: State)
    requires r < |s.reqs| && s.reqs[r].pc == Forward && s.present && AddsUsage(u, price)
    ensures ValidRun(s, run) && Final(s, run) == t
    ensures var c := ChargeOf(u, price);
      t.totals == Some(Totals(DbTokens(s) + c.tokens, DbUnits(s) + ToUnits(c.cost)))
    ensures t.rows == s.rows && t.redisTok == s.redisTok && t.redisCost == s.redisCost && t.present
    ensures |t.reqs| == |s.reqs| && t.reqs[r].pc == IncrTokNext && t.reqs[r].charge == ChargeOf(u, price)
  {
    RespondEffect(s, r, u, price);
    run, t := OneMore(s, [], s, On(r, Respond(u, price)));
    UpsertEffect(t, r);
    run, t := OneMore(s, run, t, On(r, Upsert));
  }

  lemma CommitIsCounted(s: State, r: nat) returns (run: seq<Action>, t: State)
    requires r < |s.reqs| && s.reqs[r].pc == IncrTokNext
    ensures ValidRun(s, run) && Final(s, run) == t
    ensures var q := s.reqs[r];
      t == s.(redisTok := Some(RedisTokens(s) + q.charge.tokens), redisCost := Some(RedisCost(s) + q.charge.cost),
              reqs := s.reqs[r := q.(pc := RecordNext, tokIn := true, costIn := true)])
  {
    IncrementsEffect(s, r);
    run, t := OneMore(s, [], s, On(r, IncrTok));
    IncrementsEffect(t, r);
    run, t := OneMore(s, run, t, On(r, IncrCost));
  }

  /** And from there both counters and a record. */
  lemma CommitIsRecorded(s: State, r: nat) returns (run: seq<Action>, t: State)
    requires r < |s.reqs| && s.reqs[r].pc == IncrTokNext && s.present
    ensures ValidRun(s, run) && Final(s, run) == t
    ensures var c := s.reqs[r].charge;
      && t.totals == s.totals && t.rows == s.rows + [Row(c.tokens, ToUnits(c.cost))]
      && t.redisTok == Some(RedisTokens(s) + c.tokens) && t.redisCost == Some(RedisCost(s) + c.cost)
    ensures |t.reqs| == |s.reqs| && t.reqs[r].pc == Done
  {
    run, t := CommitIsCounted(s, r);
    RecordEffect(t, r);
    run, t := OneMore(s, run, t, On(r, Record));
  }

  /** What a charge of c leaves behind. */
  ghost predicate BookedOnce(s: State, t: State, c: Charge) {
    && t.totals == Some(Totals(DbTokens(s) + c.tokens, DbUnits(s) + ToUnits(c.cost)))
    && t.rows == s.rows + [Row(c.tokens, ToUnits(c.cost))]
    && t.redisTok == Some(RedisTokens(s) + c.tokens) && t.redisCost == Some(RedisCost(s) + c.cost)
  }

  /** A forwarded request whose response is added: it is in both tables and both counters in the end. */
  lemma ForwardedIsBooked(s: State, r: nat, u: Usage, price: Option<Pricing.ModelPrice>)
    returns (run: seq<Action>, t: State)
    requires r < |s.reqs| && s.reqs[r].pc == Forward && s.present && AddsUsage(u, price)
    ensures ValidRun(s, run) && Final(s, run) == t
    ensures BookedOnce(s, t, ChargeOf(u, price))
    ensures |t.reqs| == |s.reqs| && t.reqs[r].pc == Done
  {
    var second;
    run, t := RespondCommits(s, r, u, price);
    second, t := CommitIsRecorded(t, r);
    RunsCompose(s, run, second);
    run := run + second;
  }

  lemma UnlimitedIsForwarded(s: State) returns (run: seq<Action>, t: State)
    requires s.reqs == []
    ensures ValidRun(s, run) && Final(s, run) == t
    ensures |t.reqs| == 1 && t.reqs[0].pc == Forward && t == s.(reqs := t.reqs)
  {
    run, t := OneMore(s, [], s, Begin(Quota(None, None), true));
    run, t := OneMore(s, run, t, On(0, SkipQuota));
  }

  /** When the response is added: some count is positive and there is something to add. */
  lemma AddedExactly(u: Usage, price: Option<Pricing.ModelPrice>)
    requires u.input >= 0 && u.output >= 0
    ensures AddsUsage(u, price) <==> u.input > 0 || u.output > 0
  {
  }

  lemma FreshIsBooked(s: State, u: Usage, price: Option<Pricing.ModelPrice>) returns (run: seq<Action>, t: State)
    requires Fresh(s) && AddsUsage(u, price)
    ensures ValidRun(s, run) && Final(s, run) == t
    ensures BookedOnce(s, t, ChargeOf(u, price))
  {
    var first, m := UnlimitedIsForwarded(s);
    run, t := ForwardedIsBooked(m, 0, u, price);
    RunsCompose(s, first, run);
    run := first + run;
    BookedBefore(s, m, t, ChargeOf(u, price));
  }

  lemma BookedBefore(s: State, m: State, t: State, c: Charge)
    requires m == s.(reqs := m.reqs) && BookedOnce(m, t, c)
    ensures BookedOnce(s, t, c)
  {
  }

  lemma PerToken(cost: real, priced: real)
    requires cost * 1000000.0 == priced
    ensures cost == priced / 1000000.0
  {
  }

  /** One request of a fresh key without quotas, from its start to its record: the totals are its tokens and its
      price rounded to the column, and the record, and the counters, say the same. */
  lemma OneRequestIsBooked(s: State, u: Usage, mp: Pricing.ModelPrice) returns (run: seq<Action>, t: State)
    requires Fresh(s) && u.input >= 0 && u.output >= 0 && u.cached >= 0 && u.input + u.output > 0
    ensures ValidRun(s, run) && Final(s, run) == t
    ensures BookedOnce(s, t, Charge(u.input + u.output, Priced(u, mp) / 1000000.0))
  {
    AddedExactly(u, Some(mp));
    run, t := FreshIsBooked(s, u, Some(mp));
    ChargeIsPriced(u, Some(mp));
    PerToken(ChargeOf(u, Some(mp)).cost, Priced(u, mp));
  }
}
