/** Conservation: quota_totals is the sum of usage_records plus what is on its way between the
    two, in tokens and in 10^-8 dollars, at every reachable state. */
module LedgerConservation {
  import opened Wrappers
  import opened Money
  import opened QuotaLedger
  import Pricing

  function RowTokens(rows: seq<Row>): int {
    if rows == [] then 0 else RowTokens(rows[..|rows| - 1]) + rows[|rows| - 1].tokens
  }

  function RowUnits(rows: seq<Row>): int {
    if rows == [] then 0 else RowUnits(rows[..|rows| - 1]) + rows[|rows| - 1].units
  }

  /** The counts of a response that ServeHTTP books on both sides or on neither: some count is positive, or
      there are no tokens and the cost rounds to nothing. */
  predicate Accounted(u: Usage, price: Option<Pricing.ModelPrice>) {
    u.input > 0 || u.output > 0 || (u.input + u.output == 0 && ToUnits(ChargeOf(u, price).cost) == 0)
  }

  /** No database error while the key exists, and every response is accounted. */
  predicate Reliable(s: State, a: Action) {
    a.On? ==>
      && (a.op.UpsertFail? || a.op.RecordFail? ==> !s.present)
      && (a.op.Respond? ==> Accounted(a.op.usage, a.op.price))
  }

  ghost predicate ReliableRun(s: State, run: seq<Action>)
    requires ValidRun(s, run)
    decreases |run|
  {
    run == [] || (Reliable(s, run[0]) && ReliableRun(Apply(s, run[0]), run[1..]))
  }

  /** Tokens and units added to the totals and not recorded, less those recorded and not added. */
  function Missing(reqs: seq<Req>): (int, int) {
    (Sum(UnrecordedTokens, reqs) - Sum(UncountedTokens, reqs), Sum(UnrecordedUnits, reqs) - Sum(UncountedUnits, reqs))
  }

  function MissingOf(q: Req): (int, int) {
    (Weigh(UnrecordedTokens, q) - Weigh(UncountedTokens, q), Weigh(UnrecordedUnits, q) - Weigh(UncountedUnits, q))
  }

  /** The exact balance. */
  ghost predicate Balanced(s: State) {
    DbTokens(s) == RowTokens(s.rows) + Missing(s.reqs).0 && DbUnits(s) == RowUnits(s.rows) + Missing(s.reqs).1
  }

  ghost predicate Emptied(s: State) {
    s.totals == None && s.rows == []
  }

  ghost predicate BalanceInv(s: State) {
    WellFormed(s) && if s.present then Balanced(s) else Emptied(s)
  }

  /** The row that a step writes, if it writes one. */
  function NewRow(q: Req, op: Op): Row {
    if op.Record? then Row(q.charge.tokens, ToUnits(q.charge.cost)) else Row(0, 0)
  }

  /** What a step moves between the totals, the rows and what is missing from either. */
  lemma BalanceDelta(s: State, q: Req, op: Op)
    requires s.present && ReqOk(q, s.commits) && OpEnabled(s, q, op)
    ensures var t, q' := NextShared(s, q, op), NextReq(s, q, op);
      && DbTokens(t) - DbTokens(s) == NewRow(q, op).tokens + MissingOf(q').0 - MissingOf(q).0
      && DbUnits(t) - DbUnits(s) == NewRow(q, op).units + MissingOf(q').1 - MissingOf(q).1
      && t.present && t.rows == (if op.Record? then s.rows + [NewRow(q, op)] else s.rows)
  {
  }

  lemma RowSums(rows: seq<Row>, row: Row)
    ensures RowTokens(rows + [row]) == RowTokens(rows) + row.tokens
    ensures RowUnits(rows + [row]) == RowUnits(rows) + row.units
  {
    assert (rows + [row])[..|rows|] == rows;
  }

  lemma MissingUpdate(reqs: seq<Req>, i: nat, q: Req)
    requires i < |reqs|
    ensures Missing(reqs[i := q]).0 == Missing(reqs).0 - MissingOf(reqs[i]).0 + MissingOf(q).0
    ensures Missing(reqs[i := q]).1 == Missing(reqs).1 - MissingOf(reqs[i]).1 + MissingOf(q).1
  {
    SumUpdate(UnrecordedTokens, reqs, i, q);
    SumUpdate(UnrecordedUnits, reqs, i, q);
    SumUpdate(UncountedTokens, reqs, i, q);
    SumUpdate(UncountedUnits, reqs, i, q);
  }

  lemma MissingAppend(reqs: seq<Req>, q: Req)
    requires MissingOf(q) == (0, 0)
    ensures Missing(reqs + [q]) == Missing(reqs)
  {
    SumAppend(UnrecordedTokens, reqs, q);
    SumAppend(UnrecordedUnits, reqs, q);
    SumAppend(UncountedTokens, reqs, q);
    SumAppend(UncountedUnits, reqs, q);
  }

  lemma BalanceStep(s: State, r: nat, op: Op)
    requires s.present && Balanced(s) && Enabled(s, On(r, op)) && ReqOk(s.reqs[r], s.commits)
    ensures Balanced(Apply(s, On(r, op)))
  {
    var q, q' := s.reqs[r], NextReq(s, s.reqs[r], op);
    BalanceDelta(s, q, op);
    RowSums(s.rows, NewRow(q, op));
    MissingUpdate(s.reqs, r, q');
  }

  lemma BeginBalance(s: State, q: Req)
    requires Balanced(s) && MissingOf(q) == (0, 0)
    ensures Balanced(s.(reqs := s.reqs + [q]))
  {
    MissingAppend(s.reqs, q);
  }

  /** After the deletion no statement reaches the two tables any more. */
  lemma DeletedStep(s: State, a: Action)
    requires WellFormed(s) && !s.present && s.totals == None && s.rows == [] && Enabled(s, a)
    ensures var t := Apply(s, a); !t.present && t.totals == None && t.rows == []
  {
  }

  lemma BalanceInvStep(s: State, a: Action)
    requires BalanceInv(s) && Enabled(s, a)
    ensures BalanceInv(Apply(s, a))
  {
    WellFormedStep(s, a);
    if !s.present {
      DeletedStep(s, a);
    } else if a.On? {
      assert ReqOk(s.reqs[a.r], s.commits);
      BalanceStep(s, a.r, a.op);
      BalanceDelta(s, s.reqs[a.r], a.op);
    } else if a.Begin? {
      BeginBalance(s, NewReq(a.quota, a.rateOk));
    }
  }

  lemma {:induction false} BalanceRun(s: State, run: seq<Action>)
    requires BalanceInv(s) && ValidRun(s, run)
    ensures BalanceInv(Final(s, run))
    decreases |run|
  {
    if run != [] {
      BalanceInvStep(s, run[0]);
      BalanceRun(Apply(s, run[0]), run[1..]);
    }
  }

  /** The exact ledger law, with no hypothesis on the run: whatever fails and whatever counts the upstream
      reports, at every reachable state of a key that exists. */
  lemma ExactLedger(s: State, run: seq<Action>, t: State)
    requires Fresh(s) && ValidRun(s, run) && Final(s, run) == t && t.present
    ensures DbTokens(t) == RowTokens(t.rows) + Sum(UnrecordedTokens, t.reqs) - Sum(UncountedTokens, t.reqs)
    ensures DbUnits(t) == RowUnits(t.rows) + Sum(UnrecordedUnits, t.reqs) - Sum(UncountedUnits, t.reqs)
  {
    BalanceRun(s, run);
  }

  // ----- reliable runs -----

  /** Whatever is recorded without having been added to the totals is worth nothing, and what is done was
      recorded if it was added. */
  ghost predicate Booked(q: Req) {
    && (q.commitNo.None? && (q.pc.RecordNext? || q.recorded) ==> q.charge.tokens == 0 && ToUnits(q.charge.cost) == 0)
    && (q.commitNo.Some? && q.pc.Done? ==> q.recorded)
  }

  ghost predicate AllBooked(s: State) {
    forall i :: 0 <= i < |s.reqs| ==> Booked(s.reqs[i])
  }

  predicate Worthless(c: Charge) {
    c.tokens == 0 && ToUnits(c.cost) == 0
  }

  /** Skipping AddUsage loses nothing exactly when the response is accounted; with counts that are not negative
      it always is, as cached tokens are clamped to the input and no tokens mean no cost. */
  lemma SkippedUsageIsFree(u: Usage, price: Option<Pricing.ModelPrice>)
    ensures Accounted(u, price) <==> AddsUsage(u, price) || Worthless(ChargeOf(u, price))
    ensures u.input >= 0 && u.output >= 0 && u.cached >= 0 ==> Accounted(u, price)
  {
    if u.input == 0 && u.output == 0 && price.Some? {
      Pricing.NoTokensNoCost(price.value, u.cached);
    }
  }

  lemma BookedStep(s: State, q: Req, op: Op)
    requires ReqOk(q, s.commits) && Booked(q) && OpEnabled(s, q, op)
    requires !op.UpsertFail? && !op.RecordFail? && (op.Respond? ==> Accounted(op.usage, op.price))
    ensures Booked(NextReq(s, q, op))
  {
    if op.Respond? {
      SkippedUsageIsFree(op.usage, op.price);
    }
  }

  lemma AllBookedStep(s: State, a: Action)
    requires WellFormed(s) && s.present && AllBooked(s) && Enabled(s, a) && Reliable(s, a)
    ensures AllBooked(Apply(s, a))
  {
    if a.On? {
      assert ReqOk(s.reqs[a.r], s.commits) && Booked(s.reqs[a.r]);
      BookedStep(s, s.reqs[a.r], a.op);
      var reqs := s.reqs[a.r := NextReq(s, s.reqs[a.r], a.op)];
      assert Apply(s, a).reqs == reqs;
      forall i | 0 <= i < |reqs| ensures Booked(reqs[i]) {
        if i != a.r { assert reqs[i] == s.reqs[i]; }
      }
    }
  }

  /** A key that was deleted does not come back. */
  lemma PresentBefore(s: State, a: Action)
    requires Enabled(s, a) && Apply(s, a).present
    ensures s.present
  {
  }

  lemma {:induction false} BookedRun(s: State, run: seq<Action>)
    requires WellFormed(s) && ValidRun(s, run) && ReliableRun(s, run) && (s.present ==> AllBooked(s))
    ensures Final(s, run).present ==> AllBooked(Final(s, run))
    decreases |run|
  {
    if run != [] {
      WellFormedStep(s, run[0]);
      if Apply(s, run[0]).present {
        PresentBefore(s, run[0]);
        AllBookedStep(s, run[0]);
      }
      BookedRun(Apply(s, run[0]), run[1..]);
    }
  }

  lemma {:induction false} BookedSums(reqs: seq<Req>, commits: nat)
    requires forall i :: 0 <= i < |reqs| ==> Booked(reqs[i]) && ReqOk(reqs[i], commits)
    ensures Sum(UncountedTokens, reqs) == 0 && Sum(UncountedUnits, reqs) == 0
    ensures Sum(UnrecordedTokens, reqs) == Sum(InFlightTokens, reqs)
    ensures Sum(UnrecordedUnits, reqs) == Sum(InFlightUnits, reqs)
  {
    if reqs != [] {
      BookedSums(reqs[..|reqs| - 1], commits);
      assert Booked(reqs[|reqs| - 1]) && ReqOk(reqs[|reqs| - 1], commits);
    }
  }

  /** Ledger conservation, at every reachable state of every interleaving; counters may be lost, requests
      refused, the upstream unreachable, and a deletion removes both sides together. */
  lemma LedgerIsConserved(s: State, run: seq<Action>)
    requires Fresh(s) && ValidRun(s, run) && ReliableRun(s, run)
    ensures var t := Final(s, run);
      if t.present then
        && DbTokens(t) == RowTokens(t.rows) + Sum(InFlightTokens, t.reqs)
        && DbUnits(t) == RowUnits(t.rows) + Sum(InFlightUnits, t.reqs)
      else
        t.totals == None && t.rows == []
  {
    BalanceRun(s, run);
    BookedRun(s, run);
    if Final(s, run).present {
      BookedSums(Final(s, run).reqs, Final(s, run).commits);
    }
  }

  lemma {:induction false} NothingInFlight(reqs: seq<Req>)
    requires forall i :: 0 <= i < |reqs| ==> reqs[i].pc.Done?
    ensures Sum(InFlightTokens, reqs) == 0 && Sum(InFlightUnits, reqs) == 0
  {
    if reqs != [] {
      NothingInFlight(reqs[..|reqs| - 1]);
    }
  }

  /** When every request is done, the totals are exactly the sums over the records. */
  lemma QuietLedgerBalances(s: State, run: seq<Action>, t: State)
    requires Fresh(s) && ValidRun(s, run) && ReliableRun(s, run) && Final(s, run) == t
    requires forall i :: 0 <= i < |t.reqs| ==> t.reqs[i].pc.Done?
    ensures DbTokens(t) == RowTokens(t.rows) && DbUnits(t) == RowUnits(t.rows)
  {
    LedgerIsConserved(s, run);
    NothingInFlight(t.reqs);
  }

  // ----- responses that are not accounted -----

  /** One response to a key without quotas, for which AddUsage is skipped. */
  function SkippedRun(u: Usage, price: Option<Pricing.ModelPrice>): seq<Action> {
    [Begin(Quota(None, None), true)] + ([On(0, SkipQuota)] + ([On(0, Respond(u, price))] + [On(0, Record)]))
  }

  lemma Cons(s: State, a: Action, rest: seq<Action>)
    requires Enabled(s, a) && ValidRun(Apply(s, a), rest)
    ensures ValidRun(s, [a] + rest) && Final(s, [a] + rest) == Final(Apply(s, a), rest)
  {
    assert ([a] + rest)[1..] == rest;
  }

  /** Such a response is recorded with its charge and never added to the totals. */
  lemma SkippedIsRecorded(s: State, u: Usage, price: Option<Pricing.ModelPrice>)
    requires Fresh(s) && !AddsUsage(u, price)
    ensures ValidRun(s, SkippedRun(u, price))
    ensures var t := Final(s, SkippedRun(u, price));
      && t.rows == [Row(u.input + u.output, ToUnits(ChargeOf(u, price).cost))]
      && t.present && DbTokens(t) == 0 && DbUnits(t) == 0 && |t.reqs| == 1 && t.reqs[0].pc.Done?
  {
    var s1 := Apply(s, Begin(Quota(None, None), true));
    var s2 := Apply(s1, On(0, SkipQuota));
    var s3 := Apply(s2, On(0, Respond(u, price)));
    Cons(s3, On(0, Record), []);
    Cons(s2, On(0, Respond(u, price)), [On(0, Record)]);
    Cons(s1, On(0, SkipQuota), [On(0, Respond(u, price))] + [On(0, Record)]);
    Cons(s, Begin(Quota(None, None), true), [On(0, SkipQuota)] + ([On(0, Respond(u, price))] + [On(0, Record)]));
    assert [On(0, Record)] + [] == [On(0, Record)];
  }

  /** Why every response has to be accounted: one that is skipped leaves the records ahead of the totals for good
      by its tokens and its rounded cost, and records and totals agree exactly when it is accounted. */
  lemma UnaccountedUsageUnbalances(s: State, u: Usage, price: Option<Pricing.ModelPrice>)
    requires Fresh(s) && !AddsUsage(u, price)
    ensures ValidRun(s, SkippedRun(u, price))
    ensures var t := Final(s, SkippedRun(u, price));
      && RowTokens(t.rows) - DbTokens(t) == u.input + u.output
      && RowUnits(t.rows) - DbUnits(t) == ToUnits(ChargeOf(u, price).cost)
      && (RowTokens(t.rows) == DbTokens(t) && RowUnits(t.rows) == DbUnits(t) <==> Accounted(u, price))
  {
    SkippedIsRecorded(s, u, price);
    RowSums([], Row(u.input + u.output, ToUnits(ChargeOf(u, price).cost)));
    SkippedUsageIsFree(u, price);
  }
}
