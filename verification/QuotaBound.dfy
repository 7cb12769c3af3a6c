/** How far a key can run over its token quota.  A request is in the window from the read of a total below
    the quota to its token increment; with at most C requests there, each of at most M tokens, the
    database never holds more than Q - 1 + C*M + D tokens, where D bounds how far the counter is behind
    and Q is the largest quota that any request carries: an Update changes the quota of later requests.
    The counter is not behind, and D is 0, when no guard of QuotaGap fires; with warm counters and a
    working Redis none can. */
module QuotaBound {
  import opened Wrappers
  import opened QuotaLedger
  import opened QuotaGap

  /** The requests between their quota read and their token increment. */
  function Window(s: State, quota: int): int {
    Sum(Admitted(quota), s.reqs) + Sum(ArrivingCount, s.reqs)
  }

  predicate QuotaAtMost(q: Quota, quota: int) {
    q.tokens.Some? && q.tokens.value <= quota
  }

  /** The key stays, no SELECT fails, no request has a larger quota and no response has more than m tokens;
      counters may be lost and increments fail. */
  predicate Limits(a: Action, quota: int, m: nat) {
    match a
    case Begin(q, _) => QuotaAtMost(q, quota)
    case On(_, op) => !op.SelectFail? && (op.Respond? ==> ChargeOf(op.usage, op.price).tokens <= m)
    case Delete => false
    case _ => true
  }

  /** The counter, when it is there, is behind by at most d, usages on their way to it apart. */
  ghost predicate BehindAtMost(s: State, d: int) {
    s.redisTok.Some? ==> DbTokens(s) <= RedisTokens(s) + Sum(Arriving, s.reqs) + d
  }

  /** The hypotheses on a run: concurrency at most c, usages at most m, quotas at most `quota`, the counter
      behind by at most d. */
  ghost predicate Bounded(s: State, run: seq<Action>, quota: int, c: nat, m: nat, d: nat)
    requires ValidRun(s, run)
    decreases |run|
  {
    && Window(s, quota) <= c && BehindAtMost(s, d)
    && (run != [] ==> Limits(run[0], quota, m) && Bounded(Apply(s, run[0]), run[1..], quota, c, m, d))
  }

  ghost predicate AllWithin(reqs: seq<Req>, quota: int, m: nat) {
    forall i :: 0 <= i < |reqs| ==> reqs[i].charge.tokens <= m && QuotaAtMost(reqs[i].quota, quota)
  }

  /** The database total, counting m tokens for every admitted request that has not committed yet. */
  function Committable(s: State, quota: int, m: nat): int {
    DbTokens(s) + m * Sum(Admitted(quota), s.reqs)
  }

  ghost predicate BoundInv(s: State, quota: int, c: nat, m: nat, d: nat) {
    AllWithin(s.reqs, quota, m) && Committable(s, quota, m) <= quota - 1 + c * m + d
  }

  lemma {:induction false} ArrivingAtMost(reqs: seq<Req>, quota: int, m: nat)
    requires AllWithin(reqs, quota, m)
    ensures Sum(Arriving, reqs) <= m * Sum(ArrivingCount, reqs)
    ensures Sum(ArrivingCount, reqs) >= 0
  {
    if reqs != [] {
      ArrivingAtMost(reqs[..|reqs| - 1], quota, m);
    }
  }

  lemma {:induction false} AdmittedNonNegative(quota: int, reqs: seq<Req>)
    ensures Sum(Admitted(quota), reqs) >= 0
  {
    if reqs != [] {
      AdmittedNonNegative(quota, reqs[..|reqs| - 1]);
    }
  }

  lemma ReqWithinNext(s: State, q: Req, op: Op, quota: int, m: nat)
    requires OpEnabled(s, q, op) && q.charge.tokens <= m && Limits(On(0, op), quota, m)
    ensures NextReq(s, q, op).charge.tokens <= m && NextReq(s, q, op).quota == q.quota
  {
  }

  lemma AllWithinStep(s: State, a: Action, quota: int, m: nat)
    requires AllWithin(s.reqs, quota, m) && Enabled(s, a) && Limits(a, quota, m)
    ensures AllWithin(Apply(s, a).reqs, quota, m)
  {
    if a.On? {
      ReqWithinNext(s, s.reqs[a.r], a.op, quota, m);
      assert Apply(s, a).reqs == s.reqs[a.r := NextReq(s, s.reqs[a.r], a.op)];
    }
  }

  /** A read below the quota, from Redis or from the database, bounds the database total. */
  lemma ReadBelowQuota(s: State, quota: int, m: nat, d: nat)
    requires AllWithin(s.reqs, quota, m) && BehindAtMost(s, d)
    requires (s.redisTok.Some? && RedisTokens(s) < quota) || DbTokens(s) < quota
    ensures DbTokens(s) <= quota - 1 + m * Sum(ArrivingCount, s.reqs) + d
  {
    ArrivingAtMost(s.reqs, quota, m);
    Scale(m, 0, Sum(ArrivingCount, s.reqs));
  }

  /** Only the two reads of the totals admit a request, and only below the quota. */
  lemma AdmittingOp(s: State, q: Req, op: Op, quota: int)
    requires OpEnabled(s, q, op) && !op.SelectFail? && QuotaAtMost(q.quota, quota)
    requires !ReadBelow(q.pc, quota) && ReadBelow(NextReq(s, q, op).pc, quota)
    ensures (op.GetTok? && s.redisTok.Some? && RedisTokens(s) < quota) || (op.Select? && DbTokens(s) < quota)
    ensures DbTokens(NextShared(s, q, op)) == DbTokens(s)
    ensures Weigh(ArrivingCount, NextReq(s, q, op)) == Weigh(ArrivingCount, q)
  {
  }

  lemma WindowArithmetic(db: int, quota: int, c: nat, m: nat, d: nat, admitted: int, arriving: int)
    requires db <= quota - 1 + m * arriving + d && admitted + arriving <= c
    ensures db + m * admitted <= quota - 1 + c * m + d
  {
    Scale(m, admitted + arriving, c);
    assert m * (admitted + arriving) == m * admitted + m * arriving;
  }

  /** The step that admits a request: the window it enters is full at most. */
  lemma AdmitStep(s: State, r: nat, op: Op, quota: int, c: nat, m: nat, d: nat)
    requires AllWithin(s.reqs, quota, m) && Enabled(s, On(r, op)) && !op.SelectFail?
    requires Window(Apply(s, On(r, op)), quota) <= c && BehindAtMost(s, d)
    requires !ReadBelow(s.reqs[r].pc, quota) && ReadBelow(NextReq(s, s.reqs[r], op).pc, quota)
    ensures Committable(Apply(s, On(r, op)), quota, m) <= quota - 1 + c * m + d
  {
    var t := Apply(s, On(r, op));
    AdmittingOp(s, s.reqs[r], op, quota);
    ReadBelowQuota(s, quota, m, d);
    SumUpdate(ArrivingCount, s.reqs, r, NextReq(s, s.reqs[r], op));
    WindowArithmetic(DbTokens(t), quota, c, m, d, Sum(Admitted(quota), t.reqs), Sum(ArrivingCount, t.reqs));
  }

  lemma Scale(m: nat, a: int, b: int)
    requires a <= b
    ensures m * a <= m * b
  {
  }

  /** Any other step of a request: a commit trades the m counted for the request against at most m tokens. */
  lemma OtherStep(s: State, r: nat, op: Op, quota: int, m: nat)
    requires Enabled(s, On(r, op)) && s.reqs[r].charge.tokens <= m
    requires ReadBelow(NextReq(s, s.reqs[r], op).pc, quota) ==> ReadBelow(s.reqs[r].pc, quota)
    ensures Committable(Apply(s, On(r, op)), quota, m) <= Committable(s, quota, m)
  {
    var t := Apply(s, On(r, op));
    SumUpdate(Admitted(quota), s.reqs, r, NextReq(s, s.reqs[r], op));
    var before, after := Sum(Admitted(quota), s.reqs), Sum(Admitted(quota), t.reqs);
    if op.Upsert? {
      assert after == before - 1;
      assert DbTokens(t) <= DbTokens(s) + m;
      assert m * after == m * before - m;
    } else {
      assert after <= before && DbTokens(t) == DbTokens(s);
      Scale(m, after, before);
    }
  }

  lemma NewcomerIsNotAdmitted(reqs: seq<Req>, q: Req, quota: int)
    requires !ReadBelow(q.pc, quota)
    ensures Sum(Admitted(quota), reqs + [q]) == Sum(Admitted(quota), reqs)
  {
    SumAppend(Admitted(quota), reqs, q);
  }

  lemma BoundStep(s: State, a: Action, quota: int, c: nat, m: nat, d: nat)
    requires BoundInv(s, quota, c, m, d) && Enabled(s, a) && Limits(a, quota, m)
    requires Window(Apply(s, a), quota) <= c && BehindAtMost(s, d)
    ensures BoundInv(Apply(s, a), quota, c, m, d)
  {
    AllWithinStep(s, a, quota, m);
    if a.Begin? {
      NewcomerIsNotAdmitted(s.reqs, NewReq(a.quota, a.rateOk), quota);
    } else if a.On? {
      if ReadBelow(NextReq(s, s.reqs[a.r], a.op).pc, quota) && !ReadBelow(s.reqs[a.r].pc, quota) {
        AdmitStep(s, a.r, a.op, quota, c, m, d);
      } else {
        OtherStep(s, a.r, a.op, quota, m);
      }
    }
  }

  lemma {:induction false} BoundRun(s: State, run: seq<Action>, quota: int, c: nat, m: nat, d: nat)
    requires BoundInv(s, quota, c, m, d) && ValidRun(s, run) && Bounded(s, run, quota, c, m, d)
    ensures BoundInv(Final(s, run), quota, c, m, d)
    decreases |run|
  {
    if run != [] {
      BoundStep(s, run[0], quota, c, m, d);
      BoundRun(Apply(s, run[0]), run[1..], quota, c, m, d);
    }
  }

  lemma BoundAtStart(s: State, quota: int, c: nat, m: nat, d: nat)
    requires Fresh(s) && quota >= 1
    ensures BoundInv(s, quota, c, m, d)
  {
    assert Sum(Admitted(quota), s.reqs) == 0;
    Scale(m, 0, c);
  }

  lemma CommittableCoversDb(s: State, quota: int, m: nat)
    ensures DbTokens(s) <= Committable(s, quota, m)
  {
    AdmittedNonNegative(quota, s.reqs);
    Scale(m, 0, Sum(Admitted(quota), s.reqs));
  }

  /** Quota overshoot in general, from a fresh key (BoundAtStart) or any state within the bound: D is how far
      losses, failed increments and overlapping fills may put the counter behind. */
  lemma OvershootBound(s: State, run: seq<Action>, quota: int, c: nat, m: nat, d: nat)
    requires BoundInv(s, quota, c, m, d)
    requires ValidRun(s, run) && Bounded(s, run, quota, c, m, d)
    ensures DbTokens(Final(s, run)) <= quota - 1 + c * m + d
  {
    BoundRun(s, run, quota, c, m, d);
    CommittableCoversDb(Final(s, run), quota, m);
  }

  // ----- when nothing is lost -----

  /** At every point of the run at most c requests are in the window, and each step is within its limits. */
  ghost predicate Concurrency(s: State, run: seq<Action>, quota: int, c: nat, m: nat)
    requires ValidRun(s, run)
    decreases |run|
  {
    && Window(s, quota) <= c
    && (run != [] ==> Limits(run[0], quota, m) && Concurrency(Apply(s, run[0]), run[1..], quota, c, m))
  }

  lemma {:induction false} SoundIsBounded(s: State, run: seq<Action>, quota: int, c: nat, m: nat)
    requires ValidRun(s, run) && Concurrency(s, run, quota, c, m) && CounterSound(s) && NeverLosesUsage(s, run)
    ensures Bounded(s, run, quota, c, m, 0)
    decreases |run|
  {
    if run != [] {
      SoundStep(s, run[0]);
      SoundIsBounded(Apply(s, run[0]), run[1..], quota, c, m);
    }
  }

  /** Quota overshoot from a fresh key with cold counters; fills, losses and failed increments included: if no
      Set, no IncrBy and no failing IncrBy meets its guard (QuotaGap.LosesUsage), the total never exceeds
      Q - 1 + C*M. */
  lemma OvershootBoundUnlessLost(s: State, run: seq<Action>, t: State, quota: int, c: nat, m: nat)
    requires Fresh(s) && quota >= 1 && ValidRun(s, run) && Final(s, run) == t
    requires Concurrency(s, run, quota, c, m) && NeverLosesUsage(s, run)
    ensures DbTokens(t) <= quota - 1 + c * m
  {
    BoundAtStart(s, quota, c, m, 0);
    SoundIsBounded(s, run, quota, c, m);
    OvershootBound(s, run, quota, c, m, 0);
  }

  // ----- warm counters -----

  /** A step on which Redis answers: nothing is lost, no read and no IncrBy fails. */
  predicate Warm(a: Action) {
    !a.LoseTok? && !a.LoseCost? && (a.On? ==> !a.op.ReadError? && !a.op.IncrTokFail?)
  }

  /** Both counters are there, the token counter sound, and no request is on its way to the database for the
      totals. */
  ghost predicate Warmed(s: State) {
    && s.redisTok.Some? && s.redisCost.Some? && CounterSound(s)
    && forall i :: 0 <= i < |s.reqs| ==> !Filling(s.reqs[i].pc)
  }

  predicate Filling(pc: Pc) {
    pc.NeedSelect? || pc.SetTokNext? || pc.SetCostNext?
  }

  lemma WarmedReq(s: State, q: Req, op: Op)
    requires s.redisTok.Some? && s.redisCost.Some? && !Filling(q.pc) && OpEnabled(s, q, op) && !op.ReadError?
    ensures !Filling(NextReq(s, q, op).pc)
    ensures var t := NextShared(s, q, op); t.redisTok.Some? && t.redisCost.Some?
  {
  }

  /** With warm counters no guard can fire. */
  lemma WarmedStep(s: State, a: Action)
    requires Warmed(s) && Enabled(s, a) && Warm(a) && !a.Delete?
    ensures Warmed(Apply(s, a)) && !LosesUsage(s, a)
  {
    SoundStep(s, a);
    if a.On? {
      assert !Filling(s.reqs[a.r].pc);
      WarmedReq(s, s.reqs[a.r], a.op);
      assert Apply(s, a).reqs == s.reqs[a.r := NextReq(s, s.reqs[a.r], a.op)];
    }
  }

  lemma {:induction false} WarmedRun(s: State, run: seq<Action>, quota: int, c: nat, m: nat)
    requires Warmed(s) && ValidRun(s, run) && Concurrency(s, run, quota, c, m)
    requires forall a :: a in run ==> Warm(a)
    ensures Warmed(Final(s, run)) && NeverLosesUsage(s, run)
    decreases |run|
  {
    if run != [] {
      WarmedStep(s, run[0]);
      WarmedRun(Apply(s, run[0]), run[1..], quota, c, m);
    }
  }

  /** Quota overshoot with warm counters and a working Redis, from any warmed state whose total and admitted
      requests are within the bound: at most Q - 1 + C*M tokens, over any run.  With one request in the
      window at a time (C = 1) that is Q - 1 + M. */
  lemma WarmOvershootBound(s: State, run: seq<Action>, quota: int, c: nat, m: nat)
    requires Warmed(s) && BoundInv(s, quota, c, m, 0)
    requires ValidRun(s, run) && Concurrency(s, run, quota, c, m)
    requires forall a :: a in run ==> Warm(a)
    ensures DbTokens(Final(s, run)) <= quota - 1 + c * m
    ensures c == 1 ==> DbTokens(Final(s, run)) <= quota - 1 + m
    ensures Warmed(Final(s, run)) && BoundInv(Final(s, run), quota, c, m, 0)
  {
    WarmedRun(s, run, quota, c, m);
    SoundIsBounded(s, run, quota, c, m);
    BoundRun(s, run, quota, c, m, 0);
    CommittableCoversDb(Final(s, run), quota, m);
  }
}
