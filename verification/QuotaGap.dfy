/** How far the Redis token counter can be from the database, over every interleaving:
    Redis + (committed, not yet IncrBy'd) == database + errTok, where errTok is 0 until a
    cache fill overlaps an AddUsage, or Redis drops the counter, and is then exactly what that
    lost or doubled.  The counter is not behind the database, usages on their way apart, unless one
    of three guards lets it. */
module QuotaGap {
  import opened Wrappers
  import opened Money
  import opened QuotaLedger

  /** A fill between its SELECT and its Set holds the sum of the usages committed before the SELECT. */
  ghost predicate FillOk(pc: Pc, reqs: seq<Req>) {
    pc.SetTokNext? || pc.SetCostNext? ==> pc.tok == Sum(CommittedBefore(pc.mark), reqs)
  }

  /** The two equations. */
  ghost predicate Balanced(s: State) {
    && DbTokens(s) == Sum(Committed, s.reqs)
    && RedisTokens(s) + Sum(Pending, s.reqs) == DbTokens(s) + s.errTok
  }

  ghost predicate GapInv(s: State) {
    && WellFormed(s) && Balanced(s)
    && (forall i :: 0 <= i < |s.reqs| ==> FillOk(s.reqs[i].pc, s.reqs))
  }

  /** Every usage committed so far is either before the mark or after it, and in Redis or not. */
  lemma {:induction false} SplitAtMark(m: nat, reqs: seq<Req>)
    ensures Sum(Committed, reqs) - Sum(Pending, reqs)
         == Sum(CommittedBefore(m), reqs) - Sum(PendingBefore(m), reqs) + Sum(IncrementedAfter(m), reqs)
  {
    if reqs != [] {
      SplitAtMark(m, reqs[..|reqs| - 1]);
    }
  }

  lemma {:induction false} AllBeforeMark(m: nat, reqs: seq<Req>)
    requires forall i :: 0 <= i < |reqs| && reqs[i].commitNo.Some? ==> reqs[i].commitNo.value < m
    ensures Sum(CommittedBefore(m), reqs) == Sum(Committed, reqs)
  {
    if reqs != [] {
      AllBeforeMark(m, reqs[..|reqs| - 1]);
    }
  }

  /** The step of one request leaves the usages counted by another fill's SELECT alone. */
  lemma OtherFillsKept(s: State, r: nat, op: Op, m: nat)
    requires WellFormed(s) && r < |s.reqs| && OpEnabled(s, s.reqs[r], op) && m <= s.commits
    ensures Sum(CommittedBefore(m), Apply(s, On(r, op)).reqs) == Sum(CommittedBefore(m), s.reqs)
  {
    assert ReqOk(s.reqs[r], s.commits);
    SumUpdate(CommittedBefore(m), s.reqs, r, NextReq(s, s.reqs[r], op));
  }

  lemma FillsStep(s: State, r: nat, op: Op)
    requires GapInv(s) && r < |s.reqs| && OpEnabled(s, s.reqs[r], op)
    ensures forall i :: 0 <= i < |s.reqs| ==> FillOk(Apply(s, On(r, op)).reqs[i].pc, Apply(s, On(r, op)).reqs)
  {
    var s' := Apply(s, On(r, op));
    forall i | 0 <= i < |s.reqs| ensures FillOk(s'.reqs[i].pc, s'.reqs) {
      var pc := s'.reqs[i].pc;
      if pc.SetTokNext? || pc.SetCostNext? {
        assert ReqOk(s.reqs[i], s.commits);
        OtherFillsKept(s, r, op, pc.mark);
        if i == r && op.Select? {
          forall j | 0 <= j < |s.reqs| && s.reqs[j].commitNo.Some? ensures s.reqs[j].commitNo.value < s.commits {
            assert ReqOk(s.reqs[j], s.commits);
          }
          AllBeforeMark(s.commits, s.reqs);
        } else {
          assert FillOk(s.reqs[i].pc, s.reqs);
        }
      }
    }
  }

  /** What a step that is not a Set adds to either side is what it adds to the request's weights. */
  lemma TokenDelta(s: State, q: Req, op: Op)
    requires ReqOk(q, s.commits) && OpEnabled(s, q, op) && op != SetTok(true)
    ensures var t, q' := NextShared(s, q, op), NextReq(s, q, op);
      && DbTokens(t) - DbTokens(s) == Weigh(Committed, q') - Weigh(Committed, q)
      && RedisTokens(t) - RedisTokens(s) + Weigh(Pending, q') - Weigh(Pending, q) == DbTokens(t) - DbTokens(s)
      && t.errTok == s.errTok
  {
  }

  /** A Set books nothing. */
  lemma FillSums(s: State, r: nat)
    requires Enabled(s, On(r, SetTok(true))) && ReqOk(s.reqs[r], s.commits)
    ensures var t := Apply(s, On(r, SetTok(true)));
      Sum(Committed, t.reqs) == Sum(Committed, s.reqs) && Sum(Pending, t.reqs) == Sum(Pending, s.reqs)
  {
    SumUpdate(Committed, s.reqs, r, NextReq(s, s.reqs[r], SetTok(true)));
    SumUpdate(Pending, s.reqs, r, NextReq(s, s.reqs[r], SetTok(true)));
  }

  lemma FillBalanced(s: State, r: nat)
    requires Balanced(s) && Enabled(s, On(r, SetTok(true)))
    requires ReqOk(s.reqs[r], s.commits) && FillOk(s.reqs[r].pc, s.reqs)
    ensures Balanced(Apply(s, On(r, SetTok(true))))
  {
    SplitAtMark(s.reqs[r].pc.mark, s.reqs);
    FillSums(s, r);
  }

  lemma QuietBalanced(s: State, r: nat, op: Op)
    requires Balanced(s) && Enabled(s, On(r, op)) && ReqOk(s.reqs[r], s.commits) && op != SetTok(true)
    ensures Balanced(Apply(s, On(r, op)))
  {
    SumUpdate(Committed, s.reqs, r, NextReq(s, s.reqs[r], op));
    SumUpdate(Pending, s.reqs, r, NextReq(s, s.reqs[r], op));
    TokenDelta(s, s.reqs[r], op);
  }

  lemma BeginBalanced(s: State, q: Req)
    requires Balanced(s) && q.commitNo == None
    ensures Balanced(s.(reqs := s.reqs + [q]))
  {
    SumAppend(Committed, s.reqs, q);
    SumAppend(Pending, s.reqs, q);
  }

  lemma FillKeptByAppend(pc: Pc, reqs: seq<Req>, q: Req)
    requires FillOk(pc, reqs) && q.commitNo == None
    ensures FillOk(pc, reqs + [q])
  {
    if pc.SetTokNext? || pc.SetCostNext? {
      SumAppend(CommittedBefore(pc.mark), reqs, q);
    }
  }

  lemma BeginStep(s: State, a: Action)
    requires GapInv(s) && a.Begin?
    ensures GapInv(Apply(s, a))
  {
    var t := Apply(s, a);
    WellFormedStep(s, a);
    BeginBalanced(s, NewReq(a.quota, a.rateOk));
    forall i | 0 <= i < |t.reqs| ensures FillOk(t.reqs[i].pc, t.reqs) {
      if i < |s.reqs| {
        FillKeptByAppend(s.reqs[i].pc, s.reqs, t.reqs[|s.reqs|]);
      }
    }
  }

  /** A usage that failed to reach Redis counts as pending for good, and a lost counter as 0: every step
      keeps the gap equation. */
  lemma GapStep(s: State, a: Action)
    requires GapInv(s) && Enabled(s, a) && !a.Delete?
    ensures GapInv(Apply(s, a))
  {
    match a
    case Begin(_, _) =>
      BeginStep(s, a);
    case On(r, op) =>
      WellFormedStep(s, a);
      assert ReqOk(s.reqs[r], s.commits) && FillOk(s.reqs[r].pc, s.reqs);
      if op == SetTok(true) { FillBalanced(s, r); } else { QuietBalanced(s, r, op); }
      FillsStep(s, r, op);
    case _ =>
  }

  lemma {:induction false} GapRun(s: State, run: seq<Action>)
    requires GapInv(s) && ValidRun(s, run) && forall a :: a in run ==> !a.Delete?
    ensures GapInv(Final(s, run))
    decreases |run|
  {
    if run != [] {
      GapStep(s, run[0]);
      GapRun(Apply(s, run[0]), run[1..]);
    }
  }

  /** Exact cache gap.  From a fresh key, after any interleaving of any number of requests, fills and losses. */
  lemma ExactCacheGap(s: State, run: seq<Action>, t: State)
    requires Fresh(s) && ValidRun(s, run) && Final(s, run) == t && forall a :: a in run ==> !a.Delete?
    ensures RedisTokens(t) + Sum(Pending, t.reqs) == DbTokens(t) + t.errTok
  {
    GapRun(s, run);
  }

  /** How far Redis is ahead of the usages committed, those on their way to it counted. */
  function Gap(s: State): int {
    RedisTokens(s) + Sum(Pending, s.reqs) - Sum(Committed, s.reqs)
  }

  lemma ErrTokChange(s: State, a: Action)
    requires Enabled(s, a)
    ensures Apply(s, a).errTok ==
      if a.On? && a.op == SetTok(true)
      then Sum(PendingBefore(s.reqs[a.r].pc.mark), s.reqs) - Sum(IncrementedAfter(s.reqs[a.r].pc.mark), s.reqs)
      else if a.LoseTok? then Sum(Pending, s.reqs) - Sum(Committed, s.reqs)
      else s.errTok
  {
  }

  /** Only a fill's Set and a loss change the gap, and what they leave is fixed by the usages alone.  After
      a Set, those committed before its SELECT and not yet IncrBy'd count twice later, those committed after
      its SELECT and already IncrBy'd are lost; after a loss, all that were IncrBy'd are. */
  lemma OnlyFillsChangeTheGap(s: State, a: Action)
    requires GapInv(s) && Enabled(s, a) && !a.Delete?
    ensures Gap(Apply(s, a)) ==
      if a.On? && a.op == SetTok(true)
      then Sum(PendingBefore(s.reqs[a.r].pc.mark), s.reqs) - Sum(IncrementedAfter(s.reqs[a.r].pc.mark), s.reqs)
      else if a.LoseTok? then Sum(Pending, s.reqs) - Sum(Committed, s.reqs)
      else Gap(s)
  {
    GapStep(s, a);
    ErrTokChange(s, a);
  }

  // ----- when the counter is behind -----

  /** A counter that is there has everything the database has, or a request is about to add it. */
  ghost predicate CounterSound(s: State) {
    s.redisTok.Some? ==> DbTokens(s) <= RedisTokens(s) + Sum(Arriving, s.reqs)
  }

  /** A read below q says that the database, usages on their way to Redis apart, is below q. */
  ghost predicate ReadTells(s: State, q: int) {
    s.redisTok.Some? && RedisTokens(s) < q ==> DbTokens(s) - Sum(Arriving, s.reqs) < q
  }

  /** Soundness is what AllowQuota needs: that a read below a quota tells, whatever the quota. */
  lemma SoundReads(s: State)
    ensures CounterSound(s) <==> forall q :: ReadTells(s, q)
  {
    assert ReadTells(s, RedisTokens(s) + 1) ==> CounterSound(s);
  }

  /** The three guards that let the counter fall behind: a Set of a total to which more has been added since
      than is on its way; an IncrBy that finds no counter although more is booked than is on its way; and an
      IncrBy that fails while the counter needs it. */
  predicate LosesUsage(s: State, a: Action)
    requires Enabled(s, a)
  {
    a.On? &&
    var q, arriving := s.reqs[a.r], Sum(Arriving, s.reqs);
    match a.op
    case SetTok(ok) => ok && DbTokens(s) - q.pc.tok > arriving
    case IncrTok => s.redisTok.None? && DbTokens(s) > arriving
    case IncrTokFail => s.redisTok.Some? && DbTokens(s) - RedisTokens(s) > arriving - q.charge.tokens
    case _ => false
  }

  /** What a step does to the three numbers that soundness compares. */
  lemma ArrivingDelta(s: State, q: Req, op: Op)
    requires OpEnabled(s, q, op)
    ensures var t, moved := NextShared(s, q, op), Weigh(Arriving, NextReq(s, q, op)) - Weigh(Arriving, q);
      match op
      case Upsert => DbTokens(t) == DbTokens(s) + moved && t.redisTok == s.redisTok
      case IncrTok => DbTokens(t) == DbTokens(s) && moved == -q.charge.tokens
                      && t.redisTok == Some(RedisTokens(s) + q.charge.tokens)
      case IncrTokFail => DbTokens(t) == DbTokens(s) && t.redisTok == s.redisTok && moved == -q.charge.tokens
      case SetTok(ok) => DbTokens(t) == DbTokens(s) && moved == 0
                         && t.redisTok == (if ok then Some(q.pc.tok) else s.redisTok)
      case _ => DbTokens(t) == DbTokens(s) && t.redisTok == s.redisTok && moved == 0
  {
  }

  lemma SoundOn(s: State, r: nat, op: Op)
    requires CounterSound(s) && Enabled(s, On(r, op))
    ensures CounterSound(Apply(s, On(r, op))) <==> !LosesUsage(s, On(r, op))
  {
    ArrivingDelta(s, s.reqs[r], op);
    SumUpdate(Arriving, s.reqs, r, NextReq(s, s.reqs[r], op));
  }

  lemma SoundBegin(s: State, q: Req)
    requires CounterSound(s) && !q.pc.IncrTokNext?
    ensures CounterSound(s.(reqs := s.reqs + [q]))
  {
    SumAppend(Arriving, s.reqs, q);
  }

  /** The counter stays sound over a step exactly when no guard fires; a loss alone does no harm. */
  lemma SoundStep(s: State, a: Action)
    requires CounterSound(s) && Enabled(s, a) && !a.Delete?
    ensures CounterSound(Apply(s, a)) <==> !LosesUsage(s, a)
  {
    if a.On? {
      SoundOn(s, a.r, a.op);
    } else if a.Begin? {
      SoundBegin(s, NewReq(a.quota, a.rateOk));
    }
  }

  ghost predicate SoundThroughout(s: State, run: seq<Action>)
    requires ValidRun(s, run)
    decreases |run|
  {
    CounterSound(s) && (run != [] ==> SoundThroughout(Apply(s, run[0]), run[1..]))
  }

  ghost predicate NeverLosesUsage(s: State, run: seq<Action>)
    requires ValidRun(s, run)
    decreases |run|
  {
    run != [] ==> !LosesUsage(s, run[0]) && NeverLosesUsage(Apply(s, run[0]), run[1..])
  }

  /** Over every interleaving, with any losses and failed increments, from a fresh key or any state with a sound
      counter: the counter is sound at every point of the run if and only if no Set, no IncrBy and no failing
      IncrBy of the run meets its guard. */
  lemma {:induction false} SoundExactlyWhenNothingIsLost(s: State, run: seq<Action>)
    requires Fresh(s) || CounterSound(s)
    requires ValidRun(s, run) && forall a :: a in run ==> !a.Delete?
    ensures SoundThroughout(s, run) <==> NeverLosesUsage(s, run)
    decreases |run|
  {
    if run != [] {
      SoundStep(s, run[0]);
      if !LosesUsage(s, run[0]) {
        SoundExactlyWhenNothingIsLost(Apply(s, run[0]), run[1..]);
      }
    }
  }
}
