/** AllowRate of internal/keys/keys.go: a counter per key and minute in Redis, incremented and
    given 70 more seconds to live by every call.  Times are in nanoseconds: `clock` is what the
    calling replica reads, `arrival` is Redis's own time when the transaction runs.  Redis keeps
    expiries in milliseconds and drops a key in the millisecond after its last one. */
module RateLimiter {
  import opened Wrappers

  const SECOND := 1000000000
  const MILLISECOND := 1000000
  const EXPIRY_MS := 70000

  /** The spread of clock skew plus delay that the expiry tolerates: ten seconds and a nanosecond. */
  const SPREAD := 10 * SECOND + 1

  /** `expires` is the last millisecond in which Redis still has the counter. */
  datatype Counter = Counter(count: nat, expires: int)

  datatype Call = Call(key: nat, clock: nat, arrival: int, limit: int)

  /** rl:<key>:<bucket> */
  type Slot = (nat, int)

  function Bucket(clock: nat): int {
    clock / SECOND / 60
  }

  function SlotOf(c: Call): Slot {
    (c.key, Bucket(c.clock))
  }

  function Ms(t: int): int {
    t / MILLISECOND
  }

  // ----- what a log of calls means -----

  /** What a call at time a left is still there at time b. */
  predicate Alive(a: int, b: int) {
    Ms(b) <= Ms(a) + EXPIRY_MS
  }

  /** The call reaches the slot's counter; one without a limit reaches none. */
  predicate Counted(c: Call, slot: Slot) {
    c.limit > 0 && SlotOf(c) == slot
  }

  function LastArrival(calls: seq<Call>, slot: Slot): Option<int> {
    if calls == [] then None
    else if Counted(calls[|calls| - 1], slot) then Some(calls[|calls| - 1].arrival)
    else LastArrival(calls[..|calls| - 1], slot)
  }

  /** The last call finds the counter gone although the slot had been called before. */
  predicate Lapses(calls: seq<Call>, slot: Slot)
    requires calls != []
  {
    var c, last := calls[|calls| - 1], LastArrival(calls[..|calls| - 1], slot);
    Counted(c, slot) && last.Some? && !Alive(last.value, c.arrival)
  }

  /** The calls of a slot since its counter last lapsed. */
  function Live(calls: seq<Call>, slot: Slot): nat {
    if calls == [] then 0
    else
      var c, before := calls[|calls| - 1], calls[..|calls| - 1];
      if Lapses(calls, slot) then 1 else Live(before, slot) + if Counted(c, slot) then 1 else 0
  }

  /** The last call is allowed. */
  predicate Allowed(calls: seq<Call>)
    requires calls != []
  {
    var c := calls[|calls| - 1];
    c.limit <= 0 || Live(calls, SlotOf(c)) <= c.limit
  }

  // ----- the limiter -----

  /** The counter of a slot holds its live calls and expires 70 seconds after the last. */
  ghost predicate CounterOk(counters: map<Slot, Counter>, calls: seq<Call>, slot: Slot) {
    match LastArrival(calls, slot)
    case None => slot !in counters && Live(calls, slot) == 0
    case Some(last) => slot in counters && counters[slot] == Counter(Live(calls, slot), Ms(last) + EXPIRY_MS)
  }

  lemma LogStep(before: seq<Call>, c: Call, slot: Slot)
    ensures LastArrival(before + [c], slot) == if Counted(c, slot) then Some(c.arrival) else LastArrival(before, slot)
    ensures Live(before + [c], slot) ==
      if !Counted(c, slot) then Live(before, slot)
      else if LastArrival(before, slot).None? || Alive(LastArrival(before, slot).value, c.arrival)
      then Live(before, slot) + 1
      else 1
  {
    var calls := before + [c];
    assert calls[|calls| - 1] == c && calls[..|calls| - 1] == before;
  }

  class Limiter {
    var counters: map<Slot, Counter>
    ghost var log: seq<Call>

    ghost predicate Valid()
      reads this
    {
      forall slot :: CounterOk(counters, log, slot)
    }

    constructor ()
      ensures Valid() && log == []
    {
      counters, log := map[], [];
    }

    /** The counters with their expiries say what the log of all calls says. */
    method AllowRate(key: nat, limit: int, clock: nat, arrival: int) returns (ok: bool)
      requires Valid()
      modifies this
      ensures Valid() && log == old(log) + [Call(key, clock, arrival, limit)]
      ensures ok == Allowed(log)
      ensures limit <= 0 ==> ok && counters == old(counters)
    {
      ghost var c := Call(key, clock, arrival, limit);
      ghost var before := log;
      var slot := (key, clock / SECOND / 60);
      assert SlotOf(c) == slot && CounterOk(counters, before, slot);
      LogStep(before, c, slot);
      ok := true;
      if limit > 0 {
        var n := 1;
        if slot in counters && Ms(arrival) <= counters[slot].expires {
          n := counters[slot].count + 1;
        }
        counters := counters[slot := Counter(n, Ms(arrival) + EXPIRY_MS)];
        ok := n <= limit;
      }
      log := log + [c];
      assert log[|log| - 1] == c;
      forall other: Slot ensures CounterOk(counters, log, other) {
        LogStep(before, c, other);
        assert CounterOk(old(counters), before, other);
      }
    }
  }

  // ----- how many are allowed -----

  /** The calls of one slot, and those of them that were allowed. */
  function Calls(calls: seq<Call>, slot: Slot): nat {
    if calls == [] then 0
    else Calls(calls[..|calls| - 1], slot) + if SlotOf(calls[|calls| - 1]) == slot then 1 else 0
  }

  function AllowedCalls(calls: seq<Call>, slot: Slot): nat {
    if calls == [] then 0
    else
      AllowedCalls(calls[..|calls| - 1], slot) +
      if SlotOf(calls[|calls| - 1]) == slot && Allowed(calls) then 1 else 0
  }

  /** No call of the slot finds its counter gone. */
  predicate NoLapse(calls: seq<Call>, slot: Slot) {
    calls == [] || (!Lapses(calls, slot) && NoLapse(calls[..|calls| - 1], slot))
  }

  ghost predicate FixedLimit(calls: seq<Call>, key: nat, limit: int) {
    forall i :: 0 <= i < |calls| && calls[i].key == key ==> calls[i].limit == limit
  }

  /** The counter holds all calls of the slot exactly when it never lapsed; how many are allowed follows. */
  lemma {:induction false} CounterCounts(calls: seq<Call>, slot: Slot, limit: int)
    requires FixedLimit(calls, slot.0, limit) && limit > 0
    ensures LastArrival(calls, slot).None? <==> Calls(calls, slot) == 0
    ensures Live(calls, slot) <= Calls(calls, slot)
    ensures NoLapse(calls, slot) <==> Live(calls, slot) == Calls(calls, slot)
    ensures Live(calls, slot) == 0 <==> Calls(calls, slot) == 0
    ensures Calls(calls, slot) <= limit ==> AllowedCalls(calls, slot) == Calls(calls, slot)
    ensures Calls(calls, slot) > limit ==>
      if NoLapse(calls, slot) then AllowedCalls(calls, slot) == limit else AllowedCalls(calls, slot) > limit
  {
    if calls != [] {
      CounterCounts(calls[..|calls| - 1], slot, limit);
    }
  }

  /** Exactly when the limiter is exact: of the n calls of a key in one minute min(n, limit) are allowed if and
      only if the counter does not lapse between two of them, or there are no more calls than the limit. */
  lemma ExactUnlessLapsed(calls: seq<Call>, key: nat, bucket: int, limit: int)
    requires FixedLimit(calls, key, limit) && limit > 0
    ensures AllowedCalls(calls, (key, bucket)) == Min(Calls(calls, (key, bucket)), limit)
       <==> NoLapse(calls, (key, bucket)) || Calls(calls, (key, bucket)) <= limit
  {
    CounterCounts(calls, (key, bucket), limit);
  }

  // ----- clock skew and delay -----

  function Lag(c: Call): int {
    c.arrival - c.clock
  }

  /** Clock skew plus delay to Redis varies by at most `spread` over the calls of one slot. */
  ghost predicate SpreadAtMost(calls: seq<Call>, slot: Slot, spread: int) {
    forall i, j :: 0 <= i < |calls| && 0 <= j < |calls| && SlotOf(calls[i]) == slot && SlotOf(calls[j]) == slot
      ==> Lag(calls[i]) - Lag(calls[j]) <= spread
  }

  /** Two calls of one minute reach Redis at most 70 seconds apart, so the counter cannot have lapsed. */
  lemma CounterIsAlive(a: Call, b: Call)
    requires SlotOf(a) == SlotOf(b) && Lag(b) - Lag(a) <= SPREAD
    ensures Alive(a.arrival, b.arrival)
  {
    var s, t := a.clock / SECOND, b.clock / SECOND;
    assert t - s < 60;
    assert b.clock - a.clock < 60 * SECOND;
    assert b.arrival <= a.arrival + EXPIRY_MS * MILLISECOND;
  }

  lemma {:induction false} LastArrivalIsOfACall(calls: seq<Call>, slot: Slot) returns (j: nat)
    requires LastArrival(calls, slot).Some?
    ensures j < |calls| && SlotOf(calls[j]) == slot && calls[j].arrival == LastArrival(calls, slot).value
  {
    j := |calls| - 1;
    if !Counted(calls[j], slot) {
      j := LastArrivalIsOfACall(calls[..j], slot);
    }
  }

  lemma {:induction false} SmallSpreadNeverLapses(calls: seq<Call>, slot: Slot)
    requires SpreadAtMost(calls, slot, SPREAD)
    ensures NoLapse(calls, slot)
  {
    if calls != [] {
      var n := |calls| - 1;
      var before := calls[..n];
      assert SpreadAtMost(before, slot, SPREAD);
      SmallSpreadNeverLapses(before, slot);
      if Counted(calls[n], slot) && LastArrival(before, slot).Some? {
        var j := LastArrivalIsOfACall(before, slot);
        CounterIsAlive(calls[j], calls[n]);
      }
    }
  }

  /** Rate limiter exactness: of the n calls of a key in one minute exactly min(n, limit) are allowed. */
  lemma ExactlyTheLimit(calls: seq<Call>, key: nat, bucket: int, limit: int)
    requires SpreadAtMost(calls, (key, bucket), SPREAD) && FixedLimit(calls, key, limit) && limit > 0
    ensures AllowedCalls(calls, (key, bucket)) == Min(Calls(calls, (key, bucket)), limit)
  {
    SmallSpreadNeverLapses(calls, (key, bucket));
    ExactUnlessLapsed(calls, key, bucket, limit);
  }

  /** Whatever the limit and the calls, a spread of at most `spread` makes the limiter exact. */
  ghost predicate Tolerates(spread: int) {
    forall calls: seq<Call>, key: nat, bucket: int, limit: int ::
      SpreadAtMost(calls, (key, bucket), spread) && FixedLimit(calls, key, limit) && limit > 0
      ==> AllowedCalls(calls, (key, bucket)) == Min(Calls(calls, (key, bucket)), limit)
  }

  /** Two calls, at the two ends of a minute, that reach Redis further apart than the counter lives. */
  lemma LapsedPair(spread: int) returns (calls: seq<Call>)
    requires spread > SPREAD
    ensures SpreadAtMost(calls, (0, 0), spread) && FixedLimit(calls, 0, 1)
    ensures Calls(calls, (0, 0)) == 2 && !NoLapse(calls, (0, 0))
  {
    var a := Call(0, 0, MILLISECOND - 1, 1);
    var b := Call(0, 60 * SECOND - 1, MILLISECOND - 1 + 60 * SECOND - 1 + spread, 1);
    calls := [a, b];
    assert b.arrival >= (EXPIRY_MS + 1) * MILLISECOND;
    assert calls[..1] == [a] && [a][..0] == [];
    assert SlotOf(a) == (0, 0) && SlotOf(b) == (0, 0);
    assert LastArrival([a], (0, 0)) == Some(a.arrival) && !Alive(a.arrival, b.arrival);
    assert Calls([a], (0, 0)) == 1;
  }

  /** The spread that 70 seconds tolerate is ten seconds and a nanosecond, and no more. */
  lemma TenSecondsIsSharp(spread: int)
    ensures Tolerates(spread) <==> spread <= SPREAD
  {
    if spread <= SPREAD {
      forall calls: seq<Call>, key: nat, bucket: int, limit: int
        | SpreadAtMost(calls, (key, bucket), spread) && FixedLimit(calls, key, limit) && limit > 0
        ensures AllowedCalls(calls, (key, bucket)) == Min(Calls(calls, (key, bucket)), limit)
      {
        assert SpreadAtMost(calls, (key, bucket), SPREAD);
        ExactlyTheLimit(calls, key, bucket, limit);
      }
    } else {
      var calls := LapsedPair(spread);
      ExactUnlessLapsed(calls, 0, 0, 1);
    }
  }

  // ----- any sixty seconds -----

  predicate InSpan(c: Call, key: nat, from: nat) {
    c.key == key && from <= c.clock < from + 60 * SECOND
  }

  function AllowedInSpan(calls: seq<Call>, key: nat, from: nat): nat {
    if calls == [] then 0
    else
      AllowedInSpan(calls[..|calls| - 1], key, from) +
      if InSpan(calls[|calls| - 1], key, from) && Allowed(calls) then 1 else 0
  }

  lemma SpanMeetsTwoBuckets(c: Call, key: nat, from: nat)
    requires InSpan(c, key, from)
    ensures SlotOf(c) == (key, Bucket(from)) || SlotOf(c) == (key, Bucket(from) + 1)
  {
    var s, t := from / SECOND, c.clock / SECOND;
    assert s <= t <= s + 60;
  }

  lemma {:induction false} SpanAtMostItsBuckets(calls: seq<Call>, key: nat, from: nat)
    ensures AllowedInSpan(calls, key, from)
         <= AllowedCalls(calls, (key, Bucket(from))) + AllowedCalls(calls, (key, Bucket(from) + 1))
  {
    if calls != [] {
      SpanAtMostItsBuckets(calls[..|calls| - 1], key, from);
      if InSpan(calls[|calls| - 1], key, from) {
        SpanMeetsTwoBuckets(calls[|calls| - 1], key, from);
      }
    }
  }

  /** Any 60 seconds of replica time admit at most twice the limit. */
  lemma AnyMinuteAtMostTwice(calls: seq<Call>, key: nat, from: nat, limit: int)
    requires FixedLimit(calls, key, limit) && limit > 0
    requires forall b :: SpreadAtMost(calls, (key, b), SPREAD)
    ensures AllowedInSpan(calls, key, from) <= 2 * limit
  {
    SpanAtMostItsBuckets(calls, key, from);
    assert SpreadAtMost(calls, (key, Bucket(from)), SPREAD) && SpreadAtMost(calls, (key, Bucket(from) + 1), SPREAD);
    ExactlyTheLimit(calls, key, Bucket(from), limit);
    ExactlyTheLimit(calls, key, Bucket(from) + 1, limit);
  }
}
