/** Migrate of internal/store/store.go: a loop over the sorted migrations, one transaction each,
    run by any number of replicas that may overlap and fail at any step. */
module Migrations {
  import opened Wrappers

  ghost predicate Distinct(ups: seq<string>) {
    forall i, j :: 0 <= i < j < |ups| ==> ups[i] != ups[j]
  }

  const SUFFIX := ".up.sql"

  predicate HasSuffix(name: string) {
    |name| >= |SUFFIX| && name[|name| - |SUFFIX|..] == SUFFIX
  }

  function Version(name: string): string
    requires HasSuffix(name)
  {
    name[..|name| - |SUFFIX|]
  }

  /** An up-migration is named by its version and the suffix, whatever the version. */
  lemma NamesAndVersions(name: string, version: string)
    ensures HasSuffix(version + ".up.sql") && Version(version + ".up.sql") == version
    ensures HasSuffix(name) ==> name == Version(name) + ".up.sql"
  {
    assert (version + SUFFIX)[|version|..] == SUFFIX;
  }

  /** Distinct file names give distinct versions, which is all the proofs below need of the list. */
  lemma VersionsDistinct(names: seq<string>, versions: seq<string>)
    requires Distinct(names) && |versions| == |names|
    requires forall i :: 0 <= i < |names| ==> HasSuffix(names[i]) && versions[i] == Version(names[i])
    ensures Distinct(versions)
  {
    forall i, j | 0 <= i < j < |versions| ensures versions[i] != versions[j] {
      assert names[i] == versions[i] + SUFFIX && names[j] == versions[j] + SUFFIX;
    }
  }

  // ----- the list -----

  /** Byte-wise string order, as sort.Strings uses it. */
  predicate AtMost(a: string, b: string) {
    if a == "" then true
    else if b == "" then false
    else a[0] < b[0] || (a[0] == b[0] && AtMost(a[1..], b[1..]))
  }

  lemma {:induction false} AtMostTransitive(a: string, b: string, c: string)
    requires AtMost(a, b) && AtMost(b, c)
    ensures AtMost(a, c)
  {
    if a != "" && a[0] == b[0] && b[0] == c[0] {
      AtMostTransitive(a[1..], b[1..], c[1..]);
    }
  }

  lemma {:induction false} AtMostTotal(a: string, b: string)
    ensures AtMost(a, b) || AtMost(b, a)
  {
    if a != "" && b != "" && a[0] == b[0] {
      AtMostTotal(a[1..], b[1..]);
    }
  }

  ghost predicate Sorted(names: seq<string>) {
    forall i, j :: 0 <= i < j < |names| ==> AtMost(names[i], names[j])
  }

  /** Put a name where it belongs. */
  function Place(names: seq<string>, name: string): (r: seq<string>)
    ensures multiset(r) == multiset(names) + multiset{name}
  {
    if names == [] then [name]
    else if AtMost(name, names[0]) then [name] + names
    else
      assert names == [names[0]] + names[1..];
      [names[0]] + Place(names[1..], name)
  }

  /** A name at most the first of a sorted list may go before it. */
  lemma PrependSorted(names: seq<string>, name: string)
    requires Sorted(names) && (names == [] || AtMost(name, names[0]))
    ensures Sorted([name] + names)
  {
    forall j | 0 <= j < |names| ensures AtMost(name, names[j]) {
      if j > 0 { AtMostTransitive(name, names[0], names[j]); }
    }
  }

  lemma FirstIsLeast(names: seq<string>, name: string)
    requires Sorted(names) && names != [] && AtMost(names[0], name)
    ensures forall n :: n in Place(names[1..], name) ==> AtMost(names[0], n)
  {
    forall n | n in Place(names[1..], name) ensures AtMost(names[0], n) {
      assert n in multiset(Place(names[1..], name));
      assert n == name || n in names[1..];
    }
  }

  lemma {:induction false} PlaceSorted(names: seq<string>, name: string)
    requires Sorted(names)
    ensures Sorted(Place(names, name))
  {
    if names == [] || AtMost(name, names[0]) {
      PrependSorted(names, name);
    } else {
      AtMostTotal(name, names[0]);
      FirstIsLeast(names, name);
      var rest := Place(names[1..], name);
      PlaceSorted(names[1..], name);
      assert rest == [] || rest[0] in rest;
      PrependSorted(rest, names[0]);
    }
  }

  function CountIn(names: seq<string>, n: string): nat {
    multiset(names)[n]
  }

  /** The migrations of a directory: exactly its .up.sql names, each as often as it is listed, in order. */
  method UpNames(entries: seq<string>) returns (ups: seq<string>)
    ensures Sorted(ups)
    ensures forall n :: CountIn(ups, n) == if HasSuffix(n) then CountIn(entries, n) else 0
  {
    ups := [];
    for k := 0 to |entries|
      invariant Sorted(ups)
      invariant forall n :: CountIn(ups, n) == if HasSuffix(n) then CountIn(entries[..k], n) else 0
    {
      assert entries[..k + 1] == entries[..k] + [entries[k]];
      if HasSuffix(entries[k]) {
        PlaceSorted(ups, entries[k]);
        ups := Place(ups, entries[k]);
      }
    }
    assert entries[..|entries|] == entries;
  }

  // ----- one run alone -----

  /** The database: the versions in schema_migrations, in the order their transactions committed. */
  class Database {
    var log: seq<string>

    constructor ()
      ensures log == []
    {
      log := [];
    }

    /** Migrate; fails(i) says whether some statement for migration i fails. */
    method Migrate(ups: seq<string>, fails: nat -> bool) returns (ok: bool)
      requires Distinct(ups) && log <= ups
      modifies this
      ensures old(log) <= log <= ups
      ensures ok ==> log == ups
      ensures ok <==> forall i :: 0 <= i < |ups| ==> !fails(i)
    {
      for i := 0 to |ups|
        invariant old(log) <= log <= ups && i <= |log|
        invariant forall j :: 0 <= j < i ==> !fails(j)
      {
        if fails(i) {
          return false;
        }
        RecordedIsBelow(ups, log, i);
        if ups[i] !in log {
          log := log + [ups[i]];   // body and version in one transaction
        }
      }
      ok := true;
    }
  }

  // ----- overlapping runs -----

  /** Where a replica's run stands on migration i. */
  datatype Runner =
    | Checking(i: nat)
    | Began(i: nat)
    | BodyDone(i: nat)
    | Inserted(i: nat)
    | Succeeded
    | Failed

  datatype State = State(log: seq<string>, runners: seq<Runner>)

  datatype Action =
    | Start
    | Check(r: nat)
    | RunBody(r: nat)
    | InsertVersion(r: nat)
    | Commit(r: nat)
    | CommitUnacknowledged(r: nat)   // committed, but the reply is lost
    | Fail(r: nat)                   // any error, and the rollback it causes

  predicate Enabled(ups: seq<string>, s: State, a: Action) {
    match a
    case Start => true
    case Check(r) => r < |s.runners| && s.runners[r].Checking? && s.runners[r].i <= |ups|
    case RunBody(r) => r < |s.runners| && s.runners[r].Began?
    case InsertVersion(r) =>
      // the primary key makes the insert wait for another transaction's uncommitted insert of the same version
      r < |s.runners| && s.runners[r].BodyDone? && s.runners[r].i < |ups|
      && forall q :: 0 <= q < |s.runners| ==> s.runners[q] != Inserted(s.runners[r].i)
    case Commit(r) => r < |s.runners| && s.runners[r].Inserted? && s.runners[r].i < |ups|
    case CommitUnacknowledged(r) => r < |s.runners| && s.runners[r].Inserted? && s.runners[r].i < |ups|
    case Fail(r) => r < |s.runners| && !s.runners[r].Succeeded?
  }

  function Step(ups: seq<string>, s: State, a: Action): State
    requires Enabled(ups, s, a)
  {
    match a
    case Start => s.(runners := s.runners + [Checking(0)])
    case Check(r) =>
      var i := s.runners[r].i;
      s.(runners := s.runners[r :=
        if i == |ups| then Succeeded else if ups[i] in s.log then Checking(i + 1) else Began(i)])
    case RunBody(r) => s.(runners := s.runners[r := BodyDone(s.runners[r].i)])
    case InsertVersion(r) =>
      var i := s.runners[r].i;
      s.(runners := s.runners[r := if ups[i] in s.log then Failed else Inserted(i)])
    case Commit(r) =>
      var i := s.runners[r].i;
      State(s.log + [ups[i]], s.runners[r := Checking(i + 1)])
    case CommitUnacknowledged(r) => State(s.log + [ups[s.runners[r].i]], s.runners[r := Failed])
    case Fail(r) => s.(runners := s.runners[r := Failed])
  }

  ghost predicate ValidRun(ups: seq<string>, s: State, run: seq<Action>)
    decreases |run|
  {
    run == [] || (Enabled(ups, s, run[0]) && ValidRun(ups, Step(ups, s, run[0]), run[1..]))
  }

  ghost function Final(ups: seq<string>, s: State, run: seq<Action>): State
    requires ValidRun(ups, s, run)
    decreases |run|
  {
    if run == [] then s else Final(ups, Step(ups, s, run[0]), run[1..])
  }

  /** A run has only passed versions that are recorded, and the one it has inserted is the next. */
  ghost predicate RunnerOk(ups: seq<string>, log: seq<string>, r: Runner) {
    match r
    case Checking(i) => i <= |log|
    case Began(i) => i <= |log| && i < |ups|
    case BodyDone(i) => i <= |log| && i < |ups|
    case Inserted(i) => i == |log| < |ups|
    case Succeeded => log == ups
    case Failed => true
  }

  ghost predicate Inv(ups: seq<string>, s: State) {
    && s.log <= ups
    && (forall r :: 0 <= r < |s.runners| ==> RunnerOk(ups, s.log, s.runners[r]))
    && (forall q, r :: 0 <= q < r < |s.runners| ==> !(s.runners[q].Inserted? && s.runners[r].Inserted?))
  }

  lemma RecordedIsBelow(ups: seq<string>, log: seq<string>, i: nat)
    requires Distinct(ups) && log <= ups && i < |ups|
    ensures ups[i] in log <==> i < |log|
  {
    if i < |log| {
      assert log[i] == ups[i];
    }
  }

  lemma OnlyOneInserted(ups: seq<string>, s: State, r: nat)
    requires Inv(ups, s) && r < |s.runners| && s.runners[r].Inserted?
    ensures forall q :: 0 <= q < |s.runners| && q != r ==> !s.runners[q].Inserted?
  {
  }

  lemma CommitStep(ups: seq<string>, s: State, r: nat, next: Runner)
    requires Inv(ups, s) && r < |s.runners| && s.runners[r].Inserted?
    requires next == Checking(s.runners[r].i + 1) || next == Failed
    ensures s.runners[r].i < |ups|
    ensures Inv(ups, State(s.log + [ups[s.runners[r].i]], s.runners[r := next]))
  {
    assert RunnerOk(ups, s.log, s.runners[r]);
    OnlyOneInserted(ups, s, r);
    var t := State(s.log + [ups[s.runners[r].i]], s.runners[r := next]);
    forall q | 0 <= q < |t.runners| ensures RunnerOk(ups, t.log, t.runners[q]) {
      assert RunnerOk(ups, s.log, s.runners[q]);
    }
  }

  lemma QuietStep(ups: seq<string>, s: State, a: Action)
    requires Distinct(ups) && Inv(ups, s) && Enabled(ups, s, a) && !a.Commit? && !a.CommitUnacknowledged?
    ensures Inv(ups, Step(ups, s, a))
  {
    var t := Step(ups, s, a);
    if !a.Start? {
      assert RunnerOk(ups, s.log, s.runners[a.r]);
      if (a.Check? || a.InsertVersion?) && s.runners[a.r].i < |ups| {
        RecordedIsBelow(ups, s.log, s.runners[a.r].i);
      }
    }
    forall q | 0 <= q < |t.runners| ensures RunnerOk(ups, t.log, t.runners[q]) {
      if q < |s.runners| { assert RunnerOk(ups, s.log, s.runners[q]); }
    }
    if a.InsertVersion? && t.runners[a.r].Inserted? {
      forall q | 0 <= q < |s.runners| && q != a.r ensures !s.runners[q].Inserted? {
        assert RunnerOk(ups, s.log, s.runners[q]);
      }
    }
  }

  lemma InvStep(ups: seq<string>, s: State, a: Action)
    requires Distinct(ups) && Inv(ups, s) && Enabled(ups, s, a)
    ensures Inv(ups, Step(ups, s, a))
  {
    match a
    case Commit(r) => CommitStep(ups, s, r, Checking(s.runners[r].i + 1));
    case CommitUnacknowledged(r) => CommitStep(ups, s, r, Failed);
    case _ => QuietStep(ups, s, a);
  }

  lemma {:induction false} InvRun(ups: seq<string>, s: State, run: seq<Action>)
    requires Distinct(ups) && Inv(ups, s) && ValidRun(ups, s, run)
    ensures Inv(ups, Final(ups, s, run))
    ensures s.log <= Final(ups, s, run).log
    decreases |run|
  {
    if run != [] {
      InvStep(ups, s, run[0]);
      InvRun(ups, Step(ups, s, run[0]), run[1..]);
    }
  }

  /** Migration restart safety: for any number of runs, overlapping and failing anywhere, what has committed is
      a prefix of the list, in order and each once; a run that reported success leaves the whole list applied. */
  lemma RestartSafety(ups: seq<string>, run: seq<Action>)
    requires Distinct(ups) && ValidRun(ups, State([], []), run)
    ensures var t := Final(ups, State([], []), run);
      && t.log <= ups
      && Distinct(t.log)
      && (Succeeded in t.runners ==> t.log == ups)
  {
    InvRun(ups, State([], []), run);
    var t := Final(ups, State([], []), run);
    if Succeeded in t.runners {
      var r :| 0 <= r < |t.runners| && t.runners[r] == Succeeded;
      assert RunnerOk(ups, t.log, t.runners[r]);
    }
  }

  /** The run is in no transaction. */
  predicate Outside(r: Runner) {
    !r.Began? && !r.BodyDone? && !r.Inserted?
  }

  /** Once all is applied, nothing that any overlapping or later run does changes the database; and if no run
      is in a transaction then, none opens one again. */
  lemma {:induction false} LaterRunsHaveNoEffect(ups: seq<string>, s: State, run: seq<Action>)
    requires Distinct(ups) && Inv(ups, s) && s.log == ups && ValidRun(ups, s, run)
    ensures Final(ups, s, run).log == ups
    ensures (forall r :: r in s.runners ==> Outside(r)) ==> forall r :: r in Final(ups, s, run).runners ==> Outside(r)
    decreases |run|
  {
    if run != [] {
      var a := run[0];
      var t := Step(ups, s, a);
      InvStep(ups, s, a);
      assert t.log == ups;
      if forall r :: r in s.runners ==> Outside(r) {
        if !a.Start? {
          assert Outside(s.runners[a.r]);
          if a.Check? && s.runners[a.r].i < |ups| { RecordedIsBelow(ups, s.log, s.runners[a.r].i); }
        }
        forall r | r in t.runners ensures Outside(r) {}
      }
      LaterRunsHaveNoEffect(ups, t, run[1..]);
    }
  }

  /** Nothing about a run is safe from failing: until it has reported success, an error ends it, whatever it was
      doing, and leaves the database as it was. */
  lemma FailsAnywhere(ups: seq<string>, s: State, r: nat)
    requires r < |s.runners| && s.runners[r] != Succeeded
    ensures Enabled(ups, s, Fail(r)) && Step(ups, s, Fail(r)) == State(s.log, s.runners[r := Failed])
    ensures s.runners[r].Inserted? && s.runners[r].i < |ups| ==>
      Enabled(ups, s, CommitUnacknowledged(r))
      && Step(ups, s, CommitUnacknowledged(r)) == State(s.log + [ups[s.runners[r].i]], s.runners[r := Failed])
  {
  }

  // ----- a run that nobody disturbs -----

  lemma {:induction false} RunsCompose(ups: seq<string>, s: State, first: seq<Action>, second: seq<Action>)
    requires ValidRun(ups, s, first) && ValidRun(ups, Final(ups, s, first), second)
    ensures ValidRun(ups, s, first + second)
    ensures Final(ups, s, first + second) == Final(ups, Final(ups, s, first), second)
    decreases |first|
  {
    if first == [] {
      assert first + second == second;
    } else {
      RunsCompose(ups, Step(ups, s, first[0]), first[1..], second);
      assert (first + second)[1..] == first[1..] + second;
    }
  }

  lemma OneMore(ups: seq<string>, s: State, run: seq<Action>, t: State, a: Action)
    returns (run': seq<Action>, u: State)
    requires ValidRun(ups, s, run) && Final(ups, s, run) == t && Enabled(ups, t, a)
    ensures u == Step(ups, t, a) && ValidRun(ups, s, run') && Final(ups, s, run') == u
  {
    u := Step(ups, t, a);
    var none: seq<Action> := [];
    assert [a][1..] == none && ValidRun(ups, u, none);
    assert ValidRun(ups, t, [a]) && Final(ups, t, [a]) == u;
    RunsCompose(ups, s, run, [a]);
    run' := run + [a];
  }

  /** Nobody has an uncommitted insert. */
  ghost predicate NobodyInserts(s: State) {
    forall q :: 0 <= q < |s.runners| ==> !s.runners[q].Inserted?
  }

  /** One migration: passed over when it is recorded, else run and recorded. */
  lemma PassOne(ups: seq<string>, s: State, run: seq<Action>, t: State, r: nat)
    returns (run': seq<Action>, u: State)
    requires ValidRun(ups, s, run) && Final(ups, s, run) == t
    requires r < |t.runners| && t.runners[r].Checking? && t.runners[r].i < |ups| && NobodyInserts(t)
    ensures ValidRun(ups, s, run') && Final(ups, s, run') == u
    ensures |u.runners| == |t.runners| && u.runners[r] == Checking(t.runners[r].i + 1) && NobodyInserts(u)
    ensures u.log == if ups[t.runners[r].i] in t.log then t.log else t.log + [ups[t.runners[r].i]]
  {
    var i := t.runners[r].i;
    run', u := OneMore(ups, s, run, t, Check(r));
    if ups[i] !in t.log {
      run', u := OneMore(ups, s, run', u, RunBody(r));
      run', u := OneMore(ups, s, run', u, InsertVersion(r));
      run', u := OneMore(ups, s, run', u, Commit(r));
    }
  }

  lemma {:induction false} PassAll(ups: seq<string>, s: State, run: seq<Action>, t: State, r: nat)
    returns (run': seq<Action>, u: State)
    requires ValidRun(ups, s, run) && Final(ups, s, run) == t
    requires r < |t.runners| && t.runners[r].Checking? && t.runners[r].i <= |ups| && NobodyInserts(t)
    ensures ValidRun(ups, s, run') && Final(ups, s, run') == u
    ensures r < |u.runners| && u.runners[r] == Succeeded
    decreases |ups| - t.runners[r].i
  {
    if t.runners[r].i < |ups| {
      run', u := PassOne(ups, s, run, t, r);
      run', u := PassAll(ups, s, run', u, r);
    } else {
      run', u := OneMore(ups, s, run, t, Check(r));
    }
  }

  /** Migrations do get applied: from any reachable state in which no insert is pending, a run that nobody
      disturbs succeeds, with the whole list applied. */
  lemma RunAloneSucceeds(ups: seq<string>, s: State) returns (run: seq<Action>)
    requires Distinct(ups) && Inv(ups, s) && NobodyInserts(s)
    ensures ValidRun(ups, s, run)
    ensures Succeeded in Final(ups, s, run).runners && Final(ups, s, run).log == ups
  {
    var t;
    run, t := OneMore(ups, s, [], s, Start);
    run, t := PassAll(ups, s, run, t, |s.runners|);
    InvRun(ups, s, run);
    assert RunnerOk(ups, t.log, t.runners[|s.runners|]);
    assert t.runners[|s.runners|] in t.runners;
  }
}
