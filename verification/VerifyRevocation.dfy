/** What the DEL after an Update or SetActive is for (internal/keys/keys.go): once it has run, the key is never
    again accepted with an outdated row, at any time, exactly when no Verify that read such a row is still to
    write it back.  In particular a revoked key is then never accepted again. */
module VerifyRevocation {
  import opened Wrappers
  import opened Text
  import opened KeyHash
  import opened KeyModel
  import opened VerifyStaleness

  // ----- where the entries of a key are -----

  /** The row, the entries and the pending writes of a key are under one prefix. */
  ghost predicate AtHome(cfg: Config, s: State, id: Id, home: string) {
    && (forall p :: p in s.rows ==> s.rows[p].key.prefix == p && (s.rows[p].key.id == id ==> p == home))
    && (forall p :: p in s.cache && s.cache[p].key.id == id ==> p == home)
    && (forall v :: 0 <= v < |s.verifiers| && s.verifiers[v].SetNext? && s.verifiers[v].row.key.id == id ==>
          PrefixOf(cfg, s.verifiers[v].plain) == home)
  }

  /** A UUID is not issued again under another prefix. */
  predicate KeepsHome(a: Action, id: Id, home: string) {
    a.Insert? && a.row.key.id == id ==> a.row.key.prefix == home
  }

  lemma RowsAtHome(cfg: Config, s: State, a: Action, id: Id, home: string, p: string)
    requires AtHome(cfg, s, id, home) && Enabled(s, a) && KeepsHome(a, id, home) && p in Effect(cfg, s, a).rows
    ensures var k := Effect(cfg, s, a).rows[p].key; k.prefix == p && (k.id == id ==> p == home)
  {
    if !a.Insert? || p != a.row.key.prefix {
      assert p in s.rows;
    }
  }

  lemma VerifierAtHome(cfg: Config, s: State, a: Action, id: Id, home: string, v: nat)
    requires AtHome(cfg, s, id, home) && Enabled(s, a) && v < |Step(cfg, s, a).verifiers|
    ensures var x := Step(cfg, s, a).verifiers[v];
      x.SetNext? && x.row.key.id == id ==> PrefixOf(cfg, x.plain) == home
  {
    var x := Step(cfg, s, a).verifiers[v];
    if x.SetNext? && x.row.key.id == id && a.Select? && a.v == v {
      var p := PrefixOf(cfg, x.plain);
      assert p in s.rows && s.rows[p] == x.row;
    }
  }

  lemma AtHomeStep(cfg: Config, s: State, a: Action, id: Id, home: string)
    requires AtHome(cfg, s, id, home) && Enabled(s, a) && KeepsHome(a, id, home)
    ensures AtHome(cfg, Step(cfg, s, a), id, home)
  {
    var t := Step(cfg, s, a);
    forall p | p in t.rows ensures t.rows[p].key.prefix == p && (t.rows[p].key.id == id ==> p == home) {
      RowsAtHome(cfg, s, a, id, home, p);
    }
    forall v | 0 <= v < |t.verifiers| && t.verifiers[v].SetNext? && t.verifiers[v].row.key.id == id
      ensures PrefixOf(cfg, t.verifiers[v].plain) == home
    {
      VerifierAtHome(cfg, s, a, id, home, v);
    }
    forall p | p in t.cache && t.cache[p].key.id == id ensures p == home {
      CacheChange(cfg, s, a, p);
    }
  }

  lemma {:induction false} AtHomeRun(cfg: Config, s: State, run: seq<Action>, id: Id, home: string)
    requires AtHome(cfg, s, id, home) && ValidRun(cfg, s, run) && forall a :: a in run ==> KeepsHome(a, id, home)
    ensures AtHome(cfg, Final(cfg, s, run), id, home)
    decreases |run|
  {
    if run != [] {
      AtHomeStep(cfg, s, run[0], id, home);
      AtHomeRun(cfg, Step(cfg, s, run[0]), run[1..], id, home);
    }
  }

  // ----- after the DEL -----

  /** Which contents of the key are up to date is a parameter: those that `good` accepts. */
  type Content = Key -> bool

  predicate RowsGood(rows: Rows, id: Id, good: Content) {
    forall p :: p in rows && rows[p].key.id == id ==> good(rows[p].key)
  }

  /** The database has nothing but up-to-date contents of the key, from s to the end of the run. */
  ghost predicate StaysGood(cfg: Config, s: State, run: seq<Action>, id: Id, good: Content)
    requires ValidRun(cfg, s, run)
    decreases |run|
  {
    RowsGood(s.rows, id, good) && (run != [] ==> StaysGood(cfg, Step(cfg, s, run[0]), run[1..], id, good))
  }

  /** Outdated contents of the key that would be accepted. */
  predicate Stale(k: Key, id: Id, good: Content, now: Time) {
    k.id == id && !good(k) && Validate(k, now).None?
  }

  ghost predicate CachePurged(s: State, id: Id, good: Content) {
    forall p :: p in s.cache ==> !Stale(s.cache[p].key, id, good, s.now)
  }

  /** The Verify has read an outdated row and is still to write it back and return it. */
  predicate Holds(s: State, v: Verifier, id: Id, good: Content) {
    v.SetNext? && Stale(v.row.key, id, good, s.now)
  }

  ghost predicate NonePending(s: State, id: Id, good: Content) {
    forall v :: 0 <= v < |s.verifiers| ==> !Holds(s, s.verifiers[v], id, good)
  }

  ghost predicate Quiet(s: State, id: Id, good: Content) {
    CachePurged(s, id, good) && NonePending(s, id, good) && RowsGood(s.rows, id, good)
  }

  predicate AcceptedStale(v: Verifier, id: Id, good: Content) {
    v.Accepted? && v.key.id == id && !good(v.key)
  }

  /** Between s and t some Verify has accepted the key with outdated contents. */
  ghost predicate NewlyAccepted(s: State, t: State, id: Id, good: Content) {
    exists v :: 0 <= v < |t.verifiers| && AcceptedStale(t.verifiers[v], id, good)
                && !(v < |s.verifiers| && AcceptedStale(s.verifiers[v], id, good))
  }

  /** What is not acceptable does not become so as time passes. */
  lemma StaysInvalid(k: Key, now: Time, later: Time)
    requires Validate(k, now).Some? && now <= later
    ensures Validate(k, later).Some?
  {
  }

  /** One Verify over a step: it neither comes to hold an outdated row of the key nor accepts one. */
  lemma QuietVerifier(cfg: Config, s: State, a: Action, id: Id, good: Content, v: nat)
    requires Quiet(s, id, good) && Enabled(s, a) && v < |Step(cfg, s, a).verifiers|
    ensures var t := Step(cfg, s, a);
      && !Holds(t, t.verifiers[v], id, good)
      && (AcceptedStale(t.verifiers[v], id, good) ==> v < |s.verifiers| && s.verifiers[v] == t.verifiers[v])
  {
    if v < |s.verifiers| {
      var x := s.verifiers[v];
      assert !Holds(s, x, id, good);
      if a.Get? && a.v == v {
        var p := PrefixOf(cfg, x.plain);
        assert p in s.cache ==> !Stale(s.cache[p].key, id, good, s.now);
      }
    }
  }

  lemma QuietCache(cfg: Config, s: State, a: Action, id: Id, good: Content, p: string)
    requires Quiet(s, id, good) && Enabled(s, a) && p in Step(cfg, s, a).cache
    ensures var t := Step(cfg, s, a); !Stale(t.cache[p].key, id, good, t.now)
  {
    var t := Step(cfg, s, a);
    CacheChange(cfg, s, a, p);
    if p in s.cache && s.cache[p] == t.cache[p] {
      if Validate(t.cache[p].key, s.now).Some? {
        StaysInvalid(t.cache[p].key, s.now, t.now);
      }
    } else {
      assert !Holds(s, s.verifiers[a.v], id, good);
    }
  }

  lemma QuietStep(cfg: Config, s: State, a: Action, id: Id, good: Content)
    requires Quiet(s, id, good) && Enabled(s, a) && RowsGood(Step(cfg, s, a).rows, id, good)
    ensures Quiet(Step(cfg, s, a), id, good) && !NewlyAccepted(s, Step(cfg, s, a), id, good)
  {
    var t := Step(cfg, s, a);
    forall v | 0 <= v < |t.verifiers|
      ensures !Holds(t, t.verifiers[v], id, good)
      ensures AcceptedStale(t.verifiers[v], id, good) ==> v < |s.verifiers| && s.verifiers[v] == t.verifiers[v]
    {
      QuietVerifier(cfg, s, a, id, good, v);
    }
    forall p | p in t.cache ensures !Stale(t.cache[p].key, id, good, t.now) {
      QuietCache(cfg, s, a, id, good, p);
    }
  }

  lemma {:induction false} QuietRun(cfg: Config, s: State, run: seq<Action>, id: Id, good: Content)
    requires Quiet(s, id, good) && ValidRun(cfg, s, run) && StaysGood(cfg, s, run, id, good)
    ensures !NewlyAccepted(s, Final(cfg, s, run), id, good)
    decreases |run|
  {
    if run != [] {
      var t := Step(cfg, s, run[0]);
      assert StaysGood(cfg, t, run[1..], id, good);
      QuietStep(cfg, s, run[0], id, good);
      QuietRun(cfg, t, run[1..], id, good);
      NotInTwoSteps(s, t, Final(cfg, t, run[1..]), id, good);
    }
  }

  lemma NotInTwoSteps(s: State, t: State, u: State, id: Id, good: Content)
    requires !NewlyAccepted(s, t, id, good) && !NewlyAccepted(t, u, id, good)
    ensures !NewlyAccepted(s, u, id, good)
  {
  }

  /** Whatever happens while the database has only up-to-date contents, no Verify accepts outdated ones. */
  ghost predicate NeverAcceptedAgain(cfg: Config, s: State, id: Id, good: Content) {
    forall run :: ValidRun(cfg, s, run) && StaysGood(cfg, s, run, id, good)
      ==> !NewlyAccepted(s, Final(cfg, s, run), id, good)
  }

  /** A Verify that holds an outdated row accepts it with its next step. */
  lemma PendingAccepts(cfg: Config, s: State, id: Id, good: Content, v: nat)
    requires RowsGood(s.rows, id, good) && v < |s.verifiers| && Holds(s, s.verifiers[v], id, good)
    ensures !NeverAcceptedAgain(cfg, s, id, good)
  {
    var a := SetAndReturn(v, true);
    var t := Step(cfg, s, a);
    var none: seq<Action> := [];
    assert [a][1..] == none;
    assert ValidRun(cfg, t, none) && StaysGood(cfg, t, none, id, good);
    assert ValidRun(cfg, s, [a]) && StaysGood(cfg, s, [a], id, good) && Final(cfg, s, [a]) == t;
    assert AcceptedStale(t.verifiers[v], id, good);
  }

  lemma HoldsExactly(cfg: Config, s: State, id: Id, good: Content)
    requires CachePurged(s, id, good) && RowsGood(s.rows, id, good)
    ensures NeverAcceptedAgain(cfg, s, id, good) <==> NonePending(s, id, good)
  {
    if NonePending(s, id, good) {
      forall run | ValidRun(cfg, s, run) && StaysGood(cfg, s, run, id, good)
        ensures !NewlyAccepted(s, Final(cfg, s, run), id, good)
      {
        QuietRun(cfg, s, run, id, good);
      }
    } else {
      var v :| 0 <= v < |s.verifiers| && Holds(s, s.verifiers[v], id, good);
      PendingAccepts(cfg, s, id, good, v);
    }
  }

  /** invalidateCache finds the prefix of a key that has a row. */
  lemma FindsHome(cfg: Config, s: State, i: nat, id: Id, home: string)
    requires AtHome(cfg, s, id, home) && Enabled(s, FindPrefixStep(i)) && s.invalidations[i].id == id && HasId(s.rows, id)
    ensures Step(cfg, s, FindPrefixStep(i)).invalidations[i] == DelNext({home})
  {
    var p :| p in s.rows && s.rows[p].key.id == id;
    assert PrefixesOf(s.rows, id) == {home};
  }

  /** A run from the start to the DEL of an invalidation of the key. */
  ghost predicate ReachesDel(cfg: Config, s: State, run: seq<Action>, i: nat, id: Id, home: string) {
    && Init(s) && AtHome(cfg, s, id, home)
    && ValidRun(cfg, s, run) && (forall a :: a in run ==> KeepsHome(a, id, home))
    && Enabled(Final(cfg, s, run), DelStep(i)) && home in Final(cfg, s, run).invalidations[i].prefixes
  }

  ghost function AfterDel(cfg: Config, s: State, run: seq<Action>, i: nat, id: Id, home: string): State
    requires ReachesDel(cfg, s, run, i, id, home)
  {
    Step(cfg, Final(cfg, s, run), DelStep(i))
  }

  lemma DelPurges(cfg: Config, s: State, run: seq<Action>, i: nat, id: Id, home: string, good: Content)
    requires ReachesDel(cfg, s, run, i, id, home)
    ensures CachePurged(AfterDel(cfg, s, run, i, id, home), id, good)
  {
    AtHomeRun(cfg, s, run, id, home);
  }

  /** A write takes hold at once, whatever the ttl: over every interleaving, when the DEL for the key has run, the
      key is never again accepted with outdated contents while the database has none, if and only if no Verify
      holds an outdated row that it read before and that is still acceptable. */
  lemma WriteTakesHold(cfg: Config, s: State, run: seq<Action>, i: nat, id: Id, home: string, good: Content)
    requires ReachesDel(cfg, s, run, i, id, home) && RowsGood(Final(cfg, s, run).rows, id, good)
    ensures var t := AfterDel(cfg, s, run, i, id, home);
      NeverAcceptedAgain(cfg, t, id, good) <==> NonePending(t, id, good)
  {
    DelPurges(cfg, s, run, i, id, home, good);
    HoldsExactly(cfg, AfterDel(cfg, s, run, i, id, home), id, good);
  }

  // ----- contents stored since a write -----

  function KeysOf(rows: Rows, id: Id): set<Key> {
    set p | p in rows && rows[p].key.id == id :: rows[p].key
  }

  /** What the row of the key was, from s to the end of the run. */
  ghost function Stored(cfg: Config, s: State, run: seq<Action>, id: Id): set<Key>
    requires ValidRun(cfg, s, run)
    decreases |run|
  {
    KeysOf(s.rows, id) + if run == [] then {} else Stored(cfg, Step(cfg, s, run[0]), run[1..], id)
  }

  function In(keys: set<Key>): Content {
    (k: Key) => k in keys
  }

  lemma {:induction false} StoredStaysGood(cfg: Config, s: State, run: seq<Action>, id: Id, keys: set<Key>)
    requires ValidRun(cfg, s, run) && Stored(cfg, s, run, id) <= keys
    ensures StaysGood(cfg, s, run, id, In(keys))
    decreases |run|
  {
    forall p | p in s.rows && s.rows[p].key.id == id ensures In(keys)(s.rows[p].key) {
      assert s.rows[p].key in KeysOf(s.rows, id);
    }
    if run != [] {
      StoredStaysGood(cfg, Step(cfg, s, run[0]), run[1..], id, keys);
    }
  }

  /** Once the DEL of a write has run, every later accept of the key is of a row stored since that write, if no
      Verify still holds an older one: `before` ends with the write, `since` with the DEL to come. */
  lemma LaterAcceptsAreRecent(cfg: Config, s: State, before: seq<Action>, since: seq<Action>, i: nat,
                              after: seq<Action>, id: Id, home: string, keys: set<Key>)
    requires ValidRun(cfg, s, before) && ValidRun(cfg, Final(cfg, s, before), since)
    requires ReachesDel(cfg, s, before + since, i, id, home)
    requires ValidRun(cfg, AfterDel(cfg, s, before + since, i, id, home), after)
    requires keys == Stored(cfg, Final(cfg, s, before), since, id)
                   + Stored(cfg, AfterDel(cfg, s, before + since, i, id, home), after, id)
    requires NonePending(AfterDel(cfg, s, before + since, i, id, home), id, In(keys))
    ensures var t := AfterDel(cfg, s, before + since, i, id, home);
      !NewlyAccepted(t, Final(cfg, t, after), id, In(keys))
  {
    var t := AfterDel(cfg, s, before + since, i, id, home);
    DelPurges(cfg, s, before + since, i, id, home, In(keys));
    StoredStaysGood(cfg, t, after, id, keys);
    QuietRun(cfg, t, after, id, In(keys));
  }

  // ----- revocation -----

  function Inactive(): Content {
    (k: Key) => !k.active
  }

  lemma {:induction false} RevokedStaysGood(cfg: Config, s: State, run: seq<Action>, id: Id)
    requires ValidRun(cfg, s, run)
    ensures StaysRevoked(cfg, s, run, id) <==> StaysGood(cfg, s, run, id, Inactive())
    decreases |run|
  {
    assert Revoked(s.rows, id) <==> RowsGood(s.rows, id, Inactive());
    if run != [] {
      RevokedStaysGood(cfg, Step(cfg, s, run[0]), run[1..], id);
    }
  }

  predicate AcceptedFor(v: Verifier, id: Id) {
    v.Accepted? && v.key.id == id
  }

  /** A key that is not active is not accepted. */
  lemma AcceptsAreActive(cfg: Config, s: State, a: Action, v: nat)
    requires Enabled(s, a) && v < |Step(cfg, s, a).verifiers| && Step(cfg, s, a).verifiers[v].Accepted?
    ensures Step(cfg, s, a).verifiers[v].key.active || (v < |s.verifiers| && Step(cfg, s, a).verifiers[v] == s.verifiers[v])
  {
  }

  lemma {:induction false} NoNewAccept(cfg: Config, s: State, run: seq<Action>, id: Id, v: nat)
    requires ValidRun(cfg, s, run) && v < |Final(cfg, s, run).verifiers|
    requires AcceptedFor(Final(cfg, s, run).verifiers[v], id) && !Final(cfg, s, run).verifiers[v].key.active
    ensures v < |s.verifiers| && s.verifiers[v] == Final(cfg, s, run).verifiers[v]
    decreases |run|
  {
    if run != [] {
      NoNewAccept(cfg, Step(cfg, s, run[0]), run[1..], id, v);
      AcceptsAreActive(cfg, s, run[0], v);
    }
  }

  /** Between s and t some Verify has accepted the key. */
  ghost predicate Accepts(s: State, t: State, id: Id) {
    exists v :: 0 <= v < |t.verifiers| && AcceptedFor(t.verifiers[v], id)
                && !(v < |s.verifiers| && AcceptedFor(s.verifiers[v], id))
  }

  /** Whatever happens while the key stays revoked, no Verify accepts it. */
  ghost predicate NeverAccepted(cfg: Config, s: State, id: Id) {
    forall run :: ValidRun(cfg, s, run) && StaysRevoked(cfg, s, run, id) ==> !Accepts(s, Final(cfg, s, run), id)
  }

  lemma RevokedNotAccepted(cfg: Config, s: State, run: seq<Action>, id: Id)
    requires CachePurged(s, id, Inactive()) && NonePending(s, id, Inactive())
    requires ValidRun(cfg, s, run) && StaysRevoked(cfg, s, run, id)
    ensures !Accepts(s, Final(cfg, s, run), id)
  {
    var t := Final(cfg, s, run);
    RevokedStaysGood(cfg, s, run, id);
    QuietRun(cfg, s, run, id, Inactive());
    forall v | 0 <= v < |t.verifiers| && AcceptedFor(t.verifiers[v], id)
      ensures v < |s.verifiers| && AcceptedFor(s.verifiers[v], id)
    {
      if t.verifiers[v].key.active {
        assert AcceptedStale(t.verifiers[v], id, Inactive());
      } else {
        NoNewAccept(cfg, s, run, id, v);
      }
    }
  }

  lemma PendingRevives(cfg: Config, s: State, id: Id, v: nat)
    requires Revoked(s.rows, id) && v < |s.verifiers| && Holds(s, s.verifiers[v], id, Inactive())
    ensures !NeverAccepted(cfg, s, id)
  {
    var a := SetAndReturn(v, true);
    var t := Step(cfg, s, a);
    var none: seq<Action> := [];
    assert [a][1..] == none;
    assert ValidRun(cfg, t, none) && StaysRevoked(cfg, t, none, id);
    assert ValidRun(cfg, s, [a]) && StaysRevoked(cfg, s, [a], id) && Final(cfg, s, [a]) == t;
    assert AcceptedFor(t.verifiers[v], id);
  }

  /** Revocation takes hold at once, whatever the ttl: when the DEL for a revoked key has run, no Verify accepts the
      key over any run in which it stays revoked, if and only if no Verify holds an acceptable row of it. */
  lemma RevocationTakesHold(cfg: Config, s: State, run: seq<Action>, i: nat, id: Id, home: string)
    requires ReachesDel(cfg, s, run, i, id, home) && Revoked(Final(cfg, s, run).rows, id)
    ensures var t := AfterDel(cfg, s, run, i, id, home);
      NeverAccepted(cfg, t, id) <==> NonePending(t, id, Inactive())
  {
    var t := AfterDel(cfg, s, run, i, id, home);
    DelPurges(cfg, s, run, i, id, home, Inactive());
    if NonePending(t, id, Inactive()) {
      forall after | ValidRun(cfg, t, after) && StaysRevoked(cfg, t, after, id)
        ensures !Accepts(t, Final(cfg, t, after), id)
      {
        RevokedNotAccepted(cfg, t, after, id);
      }
    } else {
      var v :| 0 <= v < |t.verifiers| && Holds(t, t.verifiers[v], id, Inactive());
      PendingRevives(cfg, t, id, v);
    }
  }

  // ----- the race -----

  lemma Cons(cfg: Config, s: State, a: Action, rest: seq<Action>)
    requires Enabled(s, a) && ValidRun(cfg, Step(cfg, s, a), rest)
    ensures ValidRun(cfg, s, [a] + rest) && Final(cfg, s, [a] + rest) == Final(cfg, Step(cfg, s, a), rest)
  {
    assert ([a] + rest)[1..] == rest;
  }

  /** A state in which Verify 0 holds the active row of a key that has since been deactivated, after the DEL. */
  ghost predicate Raced(cfg: Config, s: State, plain: string, key: Key) {
    && s.cache == map[] && |s.verifiers| == 1 && Revoked(s.rows, key.id)
    && s.verifiers[0].SetNext? && s.verifiers[0].plain == plain && s.verifiers[0].row.key == key
    && Validate(key, s.now).None? && HasPrefix(plain, cfg.keyPrefix)
  }

  /** Verify 0 has read the row of the key; nothing else has happened. */
  ghost predicate HasRead(cfg: Config, s: State, plain: string) {
    && HasPrefix(plain, cfg.keyPrefix) && PrefixOf(cfg, plain) in s.rows
    && Validate(s.rows[PrefixOf(cfg, plain)].key, s.now).None?
    && s.cache == map[] && s.invalidations == []
    && s.verifiers == [SetNext(plain, s.rows[PrefixOf(cfg, plain)], s.now)]
  }

  lemma ReadFirst(cfg: Config, s: State, plain: string) returns (run: seq<Action>)
    requires Init(s) && HasPrefix(plain, cfg.keyPrefix) && PrefixOf(cfg, plain) in s.rows
    requires var row := s.rows[PrefixOf(cfg, plain)];
      VerifyHash(cfg.argon, plain, row.hash) && Validate(row.key, s.now).None?
    ensures ValidRun(cfg, s, run)
    ensures var t := Final(cfg, s, run); t.rows == s.rows && HasRead(cfg, t, plain)
  {
    var s1 := Step(cfg, s, Start(plain));
    var s2 := Step(cfg, s1, Get(0));
    assert s2.verifiers == [SelectNext(plain)];
    Cons(cfg, s2, Select(0), []);
    Cons(cfg, s1, Get(0), [Select(0)] + []);
    Cons(cfg, s, Start(plain), [Get(0)] + ([Select(0)] + []));
    run := [Start(plain)] + ([Get(0)] + ([Select(0)] + []));
  }

  lemma RevokeMeanwhile(cfg: Config, s: State, plain: string) returns (run: seq<Action>)
    requires HasRead(cfg, s, plain)
    ensures ValidRun(cfg, s, run) && run != [] && run[|run| - 1] == DelStep(0)
    ensures Raced(cfg, Final(cfg, s, run), plain, s.rows[PrefixOf(cfg, plain)].key)
  {
    var p := PrefixOf(cfg, plain);
    var id := s.rows[p].key.id;
    assert HasId(s.rows, id);
    var s1 := Step(cfg, s, SetActive(id, false));
    assert s1.invalidations == [FindPrefix(id)] && Revoked(s1.rows, id);
    assert p in PrefixesOf(s1.rows, id);
    var s2 := Step(cfg, s1, FindPrefixStep(0));
    assert s2.invalidations[0].DelNext?;
    Cons(cfg, s2, DelStep(0), []);
    Cons(cfg, s1, FindPrefixStep(0), [DelStep(0)] + []);
    Cons(cfg, s, SetActive(id, false), [FindPrefixStep(0)] + ([DelStep(0)] + []));
    run := [SetActive(id, false)] + ([FindPrefixStep(0)] + ([DelStep(0)] + []));
  }

  /** The race happens: a SELECT of an acceptable row, the whole of SetActive(false), its DEL last, and only
      then the Set. */
  lemma RaceHappens(cfg: Config, s: State, plain: string) returns (run: seq<Action>)
    requires Init(s) && HasPrefix(plain, cfg.keyPrefix) && PrefixOf(cfg, plain) in s.rows
    requires var row := s.rows[PrefixOf(cfg, plain)];
      VerifyHash(cfg.argon, plain, row.hash) && Validate(row.key, s.now).None?
    ensures ValidRun(cfg, s, run) && run != [] && run[|run| - 1] == DelStep(0)
    ensures Raced(cfg, Final(cfg, s, run), plain, s.rows[PrefixOf(cfg, plain)].key)
  {
    var first := ReadFirst(cfg, s, plain);
    var second := RevokeMeanwhile(cfg, Final(cfg, s, first), plain);
    RunsCompose(cfg, s, first, second);
    run := first + second;
  }

  /** The race that the condition excludes is real: from there the Set caches the old row, and a Verify that
      starts after the revocation and its DEL accepts the key. */
  lemma RaceRevivesKey(cfg: Config, s: State, plain: string, key: Key) returns (run: seq<Action>)
    requires Raced(cfg, s, plain, key)
    ensures ValidRun(cfg, s, run) && StaysRevoked(cfg, s, run, key.id)
    ensures var t := Final(cfg, s, run); |t.verifiers| == 2 && AcceptedFor(t.verifiers[1], key.id)
  {
    var s1 := Step(cfg, s, SetAndReturn(0, true));
    assert PrefixOf(cfg, plain) in s1.cache && s1.cache[PrefixOf(cfg, plain)] == NewEntry(cfg, key, plain, s.now);
    var s2 := Step(cfg, s1, Start(plain));
    assert s2.verifiers[1] == GetNext(plain);
    var s3 := Step(cfg, s2, Get(1));
    assert s3.verifiers[1] == Accepted(plain, key, s.now);
    Cons(cfg, s2, Get(1), []);
    assert StaysRevoked(cfg, s3, [], key.id) && StaysRevoked(cfg, s2, [Get(1)], key.id);
    Cons(cfg, s1, Start(plain), [Get(1)] + []);
    Cons(cfg, s, SetAndReturn(0, true), [Start(plain)] + ([Get(1)] + []));
    run := [SetAndReturn(0, true)] + ([Start(plain)] + ([Get(1)] + []));
  }
}
