/** Verify, Update, SetActive, Delete and their cache invalidations, interleaved statement by
    statement (internal/keys/keys.go).  Whatever the interleaving, an accepted key is a row that
    was in the database less than ttl + d ago (give or take Redis's own clock tick), d bounding the time
    from Verify's SELECT to its Set. */
module VerifyStaleness {
  import opened Wrappers
  import opened Text
  import opened KeyHash
  import opened KeyModel

  datatype Verifier =
    | GetNext(plain: string)
    | SelectNext(plain: string)
    | SetNext(plain: string, row: Row, at: Time)   // SELECT answered at time `at`, the hash matched
    | Accepted(plain: string, key: Key, at: Time)
    | Refused

  /** invalidateCache after an admin write: the SELECT of the prefix, then the DEL. */
  datatype Invalidation = FindPrefix(id: Id) | DelNext(prefixes: set<string>) | Finished

  /** `seen` is history: every row together with every time at which it was in the database. */
  datatype State = State(now: Time, rows: Rows, cache: Cache, seen: set<(Row, Time)>,
                         verifiers: seq<Verifier>, invalidations: seq<Invalidation>)

  datatype Action =
    | Tick(dt: nat)
    | Start(plain: string)
    | Get(v: nat)
    | GetError(v: nat)            // Redis error or an entry that does not decode
    | Select(v: nat)
    | SetAndReturn(v: nat, ok: bool)
    | Insert(row: Row)            // Issue
    | Update(id: Id, params: Params)
    | SetActive(id: Id, active: bool)
    | TouchLastUsed(id: Id)
    | Delete(id: Id)
    | FindPrefixStep(i: nat)
    | DelStep(i: nat)

  predicate Enabled(s: State, a: Action) {
    match a
    case Get(v) => v < |s.verifiers| && s.verifiers[v].GetNext?
    case GetError(v) => v < |s.verifiers| && s.verifiers[v].GetNext?
    case Select(v) => v < |s.verifiers| && s.verifiers[v].SelectNext?
    case SetAndReturn(v, _) => v < |s.verifiers| && s.verifiers[v].SetNext?
    case Insert(row) => row.key.prefix !in s.rows && !HasId(s.rows, row.key.id)
    case FindPrefixStep(i) => i < |s.invalidations| && s.invalidations[i].FindPrefix?
    case DelStep(i) => i < |s.invalidations| && s.invalidations[i].DelNext?
    case _ => true
  }

  /** validateKey on the key about to be returned. */
  function Return(plain: string, key: Key, now: Time): Verifier {
    if Validate(key, now).None? then Accepted(plain, key, now) else Refused
  }

  function AfterGet(cfg: Config, s: State, plain: string): Verifier {
    var p := PrefixOf(cfg, plain);
    if p in s.cache && Visible(s.cache[p], s.now) && s.cache[p].plain == plain
    then Return(plain, s.cache[p].key, s.now)
    else SelectNext(plain)
  }

  function AfterSelect(cfg: Config, s: State, plain: string): Verifier {
    var p := PrefixOf(cfg, plain);
    if p in s.rows && VerifyHash(cfg.argon, plain, s.rows[p].hash)
    then SetNext(plain, s.rows[p], s.now)
    else Refused
  }

  function Write(s: State, rows: Rows, id: Id): State {
    if HasId(s.rows, id) then s.(rows := rows, invalidations := s.invalidations + [FindPrefix(id)]) else s
  }

  function Effect(cfg: Config, s: State, a: Action): State
    requires Enabled(s, a)
  {
    match a
    case Tick(dt) => s.(now := s.now + dt)
    case Start(plain) =>
      s.(verifiers := s.verifiers + [if HasPrefix(plain, cfg.keyPrefix) then GetNext(plain) else Refused])
    case Get(v) => s.(verifiers := s.verifiers[v := AfterGet(cfg, s, s.verifiers[v].plain)])
    case GetError(v) => s.(verifiers := s.verifiers[v := SelectNext(s.verifiers[v].plain)])
    case Select(v) => s.(verifiers := s.verifiers[v := AfterSelect(cfg, s, s.verifiers[v].plain)])
    case SetAndReturn(v, ok) =>
      var x := s.verifiers[v];
      var entry := NewEntry(cfg, x.row.key, x.plain, s.now);
      s.(verifiers := s.verifiers[v := Return(x.plain, x.row.key, s.now)],
         cache := if ok then s.cache[PrefixOf(cfg, x.plain) := entry] else s.cache)
    case Insert(row) => s.(rows := s.rows[row.key.prefix := row])
    case Update(id, params) => Write(s, UpdateWhere(s.rows, id, SetParams(params)), id)
    case SetActive(id, active) => Write(s, UpdateWhere(s.rows, id, SetActiveFlag(active)), id)
    case TouchLastUsed(id) => s.(rows := UpdateWhere(s.rows, id, SetLastUsed(s.now)))
    case Delete(id) => Write(s, DeleteWhere(s.rows, id), id)
    case FindPrefixStep(i) =>
      var ps := PrefixesOf(s.rows, s.invalidations[i].id);
      s.(invalidations := s.invalidations[i := if ps == {} then Finished else DelNext(ps)])
    case DelStep(i) =>
      s.(cache := s.cache - s.invalidations[i].prefixes, invalidations := s.invalidations[i := Finished])
  }

  function Present(s: State): set<(Row, Time)> {
    set p | p in s.rows :: (s.rows[p], s.now)
  }

  /** A step, and the rows it leaves in the database noted in the history. */
  function Step(cfg: Config, s: State, a: Action): State
    requires Enabled(s, a)
  {
    var t := Effect(cfg, s, a);
    t.(seen := s.seen + Present(t))
  }

  predicate Init(s: State) {
    s.cache == map[] && s.verifiers == [] && s.invalidations == [] && s.seen == Present(s)
  }

  ghost predicate ValidRun(cfg: Config, s: State, run: seq<Action>)
    decreases |run|
  {
    run == [] || (Enabled(s, run[0]) && ValidRun(cfg, Step(cfg, s, run[0]), run[1..]))
  }

  ghost function Final(cfg: Config, s: State, run: seq<Action>): State
    requires ValidRun(cfg, s, run)
    decreases |run|
  {
    if run == [] then s else Final(cfg, Step(cfg, s, run[0]), run[1..])
  }

  /** A Verify that misses the cache returns within d of its SELECT. */
  predicate TimelyStep(s: State, a: Action, d: nat)
    requires Enabled(s, a)
  {
    a.SetAndReturn? ==> s.now <= s.verifiers[a.v].at + d
  }

  ghost predicate Timely(cfg: Config, s: State, run: seq<Action>, d: nat)
    requires ValidRun(cfg, s, run)
    decreases |run|
  {
    run == [] || (TimelyStep(s, run[0], d) && Timely(cfg, Step(cfg, s, run[0]), run[1..], d))
  }

  /** How long an answer can be old: the ttl, what Redis adds to it, and the time from SELECT to Set. */
  function MaxAge(cfg: Config, d: nat): int {
    cfg.ttl + cfg.linger + d
  }

  /** The key was a row of the database at some time in (after, upTo], with a hash that plain matches. */
  ghost predicate WasStored(cfg: Config, seen: set<(Row, Time)>, plain: string, key: Key, after: Time, upTo: Time) {
    exists w :: w in seen && w.0.key == key && VerifyHash(cfg.argon, plain, w.0.hash) && after < w.1 <= upTo
  }

  ghost predicate VerifierOk(cfg: Config, s: State, v: Verifier, d: nat) {
    match v
    case SetNext(plain, row, at) => (row, at) in s.seen && at <= s.now && VerifyHash(cfg.argon, plain, row.hash)
    case Accepted(plain, key, at) =>
      WasStored(cfg, s.seen, plain, key, at - MaxAge(cfg, d), at) && Validate(key, at).None? && at <= s.now
    case _ => true
  }

  /** An entry expires within MaxAge of a time at which its key was stored. */
  ghost predicate EntryOk(cfg: Config, s: State, e: CacheEntry, d: nat) {
    e.expires.Some? && WasStored(cfg, s.seen, e.plain, e.key, e.expires.value - MaxAge(cfg, d) - 1, s.now)
  }

  /** The history is of the past and has what the database has now. */
  ghost predicate HistoryOk(s: State) {
    && (forall w :: w in s.seen ==> w.1 <= s.now)
    && (forall p :: p in s.rows ==> (s.rows[p], s.now) in s.seen)
  }

  lemma HistoryStep(cfg: Config, s: State, a: Action)
    requires HistoryOk(s) && Enabled(s, a)
    ensures HistoryOk(Step(cfg, s, a))
  {
    var e := Effect(cfg, s, a);
    assert s.now <= e.now;
    forall p | p in e.rows ensures (e.rows[p], e.now) in Present(e) {}
  }

  ghost predicate Inv(cfg: Config, s: State, d: nat) {
    && HistoryOk(s)
    && (forall p :: p in s.cache ==> EntryOk(cfg, s, s.cache[p], d))
    && (forall i :: 0 <= i < |s.verifiers| ==> VerifierOk(cfg, s, s.verifiers[i], d))
  }

  lemma StoredLater(cfg: Config, seen: set<(Row, Time)>, seen': set<(Row, Time)>, plain: string, key: Key,
                    after: Time, upTo: Time, after': Time, upTo': Time)
    requires WasStored(cfg, seen, plain, key, after, upTo)
    requires seen <= seen' && after' <= after && upTo <= upTo'
    ensures WasStored(cfg, seen', plain, key, after', upTo')
  {
  }

  lemma StoredNow(cfg: Config, seen: set<(Row, Time)>, plain: string, row: Row, at: Time, after: Time, upTo: Time)
    requires (row, at) in seen && VerifyHash(cfg.argon, plain, row.hash) && after < at <= upTo
    ensures WasStored(cfg, seen, plain, row.key, after, upTo)
  {
    var w := (row, at);
    assert w in seen && w.0.key == row.key;
  }

  lemma VerifierKept(cfg: Config, s: State, t: State, v: Verifier, d: nat)
    requires VerifierOk(cfg, s, v, d) && s.seen <= t.seen && s.now <= t.now
    ensures VerifierOk(cfg, t, v, d)
  {
    if v.Accepted? {
      StoredLater(cfg, s.seen, t.seen, v.plain, v.key, v.at - MaxAge(cfg, d), v.at, v.at - MaxAge(cfg, d), v.at);
    }
  }

  lemma HitOk(cfg: Config, s: State, plain: string, d: nat)
    requires Inv(cfg, s, d)
    ensures VerifierOk(cfg, s, AfterGet(cfg, s, plain), d)
  {
    var p := PrefixOf(cfg, plain);
    if p in s.cache && Visible(s.cache[p], s.now) && s.cache[p].plain == plain {
      var e := s.cache[p];
      assert EntryOk(cfg, s, e, d);
      StoredLater(cfg, s.seen, s.seen, plain, e.key, e.expires.value - MaxAge(cfg, d) - 1, s.now, s.now - MaxAge(cfg, d), s.now);
    }
  }

  lemma SelectOk(cfg: Config, s: State, plain: string, d: nat)
    requires Inv(cfg, s, d)
    ensures VerifierOk(cfg, s, AfterSelect(cfg, s, plain), d)
  {
  }

  lemma ReturnOk(cfg: Config, s: State, v: Verifier, d: nat)
    requires VerifierOk(cfg, s, v, d) && v.SetNext? && s.now <= v.at + d && cfg.ttl > 0
    ensures VerifierOk(cfg, s, Return(v.plain, v.row.key, s.now), d)
    ensures EntryOk(cfg, s, NewEntry(cfg, v.row.key, v.plain, s.now), d)
  {
    StoredNow(cfg, s.seen, v.plain, v.row, v.at, s.now - MaxAge(cfg, d), s.now);
    StoredNow(cfg, s.seen, v.plain, v.row, v.at, s.now - d - 1, s.now);
  }

  lemma VerifiersStep(cfg: Config, s: State, a: Action, d: nat)
    requires Inv(cfg, s, d) && Enabled(s, a) && TimelyStep(s, a, d) && cfg.ttl > 0
    ensures var t := Step(cfg, s, a); forall i :: 0 <= i < |t.verifiers| ==> VerifierOk(cfg, t, t.verifiers[i], d)
  {
    var t := Step(cfg, s, a);
    forall i | 0 <= i < |t.verifiers| ensures VerifierOk(cfg, t, t.verifiers[i], d) {
      if i < |s.verifiers| {
        var v := s.verifiers[i];
        assert VerifierOk(cfg, s, v, d);
        if t.verifiers[i] != v {
          if a.Get? { HitOk(cfg, s, v.plain, d); }
          if a.Select? { SelectOk(cfg, s, v.plain, d); }
          if a.SetAndReturn? { ReturnOk(cfg, s, v, d); }
        }
        VerifierKept(cfg, s, t, t.verifiers[i], d);
      }
    }
  }

  /** Only a Verify that missed adds to the cache. */
  lemma CacheChange(cfg: Config, s: State, a: Action, p: string)
    requires Enabled(s, a) && p in Step(cfg, s, a).cache
    ensures s.now <= Step(cfg, s, a).now && s.seen <= Step(cfg, s, a).seen
    ensures var e := Step(cfg, s, a).cache[p];
      || (p in s.cache && s.cache[p] == e)
      || (a.SetAndReturn? && var v := s.verifiers[a.v]; e == NewEntry(cfg, v.row.key, v.plain, s.now))
  {
  }

  lemma EntryKept(cfg: Config, s: State, t: State, e: CacheEntry, d: nat)
    requires EntryOk(cfg, s, e, d) && s.seen <= t.seen && s.now <= t.now
    ensures EntryOk(cfg, t, e, d)
  {
    var after := e.expires.value - MaxAge(cfg, d) - 1;
    StoredLater(cfg, s.seen, t.seen, e.plain, e.key, after, s.now, after, t.now);
  }

  lemma EntriesStep(cfg: Config, s: State, a: Action, d: nat)
    requires Inv(cfg, s, d) && Enabled(s, a) && TimelyStep(s, a, d) && cfg.ttl > 0
    ensures var t := Step(cfg, s, a); forall p :: p in t.cache ==> EntryOk(cfg, t, t.cache[p], d)
  {
    var t := Step(cfg, s, a);
    forall p | p in t.cache ensures EntryOk(cfg, t, t.cache[p], d) {
      var e := t.cache[p];
      CacheChange(cfg, s, a, p);
      if p in s.cache && s.cache[p] == e {
        assert EntryOk(cfg, s, e, d);
      } else {
        assert VerifierOk(cfg, s, s.verifiers[a.v], d);
        ReturnOk(cfg, s, s.verifiers[a.v], d);
      }
      EntryKept(cfg, s, t, e, d);
    }
  }

  lemma InvStep(cfg: Config, s: State, a: Action, d: nat)
    requires Inv(cfg, s, d) && Enabled(s, a) && TimelyStep(s, a, d) && cfg.ttl > 0
    ensures Inv(cfg, Step(cfg, s, a), d)
  {
    HistoryStep(cfg, s, a);
    VerifiersStep(cfg, s, a, d);
    EntriesStep(cfg, s, a, d);
  }

  lemma {:induction false} InvRun(cfg: Config, s: State, run: seq<Action>, d: nat)
    requires Inv(cfg, s, d) && ValidRun(cfg, s, run) && Timely(cfg, s, run, d) && cfg.ttl > 0
    ensures Inv(cfg, Final(cfg, s, run), d)
    decreases |run|
  {
    if run != [] {
      InvStep(cfg, s, run[0], d);
      InvRun(cfg, Step(cfg, s, run[0]), run[1..], d);
    }
  }

  /** Verify staleness: over every interleaving, each key accepted at time `at` equals a row that was in the
      database, with a hash that the plaintext matches, after at - (ttl + d), Redis's tick apart; it was active in that row and
      not past its expiry when accepted. */
  lemma StalenessBound(cfg: Config, s: State, run: seq<Action>, d: nat, i: nat)
    requires Init(s) && ValidRun(cfg, s, run) && Timely(cfg, s, run, d) && cfg.ttl > 0
    requires i < |Final(cfg, s, run).verifiers| && Final(cfg, s, run).verifiers[i].Accepted?
    ensures var t := Final(cfg, s, run);
      var v := t.verifiers[i];
      && (exists w :: w in t.seen && w.0.key == v.key && VerifyHash(cfg.argon, v.plain, w.0.hash)
                      && v.at - (cfg.ttl + cfg.linger + d) < w.1 <= v.at)
      && v.key.active
      && (v.key.params.expiresAt.Some? ==> v.at <= v.key.params.expiresAt.value)
  {
    InvRun(cfg, s, run, d);
    var t := Final(cfg, s, run);
    assert VerifierOk(cfg, t, t.verifiers[i], d);
  }

  // ----- revocation -----

  predicate Revoked(rows: Rows, id: Id) {
    forall p :: p in rows && rows[p].key.id == id ==> !rows[p].key.active
  }

  ghost predicate StaysRevoked(cfg: Config, s: State, run: seq<Action>, id: Id)
    requires ValidRun(cfg, s, run)
    decreases |run|
  {
    Revoked(s.rows, id) && (run != [] ==> StaysRevoked(cfg, Step(cfg, s, run[0]), run[1..], id))
  }

  /** Nothing after time t0 shows the key active. */
  ghost predicate InactiveSince(seen: set<(Row, Time)>, id: Id, t0: Time) {
    forall w :: w in seen && w.1 > t0 && w.0.key.id == id ==> !w.0.key.active
  }

  lemma {:induction false} RevokedHistory(cfg: Config, s: State, run: seq<Action>, id: Id, t0: Time)
    requires ValidRun(cfg, s, run) && StaysRevoked(cfg, s, run, id) && InactiveSince(s.seen, id, t0)
    ensures InactiveSince(Final(cfg, s, run).seen, id, t0)
    decreases |run|
  {
    if run != [] {
      RevokedHistory(cfg, Step(cfg, s, run[0]), run[1..], id, t0);
    }
  }

  lemma {:induction false} RunsCompose(cfg: Config, s: State, before: seq<Action>, run: seq<Action>)
    requires ValidRun(cfg, s, before) && ValidRun(cfg, Final(cfg, s, before), run)
    ensures ValidRun(cfg, s, before + run)
    ensures Final(cfg, s, before + run) == Final(cfg, Final(cfg, s, before), run)
    decreases |before|
  {
    if before == [] {
      assert before + run == run;
    } else {
      RunsCompose(cfg, Step(cfg, s, before[0]), before[1..], run);
      assert (before + run)[1..] == before[1..] + run;
    }
  }

  /** A key deactivated, or deleted, at time t0 and left so is not accepted from t0 + ttl + d on, Redis's tick apart. */
  lemma RevokedKeyStopsBeingAccepted(cfg: Config, s: State, before: seq<Action>, after: seq<Action>, d: nat, id: Id, i: nat)
    requires Init(s) && cfg.ttl > 0
    requires ValidRun(cfg, s, before) && Timely(cfg, s, before, d)
    requires ValidRun(cfg, Final(cfg, s, before), after) && Timely(cfg, Final(cfg, s, before), after, d)
    requires StaysRevoked(cfg, Final(cfg, s, before), after, id)
    requires i < |Final(cfg, Final(cfg, s, before), after).verifiers|
    ensures var t0 := Final(cfg, s, before).now;
      var v := Final(cfg, Final(cfg, s, before), after).verifiers[i];
      v.Accepted? && v.at >= t0 + cfg.ttl + cfg.linger + d ==> v.key.id != id
  {
    var m := Final(cfg, s, before);
    InvRun(cfg, s, before, d);
    RevokedHistory(cfg, m, after, id, m.now);
    InvRun(cfg, m, after, d);
    var t := Final(cfg, m, after);
    assert VerifierOk(cfg, t, t.verifiers[i], d);
  }

  // ----- what a Verify that nobody disturbs answers -----

  lemma OneMore(cfg: Config, s: State, run: seq<Action>, t: State, a: Action) returns (run': seq<Action>, u: State)
    requires ValidRun(cfg, s, run) && Final(cfg, s, run) == t && Enabled(t, a)
    ensures u == Step(cfg, t, a) && ValidRun(cfg, s, run') && Final(cfg, s, run') == u
  {
    u := Step(cfg, t, a);
    var none: seq<Action> := [];
    assert [a][1..] == none && ValidRun(cfg, u, none);
    assert ValidRun(cfg, t, [a]) && Final(cfg, t, [a]) == u;
    RunsCompose(cfg, s, run, [a]);
    run' := run + [a];
  }

  /** A Verify past its cache lookup: it accepts exactly the key of the row that the plaintext matches, if that key
      is active and not past its expiry, and stores what it read. */
  lemma SelectAnswers(cfg: Config, s: State, v: nat, plain: string) returns (run: seq<Action>, t: State)
    requires v < |s.verifiers| && s.verifiers[v] == SelectNext(plain) && SchemaOk(s.rows)
    ensures ValidRun(cfg, s, run) && Final(cfg, s, run) == t && |t.verifiers| == |s.verifiers|
    ensures (forall p :: p in s.rows ==> !Matches(cfg, s.rows[p], plain)) ==>
      t.verifiers[v] == Refused && t.cache == s.cache
    ensures forall p :: p in s.rows && Matches(cfg, s.rows[p], plain) ==>
      && t.cache == s.cache[p := NewEntry(cfg, s.rows[p].key, plain, s.now)]
      && t.verifiers[v] == if Judged(s.rows[p].key, s.now, None) then Accepted(plain, s.rows[p].key, s.now) else Refused
  {
    var start := PrefixOf(cfg, plain);
    assert start == plain[..Min(|plain|, |cfg.keyPrefix| + 8)];
    run, t := OneMore(cfg, s, [], s, Select(v));
    if start in s.rows && Matches(cfg, s.rows[start], plain) {
      ValidateJudges(s.rows[start].key, s.now);
      run, t := OneMore(cfg, s, run, t, SetAndReturn(v, true));
    }
  }

  /** A Verify of a plaintext with the right start whose prefix is not cached goes to the database. */
  lemma MissSelects(cfg: Config, s: State, plain: string) returns (run: seq<Action>, t: State)
    requires HasPrefix(plain, cfg.keyPrefix) && PrefixOf(cfg, plain) !in s.cache
    ensures ValidRun(cfg, s, run) && Final(cfg, s, run) == t
    ensures t.verifiers == s.verifiers + [SelectNext(plain)] && t.rows == s.rows && t.now == s.now
  {
    run, t := OneMore(cfg, s, [], s, Start(plain));
    run, t := OneMore(cfg, s, run, t, Get(|s.verifiers|));
  }

  /** A good key is let in: a Verify that nobody disturbs accepts an active, unexpired row that its plaintext matches. */
  lemma GoodKeyIsAccepted(cfg: Config, s: State, plain: string, p: string) returns (run: seq<Action>)
    requires SchemaOk(s.rows) && HasPrefix(plain, cfg.keyPrefix) && PrefixOf(cfg, plain) !in s.cache
    requires p in s.rows && Matches(cfg, s.rows[p], plain)
    requires var k := s.rows[p].key;
      k.active && (k.params.expiresAt.Some? ==> s.now <= k.params.expiresAt.value)
    ensures ValidRun(cfg, s, run)
    ensures var t := Final(cfg, s, run);
      |t.verifiers| == |s.verifiers| + 1 && t.verifiers[|s.verifiers|] == Accepted(plain, s.rows[p].key, s.now)
  {
    var t, second;
    run, t := MissSelects(cfg, s, plain);
    second, t := SelectAnswers(cfg, t, |s.verifiers|, plain);
    RunsCompose(cfg, s, run, second);
    run := run + second;
  }

  /** The steps around a Verify: a key is inserted exactly under a new prefix and id; time passes; a failed lookup in
      Redis goes to the database; a failed Set does not keep Verify from answering; and the invalidation of a key
      that is gone deletes nothing. */
  lemma OtherSteps(cfg: Config, s: State, row: Row, dt: nat, i: nat)
    ensures Enabled(s, Insert(row)) <==>
      row.key.prefix !in s.rows && forall p :: p in s.rows ==> s.rows[p].key.id != row.key.id
    ensures Enabled(s, Insert(row)) ==> Step(cfg, s, Insert(row)).rows == s.rows[row.key.prefix := row]
    ensures Step(cfg, s, Tick(dt)).now == s.now + dt
    ensures i < |s.verifiers| && s.verifiers[i].GetNext? ==>
      Step(cfg, s, GetError(i)).verifiers == s.verifiers[i := SelectNext(s.verifiers[i].plain)]
    ensures i < |s.verifiers| && s.verifiers[i].SetNext? ==>
      var t, u := Step(cfg, s, SetAndReturn(i, false)), Step(cfg, s, SetAndReturn(i, true));
      t.cache == s.cache && t.verifiers == u.verifiers
    ensures i < |s.invalidations| && s.invalidations[i].FindPrefix? && !HasId(s.rows, s.invalidations[i].id) ==>
      var t := Step(cfg, s, FindPrefixStep(i));
      t.invalidations == s.invalidations[i := Finished] && t.cache == s.cache
  {
    if i < |s.invalidations| && s.invalidations[i].FindPrefix? && !HasId(s.rows, s.invalidations[i].id) {
      assert PrefixesOf(s.rows, s.invalidations[i].id) == {};
    }
  }

  /** A plaintext without the right start is refused, and every write of a key that exists is followed by an
      invalidation of that key. */
  lemma StartsAndWrites(cfg: Config, s: State, plain: string, id: Id, params: Params, active: bool)
    ensures !HasPrefix(plain, cfg.keyPrefix) ==> Step(cfg, s, Start(plain)).verifiers == s.verifiers + [Refused]
    ensures HasId(s.rows, id) ==> forall a :: a in [Update(id, params), SetActive(id, active), Delete(id)] ==>
      Step(cfg, s, a).invalidations == s.invalidations + [FindPrefix(id)]
  {
  }

  /** What Update and SetActive do to a row: to that of the key what they say, to every other nothing. */
  lemma UpdatesByRow(cfg: Config, s: State, id: Id, params: Params, active: bool, p: string)
    requires p in s.rows
    ensures var k, hash := s.rows[p].key, s.rows[p].hash;
      var updated, flagged := Step(cfg, s, Update(id, params)).rows, Step(cfg, s, SetActive(id, active)).rows;
      && p in updated && p in flagged
      && (k.id == id ==>
            && updated[p] == Row(Key(id, k.prefix, params, k.active, k.createdAt, k.lastUsedAt), hash)
            && flagged[p] == Row(Key(id, k.prefix, k.params, active, k.createdAt, k.lastUsedAt), hash))
      && (k.id != id ==> updated[p] == flagged[p] == s.rows[p])
  {
    assert s.rows[p].key.id == id ==> HasId(s.rows, id);
  }

  /** And what TouchLastUsed and Delete do. */
  lemma TouchAndDeleteByRow(cfg: Config, s: State, id: Id, p: string)
    requires p in s.rows
    ensures var k, hash := s.rows[p].key, s.rows[p].hash;
      var touched, deleted := Step(cfg, s, TouchLastUsed(id)).rows, Step(cfg, s, Delete(id)).rows;
      && p in touched && (p in deleted <==> k.id != id)
      && (k.id == id ==> touched[p] == Row(Key(id, k.prefix, k.params, k.active, k.createdAt, Some(s.now)), hash))
      && (k.id != id ==> touched[p] == deleted[p] == s.rows[p])
  {
    assert s.rows[p].key.id == id ==> HasId(s.rows, id);
  }
}
