/** The key service of internal/keys/keys.go with its verify cache, for calls that do not overlap.
    Every method is proved against a function on (rows, cache); the lemmas show that Verify with
    the cache answers as the database alone would, in every run of calls, unless a deleted key's
    entry is still cached: Delete looks up the prefix to invalidate after the row is gone. */
module KeyService {
  import opened Wrappers
  import opened Text
  import opened KeyHash
  import opened KeyModel

  datatype Store = Store(rows: Rows, cache: Cache)

  datatype Call =
    | Verify(plain: string)
    | Issue(params: Params, id: Id, random: string, salt: seq<byte>)
    | Update(id: Id, params: Params)
    | SetActive(id: Id, active: bool)
    | TouchLastUsed(id: Id)
    | Delete(id: Id)

  // ----- specification -----

  predicate Hit(cfg: Config, st: Store, plain: string, now: Time) {
    && HasPrefix(plain, cfg.keyPrefix)
    && var p := PrefixOf(cfg, plain);
       p in st.cache && Visible(st.cache[p], now) && st.cache[p].plain == plain
  }

  function VerifyOutcome(cfg: Config, st: Store, plain: string, now: Time): Outcome {
    if Hit(cfg, st, plain, now) then
      var k := st.cache[PrefixOf(cfg, plain)].key;
      Outcome(Some(k), Validate(k, now))
    else
      UncachedVerify(cfg, st.rows, plain, now)
  }

  /** A miss that finds the row stores it for the next call. */
  function VerifyStore(cfg: Config, st: Store, plain: string, now: Time): Store {
    var r := UncachedVerify(cfg, st.rows, plain, now);
    if Hit(cfg, st, plain, now) || r.key.None? then st
    else st.(cache := st.cache[PrefixOf(cfg, plain) := NewEntry(cfg, r.key.value, plain, now)])
  }

  /** invalidateCache: DEL of the prefix that the id has now. */
  function Invalidate(st: Store, id: Id): Store {
    st.(cache := st.cache - PrefixesOf(st.rows, id))
  }

  function IssuedRow(cfg: Config, params: Params, id: Id, random: string, salt: seq<byte>, now: Time): Row {
    var plain := cfg.keyPrefix + random;
    Row(Key(id, PrefixOf(cfg, plain), params, true, now, None), HashKey(cfg.argon, plain, salt))
  }

  function IssueStore(cfg: Config, st: Store, params: Params, id: Id, random: string, salt: seq<byte>, now: Time): Store {
    var row := IssuedRow(cfg, params, id, random, salt, now);
    if TrimSpace(params.owner) == "" || HasId(st.rows, id) || row.key.prefix in st.rows then st
    else st.(rows := st.rows[row.key.prefix := row])
  }

  function Do(cfg: Config, st: Store, call: Call, now: Time): Store {
    match call
    case Verify(plain) => VerifyStore(cfg, st, plain, now)
    case Issue(params, id, random, salt) => IssueStore(cfg, st, params, id, random, salt, now)
    case Update(id, params) => Invalidate(st.(rows := UpdateWhere(st.rows, id, SetParams(params))), id)
    case SetActive(id, active) => Invalidate(st.(rows := UpdateWhere(st.rows, id, SetActiveFlag(active))), id)
    case TouchLastUsed(id) => st.(rows := UpdateWhere(st.rows, id, SetLastUsed(now)))
    case Delete(id) => Invalidate(st.(rows := DeleteWhere(st.rows, id)), id)
  }

  // ----- coherence -----

  predicate SameKey(a: Key, b: Key) {
    a.(lastUsedAt := None) == b.(lastUsedAt := None)
  }

  predicate SameOutcome(a: Outcome, b: Outcome) {
    && a.err == b.err
    && (a.key.None? <==> b.key.None?)
    && (a.key.Some? ==> SameKey(a.key.value, b.key.value))
  }

  /** The entry of a key whose row is gone. */
  predicate Orphan(rows: Rows, e: CacheEntry) {
    !HasId(rows, e.key.id)
  }

  /** The entry says what the database says, last use apart. */
  ghost predicate Current(cfg: Config, rows: Rows, p: string, e: CacheEntry) {
    && p in rows && SameKey(e.key, rows[p].key)
    && HasPrefix(e.plain, cfg.keyPrefix) && PrefixOf(cfg, e.plain) == p
    && VerifyHash(cfg.argon, e.plain, rows[p].hash)
  }

  ghost predicate Coherent(cfg: Config, st: Store) {
    && SchemaOk(st.rows)
    && forall p :: p in st.cache ==> Orphan(st.rows, st.cache[p]) || Current(cfg, st.rows, p, st.cache[p])
  }

  /** A UUID just drawn is not that of a deleted key that is still cached. */
  predicate FreshId(st: Store, call: Call) {
    call.Issue? ==> forall p :: p in st.cache ==> st.cache[p].key.id != call.id
  }

  lemma UpdateKeepsCoherence(cfg: Config, st: Store, id: Id, f: Key -> Key)
    requires Coherent(cfg, st)
    requires forall k :: f(k).id == k.id && f(k).prefix == k.prefix
    ensures Coherent(cfg, Invalidate(st.(rows := UpdateWhere(st.rows, id, f)), id))
    ensures (forall k :: SameKey(f(k), k)) ==> Coherent(cfg, st.(rows := UpdateWhere(st.rows, id, f)))
  {
    var rows := UpdateWhere(st.rows, id, f);
    forall i ensures HasId(rows, i) <==> HasId(st.rows, i) {
      forall p | p in rows ensures rows[p].key.id == st.rows[p].key.id {}
    }
  }

  lemma IssueKeepsCoherence(cfg: Config, st: Store, call: Call, now: Time)
    requires Coherent(cfg, st) && FreshId(st, call) && call.Issue?
    ensures Coherent(cfg, Do(cfg, st, call, now))
  {
    var t := Do(cfg, st, call, now);
    if t != st {
      var row := IssuedRow(cfg, call.params, call.id, call.random, call.salt, now);
      forall p | p in t.cache ensures Orphan(t.rows, t.cache[p]) || Current(cfg, t.rows, p, t.cache[p]) {
        EntryAfterInsert(cfg, st.rows, row, p, st.cache[p]);
      }
    }
  }

  /** A new row under another prefix and id leaves an entry as current, or as orphaned, as it was. */
  lemma EntryAfterInsert(cfg: Config, rows: Rows, row: Row, p: string, e: CacheEntry)
    requires Orphan(rows, e) || Current(cfg, rows, p, e)
    requires row.key.prefix !in rows && e.key.id != row.key.id
    ensures var rows' := rows[row.key.prefix := row]; Orphan(rows', e) || Current(cfg, rows', p, e)
  {
    var rows' := rows[row.key.prefix := row];
    if Orphan(rows, e) {
      forall q | q in rows' ensures rows'[q].key.id != e.key.id {
        if q != row.key.prefix { assert q in rows; }
      }
    }
  }

  lemma DeleteKeepsCoherence(cfg: Config, st: Store, id: Id, now: Time)
    requires Coherent(cfg, st)
    ensures Coherent(cfg, Do(cfg, st, Delete(id), now))
  {
    var t := Do(cfg, st, Delete(id), now);
    forall p | p in t.cache ensures Orphan(t.rows, t.cache[p]) || Current(cfg, t.rows, p, t.cache[p]) {
      if Orphan(st.rows, st.cache[p]) || st.cache[p].key.id == id {
        assert Orphan(t.rows, t.cache[p]);
      } else {
        assert Current(cfg, t.rows, p, t.cache[p]);
      }
    }
  }

  lemma VerifyKeepsCoherence(cfg: Config, st: Store, plain: string, now: Time)
    requires Coherent(cfg, st)
    ensures Coherent(cfg, VerifyStore(cfg, st, plain, now))
  {
  }

  lemma CoherentStep(cfg: Config, st: Store, call: Call, now: Time)
    requires Coherent(cfg, st) && FreshId(st, call)
    ensures Coherent(cfg, Do(cfg, st, call, now))
  {
    match call
    case Verify(plain) => VerifyKeepsCoherence(cfg, st, plain, now);
    case Issue(params, id, random, salt) => IssueKeepsCoherence(cfg, st, call, now);
    case Update(id, params) => UpdateKeepsCoherence(cfg, st, id, SetParams(params));
    case SetActive(id, active) => UpdateKeepsCoherence(cfg, st, id, SetActiveFlag(active));
    case TouchLastUsed(id) => UpdateKeepsCoherence(cfg, st, id, SetLastUsed(now));
    case Delete(id) => DeleteKeepsCoherence(cfg, st, id, now);
  }

  /** The condition under which the cache answers for a key the database no longer has. */
  predicate HitsOrphan(cfg: Config, st: Store, plain: string, now: Time) {
    Hit(cfg, st, plain, now) && Orphan(st.rows, st.cache[PrefixOf(cfg, plain)])
  }

  /** Cached Verify agrees with the database lookup exactly when it does not hit a deleted key's entry;
      a wrong plaintext that shares its prefix with a cached key is among the cases that agree. */
  lemma CachedVerifyAgrees(cfg: Config, st: Store, plain: string, now: Time)
    requires Coherent(cfg, st)
    ensures SameOutcome(VerifyOutcome(cfg, st, plain, now), UncachedVerify(cfg, st.rows, plain, now))
       <==> !HitsOrphan(cfg, st, plain, now)
  {
    if Hit(cfg, st, plain, now) {
      var p := PrefixOf(cfg, plain);
      if Orphan(st.rows, st.cache[p]) {
        assert p in st.rows ==> st.rows[p].key.id != st.cache[p].key.id;
      } else {
        assert Current(cfg, st.rows, p, st.cache[p]);
      }
    }
  }

  // ----- runs -----

  datatype Event = Event(call: Call, now: Time)

  ghost function After(cfg: Config, st: Store, events: seq<Event>): Store
    decreases |events|
  {
    if events == [] then st else After(cfg, Do(cfg, st, events[0].call, events[0].now), events[1..])
  }

  ghost predicate FreshIds(cfg: Config, st: Store, events: seq<Event>)
    decreases |events|
  {
    events == [] ||
    (FreshId(st, events[0].call) && FreshIds(cfg, Do(cfg, st, events[0].call, events[0].now), events[1..]))
  }

  ghost predicate NoOrphans(st: Store) {
    forall p :: p in st.cache ==> !Orphan(st.rows, st.cache[p])
  }

  lemma SameIds(rows: Rows, id: Id, f: Key -> Key, i: Id)
    requires forall k :: f(k).id == k.id
    ensures HasId(UpdateWhere(rows, id, f), i) <==> HasId(rows, i)
  {
    var rows' := UpdateWhere(rows, id, f);
    forall p | p in rows' ensures rows'[p].key.id == rows[p].key.id {}
  }

  lemma IdsKept(cfg: Config, st: Store, call: Call, now: Time, i: Id)
    requires HasId(st.rows, i) && !call.Delete?
    ensures HasId(Do(cfg, st, call, now).rows, i)
  {
    match call
    case Update(id, params) => SameIds(st.rows, id, SetParams(params), i);
    case SetActive(id, active) => SameIds(st.rows, id, SetActiveFlag(active), i);
    case TouchLastUsed(id) => SameIds(st.rows, id, SetLastUsed(now), i);
    case Issue(params, id, random, salt) =>
      var q :| q in st.rows && st.rows[q].key.id == i;
      assert q in Do(cfg, st, call, now).rows;
    case _ =>
  }

  lemma NoOrphansStep(cfg: Config, st: Store, call: Call, now: Time)
    requires NoOrphans(st) && !call.Delete?
    ensures NoOrphans(Do(cfg, st, call, now))
  {
    var t := Do(cfg, st, call, now);
    forall p | p in t.cache ensures HasId(t.rows, t.cache[p].key.id) {
      if p in st.cache && st.cache[p] == t.cache[p] {
        IdsKept(cfg, st, call, now, t.cache[p].key.id);
      } else {
        assert p in t.rows && t.rows[p].key == t.cache[p].key;
      }
    }
  }

  lemma {:induction false} RunCoherent(cfg: Config, st: Store, events: seq<Event>)
    requires Coherent(cfg, st) && FreshIds(cfg, st, events)
    ensures Coherent(cfg, After(cfg, st, events))
    ensures NoOrphans(st) && (forall e :: e in events ==> !e.call.Delete?) ==> NoOrphans(After(cfg, st, events))
    decreases |events|
  {
    if events != [] {
      var e := events[0];
      CoherentStep(cfg, st, e.call, e.now);
      if NoOrphans(st) && !e.call.Delete? {
        NoOrphansStep(cfg, st, e.call, e.now);
      }
      RunCoherent(cfg, Do(cfg, st, e.call, e.now), events[1..]);
    }
  }

  /** Cached Verify refines uncached Verify: after any run of calls without deletion, from an empty cache,
      every Verify gives the outcome and the key of the database lookup alone. */
  lemma CachedVerifyRefinesUncached(cfg: Config, rows: Rows, events: seq<Event>, plain: string, now: Time)
    requires SchemaOk(rows) && FreshIds(cfg, Store(rows, map[]), events)
    requires forall e :: e in events ==> !e.call.Delete?
    ensures var st := After(cfg, Store(rows, map[]), events);
      SameOutcome(VerifyOutcome(cfg, st, plain, now), UncachedVerify(cfg, st.rows, plain, now))
  {
    RunCoherent(cfg, Store(rows, map[]), events);
    CachedVerifyAgrees(cfg, After(cfg, Store(rows, map[]), events), plain, now);
  }

  /** Updates and (de)activations show at once: whatever was cached, the next Verify answers with the new row. */
  lemma WritesTakeEffectAtOnce(cfg: Config, st: Store, plain: string, k: Key, t0: Time, params: Params, active: bool, now: Time)
    requires Coherent(cfg, st) && UncachedVerify(cfg, st.rows, plain, t0).key == Some(k)
    ensures var st' := Do(cfg, st, Update(k.id, params), t0);
      var k' := k.(params := params);
      VerifyOutcome(cfg, st', plain, now) == Outcome(Some(k'), Validate(k', now))
    ensures var st' := Do(cfg, st, SetActive(k.id, active), t0);
      var k' := k.(active := active);
      VerifyOutcome(cfg, st', plain, now) == Outcome(Some(k'), Validate(k', now))
  {
    var p := PrefixOf(cfg, plain);
    assert p in st.rows && st.rows[p].key == k;
    var st1 := Do(cfg, st, Update(k.id, params), t0);
    var st2 := Do(cfg, st, SetActive(k.id, active), t0);
    assert p in PrefixesOf(st1.rows, k.id) && p in PrefixesOf(st2.rows, k.id);
    assert p !in st1.cache && p !in st2.cache;
  }

  /** Deletion is really excluded: a key verified just before its deletion is still accepted after it. */
  lemma DeletedKeyStillAccepted(cfg: Config, st: Store, plain: string, t0: Time, t1: Time)
    requires Coherent(cfg, st) && t0 <= t1 && (cfg.ttl > 0 ==> t1 < t0 + cfg.ttl)
    requires !Hit(cfg, st, plain, t0)
    requires UncachedVerify(cfg, st.rows, plain, t0).key.Some? && UncachedVerify(cfg, st.rows, plain, t1).err.None?
    ensures var k := UncachedVerify(cfg, st.rows, plain, t0).key.value;
      var st' := Do(cfg, Do(cfg, st, Verify(plain), t0), Delete(k.id), t1);
      && VerifyOutcome(cfg, st', plain, t1) == Outcome(Some(k), None)
      && UncachedVerify(cfg, st'.rows, plain, t1) == Outcome(None, Some(NotFound))
  {
    var p := PrefixOf(cfg, plain);
    var k := st.rows[p].key;
    var st1 := Do(cfg, st, Verify(plain), t0);
    var st' := Do(cfg, st1, Delete(k.id), t1);
    assert p in st1.cache && st1.cache[p] == NewEntry(cfg, k, plain, t0);
    assert p !in st'.rows;
    assert PrefixesOf(st'.rows, k.id) == {};
    assert p in st'.cache;
  }

  /** In the database an issued key is found by its own plaintext, and by another exactly when that has its
      prefix and Argon2id collides on it. */
  lemma IssuedKeyIsFound(cfg: Config, st: Store, params: Params, id: Id, random: string, salt: seq<byte>,
                         t0: Time, t1: Time, other: string)
    requires Lawful(cfg.argon) && IssueStore(cfg, st, params, id, random, salt, t0) != st
    ensures var plain, row := cfg.keyPrefix + random, IssuedRow(cfg, params, id, random, salt, t0);
      var rows := IssueStore(cfg, st, params, id, random, salt, t0).rows;
      && UncachedVerify(cfg, rows, plain, t1) == Outcome(Some(row.key), Validate(row.key, t1))
      && (HasPrefix(other, cfg.keyPrefix) && PrefixOf(cfg, other) == row.key.prefix ==>
            (UncachedVerify(cfg, rows, other, t1).key.Some?
             <==> cfg.argon(other, salt, KEY_LEN) == cfg.argon(plain, salt, KEY_LEN)))
  {
    var plain := cfg.keyPrefix + random;
    assert plain[..|cfg.keyPrefix|] == cfg.keyPrefix;
    HashRoundTrip(cfg.argon, plain, other, salt);
  }

  /** An issued key verifies at once through the cache too, whoever was verified before, exactly when the cache
      does not hold this very plaintext for a key that was deleted. */
  lemma IssuedKeyVerifies(cfg: Config, st: Store, params: Params, id: Id, random: string, salt: seq<byte>,
                          t0: Time, t1: Time)
    requires Coherent(cfg, st) && FreshId(st, Issue(params, id, random, salt)) && Lawful(cfg.argon)
    requires IssueStore(cfg, st, params, id, random, salt, t0) != st
    ensures var st' := IssueStore(cfg, st, params, id, random, salt, t0);
      var plain, key := cfg.keyPrefix + random, IssuedRow(cfg, params, id, random, salt, t0).key;
      VerifyOutcome(cfg, st', plain, t1) == Outcome(Some(key), Validate(key, t1)) <==> !Hit(cfg, st, plain, t1)
  {
    IssuedKeyIsFound(cfg, st, params, id, random, salt, t0, t1, cfg.keyPrefix + random);
  }

  lemma HasIdIffPrefix(rows: Rows, id: Id)
    ensures HasId(rows, id) <==> PrefixesOf(rows, id) != {}
  {
    if HasId(rows, id) {
      var p :| p in rows && rows[p].key.id == id;
      assert p in PrefixesOf(rows, id);
    }
  }

  /** An owner is blank exactly when it is white space throughout. */
  lemma BlankExactly(owner: string)
    ensures TrimSpace(owner) == "" <==> AllSpace(owner)
  {
    TrimSpaceTrims(owner);
    if AllSpace(owner) {
      assert AllSpace("") && owner == owner + "" + "";
      TrimsUnique(owner, "", TrimSpace(owner));
    } else {
      var l, r :| AllSpace(l) && AllSpace(r) && owner == l + TrimSpace(owner) + r;
    }
  }

  lemma HashOfIssued(cfg: Config, plain: string, salt: seq<byte>)
    ensures Lawful(cfg.argon) ==> VerifyHash(cfg.argon, plain, HashKey(cfg.argon, plain, salt))
  {
    if Lawful(cfg.argon) {
      HashRoundTrip(cfg.argon, plain, plain, salt);
    }
  }

  // ----- the service -----

  class Service {
    const cfg: Config
    var rows: Rows
    var cache: Cache

    function State(): Store
      reads this
    {
      Store(rows, cache)
    }

    ghost predicate Valid()
      reads this
    {
      Coherent(cfg, State())
    }

    constructor (cfg: Config, rows: Rows)
      requires SchemaOk(rows)
      ensures Valid() && this.cfg == cfg && State() == Store(rows, map[])
    {
      this.cfg, this.rows, this.cache := cfg, rows, map[];
    }

    method VerifyKey(plain: string, now: Time) returns (r: Outcome)
      requires Valid()
      modifies this`cache
      ensures Valid() && State() == Do(cfg, old(State()), Verify(plain), now)
      ensures r == VerifyOutcome(cfg, old(State()), plain, now)
      ensures SameOutcome(r, UncachedVerify(cfg, rows, plain, now)) <==> !HitsOrphan(cfg, old(State()), plain, now)
      ensures r.key.Some? ==> Judged(r.key.value, now, r.err)
      ensures r.key.Some? ==> forall later ::
        now <= later < now + cfg.ttl && !old(Hit(cfg, State(), plain, now)) ==> Hit(cfg, State(), plain, later)
    {
      assert forall k :: Judged(k, now, Validate(k, now));
      CachedVerifyAgrees(cfg, State(), plain, now);
      CoherentStep(cfg, State(), Verify(plain), now);
      if !HasPrefix(plain, cfg.keyPrefix) {
        return Outcome(None, Some(Invalid));
      }
      var p := PrefixOf(cfg, plain);
      if p in cache && Visible(cache[p], now) && cache[p].plain == plain {
        return Outcome(Some(cache[p].key), Validate(cache[p].key, now));
      }
      if p !in rows {
        return Outcome(None, Some(NotFound));
      }
      var row := rows[p];
      if !VerifyHash(cfg.argon, plain, row.hash) {
        return Outcome(None, Some(Invalid));
      }
      cache := cache[p := NewEntry(cfg, row.key, plain, now)];
      r := Outcome(Some(row.key), Validate(row.key, now));
    }

    /** invalidateCache: the entries under the prefix that the id has now go, every other stays, and the next
        Verify of a plaintext of that key, right or wrong, is answered by the database. */
    method InvalidateCache(id: Id)
      modifies this`cache
      ensures forall p :: p in cache <==> p in old(cache) && !(p in rows && rows[p].key.id == id)
      ensures forall p :: p in cache ==> cache[p] == old(cache)[p]
      ensures forall plain, now :: PrefixOf(cfg, plain) in PrefixesOf(rows, id) ==>
        VerifyOutcome(cfg, State(), plain, now) == UncachedVerify(cfg, rows, plain, now)
    {
      cache := cache - PrefixesOf(rows, id);
    }

    method IssueKey(params: Params, id: Id, random: string, salt: seq<byte>, now: Time) returns (plain: Option<string>)
      requires Valid()
      modifies this`rows
      ensures State() == Do(cfg, old(State()), Issue(params, id, random, salt), now)
      ensures old(FreshId(State(), Issue(params, id, random, salt))) ==> Valid()
      ensures plain.Some? <==> !AllSpace(params.owner) && !HasId(old(rows), id)
                               && PrefixOf(cfg, cfg.keyPrefix + random) !in old(rows)
      ensures plain.Some? ==> plain.value == cfg.keyPrefix + random
      ensures plain.None? ==> rows == old(rows)
      ensures plain.Some? ==> var p := PrefixOf(cfg, plain.value);
        && p in rows && rows - {p} == old(rows)
        && rows[p].key == Key(id, p, params, true, now, None)
        && (Lawful(cfg.argon) ==> VerifyHash(cfg.argon, plain.value, rows[p].hash))
    {
      BlankExactly(params.owner);
      HashOfIssued(cfg, cfg.keyPrefix + random, salt);
      if FreshId(State(), Issue(params, id, random, salt)) {
        CoherentStep(cfg, State(), Issue(params, id, random, salt), now);
      }
      if TrimSpace(params.owner) == "" {
        return None;
      }
      var p := cfg.keyPrefix + random;
      var prefix := PrefixOf(cfg, p);
      if HasId(rows, id) || prefix in rows {   // primary key, unique prefix
        return None;
      }
      rows := rows[prefix := Row(Key(id, prefix, params, true, now, None), HashKey(cfg.argon, p, salt))];
      plain := Some(p);
    }

    method UpdateKey(id: Id, params: Params, ghost now: Time) returns (err: Option<KeyError>)
      requires Valid()
      modifies this
      ensures Valid() && State() == Do(cfg, old(State()), Update(id, params), now)
      ensures err == if HasId(old(rows), id) then None else Some(NotFound)
      ensures rows.Keys == old(rows).Keys
      ensures forall p :: p in rows ==> var k := old(rows)[p].key;
        rows[p] == if k.id != id then old(rows)[p]
                   else Row(Key(id, k.prefix, params, k.active, k.createdAt, k.lastUsedAt), old(rows)[p].hash)
    {
      CoherentStep(cfg, State(), Update(id, params), now);
      err := Apply(id, SetParams(params));
    }

    method SetKeyActive(id: Id, active: bool, ghost now: Time) returns (err: Option<KeyError>)
      requires Valid()
      modifies this
      ensures Valid() && State() == Do(cfg, old(State()), SetActive(id, active), now)
      ensures err == if HasId(old(rows), id) then None else Some(NotFound)
      ensures rows.Keys == old(rows).Keys
      ensures forall p :: p in rows ==> var k := old(rows)[p].key;
        rows[p] == if k.id != id then old(rows)[p]
                   else Row(Key(id, k.prefix, k.params, active, k.createdAt, k.lastUsedAt), old(rows)[p].hash)
    {
      CoherentStep(cfg, State(), SetActive(id, active), now);
      err := Apply(id, SetActiveFlag(active));
    }

    /** The shape SetActive and Update share: the statement, the rows-affected test, the invalidation. */
    method Apply(id: Id, f: Key -> Key) returns (err: Option<KeyError>)
      requires forall k :: f(k).id == k.id
      modifies this
      ensures State() == Invalidate(old(State()).(rows := UpdateWhere(old(rows), id, f)), id)
      ensures err == if HasId(old(rows), id) then None else Some(NotFound)
    {
      var affected := PrefixesOf(rows, id);
      HasIdIffPrefix(rows, id);
      rows := UpdateWhere(rows, id, f);
      if affected == {} {
        assert PrefixesOf(rows, id) == {};
        return Some(NotFound);
      }
      InvalidateCache(id);
      assert State().cache == Invalidate(old(State()).(rows := UpdateWhere(old(rows), id, f)), id).cache;
      err := None;
    }

    method DeleteKey(id: Id, ghost now: Time) returns (err: Option<KeyError>)
      requires Valid()
      modifies this
      ensures Valid() && State() == Do(cfg, old(State()), Delete(id), now)
      ensures err == if HasId(old(rows), id) then None else Some(NotFound)
      ensures cache == old(cache)
      ensures forall p :: p in rows <==> p in old(rows) && old(rows)[p].key.id != id
      ensures forall p :: p in rows ==> rows[p] == old(rows)[p]
    {
      CoherentStep(cfg, State(), Delete(id), now);
      var found := HasId(rows, id);
      rows := DeleteWhere(rows, id);
      assert PrefixesOf(rows, id) == {};
      if !found {
        return Some(NotFound);
      }
      InvalidateCache(id);
      assert cache == old(cache);
      err := None;
    }

    method Touch(id: Id, now: Time)
      requires Valid()
      modifies this`rows
      ensures Valid() && State() == Do(cfg, old(State()), TouchLastUsed(id), now)
      ensures rows.Keys == old(rows).Keys
      ensures forall p :: p in rows ==> var k := old(rows)[p].key;
        rows[p] == if k.id != id then old(rows)[p]
                   else Row(Key(id, k.prefix, k.params, k.active, k.createdAt, Some(now)), old(rows)[p].hash)
    {
      CoherentStep(cfg, State(), TouchLastUsed(id), now);
      rows := UpdateWhere(rows, id, SetLastUsed(now));
    }
  }
}
