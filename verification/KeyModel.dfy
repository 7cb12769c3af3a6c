/** API keys, their api_keys rows and the lookup that Verify performs without its cache
    (internal/keys/keys.go). */
module KeyModel {
  import opened Wrappers
  import opened Text
  import opened KeyHash

  type Id = nat   // a UUID

  /** A point in time, in nanoseconds. */
  type Time = int

  datatype Params = Params(owner: string, note: string, expiresAt: Option<Time>,
                           rpmLimit: Option<int>, tokenQuota: Option<int>, dollarQuota: Option<real>)

  datatype Key = Key(id: Id, prefix: string, params: Params, active: bool, createdAt: Time, lastUsedAt: Option<Time>)

  datatype Row = Row(key: Key, hash: string)

  /** api_keys, by its unique prefix column. */
  type Rows = map<string, Row>

  /** A "verify:<prefix>" entry in Redis, visible until `expires`, or for good. */
  datatype CacheEntry = CacheEntry(key: Key, plain: string, expires: Option<Time>)

  type Cache = map<string, CacheEntry>

  datatype KeyError = NotFound | Invalid | Inactive | Expired

  /** The pair that Verify returns; a key may come with an error. */
  datatype Outcome = Outcome(key: Option<Key>, err: Option<KeyError>)

  /** `linger` is how long past its expiry Redis may still serve an entry: its clock counts milliseconds. */
  datatype Config = Config(keyPrefix: string, argon: Argon, ttl: int, linger: nat)

  /** The entry that a SET with the ttl leaves; a ttl that is not positive means no expiry. */
  function NewEntry(cfg: Config, key: Key, plain: string, now: Time): CacheEntry {
    CacheEntry(key, plain, if cfg.ttl > 0 then Some(now + cfg.ttl + cfg.linger) else None)
  }

  predicate Visible(e: CacheEntry, now: Time) {
    e.expires.None? || now < e.expires.value
  }

  const PREFIX_CHARS := 8

  function PrefixOf(cfg: Config, plain: string): string {
    var cut := |cfg.keyPrefix| + PREFIX_CHARS;
    if |plain| < cut then plain else plain[..cut]
  }

  function Validate(k: Key, now: Time): Option<KeyError> {
    if !k.active then Some(Inactive)
    else if k.params.expiresAt.Some? && k.params.expiresAt.value < now then Some(Expired)
    else None
  }

  /** What a verdict on a key means: no error exactly for an active key that has no expiry or is not past it. */
  predicate Judged(k: Key, now: Time, err: Option<KeyError>) {
    var past := k.params.expiresAt.Some? && now > k.params.expiresAt.value;
    && (err == None <==> k.active && !past)
    && (err == Some(Inactive) <==> !k.active)
    && (err == Some(Expired) <==> k.active && past)
  }

  lemma ValidateJudges(k: Key, now: Time)
    ensures Judged(k, now, Validate(k, now))
  {
  }

  /** An entry stored with a positive ttl is visible at least that long, and not longer than Redis adds to it;
      one stored with any other ttl stays. */
  lemma EntryLives(cfg: Config, k: Key, plain: string, stored: Time, now: Time)
    ensures var e := NewEntry(cfg, k, plain, stored);
      && e.key == k && e.plain == plain
      && (now < stored + cfg.ttl || cfg.ttl <= 0 ==> Visible(e, now))
      && (now >= stored + cfg.ttl + cfg.linger && cfg.ttl > 0 ==> !Visible(e, now))
  {
  }

  /** The database lookup alone. */
  function UncachedVerify(cfg: Config, rows: Rows, plain: string, now: Time): Outcome {
    if !HasPrefix(plain, cfg.keyPrefix) then Outcome(None, Some(Invalid))
    else
      var p := PrefixOf(cfg, plain);
      if p !in rows then Outcome(None, Some(NotFound))
      else if !VerifyHash(cfg.argon, plain, rows[p].hash) then Outcome(None, Some(Invalid))
      else Outcome(Some(rows[p].key), Validate(rows[p].key, now))
  }

  /** The prefix column of the row is the start of the plaintext. */
  predicate StartsAs(cfg: Config, row: Row, plain: string) {
    row.key.prefix == plain[..Min(|plain|, |cfg.keyPrefix| + 8)]
  }

  predicate Matches(cfg: Config, row: Row, plain: string) {
    StartsAs(cfg, row, plain) && VerifyHash(cfg.argon, plain, row.hash)
  }

  /** What the lookup means: the key of the row whose prefix column is the start of the plaintext and whose hash
      the plaintext matches, judged; else an error that says what is wrong. */
  lemma LookupMeans(cfg: Config, rows: Rows, plain: string, now: Time)
    requires SchemaOk(rows)
    ensures var r, ours := UncachedVerify(cfg, rows, plain, now), HasPrefix(plain, cfg.keyPrefix);
      && (r.key.Some? <==> ours && exists p :: p in rows && Matches(cfg, rows[p], plain))
      && (forall p :: p in rows && ours && Matches(cfg, rows[p], plain) ==> r.key == Some(rows[p].key))
      && (r.key.Some? ==> Judged(r.key.value, now, r.err))
      && (r.err == Some(NotFound) <==> ours && forall p :: p in rows ==> !StartsAs(cfg, rows[p], plain))
      && (r.key.None? && r.err != Some(NotFound) ==> r.err == Some(Invalid))
  {
    var p := PrefixOf(cfg, plain);
    assert p == plain[..Min(|plain|, |cfg.keyPrefix| + 8)];
    if p in rows {
      ValidateJudges(rows[p].key, now);
      assert rows[p].key.prefix == p;
    }
  }

  predicate HasId(rows: Rows, id: Id) {
    exists p :: p in rows && rows[p].key.id == id
  }

  /** UPDATE api_keys SET ... WHERE id = $1, as a change to the key of every matching row. */
  function UpdateWhere(rows: Rows, id: Id, f: Key -> Key): Rows {
    map p | p in rows :: if rows[p].key.id == id then rows[p].(key := f(rows[p].key)) else rows[p]
  }

  function SetParams(params: Params): Key -> Key {
    (k: Key) => k.(params := params)
  }

  function SetActiveFlag(active: bool): Key -> Key {
    (k: Key) => k.(active := active)
  }

  function SetLastUsed(now: Time): Key -> Key {
    (k: Key) => k.(lastUsedAt := Some(now))
  }

  function DeleteWhere(rows: Rows, id: Id): Rows {
    map p | p in rows && rows[p].key.id != id :: rows[p]
  }

  /** SELECT prefix FROM api_keys WHERE id = $1 */
  function PrefixesOf(rows: Rows, id: Id): set<string> {
    set p | p in rows && rows[p].key.id == id
  }

  /** What the schema guarantees: the map key is the prefix column, and ids are unique. */
  ghost predicate SchemaOk(rows: Rows) {
    && (forall p :: p in rows ==> rows[p].key.prefix == p)
    && (forall p, q :: p in rows && q in rows && rows[p].key.id == rows[q].key.id ==> p == q)
  }
}
