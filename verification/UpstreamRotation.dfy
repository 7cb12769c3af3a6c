/** Upstream key rotation across replicas: overlapping Set transactions at READ COMMITTED against the
    partial unique index, and refreshes that publish what they read (internal/keys/upstream.go). */
module UpstreamRotation {
  import opened Wrappers
  import opened Text
  import opened UpstreamModel

  /** A Set transaction.  `began` is what now() gives in all of it; `snapshot` what its UPDATE saw as active
      when that statement began; `retire` the rows it retires, which stay locked until it ends. */
  datatype Tx =
    | UpdateNext(enc: string, began: int)
    | Waiting(enc: string, began: int, snapshot: set<nat>)
    | Updated(enc: string, began: int, retire: set<nat>)
    | Inserted(enc: string, began: int, retire: set<nat>)
    | Committed
    | RolledBack

  /** A refresh of one replica; `rowsSeen` is how many Sets had committed at its SELECT. */
  datatype Refresh =
    | SelectNext(replica: nat)
    | StoreNext(replica: nat, enc: string, row: nat, rowsSeen: nat)
    | RefreshDone

  /** A published key; `row` and `rowsSeen` are history. */
  datatype Snapshot = Snapshot(plain: string, row: nat, rowsSeen: nat)

  datatype State = State(now: int, rows: seq<Row>, txs: seq<Tx>, refreshes: seq<Refresh>, current: seq<Option<Snapshot>>)

  datatype Action =
    | Tick(dt: nat)
    | StartSet(raw: string, nonce: string)
    | BeginUpdate(t: nat)
    | FinishUpdate(t: nat)
    | Insert(t: nat)
    | Commit(t: nat)
    | Rollback(t: nat)
    | StartRefresh(replica: nat)
    | SelectRow(f: nat, row: nat)
    | SelectNone(f: nat)
    | Publish(f: nat)
    | RefreshFail(f: nat)

  function Locks(x: Tx): set<nat> {
    if x.Updated? || x.Inserted? then x.retire else {}
  }

  function ActiveRows(rows: seq<Row>): set<nat> {
    set i | 0 <= i < |rows| && rows[i].active
  }

  predicate Enabled(g: Aead, s: State, a: Action) {
    match a
    case Tick(_) => true
    case StartSet(_, nonce) => |nonce| == g.nonceSize
    case BeginUpdate(t) => t < |s.txs| && s.txs[t].UpdateNext?
    case FinishUpdate(t) =>
      // the UPDATE waits for the row locks of other transactions
      t < |s.txs| && s.txs[t].Waiting?
      && forall u :: 0 <= u < |s.txs| && u != t ==> Locks(s.txs[u]) !! s.txs[t].snapshot
    case Insert(t) =>
      // the index entry waits for an uncommitted insert, and for an uncommitted retirement of the active row
      t < |s.txs| && s.txs[t].Updated?
      && forall u :: 0 <= u < |s.txs| && u != t ==> !s.txs[u].Inserted? && Locks(s.txs[u]) == {}
    case Commit(t) => t < |s.txs| && s.txs[t].Inserted?
    case Rollback(t) => t < |s.txs| && !s.txs[t].Committed?
    case StartRefresh(c) => c < |s.current|
    case SelectRow(f, row) => f < |s.refreshes| && s.refreshes[f].SelectNext? && row in ActiveRows(s.rows)
    case SelectNone(f) => f < |s.refreshes| && s.refreshes[f].SelectNext? && ActiveRows(s.rows) == {}
    case Publish(f) => f < |s.refreshes| && s.refreshes[f].StoreNext? && s.refreshes[f].replica < |s.current|
    case RefreshFail(f) => f < |s.refreshes|
  }

  function Step(g: Aead, s: State, a: Action): State
    requires Enabled(g, s, a)
  {
    match a
    case Tick(dt) => s.(now := s.now + dt)
    case StartSet(raw, nonce) =>
      var plain := Accept(raw);
      if plain.None? then s else s.(txs := s.txs + [UpdateNext(Encrypt(g, nonce, plain.value), s.now)])
    case BeginUpdate(t) => s.(txs := s.txs[t := Waiting(s.txs[t].enc, s.txs[t].began, ActiveRows(s.rows))])
    case FinishUpdate(t) =>
      // the rows it waited for are checked again: those no longer active are skipped
      s.(txs := s.txs[t := Updated(s.txs[t].enc, s.txs[t].began, s.txs[t].snapshot * ActiveRows(s.rows))])
    case Insert(t) =>
      // an active row that this transaction did not retire violates the unique index
      s.(txs := s.txs[t :=
        if ActiveRows(s.rows) <= s.txs[t].retire then Inserted(s.txs[t].enc, s.txs[t].began, s.txs[t].retire) else RolledBack])
    case Commit(t) =>
      s.(rows := Rotated(s.rows, s.txs[t].retire, s.txs[t].enc, s.txs[t].began), txs := s.txs[t := Committed])
    case Rollback(t) => s.(txs := s.txs[t := RolledBack])
    case StartRefresh(c) => s.(refreshes := s.refreshes + [SelectNext(c)])
    case SelectRow(f, row) =>
      s.(refreshes := s.refreshes[f := StoreNext(s.refreshes[f].replica, s.rows[row].enc, row, |s.rows|)])
    case SelectNone(f) => s.(refreshes := s.refreshes[f := RefreshDone])
    case Publish(f) =>
      var x := s.refreshes[f];
      var plain := Decrypt(g, x.enc);
      var t := s.(refreshes := s.refreshes[f := RefreshDone]);
      if plain.None? then t
      else t.(current := s.current[x.replica := Some(Snapshot(plain.value, x.row, x.rowsSeen))])
    case RefreshFail(f) => s.(refreshes := s.refreshes[f := RefreshDone])
  }

  ghost predicate ValidRun(g: Aead, s: State, run: seq<Action>)
    decreases |run|
  {
    run == [] || (Enabled(g, s, run[0]) && ValidRun(g, Step(g, s, run[0]), run[1..]))
  }

  ghost function Final(g: Aead, s: State, run: seq<Action>): State
    requires ValidRun(g, s, run)
    decreases |run|
  {
    if run == [] then s else Final(g, Step(g, s, run[0]), run[1..])
  }

  /** An empty table and replicas that have published nothing. */
  predicate Init(s: State) {
    s.rows == [] && s.txs == [] && s.refreshes == [] && forall c :: 0 <= c < |s.current| ==> s.current[c] == None
  }

  // ----- transactions -----

  ghost predicate TxOk(g: Aead, s: State, t: nat)
    requires t < |s.txs|
  {
    var x := s.txs[t];
    && (x.UpdateNext? || x.Waiting? || x.Updated? || x.Inserted? ==> GoodBlob(g, x.enc))
    && Locks(x) <= ActiveRows(s.rows)
    && (x.Inserted? ==> ActiveRows(s.rows) <= x.retire)
  }

  /** Nobody else holds a lock or has an uncommitted insert. */
  ghost predicate Alone(s: State, t: nat) {
    forall u :: 0 <= u < |s.txs| && u != t ==> !s.txs[u].Inserted? && Locks(s.txs[u]) == {}
  }

  ghost predicate RotationInv(g: Aead, s: State) {
    && TableOk(g, s.rows)
    && (forall t :: 0 <= t < |s.txs| ==> TxOk(g, s, t))
    && (forall t :: 0 <= t < |s.txs| && s.txs[t].Inserted? ==> Alone(s, t))
  }

  lemma CommitStep(g: Aead, s: State, t: nat)
    requires RotationInv(g, s) && Enabled(g, s, Commit(t))
    ensures RotationInv(g, Step(g, s, Commit(t)))
  {
    var s' := Step(g, s, Commit(t));
    assert TxOk(g, s, t) && Alone(s, t);
    forall i | 0 <= i < |s.rows| && s.rows[i].active ensures i in s.txs[t].retire {
      assert i in ActiveRows(s.rows);
    }
    RotateKeepsTable(g, s.rows, s.txs[t].retire, s.txs[t].enc, s.txs[t].began);
    forall u | 0 <= u < |s'.txs| ensures TxOk(g, s', u) && !s'.txs[u].Inserted? {
      assert TxOk(g, s, u);
    }
  }

  lemma FinishUpdateStep(g: Aead, s: State, t: nat)
    requires RotationInv(g, s) && Enabled(g, s, FinishUpdate(t))
    ensures RotationInv(g, Step(g, s, FinishUpdate(t)))
  {
    var s' := Step(g, s, FinishUpdate(t));
    forall u | 0 <= u < |s'.txs| ensures TxOk(g, s', u) {
      assert TxOk(g, s, u);
    }
    forall u | 0 <= u < |s'.txs| && s'.txs[u].Inserted? ensures Alone(s', u) {
      assert Alone(s, u) && TxOk(g, s, u);
      assert ActiveRows(s.rows) <= Locks(s.txs[u]);
      assert s'.txs[t].retire == {};
    }
  }

  lemma OtherTxStep(g: Aead, s: State, a: Action)
    requires RotationInv(g, s) && Enabled(g, s, a) && Lawful(g) && !a.Commit? && !a.FinishUpdate?
    ensures RotationInv(g, Step(g, s, a))
  {
    var s' := Step(g, s, a);
    if a.StartSet? && Accept(a.raw).Some? {
      DecryptEncrypt(g, a.nonce, Accept(a.raw).value);
    }
    forall u | 0 <= u < |s'.txs| ensures TxOk(g, s', u) {
      if u < |s.txs| { assert TxOk(g, s, u); }
    }
    forall u | 0 <= u < |s'.txs| && s'.txs[u].Inserted? ensures Alone(s', u) {
      if s.txs[u].Inserted? { assert Alone(s, u); }
    }
  }

  lemma RotationStep(g: Aead, s: State, a: Action)
    requires RotationInv(g, s) && Enabled(g, s, a) && Lawful(g)
    ensures RotationInv(g, Step(g, s, a))
  {
    match a
    case Commit(t) => CommitStep(g, s, t);
    case FinishUpdate(t) => FinishUpdateStep(g, s, t);
    case _ => OtherTxStep(g, s, a);
  }

  /** The blobs of existing rows never change, and no row goes away. */
  ghost predicate Extends(before: seq<Row>, after: seq<Row>) {
    |before| <= |after| && forall i :: 0 <= i < |before| ==> after[i].enc == before[i].enc
  }

  lemma {:induction false} RotationRun(g: Aead, s: State, run: seq<Action>)
    requires RotationInv(g, s) && ValidRun(g, s, run) && Lawful(g)
    ensures RotationInv(g, Final(g, s, run))
    ensures Extends(s.rows, Final(g, s, run).rows)
    decreases |run|
  {
    if run != [] {
      RotationStep(g, s, run[0]);
      assert Extends(s.rows, Step(g, s, run[0]).rows);
      RotationRun(g, Step(g, s, run[0]), run[1..]);
    }
  }

  /** Rotation safety, over every interleaving of Set transactions: at most one row is active, exactly one once
      a Set has committed, every other row has its retirement time, and no row is ever removed. */
  lemma RotationSafety(g: Aead, s: State, before: seq<Action>, after: seq<Action>)
    requires Lawful(g) && Init(s) && ValidRun(g, s, before) && ValidRun(g, Final(g, s, before), after)
    ensures var m := Final(g, s, before).rows;
      var t := Final(g, Final(g, s, before), after).rows;
      && Extends(m, t)
      && (t == [] || ActiveRows(t) == {|t| - 1})
      && (forall i :: 0 <= i < |t| && !t[i].active ==> t[i].retiredAt.Some?)
  {
    RotationRun(g, s, before);
    RotationRun(g, Final(g, s, before), after);
    var t := Final(g, Final(g, s, before), after).rows;
    if t != [] {
      assert t[|t| - 1].active;
      assert forall i :: i in ActiveRows(t) <==> i == |t| - 1;
    }
  }

  /** Of two Sets that are both past their UPDATE, the index lets one insert: once it has committed, the other's
      INSERT rolls back and changes nothing. */
  lemma SecondInsertRollsBack(g: Aead, s: State, t: nat, u: nat)
    requires RotationInv(g, s) && Lawful(g) && t != u
    requires Enabled(g, s, Insert(t)) && u < |s.txs| && s.txs[u].Updated?
    requires Step(g, s, Insert(t)).txs[t].Inserted?
    ensures var s2 := Step(g, Step(g, s, Insert(t)), Commit(t));
      && Enabled(g, s2, Insert(u))
      && Step(g, s2, Insert(u)) == s2.(txs := s2.txs[u := RolledBack])
  {
    var s1 := Step(g, s, Insert(t));
    var s2 := Step(g, s1, Commit(t));
    RotationStep(g, s, Insert(t));
    RotationStep(g, s1, Commit(t));
    assert Alone(s1, t);
    assert Locks(s.txs[u]) == {};
    assert s2.rows[|s.rows|].active;
    assert |s.rows| in ActiveRows(s2.rows);
  }

  // ----- published keys -----

  /** The key published is that of the row which was active, hence newest, at the refresh's SELECT. */
  ghost predicate SnapshotOk(g: Aead, rows: seq<Row>, x: Snapshot) {
    && x.row + 1 == x.rowsSeen <= |rows|
    && Decrypt(g, rows[x.row].enc) == Some(x.plain) && HasPrefix(x.plain, "sk-")
  }

  ghost predicate RefreshOk(rows: seq<Row>, x: Refresh) {
    x.StoreNext? ==> x.row + 1 == x.rowsSeen <= |rows| && rows[x.row].enc == x.enc
  }

  ghost predicate SnapshotInv(g: Aead, s: State) {
    && RotationInv(g, s)
    && (forall f :: 0 <= f < |s.refreshes| ==> RefreshOk(s.rows, s.refreshes[f]))
    && (forall c :: 0 <= c < |s.current| && s.current[c].Some? ==> SnapshotOk(g, s.rows, s.current[c].value))
  }

  lemma SnapshotStep(g: Aead, s: State, a: Action)
    requires SnapshotInv(g, s) && Enabled(g, s, a) && Lawful(g)
    ensures SnapshotInv(g, Step(g, s, a))
    ensures |Step(g, s, a).current| == |s.current|
    ensures forall c :: 0 <= c < |s.current| && s.current[c].Some? ==> Step(g, s, a).current[c].Some?
  {
    var s' := Step(g, s, a);
    RotationStep(g, s, a);
    assert Extends(s.rows, s'.rows);
    forall f | 0 <= f < |s'.refreshes| ensures RefreshOk(s'.rows, s'.refreshes[f]) {
      if f < |s.refreshes| { assert RefreshOk(s.rows, s.refreshes[f]); }
    }
    forall c | 0 <= c < |s'.current| && s'.current[c].Some? ensures SnapshotOk(g, s'.rows, s'.current[c].value) {
      if s'.current[c] != s.current[c] {
        assert RefreshOk(s.rows, s.refreshes[a.f]);
        assert GoodBlob(g, s.rows[s.refreshes[a.f].row].enc);
      } else {
        assert SnapshotOk(g, s.rows, s.current[c].value);
      }
    }
  }

  lemma {:induction false} SnapshotRun(g: Aead, s: State, run: seq<Action>)
    requires SnapshotInv(g, s) && ValidRun(g, s, run) && Lawful(g)
    ensures SnapshotInv(g, Final(g, s, run))
    ensures |Final(g, s, run).current| == |s.current|
    ensures forall c :: 0 <= c < |s.current| && s.current[c].Some? ==> Final(g, s, run).current[c].Some?
    decreases |run|
  {
    if run != [] {
      SnapshotStep(g, s, run[0]);
      SnapshotRun(g, Step(g, s, run[0]), run[1..]);
    }
  }

  /** Snapshot safety, over every interleaving of Sets, refreshes and failures: what a replica publishes is the
      plaintext of the row that was newest at the publishing refresh's SELECT, starts with "sk-", and once a
      key is published the replica never goes back to none. */
  lemma SnapshotSafety(g: Aead, s: State, before: seq<Action>, after: seq<Action>, c: nat)
    requires Lawful(g) && Init(s) && ValidRun(g, s, before) && ValidRun(g, Final(g, s, before), after)
    requires c < |Final(g, s, before).current| && Final(g, s, before).current[c].Some?
    ensures var t := Final(g, Final(g, s, before), after);
      && c < |t.current| && t.current[c].Some?
      && var x := t.current[c].value;
         && x.plain != "" && HasPrefix(x.plain, "sk-")
         && x.row + 1 == x.rowsSeen <= |t.rows| && Decrypt(g, t.rows[x.row].enc) == Some(x.plain)
  {
    SnapshotRun(g, s, before);
    SnapshotRun(g, Final(g, s, before), after);
    var t := Final(g, Final(g, s, before), after);
    assert SnapshotOk(g, t.rows, t.current[c].value);
  }

  // ----- propagation -----

  /** No refresh of replica c with an earlier SELECT is still to publish. */
  ghost predicate NoStaleRefresh(s: State, c: nat) {
    forall f :: 0 <= f < |s.refreshes| && s.refreshes[f].StoreNext? && s.refreshes[f].replica == c
      ==> s.refreshes[f].row + 1 == |s.rows|
  }

  ghost predicate Newest(s: State, c: nat) {
    c < |s.current| && s.current[c].Some? && s.current[c].value.row + 1 == |s.rows|
  }

  lemma FreshStep(g: Aead, s: State, a: Action, c: nat)
    requires SnapshotInv(g, s) && Enabled(g, s, a) && !a.Commit? && NoStaleRefresh(s, c)
    ensures NoStaleRefresh(Step(g, s, a), c)
    ensures Newest(s, c) ==> Newest(Step(g, s, a), c)
    ensures a.Publish? && s.refreshes[a.f].replica == c ==> Newest(Step(g, s, a), c)
  {
    if a.Publish? {
      assert RefreshOk(s.rows, s.refreshes[a.f]);
      assert GoodBlob(g, s.rows[s.refreshes[a.f].row].enc);
    }
  }

  /** After the last commit, if no refresh with an earlier SELECT is pending, the first refresh that completes
      gives the replica the newest key, and it keeps it. */
  lemma {:induction false} RefreshCatchesUp(g: Aead, s: State, run: seq<Action>, c: nat)
    requires SnapshotInv(g, s) && ValidRun(g, s, run) && Lawful(g) && NoStaleRefresh(s, c)
    requires forall a :: a in run ==> !a.Commit?
    requires Newest(s, c) || PublishesTo(g, s, run, c)
    ensures Newest(Final(g, s, run), c)
    decreases |run|
  {
    if run != [] {
      FreshStep(g, s, run[0], c);
      SnapshotStep(g, s, run[0]);
      RefreshCatchesUp(g, Step(g, s, run[0]), run[1..], c);
    }
  }

  /** Some refresh of replica c completes in the run. */
  ghost predicate PublishesTo(g: Aead, s: State, run: seq<Action>, c: nat)
    requires ValidRun(g, s, run)
    decreases |run|
  {
    && run != []
    && ((run[0].Publish? && s.refreshes[run[0].f].replica == c) || PublishesTo(g, Step(g, s, run[0]), run[1..], c))
  }

  // ----- what may go wrong -----

  /** A transaction that has not committed may fail at any time, and then has changed nothing; so may a refresh;
      one that finds no active row publishes nothing; and time may pass at any time. */
  lemma FailuresChangeNothing(g: Aead, s: State, i: nat, dt: nat)
    ensures i < |s.txs| && s.txs[i] != Committed ==>
      Enabled(g, s, Rollback(i)) && Step(g, s, Rollback(i)) == s.(txs := s.txs[i := RolledBack])
    ensures i < |s.refreshes| ==>
      Enabled(g, s, RefreshFail(i)) && Step(g, s, RefreshFail(i)) == s.(refreshes := s.refreshes[i := RefreshDone])
    ensures i < |s.refreshes| && s.refreshes[i].SelectNext? ==>
      (Enabled(g, s, SelectNone(i)) <==> forall r :: 0 <= r < |s.rows| ==> !s.rows[r].active)
    ensures Enabled(g, s, SelectNone(i)) ==>
      Step(g, s, SelectNone(i)) == s.(refreshes := s.refreshes[i := RefreshDone])
    ensures Enabled(g, s, Tick(dt)) && Step(g, s, Tick(dt)) == s.(now := s.now + dt)
    ensures Enabled(g, s, StartRefresh(i)) <==> i < |s.current|
  {
    assert (forall r :: 0 <= r < |s.rows| ==> !s.rows[r].active) <==> ActiveRows(s.rows) == {} by {
      assert forall r :: r in ActiveRows(s.rows) <==> 0 <= r < |s.rows| && s.rows[r].active;
    }
  }

  // ----- a Set that nobody disturbs -----

  lemma {:induction false} RunsCompose(g: Aead, s: State, first: seq<Action>, second: seq<Action>)
    requires ValidRun(g, s, first) && ValidRun(g, Final(g, s, first), second)
    ensures ValidRun(g, s, first + second)
    ensures Final(g, s, first + second) == Final(g, Final(g, s, first), second)
    decreases |first|
  {
    if first == [] {
      assert first + second == second;
    } else {
      RunsCompose(g, Step(g, s, first[0]), first[1..], second);
      assert (first + second)[1..] == first[1..] + second;
    }
  }

  lemma OneMore(g: Aead, s: State, run: seq<Action>, t: State, a: Action) returns (run': seq<Action>, u: State)
    requires ValidRun(g, s, run) && Final(g, s, run) == t && Enabled(g, t, a)
    ensures u == Step(g, t, a) && ValidRun(g, s, run') && Final(g, s, run') == u
  {
    u := Step(g, t, a);
    var none: seq<Action> := [];
    assert [a][1..] == none && ValidRun(g, u, none);
    assert ValidRun(g, t, [a]) && Final(g, t, [a]) == u;
    RunsCompose(g, s, run, [a]);
    run' := run + [a];
  }

  ghost predicate Quiet(s: State) {
    forall t :: 0 <= t < |s.txs| ==> s.txs[t].Committed? || s.txs[t].RolledBack?
  }

  /** Its transaction, from the UPDATE to the row that it leaves. */
  lemma SetAloneCommits(g: Aead, s: State, raw: string, key: string, nonce: string)
    returns (run: seq<Action>, t: State)
    requires Quiet(s) && Offers(raw, key) && |nonce| == g.nonceSize
    ensures ValidRun(g, s, run) && Final(g, s, run) == t
    ensures t.rows == Rotated(s.rows, ActiveRows(s.rows), Encrypt(g, nonce, key), s.now)
    ensures t.refreshes == s.refreshes && t.current == s.current
  {
    AcceptTakesTheOffer(raw);
    var n, active := |s.txs|, ActiveRows(s.rows);
    run, t := OneMore(g, s, [], s, StartSet(raw, nonce));
    assert t.txs[n] == UpdateNext(Encrypt(g, nonce, key), s.now);
    run, t := OneMore(g, s, run, t, BeginUpdate(n));
    assert t.txs[n] == Waiting(Encrypt(g, nonce, key), s.now, active);
    run, t := OneMore(g, s, run, t, FinishUpdate(n));
    assert active * active == active;
    assert t.txs[n] == Updated(Encrypt(g, nonce, key), s.now, active);
    run, t := OneMore(g, s, run, t, Insert(n));
    assert t.txs[n] == Inserted(Encrypt(g, nonce, key), s.now, active);
    run, t := OneMore(g, s, run, t, Commit(n));
  }

  /** A refresh that reads the active row publishes what it opens to. */
  lemma RefreshAlonePublishes(g: Aead, s: State, c: nat, row: nat, key: string)
    returns (run: seq<Action>, t: State)
    requires c < |s.current| && row in ActiveRows(s.rows) && Decrypt(g, s.rows[row].enc) == Some(key)
    ensures ValidRun(g, s, run) && Final(g, s, run) == t
    ensures t.current == s.current[c := Some(Snapshot(key, row, |s.rows|))] && t.rows == s.rows
  {
    var f := |s.refreshes|;
    run, t := OneMore(g, s, [], s, StartRefresh(c));
    run, t := OneMore(g, s, run, t, SelectRow(f, row));
    run, t := OneMore(g, s, run, t, Publish(f));
  }

  /** Rotation does happen: from any state in which no transaction is under way, a Set and a refresh after it end
      with the whole key offered as the newest and only active row, published to the replica, and with the row
      that was active retired at the time of the Set. */
  lemma SetAloneIsPublished(g: Aead, s: State, raw: string, key: string, nonce: string, c: nat)
    returns (run: seq<Action>)
    requires Lawful(g) && RotationInv(g, s) && Quiet(s) && Offers(raw, key) && |nonce| == g.nonceSize && c < |s.current|
    ensures ValidRun(g, s, run)
    ensures var t := Final(g, s, run);
      && t.current == s.current[c := Some(Snapshot(key, |s.rows|, |s.rows| + 1))]
      && |t.rows| == |s.rows| + 1
      && t.rows[|s.rows|].active && Decrypt(g, t.rows[|s.rows|].enc) == Some(key)
      && forall i :: 0 <= i < |s.rows| ==>
           t.rows[i] == if s.rows[i].active then Row(s.rows[i].enc, false, Some(s.now)) else s.rows[i]
  {
    var t;
    run, t := SetAloneCommits(g, s, raw, key, nonce);
    DecryptEncrypt(g, nonce, key);
    assert t.rows[|s.rows|] == Row(Encrypt(g, nonce, key), true, None);
    assert |s.rows| in ActiveRows(t.rows);
    var second;
    second, t := RefreshAlonePublishes(g, t, c, |s.rows|, key);
    RunsCompose(g, s, run, second);
    run := run + second;
  }
}
