/** The upstream_keys table and the sealed form of a key (internal/keys/upstream.go).  AES-GCM is a
    parameter; a byte is a char. */
module UpstreamModel {
  import opened Wrappers
  import opened Text

  datatype Aead = Aead(nonceSize: nat, seal: (string, string) -> string, open: (string, string) -> Option<string>)

  ghost predicate Lawful(g: Aead) {
    forall n, p :: |n| == g.nonceSize ==> g.open(n, g.seal(n, p)) == Some(p)
  }

  /** encrypt: the nonce, then what it sealed */
  function Encrypt(g: Aead, nonce: string, plain: string): string {
    nonce + g.seal(nonce, plain)
  }

  function Decrypt(g: Aead, blob: string): Option<string> {
    if |blob| < g.nonceSize then None else g.open(blob[..g.nonceSize], blob[g.nonceSize..])
  }

  lemma DecryptEncrypt(g: Aead, nonce: string, plain: string)
    requires Lawful(g) && |nonce| == g.nonceSize
    ensures Decrypt(g, Encrypt(g, nonce, plain)) == Some(plain)
  {
    var blob := Encrypt(g, nonce, plain);
    assert blob[..g.nonceSize] == nonce && blob[g.nonceSize..] == g.seal(nonce, plain);
  }

  /** raw is an upstream key with white space around it. */
  ghost predicate Offers(raw: string, key: string) {
    Trims(raw, key) && HasPrefix(key, "sk-")
  }

  /** Set's checks on the key it is given. */
  function Accept(raw: string): (r: Option<string>)
    ensures r.Some? ==> HasPrefix(r.value, "sk-")
  {
    var plain := TrimSpace(raw);
    if plain == "" || !HasPrefix(plain, "sk-") then None else Some(plain)
  }

  /** Set takes the whole key that raw offers, if it offers one. */
  lemma AcceptTakesTheOffer(raw: string)
    ensures Accept(raw).None? ==> forall key :: !Offers(raw, key)
    ensures Accept(raw).Some? ==> forall key :: Offers(raw, key) <==> key == Accept(raw).value
  {
    TrimSpaceTrims(raw);
    forall key | Offers(raw, key) ensures key == TrimSpace(raw) {
      TrimsUnique(raw, key, TrimSpace(raw));
    }
  }

  /** A row of upstream_keys, in the order of the inserting transactions' commits. */
  datatype Row = Row(enc: string, active: bool, retiredAt: Option<int>)

  /** The stored blob opens to a key that Set accepted. */
  ghost predicate GoodBlob(g: Aead, enc: string) {
    Decrypt(g, enc).Some? && HasPrefix(Decrypt(g, enc).value, "sk-")
  }

  /** UPDATE ... SET active = FALSE, retired_at = now() on some rows, then INSERT of an active one. */
  function Rotated(rows: seq<Row>, retire: set<nat>, enc: string, now: int): seq<Row> {
    seq(|rows|, i requires 0 <= i < |rows| => if i in retire then rows[i].(active := false, retiredAt := Some(now)) else rows[i])
    + [Row(enc, true, None)]
  }

  /** Every row opens, and exactly the last one, if any, is active; the others say when they were retired. */
  ghost predicate TableOk(g: Aead, rows: seq<Row>) {
    forall i :: 0 <= i < |rows| ==>
      && GoodBlob(g, rows[i].enc)
      && (rows[i].active <==> i == |rows| - 1)
      && (rows[i].active <==> rows[i].retiredAt.None?)
  }

  lemma RotateKeepsTable(g: Aead, rows: seq<Row>, retire: set<nat>, enc: string, now: int)
    requires TableOk(g, rows) && GoodBlob(g, enc)
    requires forall i :: 0 <= i < |rows| && rows[i].active ==> i in retire
    ensures TableOk(g, Rotated(rows, retire, enc, now))
  {
  }
}
