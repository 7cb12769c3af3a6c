/** One replica's UpstreamStore, for calls that do not overlap: Set, refresh and Bootstrap. */
module UpstreamStore {
  import opened Wrappers
  import opened Text
  import opened UpstreamModel

  datatype RefreshError = NoRows | DecryptFailed

  class Store {
    const gcm: Aead
    var rows: seq<Row>
    var cache: Option<string>

    ghost predicate Valid()
      reads this
    {
      && Lawful(gcm) && TableOk(gcm, rows)
      && (cache.Some? ==> HasPrefix(cache.value, "sk-"))
    }

    constructor (gcm: Aead, rows: seq<Row>)
      requires Lawful(gcm) && TableOk(gcm, rows)
      ensures Valid() && this.gcm == gcm && this.rows == rows && cache == None
    {
      this.gcm, this.rows, this.cache := gcm, rows, None;
    }

    function Current(): string
      reads this
    {
      if cache.Some? then cache.value else ""
    }

    /** The key is the one in use: the newest row opens to it, that row alone is active, and it is published. */
    ghost predicate Holds(key: string)
      reads this
    {
      && rows != [] && rows[|rows| - 1].active && Decrypt(gcm, rows[|rows| - 1].enc) == Some(key)
      && Current() == key
    }

    method Refresh() returns (err: Option<RefreshError>)
      requires Valid()
      modifies this`cache
      ensures Valid()
      ensures rows == [] ==> err == Some(NoRows) && cache == old(cache)
      ensures rows != [] ==> err == None && cache == Decrypt(gcm, rows[|rows| - 1].enc)
    {
      assert rows != [] ==> rows[|rows| - 1].active;
      var i := 0;
      while i < |rows| && !rows[i].active    // WHERE active LIMIT 1
        invariant 0 <= i <= |rows|
        invariant forall j :: 0 <= j < i ==> !rows[j].active
      {
        i := i + 1;
      }
      if i == |rows| {
        return Some(NoRows);
      }
      var plain := Decrypt(gcm, rows[i].enc);
      if plain.None? {
        assert false;
        return Some(DecryptFailed);
      }
      cache := plain;
      err := None;
    }

    method Set(raw: string, nonce: string, now: int) returns (ok: bool)
      requires Valid() && |nonce| == gcm.nonceSize
      modifies this
      ensures Valid()
      ensures ok <==> exists key :: Offers(raw, key)
      ensures !ok ==> rows == old(rows) && cache == old(cache)
      ensures forall key :: Offers(raw, key) ==> Holds(key)
      ensures ok ==> |rows| == |old(rows)| + 1
      ensures ok ==> forall i :: 0 <= i < |old(rows)| ==> rows[i].enc == old(rows[i].enc) && !rows[i].active
    {
      var plain := Accept(raw);
      AcceptTakesTheOffer(raw);
      if plain.None? {
        return false;
      }
      assert Offers(raw, plain.value);
      var enc := Encrypt(gcm, nonce, plain.value);
      DecryptEncrypt(gcm, nonce, plain.value);
      var retire := set i | 0 <= i < |rows| && rows[i].active;
      RotateKeepsTable(gcm, rows, retire, enc, now);
      rows := Rotated(rows, retire, enc, now);
      var err := Refresh();
      ok := true;
    }

    /** After a successful Bootstrap there is a key to use: the stored one if there is one, else the fallback. */
    method Bootstrap(fallback: string, nonce: string, now: int) returns (ok: bool)
      requires Valid() && |nonce| == gcm.nonceSize
      modifies this
      ensures Valid()
      ensures ok <==> old(rows) != [] || exists key :: Offers(fallback, key)
      ensures ok ==> Current() != "" && HasPrefix(Current(), "sk-")
      ensures old(rows) != [] ==> rows == old(rows) && cache == Decrypt(gcm, rows[|rows| - 1].enc)
      ensures old(rows) == [] ==> forall key :: Offers(fallback, key) ==>
        |rows| == 1 && Holds(key)
      ensures !ok ==> rows == old(rows) && cache == old(cache)
    {
      var err := Refresh();
      if err == None {
        return true;
      }
      if fallback == "" {
        AcceptTakesTheOffer(fallback);
        return false;
      }
      ok := Set(fallback, nonce, now);
      if ok {
        err := Refresh();
      }
    }
  }
}
