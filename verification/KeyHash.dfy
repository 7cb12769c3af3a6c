/** internal/keys/hash.go: the stored form of a key's hash.  Argon2id itself is a parameter. */
module KeyHash {
  import opened Wrappers
  import opened Text

  newtype byte = x: int | 0 <= x < 256

  /** argon2.IDKey(plain, salt, 1, 32 MiB, 2, keyLen) */
  type Argon = (string, seq<byte>, nat) -> seq<byte>

  ghost predicate Lawful(argon: Argon) {
    forall p, s, n :: |argon(p, s, n)| == n
  }

  const KEY_LEN := 32
  const SCHEME := "argon2id"

  function HexDigit(n: int): char
    requires 0 <= n < 16
  {
    if n < 10 then '0' + n as char else 'a' + (n - 10) as char
  }

  function HexValue(c: char): (r: Option<int>)
    ensures r.Some? ==> 0 <= r.value < 16
  {
    if '0' <= c <= '9' then Some(c as int - '0' as int)
    else if 'a' <= c <= 'f' then Some(c as int - 'a' as int + 10)
    else if 'A' <= c <= 'F' then Some(c as int - 'A' as int + 10)
    else None
  }

  /** hex.EncodeToString */
  function HexEncode(b: seq<byte>): string {
    if b == [] then "" else [HexDigit(b[0] as int / 16), HexDigit(b[0] as int % 16)] + HexEncode(b[1..])
  }

  /** hex.DecodeString: either case, even length, or an error */
  function HexDecode(s: string): Option<seq<byte>> {
    if s == "" then Some([])
    else if |s| == 1 then None
    else
      var hi, lo, rest := HexValue(s[0]), HexValue(s[1]), HexDecode(s[2..]);
      if hi.Some? && lo.Some? && rest.Some?
      then Some([(16 * hi.value + lo.value) as byte] + rest.value)
      else None
  }

  function HashKey(argon: Argon, plain: string, salt: seq<byte>): string {
    SCHEME + "$" + HexEncode(salt) + "$" + HexEncode(argon(plain, salt, KEY_LEN))
  }

  predicate VerifyHash(argon: Argon, plain: string, encoded: string) {
    var parts := Split(encoded, '$');
    && |parts| == 3 && parts[0] == SCHEME
    && var salt, expected := HexDecode(parts[1]), HexDecode(parts[2]);
       salt.Some? && expected.Some? && argon(plain, salt.value, |expected.value|) == expected.value
  }

  lemma HexDigitValue(n: int)
    requires 0 <= n < 16
    ensures HexValue(HexDigit(n)) == Some(n) && HexDigit(n) != '$'
  {
  }

  lemma HexDecodePair(hi: char, lo: char, rest: string, b: byte, tail: seq<byte>)
    requires HexValue(hi) == Some(b as int / 16) && HexValue(lo) == Some(b as int % 16)
    requires HexDecode(rest) == Some(tail)
    ensures HexDecode([hi, lo] + rest) == Some([b] + tail)
  {
    assert ([hi, lo] + rest)[2..] == rest;
  }

  lemma {:induction false} HexRoundTrip(b: seq<byte>)
    ensures HexDecode(HexEncode(b)) == Some(b)
    ensures '$' !in HexEncode(b)
  {
    if b != [] {
      var hi, lo := HexDigit(b[0] as int / 16), HexDigit(b[0] as int % 16);
      HexRoundTrip(b[1..]);
      HexDigitValue(b[0] as int / 16);
      HexDigitValue(b[0] as int % 16);
      HexDecodePair(hi, lo, HexEncode(b[1..]), b[0], b[1..]);
      assert b == [b[0]] + b[1..];
    }
  }

  lemma SplitThree(a: string, b: string, c: string)
    requires '$' !in a && '$' !in b && '$' !in c
    ensures Split(a + "$" + b + "$" + c, '$') == [a, b, c]
  {
    var s := a + "$" + b + "$" + c;
    assert s == a + ['$'] + (b + "$" + c);
    IndexOfAt(a, '$', b + "$" + c);
    assert s[..|a|] == a && s[|a| + 1..] == b + "$" + c;
    assert b + "$" + c == b + ['$'] + c;
    IndexOfAt(b, '$', c);
    assert (b + "$" + c)[..|b|] == b && (b + "$" + c)[|b| + 1..] == c;
    assert Split(c, '$') == [c];
  }

  /** A stored hash accepts its own plaintext, and any other one exactly when Argon2id collides on it. */
  lemma HashRoundTrip(argon: Argon, plain: string, other: string, salt: seq<byte>)
    requires Lawful(argon)
    ensures VerifyHash(argon, plain, HashKey(argon, plain, salt))
    ensures VerifyHash(argon, other, HashKey(argon, plain, salt))
       <==> argon(other, salt, KEY_LEN) == argon(plain, salt, KEY_LEN)
  {
    var sum := argon(plain, salt, KEY_LEN);
    HexRoundTrip(salt);
    HexRoundTrip(sum);
    SplitThree(SCHEME, HexEncode(salt), HexEncode(sum));
    assert HashKey(argon, plain, salt) == SCHEME + "$" + HexEncode(salt) + "$" + HexEncode(sum);
  }

  lemma {:induction false} HexLength(b: seq<byte>)
    ensures |HexEncode(b)| == 2 * |b|
  {
    if b != [] {
      HexLength(b[1..]);
    }
  }

  /** What is stored: the scheme, the salt and a sum of 32 bytes, in hex between dollar signs. */
  lemma HashForm(argon: Argon, plain: string, salt: seq<byte>)
    requires Lawful(argon)
    ensures HashKey(argon, plain, salt) == "argon2id$" + HexEncode(salt) + "$" + HexEncode(argon(plain, salt, 32))
    ensures |HashKey(argon, plain, salt)| == 2 * |salt| + 74
  {
    HexLength(salt);
    HexLength(argon(plain, salt, 32));
  }

  /** A hex digit of either case and its value. */
  lemma HexValueExactly(c: char, v: int)
    ensures HexValue(c) == Some(v) <==> 0 <= v < 16 && (c == "0123456789abcdef"[v] || c == "0123456789ABCDEF"[v])
  {
    assert forall i :: 0 <= i < 10 ==> "0123456789abcdef"[i] as int == 48 + i && "0123456789ABCDEF"[i] as int == 48 + i;
    assert forall i :: 10 <= i < 16 ==> "0123456789abcdef"[i] as int == 87 + i && "0123456789ABCDEF"[i] as int == 55 + i;
  }

  /** hex.DecodeString exactly: pairs of hex digits, the first of each pair the higher half. */
  lemma {:induction false} HexDecodeExactly(s: string)
    ensures HexDecode(s).Some? <==> |s| % 2 == 0 && forall c :: c in s ==> HexValue(c).Some?
    ensures HexDecode(s).Some? ==> |HexDecode(s).value| * 2 == |s|
    ensures HexDecode(s).Some? ==> forall i :: 0 <= i < |HexDecode(s).value| ==>
      HexValue(s[2 * i]).Some? && HexValue(s[2 * i + 1]).Some?
      && HexDecode(s).value[i] as int == 16 * HexValue(s[2 * i]).value + HexValue(s[2 * i + 1]).value
  {
    if |s| >= 2 {
      HexDecodeExactly(s[2..]);
      assert s == [s[0], s[1]] + s[2..];
      assert forall i :: 1 <= i && 2 * i + 1 < |s| ==> s[2 * i] == s[2..][2 * (i - 1)] && s[2 * i + 1] == s[2..][2 * (i - 1) + 1];
    }
  }

  /** The texts that a plaintext matches: the scheme, a salt and a sum in hex, the sum being Argon2id's. */
  ghost predicate Stored(argon: Argon, plain: string, encoded: string, salt: string, sum: string) {
    && encoded == "argon2id" + ['$'] + (salt + ['$'] + sum) && '$' !in salt && '$' !in sum
    && HexDecode(salt).Some? && HexDecode(sum).Some?
    && argon(plain, HexDecode(salt).value, |HexDecode(sum).value|) == HexDecode(sum).value
  }

  lemma ThreeParts(encoded: string, parts: seq<string>)
    requires parts == Split(encoded, '$') && |parts| == 3
    ensures encoded == parts[0] + ['$'] + (parts[1] + ['$'] + parts[2])
    ensures '$' !in parts[1] && '$' !in parts[2]
  {
    SplitJoins(encoded, '$');
    assert parts[1..][1..] == [parts[2]];
    assert Join(parts[1..], '$') == parts[1] + ['$'] + parts[2];
    assert parts[1] in parts && parts[2] in parts;
  }

  lemma StoredSplits(argon: Argon, plain: string, encoded: string, salt: string, sum: string)
    requires Stored(argon, plain, encoded, salt, sum)
    ensures Split(encoded, '$') == [SCHEME, salt, sum]
  {
    assert encoded == SCHEME + "$" + salt + "$" + sum;
    SplitThree(SCHEME, salt, sum);
  }

  lemma VerifyHashExactly(argon: Argon, plain: string, encoded: string)
    ensures VerifyHash(argon, plain, encoded) <==> exists salt, sum :: Stored(argon, plain, encoded, salt, sum)
  {
    var parts := Split(encoded, '$');
    if |parts| == 3 {
      ThreeParts(encoded, parts);
    }
    assert VerifyHash(argon, plain, encoded) ==> Stored(argon, plain, encoded, parts[1], parts[2]);
    forall salt, sum | Stored(argon, plain, encoded, salt, sum) ensures parts == [SCHEME, salt, sum] {
      StoredSplits(argon, plain, encoded, salt, sum);
    }
  }
}
