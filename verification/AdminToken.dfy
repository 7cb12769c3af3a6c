/** internal/admin/auth.go: signed bearer tokens "<exp-unix>.<signature>".  The base64 HMAC of a
    message under a secret is a parameter.  Times are in nanoseconds. */
module AdminToken {
  import opened Wrappers
  import opened Text

  const BEARER := "Bearer "
  const SECOND := 1000000000
  const MIN_INT64 := -0x8000_0000_0000_0000
  const MAX_INT64 := 0x7FFF_FFFF_FFFF_FFFF

  predicate InInt64(n: int) {
    MIN_INT64 <= n <= MAX_INT64
  }

  // ----- decimal integers -----

  predicate IsDigit(c: char) {
    '0' <= c <= '9'
  }

  function Digit(d: int): char
    requires 0 <= d < 10
  {
    '0' + d as char
  }

  function FormatNat(n: nat): string {
    if n < 10 then [Digit(n)] else FormatNat(n / 10) + [Digit(n % 10)]
  }

  /** strconv.FormatInt(n, 10) */
  function FormatInt(n: int): string {
    if n < 0 then "-" + FormatNat(-n) else FormatNat(n)
  }

  function ParseNat(s: string): Option<nat> {
    if s == "" || !IsDigit(s[|s| - 1]) then None
    else
      var d := s[|s| - 1] as int - '0' as int;
      if |s| == 1 then Some(d)
      else
        var head := ParseNat(s[..|s| - 1]);
        if head.None? then None else Some(10 * head.value + d)
  }

  /** strconv.ParseInt(s, 10, 64): an optional sign, digits, and a value that fits. */
  function ParseInt(s: string): Option<int> {
    var neg := s != "" && s[0] == '-';
    var digits := if s != "" && (s[0] == '-' || s[0] == '+') then s[1..] else s;
    var n := ParseNat(digits);
    if n.None? then None
    else
      var v: int := if neg then -(n.value as int) else n.value;
      if InInt64(v) then Some(v) else None
  }

  lemma {:induction false} FormatNatRoundTrip(n: nat)
    ensures ParseNat(FormatNat(n)) == Some(n)
    ensures forall c :: c in FormatNat(n) ==> IsDigit(c)
    ensures FormatNat(n) != ""
  {
    if n >= 10 {
      FormatNatRoundTrip(n / 10);
      var s := FormatNat(n);
      assert s[..|s| - 1] == FormatNat(n / 10);
    }
  }

  /** A digit string is parsed by its digits, with and without a minus sign. */
  lemma ParseDigits(s: string)
    requires s != "" && forall c :: c in s ==> IsDigit(c)
    ensures var n := ParseNat(s); n.Some? && InInt64(n.value) ==> ParseInt(s) == Some(n.value as int)
    ensures var n := ParseNat(s); n.Some? && InInt64(-(n.value as int)) ==> ParseInt("-" + s) == Some(-(n.value as int))
  {
    assert IsDigit(s[0]);
    assert ("-" + s)[1..] == s;
  }

  lemma FormatIntRoundTrip(n: int)
    requires InInt64(n)
    ensures ParseInt(FormatInt(n)) == Some(n)
    ensures '.' !in FormatInt(n)
  {
    var m: nat := if n < 0 then -n else n;
    FormatNatRoundTrip(m);
    ParseDigits(FormatNat(m));
  }

  lemma {:induction false} ParseNatExactly(s: string)
    ensures ParseNat(s).Some? <==> s != "" && forall c :: c in s ==> IsDigit(c)
  {
    if s != "" {
      var n := |s| - 1;
      ParseNatExactly(s[..n]);
      assert s == s[..n] + [s[n]];
    }
  }

  lemma {:induction false} LeadingZero(s: string)
    requires ParseNat(s).Some?
    ensures ParseNat("0" + s) == ParseNat(s)
  {
    var n := |s| - 1;
    var t := "0" + s;
    assert t[|t| - 1] == s[n] && t[..|t| - 1] == "0" + s[..n];
    if n > 0 {
      LeadingZero(s[..n]);
    } else {
      assert t[..1] == "0" && ParseNat("0") == Some(0);
    }
  }

  /** A magnitude with its sign, if it fits 64 bits. */
  function Fitted(n: Option<nat>, neg: bool): Option<int> {
    if n.None? || n.value > MAX_INT64 + (if neg then 1 else 0) then None
    else if neg then Some(-(n.value as int)) else Some(n.value as int)
  }

  lemma SignedForm(s: string)
    ensures ParseInt("-" + s) == Fitted(ParseNat(s), true) && ParseInt("+" + s) == Fitted(ParseNat(s), false)
  {
    assert ("-" + s)[1..] == s && ("+" + s)[1..] == s;
  }

  lemma UnsignedForm(s: string)
    requires s == "" || (s[0] != '-' && s[0] != '+')
    ensures ParseInt(s) == Fitted(ParseNat(s), false)
  {
  }

  /** Every form that is read: digits, with a sign or without, of a value that fits; leading zeros change nothing,
      and anything else is an error. */
  lemma ParseIntForms(s: string)
    ensures ParseInt("-" + s) == Fitted(ParseNat(s), true) && ParseInt("+" + s) == Fitted(ParseNat(s), false)
    ensures s == "" || (s[0] != '-' && s[0] != '+') ==> ParseInt(s) == Fitted(ParseNat(s), false)
    ensures ParseNat(s).Some? <==> s != "" && forall c :: c in s ==> IsDigit(c)
    ensures ParseNat(s).Some? ==> ParseInt("0" + s) == ParseInt("+" + s)
  {
    SignedForm(s);
    if s == "" || (s[0] != '-' && s[0] != '+') { UnsignedForm(s); }
    ParseNatExactly(s);
    if ParseNat(s).Some? {
      LeadingZero(s);
      UnsignedForm("0" + s);
    }
  }

  // ----- tokens -----

  datatype Auth = Auth(secret: string, ttl: int, mac: (string, string) -> string)

  /** time.Time.Unix(): whole seconds, rounded down. */
  function Unix(t: int): int {
    t / SECOND
  }

  function IssueToken(a: Auth, now: int): string {
    var exp := FormatInt(Unix(now + a.ttl));
    exp + "." + a.mac(a.secret, exp)
  }

  predicate ValidateBearer(a: Auth, header: string, now: int) {
    && HasPrefix(header, BEARER)
    && var tok := header[|BEARER|..];
       var dot := IndexOf(tok, '.');
       && dot >= 0
       && var exp, sig := tok[..dot], tok[dot + 1..];
          && ParseInt(exp).Some?
          && sig == a.mac(a.secret, exp)
          && now <= ParseInt(exp).value * SECOND
  }

  lemma SplitToken(exp: string, sig: string)
    requires '.' !in exp
    ensures var header := BEARER + exp + "." + sig;
      && HasPrefix(header, BEARER)
      && var tok := header[|BEARER|..];
         IndexOf(tok, '.') == |exp| && tok[..|exp|] == exp && tok[|exp| + 1..] == sig
  {
    var header := BEARER + exp + "." + sig;
    assert header[|BEARER|..] == exp + ['.'] + sig;
    IndexOfAt(exp, '.', sig);
  }

  /** The header is that expiry with its signature under a's secret, readable and not past. */
  ghost predicate Signed(a: Auth, header: string, exp: string, now: int) {
    && '.' !in exp && header == BEARER + exp + "." + a.mac(a.secret, exp)
    && ParseInt(exp).Some? && now <= ParseInt(exp).value * SECOND
  }

  lemma JoinParts(header: string, dot: nat)
    requires HasPrefix(header, BEARER) && IndexOf(header[|BEARER|..], '.') == dot
    ensures var tok := header[|BEARER|..];
      '.' !in tok[..dot] && header == BEARER + tok[..dot] + "." + tok[dot + 1..]
  {
    var tok := header[|BEARER|..];
    assert header == header[..|BEARER|] + tok;
    assert tok == tok[..dot] + "." + tok[dot + 1..];
  }

  /** What is accepted: exactly a readable expiry that has not passed, signed under the secret. */
  lemma AcceptedExactlyWhenSigned(a: Auth, header: string, now: int)
    ensures ValidateBearer(a, header, now) <==> exists exp :: Signed(a, header, exp, now)
  {
    if ValidateBearer(a, header, now) {
      var tok := header[|BEARER|..];
      JoinParts(header, IndexOf(tok, '.'));
      assert Signed(a, header, tok[..IndexOf(tok, '.')], now);
    }
    if exp :| Signed(a, header, exp, now) {
      SplitToken(exp, a.mac(a.secret, exp));
    }
  }

  /** A token issued by a at time t, shown to b at time u: accepted exactly when b signs that expiry alike
      and u is not past the whole second below t + ttl. */
  lemma TokenAcceptedExactly(a: Auth, b: Auth, t: int, u: int)
    requires InInt64(Unix(t + a.ttl))
    ensures var exp := FormatInt(Unix(t + a.ttl));
      ValidateBearer(b, BEARER + IssueToken(a, t), u) <==>
        a.mac(a.secret, exp) == b.mac(b.secret, exp) && u <= Unix(t + a.ttl) * SECOND
  {
    var exp := FormatInt(Unix(t + a.ttl));
    FormatIntRoundTrip(Unix(t + a.ttl));
    SplitToken(exp, a.mac(a.secret, exp));
    assert BEARER + IssueToken(a, t) == BEARER + exp + "." + a.mac(a.secret, exp);
  }

  /** Round trip and lifetime: with its own secret a token is accepted up to some moment `until`, which is
      less than one second short of t + ttl and never beyond it. */
  lemma TokenLifetime(a: Auth, t: int) returns (until: int)
    requires InInt64(Unix(t + a.ttl))
    ensures a.ttl - SECOND < until - t <= a.ttl
    ensures forall u :: ValidateBearer(a, BEARER + IssueToken(a, t), u) <==> u <= until
  {
    until := Unix(t + a.ttl) * SECOND;
    forall u ensures ValidateBearer(a, BEARER + IssueToken(a, t), u) <==> u <= until {
      TokenAcceptedExactly(a, a, t, u);
    }
  }
}
