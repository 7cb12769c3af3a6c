/** The string operations of the Go standard library that the program relies on; a byte is a char. */
module Text {
  import opened Wrappers

  predicate HasPrefix(s: string, p: string) {
    |p| <= |s| && s[..|p|] == p
  }

  /** Past a stretch without c there is a first c, if there is one at all. */
  lemma {:induction false} FirstExists(s: string, c: char, k: nat)
    requires c in s && k <= |s| && forall j :: 0 <= j < k ==> s[j] != c
    ensures exists i :: 0 <= i < |s| && s[i] == c && forall j :: 0 <= j < i ==> s[j] != c
    decreases |s| - k
  {
    if s[k] != c {
      FirstExists(s, c, k + 1);
    }
  }

  /** The first c in s, or -1. */
  function IndexOf(s: string, c: char): (i: int)
    ensures -1 <= i < |s|
    ensures i >= 0 ==> s[i] == c
    ensures forall j :: 0 <= j < (if i < 0 then |s| else i) ==> s[j] != c
  {
    if c !in s then -1
    else
      FirstExists(s, c, 0);
      var i :| 0 <= i < |s| && s[i] == c && forall j :: 0 <= j < i ==> s[j] != c;
      i
  }

  /** The first c is where it is, whatever follows it. */
  lemma IndexOfAt(a: string, c: char, b: string)
    requires c !in a
    ensures IndexOf(a + [c] + b, c) == |a|
  {
    var s := a + [c] + b;
    assert s[|a|] == c && forall j :: 0 <= j < |a| ==> s[j] == a[j];
  }

  /** strings.Split(s, string(c)) */
  function Split(s: string, c: char): (parts: seq<string>)
    ensures |parts| >= 1
    decreases |s|
  {
    var i := IndexOf(s, c);
    if i < 0 then [s] else [s[..i]] + Split(s[i + 1..], c)
  }

  /** The parts with separators between them. */
  function Join(parts: seq<string>, c: char): string
    requires |parts| >= 1
  {
    if |parts| == 1 then parts[0] else parts[0] + [c] + Join(parts[1..], c)
  }

  /** Split cuts at every separator and nowhere else. */
  lemma {:induction false} SplitJoins(s: string, c: char)
    ensures Join(Split(s, c), c) == s
    ensures forall p :: p in Split(s, c) ==> c !in p
    decreases |s|
  {
    var i := IndexOf(s, c);
    if i >= 0 {
      var rest := Split(s[i + 1..], c);
      SplitJoins(s[i + 1..], c);
      assert Split(s, c)[1..] == rest;
      assert s == s[..i] + [c] + s[i + 1..];
    }
  }

  predicate IsSpace(c: char) {
    c == ' ' || c == '\t' || c == '\n' || c == '\r' || c == '\U{0B}' || c == '\U{0C}'
  }

  predicate AllSpace(s: string) {
    forall c :: c in s ==> IsSpace(c)
  }

  /** White space is tab, newline, vertical tab, form feed, carriage return and blank, by their codes. */
  lemma SpacesByCode(c: char)
    ensures IsSpace(c) <==> 9 <= c as int <= 13 || c as int == 32
  {
  }

  /** p is s without the white space around it. */
  ghost predicate Trims(s: string, p: string) {
    && (p != "" ==> !IsSpace(p[0]) && !IsSpace(p[|p| - 1]))
    && exists l, r :: AllSpace(l) && AllSpace(r) && s == l + p + r
  }

  function TrimLeft(s: string): string {
    if s != "" && IsSpace(s[0]) then TrimLeft(s[1..]) else s
  }

  function TrimRight(s: string): string {
    if s != "" && IsSpace(s[|s| - 1]) then TrimRight(s[..|s| - 1]) else s
  }

  /** strings.TrimSpace and bytes.TrimSpace on ASCII white space */
  function TrimSpace(s: string): string {
    TrimRight(TrimLeft(s))
  }

  lemma {:induction false} TrimLeftTrims(s: string) returns (l: string)
    ensures AllSpace(l) && s == l + TrimLeft(s)
    ensures TrimLeft(s) == "" || !IsSpace(TrimLeft(s)[0])
  {
    l := "";
    if s != "" && IsSpace(s[0]) {
      l := TrimLeftTrims(s[1..]);
      l := [s[0]] + l;
    }
  }

  lemma {:induction false} TrimRightTrims(s: string) returns (r: string)
    ensures AllSpace(r) && s == TrimRight(s) + r
    ensures TrimRight(s) == "" || !IsSpace(TrimRight(s)[|TrimRight(s)| - 1])
  {
    r := "";
    if s != "" && IsSpace(s[|s| - 1]) {
      r := TrimRightTrims(s[..|s| - 1]);
      r := r + [s[|s| - 1]];
    }
  }

  lemma TrimSpaceTrims(s: string)
    ensures Trims(s, TrimSpace(s))
  {
    var t, p := TrimLeft(s), TrimSpace(s);
    var l := TrimLeftTrims(s);
    var r := TrimRightTrims(t);
    assert s == l + p + r;
    assert p != "" ==> p[0] == t[0];
  }

  /** Where the trimmed text starts: nothing but white space is before it. */
  lemma TrimsStart(s: string, l: string, p: string, r: string, l': string, q: string, r': string)
    requires s == l + p + r == l' + q + r' && p != "" && !IsSpace(p[0]) && AllSpace(l')
    ensures |l'| <= |l|
  {
    assert s[|l|] == p[0];
    assert forall i :: 0 <= i < |l'| ==> s[i] == l'[i] && IsSpace(s[i]);
  }

  /** Where it ends. */
  lemma TrimsEnd(s: string, l: string, p: string, r: string, l': string, q: string, r': string)
    requires s == l + p + r == l' + q + r' && p != "" && !IsSpace(p[|p| - 1]) && AllSpace(r')
    ensures |r'| <= |r|
  {
    assert s[|s| - |r| - 1] == p[|p| - 1];
    assert forall i :: |s| - |r'| <= i < |s| ==> s[i] == r'[i - |l'| - |q|] && IsSpace(s[i]);
  }

  /** There is one way to trim a text. */
  lemma TrimsUnique(s: string, p: string, q: string)
    requires Trims(s, p) && Trims(s, q)
    ensures p == q
  {
    var l, r :| AllSpace(l) && AllSpace(r) && s == l + p + r;
    var l', r' :| AllSpace(l') && AllSpace(r') && s == l' + q + r';
    if p != "" {
      NotAllSpace(s, l, p, r, l', q, r');
      TrimsStart(s, l, p, r, l', q, r');
      TrimsEnd(s, l, p, r, l', q, r');
      TrimsStart(s, l', q, r', l, p, r);
      TrimsEnd(s, l', q, r', l, p, r);
      assert p == s[|l|..|l| + |p|] && q == s[|l'|..|l'| + |q|];
    } else if q != "" {
      NotAllSpace(s, l', q, r', l, p, r);
    }
  }

  lemma NotAllSpace(s: string, l: string, p: string, r: string, l': string, q: string, r': string)
    requires s == l + p + r == l' + q + r' && p != "" && !IsSpace(p[0]) && AllSpace(l') && AllSpace(r')
    ensures q != ""
  {
    assert s[|l|] == p[0];
    assert forall i :: 0 <= i < |l'| ==> s[i] == l'[i] && IsSpace(s[i]);
    assert forall i :: |s| - |r'| <= i < |s| ==> s[i] == r'[i - |l'| - |q|] && IsSpace(s[i]);
  }
}
