/** PrepareBody of internal/proxy/proxy.go: a streaming request is rewritten to ask for usage.
    JSON text is abstract: a codec decodes bytes to values and encodes values to bytes.  Members are
    compared as decoded values. */
module RequestBody {
  import opened Wrappers

  /** A number is the float64 it decodes to, named by the shortest decimal text that denotes it. */
  datatype Json =
    | Null
    | Bool(b: bool)
    | Num(shortest: string)
    | Str(s: string)
    | Arr(items: seq<Json>)
    | Obj(members: map<string, Json>)

  type Doc = map<string, Json>

  datatype Codec = Codec(decode: string -> Option<Json>, encode: Json -> string)

  datatype Input = NoBody | ReadError | Raw(bytes: string)

  datatype Prepared = Prepared(body: string, isStream: bool, model: string, modified: bool, wasJson: bool)

  const EMPTY := Prepared("", false, "", false, false)

  /** json.Unmarshal into map[string]any: an object, or null, which leaves the map nil. */
  function DecodeDoc(c: Codec, raw: string): Option<Doc> {
    match c.decode(raw)
    case Some(Obj(m)) => Some(m)
    case Some(Null) => Some(map[])
    case _ => None
  }

  predicate Streams(doc: Doc) {
    "stream" in doc && doc["stream"] == Bool(true)
  }

  /** The stream_options member when it is an object, and the empty object otherwise. */
  function Options(doc: Doc): Doc {
    if "stream_options" in doc && doc["stream_options"].Obj? then doc["stream_options"].members else map[]
  }

  predicate IncludesUsage(doc: Doc) {
    "include_usage" in Options(doc) && Options(doc)["include_usage"] == Bool(true)
  }

  function ModelOf(doc: Doc): string {
    if "model" in doc && doc["model"].Str? then doc["model"].s else ""
  }

  /** What the rewrite means, without saying how it is done: `out` is `doc` except that usage is asked for. */
  ghost predicate AsksForUsage(doc: Doc, out: Doc) {
    && out.Keys == doc.Keys + {"stream_options"}
    && (forall k :: k in doc && k != "stream_options" ==> out[k] == doc[k])
    && out["stream_options"].Obj?
    && var opts := out["stream_options"].members;
       && opts.Keys == Options(doc).Keys + {"include_usage"}
       && opts["include_usage"] == Bool(true)
       && forall k :: k in Options(doc) && k != "include_usage" ==> opts[k] == Options(doc)[k]
  }

  /** The document that asks for usage; AsksForUsage says what it is. */
  function Asking(doc: Doc): (out: Doc)
    ensures AsksForUsage(doc, out)
  {
    doc["stream_options" := Obj(Options(doc)["include_usage" := Bool(true)])]
  }

  /** The law the rewrite relies on: the empty text is not JSON, and an object that was decoded, with usage asked
      for, is encoded to a text that decodes to it. */
  ghost predicate Lawful(c: Codec) {
    && c.decode("") == None
    && forall s, doc :: c.decode(s) == Some(Obj(doc)) ==> Reads(c, c.encode(Obj(Asking(doc))), Obj(Asking(doc)))
  }

  predicate Reads(c: Codec, s: string, v: Json) {
    c.decode(s) == Some(v)
  }

  /** The whole contract of PrepareBody on a body that was read. */
  ghost predicate Prepares(c: Codec, raw: string, pb: Prepared) {
    var doc := DecodeDoc(c, raw);
    if raw == "" || doc.None? then
      pb == EMPTY.(body := raw)
    else
      && pb.wasJson
      && pb.model == ModelOf(doc.value)
      && pb.isStream == Streams(doc.value)
      && pb.modified == (Streams(doc.value) && !IncludesUsage(doc.value))
      && if pb.modified then
           exists out :: c.decode(pb.body) == Some(Obj(out)) && AsksForUsage(doc.value, out)
         else
           pb.body == raw
  }

  method PrepareBody(c: Codec, input: Input) returns (r: Option<Prepared>)
    requires Lawful(c)
    ensures input.NoBody? ==> r == Some(EMPTY)
    ensures input.ReadError? ==> r == None
    ensures input.Raw? ==> r.Some? && Prepares(c, input.bytes, r.value)
  {
    if input.NoBody? {
      return Some(EMPTY);
    }
    if input.ReadError? {
      return None;
    }
    var raw := input.bytes;
    var pb := EMPTY.(body := raw);
    if raw == "" {
      return Some(pb);
    }
    var decoded := DecodeDoc(c, raw);
    if decoded.None? {
      return Some(pb);
    }
    var doc := decoded.value;
    pb := pb.(wasJson := true);
    if "model" in doc && doc["model"].Str? {
      pb := pb.(model := doc["model"].s);
    }
    if "stream" in doc && doc["stream"].Bool? && doc["stream"].b {
      pb := pb.(isStream := true);
      var opts: Doc := map[];
      if "stream_options" in doc && doc["stream_options"].Obj? {
        opts := doc["stream_options"].members;
      }
      if !("include_usage" in opts && opts["include_usage"].Bool? && opts["include_usage"].b) {
        opts := opts["include_usage" := Bool(true)];
        doc := doc["stream_options" := Obj(opts)];
        pb := pb.(modified := true);
      }
    }
    if pb.modified {
      pb := pb.(body := c.encode(Obj(doc)));
      assert c.decode(raw) == Some(Obj(decoded.value)) && doc == Asking(decoded.value);
      assert Reads(c, pb.body, Obj(doc));
    }
    r := Some(pb);
  }

  /** What a prepared body says, member by member: the model if it is a text, a stream if it is asked for, JSON if
      it is an object or null, and changed exactly if a stream does not ask for usage yet. */
  lemma PreparedMeans(c: Codec, raw: string, pb: Prepared)
    requires Prepares(c, raw, pb) && raw != ""
    ensures pb.wasJson <==> c.decode(raw).Some? && (c.decode(raw).value.Obj? || c.decode(raw).value.Null?)
    ensures !pb.wasJson || c.decode(raw) == Some(Null) ==> pb == Prepared(raw, false, "", false, pb.wasJson)
    ensures c.decode(raw).Some? && c.decode(raw).value.Obj? ==>
      var doc := c.decode(raw).value.members;
      && (forall m :: m != "" ==> (pb.model == m <==> "model" in doc && doc["model"] == Str(m)))
      && (pb.isStream <==> "stream" in doc && doc["stream"] == Bool(true))
      && (pb.modified ==> pb.isStream)
      && (pb.isStream ==> (pb.modified <==>
            !("stream_options" in doc && doc["stream_options"].Obj?
              && "include_usage" in doc["stream_options"].members
              && doc["stream_options"].members["include_usage"] == Bool(true))))
      && (!pb.modified ==> pb.body == raw)
  {
  }

  /** The rewritten document still streams, with the same model, and now includes usage. */
  lemma RewriteKeepsMeaning(doc: Doc, out: Doc)
    requires Streams(doc) && AsksForUsage(doc, out)
    ensures Streams(out) && IncludesUsage(out) && ModelOf(out) == ModelOf(doc)
  {
    assert "stream" in doc && "stream" in out;
    assert "model" in out <==> "model" in doc;
  }

  /** Preparing a prepared body again changes nothing. */
  lemma PrepareIsIdempotent(c: Codec, raw: string, once: Prepared, twice: Prepared)
    requires c.decode("") == None && Prepares(c, raw, once) && Prepares(c, once.body, twice)
    ensures !twice.modified
    ensures twice.body == once.body
    ensures twice.isStream == once.isStream && twice.model == once.model
    ensures once.modified ==> twice == once.(modified := false)
  {
    if once.modified {
      var doc := DecodeDoc(c, raw).value;
      var out :| c.decode(once.body) == Some(Obj(out)) && AsksForUsage(doc, out);
      RewriteKeepsMeaning(doc, out);
    }
  }

  // ----- a lawful codec -----

  /** A text for every value, no text being a prefix of another's.  Objects are written member by member, in
      whatever order the members are picked. */
  ghost function Print(v: Json): string
    decreases v, 1, 0
  {
    match v
    case Null => "n"
    case Bool(b) => if b then "t" else "f"
    case Num(n) => "#" + PrintText(n)
    case Str(s) => "s" + PrintText(s)
    case Arr(items) => "[" + PrintItems(v, items)
    case Obj(members) => "{" + PrintMembers(v, members)
  }

  ghost function PrintText(s: string): string {
    if s == "" then "." else "," + ([s[0]] + PrintText(s[1..]))
  }

  ghost predicate ItemsOf(v: Json, items: seq<Json>) {
    v.Arr? && forall i :: 0 <= i < |items| ==> items[i] in v.items
  }

  ghost predicate MembersOf(v: Json, members: Doc) {
    v.Obj? && forall k :: k in members ==> k in v.members && v.members[k] == members[k]
  }

  ghost function PrintItems(v: Json, items: seq<Json>): string
    requires ItemsOf(v, items)
    decreases v, 0, |items|
  {
    if items == [] then "." else "," + (Print(items[0]) + PrintItems(v, items[1..]))
  }

  ghost function PrintMembers(v: Json, members: Doc): string
    requires MembersOf(v, members)
    decreases v, 0, |members|
  {
    if members == map[] then "."
    else
      var k :| k in members;
      assert v.members[k] == members[k];
      "," + (PrintText(k) + (Print(members[k]) + PrintMembers(v, members - {k})))
  }

  /** Texts that agree and start with the same character agree in the rest. */
  lemma SameHead(c: char, s: string, d: char, t: string, a: string, b: string)
    requires [c] + s + a == [d] + t + b
    ensures c == d && s + a == t + b
  {
    assert ([c] + s + a)[0] == c && ([d] + t + b)[0] == d;
    assert ([c] + s + a)[1..] == s + a && ([d] + t + b)[1..] == t + b;
  }

  lemma SameStart(p: string, q: string, a: string, b: string)
    requires p != "" && q != "" && p + a == q + b
    ensures p[0] == q[0] && p[1..] + a == q[1..] + b
    ensures |p| == 1 && |q| == 1 ==> a == b
  {
    assert (p + a)[0] == p[0] && (q + b)[0] == q[0];
    assert (p + a)[1..] == p[1..] + a && (q + b)[1..] == q[1..] + b;
    assert |p| == 1 ==> p[1..] + a == a;
    assert |q| == 1 ==> q[1..] + b == b;
  }

  lemma Regroup(p: string, q: string, r: string)
    ensures p + q + r == p + (q + r)
  {
  }

  lemma {:induction false} TextPrefixFree(s: string, t: string, a: string, b: string)
    requires PrintText(s) + a == PrintText(t) + b
    ensures s == t && a == b
  {
    SameStart(PrintText(s), PrintText(t), a, b);
    if s != "" {
      SameHead(',', [s[0]] + PrintText(s[1..]), ',', [t[0]] + PrintText(t[1..]), a, b);
      SameHead(s[0], PrintText(s[1..]), t[0], PrintText(t[1..]), a, b);
      TextPrefixFree(s[1..], t[1..], a, b);
      assert s == [s[0]] + s[1..] && t == [t[0]] + t[1..];
    }
  }

  lemma {:induction false} PrefixFree(v: Json, w: Json, a: string, b: string)
    requires Print(v) + a == Print(w) + b
    ensures v == w && a == b
    decreases v, 1, 0
  {
    SameStart(Print(v), Print(w), a, b);
    match v
    case Num(n) => TextPrefixFree(n, w.shortest, a, b);
    case Str(s) => TextPrefixFree(s, w.s, a, b);
    case Arr(items) => ItemsPrefixFree(v, items, w, w.items, a, b);
    case Obj(members) => MembersPrefixFree(v, members, w, w.members, a, b);
    case _ =>
  }

  lemma {:induction false} ItemsPrefixFree(v: Json, s: seq<Json>, w: Json, t: seq<Json>, a: string, b: string)
    requires ItemsOf(v, s) && ItemsOf(w, t) && PrintItems(v, s) + a == PrintItems(w, t) + b
    ensures s == t && a == b
    decreases v, 0, |s|
  {
    SameStart(PrintItems(v, s), PrintItems(w, t), a, b);
    if s != [] {
      var p', q' := PrintItems(v, s[1..]), PrintItems(w, t[1..]);
      SameHead(',', Print(s[0]) + p', ',', Print(t[0]) + q', a, b);
      Regroup(Print(s[0]), p', a);
      Regroup(Print(t[0]), q', b);
      PrefixFree(s[0], t[0], p' + a, q' + b);
      ItemsPrefixFree(v, s[1..], w, t[1..], a, b);
      assert s == [s[0]] + s[1..] && t == [t[0]] + t[1..];
    }
  }

  /** How an object that is not empty is printed: some member first. */
  lemma FirstMember(v: Json, m: Doc) returns (k: string)
    requires MembersOf(v, m) && m != map[]
    ensures k in m && m == (m - {k})[k := m[k]]
    ensures PrintMembers(v, m) == "," + (PrintText(k) + (Print(m[k]) + PrintMembers(v, m - {k})))
  {
    k :| k in m && PrintMembers(v, m) == "," + (PrintText(k) + (Print(m[k]) + PrintMembers(v, m - {k})));
  }

  lemma {:induction false} MembersPrefixFree(v: Json, s: Doc, w: Json, t: Doc, a: string, b: string)
    requires MembersOf(v, s) && MembersOf(w, t) && PrintMembers(v, s) + a == PrintMembers(w, t) + b
    ensures s == t && a == b
    decreases v, 0, |s|
  {
    SameStart(PrintMembers(v, s), PrintMembers(w, t), a, b);
    if s != map[] {
      var k := FirstMember(v, s);
      var l := FirstMember(w, t);
      var p', q' := PrintMembers(v, s - {k}), PrintMembers(w, t - {l});
      SameHead(',', PrintText(k) + (Print(s[k]) + p'), ',', PrintText(l) + (Print(t[l]) + q'), a, b);
      Regroup(PrintText(k), Print(s[k]) + p', a);
      Regroup(Print(s[k]), p', a);
      Regroup(PrintText(l), Print(t[l]) + q', b);
      Regroup(Print(t[l]), q', b);
      TextPrefixFree(k, l, Print(s[k]) + (p' + a), Print(t[l]) + (q' + b));
      assert v.members[k] == s[k];
      PrefixFree(s[k], t[l], p' + a, q' + b);
      MembersPrefixFree(v, s - {k}, w, t - {l}, a, b);
    }
  }

  /** The value that a text prints, if it prints one. */
  ghost function Parse(text: string): Option<Json> {
    if exists v :: Print(v) == text then (var v :| Print(v) == text; Some(v)) else None
  }

  lemma ParsePrint(v: Json)
    ensures Parse(Print(v)) == Some(v)
  {
    var w := Parse(Print(v)).value;
    assert Print(w) + "" == Print(v) + "";
    PrefixFree(w, v, "", "");
  }

  /** The law can be met, by a codec that reads a text for every value. */
  lemma LawfulCodecExists() returns (c: Codec)
    ensures Lawful(c) && forall v :: Reads(c, c.encode(v), v)
  {
    c := Codec((s: string) => Parse(s), (v: Json) => Print(v));
    forall v ensures Reads(c, c.encode(v), v) {
      ParsePrint(v);
    }
    assert Parse("") == None;
  }
}
