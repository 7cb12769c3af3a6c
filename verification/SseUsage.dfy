/** Usage extraction of internal/proxy/proxy.go.  The line format is the part of server-sent events
    (WHATWG HTML Living Standard, sections 9.2.5 and 9.2.6) that the parser reads: "data:" lines.
    JSON decoding of a payload is a parameter. */
module SseUsage {
  import opened Wrappers
  import opened Text
  import opened TailBuffer

  /** The usage object; `details` is prompt_tokens_details.cached_tokens when that object is there. */
  datatype UsageDoc = UsageDoc(prompt: int, completion: int, details: Option<int>)

  datatype Envelope = Envelope(model: string, usage: Option<UsageDoc>)

  type Decoder = string -> Option<Envelope>

  datatype StreamUsage = StreamUsage(input: int, output: int, cached: int, model: string)

  const NO_USAGE := StreamUsage(0, 0, 0, "")
  const MAX_TOKEN := 4 * 1024 * 1024

  // ----- lines -----

  function DropCR(line: string): string {
    if line != "" && line[|line| - 1] == '\r' then line[..|line| - 1] else line
  }

  /** Where the line that starts at k ends: its newline, or the end of s. */
  function LineEnd(s: string, k: nat): (e: nat)
    requires k <= |s|
    ensures k <= e <= |s|
    decreases |s| - k
  {
    if k == |s| || s[k] == '\n' then k else LineEnd(s, k + 1)
  }

  /** The lines of s from the one that starts at k on; the last may lack its newline. */
  function LinesAt(s: string, k: nat): seq<string>
    decreases |s| - k
  {
    if k >= |s| then []
    else
      var e := LineEnd(s, k);
      [DropCR(s[k..e])] + LinesAt(s, e + 1)
  }

  function Lines(s: string): seq<string> {
    LinesAt(s, 0)
  }

  /** Those of the lines from k on that start at offset cut or later. */
  function LinesPast(s: string, k: nat, cut: nat): seq<string>
    decreases |s| - k
  {
    if k >= cut then LinesAt(s, k)
    else if k >= |s| then []
    else LinesPast(s, LineEnd(s, k) + 1, cut)
  }

  /** bufio.Scanner with ScanLines: it stops for good at a line that does not fit its buffer. */
  function ScanAt(s: string, k: nat, max: nat): seq<string>
    decreases |s| - k
  {
    if k >= |s| then []
    else
      var e := LineEnd(s, k);
      if e - k >= max then [] else [DropCR(s[k..e])] + ScanAt(s, e + 1, max)
  }

  function ScanLines(s: string, max: nat): seq<string> {
    ScanAt(s, 0, max)
  }

  // ----- the parser -----

  /** The payload of a data line: what is left of it after "data:" without the white space around it; the end
      marker is none. */
  ghost predicate Payload(line: string, p: string) {
    && p != "" && p != "[DONE]"
    && exists rest :: line == "data:" + rest && Trims(rest, p)
  }

  /** What one line contributes: the decoded payload of a data line, and nothing otherwise. */
  ghost function Says(decode: Decoder, line: string): Option<Envelope> {
    if exists p :: Payload(line, p) then (var p :| Payload(line, p); decode(p)) else None
  }

  /** What each line says, if anything; the lemmas below hold for any way of reading lines. */
  type Reader = string -> Option<Envelope>

  ghost function DataReader(decode: Decoder): Reader {
    (line: string) => Says(decode, line)
  }

  lemma PayloadUnique(line: string, p: string, q: string)
    requires Payload(line, p) && Payload(line, q)
    ensures p == q
  {
    var a :| line == "data:" + a && Trims(a, p);
    var b :| line == "data:" + b && Trims(b, q);
    assert a == line[5..] && b == line[5..];
    TrimsUnique(a, p, q);
  }

  lemma SaysPayload(decode: Decoder, line: string, p: string)
    requires Payload(line, p)
    ensures Says(decode, line) == decode(p)
  {
    var q :| Payload(line, q) && Says(decode, line) == decode(q);
    PayloadUnique(line, p, q);
  }

  lemma PayloadIsTrimmed(line: string, p: string, q: string)
    requires HasPrefix(line, "data:") && Trims(line[5..], p)
    ensures Payload(line, q) ==> p == q
  {
    if Payload(line, q) {
      var rest :| line == "data:" + rest && Trims(rest, q);
      assert rest == line[5..];
      TrimsUnique(rest, p, q);
    }
  }

  lemma TrimmedLineSays(decode: Decoder, line: string, p: string)
    requires HasPrefix(line, "data:") && Trims(line[5..], p)
    ensures Says(decode, line) == if p == "" || p == "[DONE]" then None else decode(p)
  {
    assert line == "data:" + line[5..];
    forall q ensures Payload(line, q) ==> p == q {
      PayloadIsTrimmed(line, p, q);
    }
    if p != "" && p != "[DONE]" {
      assert Payload(line, p);
    }
  }

  /** A line "data:", white space, a payload, white space contributes exactly the decoded payload. */
  lemma DataLineSays(decode: Decoder, l: string, p: string, r: string)
    requires AllSpace(l) && AllSpace(r) && p != "[DONE]" && p != "" && !IsSpace(p[0]) && !IsSpace(p[|p| - 1])
    ensures Says(decode, "data:" + l + p + r) == decode(p)
  {
    var rest := l + p + r;
    assert Trims(rest, p);
    assert "data:" + l + p + r == "data:" + rest;
    SaysPayload(decode, "data:" + l + p + r, p);
  }

  /** A line that does not start with "data:", a data line of white space alone and the end marker contribute
      nothing. */
  lemma OtherLinesSayNothing(decode: Decoder, line: string, l: string, r: string)
    requires AllSpace(l) && AllSpace(r)
    requires !HasPrefix(line, "data:") || line == "data:" + l || line == "data:" + l + "[DONE]" + r
    ensures Says(decode, line) == None
  {
    if HasPrefix(line, "data:") {
      assert line == "data:" + line[5..];
      if line == "data:" + l {
        assert AllSpace("") && line[5..] == l && l == l + "" + "";
        TrimmedLineSays(decode, line, "");
      } else {
        assert line[5..] == l + "[DONE]" + r;
        TrimmedLineSays(decode, line, "[DONE]");
      }
    } else {
      NoPayload(line);
    }
  }

  lemma NoPayload(line: string)
    requires !HasPrefix(line, "data:")
    ensures forall p :: !Payload(line, p)
  {
    assert forall rest :: line == "data:" + rest ==> line[..5] == "data:";
  }

  predicate SetsModel(read: Reader, line: string) {
    read(line).Some? && read(line).value.model != ""
  }

  predicate SetsUsage(read: Reader, line: string) {
    read(line).Some? && read(line).value.usage.Some?
  }

  predicate SetsDetails(read: Reader, line: string) {
    SetsUsage(read, line) && read(line).value.usage.value.details.Some?
  }

  datatype Attribute = Model | Usage | Details

  predicate Sets(read: Reader, a: Attribute, line: string) {
    match a
    case Model => SetsModel(read, line)
    case Usage => SetsUsage(read, line)
    case Details => SetsDetails(read, line)
  }

  /** The last line of which p holds. */
  function LastLine(p: string -> bool, lines: seq<string>): (r: Option<string>)
    ensures r.None? <==> forall l :: l in lines ==> !p(l)
    ensures r.Some? ==> r.value in lines && p(r.value)
  {
    if lines == [] then None
    else if p(lines[|lines| - 1]) then Some(lines[|lines| - 1])
    else LastLine(p, lines[..|lines| - 1])
  }

  function Setter(read: Reader, a: Attribute): string -> bool {
    (l: string) => Sets(read, a, l)
  }

  /** The last line that sets an attribute. */
  function LastSetter(read: Reader, a: Attribute, lines: seq<string>): (r: Option<string>)
    ensures r.None? <==> forall l :: l in lines ==> !Sets(read, a, l)
    ensures r.Some? ==> r.value in lines && Sets(read, a, r.value)
  {
    LastLine(Setter(read, a), lines)
  }

  /** The report that the last lines setting usage, details and model make together. */
  function Combine(read: Reader, u: Option<string>, d: Option<string>, m: Option<string>): StreamUsage
    requires u.Some? ==> SetsUsage(read, u.value)
    requires d.Some? ==> SetsDetails(read, d.value)
    requires m.Some? ==> SetsModel(read, m.value)
  {
    StreamUsage(
      if u.Some? then read(u.value).value.usage.value.prompt else 0,
      if u.Some? then read(u.value).value.usage.value.completion else 0,
      if d.Some? then read(d.value).value.usage.value.details.value else 0,
      if m.Some? then read(m.value).value.model else "")
  }

  /** What a stream reports, by the last line that says so, attribute by attribute. */
  function Report(read: Reader, lines: seq<string>): StreamUsage {
    Combine(read, LastSetter(read, Usage, lines), LastSetter(read, Details, lines), LastSetter(read, Model, lines))
  }

  /** What one more event does to a report. */
  function Absorb(out: StreamUsage, e: Option<Envelope>): StreamUsage {
    if e.None? then out
    else
      var named := if e.value.model != "" then out.(model := e.value.model) else out;
      if e.value.usage.None? then named
      else
        var u := e.value.usage.value;
        named.(input := u.prompt, output := u.completion, cached := if u.details.Some? then u.details.value else out.cached)
  }

  lemma LastLineStep(p: string -> bool, before: seq<string>, line: string)
    ensures LastLine(p, before + [line]) == if p(line) then Some(line) else LastLine(p, before)
  {
    assert (before + [line])[..|before|] == before;
  }

  lemma SetterStep(read: Reader, a: Attribute, before: seq<string>, line: string)
    ensures LastSetter(read, a, before + [line]) == if Sets(read, a, line) then Some(line) else LastSetter(read, a, before)
  {
    LastLineStep(Setter(read, a), before, line);
  }

  lemma CombineStep(read: Reader, u: Option<string>, d: Option<string>, m: Option<string>, line: string)
    requires u.Some? ==> SetsUsage(read, u.value)
    requires d.Some? ==> SetsDetails(read, d.value)
    requires m.Some? ==> SetsModel(read, m.value)
    ensures Combine(read, if SetsUsage(read, line) then Some(line) else u,
                    if SetsDetails(read, line) then Some(line) else d,
                    if SetsModel(read, line) then Some(line) else m)
         == Absorb(Combine(read, u, d, m), read(line))
  {
  }

  lemma ReportStep(read: Reader, before: seq<string>, line: string)
    ensures Report(read, before + [line]) == Absorb(Report(read, before), read(line))
    ensures LastSetter(read, Usage, before + [line]).Some?
       <==> LastSetter(read, Usage, before).Some? || SetsUsage(read, line)
  {
    SetterStep(read, Usage, before, line);
    SetterStep(read, Details, before, line);
    SetterStep(read, Model, before, line);
    CombineStep(read, LastSetter(read, Usage, before), LastSetter(read, Details, before),
                LastSetter(read, Model, before), line);
  }

  /** ParseSSEUsage: one pass that overwrites what it has found, proved to find the last of each. */
  method ParseSSEUsage(decode: Decoder, buf: string) returns (out: StreamUsage, found: bool)
    ensures out == Report(DataReader(decode), ScanLines(buf, MAX_TOKEN))
    ensures found <==> exists l :: l in ScanLines(buf, MAX_TOKEN) && SetsUsage(DataReader(decode), l)
  {
    out, found := NO_USAGE, false;
    var lines := ScanLines(buf, MAX_TOKEN);
    for i := 0 to |lines|
      invariant out == Report(DataReader(decode), lines[..i])
      invariant found <==> LastSetter(DataReader(decode), Usage, lines[..i]).Some?
    {
      SetterStep(DataReader(decode), Usage, lines[..i], lines[i]);
      assert lines[..i + 1] == lines[..i] + [lines[i]];
      var sets;
      out, sets := ParseLine(decode, lines[i], out, lines[..i]);
      found := found || sets;
    }
    assert lines[..|lines|] == lines;
    assert found <==> exists l :: l in lines && Sets(DataReader(decode), Usage, l);
  }

  /** The body of the scan loop: given what the lines before report, it finds what they and this line report.
      `sets` says whether it reached the end. */
  method ParseLine(decode: Decoder, line: string, before: StreamUsage, ghost seen: seq<string>)
    returns (out: StreamUsage, sets: bool)
    requires before == Report(DataReader(decode), seen)
    ensures out == Report(DataReader(decode), seen + [line])
    ensures sets <==> SetsUsage(DataReader(decode), line)
  {
    ReportStep(DataReader(decode), seen, line);
    out, sets := before, false;
    if !HasPrefix(line, "data:") {
      OtherLinesSayNothing(decode, line, "", "");
      return;
    }
    var payload := TrimSpace(line[5..]);
    TrimSpaceTrims(line[5..]);
    TrimmedLineSays(decode, line, payload);
    if payload == "" || payload == "[DONE]" {
      return;
    }
    var doc := decode(payload);
    if doc.None? {
      return;
    }
    if doc.value.model != "" {
      out := out.(model := doc.value.model);
    }
    if doc.value.usage.None? {
      return;
    }
    var u := doc.value.usage.value;
    out := out.(input := u.prompt, output := u.completion);
    if u.details.Some? {
      out := out.(cached := u.details.value);
    }
    sets := true;
  }

  /** ParseJSONUsage on the body of a response that is not a stream. */
  function ParseJSONUsage(decode: Decoder, body: string): (StreamUsage, bool) {
    match decode(body)
    case None => (NO_USAGE, false)
    case Some(doc) =>
      if doc.usage.None? then (NO_USAGE.(model := doc.model), false)
      else
        var u := doc.usage.value;
        (StreamUsage(u.prompt, u.completion, if u.details.Some? then u.details.value else 0, doc.model), true)
  }

  /** extractUsage: an SSE response is parsed line by line, any other as one document. */
  method ExtractUsage(decode: Decoder, isStream: bool, eventStream: bool, tail: Tail) returns (u: StreamUsage)
    ensures isStream || eventStream ==> u == Report(DataReader(decode), ScanLines(tail.buf, MAX_TOKEN))
    ensures !isStream && !eventStream ==> u == ParseJSONUsage(decode, tail.buf).0
  {
    if isStream || eventStream {
      var out, _ := ParseSSEUsage(decode, tail.buf);
      return out;
    }
    u := ParseJSONUsage(decode, tail.buf).0;
  }

  lemma EventOfPayload(decode: Decoder, body: string)
    requires Trims(body, body) && body != "" && body != "[DONE]"
    ensures Says(decode, "data:" + body) == decode(body)
  {
    SaysPayload(decode, "data:" + body, body);
  }

  lemma ReportOfOne(read: Reader, line: string)
    ensures Report(read, [line]) == Absorb(NO_USAGE, read(line))
  {
    ReportStep(read, [], line);
    assert [] + [line] == [line];
  }

  /** The two parsers agree: a document reports what a stream of that one event reports. */
  lemma DocumentIsOneEvent(decode: Decoder, body: string)
    requires Trims(body, body) && body != "" && body != "[DONE]"
    ensures ParseJSONUsage(decode, body).0 == Report(DataReader(decode), ["data:" + body])
    ensures ParseJSONUsage(decode, body).1 <==> SetsUsage(DataReader(decode), "data:" + body)
  {
    EventOfPayload(decode, body);
    ReportOfOne(DataReader(decode), "data:" + body);
  }

  // ----- the scanner's limit -----

  /** The scanner takes lines up to 4 MiB and the window is 2 MiB. */
  lemma Sizes()
    ensures MAX_TOKEN == 4194304 && CAPTURE_MAX == 2097152
  {
  }

  /** A buffer shorter than the scanner's limit is scanned to its end. */
  lemma {:induction false} ScannerNeverStops(s: string, k: nat, max: nat)
    requires |s| < max
    ensures ScanAt(s, k, max) == LinesAt(s, k)
    decreases |s| - k
  {
    if k < |s| {
      ScannerNeverStops(s, LineEnd(s, k) + 1, max);
    }
  }

  // ----- the window -----

  lemma LinesUnfold(s: string, k: nat, e: nat, line: string)
    requires k < |s| && LineEnd(s, k) == e && s[k..e] == line
    ensures LinesAt(s, k) == [DropCR(line)] + LinesAt(s, e + 1)
  {
  }

  /** t is what follows the first cut bytes of s. */
  predicate Follows(s: string, cut: nat, t: string) {
    cut + |t| == |s| && forall j :: 0 <= j < |t| ==> t[j] == s[cut + j]
  }

  lemma {:induction false} LineEndOfSuffix(s: string, cut: nat, t: string, k: nat)
    requires Follows(s, cut, t) && k <= |t|
    ensures LineEnd(t, k) + cut == LineEnd(s, cut + k)
    decreases |t| - k
  {
    if k < |t| && t[k] != '\n' {
      LineEndOfSuffix(s, cut, t, k + 1);
    }
  }

  lemma SliceOfSuffix(s: string, cut: nat, t: string, k: nat, e: nat)
    requires Follows(s, cut, t) && k <= e <= |t|
    ensures t[k..e] == s[cut + k..cut + e]
  {
  }

  /** The same line ahead of the same lines. */
  lemma SameFirstLine(s: string, i: nat, t: string, k: nat, e: nat, f: nat)
    requires i < |s| && k < |t| && LineEnd(s, i) == f && LineEnd(t, k) == e && t[k..e] == s[i..f]
    requires LinesAt(t, e + 1) == LinesAt(s, f + 1)
    ensures LinesAt(t, k) == LinesAt(s, i)
  {
    LinesUnfold(t, k, e, t[k..e]);
    LinesUnfold(s, i, f, t[k..e]);
  }

  /** The lines of a suffix are the lines from its offset on. */
  lemma {:induction false} LinesOfSuffix(s: string, cut: nat, t: string, k: nat, i: nat)
    requires Follows(s, cut, t) && i == cut + k
    ensures LinesAt(t, k) == LinesAt(s, i)
    decreases |t| - k
  {
    if k < |t| {
      LineEndOfSuffix(s, cut, t, k);
      LinesOfSuffix(s, cut, t, LineEnd(t, k) + 1, LineEnd(s, i) + 1);
      SuffixStep(s, cut, t, k, i);
    }
  }

  lemma SuffixStep(s: string, cut: nat, t: string, k: nat, i: nat)
    requires Follows(s, cut, t) && i == cut + k && k < |t|
    requires LinesAt(t, LineEnd(t, k) + 1) == LinesAt(s, LineEnd(s, i) + 1)
    ensures LinesAt(t, k) == LinesAt(s, i)
  {
    LineEndOfSuffix(s, cut, t, k);
    SliceOfSuffix(s, cut, t, k, LineEnd(t, k));
    SameFirstLine(s, i, t, k, LineEnd(t, k), LineEnd(s, i));
  }

  lemma {:induction false} SameLineEnd(s: string, k: nat, cut: nat)
    requires k <= |s| && k <= cut <= LineEnd(s, k)
    ensures LineEnd(s, cut) == LineEnd(s, k)
    decreases cut - k
  {
    if k < cut {
      SameLineEnd(s, k + 1, cut);
    }
  }

  /** The lines from offset at are at most one fragment of a line and then rest. */
  predicate FragmentThen(s: string, at: nat, fragment: seq<string>, rest: seq<string>) {
    |fragment| <= 1 && LinesAt(s, at) == fragment + rest
  }

  /** Starting within a line leaves a fragment of it. */
  lemma WithinLine(s: string, cut: nat) returns (fragment: seq<string>)
    requires cut <= |s|
    ensures FragmentThen(s, cut, fragment, LinesAt(s, LineEnd(s, cut) + 1))
  {
    fragment := [];
    if cut < |s| {
      var line := s[cut..LineEnd(s, cut)];
      LinesUnfold(s, cut, LineEnd(s, cut), line);
      fragment := [DropCR(line)];
    }
  }

  lemma NextLinePast(s: string, k: nat, cut: nat)
    requires k < |s| && k < cut
    ensures LinesPast(s, k, cut) == LinesPast(s, LineEnd(s, k) + 1, cut)
  {
  }

  /** Starting at the cut gives at most one fragment of a line, then the lines that start past the cut. */
  lemma {:induction false} CutLines(s: string, k: nat, cut: nat) returns (fragment: seq<string>)
    requires k <= cut <= |s|
    ensures FragmentThen(s, cut, fragment, LinesPast(s, k, cut))
    decreases cut - k
  {
    fragment := [];
    if k < cut {
      NextLinePast(s, k, cut);
      if cut <= LineEnd(s, k) {
        SameLineEnd(s, k, cut);
        fragment := WithinLine(s, cut);
      } else {
        fragment := CutLines(s, LineEnd(s, k) + 1, cut);
      }
    }
  }

  lemma {:induction false} LinesPastIsSuffix(s: string, k: nat, cut: nat) returns (before: seq<string>)
    ensures LinesAt(s, k) == before + LinesPast(s, k, cut)
    decreases |s| - k
  {
    before := [];
    if k < cut && k < |s| {
      var e := LineEnd(s, k);
      before := LinesPastIsSuffix(s, e + 1, cut);
      before := [DropCR(s[k..e])] + before;
    }
  }

  /** Only the end of a stream matters when a line there has the property. */
  lemma {:induction false} LastLineInSuffix(p: string -> bool, before: seq<string>, lines: seq<string>)
    requires exists l :: l in lines && p(l)
    ensures LastLine(p, before + lines) == LastLine(p, lines)
  {
    var n := |lines| - 1;
    var all := before + lines;
    assert all[|all| - 1] == lines[n];
    if !p(lines[n]) {
      assert all[..|all| - 1] == before + lines[..n];
      LastLineInSuffix(p, before, lines[..n]);
    }
  }

  /** The lines of a stream that lie wholly within its last CAPTURE_MAX bytes. */
  function LinesInWindow(stream: string): seq<string> {
    LinesPast(stream, 0, if |stream| <= CAPTURE_MAX then 0 else |stream| - CAPTURE_MAX)
  }

  /** Such a line sets the attribute; the last line of the stream that sets it is then such a line. */
  ghost predicate SetInWindow(read: Reader, a: Attribute, stream: string) {
    exists l :: l in LinesInWindow(stream) && Sets(read, a, l)
  }

  /** What the scanner reads of a window that starts at the cut. */
  lemma WindowLines(stream: string, cut: nat, window: string) returns (fragment: seq<string>)
    requires cut <= |stream| && window == stream[cut..] && |window| < MAX_TOKEN
    ensures |fragment| <= 1 && ScanLines(window, MAX_TOKEN) == fragment + LinesPast(stream, 0, cut)
  {
    ScannerNeverStops(window, 0, MAX_TOKEN);
    LinesOfSuffix(stream, cut, window, 0, cut);
    fragment := CutLines(stream, 0, cut);
  }

  /** The stream and its window end in the same lines. */
  lemma CommonLines(stream: string) returns (fragment: seq<string>, before: seq<string>)
    ensures |fragment| <= 1
    ensures ScanLines(Last(stream, CAPTURE_MAX), MAX_TOKEN) == fragment + LinesInWindow(stream)
    ensures Lines(stream) == before + LinesInWindow(stream)
  {
    var cut := if |stream| <= CAPTURE_MAX then 0 else |stream| - CAPTURE_MAX;
    fragment := WindowLines(stream, cut, Last(stream, CAPTURE_MAX));
    before := LinesPastIsSuffix(stream, 0, cut);
  }

  /** A property that some line wholly in the window has: its last line is the same in stream and window. */
  lemma WindowKeepsLastLine(p: string -> bool, stream: string)
    requires exists l :: l in LinesInWindow(stream) && p(l)
    ensures LastLine(p, ScanLines(Last(stream, CAPTURE_MAX), MAX_TOKEN)) == LastLine(p, Lines(stream))
  {
    var fragment, before := CommonLines(stream);
    LastLineInSuffix(p, fragment, LinesInWindow(stream));
    LastLineInSuffix(p, before, LinesInWindow(stream));
  }

  lemma NoLastLine(p: string -> bool, fragment: seq<string>, before: seq<string>, whole: seq<string>)
    requires |fragment| <= 1 && forall l :: l in before + whole ==> !p(l)
    requires fragment != [] ==> !p(fragment[0])
    ensures LastLine(p, fragment + whole) == None && LastLine(p, before + whole) == None
  {
    forall l | l in whole ensures !p(l) {
      assert l in before + whole;
    }
  }

  /** A property that no line of the stream has, nor the first line of the window, which may be cut. */
  lemma WindowKeepsAbsence(p: string -> bool, stream: string)
    requires forall l :: l in Lines(stream) ==> !p(l)
    requires var window := ScanLines(Last(stream, CAPTURE_MAX), MAX_TOKEN); window != [] ==> !p(window[0])
    ensures LastLine(p, ScanLines(Last(stream, CAPTURE_MAX), MAX_TOKEN)) == LastLine(p, Lines(stream)) == None
  {
    var fragment, before := CommonLines(stream);
    assert fragment != [] ==> (fragment + LinesInWindow(stream))[0] == fragment[0];
    NoLastLine(p, fragment, before, LinesInWindow(stream));
  }

  /** No line of the stream sets the attribute, and neither does what the cut left of the window's first line. */
  ghost predicate SetNowhere(read: Reader, a: Attribute, stream: string) {
    && (forall l :: l in Lines(stream) ==> !Sets(read, a, l))
    && var window := ScanLines(Last(stream, CAPTURE_MAX), MAX_TOKEN);
       window != [] ==> !Sets(read, a, window[0])
  }

  /** One attribute: the window and the whole stream agree on its last setter. */
  lemma WindowKeepsSetter(read: Reader, a: Attribute, stream: string)
    requires SetInWindow(read, a, stream) || SetNowhere(read, a, stream)
    ensures LastSetter(read, a, ScanLines(Last(stream, CAPTURE_MAX), MAX_TOKEN)) == LastSetter(read, a, Lines(stream))
  {
    var p := Setter(read, a);
    if SetInWindow(read, a, stream) {
      var l :| l in LinesInWindow(stream) && Sets(read, a, l);
      assert p(l);
      WindowKeepsLastLine(p, stream);
    } else {
      WindowKeepsAbsence(p, stream);
    }
  }

  lemma LastOfFragment(p: string -> bool, fragment: seq<string>, whole: seq<string>)
    requires |fragment| <= 1 && forall l :: l in whole ==> !p(l)
    ensures LastLine(p, fragment + whole) == FirstIf(p, fragment + whole)
  {
    var lines := fragment + whole;
    assert forall l :: l in lines && p(l) ==> fragment == [l] && lines[0] == l;
  }

  /** The first line, if p holds of it. */
  function FirstIf(p: string -> bool, lines: seq<string>): Option<string> {
    if lines != [] && p(lines[0]) then Some(lines[0]) else None
  }

  /** Exactly when window and stream agree on the last line with a property: such a line lies wholly in the
      window, or the window's first line, where alone the property can still hold, is the stream's last. */
  lemma WindowAgreesExactly(p: string -> bool, stream: string)
    ensures var window := ScanLines(Last(stream, CAPTURE_MAX), MAX_TOKEN);
      LastLine(p, window) == LastLine(p, Lines(stream))
      <==> (exists l :: l in LinesInWindow(stream) && p(l)) || FirstIf(p, window) == LastLine(p, Lines(stream))
  {
    if exists l :: l in LinesInWindow(stream) && p(l) {
      WindowKeepsLastLine(p, stream);
    } else {
      var fragment, before := CommonLines(stream);
      LastOfFragment(p, fragment, LinesInWindow(stream));
    }
  }

  /** SSE window soundness: if lines that set usage, cached-token details and a model all lie wholly in the
      window (or nothing sets the attribute at all), then parsing the window, however the body was chunked
      and whatever else the truncated first line contains, gives what every line of the whole stream gives. */
  lemma WindowSoundness(read: Reader, chunks: seq<string>)
    requires forall a :: SetInWindow(read, a, Concat(chunks)) || SetNowhere(read, a, Concat(chunks))
    ensures Report(read, ScanLines(WriteAll(CAPTURE_MAX, chunks), MAX_TOKEN)) == Report(read, Lines(Concat(chunks)))
  {
    var stream := Concat(chunks);
    WindowIsTheEnd(CAPTURE_MAX, chunks);
    WindowKeepsSetter(read, Usage, stream);
    WindowKeepsSetter(read, Details, stream);
    WindowKeepsSetter(read, Model, stream);
  }

  /** A payload that stands on one line and decodes to a usage: for instance a compact JSON document. */
  ghost predicate Forgeable(decode: Decoder, p: string) {
    && 0 < |p| < CAPTURE_MAX - 6 && '\n' !in p && DropCR(p) == p && Trims(p, p) && p != "[DONE]"
    && decode(p).Some? && decode(p).value.usage.Some?
  }

  /** Ordinary text that fills the window after a data line with that payload. */
  function Padding(p: string): string
    requires |p| <= CAPTURE_MAX - 6
  {
    seq(CAPTURE_MAX - 6 - |p|, _ => 'x')
  }

  lemma NothingInTheStream(decode: Decoder, p: string)
    requires Forgeable(decode, p)
    ensures forall l :: l in Lines("xdata:" + p + ['\n'] + Padding(p)) ==> Says(decode, l).None?
  {
    var line := "xdata:" + p;
    assert line[|line| - 1] == p[|p| - 1];
    TwoLines(line, Padding(p), line + ['\n'] + Padding(p));
    NotData(decode, line);
    NotData(decode, Padding(p));
  }

  lemma UsageInTheWindow(decode: Decoder, p: string)
    requires Forgeable(decode, p)
    ensures LastSetter(DataReader(decode), Usage, Lines("data:" + p + ['\n'] + Padding(p))) == Some("data:" + p)
  {
    var line := "data:" + p;
    assert line[|line| - 1] == p[|p| - 1];
    TwoLines(line, Padding(p), line + ['\n'] + Padding(p));
    NotData(decode, Padding(p));
    EventOfPayload(decode, p);
    LastOfTwo(Setter(DataReader(decode), Usage), line, Padding(p));
  }

  /** The truncated first line matters when nothing after it overrides it: a line of ordinary text, cut just
      before an embedded "data:", is read as a usage line that the stream does not contain, whatever usage
      document follows the "data:". */
  lemma TruncatedLineCanForgeUsage(decode: Decoder, p: string)
    requires Forgeable(decode, p)
    ensures var stream := "xdata:" + p + ['\n'] + Padding(p);
      && (forall l :: l in Lines(stream) ==> Says(decode, l).None?)
      && LastSetter(DataReader(decode), Usage, ScanLines(Last(stream, CAPTURE_MAX), MAX_TOKEN)) == Some("data:" + p)
  {
    var stream, window := "xdata:" + p + ['\n'] + Padding(p), "data:" + p + ['\n'] + Padding(p);
    assert Last(stream, CAPTURE_MAX) == window;
    ScannerNeverStops(window, 0, MAX_TOKEN);
    NothingInTheStream(decode, p);
    UsageInTheWindow(decode, p);
  }

  lemma LastOfTwo(p: string -> bool, a: string, b: string)
    requires p(a) && !p(b)
    ensures LastLine(p, [a, b]) == Some(a)
  {
    assert [a, b] == [a] + [b];
    LastLineStep(p, [a], b);
  }

  lemma NotData(decode: Decoder, line: string)
    requires line != "" && line[0] == 'x'
    ensures Says(decode, line).None?
  {
    assert |line| >= 5 ==> line[..5][0] == 'x';
    OtherLinesSayNothing(decode, line, "", "");
  }

  lemma {:induction false} LineEndIs(s: string, k: nat, e: nat)
    requires k <= e <= |s| && (e < |s| ==> s[e] == '\n') && forall j :: k <= j < e ==> s[j] != '\n'
    ensures LineEnd(s, k) == e
    decreases e - k
  {
    if k < e {
      LineEndIs(s, k + 1, e);
    }
  }

  /** A newline-free text that stands at k, up to a newline or the end, is the line there. */
  lemma LineIs(s: string, k: nat, line: string)
    requires '\n' !in line && DropCR(line) == line && k < |s| && k + |line| <= |s|
    requires forall j :: 0 <= j < |line| ==> line[j] == s[k + j]
    requires k + |line| < |s| ==> s[k + |line|] == '\n'
    ensures LinesAt(s, k) == [line] + LinesAt(s, k + |line| + 1)
  {
    var e := k + |line|;
    forall j | k <= j < e ensures s[j] != '\n' {
      assert line[j - k] in line;
    }
    LineEndIs(s, k, e);
    assert s[k..e] == line;
    LinesUnfold(s, k, e, line);
  }

  /** The carriage return of a "\r\n" is not part of the line. */
  lemma CrLfLineIs(s: string, k: nat, line: string)
    requires '\n' !in line && k + |line| + 1 < |s|
    requires forall j :: 0 <= j < |line| ==> line[j] == s[k + j]
    requires s[k + |line|] == '\r' && s[k + |line| + 1] == '\n'
    ensures LinesAt(s, k) == [line] + LinesAt(s, k + |line| + 2)
  {
    var e := k + |line| + 1;
    forall j | k <= j < e ensures s[j] != '\n' {
      assert j < k + |line| ==> line[j - k] in line;
    }
    LineEndIs(s, k, e);
    assert s[k..e] == line + ['\r'];
    assert DropCR(line + ['\r']) == line;
    LinesUnfold(s, k, e, line + ['\r']);
  }

  /** A line that does not fit ends the scan: neither it nor any later line is seen. */
  lemma TooLongLineStops(s: string, k: nat, max: nat)
    requires k + max <= |s| && k < |s| && forall j :: k <= j < k + max ==> s[j] != '\n'
    ensures ScanAt(s, k, max) == []
  {
    LineEndPast(s, k, k + max);
  }

  lemma {:induction false} LineEndPast(s: string, k: nat, e: nat)
    requires k <= e <= |s| && forall j :: k <= j < e ==> s[j] != '\n'
    ensures LineEnd(s, k) >= e
    decreases e - k
  {
    if k < e {
      LineEndPast(s, k + 1, e);
    }
  }

  lemma TwoLines(a: string, b: string, s: string)
    requires '\n' !in a && '\n' !in b && b != "" && DropCR(a) == a && DropCR(b) == b
    requires s == a + ['\n'] + b
    ensures Lines(s) == [a, b]
  {
    LineIs(s, 0, a);
    LineIs(s, |a| + 1, b);
  }

  /** A body that fits the window is parsed whole, as a stream and as one JSON document. */
  lemma SmallBodyParsedWhole(decode: Decoder, chunks: seq<string>)
    requires |Concat(chunks)| <= CAPTURE_MAX
    ensures WriteAll(CAPTURE_MAX, chunks) == Concat(chunks)
    ensures ScanLines(WriteAll(CAPTURE_MAX, chunks), MAX_TOKEN) == Lines(Concat(chunks))
    ensures ParseJSONUsage(decode, WriteAll(CAPTURE_MAX, chunks)) == ParseJSONUsage(decode, Concat(chunks))
  {
    WindowIsTheEnd(CAPTURE_MAX, chunks);
    ScannerNeverStops(Concat(chunks), 0, MAX_TOKEN);
  }

}
