/** The widget's own decoder of the answer stream (`widget/widget.js`), and where it agrees with the
    dashboard's. */
module Widget {
  import opened Text
  import opened Sse
  import opened SseEncoding

  // ---------------------------------------------------------------- specification

  /** The characters JavaScript's `trim` removes. */
  predicate IsJsSpace(c: char) {
    || '\t' <= c <= '\r' || c == ' ' || c == '\U{00A0}' || c == '\U{1680}'
    || '\U{2000}' <= c <= '\U{200A}' || c == '\U{2028}' || c == '\U{2029}'
    || c == '\U{202F}' || c == '\U{205F}' || c == '\U{3000}' || c == '\U{FEFF}'
  }

  function JsTrim(s: string): string {
    if s != "" && IsJsSpace(s[0]) then JsTrim(s[1..])
    else if s != "" && IsJsSpace(s[|s| - 1]) then JsTrim(s[..|s| - 1])
    else s
  }

  predicate StartsWith(s: string, prefix: string) {
    |prefix| <= |s| && s[..|prefix|] == prefix
  }

  /** `raw.split('\n')`. */
  function SplitLines(raw: string): (lines: seq<string>)
    ensures |lines| > 0
    decreases |raw|
  {
    match FindFrom(raw, "\n", 0)
    case None => [raw]
    case Some(i) => [raw[..i]] + SplitLines(raw[i + 1..])
  }

  /** The event name and data lines gathered so far from one block. */
  datatype Parsed = Parsed(event: string, data: seq<string>)

  function ParsedAfter(line: string, p: Parsed): Parsed {
    if StartsWith(line, "event:") then p.(event := JsTrim(line[6..]))
    else if StartsWith(line, "data:") then p.(data := p.data + [StripSpace(line[5..])])
    else p
  }

  function ParsedLines(lines: seq<string>, p: Parsed): Parsed
    decreases |lines|
  {
    if lines == [] then p else ParsedLines(lines[1..], ParsedAfter(lines[0], p))
  }

  const FRESH: Parsed := Parsed("message", [])

  function EventOf(raw: string): Frame {
    var p := ParsedLines(SplitLines(raw), FRESH);
    Frame(p.event, Join(p.data, "\n"))
  }

  /** The events of the blocks of `buffer` that are closed by a blank line. */
  function Events(buffer: string): seq<Frame>
    decreases |buffer|
  {
    match FindFrom(buffer, "\n\n", 0)
    case None => []
    case Some(i) => [EventOf(buffer[..i])] + Events(buffer[i + 2..])
  }

  /** What is left once those blocks are cut off. */
  function Unread(buffer: string): string
    decreases |buffer|
  {
    match FindFrom(buffer, "\n\n", 0)
    case None => buffer
    case Some(i) => Unread(buffer[i + 2..])
  }

  // ---------------------------------------------------------------- the widget's reader

  method ParseEvent(raw: string) returns (frame: Frame)
    ensures frame == EventOf(raw)
  {
    var event: string, data: seq<string> := "message", [];
    var lines := SplitLines(raw);
    for i := 0 to |lines|
      invariant ParsedLines(lines[i..], Parsed(event, data)) == ParsedLines(lines, FRESH)
    {
      var line := lines[i];
      assert lines[i..][1..] == lines[i + 1..];
      if StartsWith(line, "event:") {
        event := JsTrim(line[6..]);
      } else if StartsWith(line, "data:") {
        data := data + [StripSpace(line[5..])];
      }
    }
    frame := Frame(event, Join(data, "\n"));
  }

  class Reader {
    var buffer: string

    constructor ()
      ensures buffer == ""
    {
      buffer := "";
    }

    /** One chunk of the stream: cut and parse every closed block. */
    method Read(chunk: string) returns (events: seq<Frame>)
      modifies this
      ensures events == Events(old(buffer) + chunk)
      ensures buffer == Unread(old(buffer) + chunk)
    {
      buffer := buffer + chunk;
      events := [];
      ghost var rest := Events(buffer);
      ghost var all := rest;
      while FindFrom(buffer, "\n\n", 0).Some?
        invariant rest == Events(buffer) && events + rest == all
        invariant Unread(buffer) == Unread(old(buffer) + chunk)
        decreases |buffer|
      {
        var i := FindFrom(buffer, "\n\n", 0).value;
        var frame := ParseEvent(buffer[..i]);
        buffer := buffer[i + 2..];
        rest := Events(buffer);
        Regroup(events, [frame], rest);
        events := events + [frame];
      }
      assert events + [] == events;
    }
  }

  // ---------------------------------------------------------------- chunk boundaries

  lemma FoundEarlier(a: string, b: string)
    requires FindFrom(a, "\n\n", 0).Some?
    ensures FindFrom(a + b, "\n\n", 0) == FindFrom(a, "\n\n", 0)
  {
    var i := FindFrom(a, "\n\n", 0).value;
    assert (a + b)[i..i + 2] == a[i..i + 2];
    forall j | 0 <= j < i ensures !OccursAt(a + b, "\n\n", j) {
      assert (a + b)[j..j + 2] == a[j..j + 2];
      assert !OccursAt(a, "\n\n", j);
    }
    FindIs(a + b, "\n\n", 0, i);
  }

  lemma {:induction false} ReadSplits(a: string, b: string)
    ensures Events(a + b) == Events(a) + Events(Unread(a) + b)
    decreases |a|
  {
    match FindFrom(a, "\n\n", 0)
    case None =>
      assert [] + Events(a + b) == Events(a + b);
    case Some(i) =>
      FoundEarlier(a, b);
      assert (a + b)[..i] == a[..i] && (a + b)[i + 2..] == a[i + 2..] + b;
      ReadSplits(a[i + 2..], b);
      Regroup([EventOf(a[..i])], Events(a[i + 2..]), Events(Unread(a) + b));
  }

  /** The events of a stream that arrives as `chunks`, with `held` still unread. */
  function WidgetStreamed(chunks: seq<string>, held: string): seq<Frame>
    decreases |chunks|
  {
    if chunks == [] then []
    else Events(held + chunks[0]) + WidgetStreamed(chunks[1..], Unread(held + chunks[0]))
  }

  lemma {:induction false} UnreadHasNone(buffer: string)
    ensures FindFrom(Unread(buffer), "\n\n", 0).None?
    decreases |buffer|
  {
    match FindFrom(buffer, "\n\n", 0)
    case None =>
    case Some(i) => UnreadHasNone(buffer[i + 2..]);
  }

  /** However many pieces the network makes of a stream, the widget reads the same events. */
  lemma {:induction false} WidgetStreamedWhole(chunks: seq<string>, held: string)
    requires FindFrom(held, "\n\n", 0).None?
    ensures WidgetStreamed(chunks, held) == Events(held + Concat(chunks))
    decreases |chunks|
  {
    if chunks == [] {
      assert held + "" == held;
    } else {
      UnreadHasNone(held + chunks[0]);
      WidgetStreamedWhole(chunks[1..], Unread(held + chunks[0]));
      ReadSplits(held + chunks[0], Concat(chunks[1..]));
      Regroup(held, chunks[0], Concat(chunks[1..]));
    }
  }

  // ---------------------------------------------------------------- agreement with the dashboard

  const NAMES: set<string> := {"conversation", "sources", "token", "error", "done"}

  /** The frames whose event is one of the five the API emits; both clients ignore all others. */
  function Named(frames: seq<Frame>): seq<Frame> {
    if frames == [] then []
    else if frames[0].event in NAMES then [frames[0]] + Named(frames[1..])
    else Named(frames[1..])
  }

  /** A line both decoders read alike: no field without its colon, and an event name that one
      leading space apart is already trimmed. */
  predicate Plain(line: string) {
    && line != "event" && line != "data"
    && (StartsWith(line, "event:") ==> JsTrim(line[6..]) == StripSpace(line[6..]))
  }

  predicate AllPlain(lines: seq<string>) {
    forall i :: 0 <= i < |lines| ==> Plain(lines[i])
  }

  /** The two decoders' views of a block, line for line. */
  predicate Agree(p: Partial, w: Parsed) {
    && p.data == w.data
    && (p.event == "" ==> w.event == "message" || w.event == "")
    && (p.event != "" ==> p.fielded && w.event == p.event)
    && (!p.fielded ==> p.data == [])
  }

  lemma NamedAppend(a: seq<Frame>, b: seq<Frame>)
    ensures Named(a + b) == Named(a) + Named(b)
    decreases |a|
  {
    if a == [] {
      assert a + b == b;
    } else {
      SplitFirst(a, b);
      NamedAppend(a[1..], b);
      Regroup([a[0]], Named(a[1..]), Named(b));
    }
  }

  lemma FieldOf(line: string, name: string)
    requires name == "event" || name == "data"
    ensures StartsWith(line, name + ":") ==> FieldName(line) == name && FieldValue(line) == StripSpace(line[|name| + 1..])
    ensures FieldName(line) == name && line != name ==> StartsWith(line, name + ":")
  {
    var k := |name|;
    if StartsWith(line, name + ":") {
      assert forall j :: 0 <= j <= k ==> line[j] == (name + ":")[j];
      ColonAt(line, k);
      assert line[..k] == name;
    }
    if FieldName(line) == name && line != name {
      assert ColonFrom(line, 0) == k;
      assert line[..k + 1] == line[..k] + [line[k]];
    }
  }

  lemma AgreeAfter(line: string, p: Partial, w: Parsed)
    requires Plain(line) && line != "" && Agree(p, w)
    ensures Agree(After(line, p), ParsedAfter(line, w))
  {
    FieldOf(line, "event");
    FieldOf(line, "data");
    assert "event" + ":" == "event:" && "data" + ":" == "data:";
  }

  lemma AgreeDispatch(p: Partial, w: Parsed)
    requires Agree(p, w)
    ensures Named(Dispatched(p)) == Named([Frame(w.event, Join(w.data, "\n"))])
  {
    var f := Frame(w.event, Join(w.data, "\n"));
    assert [f][1..] == [];
    if p.fielded {
      var g := Dispatched(p)[0];
      assert [g][1..] == [];
    }
  }

  /** No blank line inside `raw`, nor at either of its ends. */
  predicate Solid(raw: string) {
    && raw != "" && raw[0] != '\n' && raw[|raw| - 1] != '\n' && '\r' !in raw
    && forall i :: 0 <= i < |raw| - 1 ==> raw[i] != '\n' || raw[i + 1] != '\n'
  }

  lemma NewlineAt(raw: string)
    requires '\r' !in raw
    ensures var i := FindFrom(raw, "\n", 0);
            if i.None? then OneLine(raw) else raw[i.value] == '\n' && OneLine(raw[..i.value])
  {
    var found := FindFrom(raw, "\n", 0);
    var i := if found.None? then |raw| else found.value;
    forall j | 0 <= j < i ensures raw[j] != '\n' && raw[j] != '\r' {
      assert raw[j] in raw;
      assert raw[j..j + 1] == [raw[j]];
      assert !OccursAt(raw, "\n", j);
    }
    if found.Some? {
      assert raw[i..i + 1] == [raw[i]];
    }
  }

  lemma CutAtNewline(raw: string, i: nat, rest: string)
    requires i < |raw| && raw[i] == '\n'
    ensures raw + rest == raw[..i] + ['\n'] + (raw[i + 1..] + rest)
  {
    assert raw == raw[..i] + ['\n'] + raw[i + 1..];
    Regroup(raw[..i] + ['\n'], raw[i + 1..], rest);
  }

  lemma SolidTail(raw: string, i: nat)
    requires Solid(raw) && i < |raw| && raw[i] == '\n'
    ensures 0 < i && Solid(raw[i + 1..])
  {
    var more := raw[i + 1..];
    assert more != "" && more[0] == raw[i + 1] && more[|more| - 1] == raw[|raw| - 1];
    assert forall j :: 0 <= j < |more| ==> more[j] == raw[i + 1 + j];
  }

  lemma {:induction false} ReadsLinesOf(raw: string, rest: string, p: Partial, w: Parsed) returns (q: Partial)
    requires Solid(raw) && AllPlain(SplitLines(raw)) && Agree(p, w)
    ensures Reads(raw + "\n" + rest, p, [], rest, q) && Agree(q, ParsedLines(SplitLines(raw), w))
    decreases |raw|
  {
    NewlineAt(raw);
    match FindFrom(raw, "\n", 0)
    case None =>
      assert SplitLines(raw)[0] == raw && SplitLines(raw)[1..] == [];
      q := After(raw, p);
      AgreeAfter(raw, p, w);
      ReadsLine(raw, '\n', rest, p);
    case Some(i) =>
      var line, more := raw[..i], raw[i + 1..];
      assert SplitLines(raw)[0] == line && SplitLines(raw)[1..] == SplitLines(more);
      SolidTail(raw, i);
      AgreeAfter(line, p, w);
      ReadsLine(line, '\n', more + "\n" + rest, p);
      Regroup(more, "\n", rest);
      Regroup(raw, "\n", rest);
      q := ReadsLinesOf(more, rest, After(line, p), ParsedAfter(line, w));
      CutAtNewline(raw, i, "\n" + rest);
      ReadsThen(raw + "\n" + rest, p, [], more + "\n" + rest, After(line, p), [], rest, q);
  }

  /** One closed block: the dashboard dispatches what the widget parses, as far as the five names go. */
  lemma BlockAgrees(raw: string, rest: string) returns (frames: seq<Frame>)
    requires (raw == "" || Solid(raw)) && AllPlain(SplitLines(raw))
    ensures Reads(raw + "\n\n" + rest, EMPTY, frames, rest, EMPTY)
    ensures Named(frames) == Named([EventOf(raw)])
  {
    var q := EMPTY;
    assert raw + "\n\n" + rest == raw + "\n" + ("\n" + rest);
    if raw == "" {
      assert SplitLines(raw) == [""] && [""][1..] == [];
      ReadsBlankLine("\n" + ("\n" + rest), EMPTY);
    } else {
      q := ReadsLinesOf(raw, "\n" + rest, EMPTY, FRESH);
    }
    ReadsBlankLine("\n" + rest, q);
    frames := [] + Dispatched(q);
    ReadsThen(raw + "\n\n" + rest, EMPTY, [], "\n" + rest, q, Dispatched(q), rest, EMPTY);
    AgreeDispatch(q, ParsedLines(SplitLines(raw), FRESH));
    assert frames == Dispatched(q);
  }

  lemma LeadingNewline(raw: string)
    requires raw != "" && raw[0] == '\n'
    ensures SplitLines(raw) == [""] + SplitLines(raw[1..]) && SplitLines(raw)[1..] == SplitLines(raw[1..])
    ensures EventOf(raw) == EventOf(raw[1..])
  {
    assert raw[0..1] == "\n";
    FindIs(raw, "\n", 0, 0);
  }

  /** The same for a block that starts with a blank line of its own. */
  lemma PaddedBlockAgrees(raw: string, rest: string) returns (frames: seq<Frame>)
    requires raw != "" && raw[0] == '\n' && Solid(raw[1..]) && AllPlain(SplitLines(raw))
    ensures Reads(raw + "\n\n" + rest, EMPTY, frames, rest, EMPTY)
    ensures Named(frames) == Named([EventOf(raw)])
  {
    var more := raw[1..];
    LeadingNewline(raw);
    ReadsBlankLine(raw + ("\n\n" + rest), EMPTY);
    SplitFirst(raw, "\n\n" + rest);
    frames := BlockAgrees(more, rest);
    Regroup(more, "\n\n", rest);
    Regroup(raw, "\n\n", rest);
    ReadsThen(raw + "\n\n" + rest, EMPTY, [], more + "\n\n" + rest, EMPTY, frames, rest, EMPTY);
    Neutral(frames);
  }

  lemma {:induction false} SplitLinesAppend(a: string, b: string)
    ensures SplitLines(a + "\n" + b) == SplitLines(a) + SplitLines(b)
    decreases |a|
  {
    var text := a + "\n" + b;
    match FindFrom(a, "\n", 0)
    case None =>
      forall j | 0 <= j < |a| ensures !OccursAt(text, "\n", j) {
        assert text[j..j + 1] == a[j..j + 1];
        assert !OccursAt(a, "\n", j);
      }
      assert text[|a|..|a| + 1] == "\n";
      FindIs(text, "\n", 0, |a|);
      assert text[..|a|] == a && text[|a| + 1..] == b;
    case Some(i) =>
      var more := a[i + 1..];
      forall j | 0 <= j < i ensures !OccursAt(text, "\n", j) {
        assert text[j..j + 1] == a[j..j + 1];
        assert !OccursAt(a, "\n", j);
      }
      assert text[i..i + 1] == a[i..i + 1];
      FindIs(text, "\n", 0, i);
      assert text[..i] == a[..i] && text[i + 1..] == more + "\n" + b;
      SplitLinesAppend(more, b);
      Regroup([a[..i]], SplitLines(more), SplitLines(b));
  }

  predicate FinishedPlain(lines: seq<string>) {
    lines == [] || AllPlain(lines[..|lines| - 1])
  }

  /** A stream with LF line ends, every finished line of which both decoders read alike. */
  predicate PlainStream(text: string) {
    '\r' !in text && FinishedPlain(SplitLines(text))
  }

  lemma PlainParts(a: seq<string>, b: seq<string>)
    requires b != [] && FinishedPlain(a + b)
    ensures AllPlain(a) && FinishedPlain(b)
  {
    var finished := (a + b)[..|a + b| - 1];
    assert finished == a + b[..|b| - 1];
    forall i | 0 <= i < |a| ensures Plain(a[i]) {
      assert finished[i] == a[i];
    }
    forall i | 0 <= i < |b| - 1 ensures Plain(b[i]) {
      assert finished[|a| + i] == b[i];
    }
  }

  lemma NoReturnParts(a: string, b: string, c: string)
    requires '\r' !in a + b + c
    ensures '\r' !in a && '\r' !in c
  {
  }

  lemma BlockLines(raw: string, rest: string)
    ensures SplitLines(raw + "\n\n" + rest) == SplitLines(raw) + SplitLines("\n" + rest)
    ensures SplitLines("\n" + rest) == SplitLines("") + SplitLines(rest)
  {
    SplitLinesAppend(raw, "\n" + rest);
    SplitLinesAppend("", rest);
    assert raw + "\n\n" + rest == raw + "\n" + ("\n" + rest);
    assert "" + "\n" + rest == "\n" + rest;
  }

  lemma PlainBlock(raw: string, rest: string)
    requires PlainStream(raw + "\n\n" + rest)
    ensures AllPlain(SplitLines(raw)) && PlainStream(rest) && '\r' !in raw
  {
    BlockLines(raw, rest);
    PlainParts(SplitLines(raw), SplitLines("\n" + rest));
    PlainParts(SplitLines(""), SplitLines(rest));
    NoReturnParts(raw, "\n\n", rest);
  }

  lemma NoBlankBefore(text: string, i: nat)
    requires i <= |text| && forall j :: 0 <= j < i ==> !OccursAt(text, "\n\n", j)
    ensures forall j :: 0 <= j < i && j + 1 < |text| ==> text[j] != '\n' || text[j + 1] != '\n'
  {
    forall j | 0 <= j < i && j + 1 < |text| ensures text[j] != '\n' || text[j + 1] != '\n' {
      assert text[j..j + 2] == [text[j], text[j + 1]];
      assert !OccursAt(text, "\n\n", j);
    }
  }

  /** What lies before the first blank line: nothing, a block, or a block after one blank line. */
  lemma BeforeBlank(text: string, i: nat)
    requires FindFrom(text, "\n\n", 0) == Some(i) && '\r' !in text
    ensures var raw := text[..i];
            raw == "" || Solid(raw) || (raw[0] == '\n' && Solid(raw[1..]))
  {
    var raw := text[..i];
    assert text[i..i + 2] == "\n\n";
    assert text[i] == text[i..i + 2][0];
    NoBlankBefore(text, i);
    assert '\r' !in raw && '\r' !in raw[if raw == "" then 0 else 1..];
  }

  lemma {:induction false} NothingDispatched(text: string, p: Partial)
    requires text != "" ==> text[0] != '\n'
    requires '\r' !in text && forall j :: 0 <= j < |text| - 1 ==> text[j] != '\n' || text[j + 1] != '\n'
    ensures Frames(text, p) == []
    decreases |text|
  {
    if HasLine(text) {
      var i := BreakFrom(text, 0);
      assert text[i] in text;
      var rest := RestOf(text);
      assert rest == text[i + 1..] && i > 0;
      assert forall j :: 0 <= j < |rest| ==> rest[j] == text[i + 1 + j];
      NothingDispatched(rest, After(LineOf(text), p));
      assert LineOf(text) != "";
    }
  }

  lemma NoBlockNoFrames(text: string)
    requires '\r' !in text && FindFrom(text, "\n\n", 0).None?
    ensures Frames(text, EMPTY) == []
  {
    NoBlankBefore(text, |text|);
    if text != "" && text[0] == '\n' {
      var rest := text[1..];
      ReadsBlankLine(text, EMPTY);
      assert forall j :: 0 <= j < |rest| ==> rest[j] == text[1 + j];
      NothingDispatched(rest, EMPTY);
    } else {
      NothingDispatched(text, EMPTY);
    }
  }

  /** On such a stream the widget and the dashboard deliver the same events, in the same order, among
      the five names the API emits. */
  lemma {:induction false} DecodersAgree(text: string)
    requires PlainStream(text)
    ensures Named(Events(text)) == Named(Decode(text))
    decreases |text|
  {
    match FindFrom(text, "\n\n", 0)
    case None =>
      NoBlockNoFrames(text);
    case Some(i) =>
      var raw, rest := text[..i], text[i + 2..];
      assert text == raw + "\n\n" + rest;
      PlainBlock(raw, rest);
      BeforeBlank(text, i);
      var frames;
      if raw != "" && raw[0] == '\n' {
        frames := PaddedBlockAgrees(raw, rest);
      } else {
        frames := BlockAgrees(raw, rest);
      }
      DecodersAgree(rest);
      NamedAppend(frames, Frames(rest, EMPTY));
      NamedAppend([EventOf(raw)], Events(rest));
  }

  /** And so they do under any chunking, the same for both or not. */
  lemma ClientsAgree(chunks: seq<string>, others: seq<string>)
    requires Concat(chunks) == Concat(others) && PlainStream(Concat(chunks))
    ensures Named(WidgetStreamed(others, "")) == Named(Streamed(chunks, INITIAL))
  {
    DecodeAnySplit(chunks);
    WidgetStreamedWhole(others, "");
    assert "" + Concat(others) == Concat(chunks);
    DecodersAgree(Concat(chunks));
  }
}
