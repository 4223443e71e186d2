/** The bytes the API writes for each frame, and what the decoder makes of them.

    The serialiser starts a fresh `data: ` after every line feed or carriage return of a value, and
    writes no data line at all for an empty value (`web/src/lib/features/chat/sse.ts:11-24`). */
module SseEncoding {
  import opened Text
  import opened Sse

  // ---------------------------------------------------------------- the serialiser

  predicate IsTerminator(c: char) {
    c == '\n' || c == '\r'
  }

  predicate OneLine(s: string) {
    forall i :: 0 <= i < |s| ==> !IsTerminator(s[i])
  }

  function Prefixed(d: string): string {
    if d == "" then ""
    else if IsTerminator(d[0]) then [d[0]] + ("data: " + Prefixed(d[1..]))
    else [d[0]] + Prefixed(d[1..])
  }

  function EncodeData(d: string): string {
    if d == "" then "" else "data: " + (Prefixed(d) + "\n")
  }

  function Encode(f: Frame): string {
    "event: " + f.event + "\n" + (EncodeData(f.data) + "\n")
  }

  /** What the wire carries: frames, and the keep-alive comments between them. */
  datatype Item = Event(frame: Frame) | KeepAlive

  function EncodeItem(item: Item): string {
    match item
    case Event(f) => Encode(f)
    case KeepAlive => ":\n\n"
  }

  function Wire(items: seq<Item>): string {
    if items == [] then "" else EncodeItem(items[0]) + Wire(items[1..])
  }

  // ---------------------------------------------------------------- what arrives

  /** The value with every carriage return read as a line feed. */
  function Unreturned(d: string): (r: string)
    ensures |r| == |d|
    ensures forall i :: 0 <= i < |d| ==> r[i] == if d[i] == '\r' then '\n' else d[i]
  {
    if d == "" then "" else [if d[0] == '\r' then '\n' else d[0]] + Unreturned(d[1..])
  }

  function Delivered(f: Frame): Frame {
    Frame(if f.event == "" then DEFAULT_EVENT else f.event, Unreturned(f.data))
  }

  function Received(items: seq<Item>): seq<Frame> {
    if items == [] then []
    else if items[0].KeepAlive? then Received(items[1..])
    else [Delivered(items[0].frame)] + Received(items[1..])
  }

  predicate Sendable(items: seq<Item>) {
    forall i :: 0 <= i < |items| ==> items[i].Event? ==> OneLine(items[i].frame.event)
  }

  // ---------------------------------------------------------------- reading line by line

  /** Decoding `text` from `p` yields `frames` and leaves `rest` to be decoded from `q`. */
  ghost predicate Reads(text: string, p: Partial, frames: seq<Frame>, rest: string, q: Partial) {
    Frames(text, p) == frames + Frames(rest, q) && Kept(text, p) == Kept(rest, q)
  }

  lemma ReadsThen(text: string, p: Partial, a: seq<Frame>, mid: string, q: Partial, b: seq<Frame>, rest: string, r: Partial)
    requires Reads(text, p, a, mid, q) && Reads(mid, q, b, rest, r)
    ensures Reads(text, p, a + b, rest, r)
  {
    Regroup(a, b, Frames(rest, r));
  }

  /** One line with its terminator. A carriage return counts as one only before something else than
      a line feed. */
  lemma ReadsLine(line: string, terminator: char, rest: string, p: Partial)
    requires OneLine(line) && IsTerminator(terminator)
    requires terminator == '\r' ==> rest != "" && rest[0] != '\n'
    ensures Reads(line + [terminator] + rest, p, Completed(line, p), rest, After(line, p))
  {
    var text, i := line + [terminator] + rest, |line|;
    assert text[i] == terminator;
    assert forall j :: 0 <= j < i ==> text[j] == line[j];
    assert BreakFrom(text, 0) == i;
    assert i + 1 < |text| ==> text[i + 1] == rest[0];
    assert text[..i] == line && text[i + 1..] == rest;
  }

  lemma ReadsBlankLine(text: string, p: Partial)
    requires text != "" && text[0] == '\n'
    ensures Reads(text, p, Dispatched(p), text[1..], EMPTY)
  {
    assert BreakFrom(text, 0) == 0;
    assert LineOf(text) == "";
  }

  lemma ColonAt(line: string, i: nat)
    requires i < |line| && line[i] == ':' && forall j :: 0 <= j < i ==> line[j] != ':'
    ensures ColonFrom(line, 0) == i
  {
  }

  lemma DataLine(value: string, p: Partial)
    ensures After("data: " + value, p) == p.(data := p.data + [value], fielded := true)
    ensures Completed("data: " + value, p) == []
  {
    var line := "data: " + value;
    ColonAt(line, 4);
    assert line[..4] == "data";
    assert line[5..] == " " + value && (" " + value)[1..] == value;
  }

  lemma EventLine(name: string, p: Partial)
    ensures After("event: " + name, p) == p.(event := name, fielded := true)
    ensures Completed("event: " + name, p) == []
  {
    var line := "event: " + name;
    ColonAt(line, 5);
    assert line[..5] == "event";
    assert line[6..] == " " + name && (" " + name)[1..] == name;
  }

  /** The lines of a value, the first of them begun with `cur`. */
  function LinesFrom(cur: string, d: string): (lines: seq<string>)
    ensures |lines| > 0
    decreases |d|
  {
    if d == "" then [cur]
    else if IsTerminator(d[0]) then [cur] + LinesFrom("", d[1..])
    else LinesFrom(cur + [d[0]], d[1..])
  }

  lemma JoinCons(first: string, rest: seq<string>)
    requires rest != []
    ensures Join([first] + rest, "\n") == first + "\n" + Join(rest, "\n")
  {
    assert ([first] + rest)[1..] == rest;
  }

  lemma {:induction false} JoinLines(cur: string, d: string)
    ensures Join(LinesFrom(cur, d), "\n") == cur + Unreturned(d)
    decreases |d|
  {
    if d == "" {
    } else if IsTerminator(d[0]) {
      JoinLines("", d[1..]);
      JoinCons(cur, LinesFrom("", d[1..]));
      assert "" + Unreturned(d[1..]) == Unreturned(d[1..]);
      Regroup(cur, "\n", Unreturned(d[1..]));
    } else {
      JoinLines(cur + [d[0]], d[1..]);
      Regroup(cur, [d[0]], Unreturned(d[1..]));
    }
  }

  /** The data lines that hold `cur` followed by `d`. */
  function DataText(cur: string, d: string, rest: string): string {
    "data: " + cur + (Prefixed(d) + "\n") + rest
  }

  lemma PrefixedBreak(d: string, more: string)
    requires d != "" && IsTerminator(d[0]) && more == Prefixed(d[1..]) + "\n"
    ensures Prefixed(d) + "\n" == [d[0]] + ("data: " + more)
  {
  }

  lemma Weave(head: string, c: string, prefix: string, more: string, rest: string)
    ensures head + (c + (prefix + more)) + rest == head + c + (prefix + "" + more + rest)
  {
    Regroup(head, c, prefix + more);
    Regroup(head + c, prefix + more, rest);
    assert prefix + "" == prefix;
  }

  lemma DataTextBreak(cur: string, d: string, rest: string)
    requires d != "" && IsTerminator(d[0])
    ensures DataText(cur, d, rest) == "data: " + cur + [d[0]] + DataText("", d[1..], rest)
    ensures DataText("", d[1..], rest) != "" && DataText("", d[1..], rest)[0] == 'd'
  {
    var more := Prefixed(d[1..]) + "\n";
    PrefixedBreak(d, more);
    Weave("data: " + cur, [d[0]], "data: ", more, rest);
  }

  lemma DataTextChar(cur: string, d: string, rest: string)
    requires d != "" && !IsTerminator(d[0])
    ensures DataText(cur, d, rest) == DataText(cur + [d[0]], d[1..], rest)
  {
    var more := Prefixed(d[1..]) + "\n";
    assert Prefixed(d) + "\n" == [d[0]] + more;
    assert "data: " + cur + ([d[0]] + more) == "data: " + (cur + [d[0]]) + more;
  }

  ghost predicate ReadsDataText(cur: string, d: string, rest: string, p: Partial) {
    Reads(DataText(cur, d, rest), p, [], rest, p.(data := p.data + LinesFrom(cur, d), fielded := true))
  }

  /** One data line. */
  lemma ReadsDataLine(cur: string, terminator: char, tail: string, p: Partial)
    requires OneLine(cur) && IsTerminator(terminator) && tail != "" && tail[0] != '\n'
    ensures Reads("data: " + cur + [terminator] + tail, p, [], tail, p.(data := p.data + [cur], fielded := true))
  {
    DataLine(cur, p);
    ReadsLine("data: " + cur, terminator, tail, p);
  }

  lemma ReadsMore(text: string, p: Partial, mid: string, q: Partial, rest: string, r: Partial)
    requires Reads(text, p, [], mid, q) && Reads(mid, q, [], rest, r)
    ensures Reads(text, p, [], rest, r)
  {
    ReadsThen(text, p, [], mid, q, [], rest, r);
    Neutral<Frame>([]);
  }

  lemma ReadsDataBreak(cur: string, d: string, rest: string, p: Partial)
    requires OneLine(cur) && d != "" && IsTerminator(d[0])
    requires ReadsDataText("", d[1..], rest, p.(data := p.data + [cur], fielded := true))
    ensures ReadsDataText(cur, d, rest, p)
  {
    var q := p.(data := p.data + [cur], fielded := true);
    var tail := DataText("", d[1..], rest);
    DataTextBreak(cur, d, rest);
    ReadsDataLine(cur, d[0], tail, p);
    Regroup(p.data, [cur], LinesFrom("", d[1..]));
    ReadsMore(DataText(cur, d, rest), p, tail, q, rest, p.(data := p.data + LinesFrom(cur, d), fielded := true));
  }

  lemma {:induction false} ReadsData(cur: string, d: string, rest: string, p: Partial)
    requires OneLine(cur)
    ensures ReadsDataText(cur, d, rest, p)
    decreases |d|
  {
    if d == "" {
      DataLine(cur, p);
      ReadsLine("data: " + cur, '\n', rest, p);
      assert Prefixed(d) + "\n" == ['\n'];
    } else if IsTerminator(d[0]) {
      ReadsData("", d[1..], rest, p.(data := p.data + [cur], fielded := true));
      ReadsDataBreak(cur, d, rest, p);
    } else {
      ReadsData(cur + [d[0]], d[1..], rest, p);
      DataTextChar(cur, d, rest);
    }
  }

  lemma BodyText(data: string, rest: string)
    ensures EncodeData(data) + "\n" + rest == if data == "" then "\n" + rest else DataText("", data, "\n" + rest)
  {
    var more := Prefixed(data) + "\n";
    if data == "" {
      assert "" + "\n" == "\n";
    } else {
      Regroup("data: " + more, "\n", rest);
      assert "data: " + "" == "data: ";
    }
  }

  /** The data lines of a frame, if any, up to its blank line. */
  lemma ReadsBody(f: Frame, rest: string, q: Partial) returns (r: Partial)
    requires q == Partial(f.event, [], true)
    ensures Reads(EncodeData(f.data) + "\n" + rest, q, [], "\n" + rest, r)
    ensures Dispatched(r) == [Delivered(f)]
  {
    BodyText(f.data, rest);
    if f.data == "" {
      r := q;
    } else {
      ReadsData("", f.data, "\n" + rest, q);
      r := q.(data := LinesFrom("", f.data));
      assert q.data + LinesFrom("", f.data) == r.data;
      JoinLines("", f.data);
      assert "" + Unreturned(f.data) == Unreturned(f.data);
    }
  }

  lemma EncodeBody(f: Frame, rest: string)
    ensures Encode(f) + rest == "event: " + f.event + ['\n'] + (EncodeData(f.data) + "\n" + rest)
  {
  }

  lemma ReadsEvent(f: Frame, rest: string)
    requires OneLine(f.event)
    ensures Reads(Encode(f) + rest, EMPTY, [Delivered(f)], rest, EMPTY)
  {
    var q := Partial(f.event, [], true);
    var body := EncodeData(f.data) + "\n" + rest;
    EventLine(f.event, EMPTY);
    ReadsLine("event: " + f.event, '\n', body, EMPTY);
    EncodeBody(f, rest);
    var r := ReadsBody(f, rest, q);
    ReadsBlankLine("\n" + rest, r);
    ReadsThen(Encode(f) + rest, EMPTY, [], body, q, [], "\n" + rest, r);
    ReadsThen(Encode(f) + rest, EMPTY, [], "\n" + rest, r, [Delivered(f)], rest, EMPTY);
  }

  lemma ReadsKeepAlive(rest: string)
    ensures Reads(":\n\n" + rest, EMPTY, [], rest, EMPTY)
  {
    ReadsLine(":", '\n', "\n" + rest, EMPTY);
    assert ":" + ['\n'] + ("\n" + rest) == ":\n\n" + rest;
    ReadsBlankLine("\n" + rest, EMPTY);
    ReadsThen(":\n\n" + rest, EMPTY, [], "\n" + rest, EMPTY, [], rest, EMPTY);
  }

  lemma {:induction false} ReadsWire(items: seq<Item>, rest: string)
    requires Sendable(items)
    ensures Reads(Wire(items) + rest, EMPTY, Received(items), rest, EMPTY)
    decreases |items|
  {
    if items == [] {
      assert Wire(items) + rest == rest;
      assert [] + Frames(rest, EMPTY) == Frames(rest, EMPTY);
    } else {
      var tail := Wire(items[1..]) + rest;
      Regroup(EncodeItem(items[0]), Wire(items[1..]), rest);
      ReadsWire(items[1..], rest);
      if items[0].KeepAlive? {
        ReadsKeepAlive(tail);
        ReadsThen(Wire(items) + rest, EMPTY, [], tail, EMPTY, Received(items[1..]), rest, EMPTY);
        assert [] + Received(items[1..]) == Received(items);
      } else {
        ReadsEvent(items[0].frame, tail);
        ReadsThen(Wire(items) + rest, EMPTY, [Delivered(items[0].frame)], tail, EMPTY, Received(items[1..]), rest, EMPTY);
      }
    }
  }

  // ---------------------------------------------------------------- round trip

  /** Decoding what the API wrote gives back its frames in order, keep-alives leave no trace, and
      nothing is left in the decoder, under any chunking. */
  lemma DecodeWire(items: seq<Item>, chunks: seq<string>)
    requires Sendable(items) && Concat(chunks) == Wire(items)
    ensures Streamed(chunks, INITIAL) == Received(items)
    ensures Kept(Wire(items), EMPTY) == INITIAL
  {
    DecodeAnySplit(chunks);
    ReadsWire(items, "");
    assert Wire(items) + "" == Wire(items);
    assert Received(items) + [] == Received(items);
  }

  /** A frame comes back exactly as it was sent if and only if it was named and its value holds no
      carriage return. */
  lemma RoundTripIff(f: Frame)
    requires OneLine(f.event)
    ensures Decode(Encode(f)) == [f] <==> f.event != "" && '\r' !in f.data
  {
    DecodeWire([Event(f)], [Encode(f)]);
    assert Wire([Event(f)]) == Encode(f) by {
      assert [Event(f)][1..] == [];
      assert Encode(f) + "" == Encode(f);
    }
    assert Concat([Encode(f)]) == Encode(f) by {
      assert [Encode(f)][1..] == [];
      assert Encode(f) + "" == Encode(f);
    }
    DecodeAnySplit([Encode(f)]);
    assert Received([Event(f)]) == [Delivered(f)] by {
      assert [Event(f)][1..] == [];
    }
    if '\r' in f.data {
      var i :| 0 <= i < |f.data| && f.data[i] == '\r';
      assert Unreturned(f.data)[i] == '\n';
    } else {
      assert Unreturned(f.data) == f.data;
    }
  }

  // ---------------------------------------------------------------- line endings

  /** The text with CRLF and CR written as LF. */
  function Normalised(text: string): string
    decreases |text|
  {
    if text == "" then ""
    else if text[0] != '\r' then [text[0]] + Normalised(text[1..])
    else if |text| > 1 && text[1] == '\n' then "\n" + Normalised(text[2..])
    else "\n" + Normalised(text[1..])
  }

  lemma {:induction false} NormalisedLine(line: string, rest: string)
    requires OneLine(line)
    ensures Normalised(line + rest) == line + Normalised(rest)
    decreases |line|
  {
    if line == "" {
      assert line + rest == rest;
    } else {
      assert (line + rest)[0] == line[0] && (line + rest)[1..] == line[1..] + rest;
      NormalisedLine(line[1..], rest);
      Regroup([line[0]], line[1..], Normalised(rest));
    }
  }

  lemma NormalisedBreak(text: string, i: nat)
    requires i < |text| && IsTerminator(text[i]) && (text[i] == '\n' || i + 1 < |text|)
    ensures Normalised(text[i..]) == "\n" + Normalised(text[NextLine(text, i)..])
  {
    var t := text[i..];
    assert t[0] == text[i] && t[1..] == text[i + 1..];
    if i + 1 < |text| {
      assert t[1] == text[i + 1] && t[2..] == text[i + 2..];
    }
  }

  /** CRLF, CR and LF all end a line: a stream that does not end in a bare carriage return decodes
      like its LF-only form. */
  lemma {:induction false} EndingsAgree(text: string, p: Partial)
    requires text != "" ==> text[|text| - 1] != '\r'
    ensures Frames(text, p) == Frames(Normalised(text), p)
    decreases |text|
  {
    var i := BreakFrom(text, 0);
    var line := text[..i];
    if HasLine(text) {
      var rest := RestOf(text);
      EndingsAgree(rest, After(line, p));
      assert text == line + text[i..];
      NormalisedLine(line, text[i..]);
      assert Normalised(text[i..]) == "\n" + Normalised(rest) by {
        NormalisedBreak(text, i);
      }
      Regroup(line, "\n", Normalised(rest));
      ReadsLine(line, '\n', Normalised(rest), p);
    } else {
      assert i == |text| && text == line + "";
      NormalisedLine(line, "");
    }
  }
}
