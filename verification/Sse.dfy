/** The dashboard's incremental decoder of the answer stream (`web/src/lib/features/chat/sse.ts`).

    The wire format is that of sections 9.2.5 and 9.2.6 of the WHATWG HTML Standard, except that a
    frame with no data line is still dispatched, and an event name survives to dispatch only with its
    own frame. */
module Sse {
  import opened Text

  datatype Frame = Frame(event: string, data: string)

  /** The frame in progress: its event name, its data lines, and whether it had any field at all. */
  datatype Partial = Partial(event: string, data: seq<string>, fielded: bool)

  const EMPTY: Partial := Partial("", [], false)
  const DEFAULT_EVENT: string := "message"

  /** Everything the decoder keeps between two chunks. */
  datatype State = State(buffer: string, part: Partial)

  const INITIAL: State := State("", EMPTY)

  // ---------------------------------------------------------------- one line

  /** The first colon at or after `from`, or the length of the line. */
  function ColonFrom(line: string, from: nat): (i: nat)
    requires from <= |line|
    ensures from <= i <= |line|
    ensures i < |line| ==> line[i] == ':'
    ensures forall j :: from <= j < i ==> line[j] != ':'
    decreases |line| - from
  {
    if from == |line| || line[from] == ':' then from else ColonFrom(line, from + 1)
  }

  function StripSpace(value: string): string {
    if value != "" && value[0] == ' ' then value[1..] else value
  }

  function FieldName(line: string): string {
    line[..ColonFrom(line, 0)]
  }

  function FieldValue(line: string): string {
    var i := ColonFrom(line, 0);
    StripSpace(if i == |line| then "" else line[i + 1..])
  }

  /** What a blank line dispatches: nothing unless some field was seen. */
  function Dispatched(p: Partial): seq<Frame> {
    if p.fielded then [Frame(if p.event == "" then DEFAULT_EVENT else p.event, Join(p.data, "\n"))] else []
  }

  /** The frame in progress after one more line. */
  function After(line: string, p: Partial): Partial {
    if line == "" then EMPTY
    else if line[0] == ':' then p
    else if FieldName(line) == "event" then p.(event := FieldValue(line), fielded := true)
    else if FieldName(line) == "data" then p.(data := p.data + [FieldValue(line)], fielded := true)
    else p
  }

  /** The frames one more line completes. */
  function Completed(line: string, p: Partial): seq<Frame> {
    if line == "" then Dispatched(p) else []
  }

  // ---------------------------------------------------------------- lines out of text

  /** The first line terminator at or after `from`, or the length of the text. */
  function BreakFrom(text: string, from: nat): (i: nat)
    requires from <= |text|
    ensures from <= i <= |text|
    ensures i < |text| ==> text[i] == '\n' || text[i] == '\r'
    ensures forall j :: from <= j < i ==> text[j] != '\n' && text[j] != '\r'
    decreases |text| - from
  {
    if from == |text| || text[from] == '\n' || text[from] == '\r' then from else BreakFrom(text, from + 1)
  }

  /** The text holds a line whose end is certain: a carriage return that ends the text is not. */
  predicate HasLine(text: string) {
    var i := BreakFrom(text, 0);
    i < |text| && (text[i] == '\n' || i + 1 < |text|)
  }

  function LineOf(text: string): string
    requires HasLine(text)
  {
    text[..BreakFrom(text, 0)]
  }

  /** Past the terminator of the first line, two characters for CRLF. */
  function RestOf(text: string): (r: string)
    requires HasLine(text)
    ensures |r| < |text|
  {
    var i := BreakFrom(text, 0);
    if text[i] == '\r' && text[i + 1] == '\n' then text[i + 2..] else text[i + 1..]
  }

  /** The frames completed by all the certain lines of `text`. */
  function Frames(text: string, p: Partial): seq<Frame>
    decreases |text|
  {
    if !HasLine(text) then []
    else Completed(LineOf(text), p) + Frames(RestOf(text), After(LineOf(text), p))
  }

  /** What is kept once all the certain lines of `text` are consumed. */
  function Kept(text: string, p: Partial): State
    decreases |text|
  {
    if !HasLine(text) then State(text, p)
    else Kept(RestOf(text), After(LineOf(text), p))
  }

  // ---------------------------------------------------------------- the decoder

  /** Past the line terminator at `i`, two characters for CRLF. */
  function NextLine(text: string, i: nat): (next: nat)
    requires i < |text| && (text[i] == '\n' || i + 1 < |text|)
    ensures i < next <= |text|
  {
    i + if text[i] == '\r' && text[i + 1] == '\n' then 2 else 1
  }

  /** No line terminator lies in `text[start..i]`. */
  ghost predicate Scanned(text: string, start: nat, i: nat)
    requires start <= |text|
  {
    i <= start + BreakFrom(text[start..], 0)
  }

  /** From `start` on, the text still yields the frames `rest` and leaves the state `end`. */
  ghost predicate Owed(text: string, start: nat, p: Partial, rest: seq<Frame>, end: State)
    requires start <= |text|
  {
    rest == Frames(text[start..], p) && end == Kept(text[start..], p)
  }

  /** The scan position against the first terminator of what is still to be consumed. */
  lemma BreakInSuffix(text: string, start: nat, i: nat)
    requires start <= i <= |text| && Scanned(text, start, i)
    ensures i < |text| && (text[i] == '\n' || text[i] == '\r') ==> i == start + BreakFrom(text[start..], 0)
    ensures i < |text| && text[i] != '\n' && text[i] != '\r' ==> Scanned(text, start, i + 1)
    ensures i == |text| ==> !HasLine(text[start..])
    ensures i + 1 == |text| && text[i] == '\r' ==> !HasLine(text[start..])
  {
    var b := BreakFrom(text[start..], 0);
    assert i < |text| ==> text[start..][i - start] == text[i];
    assert start + b < |text| ==> text[start..][b] == text[start + b];
  }

  lemma FirstLineOf(rest: string, line: string, tail: string, p: Partial)
    requires HasLine(rest) && line == LineOf(rest) && tail == RestOf(rest)
    ensures Frames(rest, p) == Completed(line, p) + Frames(tail, After(line, p))
    ensures Kept(rest, p) == Kept(tail, After(line, p))
  {
  }

  /** A line of the text, seen from where the text before it ends. */
  lemma LineInSuffix(text: string, start: nat, n: nat, next: nat, rest: string, line: string, tail: string)
    requires start + n < next <= |text| && rest == text[start..] && line == text[start..start + n] && tail == text[next..]
    requires n == BreakFrom(rest, 0)
    requires (text[start + n] == '\n' || start + n + 1 < |text|) && next == NextLine(text, start + n)
    ensures HasLine(rest) && line == LineOf(rest) && tail == RestOf(rest)
  {
    InSuffix(text, start, n, next);
  }

  /** Consuming the line `text[start..i]`, with the next one starting at `next`. */
  lemma FirstLine(text: string, start: nat, line: string, next: nat, p: Partial)
    requires start + |line| < next <= |text| && line == text[start..start + |line|]
    requires |line| == BreakFrom(text[start..], 0)
    requires var i := start + |line|;
             (text[i] == '\n' || i + 1 < |text|) && next == NextLine(text, i)
    ensures Frames(text[start..], p) == Completed(line, p) + Frames(text[next..], After(line, p))
    ensures Kept(text[start..], p) == Kept(text[next..], After(line, p))
  {
    LineInSuffix(text, start, |line|, next, text[start..], line, text[next..]);
    FirstLineOf(text[start..], line, text[next..], p);
  }

  class Decoder {
    var buffer: string
    var event: string
    var data: seq<string>
    var fielded: bool

    function Held(): State
      reads this
    {
      State(buffer, Partial(event, data, fielded))
    }

    constructor ()
      ensures Held() == INITIAL
    {
      buffer, event, data, fielded := "", "", [], false;
    }

    method Dispatch() returns (frames: seq<Frame>)
      modifies this
      ensures frames == Dispatched(old(Held()).part)
      ensures Held() == State(old(buffer), EMPTY)
    {
      if fielded {
        frames := [Frame(if event == "" then DEFAULT_EVENT else event, Join(data, "\n"))];
      } else {
        frames := [];
      }
      event, data, fielded := "", [], false;
    }

    method Consume(line: string) returns (frames: seq<Frame>)
      modifies this
      ensures frames == Completed(line, old(Held()).part)
      ensures Held() == State(old(buffer), After(line, old(Held()).part))
    {
      frames := [];
      if line == "" {
        frames := Dispatch();
      } else if line[0] != ':' {
        var name, value := FieldName(line), FieldValue(line);
        if name == "event" {
          event, fielded := value, true;
        } else if name == "data" {
          data, fielded := data + [value], true;
        }
      }
    }

    /** One chunk of the stream: the scan over the buffer with its carriage-return look-ahead. */
    method Push(chunk: string) returns (frames: seq<Frame>)
      modifies this
      ensures frames == Frames(old(buffer) + chunk, old(Held()).part)
      ensures Held() == Kept(old(buffer) + chunk, old(Held()).part)
    {
      buffer := buffer + chunk;
      frames := [];
      var start: nat, i: nat := 0, 0;
      ghost var all, end := Frames(buffer, Held().part), Kept(buffer, Held().part);
      ghost var rest := all;
      assert buffer[0..] == buffer;
      while i < |buffer|
        invariant buffer == old(buffer) + chunk
        invariant start <= i <= |buffer| && Scanned(buffer, start, i)
        invariant Owed(buffer, start, Held().part, rest, end)
        invariant frames + rest == all
        decreases |buffer| - i
      {
        BreakInSuffix(buffer, start, i);
        if buffer[i] == '\n' || buffer[i] == '\r' {
          if buffer[i] == '\r' && i == |buffer| - 1 {
            break;
          }
          var done;
          done, rest := TakeLine(start, i, rest, end);
          Regroup(frames, done, rest);
          frames := frames + done;
          i := NextLine(buffer, i);
          start := i;
        } else {
          i := i + 1;
        }
      }
      BreakInSuffix(buffer, start, i);
      buffer := buffer[start..];
      assert frames + [] == frames;
    }

    /** Consuming the line that starts at `start` and is terminated at `i`. */
    method TakeLine(start: nat, i: nat, ghost before: seq<Frame>, ghost end: State)
      returns (done: seq<Frame>, ghost rest: seq<Frame>)
      requires start <= i < |buffer| && i == start + BreakFrom(buffer[start..], 0)
      requires buffer[i] == '\n' || i + 1 < |buffer|
      requires Owed(buffer, start, Held().part, before, end)
      modifies this
      ensures buffer == old(buffer)
      ensures before == done + rest
      ensures Owed(buffer, NextLine(buffer, i), Held().part, rest, end)
    {
      FirstLine(buffer, start, buffer[start..i], NextLine(buffer, i), Held().part);
      done := Consume(buffer[start..i]);
      rest := Frames(buffer[NextLine(buffer, i)..], Held().part);
    }
  }

  // ---------------------------------------------------------------- chunk boundaries

  lemma BreakPrefix(a: string, b: string)
    requires HasLine(a)
    ensures HasLine(a + b) && LineOf(a + b) == LineOf(a) && RestOf(a + b) == RestOf(a) + b
  {
    var i := BreakFrom(a, 0);
    assert forall j :: 0 <= j < |a| ==> (a + b)[j] == a[j];
    assert BreakFrom(a + b, 0) == i;
    assert (a + b)[..i] == a[..i];
    assert (a + b)[i + 1..] == a[i + 1..] + b;
    if a[i] == '\r' && a[i + 1] == '\n' {
      assert (a + b)[i + 2..] == a[i + 2..] + b;
    }
  }

  /** Cutting the stream anywhere, even inside a CRLF, changes neither the frames nor the state. */
  lemma {:induction false} PushSplits(a: string, b: string, p: Partial)
    ensures var mid := Kept(a, p);
            && Frames(a + b, p) == Frames(a, p) + Frames(mid.buffer + b, mid.part)
            && Kept(a + b, p) == Kept(mid.buffer + b, mid.part)
    decreases |a|
  {
    if HasLine(a) {
      BreakPrefix(a, b);
      var next := After(LineOf(a), p);
      PushSplits(RestOf(a), b, next);
      var mid := Kept(RestOf(a), next);
      Regroup(Completed(LineOf(a), p), Frames(RestOf(a), next), Frames(mid.buffer + b, mid.part));
    } else {
      assert [] + Frames(a + b, p) == Frames(a + b, p);
    }
  }

  /** The frames of a stream that arrives as `chunks`, decoded from state `s`. */
  function Streamed(chunks: seq<string>, s: State): seq<Frame>
    decreases |chunks|
  {
    if chunks == [] then []
    else Frames(s.buffer + chunks[0], s.part) + Streamed(chunks[1..], Kept(s.buffer + chunks[0], s.part))
  }

  lemma {:induction false} KeptHasNoLine(text: string, p: Partial)
    ensures !HasLine(Kept(text, p).buffer)
    decreases |text|
  {
    if HasLine(text) {
      KeptHasNoLine(RestOf(text), After(LineOf(text), p));
    }
  }

  /** However many pieces the network makes of a stream, its frames are those of the whole. */
  lemma {:induction false} StreamedWhole(chunks: seq<string>, s: State)
    requires !HasLine(s.buffer)
    ensures Streamed(chunks, s) == Frames(s.buffer + Concat(chunks), s.part)
    decreases |chunks|
  {
    if chunks == [] {
      assert s.buffer + "" == s.buffer;
    } else {
      var a, b := s.buffer + chunks[0], Concat(chunks[1..]);
      var mid := Kept(a, s.part);
      KeptHasNoLine(a, s.part);
      StreamedWhole(chunks[1..], mid);
      PushSplits(a, b, s.part);
      Regroup(s.buffer, chunks[0], b);
    }
  }

  /** The frames of a whole stream, read by a fresh decoder. */
  function Decode(text: string): seq<Frame> {
    Frames(text, EMPTY)
  }

  lemma StreamedAfresh(chunks: seq<string>, s: State)
    requires s.buffer == ""
    ensures Streamed(chunks, s) == Frames(Concat(chunks), s.part)
  {
    StreamedWhole(chunks, s);
    Neutral(Concat(chunks));
  }

  lemma DecodeAnySplit(chunks: seq<string>)
    ensures Streamed(chunks, INITIAL) == Decode(Concat(chunks))
  {
    StreamedAfresh(chunks, INITIAL);
  }
}
