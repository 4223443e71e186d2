/** The two consumers of the answer stream: the dashboard's `ask` (`web/src/lib/features/chat/ask.ts`)
    and the widget's turn (`widget/widget.js`).

    `Source` is abstract and so is `parse`, which reads a serialised list of sources. */
module AskClients {
  import opened Text
  import opened Sse
  import Widget

  datatype Message = Unreachable | Rejected | Generic | CutShort | NoWords

  datatype Outcome = Ok(refused: bool) | Failed(message: Message)

  /** What the caller's handlers are told. */
  datatype Call<S> = Conversation(id: string) | Sources(sources: seq<S>) | Token(text: string)

  type Parser<!S> = string -> Option<seq<S>>

  datatype Progress<S> = Progress(sources: seq<S>, tokens: nat, done: bool, failed: bool, calls: seq<Call<S>>)

  function Start<S>(): Progress<S> {
    Progress([], 0, false, false, [])
  }

  function SourcesIn<S>(data: string, parse: Parser<S>): seq<S> {
    match parse(data)
    case None => []
    case Some(sources) => sources
  }

  predicate Ended<S>(p: Progress<S>) {
    p.done || p.failed
  }

  /** The reaction to one frame. */
  function React<S>(f: Frame, p: Progress<S>, parse: Parser<S>): Progress<S> {
    if f.event == "conversation" then p.(calls := p.calls + [Conversation(f.data)])
    else if f.event == "sources" then
      var sources := SourcesIn(f.data, parse);
      p.(sources := sources, calls := p.calls + [Sources(sources)])
    else if f.event == "token" then p.(tokens := p.tokens + 1, calls := p.calls + [Token(f.data)])
    else if f.event == "error" then p.(failed := true)
    else if f.event == "done" then p.(done := true)
    else p
  }

  /** Reading frames up to and including the first terminal one. */
  function ReadAll<S>(frames: seq<Frame>, p: Progress<S>, parse: Parser<S>): Progress<S>
    decreases |frames|
  {
    if frames == [] || Ended(p) then p else ReadAll(frames[1..], React(frames[0], p, parse), parse)
  }

  function Verdict<S>(p: Progress<S>): Outcome {
    if p.failed then Failed(Generic)
    else if !p.done then Failed(CutShort)
    else if p.sources != [] && p.tokens == 0 then Failed(NoWords)
    else Ok(p.sources == [])
  }

  lemma {:induction false} ReadAppend<S>(a: seq<Frame>, b: seq<Frame>, p: Progress<S>, parse: Parser<S>)
    ensures ReadAll(a + b, p, parse) == ReadAll(b, ReadAll(a, p, parse), parse)
    decreases |a|
  {
    if a == [] {
      assert a + b == b;
    } else if !Ended(p) {
      SplitFirst(a, b);
      ReadAppend(a[1..], b, React(a[0], p, parse), parse);
    }
  }

  /** The sources a list of frames leaves: those of its last `sources` frame. */
  function LastSources<S>(frames: seq<Frame>, none: seq<S>, parse: Parser<S>): seq<S> {
    if frames == [] then none
    else
      var last := frames[|frames| - 1];
      if last.event == "sources" then SourcesIn(last.data, parse) else LastSources(frames[..|frames| - 1], none, parse)
  }

  ghost predicate Open(frames: seq<Frame>) {
    forall i :: 0 <= i < |frames| ==> frames[i].event != "error" && frames[i].event != "done"
  }

  ghost predicate Has(frames: seq<Frame>, event: string) {
    exists i :: 0 <= i < |frames| && frames[i].event == event
  }

  lemma HasSnoc(frames: seq<Frame>, front: seq<Frame>, last: Frame, event: string)
    requires frames == front + [last]
    ensures Has(frames, event) <==> Has(front, event) || last.event == event
  {
    assert frames[|front|] == last;
    assert forall i :: 0 <= i < |front| ==> frames[i] == front[i];
  }

  lemma FrontOf(frames: seq<Frame>, front: seq<Frame>, last: Frame)
    requires frames == front + [last]
    ensures Open(frames) <==> Open(front) && last.event != "error" && last.event != "done"
  {
    assert frames[|front|] == last;
    assert forall i :: 0 <= i < |front| ==> frames[i] == front[i];
  }

  lemma ReadOne<S>(f: Frame, p: Progress<S>, parse: Parser<S>)
    requires !Ended(p)
    ensures ReadAll([f], p, parse) == React(f, p, parse)
  {
    assert [f][1..] == [];
  }

  lemma {:induction false} OpenReads<S>(frames: seq<Frame>, parse: Parser<S>)
    requires Open(frames)
    ensures var p := ReadAll(frames, Start(), parse);
            !Ended(p) && p.sources == LastSources(frames, [], parse) && (p.tokens > 0 <==> Has(frames, "token"))
  {
    if frames != [] {
      var front, last := frames[..|frames| - 1], frames[|frames| - 1];
      assert frames == front + [last];
      FrontOf(frames, front, last);
      HasSnoc(frames, front, last, "token");
      OpenReads(front, parse);
      ReadAppend(front, [last], Start(), parse);
      ReadOne(last, ReadAll(front, Start(), parse), parse);
    }
  }

  /** The verdict by the frames: an unfinished stream is cut short, an error is one, and a finished stream had
      words, or no sources, or neither was right. Nothing after the end is read. */
  lemma VerdictIs<S>(open: seq<Frame>, last: Frame, rest: seq<Frame>, parse: Parser<S>)
    requires Open(open)
    ensures Verdict(ReadAll(open, Start(), parse)) == Failed(CutShort)
    ensures last.event == "error" ==> Verdict(ReadAll(open + [last] + rest, Start(), parse)) == Failed(Generic)
    ensures last.event == "done" ==>
              var sources := LastSources(open, [], parse);
              Verdict(ReadAll(open + [last] + rest, Start(), parse))
              == if sources != [] && !Has(open, "token") then Failed(NoWords) else Ok(sources == [])
  {
    var p := ReadAll(open, Start(), parse);
    OpenReads(open, parse);
    ReadAppend(open, [last], Start(), parse);
    ReadAppend(open + [last], rest, Start(), parse);
    ReadOne(last, p, parse);
  }

  /** What the network gives a client: nothing, a refusal, no body, or a body in chunks, after which the
      socket closes or dies. */
  datatype Response = Unanswered | NotOk(status: nat) | NoBody | Body(chunks: seq<string>, died: bool)

  method ReadFrames<S>(frames: seq<Frame>, before: Progress<S>, parse: Parser<S>) returns (p: Progress<S>)
    ensures p == ReadAll(frames, before, parse)
  {
    p := before;
    var i := 0;
    while i < |frames| && !Ended(p)
      invariant 0 <= i <= |frames|
      invariant ReadAll(frames[i..], p, parse) == ReadAll(frames, before, parse)
    {
      assert frames[i..][0] == frames[i] && frames[i..][1..] == frames[i + 1..];
      p := React(frames[i], p, parse);
      i := i + 1;
    }
  }

  /** The body's frames, one chunk at a time, until a terminal frame. */
  method ReadBody<S>(chunks: seq<string>, parse: Parser<S>) returns (p: Progress<S>)
    ensures p == ReadAll(Streamed(chunks, INITIAL), Start(), parse)
  {
    var decoder := new Decoder();
    p := Start();
    ghost var all := Streamed(chunks, INITIAL);
    var i := 0;
    while i < |chunks| && !Ended(p)
      invariant 0 <= i <= |chunks|
      invariant ReadAll(Streamed(chunks[i..], decoder.Held()), p, parse) == ReadAll(all, Start(), parse)
    {
      ghost var held := decoder.Held();
      var frames := decoder.Push(chunks[i]);
      assert chunks[i..][0] == chunks[i] && chunks[i..][1..] == chunks[i + 1..];
      ReadAppend(frames, Streamed(chunks[i + 1..], decoder.Held()), p, parse);
      p := ReadFrames(frames, p, parse);
      i := i + 1;
    }
  }

  /** A dead socket is to the dashboard the end of the body. */
  method Ask<S>(res: Response, parse: Parser<S>) returns (outcome: Outcome, calls: seq<Call<S>>)
    ensures match res
            case Unanswered => outcome == Failed(Unreachable) && calls == []
            case NotOk(_) => outcome == Failed(Rejected) && calls == []
            case NoBody => outcome == Failed(Generic) && calls == []
            case Body(chunks, _) =>
              var p := ReadAll(Streamed(chunks, INITIAL), Start(), parse);
              outcome == Verdict(p) && calls == p.calls
  {
    match res {
      case Unanswered => return Failed(Unreachable), [];
      case NotOk(_) => return Failed(Rejected), [];
      case NoBody => return Failed(Generic), [];
      case Body(chunks, _) =>
        var p := ReadBody(chunks, parse);
        return Verdict(p), p.calls;
    }
  }

  // ---------------------------------------------------------------- the widget's turn

  const SOMETHING_WRONG: string := "Something went wrong. Please ask again."
  const INTERRUPTED: string := "The connection was interrupted. Please ask again."
  const CUT_OFF: string := "The answer was cut short. Please ask again."
  const NOTHING_SAID: string := "I found relevant information but couldn't produce an answer. Please ask again."
  const BUSY: string := "The assistant is busy right now \U{2014} please wait a moment and try again."
  const UNAVAILABLE: string := "The assistant isn't available right now. Please try again later."

  /** The bubble on the page; the widget's own messages are muted. */
  datatype Bubble = Bubble(text: string, muted: bool)

  datatype Turn<S> = Turn(bubble: Bubble, answer: string, tokens: nat, sources: seq<S>, done: bool, error: bool)

  function Blank<S>(): Turn<S> {
    Turn(Bubble("", false), "", 0, [], false, false)
  }

  /** The bubble is overwritten with a message of the widget's own. */
  function Saying<S>(t: Turn<S>, message: string): Turn<S> {
    t.(bubble := Bubble(message, true))
  }

  /** The widget's reaction to one event. No event stops it. */
  function OnEvent<S>(f: Frame, t: Turn<S>, parse: Parser<S>): Turn<S> {
    if f.event == "sources" then t.(sources := SourcesIn(f.data, parse))
    else if f.event == "token" then
      t.(tokens := t.tokens + 1, answer := t.answer + f.data, bubble := t.bubble.(text := t.answer + f.data))
    else if f.event == "error" then Saying(t, SOMETHING_WRONG).(error := true)
    else if f.event == "done" then t.(done := true)
    else t
  }

  function OnEvents<S>(frames: seq<Frame>, t: Turn<S>, parse: Parser<S>): Turn<S>
    decreases |frames|
  {
    if frames == [] then t else OnEvents(frames[1..], OnEvent(frames[0], t, parse), parse)
  }

  /** `_finalize`: an answer cut off after its first token is left as it is. */
  function Finalized<S>(t: Turn<S>): Turn<S> {
    if t.error then t
    else if !t.done then if t.tokens == 0 then Saying(t, CUT_OFF) else t
    else if t.sources != [] && t.tokens == 0 then Saying(t, NOTHING_SAID)
    else t
  }

  /** The end of the widget's stream; a socket that dies, unlike one that closes, is an error of its own. */
  function AtEnd<S>(t: Turn<S>, died: bool): Turn<S> {
    Finalized(if died then Saying(t, INTERRUPTED).(error := true) else t)
  }

  method OnAll<S>(frames: seq<Frame>, before: Turn<S>, parse: Parser<S>) returns (t: Turn<S>)
    ensures t == OnEvents(frames, before, parse)
  {
    t := before;
    for i := 0 to |frames|
      invariant OnEvents(frames[i..], t, parse) == OnEvents(frames, before, parse)
    {
      assert frames[i..][1..] == frames[i + 1..];
      t := OnEvent(frames[i], t, parse);
    }
  }

  lemma {:induction false} OnAppend<S>(a: seq<Frame>, b: seq<Frame>, t: Turn<S>, parse: Parser<S>)
    ensures OnEvents(a + b, t, parse) == OnEvents(b, OnEvents(a, t, parse), parse)
    decreases |a|
  {
    if a == [] {
      assert a + b == b;
    } else {
      SplitFirst(a, b);
      OnAppend(a[1..], b, OnEvent(a[0], t, parse), parse);
    }
  }

  /** The widget's read loop. */
  method ReadStream<S>(chunks: seq<string>, parse: Parser<S>) returns (t: Turn<S>)
    ensures t == OnEvents(Widget.WidgetStreamed(chunks, ""), Blank(), parse)
  {
    var reader := new Widget.Reader();
    t := Blank();
    ghost var all := OnEvents(Widget.WidgetStreamed(chunks, ""), Blank(), parse);
    for i := 0 to |chunks|
      invariant OnEvents(Widget.WidgetStreamed(chunks[i..], reader.buffer), t, parse) == all
    {
      var events := reader.Read(chunks[i]);
      assert chunks[i..][0] == chunks[i] && chunks[i..][1..] == chunks[i + 1..];
      OnAppend(events, Widget.WidgetStreamed(chunks[i + 1..], reader.buffer), t, parse);
      t := OnAll(events, t, parse);
    }
  }

  /** `_finalize` as it writes the bubble. */
  method Finalize<S>(t: Turn<S>) returns (u: Turn<S>)
    ensures u == Finalized(t)
  {
    u := t;
    if u.error {
      return;
    }
    if !u.done {
      if u.tokens == 0 {
        u := Saying(u, CUT_OFF);
      }
      return;
    }
    if |u.sources| > 0 && u.tokens == 0 {
      u := Saying(u, NOTHING_SAID);
    }
  }

  /** `_send`: a question that is not answered, or whose stream fails, is told so in the bubble. */
  method WidgetTurn<S>(res: Response, parse: Parser<S>) returns (t: Turn<S>)
    ensures match res
            case Unanswered => t == Saying(Blank(), INTERRUPTED).(error := true)
            case NotOk(status) => t == Saying(Blank(), if status == 429 then BUSY else UNAVAILABLE).(error := true)
            case NoBody => t == Saying(Blank(), INTERRUPTED).(error := true)
            case Body(chunks, died) => t == AtEnd(OnEvents(Widget.WidgetStreamed(chunks, ""), Blank(), parse), died)
  {
    t := Blank();
    match res {
      case NotOk(status) =>
        return Saying(t, if status == 429 then BUSY else UNAVAILABLE).(error := true);
      case Body(chunks, died) =>
        t := ReadStream(chunks, parse);
        if died {
          t := Saying(t, INTERRUPTED).(error := true);
        }
      case _ =>
        t := Saying(t, INTERRUPTED).(error := true);
    }
    t := Finalize(t);
  }

  /** Events under any other name change nothing for the widget. */
  lemma {:induction false} OnNamed<S>(frames: seq<Frame>, t: Turn<S>, parse: Parser<S>)
    ensures OnEvents(Widget.Named(frames), t, parse) == OnEvents(frames, t, parse)
    decreases |frames|
  {
    if frames != [] {
      OnNamed(frames[1..], OnEvent(frames[0], t, parse), parse);
      if frames[0].event in Widget.NAMES {
        assert Widget.Named(frames)[1..] == Widget.Named(frames[1..]);
      }
    }
  }

  /** The texts of the tokens, put together. */
  function Said(frames: seq<Frame>): string {
    if frames == [] then ""
    else
      var last := frames[|frames| - 1];
      if last.event == "token" then Said(frames[..|frames| - 1]) + last.data else Said(frames[..|frames| - 1])
  }

  lemma OnOne<S>(f: Frame, t: Turn<S>, parse: Parser<S>)
    ensures OnEvents([f], t, parse) == OnEvent(f, t, parse)
  {
    assert [f][1..] == [];
  }

  /** The widget's turn by the frames, wherever they stand. */
  lemma {:induction false} TurnIs<S>(frames: seq<Frame>, parse: Parser<S>)
    ensures var t := OnEvents(frames, Blank(), parse);
            && t.answer == Said(frames) && t.sources == LastSources(frames, [], parse)
            && (t.tokens > 0 <==> Has(frames, "token")) && (t.done <==> Has(frames, "done")) && (t.error <==> Has(frames, "error"))
            && (t.bubble.muted <==> t.error) && (!t.error ==> t.bubble.text == t.answer)
  {
    if frames != [] {
      var front, last := frames[..|frames| - 1], frames[|frames| - 1];
      assert frames == front + [last];
      HasSnoc(frames, front, last, "token");
      HasSnoc(frames, front, last, "done");
      HasSnoc(frames, front, last, "error");
      TurnIs(front, parse);
      OnAppend(front, [last], Blank(), parse);
      OnOne(last, OnEvents(front, Blank(), parse), parse);
    }
  }

  /** What the bubble says in the end, unless an error was reported: a message of the widget's own when the socket
      died, when nothing came before the stream ended, and when sources came without words; else the answer. */
  lemma BubbleIs<S>(frames: seq<Frame>, died: bool, parse: Parser<S>)
    ensures var bubble := AtEnd(OnEvents(frames, Blank(), parse), died).bubble;
            && (died ==> bubble == Bubble("The connection was interrupted. Please ask again.", true))
            && (!died && !Has(frames, "error") ==>
                  bubble == if Has(frames, "token") then Bubble(Said(frames), false)
                            else if !Has(frames, "done") then Bubble("The answer was cut short. Please ask again.", true)
                            else if LastSources(frames, [], parse) != [] then
                              Bubble("I found relevant information but couldn't produce an answer. Please ask again.", true)
                            else Bubble(Said(frames), false))
            && (!died && Has(frames, "error") ==> bubble.muted)
  {
    TurnIs(frames, parse);
  }
}
