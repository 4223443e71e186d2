/** The widget and the dashboard on the server's own streams, whole or cut short. */
module WidgetAnswer {
  import opened Text
  import opened Sse
  import opened SseEncoding
  import opened Widget
  import opened AskStream
  import opened EndToEnd
  import Clients = AskClients

  // ---------------------------------------------------------------- what the API writes is plain

  /** A frame whose wire form both decoders read alike. */
  predicate Tame(f: Frame) {
    && '\r' !in f.data && OneLine(f.event)
    && f.event != "" && !IsJsSpace(f.event[0]) && !IsJsSpace(f.event[|f.event| - 1])
  }

  predicate AllTame(items: seq<Item>) {
    forall i :: 0 <= i < |items| && items[i].Event? ==> Tame(items[i].frame)
  }

  lemma EventLinePlain(name: string)
    requires name != "" && !IsJsSpace(name[0]) && !IsJsSpace(name[|name| - 1])
    ensures Plain("event: " + name)
  {
    var line, value := "event: " + name, " " + name;
    assert line[6..] == value && value[1..] == name;
    assert JsTrim(value) == JsTrim(name) == name;
    assert |line| > 5;
  }

  lemma StartsAlike(s: string, prefix: string)
    requires prefix != ""
    ensures StartsWith(s, prefix) ==> s[0] == prefix[0]
  {
    if StartsWith(s, prefix) {
      assert s[..|prefix|][0] == s[0];
    }
  }

  lemma DataLinePlain(value: string)
    ensures Plain("data: " + value)
  {
    var line := "data: " + value;
    StartsAlike(line, "event:");
    assert |line| > 5 && line[0] == 'd';
  }

  lemma NoNewlineSplits(line: string)
    requires '\n' !in line
    ensures SplitLines(line) == [line]
  {
    forall i | 0 <= i ensures !OccursAt(line, "\n", i) {
      assert i + 1 <= |line| ==> line[i..i + 1] == [line[i]] && line[i] in line;
    }
  }

  lemma OneLineSplits(line: string)
    requires OneLine(line)
    ensures SplitLines(line) == [line]
  {
    NoNewlineSplits(line);
  }

  lemma FinishedCons(line: string, rest: seq<string>)
    requires Plain(line) && rest != [] && FinishedPlain(rest)
    ensures FinishedPlain([line] + rest)
  {
    var all := [line] + rest;
    var finished := all[..|all| - 1];
    forall i | 0 <= i < |finished| ensures Plain(finished[i]) {
      if i > 0 {
        assert finished[i] == rest[..|rest| - 1][i - 1];
      }
    }
  }

  /** A plain line in front of a plain stream. */
  lemma LineThenPlain(line: string, rest: string)
    requires OneLine(line) && Plain(line) && PlainStream(rest)
    ensures PlainStream(line + "\n" + rest)
  {
    SplitLinesAppend(line, rest);
    OneLineSplits(line);
    FinishedCons(line, SplitLines(rest));
    assert forall c :: c in line ==> c != '\r';
  }

  lemma BlankLinePlain(rest: string)
    requires PlainStream(rest)
    ensures PlainStream("\n" + rest)
  {
    LineThenPlain("", rest);
    assert "" + "\n" + rest == "\n" + rest;
  }

  lemma {:induction false} DataPlain(cur: string, d: string, rest: string)
    requires OneLine(cur) && '\r' !in d && PlainStream(rest)
    ensures PlainStream(DataText(cur, d, rest))
    decreases |d|
  {
    DataLinePlain(cur);
    if d == "" {
      LineThenPlain("data: " + cur, rest);
      assert Prefixed(d) + "\n" == "\n";
    } else if IsTerminator(d[0]) {
      assert d[0] in d;
      DataPlain("", d[1..], rest);
      LineThenPlain("data: " + cur, DataText("", d[1..], rest));
      DataTextBreak(cur, d, rest);
    } else {
      DataPlain(cur + [d[0]], d[1..], rest);
      DataTextChar(cur, d, rest);
    }
  }

  lemma BodyPlain(data: string, rest: string)
    requires '\r' !in data && PlainStream(rest)
    ensures PlainStream(EncodeData(data) + "\n" + rest)
  {
    BlankLinePlain(rest);
    BodyText(data, rest);
    if data != "" {
      DataPlain("", data, "\n" + rest);
    }
  }

  lemma FramePlain(f: Frame, rest: string)
    requires Tame(f) && PlainStream(rest)
    ensures PlainStream(Encode(f) + rest)
  {
    BodyPlain(f.data, rest);
    EventLinePlain(f.event);
    LineThenPlain("event: " + f.event, EncodeData(f.data) + "\n" + rest);
    EncodeBody(f, rest);
  }

  lemma {:induction false} WirePlain(items: seq<Item>)
    requires AllTame(items)
    ensures PlainStream(Wire(items))
  {
    if items == [] {
      OneLineSplits("");
    } else {
      WirePlain(items[1..]);
      var rest := Wire(items[1..]);
      if items[0].KeepAlive? {
        BlankLinePlain(rest);
        LineThenPlain(":", "\n" + rest);
        assert ":" + "\n" + ("\n" + rest) == ":\n\n" + rest;
      } else {
        FramePlain(items[0].frame, rest);
      }
    }
  }

  lemma PrefixCons(x: string, a: seq<string>, b: seq<string>)
    requires 0 < |a| <= |b| && a[..|a| - 1] == b[..|a| - 1]
    ensures ([x] + a)[..|[x] + a| - 1] == ([x] + b)[..|[x] + a| - 1]
  {
    assert ([x] + a)[..|a|] == [x] + a[..|a| - 1];
    assert ([x] + b)[..|a|] == [x] + b[..|a| - 1];
  }

  /** The finished lines of a stream cut short are among those of the whole. */
  lemma {:induction false} FinishedPrefix(a: string, b: string)
    ensures |SplitLines(a)| <= |SplitLines(a + b)|
    ensures SplitLines(a)[..|SplitLines(a)| - 1] == SplitLines(a + b)[..|SplitLines(a)| - 1]
    decreases |a|
  {
    match FindFrom(a, "\n", 0)
    case None =>
      assert |SplitLines(a)| == 1;
    case Some(i) =>
      var more := a[i + 1..];
      forall j | 0 <= j < i ensures !OccursAt(a + b, "\n", j) {
        assert (a + b)[j..j + 1] == a[j..j + 1];
        assert !OccursAt(a, "\n", j);
      }
      assert (a + b)[i..i + 1] == a[i..i + 1];
      FindIs(a + b, "\n", 0, i);
      FinishedPrefix(more, b);
      assert (a + b)[..i] == a[..i] && (a + b)[i + 1..] == more + b;
      PrefixCons(a[..i], SplitLines(more), SplitLines(more + b));
  }

  lemma PlainPrefix(a: string, b: string)
    requires PlainStream(a + b)
    ensures PlainStream(a)
  {
    FinishedPrefix(a, b);
    var lines, all := SplitLines(a), SplitLines(a + b);
    var finished := lines[..|lines| - 1];
    forall i | 0 <= i < |finished| ensures Plain(finished[i]) {
      assert finished[i] == all[..|lines| - 1][i] == all[..|all| - 1][i];
    }
    assert forall c :: c in a ==> c in a + b;
  }

  // ---------------------------------------------------------------- the same verdict

  predicate AllDone(frames: seq<Frame>) {
    forall i :: 0 <= i < |frames| ==> frames[i].event == "done"
  }

  /** Nothing follows `done`, and nothing but `done` follows `error`. */
  predicate Orderly(frames: seq<Frame>) {
    if frames == [] then true
    else if frames[0].event == "done" then frames[1..] == []
    else if frames[0].event == "error" then AllDone(frames[1..])
    else Orderly(frames[1..])
  }

  /** What the widget's bubble holds before the stream has ended. */
  function Showing<S>(t: Clients.Turn<S>): Clients.Bubble {
    if t.error then Clients.Bubble(Clients.SOMETHING_WRONG, true) else Clients.Bubble(t.answer, false)
  }

  /** The two clients have seen the same so far. */
  ghost predicate Alike<S>(p: Clients.Progress<S>, t: Clients.Turn<S>) {
    && t.sources == p.sources && t.tokens == p.tokens && t.answer == Spoken(p.calls)
    && t.error == p.failed && t.done == p.done && t.bubble == Showing(t)
  }

  lemma SpokenSnoc<S>(calls: seq<Clients.Call<S>>, c: Clients.Call<S>)
    ensures Spoken(calls + [c]) == Spoken(calls) + if c.Token? then c.text else ""
  {
    SpokenAppend(calls, [c]);
    assert [c][1..] == [];
    if c.Token? {
      assert c.text + "" == c.text;
    }
  }

  lemma AlikeAfter<S>(f: Frame, p: Clients.Progress<S>, t: Clients.Turn<S>, parse: Clients.Parser<S>)
    requires Alike(p, t) && !p.failed
    ensures Alike(Clients.React(f, p, parse), Clients.OnEvent(f, t, parse))
  {
    if f.event == "conversation" {
      SpokenSnoc(p.calls, Clients.Conversation(f.data));
      assert Spoken(p.calls) + "" == Spoken(p.calls);
    } else if f.event == "sources" {
      SpokenSnoc(p.calls, Clients.Sources(Clients.SourcesIn(f.data, parse)));
      assert Spoken(p.calls) + "" == Spoken(p.calls);
    } else if f.event == "token" {
      SpokenSnoc(p.calls, Clients.Token(f.data));
    }
  }

  lemma {:induction false} OnlyDone<S>(frames: seq<Frame>, t: Clients.Turn<S>, parse: Clients.Parser<S>)
    requires AllDone(frames)
    ensures Clients.OnEvents(frames, t, parse) == if frames == [] then t else t.(done := true)
    decreases |frames|
  {
    if frames != [] {
      OnlyDone(frames[1..], t.(done := true), parse);
    }
  }

  /** What the two have seen when both are through: a `done` after an error is for the widget alone. */
  ghost predicate Seen<S>(p: Clients.Progress<S>, t: Clients.Turn<S>) {
    && t.sources == p.sources && t.tokens == p.tokens && t.answer == Spoken(p.calls)
    && t.error == p.failed && (!p.failed ==> t.done == p.done) && !(p.failed && p.done) && t.bubble == Showing(t)
  }

  lemma {:induction false} BothSee<S>(frames: seq<Frame>, p: Clients.Progress<S>, t: Clients.Turn<S>, parse: Clients.Parser<S>)
    requires Orderly(frames) && Alike(p, t) && !Clients.Ended(p)
    ensures Seen(Clients.ReadAll(frames, p, parse), Clients.OnEvents(frames, t, parse))
    decreases |frames|
  {
    if frames != [] {
      AlikeAfter(frames[0], p, t, parse);
      var q, u := Clients.React(frames[0], p, parse), Clients.OnEvent(frames[0], t, parse);
      var rest := frames[1..];
      if Clients.Ended(q) {
        OnlyDone(rest, u, parse);
      } else {
        BothSee(rest, q, u, parse);
      }
    }
  }

  /** A stream that ends without `done` and without an error, after at least one token. */
  predicate CutInWords<S>(p: Clients.Progress<S>) {
    !p.failed && !p.done && p.tokens > 0
  }

  /** A stream whose answer, or refusal, came through complete. */
  predicate Complete<S>(p: Clients.Progress<S>) {
    p.done && (p.tokens > 0 || p.sources == [])
  }

  /** The widget's own words for what the dashboard reports. */
  function NoticeOf(m: Clients.Message): string {
    match m
    case Generic => Clients.SOMETHING_WRONG
    case CutShort => Clients.CUT_OFF
    case NoWords => Clients.NOTHING_SAID
    case Unreachable => Clients.INTERRUPTED
    case Rejected => Clients.UNAVAILABLE
  }

  /** The widget against the dashboard once the stream has closed, or the socket has died.

      The widget puts a message of its own in the place of the answer exactly after an error, a dead
      socket, or a stream without a token that lacks its end or had sources; otherwise it shows the
      tokens. So it reports a failure where the dashboard does, and for the same cause, except for an
      answer cut off after its first token, which it passes for whole, and a complete one whose socket
      dies, which it disowns. */
  ghost predicate Compared<S>(p: Clients.Progress<S>, t: Clients.Turn<S>, died: bool) {
    var failed := Clients.Verdict(p).Failed?;
    && (t.bubble.muted <==> died || p.failed || (p.tokens == 0 && (!p.done || p.sources != [])))
    && (!t.bubble.muted ==> t.bubble.text == Spoken(p.calls))
    && ((t.bubble.muted <==> failed) <==> if died then !Complete(p) else !CutInWords(p))
    && (t.bubble.muted && died ==> t.bubble.text == Clients.INTERRUPTED)
    && (t.bubble.muted && !died ==> failed && t.bubble.text == NoticeOf(Clients.Verdict(p).message))
    && (t.bubble == Clients.Bubble(Spoken(p.calls), false) <==> !t.bubble.muted)
  }

  lemma SeenCompares<S>(p: Clients.Progress<S>, t: Clients.Turn<S>, died: bool)
    requires Seen(p, t)
    ensures Compared(p, Clients.AtEnd(t, died), died)
  {
  }

  /** Any stream on which nothing follows `done`, and nothing but `done` an error. */
  lemma VerdictsCompare<S>(frames: seq<Frame>, parse: Clients.Parser<S>, died: bool)
    requires Orderly(frames)
    ensures Compared(Clients.ReadAll(frames, Clients.Start(), parse),
                     Clients.AtEnd(Clients.OnEvents(frames, Clients.Blank(), parse), died), died)
  {
    BothSee(frames, Clients.Start(), Clients.Blank(), parse);
    SeenCompares(Clients.ReadAll(frames, Clients.Start(), parse), Clients.OnEvents(frames, Clients.Blank(), parse), died);
  }

  lemma {:induction false} OrderlyPrefix(a: seq<Frame>, b: seq<Frame>)
    requires Begins(a, b) && Orderly(b)
    ensures Orderly(a)
    decreases |a|
  {
    if a != [] {
      assert a[0] == b[0] && a[1..] == b[1..][..|a| - 1];
      if a[0].event != "done" && a[0].event != "error" {
        OrderlyPrefix(a[1..], b[1..]);
      }
    }
  }

  lemma OrderlyCons(f: Frame, rest: seq<Frame>)
    requires f.event != "" && f.event != "done" && f.event != "error" && Orderly(DeliveredAll(rest))
    ensures Orderly(DeliveredAll([f] + rest))
  {
    assert ([f] + rest)[1..] == rest;
    assert DeliveredAll([f] + rest)[1..] == DeliveredAll(rest);
  }

  lemma {:induction false} OrderlyTokens(said: seq<string>, rest: seq<Frame>)
    requires Orderly(DeliveredAll(rest))
    ensures Orderly(DeliveredAll(TokenFrames(said) + rest))
  {
    if said == [] {
      assert TokenFrames(said) + rest == rest;
    } else {
      OrderlyTokens(said[1..], rest);
      OrderlyCons(Frame("token", said[0]), TokenFrames(said[1..]) + rest);
      Regroup([Frame("token", said[0])], TokenFrames(said[1..]), rest);
    }
  }

  lemma EndAfterError(e: Frame, done: Frame)
    requires e.event == "error" && done.event == "done"
    ensures Orderly(DeliveredAll([e] + [done]))
  {
    DeliveredOne(e);
    DeliveredOne(done);
    DeliveredAppend([e], [done]);
    assert ([Delivered(e)] + [Delivered(done)])[1..] == [Delivered(done)];
  }

  lemma EndOrderly(broke: bool)
    ensures Orderly(DeliveredAll(ErrorFrame(broke) + [Frame("done", "")]))
  {
    var done := Frame("done", "");
    DeliveredOne(done);
    if broke {
      EndAfterError(Frame("error", STREAM_FAILED), done);
    } else {
      assert ErrorFrame(broke) + [done] == [done];
    }
  }

  lemma RegroupFive<T>(a: T, b: T, c: seq<T>, d: seq<T>, e: seq<T>)
    ensures [a] + ([b] + (c + (d + e))) == [a, b] + (c + d) + e
  {
  }

  lemma ShapeOrderly(a: Frame, b: Frame, said: seq<string>, broke: bool)
    requires a.event == "conversation" && b.event == "sources"
    ensures Orderly(DeliveredAll([a, b] + (TokenFrames(said) + ErrorFrame(broke)) + [Frame("done", "")]))
  {
    var tokens, error, done := TokenFrames(said), ErrorFrame(broke), [Frame("done", "")];
    EndOrderly(broke);
    OrderlyTokens(said, error + done);
    OrderlyCons(b, tokens + (error + done));
    OrderlyCons(a, [b] + (tokens + (error + done)));
    RegroupFive(a, b, tokens, error, done);
  }

  lemma AnswerOrderly(req: Request, llm: Llm)
    ensures Orderly(DeliveredAll(Answered(req, llm)))
  {
    BodyShape(req, llm);
    ShapeOrderly(Frame("conversation", req.conversationText), Frame("sources", req.sources),
                 Said(req, llm), Broke(req, llm));
  }

  lemma WholeDecode(items: seq<Item>)
    requires Sendable(items)
    ensures Decode(Wire(items)) == Received(items)
  {
    ConcatOne(Wire(items));
    DecodeWire(items, [Wire(items)]);
    DecodeAnySplit([Wire(items)]);
  }

  lemma GotOrderly(req: Request, llm: Llm, items: seq<Item>, got: string, missing: string)
    requires Sent(items) == Answered(req, llm) && got + missing == Wire(items)
    ensures Orderly(Decode(got))
  {
    SendableAnswer(items, req, llm);
    ReceivedIsDelivered(items);
    AnswerOrderly(req, llm);
    WholeDecode(items);
    FramesBegin(got, missing, EMPTY);
    OrderlyPrefix(Decode(got), Received(items));
  }

  /** Both read the same frames of the part that arrived. */
  lemma SameFrames<S>(items: seq<Item>, chunks: seq<string>, others: seq<string>, missing: string, parse: Clients.Parser<S>)
    requires AllTame(items)
    requires Concat(chunks) + missing == Wire(items) && Concat(others) == Concat(chunks)
    ensures Streamed(chunks, INITIAL) == Decode(Concat(chunks))
    ensures Clients.OnEvents(WidgetStreamed(others, ""), Clients.Blank(), parse)
            == Clients.OnEvents(Decode(Concat(chunks)), Clients.Blank(), parse)
  {
    var got := Concat(chunks);
    WirePlain(items);
    PlainPrefix(got, missing);
    ClientsAgree(chunks, others);
    DecodeAnySplit(chunks);
    Clients.OnNamed(WidgetStreamed(others, ""), Clients.Blank(), parse);
    Clients.OnNamed(Decode(got), Clients.Blank(), parse);
  }

  /** The same on any part of a server stream whose texts hold no carriage return, each client with its own
      chunking. */
  lemma WidgetAgainstDashboard<S>(req: Request, llm: Llm, parse: Clients.Parser<S>, items: seq<Item>,
                                  chunks: seq<string>, others: seq<string>, missing: string, died: bool)
    requires Sent(items) == Answered(req, llm) && AllTame(items)
    requires Concat(chunks) + missing == Wire(items) && Concat(others) == Concat(chunks)
    ensures Compared(Clients.ReadAll(Streamed(chunks, INITIAL), Clients.Start(), parse),
                     Clients.AtEnd(Clients.OnEvents(WidgetStreamed(others, ""), Clients.Blank(), parse), died), died)
  {
    SameFrames(items, chunks, others, missing, parse);
    GotOrderly(req, llm, items, Concat(chunks), missing);
    VerdictsCompare(Decode(Concat(chunks)), parse, died);
  }

  // ---------------------------------------------------------------- an answer without its end

  lemma {:induction false} PlainlySnoc(frames: seq<Frame>, last: Frame)
    ensures Plainly(frames + [last]) == Plainly(frames) + [Event(last)]
  {
    if frames == [] {
      assert [] + [last] == [last] && [last][1..] == [];
    } else {
      SplitFirst(frames, [last]);
      PlainlySnoc(frames[1..], last);
      Regroup([Event(frames[0])], Plainly(frames[1..]), [Event(last)]);
    }
  }

  lemma {:induction false} PlainlyHolds(frames: seq<Frame>, i: nat)
    requires i < |Plainly(frames)|
    ensures Plainly(frames)[i].Event? && Plainly(frames)[i].frame in frames
  {
    if i > 0 {
      PlainlyHolds(frames[1..], i - 1);
    }
  }

  /** The server's frames but the last, on the wire. */
  lemma UndoneWire(req: Request, llm: Llm)
    ensures Plainly(Answered(req, llm)) == Plainly(Undone(req, llm)) + [Event(Frame("done", ""))]
    ensures Wire(Plainly(Undone(req, llm))) + Encode(Frame("done", "")) == Wire(Plainly(Answered(req, llm)))
  {
    PlainlySnoc(Undone(req, llm), Frame("done", ""));
    WireSnoc(Plainly(Undone(req, llm)), Event(Frame("done", "")));
  }

  lemma UndoneSent(req: Request, llm: Llm)
    ensures Sendable(Plainly(Undone(req, llm)))
    ensures Decode(Wire(Plainly(Undone(req, llm)))) == DeliveredAll(Undone(req, llm))
  {
    var front := Plainly(Undone(req, llm));
    forall i | 0 <= i < |front| && front[i].Event? ensures OneLine(front[i].frame.event) {
      PlainlyHolds(Undone(req, llm), i);
      AnsweredNames(req, llm, front[i].frame);
    }
    WholeDecode(front);
    PlainlySent(Undone(req, llm));
    ReceivedIsDelivered(front);
  }

  /** What the dashboard has read when only `done` is missing. */
  lemma ReadUndone<S>(req: Request, llm: Llm, parse: Clients.Parser<S>)
    ensures Clients.ReadAll(DeliveredAll(Undone(req, llm)), Clients.Start(), parse)
            == Finished(req, llm, parse).(done := false)
  {
    var opening := [Frame("conversation", req.conversationText), Frame("sources", req.sources)];
    DeliveredAppend(opening, BodyFrames(req, llm));
    Clients.ReadAppend(DeliveredAll(opening), DeliveredAll(BodyFrames(req, llm)), Clients.Start(), parse);
    ReadOpening(req, parse);
    BodyShape(req, llm);
    ReadSaid(Said(req, llm), Broke(req, llm), Opened(req, parse), parse);
  }

  lemma AnsweredData(req: Request, llm: Llm, f: Frame)
    requires f in Answered(req, llm)
    requires '\r' !in req.conversationText && '\r' !in req.sources
    requires forall i :: 0 <= i < |Said(req, llm)| ==> '\r' !in Said(req, llm)[i]
    ensures '\r' !in f.data
  {
    BodyShape(req, llm);
    var opening := [Frame("conversation", req.conversationText), Frame("sources", req.sources)];
    assert Answered(req, llm) == opening + BodyFrames(req, llm) + [Frame("done", "")];
    if f in BodyFrames(req, llm) {
      assert f in TokenFrames(Said(req, llm)) || f in ErrorFrame(Broke(req, llm));
    }
  }

  lemma AnswerTame(req: Request, llm: Llm)
    requires '\r' !in req.conversationText && '\r' !in req.sources
    requires forall i :: 0 <= i < |Said(req, llm)| ==> '\r' !in Said(req, llm)[i]
    ensures AllTame(Plainly(Answered(req, llm)))
  {
    var items := Plainly(Answered(req, llm));
    forall i | 0 <= i < |items| && items[i].Event? ensures Tame(items[i].frame) {
      PlainlyHolds(Answered(req, llm), i);
      AnsweredNames(req, llm, items[i].frame);
      AnsweredData(req, llm, items[i].frame);
    }
  }

  lemma {:induction false} NoReturnSaid(said: seq<string>)
    requires forall i :: 0 <= i < |said| ==> '\r' !in said[i]
    ensures '\r' !in Concat(said)
  {
    if said != [] {
      NoReturnSaid(said[1..]);
    }
  }

  /** A stream that stops just before its `done`, after any answer: the dashboard reports it cut short, and
      the widget says nothing. */
  lemma CutBeforeDone<S>(req: Request, llm: Llm, parse: Clients.Parser<S>) returns (chunks: seq<string>)
    requires !Broke(req, llm) && Said(req, llm) != []
    requires '\r' !in req.conversationText && '\r' !in req.sources
    requires forall i :: 0 <= i < |Said(req, llm)| ==> '\r' !in Said(req, llm)[i]
    ensures Concat(chunks) == Wire(Plainly(Undone(req, llm)))
    ensures Concat(chunks) + Encode(Frame("done", "")) == Wire(Plainly(Answered(req, llm)))
    ensures var p := Clients.ReadAll(Streamed(chunks, INITIAL), Clients.Start(), parse);
            var t := Clients.AtEnd(Clients.OnEvents(WidgetStreamed(chunks, ""), Clients.Blank(), parse), false);
            && Clients.Verdict(p) == Clients.Failed(Clients.CutShort)
            && t.bubble == Clients.Bubble(Concat(Said(req, llm)), false)
  {
    chunks := [Wire(Plainly(Undone(req, llm)))];
    ConcatOne(Wire(Plainly(Undone(req, llm))));
    UndoneWire(req, llm);
    UndoneSent(req, llm);
    DecodeAnySplit(chunks);
    ReadUndone(req, llm, parse);
    PlainlySent(Answered(req, llm));
    AnswerTame(req, llm);
    WidgetAgainstDashboard(req, llm, parse, Plainly(Answered(req, llm)), chunks, chunks, Encode(Frame("done", "")), false);
    FinishedSpoken(req, llm, parse);
    NoReturnSaid(Said(req, llm));
    UnreturnedSame(Concat(Said(req, llm)));
  }

  lemma PlainlyThree(a: Frame, b: Frame, c: Frame)
    ensures Plainly([a, b, c]) == [Event(a), Event(b), Event(c)]
  {
    PlainlySnoc([], a);
    PlainlySnoc([a], b);
    PlainlySnoc([a, b], c);
    assert [a] + [b] == [a, b] && [a, b] + [c] == [a, b, c];
  }

  lemma TokensOne(polls: seq<Poll>)
    requires |polls| == 1 && polls[0].Delta? && polls[0].text != ""
    ensures Tokens(polls) == [polls[0].text] && !Breaks(polls)
  {
    assert polls[1..] == [];
    Neutral([polls[0].text]);
  }

  lemma OneToken(req: Request, token: string) returns (llm: Llm)
    requires req.hits > 0 && token != ""
    ensures Said(req, llm) == [token] && !Broke(req, llm)
    ensures Plainly(Undone(req, llm)) == [Event(Frame("conversation", req.conversationText)),
                                          Event(Frame("sources", req.sources)), Event(Frame("token", token))]
  {
    llm := Streaming([Delta(token)]);
    TokensOne([Delta(token)]);
    BodyShape(req, llm);
    TokenFramesOne(token);
    Neutral([Frame("token", token)]);
    var frames := Undone(req, llm);
    assert frames == [Frame("conversation", req.conversationText), Frame("sources", req.sources), Frame("token", token)];
    PlainlyThree(frames[0], frames[1], frames[2]);
  }

  /** For instance after the first token of an answer. */
  lemma CutAfterToken<S>(req: Request, token: string, parse: Clients.Parser<S>) returns (chunks: seq<string>)
    requires req.hits > 0 && '\r' !in req.conversationText && '\r' !in req.sources
    requires token != "" && '\r' !in token
    ensures Concat(chunks) == Wire([Event(Frame("conversation", req.conversationText)), Event(Frame("sources", req.sources)),
                                    Event(Frame("token", token))])
    ensures var p := Clients.ReadAll(Streamed(chunks, INITIAL), Clients.Start(), parse);
            var t := Clients.AtEnd(Clients.OnEvents(WidgetStreamed(chunks, ""), Clients.Blank(), parse), false);
            Clients.Verdict(p) == Clients.Failed(Clients.CutShort) && t.bubble == Clients.Bubble(token, false)
  {
    var llm := OneToken(req, token);
    chunks := CutBeforeDone(req, llm, parse);
    ConcatOne(token);
  }
}
