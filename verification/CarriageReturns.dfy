/** Where the two clients part. The serialiser starts a fresh `data: ` after a carriage return; the
    dashboard ends a line there, and the widget, which splits lines at line feeds only, keeps both the
    carriage return and the prefix as text. */
module CarriageReturns {
  import opened Text
  import opened Sse
  import opened SseEncoding
  import opened Widget
  import opened AskStream
  import opened EndToEnd
  import opened WidgetAnswer
  import Clients = AskClients

  // ---------------------------------------------------------------- what the widget reads

  /** The value as the widget shows it. */
  function Widened(d: string): (r: string)
    ensures |r| >= |d|
  {
    if d == "" then ""
    else if d[0] == '\r' then "\rdata: " + Widened(d[1..])
    else [d[0]] + Widened(d[1..])
  }

  lemma {:induction false} WidenedSame(d: string)
    ensures '\r' in Widened(d) <==> '\r' in d
    ensures if '\r' in d then |Widened(d)| > |d| else Widened(d) == d
  {
    if d != "" {
      WidenedSame(d[1..]);
      assert d == [d[0]] + d[1..];
      if d[0] == '\r' {
        assert Widened(d)[0] == '\r';
      }
    }
  }

  /** It is what the dashboard shows exactly when there is no carriage return. */
  lemma WidenedIsUnreturned(d: string)
    ensures Widened(d) == Unreturned(d) <==> '\r' !in d
  {
    WidenedSame(d);
    UnreturnedSame(d);
  }

  lemma {:induction false} WidenedAppend(a: string, b: string)
    ensures Widened(a + b) == Widened(a) + Widened(b)
  {
    if a == "" {
      Neutral(b);
      Neutral(Widened(b));
    } else {
      SplitFirst(a, b);
      WidenedAppend(a[1..], b);
      Regroup(if a[0] == '\r' then "\rdata: " else [a[0]], Widened(a[1..]), Widened(b));
    }
  }

  /** The data lines the widget finds in a value, the first of them begun with `cur`. */
  function WideLines(cur: string, d: string): (lines: seq<string>)
    ensures |lines| > 0
    decreases |d|
  {
    if d == "" then [cur]
    else if d[0] == '\n' then [cur] + WideLines("", d[1..])
    else if d[0] == '\r' then WideLines(cur + "\rdata: ", d[1..])
    else WideLines(cur + [d[0]], d[1..])
  }

  lemma {:induction false} JoinWide(cur: string, d: string)
    ensures Join(WideLines(cur, d), "\n") == cur + Widened(d)
    decreases |d|
  {
    if d == "" {
      Neutral(cur);
    } else if d[0] == '\n' {
      JoinWide("", d[1..]);
      JoinCons(cur, WideLines("", d[1..]));
      Neutral(Widened(d[1..]));
      Regroup(cur, "\n", Widened(d[1..]));
    } else {
      var c := if d[0] == '\r' then "\rdata: " else [d[0]];
      JoinWide(cur + c, d[1..]);
      Regroup(cur, c, Widened(d[1..]));
    }
  }

  lemma ParsedData(cur: string, p: Parsed)
    ensures ParsedAfter("data: " + cur, p) == p.(data := p.data + [cur])
  {
    var line := "data: " + cur;
    StartsAlike(line, "event:");
    assert line[..5] == "data:" && line[5..] == " " + cur && (" " + cur)[1..] == cur;
  }

  lemma ParsedOne(line: string, p: Parsed)
    requires '\n' !in line
    ensures ParsedLines(SplitLines(line), p) == ParsedAfter(line, p)
  {
    NoNewlineSplits(line);
    assert [line][1..] == [];
  }

  lemma ParsedThen(line: string, rest: string, p: Parsed)
    requires '\n' !in line
    ensures ParsedLines(SplitLines(line + "\n" + rest), p) == ParsedLines(SplitLines(rest), ParsedAfter(line, p))
  {
    NoNewlineSplits(line);
    SplitLinesAppend(line, rest);
    assert ([line] + SplitLines(rest))[1..] == SplitLines(rest);
  }

  lemma PrefixedStep(d: string, c: string)
    requires d != "" && d[0] != '\n' && c == if d[0] == '\r' then "\rdata: " else [d[0]]
    ensures Prefixed(d) == c + Prefixed(d[1..])
  {
    if d[0] == '\r' {
      Regroup([d[0]], "data: ", Prefixed(d[1..]));
      assert [d[0]] + "data: " == c;
    }
  }

  lemma {:induction false} ParsedValue(cur: string, d: string, p: Parsed)
    requires '\n' !in cur
    ensures ParsedLines(SplitLines("data: " + cur + Prefixed(d)), p) == p.(data := p.data + WideLines(cur, d))
    decreases |d|
  {
    if d == "" {
      Neutral("data: " + cur);
      ParsedOne("data: " + cur, p);
      ParsedData(cur, p);
    } else if d[0] == '\n' {
      ParsedData(cur, p);
      ParsedValue("", d[1..], p.(data := p.data + [cur]));
      ParsedThen("data: " + cur, "data: " + Prefixed(d[1..]), p);
      Neutral("data: ");
      Regroup("data: " + cur, "\n", "data: " + Prefixed(d[1..]));
      Regroup(p.data, [cur], WideLines("", d[1..]));
    } else {
      var c := if d[0] == '\r' then "\rdata: " else [d[0]];
      ParsedValue(cur + c, d[1..], p);
      PrefixedStep(d, c);
      Regroup("data: ", cur, c);
      Regroup("data: " + cur, c, Prefixed(d[1..]));
    }
  }

  // ---------------------------------------------------------------- one block

  /** Every line feed is followed by a data line. */
  predicate Followed(s: string) {
    forall i :: 0 <= i < |s| && s[i] == '\n' ==> i + 1 < |s| && s[i + 1] == 'd'
  }

  lemma FollowedAppend(a: string, b: string)
    requires Followed(b)
    requires '\n' !in a || (Followed(a[..|a| - 1]) && a[|a| - 1] == '\n' && b != "" && b[0] == 'd')
    ensures Followed(a + b)
  {
    var s := a + b;
    forall i | 0 <= i < |s| && s[i] == '\n' ensures i + 1 < |s| && s[i + 1] == 'd' {
      if i < |a| - 1 {
        assert a[i] == a[..|a| - 1][i] == '\n';
        assert a[..|a| - 1][i + 1] == 'd';
      } else if i >= |a| {
        assert b[i - |a|] == '\n';
      }
    }
  }

  lemma {:induction false} PrefixedFollowed(d: string)
    ensures Followed(Prefixed(d))
  {
    if d != "" {
      PrefixedFollowed(d[1..]);
      if IsTerminator(d[0]) {
        FollowedAppend("data: ", Prefixed(d[1..]));
        FollowedAppend([d[0]], "data: " + Prefixed(d[1..]));
      } else {
        FollowedAppend([d[0]], Prefixed(d[1..]));
      }
    }
  }

  lemma FirstBlock(raw: string, rest: string)
    requires Followed(raw)
    ensures Events(raw + "\n\n" + rest) == [EventOf(raw)] + Events(rest)
  {
    var text := raw + "\n\n" + rest;
    forall j | 0 <= j < |raw| ensures !OccursAt(text, "\n\n", j) {
      assert text[j..j + 2] == [text[j], text[j + 1]];
      assert text[j] == raw[j];
      if raw[j] == '\n' {
        assert text[j + 1] == raw[j + 1];
      }
    }
    assert text[|raw|..|raw| + 2] == "\n\n";
    FindIs(text, "\n\n", 0, |raw|);
    assert text[..|raw|] == raw && text[|raw| + 2..] == rest;
  }

  /** The block of a frame, without the blank line that closes it. */
  function BlockOf(f: Frame): string {
    "event: " + f.event + if f.data == "" then "" else "\n" + ("data: " + Prefixed(f.data))
  }

  lemma EncodeBlock(f: Frame)
    ensures Encode(f) == BlockOf(f) + "\n\n"
  {
    if f.data == "" {
      assert EncodeData(f.data) + "\n" == "\n";
    } else {
      var line := "data: " + Prefixed(f.data);
      Regroup("data: ", Prefixed(f.data), "\n");
      assert (line + "\n") + "\n" == line + "\n\n";
      assert "event: " + f.event + "\n" + (line + "\n\n") == "event: " + f.event + ("\n" + line) + "\n\n";
    }
  }

  lemma BlockFollowed(f: Frame)
    requires OneLine(f.event)
    ensures Followed(BlockOf(f))
  {
    var head := "event: " + f.event;
    assert '\n' !in head;
    if f.data == "" {
      Neutral(head);
    } else {
      PrefixedFollowed(f.data);
      FollowedAppend("data: ", Prefixed(f.data));
      FollowedAppend("\n", "data: " + Prefixed(f.data));
      FollowedAppend(head, "\n" + ("data: " + Prefixed(f.data)));
    }
  }

  /** An event name the API sends: `trim` leaves it alone. */
  predicate Proper(name: string) {
    OneLine(name) && name != "" && !IsJsSpace(name[0]) && !IsJsSpace(name[|name| - 1])
  }

  lemma ParsedEvent(name: string, p: Parsed)
    requires Proper(name)
    ensures ParsedAfter("event: " + name, p) == p.(event := name)
  {
    var line := "event: " + name;
    assert line[..6] == "event:" && line[6..] == " " + name && (" " + name)[1..] == name;
    assert JsTrim(" " + name) == JsTrim(name) == name;
  }

  function Wide(f: Frame): Frame {
    Frame(f.event, Widened(f.data))
  }

  lemma BlockReads(f: Frame)
    requires Proper(f.event)
    ensures EventOf(BlockOf(f)) == Wide(f)
  {
    var head := "event: " + f.event;
    assert '\n' !in head;
    ParsedEvent(f.event, FRESH);
    if f.data == "" {
      Neutral(head);
      ParsedOne(head, FRESH);
    } else {
      var body := "data: " + Prefixed(f.data);
      Regroup(head, "\n", body);
      ParsedThen(head, body, FRESH);
      Neutral("data: ");
      ParsedValue("", f.data, Parsed(f.event, []));
      Neutral(WideLines("", f.data));
      JoinWide("", f.data);
      Neutral(Widened(f.data));
    }
  }

  lemma FrameReads(f: Frame, rest: string)
    requires Proper(f.event)
    ensures Events(Encode(f) + rest) == [Wide(f)] + Events(rest)
  {
    EncodeBlock(f);
    BlockFollowed(f);
    FirstBlock(BlockOf(f), rest);
    BlockReads(f);
  }

  /** One frame reads alike in the two clients exactly when its value holds no carriage return. */
  lemma FrameReadsAlikeIff(f: Frame)
    requires Proper(f.event)
    ensures Events(Encode(f)) == [Frame(f.event, Widened(f.data))]
    ensures Decode(Encode(f)) == [Frame(f.event, Unreturned(f.data))]
    ensures Events(Encode(f)) == Decode(Encode(f)) <==> '\r' !in f.data
  {
    Neutral(Encode(f));
    FrameReads(f, "");
    Neutral([Wide(f)]);
    assert Events("") == [];
    ReadsEvent(f, "");
    Neutral([Delivered(f)]);
    assert Frames("", EMPTY) == [];
    WidenedIsUnreturned(f.data);
  }

  lemma WidenedOne(c: char)
    ensures Widened([c]) == if c == '\r' then "\rdata: " else [c]
  {
    assert [c][1..] == [];
    Neutral("\rdata: ");
    Neutral([c]);
  }

  lemma ReturnBetween(x: char, y: char)
    requires x != '\r' && y != '\r'
    ensures Widened([x] + ['\r'] + [y]) == [x] + "\rdata: " + [y]
    ensures Unreturned([x] + ['\r'] + [y]) == [x] + ['\n'] + [y]
  {
    WidenedAppend([x] + ['\r'], [y]);
    WidenedAppend([x], ['\r']);
    WidenedOne(x);
    WidenedOne('\r');
    WidenedOne(y);
  }

  /** Such a frame: a value with a carriage return between two characters. */
  lemma CarriageReturnDiffers(event: string, x: char, y: char)
    requires Proper(event) && x != '\r' && y != '\r'
    ensures var wire := Encode(Frame(event, [x] + ['\r'] + [y]));
            && Decode(wire) == [Frame(event, [x] + ['\n'] + [y])]
            && Events(wire) == [Frame(event, [x] + "\rdata: " + [y])]
  {
    FrameReadsAlikeIff(Frame(event, [x] + ['\r'] + [y]));
    ReturnBetween(x, y);
  }

  // ---------------------------------------------------------------- a whole answer

  function WideAll(frames: seq<Frame>): seq<Frame> {
    if frames == [] then [] else [Wide(frames[0])] + WideAll(frames[1..])
  }

  lemma {:induction false} WideAppend(a: seq<Frame>, b: seq<Frame>)
    ensures WideAll(a + b) == WideAll(a) + WideAll(b)
  {
    if a == [] {
      Neutral(b);
      Neutral(WideAll(b));
    } else {
      SplitFirst(a, b);
      WideAppend(a[1..], b);
      Regroup([Wide(a[0])], WideAll(a[1..]), WideAll(b));
    }
  }

  /** A block of one comment names no event. */
  lemma CommentReads(raw: string, rest: string)
    requires raw != "" && raw[0] == ':' && '\n' !in raw
    ensures Events(raw + "\n\n" + rest) == [Frame("message", "")] + Events(rest)
  {
    FirstBlock(raw, rest);
    ParsedOne(raw, FRESH);
    StartsAlike(raw, "event:");
    StartsAlike(raw, "data:");
  }

  lemma OnFirst<S>(f: Frame, rest: seq<Frame>, t: Clients.Turn<S>, parse: Clients.Parser<S>)
    ensures Clients.OnEvents([f] + rest, t, parse) == Clients.OnEvents(rest, Clients.OnEvent(f, t, parse), parse)
  {
    assert ([f] + rest)[1..] == rest;
  }

  lemma OnComment<S>(raw: string, rest: string, text: string, t: Clients.Turn<S>, parse: Clients.Parser<S>)
    requires raw != "" && raw[0] == ':' && '\n' !in raw && text == raw + "\n\n" + rest
    ensures Clients.OnEvents(Events(text), t, parse) == Clients.OnEvents(Events(rest), t, parse)
  {
    CommentReads(raw, rest);
    OnFirst(Frame("message", ""), Events(rest), t, parse);
  }

  lemma KeepAliveText(rest: string, raw: string)
    requires raw == ":"
    ensures EncodeItem(KeepAlive) + rest == raw + "\n\n" + rest
    ensures raw != "" && raw[0] == ':' && '\n' !in raw
  {
    assert raw + "\n\n" == ":\n\n";
  }

  lemma OnFrame<S>(f: Frame, rest: string, t: Clients.Turn<S>, parse: Clients.Parser<S>)
    requires Proper(f.event)
    ensures Clients.OnEvents(Events(EncodeItem(Event(f)) + rest), t, parse)
            == Clients.OnEvents(Events(rest), Clients.OnEvent(Wide(f), t, parse), parse)
  {
    FrameReads(f, rest);
    OnFirst(Wide(f), Events(rest), t, parse);
  }

  lemma SentFirst(items: seq<Item>)
    requires items != []
    ensures Sent(items) == (if items[0].Event? then [items[0].frame] else []) + Sent(items[1..])
    ensures forall f :: f in Sent(items[1..]) ==> f in Sent(items)
  {
  }

  lemma OnSentFirst<S>(f: Frame, rest: seq<Frame>, t: Clients.Turn<S>, parse: Clients.Parser<S>)
    ensures Clients.OnEvents(WideAll([f] + rest), t, parse)
            == Clients.OnEvents(WideAll(rest), Clients.OnEvent(Wide(f), t, parse), parse)
  {
    assert ([f] + rest)[1..] == rest;
    OnFirst(Wide(f), WideAll(rest), t, parse);
  }

  /** The widget's reading of a wire: the frames sent, each as it shows it. */
  lemma {:induction false} OnWire<S>(items: seq<Item>, t: Clients.Turn<S>, parse: Clients.Parser<S>)
    requires forall f :: f in Sent(items) ==> Proper(f.event)
    ensures Clients.OnEvents(Events(Wire(items)), t, parse) == Clients.OnEvents(WideAll(Sent(items)), t, parse)
    decreases |items|
  {
    if items == [] {
      assert Events("") == [];
    } else {
      SentFirst(items);
      match items[0]
      case KeepAlive =>
        var raw := [':'];
        KeepAliveText(Wire(items[1..]), raw);
        OnComment(raw, Wire(items[1..]), Wire(items), t, parse);
        OnWire(items[1..], t, parse);
      case Event(f) =>
        assert f in Sent(items);
        OnFrame(f, Wire(items[1..]), t, parse);
        OnWire(items[1..], Clients.OnEvent(Wide(f), t, parse), parse);
        OnSentFirst(f, Sent(items[1..]), t, parse);
    }
  }

  /** The turn after some more of the answer. */
  function Spoke<S>(t: Clients.Turn<S>, tokens: nat, text: string): Clients.Turn<S> {
    t.(tokens := t.tokens + tokens, answer := t.answer + text, bubble := t.bubble.(text := t.answer + text))
  }

  lemma {:induction false} OnTokens<S>(tokens: seq<string>, t: Clients.Turn<S>, parse: Clients.Parser<S>)
    requires t.bubble.text == t.answer
    ensures Clients.OnEvents(WideAll(TokenFrames(tokens)), t, parse) == Spoke(t, |tokens|, Widened(Concat(tokens)))
    decreases |tokens|
  {
    if tokens == [] {
      Neutral(t.answer);
    } else {
      var f := Frame("token", tokens[0]);
      assert TokenFrames(tokens)[1..] == TokenFrames(tokens[1..]);
      OnFirst(Wide(f), WideAll(TokenFrames(tokens[1..])), t, parse);
      OnTokens(tokens[1..], Spoke(t, 1, Widened(tokens[0])), parse);
      WidenedAppend(tokens[0], Concat(tokens[1..]));
      Regroup(t.answer, Widened(tokens[0]), Widened(Concat(tokens[1..])));
    }
  }

  lemma OnOne<S>(f: Frame, t: Clients.Turn<S>, parse: Clients.Parser<S>)
    ensures Clients.OnEvents(WideAll([f]), t, parse) == Clients.OnEvent(Wide(f), t, parse)
  {
    assert [f][1..] == [];
    Neutral([Wide(f)]);
    OnFirst(Wide(f), [], t, parse);
  }

  lemma OnPair<S>(a: seq<Frame>, b: seq<Frame>, t: Clients.Turn<S>, parse: Clients.Parser<S>)
    ensures Clients.OnEvents(WideAll(a + b), t, parse)
            == Clients.OnEvents(WideAll(b), Clients.OnEvents(WideAll(a), t, parse), parse)
  {
    WideAppend(a, b);
    Clients.OnAppend(WideAll(a), WideAll(b), t, parse);
  }

  /** The widget's turn when the server's stream has been read, before it is finalized. */
  function WidgetFinished<S>(req: Request, llm: Llm, parse: Clients.Parser<S>): Clients.Turn<S> {
    var answer := Widened(Concat(Said(req, llm)));
    Clients.Turn(if Broke(req, llm) then Clients.Bubble(Clients.SOMETHING_WRONG, true) else Clients.Bubble(answer, false),
                 answer, |Said(req, llm)|, Clients.SourcesIn(Widened(req.sources), parse), true, Broke(req, llm))
  }

  lemma OnOpening<S>(req: Request, parse: Clients.Parser<S>)
    ensures Clients.OnEvents(WideAll([Frame("conversation", req.conversationText), Frame("sources", req.sources)]),
                             Clients.Blank(), parse)
            == Clients.Blank().(sources := Clients.SourcesIn(Widened(req.sources), parse))
  {
    var a, b := Frame("conversation", req.conversationText), Frame("sources", req.sources);
    OnPair([a], [b], Clients.Blank(), parse);
    OnOne(a, Clients.Blank(), parse);
    OnOne(b, Clients.Blank(), parse);
    assert [a] + [b] == [a, b];
  }

  lemma OnBody<S>(req: Request, llm: Llm, t: Clients.Turn<S>, parse: Clients.Parser<S>)
    requires !t.error && t.bubble.text == t.answer
    ensures var u := Spoke(t, |Said(req, llm)|, Widened(Concat(Said(req, llm))));
            Clients.OnEvents(WideAll(BodyFrames(req, llm)), t, parse)
            == if Broke(req, llm) then Clients.Saying(u, Clients.SOMETHING_WRONG).(error := true) else u
  {
    BodyShape(req, llm);
    OnPair(TokenFrames(Said(req, llm)), ErrorFrame(Broke(req, llm)), t, parse);
    OnTokens(Said(req, llm), t, parse);
    var u := Clients.OnEvents(WideAll(TokenFrames(Said(req, llm))), t, parse);
    if Broke(req, llm) {
      OnOne(Frame("error", STREAM_FAILED), u, parse);
    }
  }

  lemma OnAnswer<S>(req: Request, llm: Llm, parse: Clients.Parser<S>)
    ensures Clients.OnEvents(WideAll(Answered(req, llm)), Clients.Blank(), parse) == WidgetFinished(req, llm, parse)
  {
    var opening, body, done :=
      [Frame("conversation", req.conversationText), Frame("sources", req.sources)], BodyFrames(req, llm), Frame("done", "");
    OnPair(opening + body, [done], Clients.Blank(), parse);
    OnPair(opening, body, Clients.Blank(), parse);
    OnOpening(req, parse);
    OnBody(req, llm, Clients.OnEvents(WideAll(opening), Clients.Blank(), parse), parse);
    OnOne(done, Clients.OnEvents(WideAll(opening + body), Clients.Blank(), parse), parse);
    Neutral(Widened(Concat(Said(req, llm))));
  }

  lemma NamesProper(name: string)
    requires name in ["conversation", "sources", "token", "error", "done"]
    ensures name != "" && !IsJsSpace(name[0]) && !IsJsSpace(name[|name| - 1])
  {
  }

  /** The widget at the end of any answer, whatever its texts hold and however the network cuts it. */
  lemma WidgetAtEnd<S>(req: Request, llm: Llm, parse: Clients.Parser<S>, items: seq<Item>, others: seq<string>)
    requires Sent(items) == Answered(req, llm) && Concat(others) == Wire(items)
    ensures Clients.OnEvents(WidgetStreamed(others, ""), Clients.Blank(), parse) == WidgetFinished(req, llm, parse)
  {
    WidgetStreamedWhole(others, "");
    Neutral(Concat(others));
    forall f | f in Sent(items) ensures Proper(f.event) {
      AnsweredNames(req, llm, f);
      NamesProper(f.event);
    }
    OnWire(items, Clients.Blank(), parse);
    OnAnswer(req, llm, parse);
  }

  /** No token came, although the widget has sources. */
  predicate Silent<S>(req: Request, llm: Llm, parse: Clients.Parser<S>) {
    Said(req, llm) == [] && Clients.SourcesIn(Widened(req.sources), parse) != []
  }

  /** The bubble after a whole answer. */
  lemma BubbleAtEnd<S>(req: Request, llm: Llm, parse: Clients.Parser<S>, died: bool)
    ensures var bubble := Clients.AtEnd(WidgetFinished(req, llm, parse), died).bubble;
            && (bubble.muted <==> died || Broke(req, llm) || Silent(req, llm, parse))
            && (!bubble.muted ==> bubble.text == Widened(Concat(Said(req, llm))))
  {
  }

  /** The verdicts on a whole answer: they part over a carriage return among the sources, or when a dead
      socket makes the widget disown an answer that was complete. */
  lemma VerdictsAtEnd<S>(req: Request, llm: Llm, parse: Clients.Parser<S>, died: bool)
    ensures var muted := Clients.AtEnd(WidgetFinished(req, llm, parse), died).bubble.muted;
            var p := Finished(req, llm, parse);
            && ('\r' !in req.sources && !died ==> (muted <==> Clients.Verdict(p).Failed?))
            && (died ==> ((muted <==> Clients.Verdict(p).Failed?) <==> !Complete(p)))
  {
    BubbleAtEnd(req, llm, parse, died);
    WidenedIsUnreturned(req.sources);
  }

  lemma NoReturnIn(s: string)
    ensures '\r' !in Unreturned(s)
  {
  }

  /** Both clients at the end of one answer, each with its own chunking. The bubble shows what the dashboard
      shows exactly when the widget wrote no message of its own over it and no token holds a carriage
      return. */
  lemma AnswersAlikeIff<S>(req: Request, llm: Llm, parse: Clients.Parser<S>, items: seq<Item>,
                           chunks: seq<string>, others: seq<string>, died: bool)
    requires Sent(items) == Answered(req, llm) && Concat(chunks) == Wire(items) && Concat(others) == Wire(items)
    ensures var p := Clients.ReadAll(Streamed(chunks, INITIAL), Clients.Start(), parse);
            var bubble := Clients.AtEnd(Clients.OnEvents(WidgetStreamed(others, ""), Clients.Blank(), parse), died).bubble;
            var said, failed := Concat(Said(req, llm)), Clients.Verdict(p).Failed?;
            && (bubble.muted <==> died || Broke(req, llm) || Silent(req, llm, parse))
            && (!bubble.muted ==> bubble.text == Widened(said) && ('\r' in bubble.text <==> '\r' in said))
            && Spoken(p.calls) == Unreturned(said) && '\r' !in Spoken(p.calls)
            && (bubble == Clients.Bubble(Spoken(p.calls), false) <==> !bubble.muted && '\r' !in said)
            && ('\r' !in req.sources && !died ==> (bubble.muted <==> failed))
            && (died ==> ((bubble.muted <==> failed) <==> !Complete(p)))
  {
    WidgetAtEnd(req, llm, parse, items, others);
    FinishedAtEnd(req, llm, parse, items, chunks);
    FinishedSpoken(req, llm, parse);
    WidenedIsUnreturned(Concat(Said(req, llm)));
    WidenedSame(Concat(Said(req, llm)));
    NoReturnIn(Concat(Said(req, llm)));
    BubbleAtEnd(req, llm, parse, died);
    VerdictsAtEnd(req, llm, parse, died);
  }
}
