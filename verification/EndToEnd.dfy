/** An answer end to end: the server's frames, the bytes on the wire, any chunking by the network, the
    two clients' verdicts, and what the conversation remembers. */
module EndToEnd {
  import opened Text
  import opened Sse
  import opened SseEncoding
  import opened AskStream
  import Clients = AskClients
  import Conversation
  import Widget

  /** The frames among what the wire carries. */
  function Sent(items: seq<Item>): seq<Frame> {
    if items == [] then []
    else if items[0].KeepAlive? then Sent(items[1..])
    else [items[0].frame] + Sent(items[1..])
  }

  function DeliveredAll(frames: seq<Frame>): seq<Frame> {
    if frames == [] then [] else [Delivered(frames[0])] + DeliveredAll(frames[1..])
  }

  lemma {:induction false} ReceivedIsDelivered(items: seq<Item>)
    ensures Received(items) == DeliveredAll(Sent(items))
  {
    if items != [] {
      ReceivedIsDelivered(items[1..]);
      if items[0].Event? {
        assert Sent(items)[1..] == Sent(items[1..]);
      }
    }
  }

  lemma {:induction false} DeliveredAppend(a: seq<Frame>, b: seq<Frame>)
    ensures DeliveredAll(a + b) == DeliveredAll(a) + DeliveredAll(b)
  {
    if a == [] {
      assert a + b == b;
    } else {
      SplitFirst(a, b);
      DeliveredAppend(a[1..], b);
      Regroup([Delivered(a[0])], DeliveredAll(a[1..]), DeliveredAll(b));
    }
  }

  lemma DeliveredOne(f: Frame)
    ensures DeliveredAll([f]) == [Delivered(f)]
  {
    assert [f][1..] == [];
  }

  // ---------------------------------------------------------------- what the dashboard makes of it

  function TokenCalls<S>(tokens: seq<string>): seq<Clients.Call<S>> {
    if tokens == [] then [] else [Clients.Token(Unreturned(tokens[0]))] + TokenCalls<S>(tokens[1..])
  }

  /** The text of the token calls, in order. */
  function Spoken<S>(calls: seq<Clients.Call<S>>): string {
    if calls == [] then ""
    else if calls[0].Token? then calls[0].text + Spoken(calls[1..])
    else Spoken(calls[1..])
  }

  lemma UnreturnedAppend(a: string, b: string)
    ensures Unreturned(a + b) == Unreturned(a) + Unreturned(b)
  {
  }

  lemma {:induction false} SpokenTokens<S>(tokens: seq<string>)
    ensures Spoken(TokenCalls<S>(tokens)) == Unreturned(Concat(tokens))
  {
    if tokens != [] {
      SpokenTokens<S>(tokens[1..]);
      assert TokenCalls<S>(tokens)[1..] == TokenCalls<S>(tokens[1..]);
      UnreturnedAppend(tokens[0], Concat(tokens[1..]));
    }
  }

  lemma {:induction false} ReadTokens<S>(tokens: seq<string>, p: Clients.Progress<S>, parse: Clients.Parser<S>)
    requires !Clients.Ended(p)
    ensures Clients.ReadAll(DeliveredAll(TokenFrames(tokens)), p, parse)
            == p.(tokens := p.tokens + |tokens|, calls := p.calls + TokenCalls<S>(tokens))
    decreases |tokens|
  {
    if tokens == [] {
      assert p.calls + TokenCalls<S>(tokens) == p.calls;
    } else {
      var call := Clients.Token(Unreturned(tokens[0]));
      var q := p.(tokens := p.tokens + 1, calls := p.calls + [call]);
      ReadTokens(tokens[1..], q, parse);
      assert TokenFrames(tokens)[1..] == TokenFrames(tokens[1..]);
      assert DeliveredAll(TokenFrames(tokens))[1..] == DeliveredAll(TokenFrames(tokens[1..]));
      Regroup(p.calls, [call], TokenCalls<S>(tokens[1..]));
    }
  }

  /** The tokens the server says: the canned line when nothing was retrieved. */
  function Said(req: Request, llm: Llm): seq<string> {
    if req.hits == 0 then [NO_ANSWER] else TokensOf(llm)
  }

  /** The stream broke, or never started, with something retrieved. */
  predicate Broke(req: Request, llm: Llm) {
    req.hits > 0 && Failed(llm)
  }

  /** Serialising the sources and reading them back keeps their number. */
  predicate SourcesSurvive<S>(req: Request, parse: Clients.Parser<S>) {
    parse(Unreturned(req.sources)).Some? && |parse(Unreturned(req.sources)).value| == req.hits
  }

  function Opened<S>(req: Request, parse: Clients.Parser<S>): Clients.Progress<S> {
    var sources := Clients.SourcesIn(Unreturned(req.sources), parse);
    Clients.Progress(sources, 0, false, false,
                     [Clients.Conversation(Unreturned(req.conversationText)), Clients.Sources(sources)])
  }

  lemma TokenFramesOne(text: string)
    ensures TokenFrames([text]) == [Frame("token", text)]
  {
    assert [text][1..] == [];
  }

  function ErrorFrame(broke: bool): seq<Frame> {
    if broke then [Frame("error", STREAM_FAILED)] else []
  }

  lemma BodyShape(req: Request, llm: Llm)
    ensures BodyFrames(req, llm) == TokenFrames(Said(req, llm)) + ErrorFrame(Broke(req, llm))
  {
    TokenFramesOne(NO_ANSWER);
  }

  lemma ReadOne<S>(f: Frame, p: Clients.Progress<S>, parse: Clients.Parser<S>)
    requires !Clients.Ended(p)
    ensures Clients.ReadAll([f], p, parse) == Clients.React(f, p, parse)
  {
    assert [f][1..] == [];
  }

  lemma ReadOpening<S>(req: Request, parse: Clients.Parser<S>)
    ensures Clients.ReadAll(
              DeliveredAll([Frame("conversation", req.conversationText), Frame("sources", req.sources)]),
              Clients.Start(), parse) == Opened(req, parse)
  {
    var a, b := Frame("conversation", req.conversationText), Frame("sources", req.sources);
    DeliveredAppend([a], [b]);
    DeliveredOne(a);
    DeliveredOne(b);
    assert [a] + [b] == [a, b];
    Clients.ReadAppend([Delivered(a)], [Delivered(b)], Clients.Start(), parse);
    ReadOne(Delivered(a), Clients.Start(), parse);
    var p := Clients.React(Delivered(a), Clients.Start(), parse);
    assert p.calls == [Clients.Conversation(Unreturned(req.conversationText))];
    ReadOne(Delivered(b), p, parse);
    assert Clients.React(Delivered(b), p, parse).calls == Opened(req, parse).calls;
  }

  lemma ReadTokensThen<S>(tokens: seq<string>, last: seq<Frame>, p: Clients.Progress<S>, parse: Clients.Parser<S>)
    returns (q: Clients.Progress<S>)
    requires !Clients.Ended(p)
    ensures q == p.(tokens := p.tokens + |tokens|, calls := p.calls + TokenCalls<S>(tokens))
    ensures Clients.ReadAll(DeliveredAll(TokenFrames(tokens) + last), p, parse)
            == Clients.ReadAll(DeliveredAll(last), q, parse)
  {
    q := p.(tokens := p.tokens + |tokens|, calls := p.calls + TokenCalls<S>(tokens));
    DeliveredAppend(TokenFrames(tokens), last);
    Clients.ReadAppend(DeliveredAll(TokenFrames(tokens)), DeliveredAll(last), p, parse);
    ReadTokens(tokens, p, parse);
  }

  lemma ReadError<S>(text: string, q: Clients.Progress<S>, parse: Clients.Parser<S>)
    requires !Clients.Ended(q)
    ensures Clients.ReadAll(DeliveredAll([Frame("error", text)]), q, parse) == q.(failed := true)
  {
    var f := Frame("error", text);
    DeliveredOne(f);
    ReadOne(Delivered(f), q, parse);
  }

  /** Any tokens, and an error or not, read after the opening frames. */
  lemma ReadSaid<S>(said: seq<string>, broke: bool, p: Clients.Progress<S>, parse: Clients.Parser<S>)
    requires !Clients.Ended(p)
    ensures Clients.ReadAll(DeliveredAll(TokenFrames(said) + ErrorFrame(broke)), p, parse)
            == p.(tokens := p.tokens + |said|, failed := broke, calls := p.calls + TokenCalls<S>(said))
  {
    var q := ReadTokensThen(said, ErrorFrame(broke), p, parse);
    if broke {
      ReadError(STREAM_FAILED, q, parse);
    }
  }

  /** Everything the dashboard has done by the end of the server's stream. */
  function Finished<S>(req: Request, llm: Llm, parse: Clients.Parser<S>): Clients.Progress<S> {
    var p := Opened(req, parse);
    p.(tokens := |Said(req, llm)|, failed := Broke(req, llm), done := !Broke(req, llm),
       calls := p.calls + TokenCalls<S>(Said(req, llm)))
  }

  lemma ReadDone<S>(p: Clients.Progress<S>, parse: Clients.Parser<S>)
    requires !p.done
    ensures Clients.ReadAll(DeliveredAll([Frame("done", "")]), p, parse) == if p.failed then p else p.(done := true)
  {
    var f := Frame("done", "");
    DeliveredOne(f);
    if !p.failed {
      ReadOne(Delivered(f), p, parse);
    }
  }

  lemma ReadThree<S>(a: seq<Frame>, b: seq<Frame>, c: seq<Frame>, p: Clients.Progress<S>, parse: Clients.Parser<S>)
    ensures Clients.ReadAll(DeliveredAll(a + b + c), p, parse)
            == Clients.ReadAll(DeliveredAll(c), Clients.ReadAll(DeliveredAll(b), Clients.ReadAll(DeliveredAll(a), p, parse), parse), parse)
  {
    DeliveredAppend(a + b, c);
    DeliveredAppend(a, b);
    Clients.ReadAppend(DeliveredAll(a) + DeliveredAll(b), DeliveredAll(c), p, parse);
    Clients.ReadAppend(DeliveredAll(a), DeliveredAll(b), p, parse);
  }

  lemma ReadAnswer<S>(req: Request, llm: Llm, parse: Clients.Parser<S>)
    ensures Clients.ReadAll(DeliveredAll(Answered(req, llm)), Clients.Start(), parse) == Finished(req, llm, parse)
  {
    ReadThree([Frame("conversation", req.conversationText), Frame("sources", req.sources)],
              BodyFrames(req, llm), [Frame("done", "")], Clients.Start(), parse);
    ReadOpening(req, parse);
    BodyShape(req, llm);
    ReadSaid(Said(req, llm), Broke(req, llm), Opened(req, parse), parse);
    ReadDone(Opened(req, parse).(tokens := |Said(req, llm)|, failed := Broke(req, llm),
                                 calls := Opened(req, parse).calls + TokenCalls<S>(Said(req, llm))), parse);
  }

  lemma {:induction false} SaidNothing(tokens: seq<string>)
    requires forall i :: 0 <= i < |tokens| ==> tokens[i] != ""
    ensures Concat(tokens) == "" <==> tokens == []
  {
  }

  lemma {:induction false} SentHolds(items: seq<Item>, i: nat)
    requires i < |items| && items[i].Event?
    ensures items[i].frame in Sent(items)
  {
    if i > 0 {
      SentHolds(items[1..], i - 1);
    }
  }

  lemma BodyNames(req: Request, llm: Llm, f: Frame)
    requires f in BodyFrames(req, llm)
    ensures f.event in ["token", "error"] && OneLine(f.event)
  {
    BodyShape(req, llm);
    assert f in TokenFrames(Said(req, llm)) || f in ErrorFrame(Broke(req, llm));
  }

  lemma OuterNames(req: Request, llm: Llm, f: Frame)
    requires f in Answered(req, llm) && f !in BodyFrames(req, llm)
    ensures f.event in ["conversation", "sources", "done"] && OneLine(f.event)
  {
    var opening := [Frame("conversation", req.conversationText), Frame("sources", req.sources)];
    assert Answered(req, llm) == opening + BodyFrames(req, llm) + [Frame("done", "")];
  }

  lemma AnsweredNames(req: Request, llm: Llm, f: Frame)
    requires f in Answered(req, llm)
    ensures f.event in ["conversation", "sources", "token", "error", "done"] && OneLine(f.event)
  {
    if f in BodyFrames(req, llm) {
      BodyNames(req, llm, f);
    } else {
      OuterNames(req, llm, f);
    }
  }

  lemma SendableAnswer(items: seq<Item>, req: Request, llm: Llm)
    requires Sent(items) == Answered(req, llm)
    ensures Sendable(items)
  {
    forall i | 0 <= i < |items| && items[i].Event? ensures OneLine(items[i].frame.event) {
      SentHolds(items, i);
      AnsweredNames(req, llm, items[i].frame);
    }
  }

  lemma FinishedAtEnd<S>(req: Request, llm: Llm, parse: Clients.Parser<S>, items: seq<Item>, chunks: seq<string>)
    requires Sent(items) == Answered(req, llm) && Concat(chunks) == Wire(items)
    ensures Clients.ReadAll(Streamed(chunks, INITIAL), Clients.Start(), parse) == Finished(req, llm, parse)
  {
    SendableAnswer(items, req, llm);
    DecodeWire(items, chunks);
    ReceivedIsDelivered(items);
    ReadAnswer(req, llm, parse);
  }

  lemma FinishedVerdict<S>(req: Request, llm: Llm, parse: Clients.Parser<S>)
    requires SourcesSurvive(req, parse)
    ensures Clients.Verdict(Finished(req, llm, parse)) ==
            if Broke(req, llm) then Clients.Failed(Clients.Generic)
            else if Said(req, llm) == [] then Clients.Failed(Clients.NoWords)
            else Clients.Ok(req.hits == 0)
    ensures TurnOf(req, llm).Some? <==> !Broke(req, llm) && Said(req, llm) != []
    ensures TurnOf(req, llm).Some? ==> TurnOf(req, llm).value.answer == Concat(Said(req, llm))
  {
    if req.hits > 0 {
      SaidNothing(Said(req, llm));
    } else {
      ConcatOne(NO_ANSWER);
    }
  }

  lemma {:induction false} SpokenAppend<S>(a: seq<Clients.Call<S>>, b: seq<Clients.Call<S>>)
    ensures Spoken(a + b) == Spoken(a) + Spoken(b)
  {
    if a == [] {
      assert a + b == b;
    } else {
      SplitFirst(a, b);
      SpokenAppend(a[1..], b);
      if a[0].Token? {
        Regroup(a[0].text, Spoken(a[1..]), Spoken(b));
      }
    }
  }

  lemma SpokenOpening<S>(req: Request, parse: Clients.Parser<S>)
    ensures Spoken(Opened(req, parse).calls) == ""
  {
    var calls := Opened(req, parse).calls;
    assert calls == [calls[0]] + [calls[1]];
    SpokenAppend([calls[0]], [calls[1]]);
    assert [calls[0]][1..] == [] && [calls[1]][1..] == [];
    assert Spoken([calls[0]]) == "" && Spoken([calls[1]]) == "";
  }

  lemma FinishedSpoken<S>(req: Request, llm: Llm, parse: Clients.Parser<S>)
    ensures Spoken(Finished(req, llm, parse).calls) == Unreturned(Concat(Said(req, llm)))
  {
    SpokenAppend(Opened(req, parse).calls, TokenCalls<S>(Said(req, llm)));
    SpokenTokens<S>(Said(req, llm));
    SpokenOpening(req, parse);
    assert "" + Unreturned(Concat(Said(req, llm))) == Unreturned(Concat(Said(req, llm)));
  }

  lemma UnreturnedSame(s: string)
    ensures Unreturned(s) == s <==> '\r' !in s
  {
    if '\r' in s {
      var i :| 0 <= i < |s| && s[i] == '\r';
      assert Unreturned(s)[i] == '\n';
    }
  }

  /** For every question, retrieval result, model stream, interleaving of keep-alives and chunking by
      the network: the dashboard's verdict and what it showed. It reports success exactly when there is
      a turn to remember; `OkMeansRecordedIff` says when that turn is remembered. */
  lemma AnswerEndToEnd<S>(req: Request, llm: Llm, parse: Clients.Parser<S>, items: seq<Item>, chunks: seq<string>)
    requires Sent(items) == Answered(req, llm) && Concat(chunks) == Wire(items)
    requires SourcesSurvive(req, parse)
    ensures var p := Clients.ReadAll(Streamed(chunks, INITIAL), Clients.Start(), parse);
            var outcome, turn := Clients.Verdict(p), TurnOf(req, llm);
            && (outcome.Ok? <==> turn.Some?)
            && (outcome.Ok? ==> (outcome.refused <==> req.hits == 0))
            && (turn.Some? ==> Spoken(p.calls) == Unreturned(turn.value.answer))
            && (turn.Some? ==> (Spoken(p.calls) == turn.value.answer <==> '\r' !in turn.value.answer))
            && (outcome == Clients.Failed(Clients.Generic) <==> Broke(req, llm))
            && (outcome == Clients.Failed(Clients.NoWords) <==> !Broke(req, llm) && Said(req, llm) == [])
            && outcome != Clients.Failed(Clients.CutShort)
  {
    FinishedAtEnd(req, llm, parse, items, chunks);
    FinishedVerdict(req, llm, parse);
    FinishedSpoken(req, llm, parse);
    UnreturnedSame(Concat(Said(req, llm)));
  }

  /** An answer at the deadline reaches the dashboard as an answer: success with all the deltas, or, when there
      was not one word, a failure for that reason. */
  lemma DeadlineEndToEnd<S>(req: Request, ds: seq<string>, rest: seq<Poll>, parse: Clients.Parser<S>, items: seq<Item>,
                            chunks: seq<string>)
    requires req.hits > 0 && SourcesSurvive(req, parse)
    requires Sent(items) == Answered(req, Streaming(Deltas(ds) + [Elapsed] + rest)) && Concat(chunks) == Wire(items)
    ensures var p := Clients.ReadAll(Streamed(chunks, INITIAL), Clients.Start(), parse);
            && Clients.Verdict(p) == (if Concat(ds) == "" then Clients.Failed(Clients.NoWords) else Clients.Ok(false))
            && Spoken(p.calls) == Unreturned(Concat(ds))
  {
    var llm := Streaming(Deltas(ds) + [Elapsed] + rest);
    Regroup(Deltas(ds), [Elapsed], rest);
    DeltasThen(ds, [Elapsed] + rest);
    FinishedAtEnd(req, llm, parse, items, chunks);
    FinishedVerdict(req, llm, parse);
    FinishedSpoken(req, llm, parse);
    SaidNothing(Said(req, llm));
  }

  lemma RememberedGrows(before: seq<Conversation.Message>, req: Request, llm: Llm, commits: bool)
    ensures Remembered(before, req, llm, commits) != before <==> TurnOf(req, llm).Some? && commits
    ensures !(TurnOf(req, llm).Some? && commits) ==> Remembered(before, req, llm, commits) == before
  {
    if TurnOf(req, llm).Some? && commits {
      assert |Remembered(before, req, llm, commits)| == |before| + 2;
    } else {
      Neutral(before);
    }
  }

  /** Success is meant to say that the turn was recorded. It does exactly when the recording commits or
      there is nothing to record: a failed transaction is only logged, and the stream ends as if it had
      gone through. */
  lemma OkMeansRecordedIff<S>(req: Request, llm: Llm, parse: Clients.Parser<S>, items: seq<Item>, chunks: seq<string>,
                              before: seq<Conversation.Message>, commits: bool)
    requires Sent(items) == Answered(req, llm) && Concat(chunks) == Wire(items)
    requires SourcesSurvive(req, parse)
    ensures var p := Clients.ReadAll(Streamed(chunks, INITIAL), Clients.Start(), parse);
            var outcome, turn, after := Clients.Verdict(p), TurnOf(req, llm), Remembered(before, req, llm, commits);
            && ((outcome.Ok? <==> after != before) <==> (commits || turn.None?))
            && (outcome.Ok? && commits ==>
                  turn.Some? && after == before + Conversation.RowsOf(turn.value)
                  && Spoken(p.calls) == Unreturned(turn.value.answer))
            && (outcome.Ok? && !commits ==> turn.Some? && after == before)
            && (!outcome.Ok? ==> after == before)
  {
    AnswerEndToEnd(req, llm, parse, items, chunks);
    RememberedGrows(before, req, llm, commits);
  }

  /** Frames on the wire without a keep-alive. */
  function Plainly(frames: seq<Frame>): seq<Item> {
    if frames == [] then [] else [Event(frames[0])] + Plainly(frames[1..])
  }

  lemma {:induction false} PlainlySent(frames: seq<Frame>)
    ensures Sent(Plainly(frames)) == frames
  {
    if frames != [] {
      PlainlySent(frames[1..]);
      assert Plainly(frames)[1..] == Plainly(frames[1..]);
    }
  }

  /** A question that retrieves nothing, whose turn the database refuses. */
  lemma RefusalUnrecorded<S>(req: Request, llm: Llm, parse: Clients.Parser<S>, items: seq<Item>, chunks: seq<string>,
                             before: seq<Conversation.Message>)
    requires Sent(items) == Answered(req, llm) && Concat(chunks) == Wire(items)
    requires req.hits == 0 && SourcesSurvive(req, parse)
    ensures Clients.Verdict(Clients.ReadAll(Streamed(chunks, INITIAL), Clients.Start(), parse)) == Clients.Ok(true)
    ensures Remembered(before, req, llm, false) == before
  {
    FinishedAtEnd(req, llm, parse, items, chunks);
    FinishedVerdict(req, llm, parse);
    RememberedGrows(before, req, llm, false);
  }

  /** An input for which it does not: the dashboard reports success and the conversation holds nothing. */
  lemma OkThoughUnrecorded<S>(question: string, parse: Clients.Parser<S>, before: seq<Conversation.Message>)
    returns (req: Request, chunks: seq<string>)
    requires parse("[]") == Some([])
    ensures req == Request(0, "c", question, 0, "[]", [])
    ensures Concat(chunks) == Wire(Plainly(Answered(req, Unstarted)))
    ensures Clients.Verdict(Clients.ReadAll(Streamed(chunks, INITIAL), Clients.Start(), parse)) == Clients.Ok(true)
    ensures Remembered(before, req, Unstarted, false) == before
  {
    req := Request(0, "c", question, 0, "[]", []);
    var items := Plainly(Answered(req, Unstarted));
    chunks := [Wire(items)];
    ConcatOne(Wire(items));
    PlainlySent(Answered(req, Unstarted));
    UnreturnedSame("[]");
    assert Unreturned(req.sources) == "[]";
    RefusalUnrecorded(req, Unstarted, parse, items, chunks, before);
  }

  // ---------------------------------------------------------------- a stream cut short

  /** `a` begins `b`. */
  predicate Begins<T(==)>(a: seq<T>, b: seq<T>) {
    |a| <= |b| && a == b[..|a|]
  }

  lemma FramesBegin(a: string, b: string, p: Partial)
    ensures Begins(Frames(a, p), Frames(a + b, p))
  {
    PushSplits(a, b, p);
  }

  /** A line that only names an event delivers nothing. */
  lemma NameAlone(line: string, name: string)
    requires OneLine(name) && line == "event: " + name
    ensures Frames(line + "\n", EMPTY) == []
  {
    EventLine(name, EMPTY);
    ReadsLine(line, '\n', "", EMPTY);
    Neutral(line + "\n");
  }

  /** What is decoded before the last character of a stream that ends with `done`: everything but it. */
  lemma BeforeLast(items: seq<Item>, name: string)
    requires Sendable(items) && OneLine(name)
    ensures Frames(Wire(items) + ("event: " + name + "\n"), EMPTY) == Received(items)
  {
    var line := "event: " + name;
    NameAlone(line, name);
    ReadsWire(items, line + "\n");
    Neutral(Received(items));
  }

  lemma EncodeLast(name: string)
    ensures Encode(Frame(name, "")) == "event: " + name + "\n" + "\n"
  {
    assert EncodeData("") + "\n" == "\n";
  }

  lemma {:induction false} WireSnoc(items: seq<Item>, last: Item)
    ensures Wire(items + [last]) == Wire(items) + EncodeItem(last)
    ensures Sent(items + [last]) == Sent(items) + if last.Event? then [last.frame] else []
  {
    if items == [] {
      assert items + [last] == [last] && [last][1..] == [];
      assert EncodeItem(last) + "" == EncodeItem(last);
    } else {
      SplitFirst(items, [last]);
      WireSnoc(items[1..], last);
      Regroup(EncodeItem(items[0]), Wire(items[1..]), EncodeItem(last));
      if items[0].Event? {
        Regroup([items[0].frame], Sent(items[1..]), if last.Event? then [last.frame] else []);
      }
    }
  }

  lemma {:induction false} CallsGrow<S>(frames: seq<Frame>, p: Clients.Progress<S>, parse: Clients.Parser<S>)
    ensures Begins(p.calls, Clients.ReadAll(frames, p, parse).calls)
    decreases |frames|
  {
    if frames != [] && !Clients.Ended(p) {
      CallsGrow(frames[1..], Clients.React(frames[0], p, parse), parse);
    }
  }

  lemma ReadBegins<S>(a: seq<Frame>, b: seq<Frame>, p: Clients.Progress<S>, parse: Clients.Parser<S>)
    requires Begins(a, b)
    ensures Begins(Clients.ReadAll(a, p, parse).calls, Clients.ReadAll(b, p, parse).calls)
  {
    assert b == a + b[|a|..];
    Clients.ReadAppend(a, b[|a|..], p, parse);
    CallsGrow(b[|a|..], Clients.ReadAll(a, p, parse), parse);
  }

  lemma {:induction false} NeverDone<S>(frames: seq<Frame>, p: Clients.Progress<S>, parse: Clients.Parser<S>)
    requires !p.done && forall i :: 0 <= i < |frames| ==> frames[i].event != "done"
    ensures !Clients.ReadAll(frames, p, parse).done
    decreases |frames|
  {
    if frames != [] && !Clients.Ended(p) {
      NeverDone(frames[1..], Clients.React(frames[0], p, parse), parse);
    }
  }

  lemma {:induction false} DeliveredIndex(frames: seq<Frame>, i: nat)
    requires i < |DeliveredAll(frames)|
    ensures i < |frames| && DeliveredAll(frames)[i] == Delivered(frames[i])
  {
    if i > 0 {
      DeliveredIndex(frames[1..], i - 1);
    }
  }

  /** The server's frames up to its closing `done`. */
  function Undone(req: Request, llm: Llm): seq<Frame> {
    [Frame("conversation", req.conversationText), Frame("sources", req.sources)] + BodyFrames(req, llm)
  }

  lemma UndoneName(req: Request, llm: Llm, g: Frame)
    requires g in Undone(req, llm)
    ensures g.event != "done" && g.event != ""
  {
    BodyShape(req, llm);
    if g in BodyFrames(req, llm) {
      assert g in TokenFrames(Said(req, llm)) || g in ErrorFrame(Broke(req, llm));
    }
  }

  lemma UndoneNames(req: Request, llm: Llm, f: Frame)
    requires f in DeliveredAll(Undone(req, llm))
    ensures f.event != "done"
  {
    var i :| 0 <= i < |DeliveredAll(Undone(req, llm))| && DeliveredAll(Undone(req, llm))[i] == f;
    DeliveredIndex(Undone(req, llm), i);
    UndoneName(req, llm, Undone(req, llm)[i]);
  }

  lemma CutBefore(got: string, missing: string, most: string)
    requires got + missing == most + "\n" && missing != ""
    ensures |got| <= |most| && most == got + most[|got|..]
  {
    forall i | 0 <= i < |got| && i < |most| ensures got[i] == most[i] {
      assert (got + missing)[i] == (most + "\n")[i];
    }
  }

  /** Where a proper part of a stream can reach, if its last frame has no data. */
  lemma CutFrames(undone: seq<Frame>, name: string, front: seq<Item>, got: string, missing: string)
    requires Sent(front) == undone && Sendable(front) && OneLine(name)
    requires got + missing == Wire(front) + Encode(Frame(name, "")) && missing != ""
    ensures Begins(Decode(got), DeliveredAll(undone))
  {
    var most := Wire(front) + ("event: " + name + "\n");
    EncodeLast(name);
    Regroup(Wire(front), "event: " + name + "\n", "\n");
    BeforeLast(front, name);
    ReceivedIsDelivered(front);
    CutBefore(got, missing, most);
    FramesBegin(got, most[|got|..], EMPTY);
  }

  lemma LastFrame(a: seq<Frame>, b: seq<Frame>, last: Frame)
    requires a + [last] == b + [last]
    ensures a == b
  {
    assert |a + [last]| == |b + [last]|;
    forall i | 0 <= i < |a| ensures a[i] == b[i] {
      assert (a + [last])[i] == (b + [last])[i];
    }
  }

  lemma CutItems(items: seq<Item>, undone: seq<Frame>, last: Frame) returns (front: seq<Item>)
    requires Sent(items) == undone + [last] && Sendable(items)
    requires items != [] && items[|items| - 1] == Event(last)
    ensures Sent(front) == undone && Sendable(front) && Wire(items) == Wire(front) + Encode(last)
  {
    front := items[..|items| - 1];
    assert items == front + [Event(last)];
    WireSnoc(front, Event(last));
    LastFrame(Sent(front), undone, last);
  }

  lemma CutRead<S>(got: seq<Frame>, undone: seq<Frame>, last: Frame, parse: Clients.Parser<S>)
    requires Begins(got, DeliveredAll(undone))
    requires forall f :: f in DeliveredAll(undone) ==> f.event != "done"
    ensures var p := Clients.ReadAll(got, Clients.Start(), parse);
            && !Clients.Verdict(p).Ok?
            && Begins(p.calls, Clients.ReadAll(DeliveredAll(undone + [last]), Clients.Start(), parse).calls)
  {
    forall i | 0 <= i < |got| ensures got[i].event != "done" {
      assert got[i] == DeliveredAll(undone)[i];
    }
    NeverDone(got, Clients.Start(), parse);
    DeliveredAppend(undone, [last]);
    ReadBegins(got, DeliveredAll(undone + [last]), Clients.Start(), parse);
  }

  /** A stream cut anywhere before its last character is never reported as a success, and everything
      shown until then, tokens included, is the beginning of what the whole stream shows. */
  lemma CutNeverOk<S>(req: Request, llm: Llm, parse: Clients.Parser<S>, items: seq<Item>, chunks: seq<string>, missing: string)
    requires Sent(items) == Answered(req, llm)
    requires items != [] && items[|items| - 1] == Event(Frame("done", ""))
    requires Concat(chunks) + missing == Wire(items) && missing != ""
    ensures var p := Clients.ReadAll(Streamed(chunks, INITIAL), Clients.Start(), parse);
            !Clients.Verdict(p).Ok? && Begins(p.calls, Finished(req, llm, parse).calls)
  {
    var undone, done := Undone(req, llm), Frame("done", "");
    SendableAnswer(items, req, llm);
    var front := CutItems(items, undone, done);
    DecodeAnySplit(chunks);
    CutFrames(undone, "done", front, Concat(chunks), missing);
    forall f | f in DeliveredAll(undone) ensures f.event != "done" {
      UndoneNames(req, llm, f);
    }
    CutRead(Decode(Concat(chunks)), undone, done, parse);
    ReadAnswer(req, llm, parse);
  }
}
