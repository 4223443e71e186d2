/** One streamed answer on the server: `ask_stream` of `crates/api/src/handlers.rs`.

    Retrieval, the model and the database are parameters: the hits with their serialised form, the
    items the model's stream yields, and whether recording the turn commits. */
module AskStream {
  import opened Text
  import opened Sse
  import Conversation

  const NO_ANSWER: string := "Sorry, I couldn't find any relevant information."
  const STREAM_FAILED: string := "the answer could not be completed"

  /** One poll of the model's stream: a delta, an error, or the wall clock running out. The end of
      the list is the gateway finishing. */
  datatype Poll = Delta(text: string) | Broken | Elapsed

  datatype Llm = Unstarted | Streaming(polls: seq<Poll>)

  /** A question with what retrieval found for it: how many passages, their serialised list, and the
      documents they came from. */
  datatype Request = Request(conversation: nat, conversationText: string, question: string,
                             hits: nat, sources: string, cited: seq<string>)

  /** The non-empty deltas before the stream ends, breaks or runs out of time. */
  function Tokens(polls: seq<Poll>): (r: seq<string>)
    ensures forall i :: 0 <= i < |r| ==> r[i] != ""
  {
    if polls == [] || !polls[0].Delta? then []
    else if polls[0].text == "" then Tokens(polls[1..])
    else [polls[0].text] + Tokens(polls[1..])
  }

  /** The stream breaks before it ends or runs out of time. */
  predicate Breaks(polls: seq<Poll>) {
    polls != [] && (polls[0].Broken? || (polls[0].Delta? && Breaks(polls[1..])))
  }

  function TokensOf(llm: Llm): seq<string> {
    match llm
    case Unstarted => []
    case Streaming(polls) => Tokens(polls)
  }

  predicate Failed(llm: Llm) {
    match llm
    case Unstarted => true
    case Streaming(polls) => Breaks(polls)
  }

  function TokenFrames(tokens: seq<string>): (r: seq<Frame>)
    ensures |r| == |tokens|
    ensures forall i :: 0 <= i < |r| ==> r[i] == Frame("token", tokens[i])
  {
    if tokens == [] then [] else [Frame("token", tokens[0])] + TokenFrames(tokens[1..])
  }

  /** The frames between the opening two and the closing `done`. */
  function BodyFrames(req: Request, llm: Llm): seq<Frame> {
    if req.hits == 0 then [Frame("token", NO_ANSWER)]
    else TokenFrames(TokensOf(llm)) + if Failed(llm) then [Frame("error", STREAM_FAILED)] else []
  }

  function Answered(req: Request, llm: Llm): seq<Frame> {
    [Frame("conversation", req.conversationText), Frame("sources", req.sources)]
    + BodyFrames(req, llm) + [Frame("done", "")]
  }

  /** The turn to be recorded: none for a stream that failed or said nothing. */
  function TurnOf(req: Request, llm: Llm): Option<Conversation.Turn> {
    if req.hits == 0 then Some(Conversation.Turn(req.conversation, req.question, NO_ANSWER, []))
    else if !Failed(llm) && Concat(TokensOf(llm)) != ""
    then Some(Conversation.Turn(req.conversation, req.question, Concat(TokensOf(llm)), req.cited))
    else None
  }

  /** The rows after the answer: a turn is remembered only when its transaction commits. */
  function Remembered(before: seq<Conversation.Message>, req: Request, llm: Llm, commits: bool): seq<Conversation.Message> {
    before + if TurnOf(req, llm).Some? && commits then Conversation.RowsOf(TurnOf(req, llm).value) else []
  }

  lemma {:induction false} TokenFramesSnoc(tokens: seq<string>, t: string)
    ensures TokenFrames(tokens + [t]) == TokenFrames(tokens) + [Frame("token", t)]
  {
  }

  /** The loop over the model's stream. */
  method StreamAnswer(polls: seq<Poll>) returns (answer: string, failed: bool, frames: seq<Frame>)
    ensures answer == Concat(Tokens(polls)) && failed == Breaks(polls)
    ensures frames == TokenFrames(Tokens(polls)) + if Breaks(polls) then [Frame("error", STREAM_FAILED)] else []
  {
    answer, failed, frames := "", false, [];
    ghost var said: seq<string> := [];
    var i := 0;
    while i < |polls| && polls[i].Delta?
      invariant 0 <= i <= |polls|
      invariant said + Tokens(polls[i..]) == Tokens(polls) && Breaks(polls[i..]) == Breaks(polls)
      invariant answer == Concat(said) && frames == TokenFrames(said)
    {
      var text := polls[i].text;
      assert polls[i..][1..] == polls[i + 1..];
      if text != "" {
        ConcatSnoc(said, text);
        TokenFramesSnoc(said, text);
        Regroup(said, [text], Tokens(polls[i + 1..]));
        said := said + [text];
        answer := answer + text;
        frames := frames + [Frame("token", text)];
      }
      i := i + 1;
    }
    assert said + [] == said;
    if i < |polls| && polls[i].Broken? {
      failed := true;
      frames := frames + [Frame("error", STREAM_FAILED)];
    } else {
      assert frames + [] == frames;
    }
  }

  /** `ask_stream`: the frames it yields and the turn it leaves behind. A turn that cannot be recorded
      is only logged: the stream goes on as if it had been. */
  method Ask(req: Request, llm: Llm, messages: Conversation.Messages, commits: bool) returns (frames: seq<Frame>)
    modifies messages
    ensures frames == Answered(req, llm)
    ensures messages.rows == Remembered(old(messages.rows), req, llm, commits)
  {
    frames := [Frame("conversation", req.conversationText), Frame("sources", req.sources)];
    if req.hits == 0 {
      var ok := messages.AppendTurn(Conversation.Turn(req.conversation, req.question, NO_ANSWER, []), commits);
      frames := frames + [Frame("token", NO_ANSWER)] + [Frame("done", "")];
      return;
    }
    var answer, failed, body := "", false, [];
    match llm {
      case Streaming(polls) =>
        answer, failed, body := StreamAnswer(polls);
      case Unstarted =>
        failed, body := true, [Frame("error", STREAM_FAILED)];
        assert body == [] + [Frame("error", STREAM_FAILED)];
    }
    frames := frames + body;
    if !failed && answer != "" {
      var ok := messages.AppendTurn(Conversation.Turn(req.conversation, req.question, answer, req.cited), commits);
    }
    frames := frames + [Frame("done", "")];
  }

  // ---------------------------------------------------------------- how a stream may end

  /** The gateway's deltas, one poll each. */
  function Deltas(ds: seq<string>): seq<Poll> {
    if ds == [] then [] else [Delta(ds[0])] + Deltas(ds[1..])
  }

  /** One token frame for each delta that is not empty. */
  function Words(ds: seq<string>): seq<Frame> {
    if ds == [] then []
    else if ds[0] == "" then Words(ds[1..])
    else [Frame("token", ds[0])] + Words(ds[1..])
  }

  /** Every list of polls is some deltas, after which the gateway finishes, breaks, or runs out of time. */
  lemma {:induction false} PollsEnd(polls: seq<Poll>) returns (ds: seq<string>, rest: seq<Poll>)
    ensures || polls == Deltas(ds)
            || polls == Deltas(ds) + [Broken] + rest
            || polls == Deltas(ds) + [Elapsed] + rest
  {
    if polls == [] {
      ds, rest := [], [];
    } else if polls[0].Delta? {
      ds, rest := PollsEnd(polls[1..]);
      var text := polls[0].text;
      assert ([text] + ds)[1..] == ds;
      assert polls == [Delta(text)] + polls[1..];
      Regroup([Delta(text)], Deltas(ds), [Broken]);
      Regroup([Delta(text)], Deltas(ds) + [Broken], rest);
      Regroup([Delta(text)], Deltas(ds), [Elapsed]);
      Regroup([Delta(text)], Deltas(ds) + [Elapsed], rest);
      ds := [text] + ds;
    } else {
      ds, rest := [], polls[1..];
      assert polls == [] + [polls[0]] + rest;
    }
  }

  /** What the loop makes of deltas and whatever follows them. */
  lemma {:induction false} DeltasThen(ds: seq<string>, end: seq<Poll>)
    requires end == [] || !end[0].Delta?
    ensures TokenFrames(Tokens(Deltas(ds) + end)) == Words(ds) && Concat(Tokens(Deltas(ds) + end)) == Concat(ds)
    ensures Breaks(Deltas(ds) + end) <==> end != [] && end[0].Broken?
  {
    if ds == [] {
      Neutral(end);
    } else {
      var polls := Deltas(ds) + end;
      Regroup([Delta(ds[0])], Deltas(ds[1..]), end);
      assert polls[0] == Delta(ds[0]) && polls[1..] == Deltas(ds[1..]) + end;
      DeltasThen(ds[1..], end);
      if ds[0] == "" {
        Neutral(Concat(ds[1..]));
      } else {
        assert Tokens(polls)[1..] == Tokens(polls[1..]);
      }
    }
  }

  /** The two rows of an exchange, or none. */
  function Exchange(req: Request, answer: string, cited: seq<string>): seq<Conversation.Message> {
    [Conversation.Message(req.conversation, Conversation.User, req.question, []),
     Conversation.Message(req.conversation, Conversation.Assistant, answer, cited)]
  }

  function Opening(req: Request): seq<Frame> {
    [Frame("conversation", req.conversationText), Frame("sources", req.sources)]
  }

  lemma AnsweredAs(req: Request, llm: Llm, ds: seq<string>, error: seq<Frame>)
    requires req.hits > 0 && TokenFrames(TokensOf(llm)) == Words(ds)
    requires error == if Failed(llm) then [Frame("error", STREAM_FAILED)] else []
    ensures Answered(req, llm) == Opening(req) + Words(ds) + error + [Frame("done", "")]
  {
    Regroup(Opening(req), Words(ds), error);
  }

  /** A stream that the gateway finishes, or that runs out of time, is an answer: its tokens, no error, and
      unless it is empty a turn with all the deltas. */
  lemma DeadlineIsNoFailure(req: Request, ds: seq<string>, rest: seq<Poll>, before: seq<Conversation.Message>, commits: bool)
    requires req.hits > 0
    ensures var rows := before + if commits && Concat(ds) != "" then Exchange(req, Concat(ds), req.cited) else [];
            forall polls :: polls == Deltas(ds) || polls == Deltas(ds) + [Elapsed] + rest ==>
              && Answered(req, Streaming(polls)) == Opening(req) + Words(ds) + [Frame("done", "")]
              && Remembered(before, req, Streaming(polls), commits) == rows
  {
    forall polls | polls == Deltas(ds) || polls == Deltas(ds) + [Elapsed] + rest
      ensures Answered(req, Streaming(polls)) == Opening(req) + Words(ds) + [Frame("done", "")]
      ensures Remembered(before, req, Streaming(polls), commits)
              == before + if commits && Concat(ds) != "" then Exchange(req, Concat(ds), req.cited) else []
    {
      var end: seq<Poll> := if polls == Deltas(ds) then [] else [Elapsed] + rest;
      Neutral(Deltas(ds));
      Regroup(Deltas(ds), [Elapsed], rest);
      DeltasThen(ds, end);
      AnsweredAs(req, Streaming(polls), ds, []);
      Neutral(Opening(req) + Words(ds));
    }
  }

  /** A stream that breaks is no answer: its tokens, one error, and nothing recorded. */
  lemma BreakIsFailure(req: Request, ds: seq<string>, rest: seq<Poll>, before: seq<Conversation.Message>, commits: bool)
    requires req.hits > 0
    ensures var llm := Streaming(Deltas(ds) + [Broken] + rest);
            && Answered(req, llm) ==
                 Opening(req) + Words(ds) + [Frame("error", "the answer could not be completed")] + [Frame("done", "")]
            && Remembered(before, req, llm, commits) == before
  {
    Regroup(Deltas(ds), [Broken], rest);
    DeltasThen(ds, [Broken] + rest);
    AnsweredAs(req, Streaming(Deltas(ds) + [Broken] + rest), ds, [Frame("error", STREAM_FAILED)]);
    Neutral(before);
  }

  /** The remaining two: a stream that never starts, and a question for which nothing is retrieved. */
  lemma WithoutStream(req: Request, llm: Llm, before: seq<Conversation.Message>, commits: bool)
    ensures req.hits > 0 ==>
              && Answered(req, Unstarted) ==
                   Opening(req) + [Frame("error", "the answer could not be completed")] + [Frame("done", "")]
              && Remembered(before, req, Unstarted, commits) == before
    ensures req.hits == 0 ==>
              var refusal := "Sorry, I couldn't find any relevant information.";
              && Answered(req, llm) == Opening(req) + [Frame("token", refusal)] + [Frame("done", "")]
              && Remembered(before, req, llm, commits) == before + if commits then Exchange(req, refusal, []) else []
  {
    if req.hits > 0 {
      AnsweredAs(req, Unstarted, [], [Frame("error", STREAM_FAILED)]);
      Neutral(Opening(req));
      Neutral(before);
    }
  }
}
