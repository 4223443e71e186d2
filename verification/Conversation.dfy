/** Conversation memory (`crates/api/src/conversation.rs`): what a finished answer leaves behind and
    what the next question is resolved against. */
module Conversation {
  import opened Text

  const HISTORY_LIMIT: nat := 10

  datatype Role = User | Assistant

  datatype Message = Message(conversation: nat, role: Role, content: string, cited: seq<string>)

  datatype Turn = Turn(conversation: nat, question: string, answer: string, cited: seq<string>)

  /** The two rows of one exchange; only the assistant's row cites anything. */
  function RowsOf(t: Turn): seq<Message> {
    [Message(t.conversation, User, t.question, []), Message(t.conversation, Assistant, t.answer, t.cited)]
  }

  /** The messages of one conversation, oldest first. */
  function Of(rows: seq<Message>, conversation: nat): seq<Message> {
    if rows == [] then []
    else if rows[0].conversation == conversation then [rows[0]] + Of(rows[1..], conversation)
    else Of(rows[1..], conversation)
  }

  /** The newest `limit` of a conversation's messages, oldest first. */
  function Window(all: seq<Message>, limit: nat): seq<Message> {
    if |all| <= limit then all else all[|all| - limit..]
  }

  function Recent(rows: seq<Message>, conversation: nat, limit: nat): seq<Message> {
    Window(Of(rows, conversation), limit)
  }

  class Messages {
    var rows: seq<Message>

    /** Both rows go in one transaction: a failed one leaves neither behind. */
    method AppendTurn(t: Turn, commits: bool) returns (ok: bool)
      modifies this
      ensures ok == commits
      ensures rows == old(rows) + if commits then RowsOf(t) else []
      ensures commits ==>
                rows == old(rows) + [Message(t.conversation, User, t.question, []), Message(t.conversation, Assistant, t.answer, t.cited)]
    {
      var pending := rows;
      var roles := [(User, t.question), (Assistant, t.answer)];
      for i := 0 to |roles|
        invariant pending == old(rows) + RowsOf(t)[..i]
      {
        var (role, content) := roles[i];
        var cited := if role == Assistant && t.cited != [] then t.cited else [];
        pending := pending + [Message(t.conversation, role, content, cited)];
      }
      if commits {
        rows := pending;
      }
      ok := commits;
    }
  }

  // ---------------------------------------------------------------- exchanges one after another

  // Each exchange is recorded here before the next begins. `Transcripts` has transactions that overlap.

  /** Questions and answers strictly alternate, and no question is left unanswered. */
  predicate WholeTurns(messages: seq<Message>) {
    && |messages| % 2 == 0
    && forall i :: 0 <= i < |messages| ==> messages[i].role == if i % 2 == 0 then User else Assistant
  }

  ghost predicate Sound(rows: seq<Message>) {
    forall c: nat :: WholeTurns(Of(rows, c))
  }

  lemma {:induction false} OfAppend(a: seq<Message>, b: seq<Message>, c: nat)
    ensures Of(a + b, c) == Of(a, c) + Of(b, c)
  {
    if a == [] {
      assert a + b == b;
    } else {
      SplitFirst(a, b);
      OfAppend(a[1..], b, c);
      Regroup([a[0]], Of(a[1..], c), Of(b, c));
    }
  }

  lemma OfTurn(t: Turn, c: nat)
    ensures Of(RowsOf(t), c) == if c == t.conversation then RowsOf(t) else []
  {
    var rows := RowsOf(t);
    assert rows[1..][1..] == [];
    assert Of([], c) == [];
  }

  /** The rows after any number of uninterrupted exchanges, in any conversations. */
  function AfterTurns(rows: seq<Message>, turns: seq<Turn>): seq<Message>
    decreases |turns|
  {
    if turns == [] then rows else AfterTurns(rows + RowsOf(turns[0]), turns[1..])
  }

  /** Whatever exchanges are recorded, one after another, every conversation stays a list of whole turns. */
  lemma {:induction false} HistoriesStayWhole(rows: seq<Message>, turns: seq<Turn>)
    requires Sound(rows)
    ensures Sound(AfterTurns(rows, turns))
    decreases |turns|
  {
    if turns != [] {
      forall c: nat ensures WholeTurns(Of(rows + RowsOf(turns[0]), c)) {
        OfAppend(rows, RowsOf(turns[0]), c);
        OfTurn(turns[0], c);
        assert WholeTurns(Of(rows, c));
      }
      HistoriesStayWhole(rows + RowsOf(turns[0]), turns[1..]);
    }
  }

  /** An even window shows the rewriter whole turns only, and the exchange just recorded last. */
  lemma RecentIsWhole(rows: seq<Message>, t: Turn, limit: nat)
    requires Sound(rows) && limit % 2 == 0 && limit >= 2
    ensures var seen := Recent(rows + RowsOf(t), t.conversation, limit);
            WholeTurns(seen) && |seen| >= 2 && seen[|seen| - 2..] == RowsOf(t)
  {
    HistoriesStayWhole(rows, [t]);
    assert AfterTurns(rows, [t]) == rows + RowsOf(t) by {
      assert [t][1..] == [];
    }
    OfAppend(rows, RowsOf(t), t.conversation);
    OfTurn(t, t.conversation);
    var all := Of(rows + RowsOf(t), t.conversation);
    assert WholeTurns(all);
    var skipped := if |all| <= limit then 0 else |all| - limit;
    assert Recent(rows + RowsOf(t), t.conversation, limit) == all[skipped..];
    assert skipped % 2 == 0;
  }
}
