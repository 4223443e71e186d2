/** Conversation rows as concurrent requests write them (`crates/api/src/conversation.rs`): each of the two
    inserts of an exchange draws its own sequence number, no lock is taken on the conversation, and a
    transcript is read in the order of those numbers. */
module Transcripts {
  import opened Text
  import opened Conversation

  // ---------------------------------------------------------------- transactions

  /** A recorded exchange with the numbers its two rows drew. */
  datatype Filed = Filed(turn: Turn, user: nat, answer: nat)

  /** An exchange whose transaction is still open. */
  datatype Pending = Pending(turn: Turn, user: nat, answer: Option<nat>)

  datatype Table = Table(next: nat, open: map<nat, Pending>, filed: seq<Filed>)

  datatype Action =
    | InsertQuestion(tx: nat, turn: Turn)
    | InsertAnswer(tx: nat)
    | Commit(tx: nat)
    | Rollback(tx: nat)

  const EMPTY_TABLE := Table(0, map[], [])

  function FiledAs(p: Pending): Filed
    requires p.answer.Some?
  {
    Filed(p.turn, p.user, p.answer.value)
  }

  function Step(t: Table, a: Action): Table {
    match a
    case InsertQuestion(tx, turn) =>
      if tx in t.open then t else t.(next := t.next + 1, open := t.open[tx := Pending(turn, t.next, None)])
    case InsertAnswer(tx) =>
      if tx !in t.open || t.open[tx].answer.Some? then t
      else t.(next := t.next + 1, open := t.open[tx := t.open[tx].(answer := Some(t.next))])
    case Commit(tx) =>
      if tx !in t.open || t.open[tx].answer.None? then t
      else t.(open := t.open - {tx}, filed := t.filed + [FiledAs(t.open[tx])])
    case Rollback(tx) => t.(open := t.open - {tx})
  }

  function After(t: Table, run: seq<Action>): Table
    decreases |run|
  {
    if run == [] then t else After(Step(t, run[0]), run[1..])
  }

  // ---------------------------------------------------------------- what a transcript reads

  function Question(f: Filed): Message {
    Message(f.turn.conversation, User, f.turn.question, [])
  }

  function Answer(f: Filed): Message {
    Message(f.turn.conversation, Assistant, f.turn.answer, f.turn.cited)
  }

  /** The row under sequence number `n`. */
  function RowAt(filed: seq<Filed>, n: nat): Option<Message> {
    if filed == [] then None
    else if filed[0].user == n then Some(Question(filed[0]))
    else if filed[0].answer == n then Some(Answer(filed[0]))
    else RowAt(filed[1..], n)
  }

  /** The rows of one conversation with numbers below `n`, in order. */
  function History(filed: seq<Filed>, c: nat, n: nat): seq<Message> {
    if n == 0 then []
    else
      var row := RowAt(filed, n - 1);
      if row.Some? && row.value.conversation == c then History(filed, c, n - 1) + [row.value]
      else History(filed, c, n - 1)
  }

  /** The newest `limit` of them. */
  function Newest(filed: seq<Filed>, c: nat, n: nat, limit: nat): seq<Message> {
    Window(History(filed, c, n), limit)
  }

  // ---------------------------------------------------------------- overlapping turns

  predicate InConversation(filed: seq<Filed>, c: nat, i: int) {
    0 <= i < |filed| && filed[i].turn.conversation == c
  }

  /** Each turn began before the other was complete. */
  predicate Overlap(f: Filed, g: Filed) {
    f.user < g.answer && g.user < f.answer
  }

  ghost predicate NoOverlap(filed: seq<Filed>, c: nat) {
    forall i, j :: InConversation(filed, c, i) && InConversation(filed, c, j) && i != j ==> !Overlap(filed[i], filed[j])
  }

  predicate Apart(f: Filed, g: Filed) {
    f.user != g.user && f.user != g.answer && f.answer != g.user && f.answer != g.answer
  }

  /** Numbers are drawn once each, a question's before its answer's, all below `n`. */
  ghost predicate Numbered(filed: seq<Filed>, n: nat) {
    && (forall i :: 0 <= i < |filed| ==> filed[i].user < filed[i].answer < n)
    && forall i, j :: 0 <= i < j < |filed| ==> Apart(filed[i], filed[j])
  }

  lemma {:induction false} RowOf(filed: seq<Filed>, n: nat, i: nat)
    requires Numbered(filed, n) && i < |filed|
    ensures RowAt(filed, filed[i].user) == Some(Question(filed[i]))
    ensures RowAt(filed, filed[i].answer) == Some(Answer(filed[i]))
  {
    if i > 0 {
      assert Apart(filed[0], filed[i]);
      RowOf(filed[1..], n, i - 1);
    }
  }

  /** Row `n` is the question, or the answer, of turn `i`. */
  predicate Asks(filed: seq<Filed>, n: nat, i: int) {
    0 <= i < |filed| && filed[i].user == n && RowAt(filed, n) == Some(Question(filed[i]))
  }

  predicate Answers(filed: seq<Filed>, n: nat, i: int) {
    0 <= i < |filed| && filed[i].answer == n && RowAt(filed, n) == Some(Answer(filed[i]))
  }

  lemma {:induction false} RowFrom(filed: seq<Filed>, n: nat) returns (i: nat)
    requires RowAt(filed, n).Some?
    ensures Asks(filed, n, i) || Answers(filed, n, i)
  {
    if filed[0].user == n || filed[0].answer == n {
      i := 0;
    } else {
      var j := RowFrom(filed[1..], n);
      i := j + 1;
    }
  }

  /** Turn `i` of the conversation has its question below `n` and its answer not. */
  predicate Straddles(filed: seq<Filed>, c: nat, i: int, n: nat) {
    InConversation(filed, c, i) && filed[i].user < n <= filed[i].answer
  }

  // ---------------------------------------------------------------- turns apart make whole histories

  predicate PairAt(filed: seq<Filed>, c: nat, messages: seq<Message>, k: int, i: int) {
    InConversation(filed, c, i) && 0 <= 2 * k && 2 * k + 1 < |messages| && messages[2 * k] == Question(filed[i]) && messages[2 * k + 1] == Answer(filed[i])
  }

  ghost predicate HasPair(filed: seq<Filed>, c: nat, messages: seq<Message>, k: int) {
    exists i :: PairAt(filed, c, messages, k, i)
  }

  /** Questions followed by their own answers. */
  ghost predicate Paired(filed: seq<Filed>, c: nat, messages: seq<Message>) {
    && |messages| % 2 == 0
    && forall k :: 0 <= k < |messages| / 2 ==> HasPair(filed, c, messages, k)
  }

  lemma PairedMore(filed: seq<Filed>, c: nat, messages: seq<Message>, i: nat)
    requires Paired(filed, c, messages) && InConversation(filed, c, i)
    ensures Paired(filed, c, messages + [Question(filed[i])] + [Answer(filed[i])])
  {
    var more := messages + [Question(filed[i])] + [Answer(filed[i])];
    forall k | 0 <= k < |more| / 2 ensures HasPair(filed, c, more, k) {
      if k < |messages| / 2 {
        assert HasPair(filed, c, messages, k);
        var j :| PairAt(filed, c, messages, k, j);
        assert PairAt(filed, c, more, k, j);
      } else {
        assert PairAt(filed, c, more, k, i);
      }
    }
  }

  lemma PairedIsWhole(filed: seq<Filed>, c: nat, messages: seq<Message>)
    requires Paired(filed, c, messages)
    ensures WholeTurns(messages)
  {
    forall m | 0 <= m < |messages| ensures messages[m].role == if m % 2 == 0 then User else Assistant {
      assert HasPair(filed, c, messages, m / 2);
      var i :| PairAt(filed, c, messages, m / 2, i);
    }
  }

  ghost predicate LastAsked(filed: seq<Filed>, c: nat, messages: seq<Message>, i: int)
    requires 0 <= i < |filed|
  {
    messages != [] && messages[|messages| - 1] == Question(filed[i]) && Paired(filed, c, messages[..|messages| - 1])
  }

  /** A history up to `n`: pairs, and at most the question of the one turn that straddles `n`. */
  ghost predicate PairedUpTo(filed: seq<Filed>, c: nat, n: nat) {
    var messages := History(filed, c, n);
    && ((forall i :: !Straddles(filed, c, i, n)) ==> Paired(filed, c, messages))
    && (forall i :: Straddles(filed, c, i, n) ==> LastAsked(filed, c, messages, i))
  }

  lemma SameStraddlers(filed: seq<Filed>, c: nat, end: nat, n: nat)
    requires Numbered(filed, end)
    requires var row := RowAt(filed, n); row.Some? ==> row.value.conversation != c
    ensures forall i :: Straddles(filed, c, i, n + 1) <==> Straddles(filed, c, i, n)
    ensures History(filed, c, n + 1) == History(filed, c, n)
  {
    forall i | InConversation(filed, c, i) ensures filed[i].user != n && filed[i].answer != n {
      RowOf(filed, end, i);
    }
  }

  lemma ApartTurns(filed: seq<Filed>, end: nat, i: int, j: int)
    requires Numbered(filed, end) && 0 <= i < |filed| && 0 <= j < |filed| && i != j
    ensures Apart(filed[i], filed[j])
  {
    assert i < j ==> Apart(filed[i], filed[j]);
    assert j < i ==> Apart(filed[j], filed[i]);
  }

  lemma NextQuestion(filed: seq<Filed>, c: nat, end: nat, n: nat, i: nat)
    requires Numbered(filed, end) && NoOverlap(filed, c) && PairedUpTo(filed, c, n)
    requires Asks(filed, n, i) && InConversation(filed, c, i)
    ensures PairedUpTo(filed, c, n + 1)
  {
    forall j ensures !Straddles(filed, c, j, n) {
      if Straddles(filed, c, j, n) {
        ApartTurns(filed, end, i, j);
        assert Overlap(filed[i], filed[j]);
      }
    }
    var m := n + 1;
    forall j ensures Straddles(filed, c, j, m) ==> j == i {
      if j != i && InConversation(filed, c, j) {
        ApartTurns(filed, end, i, j);
        assert !Straddles(filed, c, j, n);
      }
    }
    var before := History(filed, c, n);
    assert (before + [Question(filed[i])])[..|before|] == before;
    assert Straddles(filed, c, i, n + 1);
  }

  lemma NextAnswer(filed: seq<Filed>, c: nat, end: nat, n: nat, i: nat)
    requires Numbered(filed, end) && NoOverlap(filed, c) && PairedUpTo(filed, c, n)
    requires Answers(filed, n, i) && InConversation(filed, c, i)
    ensures PairedUpTo(filed, c, n + 1)
  {
    assert Straddles(filed, c, i, n);
    var m := n + 1;
    forall j ensures !Straddles(filed, c, j, m) {
      if j != i && Straddles(filed, c, j, m) {
        ApartTurns(filed, end, i, j);
        assert Overlap(filed[i], filed[j]);
      }
    }
    var before := History(filed, c, n);
    assert before == before[..|before| - 1] + [Question(filed[i])];
    PairedMore(filed, c, before[..|before| - 1], i);
  }

  lemma NextRow(filed: seq<Filed>, c: nat, end: nat, n: nat)
    requires Numbered(filed, end) && NoOverlap(filed, c) && PairedUpTo(filed, c, n)
    ensures PairedUpTo(filed, c, n + 1)
  {
    var row := RowAt(filed, n);
    if row.Some? && row.value.conversation == c {
      var i := RowFrom(filed, n);
      if Asks(filed, n, i) {
        NextQuestion(filed, c, end, n, i);
      } else {
        NextAnswer(filed, c, end, n, i);
      }
    } else {
      SameStraddlers(filed, c, end, n);
    }
  }

  lemma {:induction false} ApartIsPaired(filed: seq<Filed>, c: nat, end: nat, n: nat)
    requires Numbered(filed, end) && NoOverlap(filed, c)
    ensures PairedUpTo(filed, c, n)
  {
    if n > 0 {
      ApartIsPaired(filed, c, end, n - 1);
      NextRow(filed, c, end, n - 1);
    }
  }

  // ---------------------------------------------------------------- whole histories have turns apart

  /** At most one turn straddles `n`, and one does exactly when the history up to `n` ends in a question. */
  ghost predicate OneAtMost(filed: seq<Filed>, c: nat, n: nat) {
    && (forall i, j :: Straddles(filed, c, i, n) && Straddles(filed, c, j, n) ==> i == j)
    && (|History(filed, c, n)| % 2 == 1 <==> exists i :: Straddles(filed, c, i, n))
  }

  predicate Alternates(messages: seq<Message>) {
    forall k :: 0 <= k < |messages| ==> messages[k].role == if k % 2 == 0 then User else Assistant
  }

  lemma {:induction false} HistoryGrows(filed: seq<Filed>, c: nat, m: nat, n: nat)
    requires m <= n
    ensures History(filed, c, m) <= History(filed, c, n)
    decreases n
  {
    if m < n {
      HistoryGrows(filed, c, m, n - 1);
    }
  }

  /** A row moves only its own turn across. */
  lemma OthersStraddle(filed: seq<Filed>, c: nat, end: nat, n: nat, m: nat, i: nat)
    requires Numbered(filed, end) && (Asks(filed, n, i) || Answers(filed, n, i)) && InConversation(filed, c, i) && m == n + 1
    ensures forall j :: j != i ==> (Straddles(filed, c, j, m) <==> Straddles(filed, c, j, n))
    ensures Asks(filed, n, i) ==> Straddles(filed, c, i, m) && !Straddles(filed, c, i, n)
    ensures Answers(filed, n, i) ==> Straddles(filed, c, i, n) && !Straddles(filed, c, i, m)
  {
    forall j | j != i ensures Straddles(filed, c, j, m) <==> Straddles(filed, c, j, n) {
      if InConversation(filed, c, j) {
        ApartTurns(filed, end, i, j);
      }
    }
  }

  lemma NextStraddler(filed: seq<Filed>, c: nat, end: nat, n: nat)
    requires Numbered(filed, end) && OneAtMost(filed, c, n) && Alternates(History(filed, c, n + 1))
    ensures OneAtMost(filed, c, n + 1)
  {
    var row := RowAt(filed, n);
    if row.Some? && row.value.conversation == c {
      var i := RowFrom(filed, n);
      var before, m := History(filed, c, n), n + 1;
      assert History(filed, c, m)[|before|] == row.value;
      OthersStraddle(filed, c, end, n, m, i);
      if Asks(filed, n, i) {
        assert |before| % 2 == 0 && forall j :: !Straddles(filed, c, j, n);
        assert forall j :: Straddles(filed, c, j, m) <==> j == i;
      } else {
        assert Straddles(filed, c, i, n);
        assert forall j :: !Straddles(filed, c, j, m);
      }
    } else {
      var m := n + 1;
      SameStraddlers(filed, c, end, n);
      assert forall i :: Straddles(filed, c, i, m) <==> Straddles(filed, c, i, n);
    }
  }

  lemma {:induction false} AlternatingHasOne(filed: seq<Filed>, c: nat, end: nat, n: nat)
    requires Numbered(filed, end) && n <= end && Alternates(History(filed, c, end))
    ensures OneAtMost(filed, c, n)
  {
    if n > 0 {
      AlternatingHasOne(filed, c, end, n - 1);
      HistoryGrows(filed, c, n, end);
      NextStraddler(filed, c, end, n - 1);
    }
  }

  // ---------------------------------------------------------------- exactly

  lemma BothStraddle(filed: seq<Filed>, c: nat, end: nat, i: int, j: int)
    requires Numbered(filed, end) && InConversation(filed, c, i) && InConversation(filed, c, j) && i != j && Overlap(filed[i], filed[j])
    ensures !Alternates(History(filed, c, end))
  {
    var n := (if filed[i].user < filed[j].user then filed[j].user else filed[i].user) + 1;
    ApartTurns(filed, end, i, j);
    assert Straddles(filed, c, i, n) && Straddles(filed, c, j, n);
    if Alternates(History(filed, c, end)) {
      AlternatingHasOne(filed, c, end, n);
    }
  }

  /** A conversation reads as whole turns exactly when no two of its turns overlap. */
  lemma HistoryWholeIff(filed: seq<Filed>, c: nat, end: nat)
    requires Numbered(filed, end)
    ensures WholeTurns(History(filed, c, end)) <==> NoOverlap(filed, c)
    ensures NoOverlap(filed, c) ==> Paired(filed, c, History(filed, c, end))
  {
    if NoOverlap(filed, c) {
      ApartIsPaired(filed, c, end, end);
      PairedIsWhole(filed, c, History(filed, c, end));
    } else {
      var i, j :| InConversation(filed, c, i) && InConversation(filed, c, j) && i != j && Overlap(filed[i], filed[j]);
      if WholeTurns(History(filed, c, end)) {
        BothStraddle(filed, c, end, i, j);
      }
    }
  }

  /** The rewriter's window: whole whatever its even size, exactly when no two turns overlap. */
  lemma NewestWholeIff(filed: seq<Filed>, c: nat, end: nat)
    requires Numbered(filed, end)
    ensures (forall limit: nat :: limit % 2 == 0 ==> WholeTurns(Newest(filed, c, end, limit))) <==> NoOverlap(filed, c)
  {
    HistoryWholeIff(filed, c, end);
    var all := History(filed, c, end);
    if NoOverlap(filed, c) {
      forall limit: nat | limit % 2 == 0 ensures WholeTurns(Newest(filed, c, end, limit)) {
        var skipped := if |all| <= limit then 0 else |all| - limit;
        assert Newest(filed, c, end, limit) == all[skipped..] && skipped % 2 == 0;
      }
    } else {
      assert Newest(filed, c, end, 2 * |all|) == all;
      assert 2 * |all| % 2 == 0;
    }
  }

  // ---------------------------------------------------------------- every run of transactions

  /** The numbers of a pending exchange, the one still to come counted as `next`. */
  function SpanOf(p: Pending, next: nat): Filed {
    Filed(p.turn, p.user, if p.answer.Some? then p.answer.value else next)
  }

  predicate SpansApart(p: Pending, q: Pending) {
    && p.user != q.user
    && (q.answer.Some? ==> p.user != q.answer.value)
    && (p.answer.Some? ==> p.answer.value != q.user)
    && (p.answer.Some? && q.answer.Some? ==> p.answer.value != q.answer.value)
  }

  ghost predicate Drawn(t: Table) {
    && Numbered(t.filed, t.next)
    && (forall x :: x in t.open ==>
          t.open[x].user < t.next && (t.open[x].answer.Some? ==> t.open[x].user < t.open[x].answer.value < t.next))
    && (forall x, i :: x in t.open && 0 <= i < |t.filed| ==> Apart(SpanOf(t.open[x], t.next), t.filed[i]))
    && (forall x, y :: x in t.open && y in t.open && x != y ==> SpansApart(t.open[x], t.open[y]))
  }

  lemma QuestionKeepsDrawn(t: Table, tx: nat, turn: Turn)
    requires Drawn(t)
    ensures Drawn(Step(t, InsertQuestion(tx, turn)))
  {
  }

  lemma AnswerKeepsDrawn(t: Table, tx: nat)
    requires Drawn(t)
    ensures Drawn(Step(t, InsertAnswer(tx)))
  {
  }

  lemma StepKeepsDrawn(t: Table, a: Action)
    requires Drawn(t)
    ensures Drawn(Step(t, a))
  {
    match a
    case InsertQuestion(tx, turn) => QuestionKeepsDrawn(t, tx, turn);
    case InsertAnswer(tx) => AnswerKeepsDrawn(t, tx);
    case _ =>
  }

  lemma {:induction false} RunKeepsDrawn(t: Table, run: seq<Action>)
    requires Drawn(t)
    ensures Drawn(After(t, run))
    decreases |run|
  {
    if run != [] {
      StepKeepsDrawn(t, run[0]);
      RunKeepsDrawn(Step(t, run[0]), run[1..]);
    }
  }

  /** After any interleaving of requests, committed or rolled back, a conversation reads as whole turns,
      each question before its own answer, exactly when no two of its recorded turns overlap. */
  lemma TranscriptsWholeIff(run: seq<Action>, c: nat)
    ensures var t := After(EMPTY_TABLE, run);
            && (WholeTurns(History(t.filed, c, t.next)) <==> NoOverlap(t.filed, c))
            && (NoOverlap(t.filed, c) ==> Paired(t.filed, c, History(t.filed, c, t.next)))
            && ((forall limit: nat :: limit % 2 == 0 ==> WholeTurns(Newest(t.filed, c, t.next, limit))) <==> NoOverlap(t.filed, c))
  {
    RunKeepsDrawn(EMPTY_TABLE, run);
    var t := After(EMPTY_TABLE, run);
    HistoryWholeIff(t.filed, c, t.next);
    NewestWholeIff(t.filed, c, t.next);
  }

  // ---------------------------------------------------------------- by the order of the run

  /** One action, with every action counted: an insert is numbered by its place in the run. */
  function StepAt(t: Table, a: Action): Table {
    Step(t, a).(next := t.next + 1)
  }

  function AfterAt(t: Table, run: seq<Action>): Table
    decreases |run|
  {
    if run == [] then t else AfterAt(StepAt(t, run[0]), run[1..])
  }

  /** The recorded turns of a run, each with the places of its two inserts. */
  function Timeline(run: seq<Action>): seq<Filed> {
    AfterAt(EMPTY_TABLE, run).filed
  }

  /** The run inserted this turn at these two places, in one transaction, and committed it later. */
  predicate RecordedBy(run: seq<Action>, f: Filed, tx: nat, k: nat) {
    && f.user < f.answer < k < |run|
    && run[f.user] == InsertQuestion(tx, f.turn) && run[f.answer] == InsertAnswer(tx) && run[k] == Commit(tx)
  }

  ghost predicate Recorded(run: seq<Action>, f: Filed) {
    exists tx, k :: RecordedBy(run, f, tx, k)
  }

  predicate Inserted(run: seq<Action>, p: Pending, tx: nat) {
    && p.user < |run| && run[p.user] == InsertQuestion(tx, p.turn)
    && (p.answer.Some? ==> p.user < p.answer.value < |run| && run[p.answer.value] == InsertAnswer(tx))
  }

  /** The table after `past`, with places for numbers. */
  ghost predicate Placed(t: Table, past: seq<Action>) {
    && t.next == |past|
    && (forall x :: x in t.open ==> Inserted(past, t.open[x], x))
    && (forall i :: 0 <= i < |t.filed| ==> Recorded(past, t.filed[i]))
  }

  lemma RecordedStays(past: seq<Action>, a: Action, f: Filed)
    requires Recorded(past, f)
    ensures Recorded(past + [a], f)
  {
    var tx, k :| RecordedBy(past, f, tx, k);
    assert RecordedBy(past + [a], f, tx, k);
  }

  lemma StepPlaces(t: Table, past: seq<Action>, a: Action)
    requires Placed(t, past)
    ensures Placed(StepAt(t, a), past + [a])
  {
    var u, run := StepAt(t, a), past + [a];
    forall i | 0 <= i < |u.filed| ensures Recorded(run, u.filed[i]) {
      if i < |t.filed| {
        RecordedStays(past, a, t.filed[i]);
      } else {
        assert Inserted(past, t.open[a.tx], a.tx);
        assert RecordedBy(run, u.filed[i], a.tx, |past|);
      }
    }
    forall x | x in u.open ensures Inserted(run, u.open[x], x) {
      assert x in t.open ==> Inserted(past, t.open[x], x);
    }
  }

  lemma {:induction false} RunPlaces(t: Table, past: seq<Action>, run: seq<Action>)
    requires Placed(t, past)
    ensures Placed(AfterAt(t, run), past + run)
    decreases |run|
  {
    if run == [] {
      Neutral(past);
    } else {
      StepPlaces(t, past, run[0]);
      RunPlaces(StepAt(t, run[0]), past + [run[0]], run[1..]);
      assert past + [run[0]] + run[1..] == past + run;
    }
  }

  /** The turns of a timeline are those the run recorded, where it recorded them. */
  lemma TimelineRecorded(run: seq<Action>, i: nat)
    requires i < |Timeline(run)|
    ensures Recorded(run, Timeline(run)[i])
  {
    RunPlaces(EMPTY_TABLE, [], run);
    Neutral(run);
  }

  /** Where each number was drawn, in order. */
  predicate Increasing(at: seq<nat>, n: nat) {
    && (forall i :: 0 <= i < |at| ==> at[i] < n)
    && forall i, j :: 0 <= i < j < |at| ==> at[i] < at[j]
  }

  predicate SamePending(p: Pending, q: Pending, at: seq<nat>) {
    && p.turn == q.turn && p.user < |at| && q.user == at[p.user]
    && (p.answer.Some? <==> q.answer.Some?)
    && (p.answer.Some? ==> p.answer.value < |at| && q.answer.value == at[p.answer.value])
  }

  predicate SameFiled(f: Filed, g: Filed, at: seq<nat>) {
    f.turn == g.turn && f.user < |at| && f.answer < |at| && g.user == at[f.user] && g.answer == at[f.answer]
  }

  /** The same transactions, once with numbers drawn and once with places. */
  ghost predicate Matches(t: Table, u: Table, at: seq<nat>) {
    && |at| == t.next && Increasing(at, u.next)
    && u.open.Keys == t.open.Keys && (forall x :: x in t.open ==> SamePending(t.open[x], u.open[x], at))
    && |u.filed| == |t.filed| && (forall i :: 0 <= i < |t.filed| ==> SameFiled(t.filed[i], u.filed[i], at))
  }

  lemma IncreasingMore(at: seq<nat>, n: nat)
    requires Increasing(at, n)
    ensures Increasing(at + [n], n + 1) && Increasing(at, n + 1)
  {
  }

  lemma InsertMatches(t: Table, u: Table, tx: nat, turn: Turn, at: seq<nat>)
    requires Matches(t, u, at) && tx !in t.open
    ensures Matches(Step(t, InsertQuestion(tx, turn)), StepAt(u, InsertQuestion(tx, turn)), at + [u.next])
  {
    IncreasingMore(at, u.next);
  }

  lemma AnswerMatches(t: Table, u: Table, tx: nat, at: seq<nat>)
    requires Matches(t, u, at) && tx in t.open && t.open[tx].answer.None?
    ensures Matches(Step(t, InsertAnswer(tx)), StepAt(u, InsertAnswer(tx)), at + [u.next])
  {
    IncreasingMore(at, u.next);
    assert SamePending(t.open[tx], u.open[tx], at);
  }

  lemma CloseMatches(t: Table, u: Table, a: Action, at: seq<nat>)
    requires Matches(t, u, at) && (a.Commit? || a.Rollback?)
    ensures Matches(Step(t, a), StepAt(u, a), at)
  {
    IncreasingMore(at, u.next);
    assert a.tx in t.open ==> SamePending(t.open[a.tx], u.open[a.tx], at);
  }

  lemma IdleMatches(t: Table, u: Table, a: Action, at: seq<nat>)
    requires Matches(t, u, at) && Step(t, a) == t && Step(u, a) == u
    ensures Matches(Step(t, a), StepAt(u, a), at)
  {
    IncreasingMore(at, u.next);
  }

  lemma StepMatches(t: Table, u: Table, a: Action, at: seq<nat>) returns (next: seq<nat>)
    requires Matches(t, u, at)
    ensures Matches(Step(t, a), StepAt(u, a), next)
  {
    next := at;
    if a.Commit? || a.Rollback? {
      CloseMatches(t, u, a, at);
    } else if a.InsertQuestion? && a.tx !in t.open {
      next := at + [u.next];
      InsertMatches(t, u, a.tx, a.turn, at);
    } else if a.InsertAnswer? && a.tx in t.open && t.open[a.tx].answer.None? {
      next := at + [u.next];
      AnswerMatches(t, u, a.tx, at);
    } else {
      assert a.tx in t.open ==> SamePending(t.open[a.tx], u.open[a.tx], at);
      IdleMatches(t, u, a, at);
    }
  }

  lemma {:induction false} RunMatches(t: Table, u: Table, run: seq<Action>, at: seq<nat>) returns (all: seq<nat>)
    requires Matches(t, u, at)
    ensures Matches(After(t, run), AfterAt(u, run), all)
    decreases |run|
  {
    if run == [] {
      all := at;
    } else {
      var next := StepMatches(t, u, run[0], at);
      all := RunMatches(Step(t, run[0]), StepAt(u, run[0]), run[1..], next);
    }
  }

  lemma PlacesOrdered(at: seq<nat>, n: nat, i: nat, j: nat)
    requires Increasing(at, n) && i < |at| && j < |at|
    ensures i < j <==> at[i] < at[j]
  {
  }

  lemma SameOverlap(f: Filed, g: Filed, h: Filed, k: Filed, at: seq<nat>, n: nat)
    requires Increasing(at, n) && SameFiled(f, h, at) && SameFiled(g, k, at)
    ensures Overlap(f, g) <==> Overlap(h, k)
  {
    PlacesOrdered(at, n, f.user, g.answer);
    PlacesOrdered(at, n, g.user, f.answer);
  }

  lemma MatchedOverlap(t: Table, u: Table, at: seq<nat>, c: nat)
    requires Matches(t, u, at)
    ensures NoOverlap(t.filed, c) <==> NoOverlap(u.filed, c)
  {
    forall i, j | 0 <= i < |t.filed| && 0 <= j < |t.filed|
      ensures Overlap(t.filed[i], t.filed[j]) <==> Overlap(u.filed[i], u.filed[j])
    {
      SameOverlap(t.filed[i], t.filed[j], u.filed[i], u.filed[j], at, u.next);
    }
    assert forall i :: InConversation(t.filed, c, i) <==> InConversation(u.filed, c, i);
  }

  /** What a caller could watch: a conversation reads as whole turns exactly when, of no two turns recorded in
      it, each question was inserted before the other's answer. */
  lemma RunWholeIff(run: seq<Action>, c: nat)
    ensures var t := After(EMPTY_TABLE, run); WholeTurns(History(t.filed, c, t.next)) <==> NoOverlap(Timeline(run), c)
  {
    var at := RunMatches(EMPTY_TABLE, EMPTY_TABLE, run, []);
    MatchedOverlap(After(EMPTY_TABLE, run), AfterAt(EMPTY_TABLE, run), at, c);
    TranscriptsWholeIff(run, c);
  }

  // ---------------------------------------------------------------- two requests at once

  /** Two requests on one conversation, each inserting its question before the other its answer. */
  function Crossed(a: Turn, b: Turn): seq<Action> {
    [InsertQuestion(0, a), InsertQuestion(1, b), InsertAnswer(0), InsertAnswer(1), Commit(0), Commit(1)]
  }

  lemma AfterPair(t: Table, a: Action, b: Action, rest: seq<Action>)
    ensures After(t, [a, b] + rest) == After(Step(Step(t, a), b), rest)
  {
    assert ([a, b] + rest)[1..] == [b] + rest && ([b] + rest)[1..] == rest;
  }

  lemma CrossedFiles(a: Turn, b: Turn)
    ensures After(EMPTY_TABLE, Crossed(a, b)) == Table(4, map[], [Filed(a, 0, 2), Filed(b, 1, 3)])
  {
    var first := Table(2, map[0 := Pending(a, 0, None), 1 := Pending(b, 1, None)], []);
    var second := Table(4, map[0 := Pending(a, 0, Some(2)), 1 := Pending(b, 1, Some(3))], []);
    AfterPair(EMPTY_TABLE, InsertQuestion(0, a), InsertQuestion(1, b), Crossed(a, b)[2..]);
    assert Step(Step(EMPTY_TABLE, InsertQuestion(0, a)), InsertQuestion(1, b)) == first;
    AfterPair(first, InsertAnswer(0), InsertAnswer(1), [Commit(0), Commit(1)]);
    assert Step(Step(first, InsertAnswer(0)), InsertAnswer(1)) == second;
    AfterPair(second, Commit(0), Commit(1), []);
    assert Crossed(a, b) == [InsertQuestion(0, a), InsertQuestion(1, b)] + Crossed(a, b)[2..];
    assert Crossed(a, b)[2..] == [InsertAnswer(0), InsertAnswer(1)] + [Commit(0), Commit(1)];
    assert [Commit(0), Commit(1)] == [Commit(0), Commit(1)] + [];
  }

  /** The transcript of two requests that cross: both questions, then both answers. */
  lemma CrossedTurnsBreak(a: Turn, b: Turn)
    requires a.conversation == b.conversation
    ensures var t := After(EMPTY_TABLE, Crossed(a, b));
            && History(t.filed, a.conversation, t.next)
               == [Question(Filed(a, 0, 2)), Question(Filed(b, 1, 3)), Answer(Filed(a, 0, 2)), Answer(Filed(b, 1, 3))]
            && !WholeTurns(History(t.filed, a.conversation, t.next))
  {
    CrossedFiles(a, b);
    var c, filed := a.conversation, [Filed(a, 0, 2), Filed(b, 1, 3)];
    RowOf(filed, 4, 0);
    RowOf(filed, 4, 1);
    assert History(filed, c, 1) == [] + [Question(filed[0])];
    assert History(filed, c, 2) == History(filed, c, 1) + [Question(filed[1])];
    assert History(filed, c, 3) == History(filed, c, 2) + [Answer(filed[0])];
    assert History(filed, c, 4) == History(filed, c, 3) + [Answer(filed[1])];
    assert History(filed, c, 4)[1].role == User;
  }

  // ---------------------------------------------------------------- one request at a time

  /** A question is inserted only when no other exchange of its conversation still lacks its answer. */
  ghost predicate OneAtATime(t: Table, a: Action) {
    a.InsertQuestion? ==> forall x :: x in t.open && t.open[x].turn.conversation == a.turn.conversation ==> t.open[x].answer.Some?
  }

  ghost predicate OneByOne(t: Table, run: seq<Action>)
    decreases |run|
  {
    run == [] || (OneAtATime(t, run[0]) && OneByOne(Step(t, run[0]), run[1..]))
  }

  /** The one unanswered exchange of a conversation began after all others were answered. */
  predicate Behind(p: Pending, f: Filed) {
    p.turn.conversation == f.turn.conversation ==> if p.answer.Some? then !Overlap(FiledAs(p), f) else f.answer < p.user
  }

  predicate Follows(f: Filed, g: Filed) {
    f.turn.conversation == g.turn.conversation ==> !Overlap(f, g)
  }

  predicate BehindOpen(p: Pending, q: Pending) {
    p.turn.conversation == q.turn.conversation ==>
      && (p.answer.Some? || q.answer.Some?)
      && (q.answer.Some? ==> Behind(p, FiledAs(q)))
  }

  ghost predicate InTurn(t: Table) {
    && (forall i, j :: 0 <= i < |t.filed| && 0 <= j < |t.filed| && i != j ==> Follows(t.filed[i], t.filed[j]))
    && (forall x, i :: x in t.open && 0 <= i < |t.filed| ==> Behind(t.open[x], t.filed[i]))
    && (forall x, y :: x in t.open && y in t.open && x != y ==> BehindOpen(t.open[x], t.open[y]))
  }

  lemma InsertKeepsInTurn(t: Table, a: Action)
    requires Drawn(t) && InTurn(t) && OneAtATime(t, a) && (a.InsertQuestion? || a.InsertAnswer?)
    ensures InTurn(Step(t, a))
  {
  }

  lemma CloseKeepsInTurn(t: Table, a: Action)
    requires Drawn(t) && InTurn(t) && (a.Commit? || a.Rollback?)
    ensures InTurn(Step(t, a))
  {
  }

  lemma StepKeepsInTurn(t: Table, a: Action)
    requires Drawn(t) && InTurn(t) && OneAtATime(t, a)
    ensures InTurn(Step(t, a))
  {
    if a.Commit? || a.Rollback? {
      CloseKeepsInTurn(t, a);
    } else {
      InsertKeepsInTurn(t, a);
    }
  }

  lemma {:induction false} RunKeepsInTurn(t: Table, run: seq<Action>)
    requires Drawn(t) && InTurn(t) && OneByOne(t, run)
    ensures InTurn(After(t, run))
    decreases |run|
  {
    if run != [] {
      StepKeepsDrawn(t, run[0]);
      StepKeepsInTurn(t, run[0]);
      RunKeepsInTurn(Step(t, run[0]), run[1..]);
    }
  }

  /** While clients wait for one answer before they ask again, every conversation reads as whole turns. */
  lemma OneAtATimeStaysWhole(run: seq<Action>, c: nat)
    requires OneByOne(EMPTY_TABLE, run)
    ensures var t := After(EMPTY_TABLE, run); WholeTurns(History(t.filed, c, t.next))
  {
    RunKeepsInTurn(EMPTY_TABLE, run);
    TranscriptsWholeIff(run, c);
  }
}
