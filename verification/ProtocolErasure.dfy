/** Deletion: one worker at a time, a tombstone that only ever goes away, and a removal that is final. */
module ProtocolErasure {
  import opened Text
  import opened Documents
  import opened Protocol
  import opened ProtocolSafety

  /** The states the guarded writers can reach while workers keep within their leases. */
  ghost predicate Reachable(s: State) {
    exists run :: Obeys(START, run) && After(START, run) == s
  }

  lemma ReachableIsSafe(s: State)
    requires Reachable(s)
    ensures Safe(s)
  {
    var run :| Obeys(START, run) && After(START, run) == s;
    StartsSafe();
    RunKeepsSafe(START, run);
  }

  lemma OneLiveWorker(s: State, v: nat, w: nat)
    requires Reachable(s) && v in s.workers && w in s.workers
    requires Live(s, v) && Live(s, w) && s.workers[v].event.doc == s.workers[w].event.doc
    ensures v == w
  {
    ReachableIsSafe(s);
    assert Rivals(s, v, w);
  }

  // ---------------------------------------------------------------- removal is final

  ghost predicate Gone(s: State, doc: DocId) {
    doc in s.born && doc !in s.world.rows
  }

  lemma GoneStays(s: State, a: Action, doc: DocId)
    requires Gone(s, doc)
    ensures Gone(Step(s, a), doc)
  {
  }

  lemma {:induction false} GoneThroughout(s: State, run: seq<Action>, doc: DocId)
    requires Safe(s) && Obeys(s, run) && Gone(s, doc)
    ensures Gone(After(s, run), doc) && NoPoints(After(s, run), doc)
    decreases |run|
  {
    if run == [] {
      forall p | p in s.world.points ensures p.doc != doc {
        assert p.doc in s.world.rows;
      }
    } else {
      GoneStays(s, run[0], doc);
      StepKeepsSafe(s, run[0]);
      GoneThroughout(Step(s, run[0]), run[1..], doc);
    }
  }

  /** A document whose row has been removed has no vectors, and never gets a row or a vector again. */
  lemma ErasedForGood(s: State, run: seq<Action>, doc: DocId)
    requires Reachable(s) && Obeys(s, run)
    requires doc in s.born && doc !in s.world.rows
    ensures doc !in After(s, run).world.rows
    ensures forall p :: p in After(s, run).world.points ==> p.doc != doc
  {
    ReachableIsSafe(s);
    GoneThroughout(s, run, doc);
  }

  // ---------------------------------------------------------------- a tombstone stands

  predicate FencedRun(s: State, run: seq<Action>)
    decreases |run|
  {
    run == [] || (Fenced(s, run[0]) && FencedRun(Step(s, run[0]), run[1..]))
  }

  ghost predicate Born(s: State) {
    forall d :: d in s.world.rows ==> d in s.born
  }

  lemma KeepsBorn(s: State, a: Action)
    requires Born(s)
    ensures Born(Step(s, a))
  {
  }

  predicate StandsOrGone(s: State, doc: DocId, tombstone: Row) {
    doc in s.world.rows ==> s.world.rows[doc] == tombstone
  }

  lemma TombstoneStep(s: State, a: Action, doc: DocId, tombstone: Row)
    requires Born(s) && Fenced(s, a) && doc in s.born
    requires tombstone.status == Deleting && StandsOrGone(s, doc, tombstone)
    ensures doc in Step(s, a).born && StandsOrGone(Step(s, a), doc, tombstone)
  {
  }

  /** Whatever workers do, on time or late, a tombstoned row changes only by its removal. */
  lemma {:induction false} TombstoneStands(s: State, run: seq<Action>, doc: DocId, tombstone: Row)
    requires Born(s) && FencedRun(s, run) && doc in s.born
    requires tombstone.status == Deleting && StandsOrGone(s, doc, tombstone)
    ensures StandsOrGone(After(s, run), doc, tombstone)
    decreases |run|
  {
    if run != [] {
      KeepsBorn(s, run[0]);
      TombstoneStep(s, run[0], doc, tombstone);
      TombstoneStands(Step(s, run[0]), run[1..], doc, tombstone);
    }
  }

  // ---------------------------------------------------------------- finishing

  /** Within its lease a worker's finish is refused exactly when the row was tombstoned under it; what it
      finishes is its own claim. */
  lemma FinishIsTheOwners(s: State, w: nat)
    requires Reachable(s) && w in s.workers && Live(s, w)
    ensures var e := s.workers[w].event;
            && e.doc in s.world.rows
            && s.world.rows[e.doc].startedAt == Some(s.workers[w].claimedAt)
            && (Finishes(s.world.rows, e.tenant, e.doc) <==> s.world.rows[e.doc].status != Deleting)
  {
    ReachableIsSafe(s);
    assert Holds(s, s.workers[w]);
  }

  // ---------------------------------------------------------------- a deletion can always be completed

  function Sweeping(x: nat, tenant: string, doc: DocId): seq<Action> {
    [Tick(LEASE + 1), Select(x, tenant, doc), EraseVectors(x), EraseObject(x), EraseRow(x)]
  }

  lemma AfterFive(s: State, a: Action, b: Action, c: Action, d: Action, e: Action)
    ensures After(s, [a, b, c, d, e]) == Step(Step(Step(Step(Step(s, a), b), c), d), e)
    ensures Obeys(s, [a, b, c, d, e]) <==>
      && Disciplined(s, a)
      && Disciplined(Step(s, a), b)
      && Disciplined(Step(Step(s, a), b), c)
      && Disciplined(Step(Step(Step(s, a), b), c), d)
      && Disciplined(Step(Step(Step(Step(s, a), b), c), d), e)
  {
    var s1 := Step(s, a);
    var s2 := Step(s1, b);
    var s3 := Step(s2, c);
    var s4 := Step(s3, d);
    assert [a, b, c, d, e][1..] == [b, c, d, e];
    assert [b, c, d, e][1..] == [c, d, e];
    assert [c, d, e][1..] == [d, e];
    assert [d, e][1..] == [e];
    assert After(s4, [e]) == Step(s4, e);
    assert After(s3, [d, e]) == After(s4, [e]);
    assert After(s2, [c, d, e]) == After(s3, [d, e]);
    assert After(s1, [b, c, d, e]) == After(s2, [c, d, e]);
    assert Obeys(s4, [e]) == Disciplined(s4, e);
    assert Obeys(s3, [d, e]) == (Disciplined(s3, d) && Obeys(s4, [e]));
    assert Obeys(s2, [c, d, e]) == (Disciplined(s2, c) && Obeys(s3, [d, e]));
    assert Obeys(s1, [b, c, d, e]) == (Disciplined(s1, b) && Obeys(s2, [c, d, e]));
  }

  /** What the three steps of an erasure leave. */
  lemma EraserRemoves(s: State, x: nat)
    requires Rooted(s) && x in s.erasers && s.erasers[x].left == AllThree
    requires Visible(s.world.rows, s.erasers[x].tenant, s.erasers[x].doc)
    requires s.world.rows[s.erasers[x].doc].status == Deleting
    ensures var t := Step(Step(s, EraseVectors(x)), EraseObject(x));
            && x in t.erasers && t.erasers[x] == s.erasers[x].(left := RowOnly)
            && t.world.rows == s.world.rows
            && s.erasers[x].doc !in t.world.objects && NoPoints(t, s.erasers[x].doc)
  {
    var half := OnEraseVectors(s, x);
    assert half.erasers[x] == s.erasers[x].(left := ObjectAndRow) && NoPoints(half, s.erasers[x].doc);
  }

  lemma RowRemoved(s: State, x: nat)
    requires x in s.erasers && s.erasers[x].left == RowOnly
    requires Visible(s.world.rows, s.erasers[x].tenant, s.erasers[x].doc)
    requires s.world.rows[s.erasers[x].doc].status == Deleting
    ensures var t := Step(s, EraseRow(x));
            && s.erasers[x].doc !in t.world.rows
            && t.world.points == s.world.points && t.world.objects == s.world.objects
  {
  }

  lemma SweepRemoves(s: State, x: nat, tenant: string, doc: DocId)
    requires Rooted(s) && x !in s.erasers
    requires Visible(s.world.rows, tenant, doc) && Finishable(s.world.rows[doc], s.world.now)
    ensures var t := Step(Step(Step(Step(s, Select(x, tenant, doc)), EraseVectors(x)), EraseObject(x)), EraseRow(x));
            doc !in t.world.rows && doc !in t.world.objects && NoPoints(t, doc)
  {
    var begun := Step(s, Select(x, tenant, doc));
    assert begun == s.(erasers := s.erasers[x := Eraser(tenant, doc, AllThree)]);
    EraserRemoves(begun, x);
    RowRemoved(Step(Step(begun, EraseVectors(x)), EraseObject(x)), x);
  }

  lemma FinishableInTime(s: State, doc: DocId)
    requires Safe(s) && doc in s.world.rows && s.world.rows[doc].status == Deleting
    ensures Finishable(s.world.rows[doc], s.world.now + LEASE + 1)
  {
    assert Clocked(s.world.rows[doc], s.world.now);
  }

  /** Wherever a deletion was left, by a crash or by a worker still indexing, one sweep after the lease
      removes vectors, object and row. */
  lemma DeletionResumes(s: State, x: nat, doc: DocId)
    requires Reachable(s) && x !in s.erasers
    requires doc in s.world.rows && s.world.rows[doc].status == Deleting
    ensures var run := Sweeping(x, s.world.rows[doc].tenant, doc);
            && Obeys(s, run)
            && doc !in After(s, run).world.rows
            && doc !in After(s, run).world.objects
            && NoPoints(After(s, run), doc)
  {
    ReachableIsSafe(s);
    FinishableInTime(s, doc);
    TimeKeepsSafe(s, LEASE + 1);
    var tenant := s.world.rows[doc].tenant;
    SweepRemoves(Step(s, Tick(LEASE + 1)), x, tenant, doc);
    AfterFive(s, Tick(LEASE + 1), Select(x, tenant, doc), EraseVectors(x), EraseObject(x), EraseRow(x));
  }
}
