/** No document is stuck: from every reachable state a document that is neither quarantined nor being
    deleted can be brought to `ready`, exactly as its object reads. */
module ProtocolRecovery {
  import opened Text
  import opened Documents
  import opened Protocol
  import opened ProtocolSafety
  import opened ProtocolErasure
  import opened ProtocolIndex

  lemma AfterCons(s: State, a: Action, rest: seq<Action>)
    ensures After(s, [a] + rest) == After(Step(s, a), rest)
    ensures Obeys(s, [a] + rest) == (Disciplined(s, a) && Obeys(Step(s, a), rest))
  {
    assert ([a] + rest)[1..] == rest;
  }

  lemma {:induction false} AfterAppend(s: State, a: seq<Action>, b: seq<Action>)
    ensures After(s, a + b) == After(After(s, a), b)
    ensures Obeys(s, a + b) == (Obeys(s, a) && Obeys(After(s, a), b))
    decreases |a|
  {
    if a == [] {
      assert a + b == b;
    } else {
      SplitFirst(a, b);
      AfterAppend(Step(s, a[0]), a[1..], b);
    }
  }

  /** The worker's whole path on one event. */
  function Ingest(w: nat, e: Event): seq<Action> {
    [Deliver(w, e), Head(w, true), Fetch(w), Clear(w, true), Upsert(w, true), Finish(w)]
  }

  /** The object the event announces is in place. */
  predicate Announced(s: State, e: Event) {
    e.doc in s.world.objects && s.world.objects[e.doc].size == e.size
  }

  /** The state after a claim, with the worker at a given stage. */
  function ClaimedAt(s: State, w: nat, e: Event, stage: Stage): State {
    WithRows(s, Claimed(s.world.rows, e, s.world.now)).(workers := s.workers[w := Worker(e, s.world.now, stage)])
  }

  lemma StageAgain(s: State, w: nat, e: Event, before: Stage, after: Stage)
    ensures AtStage(ClaimedAt(s, w, e, before), w, after) == ClaimedAt(s, w, e, after)
  {
  }

  lemma HeadOk(s: State, w: nat, e: Event)
    requires Announced(s, e)
    ensures Step(ClaimedAt(s, w, e, Owner), Head(w, true)) == ClaimedAt(s, w, e, Checked)
  {
    StageAgain(s, w, e, Owner, Checked);
  }

  function Reading(s: State, e: Event): Stage
    requires e.doc in s.world.objects
  {
    var chunks := ChunksOf(s.world.objects[e.doc].text);
    if chunks == [] then Written([]) else Fetched(chunks)
  }

  lemma FetchOk(s: State, w: nat, e: Event)
    requires Announced(s, e)
    ensures Step(ClaimedAt(s, w, e, Checked), Fetch(w)) == ClaimedAt(s, w, e, Reading(s, e))
  {
    StageAgain(s, w, e, Checked, Reading(s, e));
  }

  lemma AfterThree(s: State, a: Action, b: Action, c: Action)
    ensures After(s, [a, b, c]) == Step(Step(Step(s, a), b), c)
    ensures Obeys(s, [a, b, c])
            == (Disciplined(s, a) && Disciplined(Step(s, a), b) && Disciplined(Step(Step(s, a), b), c))
  {
    var s1 := Step(s, a);
    var s2 := Step(s1, b);
    assert [a, b, c][1..] == [b, c] && [b, c][1..] == [c];
    assert After(s2, [c]) == Step(s2, c);
    assert Obeys(s2, [c]) == Disciplined(s2, c);
    assert Obeys(s1, [b, c]) == (Disciplined(s1, b) && Obeys(s2, [c]));
  }

  lemma Reads(s: State, w: nat, e: Event)
    requires w !in s.workers && Claims(s.world.rows, e) && Announced(s, e)
    ensures After(s, [Deliver(w, e), Head(w, true), Fetch(w)]) == ClaimedAt(s, w, e, Reading(s, e))
    ensures Obeys(s, [Deliver(w, e), Head(w, true), Fetch(w)])
  {
    AfterThree(s, Deliver(w, e), Head(w, true), Fetch(w));
    HeadOk(s, w, e);
    FetchOk(s, w, e);
  }

  lemma ClearUpsert(s: State, w: nat, chunks: Chunks)
    requires Rooted(s) && w in s.workers && s.workers[w].stage == Fetched(chunks)
    ensures var e := s.workers[w].event;
            var t := Step(Step(s, Clear(w, true)), Upsert(w, true));
            && t.world.rows == s.world.rows && t.world.now == s.world.now
            && Step(s, Clear(w, true)).workers.Keys == s.workers.Keys
            && SameClaim(Step(s, Clear(w, true)).workers[w], s.workers[w])
            && w in t.workers && t.workers[w] == s.workers[w].(stage := Written(chunks))
            && Exactly(t, e.tenant, e.doc, chunks)
  {
    ClearEmpties(s, w, true);
    var half := OnClear(s, w, true);
    UpsertFills(half, w, true);
  }

  lemma FinishOk(s: State, w: nat, chunks: Chunks)
    requires w in s.workers && s.workers[w].stage == Written(chunks)
    ensures var e := s.workers[w].event;
            var t := Step(s, Finish(w));
            && t.world.rows == Finished(s.world.rows, e.tenant, e.doc, None, s.world.now)
            && t.world.points == s.world.points
            && (Exactly(s, e.tenant, e.doc, chunks) ==> Exactly(t, e.tenant, e.doc, chunks))
  {
    var e := s.workers[w].event;
    assert Step(s, Finish(w)) == OnFinish(s, w);
    if Exactly(s, e.tenant, e.doc, chunks) {
      SameIsExactly(s, OnFinish(s, w), e.tenant, e.doc, chunks);
    }
  }

  /** No time passes on the way. */
  lemma WritesInTime(s: State, w: nat, chunks: Chunks)
    requires Rooted(s) && w in s.workers && s.workers[w].stage == Fetched(chunks) && Live(s, w)
    ensures Obeys(s, [Clear(w, true), Upsert(w, true), Finish(w)])
  {
    AfterThree(s, Clear(w, true), Upsert(w, true), Finish(w));
    ClearUpsert(s, w, chunks);
  }

  lemma Writes(s: State, w: nat, chunks: Chunks)
    requires Rooted(s) && w in s.workers && s.workers[w].stage == Fetched(chunks)
    ensures var e := s.workers[w].event;
            var t := After(s, [Clear(w, true), Upsert(w, true), Finish(w)]);
            && t.world.rows == Finished(s.world.rows, e.tenant, e.doc, None, s.world.now)
            && Exactly(t, e.tenant, e.doc, chunks)
  {
    AfterThree(s, Clear(w, true), Upsert(w, true), Finish(w));
    ClearUpsert(s, w, chunks);
    FinishOk(Step(Step(s, Clear(w, true)), Upsert(w, true)), w, chunks);
  }

  /** With nothing to index the worker finishes at once: clearing and upserting do not apply. */
  lemma SkipsWrites(s: State, w: nat)
    requires w in s.workers && s.workers[w].stage == Written([]) && Live(s, w)
    ensures var e := s.workers[w].event;
            var t := After(s, [Clear(w, true), Upsert(w, true), Finish(w)]);
            && Obeys(s, [Clear(w, true), Upsert(w, true), Finish(w)])
            && t.world.rows == Finished(s.world.rows, e.tenant, e.doc, None, s.world.now)
            && t.world.points == s.world.points
  {
    AfterThree(s, Clear(w, true), Upsert(w, true), Finish(w));
    assert Step(s, Clear(w, true)) == s && Step(s, Upsert(w, true)) == s;
    FinishOk(s, w, []);
  }

  lemma FinishedClaimed(rows: Rows, e: Event, now: nat)
    requires Claims(rows, e)
    ensures Finished(Claimed(rows, e, now), e.tenant, e.doc, None, now)
            == rows[e.doc := FinishedRow(ClaimedRow(rows[e.doc], e, now), None, now)]
  {
  }

  lemma ClaimedRooted(s: State, w: nat, e: Event)
    requires Rooted(s) && e.doc in s.world.objects
    ensures Rooted(ClaimedAt(s, w, e, Reading(s, e)))
  {
  }

  /** A worker left alone on a claimable document makes it ready, with the chunks of its object; points
      of an earlier version survive only when there is nothing to index. */
  lemma IngestCompletes(s: State, w: nat, e: Event)
    requires Reachable(s) && w !in s.workers && Claims(s.world.rows, e) && Announced(s, e)
    ensures var t := After(s, Ingest(w, e));
            var chunks := ChunksOf(s.world.objects[e.doc].text);
            && Obeys(s, Ingest(w, e))
            && t.world.rows == s.world.rows[e.doc := FinishedRow(ClaimedRow(s.world.rows[e.doc], e, s.world.now), None, s.world.now)]
            && (chunks != [] ==> Exactly(t, e.tenant, e.doc, chunks))
            && (chunks == [] ==> t.world.points == s.world.points)
  {
    ReachableIsSafe(s);
    var first, second := [Deliver(w, e), Head(w, true), Fetch(w)], [Clear(w, true), Upsert(w, true), Finish(w)];
    assert Ingest(w, e) == first + second;
    AfterAppend(s, first, second);
    Reads(s, w, e);
    var u := ClaimedAt(s, w, e, Reading(s, e));
    ClaimedRooted(s, w, e);
    FinishedClaimed(s.world.rows, e, s.world.now);
    if Reading(s, e).Fetched? {
      WritesInTime(u, w, Reading(s, e).chunks);
      Writes(u, w, Reading(s, e).chunks);
    } else {
      SkipsWrites(u, w);
    }
  }

  /** What a sweep after the lease makes of a row that is not being deleted. */
  lemma LeaseEnds(s: State, doc: DocId)
    requires Safe(s) && doc in s.world.rows
    ensures var r := s.world.rows[doc];
            var t := After(s, [Tick(LEASE + 1), Reclaim(r.tenant)]);
            && Obeys(s, [Tick(LEASE + 1), Reclaim(r.tenant)])
            && doc in t.world.rows && t.world.rows[doc].tenant == r.tenant && t.world.rows[doc].etag == r.etag
            && t.world.rows[doc].status == (if r.status == Processing then Failed else r.status)
            && t.workers == s.workers && t.world.objects == s.world.objects
  {
    assert Clocked(s.world.rows[doc], s.world.now);
    var run := [Tick(LEASE + 1), Reclaim(s.world.rows[doc].tenant)];
    assert run[1..] == [run[1]] && run[1..][1..] == [];
    var t := Step(s, run[0]);
    assert After(t, run[1..]) == Step(t, run[1]);
    assert Obeys(t, run[1..]) == Disciplined(t, run[1]);
  }

  lemma ReachableGrows(s: State, run: seq<Action>)
    requires Reachable(s) && Obeys(s, run)
    ensures Reachable(After(s, run))
  {
    var before :| Obeys(START, before) && After(START, before) == s;
    AfterAppend(START, before, run);
    assert Obeys(START, before + run) && After(START, before + run) == After(s, run);
  }

  /** Whatever crashed on the way, a document that is neither quarantined nor being deleted can be brought
      to `ready` under its object's etag. */
  lemma NeverStuck(s: State, w: nat, doc: DocId) returns (run: seq<Action>)
    requires Reachable(s) && w !in s.workers && doc in s.world.objects
    requires doc in s.world.rows && s.world.rows[doc].status !in {Quarantined, Deleting}
    ensures Obeys(s, run)
    ensures var t := After(s, run);
            && doc in t.world.rows && t.world.rows[doc].status == Ready
            && t.world.rows[doc].etag == Some(s.world.objects[doc].etag)
  {
    ReachableIsSafe(s);
    var wait := [Tick(LEASE + 1), Reclaim(s.world.rows[doc].tenant)];
    LeaseEnds(s, doc);
    var u := After(s, wait);
    var e := Event(s.world.rows[doc].tenant, doc, s.world.objects[doc].size, s.world.objects[doc].etag);
    if Claims(u.world.rows, e) {
      ReachableGrows(s, wait);
      IngestCompletes(u, w, e);
      run := wait + Ingest(w, e);
      AfterAppend(s, wait, Ingest(w, e));
    } else {
      run := wait;
    }
  }
}
