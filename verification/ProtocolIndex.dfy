/** Indexing: the collection holds, for every document and at every moment, one complete version of it. */
module ProtocolIndex {
  import opened Text
  import opened Documents
  import opened Protocol
  import opened ProtocolSafety
  import opened ProtocolErasure

  predicate Stored(s: State, p: PointId, point: Point) {
    p in s.world.points && s.world.points[p] == point
  }

  /** Exactly one point per chunk, at its own id, and no other point of the document. */
  ghost predicate Exactly(s: State, tenant: string, doc: DocId, chunks: Chunks) {
    && (forall p :: p in s.world.points && p.doc == doc ==> p.index < |chunks|)
    && (forall i :: 0 <= i < |chunks| ==> Stored(s, PointId(doc, i), Point(tenant, doc, chunks[i])))
  }

  lemma NoneIsExactly(s: State, tenant: string, doc: DocId)
    ensures Exactly(s, tenant, doc, []) <==> NoPoints(s, doc)
  {
  }

  lemma ExactlyOnce(s: State, tenant: string, doc: DocId, chunks: Chunks)
    requires Keyed(s.world.points) && Exactly(s, tenant, doc, chunks)
    ensures PointsFor(s.world.points, doc) == PointsOf(tenant, doc, chunks)
  {
    forall p ensures p in PointsFor(s.world.points, doc) <==> p in PointsOf(tenant, doc, chunks) {
      if p in PointsOf(tenant, doc, chunks) {
        assert Stored(s, p, Point(tenant, doc, chunks[p.index]));
      }
    }
    forall p | p in PointsOf(tenant, doc, chunks)
      ensures PointsFor(s.world.points, doc)[p] == PointsOf(tenant, doc, chunks)[p]
    {
      assert Stored(s, p, Point(tenant, doc, chunks[p.index]));
    }
  }

  /** The document's points are the same in both states. */
  ghost predicate SamePoints(s: State, t: State, doc: DocId) {
    && (forall p :: p in s.world.points && p.doc == doc ==> Stored(t, p, s.world.points[p]))
    && (forall p :: p in t.world.points && p.doc == doc ==> p in s.world.points)
  }

  lemma SameIsExactly(s: State, t: State, tenant: string, doc: DocId, chunks: Chunks)
    requires SamePoints(s, t, doc) && Exactly(s, tenant, doc, chunks)
    ensures Exactly(t, tenant, doc, chunks)
  {
    forall i | 0 <= i < |chunks| ensures Stored(t, PointId(doc, i), Point(tenant, doc, chunks[i])) {
      assert Stored(s, PointId(doc, i), Point(tenant, doc, chunks[i]));
    }
  }

  /** The document whose points a step may change. */
  predicate Indexes(s: State, a: Action, doc: DocId) {
    match a
    case Clear(w, _) => w in s.workers && s.workers[w].event.doc == doc && s.workers[w].stage.Fetched?
    case Upsert(w, _) => w in s.workers && s.workers[w].event.doc == doc && s.workers[w].stage.Emptied?
    case EraseVectors(x) => x in s.erasers && s.erasers[x].doc == doc && s.erasers[x].left == AllThree
    case _ => false
  }

  lemma OthersUntouched(s: State, a: Action, doc: DocId)
    requires Rooted(s) && !Indexes(s, a, doc)
    ensures SamePoints(s, Step(s, a), doc)
  {
  }

  lemma ClearEmpties(s: State, w: nat, acked: bool)
    requires Rooted(s) && w in s.workers && s.workers[w].stage.Fetched?
    ensures NoPoints(OnClear(s, w, acked), s.workers[w].event.doc)
  {
  }

  lemma UpsertFills(s: State, w: nat, acked: bool)
    requires w in s.workers && s.workers[w].stage.Emptied? && NoPoints(s, s.workers[w].event.doc)
    ensures var e := s.workers[w].event;
            Exactly(OnUpsert(s, w, acked), e.tenant, e.doc, s.workers[w].stage.chunks)
  {
  }

  // ---------------------------------------------------------------- a live worker's own writes stand

  /** What a live worker has written is still there, alone. */
  ghost predicate Standing(s: State, k: Worker) {
    match k.stage
    case Emptied(_) => NoPoints(s, k.event.doc)
    case Written(chunks) => chunks != [] ==> Exactly(s, k.event.tenant, k.event.doc, chunks)
    case _ => true
  }

  ghost predicate Building(s: State) {
    forall w :: w in s.workers && Live(s, w) ==> Standing(s, s.workers[w])
  }

  lemma StandingFrame(s: State, t: State, k: Worker)
    requires Standing(s, k) && SamePoints(s, t, k.event.doc)
    ensures Standing(t, k)
  {
    match k.stage
    case Written(chunks) =>
      if chunks != [] { SameIsExactly(s, t, k.event.tenant, k.event.doc, chunks); }
    case _ =>
  }

  /** Nobody else writes under a live worker. */
  lemma SoleIndexer(s: State, a: Action, w: nat)
    requires Safe(s) && Disciplined(s, a) && w in s.workers && Live(s, w)
    requires Indexes(s, a, s.workers[w].event.doc)
    ensures a == Clear(w, true) || a == Clear(w, false) || a == Upsert(w, true) || a == Upsert(w, false)
  {
    assert Holds(s, s.workers[w]);
    match a
    case Clear(v, _) => assert Rivals(s, v, w);
    case Upsert(v, _) => assert Rivals(s, v, w);
    case _ =>
  }

  lemma StageMoves(s: State, a: Action, w: nat)
    requires w in s.workers && w in Step(s, a).workers && !Indexes(s, a, s.workers[w].event.doc)
    ensures var k := s.workers[w];
            var l := Step(s, a).workers[w];
            && SameClaim(k, l)
            && (l.stage == k.stage || l.stage in {Owner, Checked, Written([])} || l.stage.Fetched? || l.stage.Broken?)
  {
  }

  lemma NewWorker(s: State, a: Action, w: nat)
    requires w in Step(s, a).workers && Live(Step(s, a), w) && (w in s.workers ==> !Live(s, w))
    ensures Step(s, a).workers[w].stage == Owner
  {
  }

  lemma StageStands(s: State, a: Action, w: nat)
    requires Safe(s) && Building(s) && Disciplined(s, a)
    requires w in Step(s, a).workers && Live(Step(s, a), w)
    ensures Standing(Step(s, a), Step(s, a).workers[w])
  {
    var t := Step(s, a);
    if w in s.workers && Live(s, w) {
      if Indexes(s, a, s.workers[w].event.doc) {
        SoleIndexer(s, a, w);
        if a.Clear? {
          ClearEmpties(s, w, a.acked);
        } else {
          UpsertFills(s, w, a.acked);
        }
      } else {
        OthersUntouched(s, a, s.workers[w].event.doc);
        StandingFrame(s, t, s.workers[w]);
        StageMoves(s, a, w);
      }
    } else {
      NewWorker(s, a, w);
    }
  }

  lemma StepKeepsBuilding(s: State, a: Action)
    requires Safe(s) && Building(s) && Disciplined(s, a)
    ensures Building(Step(s, a))
  {
    forall w | w in Step(s, a).workers && Live(Step(s, a), w) ensures Standing(Step(s, a), Step(s, a).workers[w]) {
      StageStands(s, a, w);
    }
  }

  lemma {:induction false} RunKeepsBuilding(s: State, run: seq<Action>)
    requires Safe(s) && Building(s) && Obeys(s, run)
    ensures Safe(After(s, run)) && Building(After(s, run))
    decreases |run|
  {
    if run != [] {
      StepKeepsSafe(s, run[0]);
      StepKeepsBuilding(s, run[0]);
      RunKeepsBuilding(Step(s, run[0]), run[1..]);
    }
  }

  lemma ReachableBuilds(s: State)
    requires Reachable(s)
    ensures Safe(s) && Building(s)
  {
    var run :| Obeys(START, run) && After(START, run) == s;
    StartsSafe();
    RunKeepsBuilding(START, run);
  }

  // ---------------------------------------------------------------- one complete version, always

  predicate Puts(a: Action, doc: DocId, text: string) {
    a.Put? && a.doc == doc && a.stored.text == text
  }

  /** At some step of the run an object with this text was stored for the document. */
  ghost predicate PutIn(run: seq<Action>, doc: DocId, text: string) {
    exists i :: 0 <= i < |run| && Puts(run[i], doc, text)
  }

  /** The chunks, all of them, of a text that was stored for the document. */
  ghost predicate Version(run: seq<Action>, doc: DocId, chunks: Chunks) {
    exists text :: PutIn(run, doc, text) && chunks == ChunksOf(text)
  }

  lemma PutStays(run: seq<Action>, a: Action, doc: DocId, text: string)
    requires PutIn(run, doc, text) || Puts(a, doc, text)
    ensures PutIn(run + [a], doc, text)
  {
    if PutIn(run, doc, text) {
      var i :| 0 <= i < |run| && Puts(run[i], doc, text);
      assert Puts((run + [a])[i], doc, text);
    } else {
      assert Puts((run + [a])[|run|], doc, text);
    }
  }

  lemma VersionStays(run: seq<Action>, a: Action, doc: DocId, chunks: Chunks)
    requires Version(run, doc, chunks)
    ensures Version(run + [a], doc, chunks)
  {
    var text :| PutIn(run, doc, text) && chunks == ChunksOf(text);
    PutStays(run, a, doc, text);
  }

  predicate Holding(stage: Stage) {
    stage.Fetched? || stage.Emptied? || stage.Written?
  }

  /** A worker carries nothing, or a version of its document. */
  ghost predicate Carries(run: seq<Action>, k: Worker) {
    Holding(k.stage) ==> Version(run, k.event.doc, k.stage.chunks)
  }

  ghost predicate CarriesVersions(s: State, run: seq<Action>) {
    forall w :: w in s.workers ==> Carries(run, s.workers[w])
  }

  ghost predicate ObjectsPut(s: State, run: seq<Action>) {
    forall doc :: doc in s.world.objects ==> PutIn(run, doc, s.world.objects[doc].text)
  }

  lemma NewObject(s: State, a: Action, doc: DocId)
    requires doc in Step(s, a).world.objects
    ensures var text := Step(s, a).world.objects[doc].text;
            Puts(a, doc, text) || (doc in s.world.objects && s.world.objects[doc].text == text)
  {
  }

  lemma StepKeepsPut(s: State, run: seq<Action>, a: Action)
    requires ObjectsPut(s, run)
    ensures ObjectsPut(Step(s, a), run + [a])
  {
    var t := Step(s, a);
    forall doc | doc in t.world.objects ensures PutIn(run + [a], doc, t.world.objects[doc].text) {
      NewObject(s, a, doc);
      PutStays(run, a, doc, t.world.objects[doc].text);
    }
  }

  /** What a worker holds it held before, or has just read from the object. */
  lemma CarriedSource(s: State, a: Action, w: nat)
    requires w in Step(s, a).workers && Holding(Step(s, a).workers[w].stage)
    ensures w in s.workers && s.workers[w].event == Step(s, a).workers[w].event
    ensures var k, l := s.workers[w], Step(s, a).workers[w];
            || (Holding(k.stage) && l.stage.chunks == k.stage.chunks)
            || (a == Fetch(w) && k.event.doc in s.world.objects
                && l.stage.chunks == ChunksOf(s.world.objects[k.event.doc].text))
  {
  }

  lemma CarriedByOne(s: State, run: seq<Action>, a: Action, w: nat)
    requires ObjectsPut(s, run) && CarriesVersions(s, run) && w in Step(s, a).workers
    ensures Carries(run + [a], Step(s, a).workers[w])
  {
    var k := Step(s, a).workers[w];
    if Holding(k.stage) {
      CarriedSource(s, a, w);
      assert Carries(run, s.workers[w]);
      if !(Holding(s.workers[w].stage) && k.stage.chunks == s.workers[w].stage.chunks) {
        assert PutIn(run, k.event.doc, s.world.objects[k.event.doc].text);
      }
      VersionStays(run, a, k.event.doc, k.stage.chunks);
    }
  }

  lemma StepKeepsCarried(s: State, run: seq<Action>, a: Action)
    requires ObjectsPut(s, run) && CarriesVersions(s, run)
    ensures CarriesVersions(Step(s, a), run + [a])
  {
    forall w | w in Step(s, a).workers ensures Carries(run + [a], Step(s, a).workers[w]) {
      CarriedByOne(s, run, a, w);
    }
  }

  /** The document has no points, or exactly one per chunk of one text that was stored for it. */
  ghost predicate Complete(s: State, run: seq<Action>, doc: DocId) {
    NoPoints(s, doc) || exists tenant, chunks :: Version(run, doc, chunks) && Exactly(s, tenant, doc, chunks)
  }

  lemma ErasesAll(s: State, x: nat)
    requires Rooted(s) && Known(s) && x in s.erasers && s.erasers[x].left == AllThree
    ensures NoPoints(OnEraseVectors(s, x), s.erasers[x].doc)
  {
  }

  lemma UnindexedComplete(s: State, run: seq<Action>, a: Action, doc: DocId)
    requires Rooted(s) && Complete(s, run, doc) && !Indexes(s, a, doc)
    ensures Complete(Step(s, a), run + [a], doc)
  {
    OthersUntouched(s, a, doc);
    if !NoPoints(s, doc) {
      var tenant, chunks :| Version(run, doc, chunks) && Exactly(s, tenant, doc, chunks);
      SameIsExactly(s, Step(s, a), tenant, doc, chunks);
      VersionStays(run, a, doc, chunks);
    }
  }

  lemma UpsertCompletes(s: State, run: seq<Action>, w: nat, acked: bool)
    requires Safe(s) && Building(s) && CarriesVersions(s, run) && Disciplined(s, Upsert(w, acked))
    requires w in s.workers && s.workers[w].stage.Emptied?
    ensures Complete(OnUpsert(s, w, acked), run + [Upsert(w, acked)], s.workers[w].event.doc)
  {
    assert Carries(run, s.workers[w]) && Standing(s, s.workers[w]);
    UpsertFills(s, w, acked);
    VersionStays(run, Upsert(w, acked), s.workers[w].event.doc, s.workers[w].stage.chunks);
  }

  lemma StepKeepsComplete(s: State, run: seq<Action>, a: Action, doc: DocId)
    requires Safe(s) && Building(s) && CarriesVersions(s, run) && Disciplined(s, a) && Complete(s, run, doc)
    ensures Complete(Step(s, a), run + [a], doc)
  {
    if !Indexes(s, a, doc) {
      UnindexedComplete(s, run, a, doc);
    } else if a.Upsert? {
      UpsertCompletes(s, run, a.worker, a.acked);
    } else if a.Clear? {
      ClearEmpties(s, a.worker, a.acked);
    } else {
      ErasesAll(s, a.eraser);
    }
  }

  lemma {:induction false} RunKeepsComplete(s: State, past: seq<Action>, run: seq<Action>, doc: DocId)
    requires Safe(s) && Building(s) && ObjectsPut(s, past) && CarriesVersions(s, past)
    requires Obeys(s, run) && Complete(s, past, doc)
    ensures Complete(After(s, run), past + run, doc)
    decreases |run|
  {
    if run == [] {
      Neutral(past);
    } else {
      StepKeepsSafe(s, run[0]);
      StepKeepsBuilding(s, run[0]);
      StepKeepsPut(s, past, run[0]);
      StepKeepsCarried(s, past, run[0]);
      StepKeepsComplete(s, past, run[0], doc);
      RunKeepsComplete(Step(s, run[0]), past + [run[0]], run[1..], doc);
      assert past + [run[0]] + run[1..] == past + run;
    }
  }

  /** The same with the tenant of the document's row, to whom the points belong. */
  ghost predicate Whole(s: State, run: seq<Action>, doc: DocId) {
    || NoPoints(s, doc)
    || (doc in s.world.rows
        && exists text :: PutIn(run, doc, text) && Exactly(s, s.world.rows[doc].tenant, doc, ChunksOf(text)))
  }

  lemma CompleteIsWhole(s: State, run: seq<Action>, doc: DocId)
    requires Rooted(s) && Complete(s, run, doc)
    ensures Whole(s, run, doc)
  {
    if !NoPoints(s, doc) {
      var tenant, chunks :| Version(run, doc, chunks) && Exactly(s, tenant, doc, chunks);
      assert Stored(s, PointId(doc, 0), Point(tenant, doc, chunks[0]));
      assert tenant == s.world.rows[doc].tenant;
    }
  }

  /** After every disciplined run a document has no points, or exactly one for each chunk of one text
      that was stored for it in that run: none is missing and none is left over from another version. */
  lemma AlwaysWhole(run: seq<Action>, doc: DocId)
    requires Obeys(START, run)
    ensures Whole(After(START, run), run, doc)
  {
    StartsSafe();
    RunKeepsComplete(START, [], run, doc);
    RunKeepsSafe(START, run);
    Neutral(run);
    CompleteIsWhole(After(START, run), run, doc);
  }

  /** A finished ingest leaves exactly its own chunks, unless it found nothing to index while an earlier
      version was still in the collection. */
  lemma FinishExactIff(s: State, w: nat)
    requires Reachable(s) && w in s.workers && Live(s, w) && s.workers[w].stage.Written?
    ensures var k := s.workers[w];
            Exactly(OnFinish(s, w), k.event.tenant, k.event.doc, k.stage.chunks)
            <==> k.stage.chunks != [] || NoPoints(s, k.event.doc)
  {
    ReachableBuilds(s);
    var k := s.workers[w];
    assert Standing(s, k);
    var t := OnFinish(s, w);
    assert SamePoints(s, t, k.event.doc) && SamePoints(t, s, k.event.doc);
    if k.stage.chunks != [] {
      SameIsExactly(s, t, k.event.tenant, k.event.doc, k.stage.chunks);
    } else {
      NoneIsExactly(t, k.event.tenant, k.event.doc);
    }
  }

  // ---------------------------------------------------------------- a settled document stays settled

  /** Deliveries with the same etag; no overwrite, deletion, or quarantine of this document. */
  predicate Undisturbed(a: Action, doc: DocId, etag: string) {
    match a
    case Deliver(_, e) => e.doc == doc ==> e.etag == etag
    case Quarantine(e, _) => e.doc != doc
    case Resync(_, d) => d != doc
    case Delete(_, _, d) => d != doc
    case _ => true
  }

  predicate Settled(s: State, doc: DocId, row: Row) {
    doc in s.world.rows && s.world.rows[doc] == row
  }

  lemma SettledNotIndexed(s: State, a: Action, doc: DocId)
    requires Safe(s) && Disciplined(s, a)
    requires doc in s.world.rows && s.world.rows[doc].status == Ready
    ensures !Indexes(s, a, doc)
  {
  }

  lemma SettledRow(s: State, a: Action, doc: DocId, row: Row)
    requires Safe(s) && Disciplined(s, a) && Settled(s, doc, row)
    requires row.status == Ready && row.etag.Some? && Undisturbed(a, doc, row.etag.value)
    ensures Settled(Step(s, a), doc, row)
  {
  }

  lemma SameAgain(s: State, t: State, u: State, doc: DocId)
    requires SamePoints(s, t, doc) && SamePoints(t, u, doc)
    ensures SamePoints(s, u, doc)
  {
    forall p | p in s.world.points && p.doc == doc ensures Stored(u, p, s.world.points[p]) {
      assert Stored(t, p, s.world.points[p]);
    }
  }

  /** Duplicates, redeliveries, crashes and sweeps change neither the row nor the points of a document
      that is ready. */
  lemma {:induction false} SettledStays(s: State, run: seq<Action>, doc: DocId, row: Row)
    requires Safe(s) && Obeys(s, run) && Settled(s, doc, row)
    requires row.status == Ready && row.etag.Some?
    requires forall i :: 0 <= i < |run| ==> Undisturbed(run[i], doc, row.etag.value)
    ensures Settled(After(s, run), doc, row)
    ensures SamePoints(s, After(s, run), doc)
    decreases |run|
  {
    if run != [] {
      var t := Step(s, run[0]);
      SettledRow(s, run[0], doc, row);
      SettledNotIndexed(s, run[0], doc);
      OthersUntouched(s, run[0], doc);
      StepKeepsSafe(s, run[0]);
      SettledStays(t, run[1..], doc, row);
      SameAgain(s, t, After(t, run[1..]), doc);
    }
  }

  // ---------------------------------------------------------------- an object whose text never changes

  predicate StageOf(stage: Stage, chunks: Chunks) {
    match stage
    case Fetched(c) => c == chunks
    case Emptied(c) => c == chunks
    case Written(c) => c == chunks
    case _ => true
  }

  ghost predicate RowOfText(s: State, doc: DocId, text: string)
    requires doc in s.world.rows
  {
    var tenant := s.world.rows[doc].tenant;
    && (NoPoints(s, doc) || Exactly(s, tenant, doc, ChunksOf(text)))
    && (s.world.rows[doc].status == Ready ==> Exactly(s, tenant, doc, ChunksOf(text)))
  }

  /** Everything in flight, and everything stored, is of this one text. */
  ghost predicate OfText(s: State, doc: DocId, text: string) {
    && (doc in s.world.objects ==> s.world.objects[doc].text == text)
    && (forall w :: w in s.workers && s.workers[w].event.doc == doc ==> StageOf(s.workers[w].stage, ChunksOf(text)))
    && (doc in s.world.rows ==> RowOfText(s, doc, text))
  }

  predicate PutsOnly(a: Action, doc: DocId, text: string) {
    a.Put? && a.doc == doc ==> a.stored.text == text
  }

  lemma ObjectOfText(s: State, a: Action, doc: DocId, text: string)
    requires PutsOnly(a, doc, text) && OfText(s, doc, text)
    ensures doc in Step(s, a).world.objects ==> Step(s, a).world.objects[doc].text == text
  {
  }

  lemma StageOfText(s: State, a: Action, doc: DocId, text: string, w: nat)
    requires OfText(s, doc, text) && w in Step(s, a).workers && Step(s, a).workers[w].event.doc == doc
    ensures StageOf(Step(s, a).workers[w].stage, ChunksOf(text))
  {
  }

  lemma StagesOfText(s: State, a: Action, doc: DocId, text: string)
    requires PutsOnly(a, doc, text) && OfText(s, doc, text)
    ensures var t := Step(s, a);
            && (doc in t.world.objects ==> t.world.objects[doc].text == text)
            && (forall w :: w in t.workers && t.workers[w].event.doc == doc ==> StageOf(t.workers[w].stage, ChunksOf(text)))
  {
    ObjectOfText(s, a, doc, text);
    forall w | w in Step(s, a).workers && Step(s, a).workers[w].event.doc == doc
      ensures StageOf(Step(s, a).workers[w].stage, ChunksOf(text))
    {
      StageOfText(s, a, doc, text, w);
    }
  }

  lemma TenantStays(s: State, a: Action, doc: DocId)
    requires Known(s) && doc in Step(s, a).world.rows
    ensures doc in s.world.rows ==> Step(s, a).world.rows[doc].tenant == s.world.rows[doc].tenant
    ensures doc !in s.world.rows ==> a.Create? && a.doc == doc && Step(s, a).world.rows[doc].status == Uploading
  {
  }

  lemma PointsOfText(s: State, a: Action, doc: DocId, text: string)
    requires Safe(s) && Building(s) && Disciplined(s, a)
    requires OfText(s, doc, text) && doc in Step(s, a).world.rows
    ensures var t := Step(s, a);
            NoPoints(t, doc) || Exactly(t, t.world.rows[doc].tenant, doc, ChunksOf(text))
  {
    var t := Step(s, a);
    TenantStays(s, a, doc);
    if !Indexes(s, a, doc) {
      OthersUntouched(s, a, doc);
      if doc in s.world.rows && !NoPoints(s, doc) {
        SameIsExactly(s, t, t.world.rows[doc].tenant, doc, ChunksOf(text));
      }
    } else if a.Upsert? {
      UpsertFills(s, a.worker, a.acked);
    } else if a.Clear? {
      ClearEmpties(s, a.worker, a.acked);
    } else {
      ErasesAll(s, a.eraser);
    }
  }

  lemma OthersReadyNothing(s: State, a: Action, doc: DocId)
    requires Known(s) && doc in s.world.rows && doc in Step(s, a).world.rows && !ByWorker(a)
    ensures Step(s, a).world.rows[doc].status == Ready ==> s.world.rows[doc].status == Ready
  {
  }

  lemma WorkReadiesNothing(s: State, a: Action, doc: DocId)
    requires doc in s.world.rows && doc in Step(s, a).world.rows && ByWorker(a) && !a.Finish?
    ensures Step(s, a).world.rows[doc].status == Ready ==> s.world.rows[doc].status == Ready
  {
  }

  lemma OnlyFinishReadies(s: State, a: Action, doc: DocId)
    requires Known(s) && doc in s.world.rows && doc in Step(s, a).world.rows
    requires Step(s, a).world.rows[doc].status == Ready && s.world.rows[doc].status != Ready
    ensures a.Finish? && a.worker in s.workers && s.workers[a.worker].event.doc == doc && s.workers[a.worker].stage.Written?
  {
    if !ByWorker(a) {
      OthersReadyNothing(s, a, doc);
    } else if !a.Finish? {
      WorkReadiesNothing(s, a, doc);
    }
  }

  lemma ReadyOfText(s: State, a: Action, doc: DocId, text: string)
    requires Safe(s) && Building(s) && Disciplined(s, a)
    requires OfText(s, doc, text) && doc in Step(s, a).world.rows
    ensures var t := Step(s, a);
            t.world.rows[doc].status == Ready ==> Exactly(t, t.world.rows[doc].tenant, doc, ChunksOf(text))
  {
    var t := Step(s, a);
    if t.world.rows[doc].status == Ready {
      TenantStays(s, a, doc);
      if s.world.rows[doc].status == Ready {
        SettledNotIndexed(s, a, doc);
      } else {
        OnlyFinishReadies(s, a, doc);
        assert Standing(s, s.workers[a.worker]);
      }
      OthersUntouched(s, a, doc);
      NoneIsExactly(s, t.world.rows[doc].tenant, doc);
      SameIsExactly(s, t, t.world.rows[doc].tenant, doc, ChunksOf(text));
    }
  }

  lemma StepOfText(s: State, a: Action, doc: DocId, text: string)
    requires Safe(s) && Building(s) && Disciplined(s, a) && PutsOnly(a, doc, text)
    requires OfText(s, doc, text)
    ensures OfText(Step(s, a), doc, text)
  {
    StagesOfText(s, a, doc, text);
    if doc in Step(s, a).world.rows {
      PointsOfText(s, a, doc, text);
      ReadyOfText(s, a, doc, text);
    }
  }

  lemma {:induction false} RunOfText(s: State, run: seq<Action>, doc: DocId, text: string)
    requires Safe(s) && Building(s) && Obeys(s, run) && OfText(s, doc, text)
    requires forall i :: 0 <= i < |run| ==> PutsOnly(run[i], doc, text)
    ensures OfText(After(s, run), doc, text)
    decreases |run|
  {
    if run != [] {
      StepKeepsSafe(s, run[0]);
      StepKeepsBuilding(s, run[0]);
      StepOfText(s, run[0], doc, text);
      RunOfText(Step(s, run[0]), run[1..], doc, text);
    }
  }

  predicate ReadyRow(s: State, doc: DocId) {
    doc in s.world.rows && s.world.rows[doc].status == Ready && s.world.rows[doc].etag.Some?
  }

  ghost predicate IndexedOnce(s: State, doc: DocId, row: Row, text: string) {
    Settled(s, doc, row) && PointsFor(s.world.points, doc) == PointsOf(row.tenant, doc, ChunksOf(text))
  }

  lemma SettledIndex(s: State, run: seq<Action>, doc: DocId, text: string)
    requires Safe(s) && Obeys(s, run) && OfText(s, doc, text) && ReadyRow(s, doc)
    requires forall i :: 0 <= i < |run| ==> Undisturbed(run[i], doc, s.world.rows[doc].etag.value)
    ensures IndexedOnce(After(s, run), doc, s.world.rows[doc], text)
  {
    var row := s.world.rows[doc];
    SettledStays(s, run, doc, row);
    var t := After(s, run);
    SameIsExactly(s, t, row.tenant, doc, ChunksOf(text));
    RunKeepsSafe(s, run);
    ExactlyOnce(t, row.tenant, doc, ChunksOf(text));
  }

  /** From before the document exists: while its object's text stays the same, whatever is delivered,
      retried or interrupted, once the document is ready it holds exactly one point per chunk of that
      text, and later deliveries of the same etag leave the row and the points as they are. */
  lemma FixedObjectIndexed(s: State, before: seq<Action>, after: seq<Action>, doc: DocId, text: string)
    requires Reachable(s) && doc !in s.born && doc !in s.world.objects
    requires Obeys(s, before) && Obeys(After(s, before), after)
    requires forall i :: 0 <= i < |before| ==> PutsOnly(before[i], doc, text)
    requires ReadyRow(After(s, before), doc)
    requires var etag := After(s, before).world.rows[doc].etag.value;
             forall i :: 0 <= i < |after| ==> Undisturbed(after[i], doc, etag)
    ensures IndexedOnce(After(After(s, before), after), doc, After(s, before).world.rows[doc], text)
  {
    ReachableBuilds(s);
    assert doc !in s.world.rows;
    RunKeepsBuilding(s, before);
    RunOfText(s, before, doc, text);
    SettledIndex(After(s, before), after, doc, text);
  }

  // ---------------------------------------------------------------- tenants

  /** The tenant a step acts for. */
  function ActsFor(s: State, a: Action): Option<string> {
    match a
    case Create(tenant, _, _, _) => Some(tenant)
    case Refresh(tenant, _, _) => Some(tenant)
    case Resync(tenant, _) => Some(tenant)
    case Deliver(_, e) => Some(e.tenant)
    case Quarantine(e, _) => Some(e.tenant)
    case Clear(w, _) => if w in s.workers then Some(s.workers[w].event.tenant) else None
    case Upsert(w, _) => if w in s.workers then Some(s.workers[w].event.tenant) else None
    case Finish(w) => if w in s.workers then Some(s.workers[w].event.tenant) else None
    case Delete(_, tenant, _) => Some(tenant)
    case Select(_, tenant, _) => Some(tenant)
    case EraseVectors(x) => if x in s.erasers then Some(s.erasers[x].tenant) else None
    case EraseRow(x) => if x in s.erasers then Some(s.erasers[x].tenant) else None
    case Expire(tenant) => Some(tenant)
    case Reclaim(tenant) => Some(tenant)
    case _ => None
  }

  lemma OtherRowKept(s: State, a: Action, doc: DocId)
    requires Known(s) && doc in s.world.rows
    requires ActsFor(s, a) != Some(s.world.rows[doc].tenant)
    ensures doc in Step(s, a).world.rows && Step(s, a).world.rows[doc] == s.world.rows[doc]
  {
  }

  /** A step for one tenant changes neither rows nor points of another, although a worker clears points by
      document alone. */
  lemma TenantsIsolated(s: State, a: Action, doc: DocId)
    requires Reachable(s) && doc in s.world.rows
    requires ActsFor(s, a) != Some(s.world.rows[doc].tenant)
    ensures doc in Step(s, a).world.rows && Step(s, a).world.rows[doc] == s.world.rows[doc]
    ensures SamePoints(s, Step(s, a), doc)
  {
    ReachableIsSafe(s);
    assert !Indexes(s, a, doc);
    OthersUntouched(s, a, doc);
    OtherRowKept(s, a, doc);
  }
}
