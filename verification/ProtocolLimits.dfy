/** What the guarantees rest on. One undisciplined step in a run that is otherwise disciplined: an unguarded
    quarantine or re-sync of a row that is `processing` or `deleting`, a late finish, and a late upsert each
    lead to vectors of a document whose row is gone; a late clear leaves a document ready without its
    vectors. */
module ProtocolLimits {
  import opened Text
  import opened Documents
  import opened Protocol
  import opened ProtocolSafety
  import opened ProtocolErasure
  import opened ProtocolIndex
  import opened ProtocolRecovery
  import Chunking
  import ChunkProperties

  /** Vectors without a row. */
  ghost predicate Orphaned(s: State, doc: DocId) {
    doc !in s.world.rows && exists p :: p in s.world.points && p.doc == doc
  }

  /** A disciplined run, one undisciplined step, and another disciplined run end in orphaned vectors. */
  ghost predicate OrphansBy(s: State, before: seq<Action>, bad: Action, after: seq<Action>, doc: DocId) {
    && Obeys(s, before)
    && !Disciplined(After(s, before), bad)
    && Obeys(Step(After(s, before), bad), after)
    && Orphaned(After(Step(After(s, before), bad), after), doc)
  }

  // ---------------------------------------------------------------- which texts have chunks

  lemma {:induction false} InkOfText(text: string)
    requires Erase(text) == ""
    ensures IsBlank(text)
  {
    if text != "" {
      assert IsWhitespace(text[0]);
      InkOfText(text[1..]);
      forall i | 0 <= i < |text| ensures IsWhitespace(text[i]) {
        if i > 0 {
          assert text[i] == text[1..][i - 1];
        }
      }
    }
  }

  /** Nothing is indexed exactly when the text is all whitespace. Chunks are 500 characters and overlap by 60. */
  lemma ChunksOfBlank(text: string)
    ensures ChunksOf(text) == [] <==> IsBlank(text)
    ensures ChunksOf(text) == Chunking.Located(text, Chunking.Chunks(text, 500, 60), 0)
  {
    if ChunksOf(text) == [] {
      var at := ChunkProperties.ChunksCoverText(text, Chunking.CHUNK_SIZE, Chunking.CHUNK_OVERLAP);
      assert at == [];
      InkOfText(text);
    }
  }

  /** An overwrite with a text that is all whitespace makes the document ready under the new etag with the
      points of the old text still there. */
  lemma BlankOverwriteKeepsOldPoints(s: State, w: nat, e: Event)
    requires Reachable(s) && w !in s.workers && Claims(s.world.rows, e) && Announced(s, e)
    requires IsBlank(s.world.objects[e.doc].text) && !NoPoints(s, e.doc)
    ensures var t := After(s, Ingest(w, e));
            && Obeys(s, Ingest(w, e))
            && e.doc in t.world.rows && t.world.rows[e.doc].status == Ready && t.world.rows[e.doc].etag == Some(e.etag)
            && t.world.points == s.world.points
  {
    ChunksOfBlank(s.world.objects[e.doc].text);
    IngestCompletes(s, w, e);
  }

  // ---------------------------------------------------------------- the common ending

  function Ending(w: nat, x: nat, tenant: string, doc: DocId): seq<Action> {
    [Delete(x, tenant, doc), EraseVectors(x), EraseObject(x), EraseRow(x), Upsert(w, true)]
  }

  /** A worker about to write its chunks, on a row it still believes to own. */
  predicate Poised(s: State, w: nat, e: Event) {
    && w in s.workers && s.workers[w].event == e
    && s.workers[w].stage.Emptied? && s.workers[w].stage.chunks != []
    && Visible(s.world.rows, e.tenant, e.doc)
  }

  lemma LateUpsertOrphans(s: State, w: nat)
    requires w in s.workers && s.workers[w].stage.Emptied? && s.workers[w].stage.chunks != []
    requires s.workers[w].event.doc !in s.world.rows
    ensures Orphaned(Step(s, Upsert(w, true)), s.workers[w].event.doc)
  {
    var k := s.workers[w];
    assert PointId(k.event.doc, 0) in Step(s, Upsert(w, true)).world.points;
  }

  lemma DeleteStarts(s: State, x: nat, tenant: string, doc: DocId)
    requires Visible(s.world.rows, tenant, doc) && Unowned(s.world.rows, doc) && x !in s.erasers
    ensures Step(s, Delete(x, tenant, doc))
            == WithRows(s, Tombstoned(s.world.rows, tenant, doc)).(erasers := s.erasers[x := Eraser(tenant, doc, AllThree)])
  {
  }

  /** What an erasure does to everything but the collection. */
  lemma EraserRuns(s: State, x: nat)
    requires x in s.erasers && s.erasers[x].left == AllThree
    requires Visible(s.world.rows, s.erasers[x].tenant, s.erasers[x].doc)
    requires s.world.rows[s.erasers[x].doc].status == Deleting
    ensures var t := Step(Step(Step(s, EraseVectors(x)), EraseObject(x)), EraseRow(x));
            && s.erasers[x].doc !in t.world.rows && t.workers == s.workers && t.world.now == s.world.now
  {
    var e := s.erasers[x];
    var t := Step(Step(s, EraseVectors(x)), EraseObject(x));
    assert t.world.rows == s.world.rows && t.erasers[x] == e.(left := RowOnly);
    assert Step(t, EraseRow(x)) == OnEraseRow(t, x);
  }

  lemma EndingOrphans(s: State, w: nat, x: nat, e: Event)
    requires Poised(s, w, e) && Live(s, w) && Unowned(s.world.rows, e.doc) && x !in s.erasers
    ensures Obeys(s, Ending(w, x, e.tenant, e.doc))
    ensures Orphaned(After(s, Ending(w, x, e.tenant, e.doc)), e.doc)
  {
    AfterFive(s, Delete(x, e.tenant, e.doc), EraseVectors(x), EraseObject(x), EraseRow(x), Upsert(w, true));
    DeleteStarts(s, x, e.tenant, e.doc);
    var u := Step(s, Delete(x, e.tenant, e.doc));
    EraserRuns(u, x);
    LateUpsertOrphans(Step(Step(Step(u, EraseVectors(x)), EraseObject(x)), EraseRow(x)), w);
  }

  // ---------------------------------------------------------------- the common beginning

  function Beginning(w: nat, e: Event): seq<Action> {
    [Deliver(w, e), Head(w, true), Fetch(w)] + [Clear(w, true)]
  }

  /** A claimable document whose object has something to index. */
  predicate Indexable(s: State, e: Event) {
    Claims(s.world.rows, e) && Announced(s, e) && ChunksOf(s.world.objects[e.doc].text) != []
  }

  lemma AfterOne(s: State, a: Action)
    ensures After(s, [a]) == Step(s, a) && Obeys(s, [a]) == Disciplined(s, a)
  {
    assert [a][1..] == [];
    assert After(Step(s, a), []) == Step(s, a);
  }

  lemma BeginningPoises(s: State, w: nat, e: Event)
    requires w !in s.workers && Indexable(s, e)
    ensures var t := After(s, Beginning(w, e));
            && Obeys(s, Beginning(w, e))
            && Poised(t, w, e) && t.workers[w].claimedAt == s.world.now
            && t.workers.Keys == s.workers.Keys + {w} && (forall v :: v in s.workers ==> t.workers[v] == s.workers[v])
            && t.world.now == s.world.now && t.erasers == s.erasers
            && t.world.rows == Claimed(s.world.rows, e, s.world.now) && t.world.objects == s.world.objects
  {
    AfterAppend(s, [Deliver(w, e), Head(w, true), Fetch(w)], [Clear(w, true)]);
    Reads(s, w, e);
    var u := ClaimedAt(s, w, e, Reading(s, e));
    AfterOne(u, Clear(w, true));
    assert Step(u, Clear(w, true)) == OnClear(u, w, true);
  }

  // ---------------------------------------------------------------- one step too many

  /** Quarantine writes without a fence: an oversize event for a document being indexed makes it look
      unowned. */
  lemma QuarantineNeedsFence(s: State, w: nat, x: nat, e: Event, big: Event)
    requires w !in s.workers && x !in s.erasers && Indexable(s, e)
    requires big.tenant == e.tenant && big.doc == e.doc
    ensures OrphansBy(s, Beginning(w, e), Quarantine(big, "too large"), Ending(w, x, e.tenant, e.doc), e.doc)
  {
    BeginningPoises(s, w, e);
    EndingOrphans(Step(After(s, Beginning(w, e)), Quarantine(big, "too large")), w, x, e);
  }

  /** So does a re-sync by external id. */
  lemma ResyncNeedsFence(s: State, w: nat, x: nat, e: Event)
    requires w !in s.workers && x !in s.erasers && Indexable(s, e)
    ensures OrphansBy(s, Beginning(w, e), Resync(e.tenant, e.doc), Ending(w, x, e.tenant, e.doc), e.doc)
  {
    BeginningPoises(s, w, e);
    EndingOrphans(Step(After(s, Beginning(w, e)), Resync(e.tenant, e.doc)), w, x, e);
  }

  // ---------------------------------------------------------------- an erasure under way

  /** A deletion that has removed the vectors and not yet the object. */
  function Halfway(x: nat, tenant: string, doc: DocId): seq<Action> {
    [Delete(x, tenant, doc), EraseVectors(x)]
  }

  /** The document is indexed and deleted again, and the first deletion goes on. */
  function Resumed(w: nat, x: nat, y: nat, e: Event): seq<Action> {
    Beginning(w, e) + ([Delete(y, e.tenant, e.doc)] + [EraseObject(x), EraseRow(x), Upsert(w, true)])
  }

  lemma AfterTwo(s: State, a: Action, b: Action)
    ensures After(s, [a, b]) == Step(Step(s, a), b)
    ensures Obeys(s, [a, b]) == (Disciplined(s, a) && Disciplined(Step(s, a), b))
  {
    AfterCons(s, a, [b]);
    AfterOne(Step(s, a), b);
    assert [a] + [b] == [a, b];
  }

  lemma VectorsGone(s: State, x: nat)
    requires x in s.erasers && s.erasers[x].left == AllThree
    ensures var t := Step(s, EraseVectors(x));
            && t.erasers == s.erasers[x := s.erasers[x].(left := ObjectAndRow)] && t.workers == s.workers
            && t.world.rows == s.world.rows && t.world.objects == s.world.objects && t.world.now == s.world.now
  {
  }

  lemma HalfwayErased(s: State, x: nat, e: Event)
    requires x !in s.erasers && Indexable(s, e)
    ensures var t := After(s, Halfway(x, e.tenant, e.doc));
            && Obeys(s, Halfway(x, e.tenant, e.doc))
            && t.world.rows == Tombstoned(s.world.rows, e.tenant, e.doc)
            && t.erasers == s.erasers[x := Eraser(e.tenant, e.doc, ObjectAndRow)]
            && t.workers == s.workers && t.world.objects == s.world.objects && t.world.now == s.world.now
  {
    DeleteStarts(s, x, e.tenant, e.doc);
    VectorsGone(Step(s, Delete(x, e.tenant, e.doc)), x);
    AfterTwo(s, Delete(x, e.tenant, e.doc), EraseVectors(x));
  }

  lemma RestRuns(s: State, x: nat, e: Event)
    requires x in s.erasers && s.erasers[x] == Eraser(e.tenant, e.doc, ObjectAndRow)
    requires Visible(s.world.rows, e.tenant, e.doc) && s.world.rows[e.doc].status == Deleting
    ensures var t := Step(Step(s, EraseObject(x)), EraseRow(x));
            e.doc !in t.world.rows && t.workers == s.workers && t.world.now == s.world.now
  {
    var u := Step(s, EraseObject(x));
    assert u.world.rows == s.world.rows && u.erasers[x] == Eraser(e.tenant, e.doc, RowOnly);
    assert Step(u, EraseRow(x)) == OnEraseRow(u, x);
  }

  lemma DeleteFences(s: State, x: nat, e: Event)
    requires Visible(s.world.rows, e.tenant, e.doc) && s.world.rows[e.doc].status == Processing
    ensures var t := Step(s, Delete(x, e.tenant, e.doc));
            && t == WithRows(s, Tombstoned(s.world.rows, e.tenant, e.doc))
            && Obeys(s, [Delete(x, e.tenant, e.doc)]) && After(s, [Delete(x, e.tenant, e.doc)]) == t
  {
    AfterOne(s, Delete(x, e.tenant, e.doc));
  }

  /** The rest of the erasure, behind a second tombstone, and the worker's upsert after it. */
  lemma RestOrphans(s: State, w: nat, x: nat, e: Event)
    requires Poised(s, w, e) && Live(s, w) && s.world.rows[e.doc].status == Deleting
    requires x in s.erasers && s.erasers[x] == Eraser(e.tenant, e.doc, ObjectAndRow)
    ensures var rest := [EraseObject(x), EraseRow(x), Upsert(w, true)];
            Obeys(s, rest) && Orphaned(After(s, rest), e.doc)
  {
    RestRuns(s, x, e);
    AfterThree(s, EraseObject(x), EraseRow(x), Upsert(w, true));
    LateUpsertOrphans(Step(Step(s, EraseObject(x)), EraseRow(x)), w);
  }

  lemma ResumedOrphans(s: State, w: nat, x: nat, y: nat, e: Event)
    requires w !in s.workers && Indexable(s, e)
    requires x in s.erasers && s.erasers[x] == Eraser(e.tenant, e.doc, ObjectAndRow)
    ensures Obeys(s, Resumed(w, x, y, e)) && Orphaned(After(s, Resumed(w, x, y, e)), e.doc)
  {
    BeginningPoises(s, w, e);
    var s1 := After(s, Beginning(w, e));
    DeleteFences(s1, y, e);
    RestOrphans(Step(s1, Delete(y, e.tenant, e.doc)), w, x, e);
    var rest := [EraseObject(x), EraseRow(x), Upsert(w, true)];
    AfterAppend(s1, [Delete(y, e.tenant, e.doc)], rest);
    AfterAppend(s, Beginning(w, e), [Delete(y, e.tenant, e.doc)] + rest);
  }

  lemma ResyncedClaims(s: State, e: Event)
    requires Visible(s.world.rows, e.tenant, e.doc) && Announced(s, e) && ChunksOf(s.world.objects[e.doc].text) != []
    ensures var t := Step(s, Resync(e.tenant, e.doc));
            && Indexable(t, e) && t.workers == s.workers && t.erasers == s.erasers
  {
  }

  /** A re-sync of a document that is being deleted takes the row back under the erasure. */
  lemma ResyncNeedsFenceDeleting(s: State, w: nat, x: nat, y: nat, e: Event)
    requires w !in s.workers && x !in s.erasers && Indexable(s, e)
    ensures OrphansBy(s, Halfway(x, e.tenant, e.doc), Resync(e.tenant, e.doc), Resumed(w, x, y, e), e.doc)
  {
    HalfwayErased(s, x, e);
    var t := After(s, Halfway(x, e.tenant, e.doc));
    ResyncedClaims(t, e);
    ResumedOrphans(Step(t, Resync(e.tenant, e.doc)), w, x, y, e);
  }

  lemma QuarantineLifts(s: State, e: Event, big: Event)
    requires Visible(s.world.rows, e.tenant, e.doc) && big.tenant == e.tenant && big.doc == e.doc
    ensures var t := Step(s, Quarantine(big, "too large"));
            && Visible(t.world.rows, e.tenant, e.doc) && Unowned(t.world.rows, e.doc)
            && t.workers == s.workers && t.erasers == s.erasers && t.world.objects == s.world.objects
  {
  }

  /** So does a quarantine of one, once it is synchronised again. */
  lemma QuarantineNeedsFenceDeleting(s: State, w: nat, x: nat, y: nat, e: Event, big: Event)
    requires w !in s.workers && x !in s.erasers && Indexable(s, e)
    requires big.tenant == e.tenant && big.doc == e.doc
    ensures OrphansBy(s, Halfway(x, e.tenant, e.doc), Quarantine(big, "too large"),
                      [Resync(e.tenant, e.doc)] + Resumed(w, x, y, e), e.doc)
  {
    HalfwayErased(s, x, e);
    var t := After(s, Halfway(x, e.tenant, e.doc));
    QuarantineLifts(t, e, big);
    var u := Step(t, Quarantine(big, "too large"));
    ResyncedClaims(u, e);
    ResumedOrphans(Step(u, Resync(e.tenant, e.doc)), w, x, y, e);
    AfterCons(u, Resync(e.tenant, e.doc), Resumed(w, x, y, e));
  }

  // ---------------------------------------------------------------- a worker that outlived its lease

  /** A worker writes its chunks and stalls; its lease is reclaimed. */
  function Stalled(v: nat, e: Event): seq<Action> {
    Beginning(v, e) + ([Upsert(v, true)] + [Tick(LEASE + 1), Reclaim(e.tenant)])
  }

  /** Then a second worker claims the document. */
  function Overtaken(v: nat, w: nat, e: Event): seq<Action> {
    Stalled(v, e) + Beginning(w, e)
  }

  lemma UpsertMoves(s: State, v: nat, e: Event)
    requires Poised(s, v, e)
    ensures var t := Step(s, Upsert(v, true));
            && v in t.workers && SameClaim(t.workers[v], s.workers[v]) && t.workers[v].stage.Written?
            && t.workers.Keys == s.workers.Keys && t.erasers == s.erasers
            && t.world.rows == s.world.rows && t.world.objects == s.world.objects && t.world.now == s.world.now
  {
  }

  /** The lease runs out and the sweep takes the row back. */
  lemma LeaseLost(s: State, e: Event, since: nat)
    requires Visible(s.world.rows, e.tenant, e.doc) && s.world.rows[e.doc].status == Processing
    requires s.world.rows[e.doc].startedAt == Some(since) && since <= s.world.now
    ensures var wait := [Tick(LEASE + 1), Reclaim(e.tenant)];
            var t := After(s, wait);
            && Obeys(s, wait) && Claims(t.world.rows, e)
            && t.workers == s.workers && t.erasers == s.erasers && t.world.objects == s.world.objects
            && t.world.now == s.world.now + LEASE + 1
  {
    var wait := [Tick(LEASE + 1), Reclaim(e.tenant)];
    assert wait[1..] == [wait[1]] && wait[1..][1..] == [];
    var t := Step(s, wait[0]);
    assert After(t, wait[1..]) == Step(t, wait[1]);
    assert Obeys(t, wait[1..]) == Disciplined(t, wait[1]);
  }

  lemma StalledLoses(s: State, v: nat, e: Event)
    requires v !in s.workers && Indexable(s, e)
    ensures var t := After(s, Stalled(v, e));
            && Obeys(s, Stalled(v, e)) && Indexable(t, e) && t.erasers == s.erasers
            && t.workers.Keys == s.workers.Keys + {v}
            && t.workers[v].event == e && t.workers[v].stage.Written? && t.workers[v].claimedAt + LEASE < t.world.now
  {
    var wait := [Tick(LEASE + 1), Reclaim(e.tenant)];
    BeginningPoises(s, v, e);
    var s1 := After(s, Beginning(v, e));
    UpsertMoves(s1, v, e);
    AfterOne(s1, Upsert(v, true));
    LeaseLost(Step(s1, Upsert(v, true)), e, s.world.now);
    AfterAppend(s1, [Upsert(v, true)], wait);
    AfterAppend(s, Beginning(v, e), [Upsert(v, true)] + wait);
  }

  lemma OvertakenPoises(s: State, v: nat, w: nat, e: Event)
    requires v !in s.workers && w !in s.workers && v != w && Indexable(s, e)
    ensures var t := After(s, Overtaken(v, w, e));
            && Obeys(s, Overtaken(v, w, e)) && Poised(t, w, e) && Live(t, w) && t.erasers == s.erasers
            && t.world.rows[e.doc].status == Processing
            && v in t.workers && t.workers[v].event == e && t.workers[v].stage.Written? && !Live(t, v)
  {
    StalledLoses(s, v, e);
    BeginningPoises(After(s, Stalled(v, e)), w, e);
    AfterAppend(s, Stalled(v, e), Beginning(w, e));
  }

  lemma FinishReleases(s: State, v: nat, w: nat, e: Event)
    requires v in s.workers && s.workers[v].event == e && s.workers[v].stage.Written? && v != w
    requires Poised(s, w, e) && Live(s, w) && s.world.rows[e.doc].status == Processing
    ensures var t := Step(s, Finish(v));
            && t.world.rows[e.doc].status == Ready
            && Poised(t, w, e) && Live(t, w) && t.erasers == s.erasers && Unowned(t.world.rows, e.doc)
  {
  }

  /** The fence compares the status, not the claim: a worker that outlived its lease finishes the claim of
      its successor, and a deletion no longer waits for the successor. */
  lemma FinishNeedsLease(s: State, v: nat, w: nat, x: nat, e: Event)
    requires v !in s.workers && w !in s.workers && v != w && x !in s.erasers && Indexable(s, e)
    ensures OrphansBy(s, Overtaken(v, w, e), Finish(v), Ending(w, x, e.tenant, e.doc), e.doc)
    ensures var t := Step(After(s, Overtaken(v, w, e)), Finish(v));
            e.doc in t.world.rows && t.world.rows[e.doc].status == Ready && w in t.workers && Live(t, w)
  {
    OvertakenPoises(s, v, w, e);
    var t := After(s, Overtaken(v, w, e));
    FinishReleases(t, v, w, e);
    EndingOrphans(Step(t, Finish(v)), w, x, e);
  }

  predicate ActsAs(a: Action, w: nat) {
    match a
    case Deliver(v, _) => v == w
    case Head(v, _) => v == w
    case Fetch(v) => v == w
    case Clear(v, _) => v == w
    case Upsert(v, _) => v == w
    case Finish(v) => v == w
    case _ => false
  }

  lemma OtherWaits(s: State, a: Action, w: nat, v: nat)
    requires v in s.workers && v != w && ActsAs(a, w)
    ensures var t := Step(s, a); v in t.workers && t.workers[v] == s.workers[v] && t.world.now == s.world.now
  {
  }

  /** What one worker does leaves the others, and the clock, where they are. */
  lemma {:induction false} OthersWait(s: State, run: seq<Action>, w: nat, v: nat)
    requires v in s.workers && v != w && forall i :: 0 <= i < |run| ==> ActsAs(run[i], w)
    ensures var t := After(s, run);
            v in t.workers && t.workers[v] == s.workers[v] && t.world.now == s.world.now
    decreases |run|
  {
    if run != [] {
      assert ActsAs(run[0], w);
      OtherWaits(s, run[0], w, v);
      OthersWait(Step(s, run[0]), run[1..], w, v);
    }
  }

  /** A worker stalls before its first write, and its lease is reclaimed. */
  function Idled(v: nat, e: Event): seq<Action> {
    [Deliver(v, e), Head(v, true), Fetch(v)] + [Tick(LEASE + 1), Reclaim(e.tenant)]
  }

  lemma IdledLoses(s: State, v: nat, e: Event)
    requires v !in s.workers && Indexable(s, e)
    ensures var t := After(s, Idled(v, e));
            && Obeys(s, Idled(v, e)) && Indexable(t, e) && t.world.objects == s.world.objects
            && t.workers == s.workers[v := Worker(e, s.world.now, Fetched(ChunksOf(s.world.objects[e.doc].text)))]
            && t.world.now == s.world.now + LEASE + 1
  {
    Reads(s, v, e);
    LeaseLost(ClaimedAt(s, v, e, Reading(s, e)), e, s.world.now);
    AfterAppend(s, [Deliver(v, e), Head(v, true), Fetch(v)], [Tick(LEASE + 1), Reclaim(e.tenant)]);
  }

  lemma IngestActs(w: nat, e: Event)
    ensures forall i :: 0 <= i < |Ingest(w, e)| ==> ActsAs(Ingest(w, e)[i], w)
  {
  }

  lemma IngestReadies(s: State, w: nat, e: Event)
    requires Reachable(s) && w !in s.workers && Indexable(s, e)
    ensures var t := After(s, Ingest(w, e));
            && Obeys(s, Ingest(w, e))
            && e.doc in t.world.rows && t.world.rows[e.doc].status == Ready
            && Exactly(t, e.tenant, e.doc, ChunksOf(s.world.objects[e.doc].text))
  {
    IngestCompletes(s, w, e);
  }

  /** The successor's whole ingest, beside a worker that waits. */
  lemma IngestBeside(s: State, v: nat, w: nat, e: Event)
    requires Reachable(s) && v in s.workers && w !in s.workers && Indexable(s, e)
    ensures var t := After(s, Ingest(w, e));
            && Obeys(s, Ingest(w, e)) && Reachable(t)
            && v in t.workers && t.workers[v] == s.workers[v] && t.world.now == s.world.now
            && e.doc in t.world.rows && t.world.rows[e.doc].status == Ready
            && Exactly(t, e.tenant, e.doc, ChunksOf(s.world.objects[e.doc].text))
  {
    IngestReadies(s, w, e);
    IngestActs(w, e);
    OthersWait(s, Ingest(w, e), w, v);
    ReachableGrows(s, Ingest(w, e));
  }

  lemma LateClear(s: State, v: nat)
    requires Reachable(s) && v in s.workers && !Live(s, v) && s.workers[v].stage.Fetched?
    ensures !Disciplined(s, Clear(v, true))
    ensures var t := Step(s, Clear(v, true)); t.world.rows == s.world.rows && NoPoints(t, s.workers[v].event.doc)
  {
    ReachableIsSafe(s);
    ClearEmpties(s, v, true);
  }

  /** A late clear by a worker whose successor has finished: the document stays ready, with every one of its
      vectors gone. */
  lemma ClearNeedsLease(s: State, v: nat, w: nat, e: Event)
    requires Reachable(s) && v !in s.workers && w !in s.workers && v != w && Indexable(s, e)
    ensures var run := Idled(v, e) + Ingest(w, e);
            var t := After(s, run);
            var u := Step(t, Clear(v, true));
            && Obeys(s, run) && !Disciplined(t, Clear(v, true))
            && e.doc in t.world.rows && t.world.rows[e.doc].status == Ready && u.world.rows == t.world.rows
            && Exactly(t, e.tenant, e.doc, ChunksOf(s.world.objects[e.doc].text)) && NoPoints(u, e.doc)
  {
    IdledLoses(s, v, e);
    var s1 := After(s, Idled(v, e));
    ReachableGrows(s, Idled(v, e));
    IngestBeside(s1, v, w, e);
    AfterAppend(s, Idled(v, e), Ingest(w, e));
    LateClear(After(s1, Ingest(w, e)), v);
  }

  lemma FewerPointsSafe(s: State, points: Points)
    requires Safe(s) && forall p :: p in points ==> p in s.world.points && points[p] == s.world.points[p]
    ensures Safe(WithPoints(s, points))
  {
  }

  /** A late clear cannot do worse: it keeps the safety invariant. */
  lemma LateClearKeepsSafe(s: State, w: nat, acked: bool)
    requires Safe(s)
    ensures Safe(Step(s, Clear(w, acked)))
  {
    if w in s.workers && s.workers[w].stage.Fetched? {
      var fewer := Cleared(s.world.points, s.workers[w].event.doc);
      FewerPointsSafe(s, fewer);
      ThinnerIsSafe(WithPoints(s, fewer), OnClear(s, w, acked));
    }
  }

  /** A finish, on time or late, changes nothing exactly when no row of that tenant is `processing` there. */
  lemma FinishWritesNothingIff(s: State, w: nat)
    requires w in s.workers && Ended(s.workers[w].stage)
    ensures var e := s.workers[w].event;
            Step(s, Finish(w)).world == s.world
            <==> (Visible(s.world.rows, e.tenant, e.doc) ==> s.world.rows[e.doc].status != Processing)
  {
    var e := s.workers[w].event;
    var t := Step(s, Finish(w));
    if Finishes(s.world.rows, e.tenant, e.doc) {
      assert t.world.rows[e.doc].status != Processing;
    }
  }

  /** The deletion waits out the lease and completes. */
  function Outwaited(w: nat, x: nat, e: Event): seq<Action> {
    Beginning(w, e) + ([Delete(x, e.tenant, e.doc)] + Sweeping(x, e.tenant, e.doc))
  }

  lemma SweepingRemoves(s: State, x: nat, e: Event, since: nat)
    requires Visible(s.world.rows, e.tenant, e.doc) && s.world.rows[e.doc].status == Deleting
    requires s.world.rows[e.doc].startedAt == Some(since) && since <= s.world.now && x !in s.erasers
    ensures var t := After(s, Sweeping(x, e.tenant, e.doc));
            && Obeys(s, Sweeping(x, e.tenant, e.doc)) && e.doc !in t.world.rows
            && t.workers == s.workers && t.world.now == s.world.now + LEASE + 1
  {
    AfterFive(s, Tick(LEASE + 1), Select(x, e.tenant, e.doc), EraseVectors(x), EraseObject(x), EraseRow(x));
    var u := Step(Step(s, Tick(LEASE + 1)), Select(x, e.tenant, e.doc));
    assert x in u.erasers && u.erasers[x] == Eraser(e.tenant, e.doc, AllThree);
    EraserRuns(u, x);
  }

  /** A write after the lease meets a document that has been erased meanwhile. */
  lemma WriteNeedsLease(s: State, w: nat, x: nat, e: Event)
    requires w !in s.workers && x !in s.erasers && Indexable(s, e)
    ensures OrphansBy(s, Outwaited(w, x, e), Upsert(w, true), [], e.doc)
  {
    BeginningPoises(s, w, e);
    var s1 := After(s, Beginning(w, e));
    DeleteFences(s1, x, e);
    var s2 := Step(s1, Delete(x, e.tenant, e.doc));
    SweepingRemoves(s2, x, e, s.world.now);
    AfterAppend(s1, [Delete(x, e.tenant, e.doc)], Sweeping(x, e.tenant, e.doc));
    AfterAppend(s, Beginning(w, e), [Delete(x, e.tenant, e.doc)] + Sweeping(x, e.tenant, e.doc));
    LateUpsertOrphans(After(s, Outwaited(w, x, e)), w);
  }
}
