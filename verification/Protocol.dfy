/** The worker, the API and the reaper as one step system over the shared stores.

    A committed transaction is one step, and so is a call to the collection or to the object store. A
    process may stop between any two of its steps. Events are delivered at any time, any number of
    times, in any order, with any etag. A step whose guard does not hold changes nothing, which is what
    the code does there. */
module Protocol {
  import opened Text
  import opened Documents
  import Chunking

  type Chunks = seq<Chunking.Chunk>

  /** Where a worker is in `handle`, after its claim. */
  datatype Stage =
    | Owner
    | Checked
    | Fetched(chunks: Chunks)
    | Emptied(chunks: Chunks)
    | Written(chunks: Chunks)
    | Broken(failure: Failure)

  datatype Worker = Worker(event: Event, claimedAt: nat, stage: Stage)

  /** What an erasure still has to remove: vectors, then the object, then the row. */
  datatype Left = AllThree | ObjectAndRow | RowOnly

  datatype Eraser = Eraser(tenant: string, doc: DocId, left: Left)

  datatype State = State(
    world: World,
    born: set<DocId>,
    workers: map<nat, Worker>,
    erasers: map<nat, Eraser>)

  datatype Action =
    | Tick(seconds: nat)
    | Create(tenant: string, doc: DocId, externalId: Option<string>, expiresAt: Option<nat>)
    | Refresh(tenant: string, doc: DocId, until: nat)
    | Resync(tenant: string, doc: DocId)
    | Put(doc: DocId, stored: Object)
    | Drop(doc: DocId)
    | Deliver(worker: nat, event: Event)
    | Quarantine(event: Event, message: string)
    | Head(worker: nat, sizeKnown: bool)
    | Fetch(worker: nat)
    | Clear(worker: nat, acked: bool)
    | Upsert(worker: nat, acked: bool)
    | Fail(worker: nat, failure: Failure)
    | Finish(worker: nat)
    | Crash(worker: nat)
    | Delete(eraser: nat, tenant: string, doc: DocId)
    | Select(eraser: nat, tenant: string, doc: DocId)
    | EraseVectors(eraser: nat)
    | EraseObject(eraser: nat)
    | EraseRow(eraser: nat)
    | Abandon(eraser: nat)
    | Expire(tenant: string)
    | Reclaim(tenant: string)

  const LOST := Failure("store call failed", Internal)
  const MISSING := Failure("object not found", Internal)
  const RESIZED := Failure("object size does not match event size", Internal)

  // ---------------------------------------------------------------- one step

  function WithWorld(s: State, w: World): State { s.(world := w) }

  function WithRows(s: State, rows: Rows): State { s.(world := s.world.(rows := rows)) }

  function WithPoints(s: State, points: Points): State { s.(world := s.world.(points := points)) }

  function WithObjects(s: State, objects: Objects): State { s.(world := s.world.(objects := objects)) }

  function AtStage(s: State, w: nat, stage: Stage): State
    requires w in s.workers
  {
    s.(workers := s.workers[w := s.workers[w].(stage := stage)])
  }

  function Without(s: State, w: nat): State { s.(workers := s.workers - {w}) }

  /** Document ids are drawn at random: one that was ever used is not drawn again. */
  function OnCreate(s: State, tenant: string, doc: DocId, externalId: Option<string>, expiresAt: Option<nat>): State {
    if doc in s.born then s
    else WithRows(s, Inserted(s.world.rows, doc, tenant, externalId, expiresAt)).(born := s.born + {doc})
  }

  function OnDeliver(s: State, w: nat, e: Event): State {
    if w in s.workers || !Claims(s.world.rows, e) then s
    else
      WithRows(s, Claimed(s.world.rows, e, s.world.now))
      .(workers := s.workers[w := Worker(e, s.world.now, Owner)])
  }

  function OnHead(s: State, w: nat, sizeKnown: bool): State
    requires w in s.workers
  {
    var e := s.workers[w].event;
    if s.workers[w].stage != Owner then s
    else if e.doc !in s.world.objects then AtStage(s, w, Broken(MISSING))
    else if sizeKnown && s.world.objects[e.doc].size != e.size then AtStage(s, w, Broken(RESIZED))
    else AtStage(s, w, Checked)
  }

  /** Nothing to index means nothing is cleared either: the ingest returns at once. */
  function OnFetch(s: State, w: nat): State
    requires w in s.workers
  {
    var e := s.workers[w].event;
    if s.workers[w].stage != Checked then s
    else if e.doc !in s.world.objects then AtStage(s, w, Broken(MISSING))
    else
      var chunks := ChunksOf(s.world.objects[e.doc].text);
      AtStage(s, w, if chunks == [] then Written([]) else Fetched(chunks))
  }

  function OnClear(s: State, w: nat, acked: bool): State
    requires w in s.workers
  {
    var k := s.workers[w];
    if !k.stage.Fetched? then s
    else
      AtStage(WithPoints(s, Cleared(s.world.points, k.event.doc)), w,
              if acked then Emptied(k.stage.chunks) else Broken(LOST))
  }

  function OnUpsert(s: State, w: nat, acked: bool): State
    requires w in s.workers
  {
    var k := s.workers[w];
    if !k.stage.Emptied? then s
    else
      AtStage(WithPoints(s, s.world.points + PointsOf(k.event.tenant, k.event.doc, k.stage.chunks)), w,
              if acked then Written(k.stage.chunks) else Broken(LOST))
  }

  predicate Ended(stage: Stage) {
    stage.Written? || stage.Broken?
  }

  function OnFail(s: State, w: nat, f: Failure): State
    requires w in s.workers
  {
    if Ended(s.workers[w].stage) then s else AtStage(s, w, Broken(f))
  }

  /** `mark_ready` after a written index, `mark_failed` after a failure. */
  function FailureOf(stage: Stage): Option<Failure>
    requires Ended(stage)
  {
    if stage.Written? then None else Some(stage.failure)
  }

  function OnFinish(s: State, w: nat): State
    requires w in s.workers
  {
    var k := s.workers[w];
    if Ended(k.stage) then
      Without(WithRows(s, Finished(s.world.rows, k.event.tenant, k.event.doc, FailureOf(k.stage), s.world.now)), w)
    else s
  }

  /** A tombstone on a document nobody claims is followed by the erasure at once; otherwise the reaper
      does it later. */
  function OnDelete(s: State, x: nat, tenant: string, doc: DocId): State {
    if !Visible(s.world.rows, tenant, doc) || s.world.rows[doc].status == Deleting then s
    else
      var fenced := WithRows(s, Tombstoned(s.world.rows, tenant, doc));
      if s.world.rows[doc].status == Processing || x in s.erasers then fenced
      else fenced.(erasers := s.erasers[x := Eraser(tenant, doc, AllThree)])
  }

  function OnSelect(s: State, x: nat, tenant: string, doc: DocId): State {
    if x in s.erasers || !Visible(s.world.rows, tenant, doc) || !Finishable(s.world.rows[doc], s.world.now) then s
    else s.(erasers := s.erasers[x := Eraser(tenant, doc, AllThree)])
  }

  function OnEraseVectors(s: State, x: nat): State
    requires x in s.erasers
  {
    var e := s.erasers[x];
    if e.left != AllThree then s
    else
      WithPoints(s, Erased(s.world.points, e.tenant, e.doc)).(erasers := s.erasers[x := e.(left := ObjectAndRow)])
  }

  function OnEraseObject(s: State, x: nat): State
    requires x in s.erasers
  {
    var e := s.erasers[x];
    if e.left != ObjectAndRow then s
    else WithObjects(s, s.world.objects - {e.doc}).(erasers := s.erasers[x := e.(left := RowOnly)])
  }

  function OnEraseRow(s: State, x: nat): State
    requires x in s.erasers
  {
    var e := s.erasers[x];
    if e.left != RowOnly then s
    else WithRows(s, Removed(s.world.rows, e.tenant, e.doc)).(erasers := s.erasers - {x})
  }

  function Step(s: State, a: Action): State {
    match a
    case Tick(n) => WithWorld(s, s.world.(now := s.world.now + n))
    case Create(tenant, doc, externalId, expiresAt) => OnCreate(s, tenant, doc, externalId, expiresAt)
    case Refresh(tenant, doc, until) => WithRows(s, Refreshed(s.world.rows, tenant, doc, until))
    case Resync(tenant, doc) => WithRows(s, Resynced(s.world.rows, tenant, doc))
    case Put(doc, stored) => WithObjects(s, s.world.objects[doc := stored])
    case Drop(doc) => WithObjects(s, s.world.objects - {doc})
    case Deliver(w, e) => OnDeliver(s, w, e)
    case Quarantine(e, message) => WithRows(s, Withhold(s.world.rows, e, message))
    case Head(w, sizeKnown) => if w in s.workers then OnHead(s, w, sizeKnown) else s
    case Fetch(w) => if w in s.workers then OnFetch(s, w) else s
    case Clear(w, acked) => if w in s.workers then OnClear(s, w, acked) else s
    case Upsert(w, acked) => if w in s.workers then OnUpsert(s, w, acked) else s
    case Fail(w, f) => if w in s.workers then OnFail(s, w, f) else s
    case Finish(w) => if w in s.workers then OnFinish(s, w) else s
    case Crash(w) => Without(s, w)
    case Delete(x, tenant, doc) => OnDelete(s, x, tenant, doc)
    case Select(x, tenant, doc) => OnSelect(s, x, tenant, doc)
    case EraseVectors(x) => if x in s.erasers then OnEraseVectors(s, x) else s
    case EraseObject(x) => if x in s.erasers then OnEraseObject(s, x) else s
    case EraseRow(x) => if x in s.erasers then OnEraseRow(s, x) else s
    case Abandon(x) => s.(erasers := s.erasers - {x})
    case Expire(tenant) => WithRows(s, ExpireUploads(s.world.rows, tenant, s.world.now))
    case Reclaim(tenant) => WithRows(s, ReclaimLeases(s.world.rows, tenant, s.world.now))
  }

  // ---------------------------------------------------------------- runs

  function After(s: State, run: seq<Action>): State
    decreases |run|
  {
    if run == [] then s else After(Step(s, run[0]), run[1..])
  }

  const EMPTY_WORLD := World(0, map[], map[], map[])

  const START := State(EMPTY_WORLD, {}, map[], map[])

  /** The lease of a claim has not run out. */
  predicate Live(s: State, w: nat)
    requires w in s.workers
  {
    s.world.now <= s.workers[w].claimedAt + LEASE
  }

  /** A worker writes to a store, or finishes, only within the lease of its claim. */
  predicate Punctual(s: State, a: Action) {
    match a
    case Clear(w, _) => w in s.workers ==> Live(s, w)
    case Upsert(w, _) => w in s.workers ==> Live(s, w)
    case Finish(w) => w in s.workers ==> Live(s, w)
    case _ => true
  }

  predicate Unowned(rows: Rows, doc: DocId) {
    doc in rows ==> rows[doc].status != Processing && rows[doc].status != Deleting
  }

  /** The two unguarded writers meet no row that a worker or a deletion owns. */
  predicate Fenced(s: State, a: Action) {
    match a
    case Quarantine(e, _) => Unowned(s.world.rows, e.doc)
    case Resync(_, doc) => Unowned(s.world.rows, doc)
    case _ => true
  }

  predicate Disciplined(s: State, a: Action) {
    Punctual(s, a) && Fenced(s, a)
  }

  predicate Obeys(s: State, run: seq<Action>)
    decreases |run|
  {
    run == [] || (Disciplined(s, run[0]) && Obeys(Step(s, run[0]), run[1..]))
  }
}
