/** Documents at rest: the row, the vector collection, the object store, and what one committed
    statement of the worker, the API or the reaper does to them (`crates/worker/src/lifecycle.rs`,
    `crates/worker/src/reaper.rs`, `crates/api/src/upload/mod.rs`). */
module Documents {
  import opened Text
  import Chunking

  type DocId = nat

  /** How long a claim is believed, in seconds. */
  const LEASE: nat := 1800

  /** How long after its expiry an upload may still be in flight, in seconds. */
  const GRACE: nat := 300

  datatype Status = Uploading | Uploaded | Processing | Ready | Failed | Expired | Quarantined | Deleting

  datatype FailureReason = UnreadableFile | UnsupportedType | TooLarge | SystemError

  /** Why an ingest stopped, as far as the code distinguishes it. */
  datatype Cause = Unreadable | Unsupported | Unembeddable | Internal

  datatype Failure = Failure(message: string, cause: Cause)

  function Classify(c: Cause): FailureReason {
    match c
    case Unreadable => UnreadableFile
    case Unsupported => UnsupportedType
    case Unembeddable => SystemError
    case Internal => SystemError
  }

  datatype Row = Row(
    tenant: string,
    externalId: Option<string>,
    status: Status,
    size: Option<nat>,
    etag: Option<string>,
    uploadedAt: Option<nat>,
    startedAt: Option<nat>,
    processedAt: Option<nat>,
    expiresAt: Option<nat>,
    attempts: nat,
    error: Option<string>,
    reason: Option<FailureReason>)

  /** A UUIDv5 of document and chunk index (RFC 9562, section 5.5), taken to be injective. */
  datatype PointId = PointId(doc: DocId, index: nat)

  /** The payload of one vector; the vector itself is a function of the chunk. */
  datatype Point = Point(tenant: string, doc: DocId, chunk: Chunking.Chunk)

  /** A stored object and the text the parser extracts from its bytes. */
  datatype Object = Object(size: nat, etag: string, text: string)

  /** An upload notification; tenant and document are read off the object key. */
  datatype Event = Event(tenant: string, doc: DocId, size: nat, etag: string)

  type Rows = map<DocId, Row>
  type Points = map<PointId, Point>
  type Objects = map<DocId, Object>

  datatype World = World(now: nat, rows: Rows, points: Points, objects: Objects)

  /** Row-level security: another tenant's row does not exist. */
  predicate Visible(rows: Rows, tenant: string, doc: DocId) {
    doc in rows && rows[doc].tenant == tenant
  }

  // ---------------------------------------------------------------- the worker's statements

  datatype Skip = AlreadyIndexed | BeingProcessed | Withheld | BeingDeleted

  function ClaimDecision(status: Status, known: Option<string>, etag: string): Option<Skip> {
    match status
    case Ready => if known == Some(etag) then Some(AlreadyIndexed) else None
    case Processing => Some(BeingProcessed)
    case Quarantined => Some(Withheld)
    case Deleting => Some(BeingDeleted)
    case Uploading => None
    case Uploaded => None
    case Failed => None
    case Expired => None
  }

  predicate Claims(rows: Rows, e: Event) {
    Visible(rows, e.tenant, e.doc) && ClaimDecision(rows[e.doc].status, rows[e.doc].etag, e.etag).None?
  }

  function ClaimedRow(r: Row, e: Event, now: nat): Row {
    r.(status := Processing,
       size := Some(e.size),
       etag := Some(e.etag),
       uploadedAt := if r.uploadedAt.Some? then r.uploadedAt else Some(now),
       startedAt := Some(now),
       attempts := r.attempts + 1,
       error := None,
       reason := None)
  }

  function Claimed(rows: Rows, e: Event, now: nat): Rows {
    if Claims(rows, e) then rows[e.doc := ClaimedRow(rows[e.doc], e, now)] else rows
  }

  /** The fence: a finish is written only on a row that still says `processing`. */
  predicate Finishes(rows: Rows, tenant: string, doc: DocId) {
    Visible(rows, tenant, doc) && rows[doc].status == Processing
  }

  function FinishedRow(r: Row, failure: Option<Failure>, now: nat): Row {
    match failure
    case None => r.(status := Ready, error := None, reason := None, processedAt := Some(now), startedAt := None)
    case Some(f) => r.(status := Failed, error := Some(f.message), reason := Some(Classify(f.cause)), startedAt := None)
  }

  function Finished(rows: Rows, tenant: string, doc: DocId, failure: Option<Failure>, now: nat): Rows {
    if Finishes(rows, tenant, doc) then rows[doc := FinishedRow(rows[doc], failure, now)] else rows
  }

  /** The write without a fence. */
  function QuarantinedRow(r: Row, message: string): Row {
    r.(status := Quarantined, error := Some(message), reason := Some(TooLarge), startedAt := None)
  }

  function Withhold(rows: Rows, e: Event, message: string): Rows {
    if Visible(rows, e.tenant, e.doc) then rows[e.doc := QuarantinedRow(rows[e.doc], message)] else rows
  }

  // ---------------------------------------------------------------- the API's statements

  function NewRow(tenant: string, externalId: Option<string>, expiresAt: Option<nat>): Row {
    Row(tenant, externalId, Uploading, None, None, None, None, None, expiresAt, 0, None, None)
  }

  predicate Bears(r: Row, tenant: string, externalId: string) {
    r.tenant == tenant && r.externalId == Some(externalId)
  }

  /** The unique index over tenant and external id; a row being deleted still occupies it. */
  predicate Taken(rows: Rows, tenant: string, externalId: Option<string>) {
    externalId.Some? && exists d :: d in rows && Bears(rows[d], tenant, externalId.value)
  }

  /** An insert fails on a used id and on a taken external id. */
  predicate Inserts(rows: Rows, doc: DocId, tenant: string, externalId: Option<string>) {
    doc !in rows && !Taken(rows, tenant, externalId)
  }

  function Inserted(rows: Rows, doc: DocId, tenant: string, externalId: Option<string>, expiresAt: Option<nat>): Rows {
    if Inserts(rows, doc, tenant, externalId) then rows[doc := NewRow(tenant, externalId, expiresAt)] else rows
  }

  predicate Refreshes(rows: Rows, tenant: string, doc: DocId) {
    Visible(rows, tenant, doc) && rows[doc].status in {Uploading, Expired}
  }

  function Refreshed(rows: Rows, tenant: string, doc: DocId, expiresAt: nat): Rows {
    if Refreshes(rows, tenant, doc) then rows[doc := rows[doc].(status := Uploading, expiresAt := Some(expiresAt))]
    else rows
  }

  /** `inline_document` on a known external id: whatever the row said, it is `uploading` again. The
      lease clock and the last failure reason stay. */
  function Resynced(rows: Rows, tenant: string, doc: DocId): Rows {
    if Visible(rows, tenant, doc) then rows[doc := rows[doc].(status := Uploading, error := None)] else rows
  }

  /** The tombstone leaves `processing_started_at` alone: the sweep reads it as the lease clock. */
  function Tombstoned(rows: Rows, tenant: string, doc: DocId): Rows {
    if Visible(rows, tenant, doc) then rows[doc := rows[doc].(status := Deleting)] else rows
  }

  function Removed(rows: Rows, tenant: string, doc: DocId): Rows {
    if Visible(rows, tenant, doc) && rows[doc].status == Deleting then rows - {doc} else rows
  }

  // ---------------------------------------------------------------- the reaper's statements

  predicate Passed(t: Option<nat>, wait: nat, now: nat) {
    t.Some? && t.value + wait < now
  }

  /** An upload whose URL lapsed, grace included; one without an expiry never lapses. */
  predicate Lapsed(r: Row, now: nat) {
    r.status == Uploading && Passed(r.expiresAt, GRACE, now)
  }

  predicate Stale(r: Row, now: nat) {
    r.status == Processing && Passed(r.startedAt, LEASE, now)
  }

  /** A tombstone no worker can still be writing under. */
  predicate Finishable(r: Row, now: nat) {
    r.status == Deleting && (r.startedAt.None? || Passed(r.startedAt, LEASE, now))
  }

  const LEASE_EXPIRED := "processing lease expired; worker presumed dead"

  function ExpiredRow(r: Row, now: nat): Row {
    if Lapsed(r, now) then r.(status := Expired) else r
  }

  function ReclaimedRow(r: Row, now: nat): Row {
    if Stale(r, now) then r.(status := Failed, error := Some(LEASE_EXPIRED), reason := Some(SystemError), startedAt := None)
    else r
  }

  function ExpireUploads(rows: Rows, tenant: string, now: nat): Rows {
    map d | d in rows :: if rows[d].tenant == tenant then ExpiredRow(rows[d], now) else rows[d]
  }

  function ReclaimLeases(rows: Rows, tenant: string, now: nat): Rows {
    map d | d in rows :: if rows[d].tenant == tenant then ReclaimedRow(rows[d], now) else rows[d]
  }

  // ---------------------------------------------------------------- the collection

  /** What the worker indexes of a text. */
  function ChunksOf(text: string): seq<Chunking.Chunk> {
    Chunking.Located(text, Chunking.Chunks(text, Chunking.CHUNK_SIZE, Chunking.CHUNK_OVERLAP), 0)
  }

  function Ids(doc: DocId, n: nat): set<PointId> {
    set i | 0 <= i < n :: PointId(doc, i)
  }

  function PointsOf(tenant: string, doc: DocId, chunks: seq<Chunking.Chunk>): Points {
    map p | p in Ids(doc, |chunks|) :: Point(tenant, doc, chunks[p.index])
  }

  /** The worker clears by document only. */
  function Cleared(points: Points, doc: DocId): Points {
    map p | p in points && points[p].doc != doc :: points[p]
  }

  /** Deletion filters on both document and tenant. */
  function Erased(points: Points, tenant: string, doc: DocId): Points {
    map p | p in points && !(points[p].doc == doc && points[p].tenant == tenant) :: points[p]
  }

  /** The points of one document. */
  function PointsFor(points: Points, doc: DocId): Points {
    map p | p in points && points[p].doc == doc :: points[p]
  }

  /** Every point is stored under the id its payload implies. */
  ghost predicate Keyed(points: Points) {
    forall p :: p in points ==> points[p].doc == p.doc
  }
}
