/** The shared stores and the programs that step through them: the worker on one event
    (`crates/worker/src/main.rs`, `crates/worker/src/lifecycle.rs`), the API's document writes
    (`crates/api/src/upload/mod.rs`, `crates/api/src/handlers.rs`) and the reaper's sweep
    (`crates/worker/src/reaper.rs`). Left alone, each does what a run of the step system does. */
module Services {
  import opened Text
  import opened Documents
  import opened Protocol
  import opened ProtocolErasure
  import opened ProtocolRecovery
  import opened ProtocolLimits
  import Chunking

  datatype ClaimResult = Proceed | Skipped(why: Option<Skip>)

  datatype Ingested = Indexed(count: nat) | Stopped(failure: Failure)

  /** What the queue is told: the first two acknowledge the event, the last has it redelivered. */
  datatype Verdict = Done | Fatal | Retryable

  datatype Call = HeadCall | GetCall | ParseCall | EmbedCall | ClearCall | UpsertCall

  /** The call that fails, and whether a failed write took effect all the same. */
  datatype Fault = Fault(at: Call, applied: bool, failure: Failure)

  /** What works while one event is handled. */
  datatype Env = Env(databaseUp: bool, sizeKnown: bool, fault: Option<Fault>, finishUp: bool, dropUp: bool)

  predicate FailsAt(fault: Option<Fault>, at: Call) {
    fault.Some? && fault.value.at == at
  }

  // ---------------------------------------------------------------- the run one event amounts to

  function UpsertScript(w: nat, fault: Option<Fault>): seq<Action> {
    if !FailsAt(fault, UpsertCall) then [Upsert(w, true)]
    else if fault.value.applied then [Upsert(w, false)]
    else [Fail(w, fault.value.failure)]
  }

  /** From the chunks on: embed, clear, upsert. */
  function WriteScript(w: nat, fault: Option<Fault>): seq<Action> {
    if FailsAt(fault, EmbedCall) || (FailsAt(fault, ClearCall) && !fault.value.applied) then [Fail(w, fault.value.failure)]
    else if FailsAt(fault, ClearCall) then [Clear(w, false)]
    else [Clear(w, true)] + UpsertScript(w, fault)
  }

  /** From the download on. */
  function IngestScript(w: nat, fault: Option<Fault>, present: bool): seq<Action> {
    if FailsAt(fault, GetCall) || (FailsAt(fault, ParseCall) && present) then [Fail(w, fault.value.failure)]
    else [Fetch(w)] + WriteScript(w, fault)
  }

  /** From the claim on. */
  function VerifyScript(w: nat, env: Env, present: bool): seq<Action> {
    if FailsAt(env.fault, HeadCall) then [Fail(w, env.fault.value.failure)]
    else [Head(w, env.sizeKnown)] + IngestScript(w, env.fault, present)
  }

  function Closing(w: nat, up: bool): Action {
    if up then Action.Finish(w) else Crash(w)
  }

  /** A claimed event, from its delivery to the end. */
  function HandleScript(w: nat, e: Event, env: Env, present: bool): seq<Action> {
    [Deliver(w, e)] + (VerifyScript(w, env, present) + [Closing(w, env.finishUp)])
  }

  /** Only a document that can never be embedded is given up; everything else is tried again. */
  function VerdictOf(stage: Stage, up: bool): Verdict
    requires Ended(stage)
  {
    match stage
    case Written(_) => if up then Done else Retryable
    case Broken(f) => if f.cause == Unembeddable then Fatal else Retryable
  }

  /** The stage a finished ingest has reached. */
  predicate Reached(stage: Stage, r: Ingested) {
    match r
    case Indexed(n) => stage.Written? && |stage.chunks| == n
    case Stopped(f) => stage == Broken(f)
  }

  /** The worker's run leads from `s` to these stores, and to a stage that agrees with its result. */
  predicate Arrives(s: State, run: seq<Action>, w: nat, e: Event, world: World, r: Ingested) {
    var t := After(s, run);
    t.world == world && w in t.workers && t.workers[w].event == e && Reached(t.workers[w].stage, r)
  }

  lemma FailArrives(s: State, w: nat, e: Event, f: Failure)
    requires w in s.workers && s.workers[w].event == e && !Ended(s.workers[w].stage)
    ensures Arrives(s, [Fail(w, f)], w, e, s.world, Stopped(f))
  {
    AfterOne(s, Fail(w, f));
  }

  lemma ClearStep(s: State, w: nat, e: Event, chunks: Chunks, acked: bool)
    requires w in s.workers && s.workers[w].event == e && s.workers[w].stage == Fetched(chunks)
    ensures var t := Step(s, Clear(w, acked));
            && t.world == s.world.(points := Cleared(s.world.points, e.doc))
            && w in t.workers && t.workers[w].event == e
            && t.workers[w].stage == if acked then Emptied(chunks) else Broken(LOST)
  {
  }

  lemma ClearLost(s: State, w: nat, e: Event, chunks: Chunks)
    requires w in s.workers && s.workers[w].event == e && s.workers[w].stage == Fetched(chunks)
    ensures Arrives(s, [Clear(w, false)], w, e, s.world.(points := Cleared(s.world.points, e.doc)), Stopped(LOST))
  {
    ClearStep(s, w, e, chunks, false);
    AfterOne(s, Clear(w, false));
  }

  lemma ArrivesThen(s: State, a: Action, rest: seq<Action>, w: nat, e: Event, world: World, r: Ingested)
    requires Arrives(Step(s, a), rest, w, e, world, r)
    ensures Arrives(s, [a] + rest, w, e, world, r)
  {
    AfterCons(s, a, rest);
  }

  predicate Inner(a: Action, w: nat) {
    a == Fetch(w) || (a.Clear? && a.worker == w) || (a.Upsert? && a.worker == w) || (a.Fail? && a.worker == w)
  }

  /** Once an ingest has ended, its remaining calls are not made. */
  lemma {:induction false} EndedRests(s: State, w: nat, run: seq<Action>)
    requires w in s.workers && Ended(s.workers[w].stage)
    requires forall i :: 0 <= i < |run| ==> Inner(run[i], w)
    ensures After(s, run) == s
    decreases |run|
  {
    if run != [] {
      assert Inner(run[0], w);
      assert Step(s, run[0]) == s;
      EndedRests(s, w, run[1..]);
    }
  }

  /** The stores seen by a worker that runs alone. */
  function Alone(world: World): State {
    State(world, {}, map[], map[])
  }

  /** What one worker alone does to these stores for a claimed event, and what it tells the queue. */
  ghost predicate HandledAs(before: World, e: Event, env: Env, after: World, v: Verdict) {
    var present := e.doc in before.objects;
    var t := After(Alone(before), [Deliver(0, e)] + VerifyScript(0, env, present));
    && 0 in t.workers && Ended(t.workers[0].stage)
    && v == VerdictOf(t.workers[0].stage, env.finishUp)
    && After(Alone(before), HandleScript(0, e, env, present)).world == after
  }

  /** When nothing fails, handling an event is the uninterrupted ingest. */
  lemma CleanHandleIsIngest(w: nat, e: Event, env: Env, present: bool)
    requires env.fault.None? && env.sizeKnown && env.finishUp
    ensures HandleScript(w, e, env, present) == Ingest(w, e)
  {
    assert WriteScript(w, None) == [Clear(w, true), Upsert(w, true)];
    assert VerifyScript(w, env, present) == [Head(w, true), Fetch(w), Clear(w, true), Upsert(w, true)];
  }

  lemma ClosesAs(before: World, e: Event, env: Env, after: World, v: Verdict, s: State, t: State)
    requires s == Step(Alone(before), Deliver(0, e))
    requires t == After(s, VerifyScript(0, env, e.doc in before.objects))
    requires 0 in t.workers && t.workers[0].event == e && Ended(t.workers[0].stage)
    requires v == VerdictOf(t.workers[0].stage, env.finishUp)
    requires after == t.world.(rows := if env.finishUp then Finished(t.world.rows, e.tenant, e.doc, FailureOf(t.workers[0].stage), t.world.now) else t.world.rows)
    ensures HandledAs(before, e, env, after, v)
  {
    var script := VerifyScript(0, env, e.doc in before.objects);
    AfterCons(Alone(before), Deliver(0, e), script);
    AfterCons(Alone(before), Deliver(0, e), script + [Closing(0, env.finishUp)]);
    AfterAppend(s, script, [Closing(0, env.finishUp)]);
    AfterOne(t, Closing(0, env.finishUp));
  }

  lemma AfterFetch(s: State, w: nat, fault: Option<Fault>)
    requires w in s.workers && s.workers[w].stage == Checked
    ensures var t := Step(s, Fetch(w));
            && After(s, [Fetch(w)] + WriteScript(w, fault)) == After(t, WriteScript(w, fault))
            && (Ended(t.workers[w].stage) ==> After(t, WriteScript(w, fault)) == t)
  {
    var t := Step(s, Fetch(w));
    AfterCons(s, Fetch(w), WriteScript(w, fault));
    if Ended(t.workers[w].stage) {
      EndedRests(t, w, WriteScript(w, fault));
    }
  }

  lemma AfterHead(s: State, w: nat, env: Env, present: bool)
    requires w in s.workers && s.workers[w].stage == Owner
    ensures var t := Step(s, Head(w, env.sizeKnown));
            var rest := IngestScript(w, env.fault, present);
            && After(s, [Head(w, env.sizeKnown)] + rest) == After(t, rest)
            && (Ended(t.workers[w].stage) ==> After(t, rest) == t)
  {
    var t := Step(s, Head(w, env.sizeKnown));
    var rest := IngestScript(w, env.fault, present);
    AfterCons(s, Head(w, env.sizeKnown), rest);
    if Ended(t.workers[w].stage) {
      EndedRests(t, w, rest);
    }
  }

  // ---------------------------------------------------------------- what becomes of an event

  /** The object is there, and as large as the event said where its size is known. */
  predicate InPlace(w: World, e: Event, env: Env) {
    e.doc in w.objects && (env.sizeKnown ==> w.objects[e.doc].size == e.size)
  }

  /** The call that fails is one the ingest comes to. */
  predicate Stops(w: World, e: Event, env: Env) {
    && env.fault.Some?
    && (env.fault.value.at == HeadCall
        || (InPlace(w, e, env)
            && (env.fault.value.at == GetCall || env.fault.value.at == ParseCall || ChunksOf(w.objects[e.doc].text) != [])))
  }

  /** It was a write that took effect although it was reported lost. */
  predicate Applied(env: Env) {
    env.fault.Some? && env.fault.value.applied && (env.fault.value.at == ClearCall || env.fault.value.at == UpsertCall)
  }

  /** It stops the ingest with a failure of this cause. */
  predicate StopsFor(w: World, e: Event, env: Env, cause: Cause) {
    Stops(w, e, env) && !Applied(env) && env.fault.value.failure.cause == cause
  }

  /** Everything was indexed. */
  predicate Succeeds(w: World, e: Event, env: Env) {
    InPlace(w, e, env) && !Stops(w, e, env)
  }

  /** The verdict of a claimed event: done when it is indexed and recorded as such; given up only for a
      document that can never be embedded; tried again after anything else. */
  ghost predicate Judged(before: World, e: Event, env: Env, v: Verdict) {
    && (v == Done <==> Succeeds(before, e, env) && env.finishUp)
    && (v == Fatal <==> StopsFor(before, e, env, Unembeddable))
  }

  /** Its row: claimed, and unless the last statement failed, ready or failed with its reason. */
  ghost predicate Marked(before: World, e: Event, env: Env, r: Row, q: Row) {
    && q.tenant == r.tenant && q.externalId == r.externalId && q.expiresAt == r.expiresAt
    && q.attempts == r.attempts + 1 && q.etag == Some(e.etag) && q.size == Some(e.size)
    && q.uploadedAt == (if r.uploadedAt.Some? then r.uploadedAt else Some(before.now))
    && (!env.finishUp ==>
          q.status == Processing && q.startedAt == Some(before.now) && q.error.None? && q.reason.None?)
    && (env.finishUp && Succeeds(before, e, env) ==>
          q.status == Ready && q.startedAt.None? && q.error.None? && q.reason.None? && q.processedAt == Some(before.now))
    && (env.finishUp && !Succeeds(before, e, env) ==>
          && q.status == Failed && q.startedAt.None? && q.error.Some? && q.processedAt == r.processedAt
          && (Stops(before, e, env) && !Applied(env) ==> q.error == Some(env.fault.value.failure.message))
          && q.reason == Some(if StopsFor(before, e, env, Unreadable) then UnreadableFile
                              else if StopsFor(before, e, env, Unsupported) then UnsupportedType
                              else SystemError))
  }

  /** How far the writes to the collection got. */
  predicate Clears(w: World, e: Event, env: Env) {
    && InPlace(w, e, env) && ChunksOf(w.objects[e.doc].text) != []
    && (env.fault.None? || env.fault.value.at == UpsertCall || (env.fault.value.at == ClearCall && Applied(env)))
  }

  predicate Upserts(w: World, e: Event, env: Env) {
    Clears(w, e, env) && (env.fault.None? || (env.fault.value.at == UpsertCall && Applied(env)))
  }

  predicate PointAt(points: Points, p: PointId, point: Point) {
    p in points && points[p] == point
  }

  /** Its points: left alone, gone, or exactly those of the object's chunks; all others stay. */
  ghost predicate Pointed(before: World, e: Event, env: Env, points: Points) {
    && (!Clears(before, e, env) ==> points == before.points)
    && (forall p :: p in points && points[p].doc != e.doc ==> p in before.points && before.points[p] == points[p])
    && (Clears(before, e, env) && !Upserts(before, e, env) ==> forall p :: p in points ==> points[p].doc != e.doc)
    && (Upserts(before, e, env) ==>
          var chunks := ChunksOf(before.objects[e.doc].text);
          && (forall i :: 0 <= i < |chunks| ==> PointAt(points, PointId(e.doc, i), Point(e.tenant, e.doc, chunks[i])))
          && (forall p :: p in points && points[p].doc == e.doc ==> p.doc == e.doc && p.index < |chunks|))
    && (forall p :: p in before.points && before.points[p].doc != e.doc && p.doc != e.doc ==>
          PointAt(points, p, before.points[p]))
  }

  /** What a claimed event leaves behind, and what the queue is told. */
  ghost predicate Processed(before: World, e: Event, env: Env, after: World, v: Verdict) {
    && Judged(before, e, env, v)
    && e.doc in before.rows && after.rows.Keys == before.rows.Keys
    && Marked(before, e, env, before.rows[e.doc], after.rows[e.doc])
    && (forall d :: d in before.rows && d != e.doc ==> after.rows[d] == before.rows[d])
    && Pointed(before, e, env, after.points)
    && after.objects == before.objects && after.now == before.now
  }

  /** What the ingest returned, in these terms. */
  predicate Returned(w: World, e: Event, env: Env, r: Ingested) {
    match r
    case Indexed(_) => Succeeds(w, e, env)
    case Stopped(f) =>
      && !Succeeds(w, e, env)
      && (if Stops(w, e, env) && !Applied(env) then f == env.fault.value.failure else f.cause == Internal)
  }

  /** The writes, call by call. */
  predicate WroteAs(fault: Option<Fault>, e: Event, chunks: Chunks, before: Points, after: Points, r: Ingested) {
    var cleared := Cleared(before, e.doc);
    if FailsAt(fault, EmbedCall) then r == Stopped(fault.value.failure) && after == before
    else if FailsAt(fault, ClearCall) then
      if fault.value.applied then r == Stopped(LOST) && after == cleared
      else r == Stopped(fault.value.failure) && after == before
    else if FailsAt(fault, UpsertCall) then
      if fault.value.applied then r == Stopped(LOST) && after == cleared + PointsOf(e.tenant, e.doc, chunks)
      else r == Stopped(fault.value.failure) && after == cleared
    else r == Indexed(|chunks|) && after == cleared + PointsOf(e.tenant, e.doc, chunks)
  }

  /** The ingest, call by call. */
  predicate IngestedAs(fault: Option<Fault>, e: Event, objects: Objects, before: Points, after: Points, r: Ingested) {
    if FailsAt(fault, GetCall) then r == Stopped(fault.value.failure) && after == before
    else if e.doc !in objects then r == Stopped(MISSING) && after == before
    else if FailsAt(fault, ParseCall) then r == Stopped(fault.value.failure) && after == before
    else
      var chunks := ChunksOf(objects[e.doc].text);
      if chunks == [] then r == Indexed(0) && after == before else WroteAs(fault, e, chunks, before, after, r)
  }

  predicate VerifiedAs(w: World, e: Event, env: Env, after: Points, r: Ingested) {
    if FailsAt(env.fault, HeadCall) then r == Stopped(env.fault.value.failure) && after == w.points
    else if e.doc !in w.objects then r == Stopped(MISSING) && after == w.points
    else if env.sizeKnown && w.objects[e.doc].size != e.size then r == Stopped(RESIZED) && after == w.points
    else IngestedAs(env.fault, e, w.objects, w.points, after, r)
  }

  lemma VerifiedReturns(w: World, e: Event, env: Env, after: Points, r: Ingested)
    requires VerifiedAs(w, e, env, after, r)
    ensures Returned(w, e, env, r)
  {
  }

  /** The points in the five ways the writes can go. */
  lemma VerifiedWrites(w: World, e: Event, env: Env, after: Points, r: Ingested)
    requires VerifiedAs(w, e, env, after, r)
    ensures !Clears(w, e, env) ==> after == w.points
    ensures Clears(w, e, env) && !Upserts(w, e, env) ==> after == Cleared(w.points, e.doc)
    ensures Upserts(w, e, env) ==>
              after == Cleared(w.points, e.doc) + PointsOf(e.tenant, e.doc, ChunksOf(w.objects[e.doc].text))
  {
  }

  lemma ClearedPoints(before: Points, doc: DocId, after: Points)
    requires after == Cleared(before, doc)
    ensures forall p :: p in after ==> after[p].doc != doc && p in before && before[p] == after[p]
    ensures forall p :: p in before && before[p].doc != doc ==> PointAt(after, p, before[p])
  {
  }

  lemma WrittenPoints(before: Points, tenant: string, doc: DocId, chunks: Chunks, after: Points)
    requires after == Cleared(before, doc) + PointsOf(tenant, doc, chunks)
    ensures forall i :: 0 <= i < |chunks| ==> PointAt(after, PointId(doc, i), Point(tenant, doc, chunks[i]))
    ensures forall p :: p in after && after[p].doc == doc ==> p.doc == doc && p.index < |chunks|
    ensures forall p :: p in after && after[p].doc != doc ==> p in before && before[p] == after[p]
    ensures forall p :: p in before && before[p].doc != doc && p.doc != doc ==> PointAt(after, p, before[p])
  {
  }

  lemma VerifiedPoints(w: World, e: Event, env: Env, after: Points, r: Ingested)
    requires VerifiedAs(w, e, env, after, r)
    ensures Pointed(w, e, env, after)
  {
    VerifiedWrites(w, e, env, after, r);
    if Upserts(w, e, env) {
      WrittenPoints(w.points, e.tenant, e.doc, ChunksOf(w.objects[e.doc].text), after);
    } else if Clears(w, e, env) {
      ClearedPoints(w.points, e.doc, after);
    }
  }

  /** The row after the claim and the last statement. */
  function MarkedRow(r: Row, e: Event, now: nat, up: bool, failure: Option<Failure>): Row {
    var claimed := ClaimedRow(r, e, now);
    if up then FinishedRow(claimed, failure, now) else claimed
  }

  predicate SettledAs(r: Ingested, up: bool, v: Verdict) {
    && (v == Done <==> r.Indexed? && up)
    && (v == Fatal <==> r.Stopped? && r.failure.cause == Unembeddable)
  }

  function FailureIn(r: Ingested): Option<Failure> {
    match r
    case Indexed(_) => None
    case Stopped(f) => Some(f)
  }

  /** The two statements that write the row. */
  lemma RowMarked(rows: Rows, e: Event, now: nat, up: bool, failure: Option<Failure>)
    requires Claims(rows, e)
    ensures (if up then Finished(Claimed(rows, e, now), e.tenant, e.doc, failure, now) else Claimed(rows, e, now))
            == rows[e.doc := MarkedRow(rows[e.doc], e, now, up, failure)]
  {
  }

  lemma MarkedAs(w: World, e: Event, env: Env, r: Ingested)
    requires e.doc in w.rows && Returned(w, e, env, r)
    ensures Marked(w, e, env, w.rows[e.doc], MarkedRow(w.rows[e.doc], e, w.now, env.finishUp, FailureIn(r)))
  {
  }

  lemma ProcessedAs(before: World, e: Event, env: Env, after: World, r: Ingested, v: Verdict)
    requires Claims(before.rows, e) && VerifiedAs(before, e, env, after.points, r)
    requires after.rows == before.rows[e.doc := MarkedRow(before.rows[e.doc], e, before.now, env.finishUp, FailureIn(r))]
    requires after.objects == before.objects && after.now == before.now
    requires SettledAs(r, env.finishUp, v)
    ensures Processed(before, e, env, after, v)
  {
    VerifiedReturns(before, e, env, after.points, r);
    VerifiedPoints(before, e, env, after.points, r);
    MarkedAs(before, e, env, r);
  }

  // ---------------------------------------------------------------- the API

  datatype Inlined = Existing(doc: DocId) | Minted(doc: DocId) | Refused

  datatype Code = NotFound | Accepted | NoContent | Errored

  /** The row a re-sync reuses. */
  predicate Syncs(r: Row, tenant: string, externalId: Option<string>) {
    externalId.Some? && Bears(r, tenant, externalId.value) && r.status != Deleting
  }

  /** The row occupies this external id, in whatever status. */
  predicate Holder(r: Row, tenant: string, externalId: Option<string>) {
    r.tenant == tenant && externalId.Some? && r.externalId == externalId
  }

  function EraseScript(x: nat, fails: Option<Left>): seq<Action> {
    match fails
    case Some(AllThree) => []
    case Some(ObjectAndRow) => [EraseVectors(x)]
    case Some(RowOnly) => [EraseVectors(x), EraseObject(x)]
    case None => [EraseVectors(x), EraseObject(x), EraseRow(x)]
  }

  function DeleteScript(tenant: string, doc: DocId, fails: Option<Left>): seq<Action> {
    [Action.Delete(0, tenant, doc)] + EraseScript(0, fails)
  }

  lemma {:induction false} NoEraserRests(s: State, x: nat, run: seq<Action>)
    requires x !in s.erasers
    requires forall i :: 0 <= i < |run| ==> run[i] in {EraseVectors(x), EraseObject(x), EraseRow(x)}
    ensures After(s, run) == s
    decreases |run|
  {
    if run != [] {
      assert run[0] in {EraseVectors(x), EraseObject(x), EraseRow(x)};
      NoEraserRests(s, x, run[1..]);
    }
  }

  lemma VectorsErased(s: State, x: nat)
    requires x in s.erasers && s.erasers[x].left == AllThree
    ensures var e := s.erasers[x];
            Step(s, EraseVectors(x))
            == WithPoints(s, Erased(s.world.points, e.tenant, e.doc)).(erasers := s.erasers[x := e.(left := ObjectAndRow)])
  {
  }

  lemma ObjectErased(s: State, x: nat)
    requires x in s.erasers && s.erasers[x].left == ObjectAndRow
    ensures var e := s.erasers[x];
            Step(s, EraseObject(x))
            == WithObjects(s, s.world.objects - {e.doc}).(erasers := s.erasers[x := e.(left := RowOnly)])
  {
  }

  lemma RowErased(s: State, x: nat)
    requires x in s.erasers && s.erasers[x].left == RowOnly
    ensures var e := s.erasers[x];
            Step(s, EraseRow(x)).world == s.world.(rows := Removed(s.world.rows, e.tenant, e.doc))
  {
  }

  /** What an erasure has done to the stores when it stops. */
  lemma ErasesAs(s: State, x: nat, fails: Option<Left>)
    requires x in s.erasers && s.erasers[x].left == AllThree
    ensures var e := s.erasers[x];
            var vectors := s.world.(points := Erased(s.world.points, e.tenant, e.doc));
            var both := vectors.(objects := s.world.objects - {e.doc});
            After(s, EraseScript(x, fails)).world ==
              match fails
              case Some(AllThree) => s.world
              case Some(ObjectAndRow) => vectors
              case Some(RowOnly) => both
              case None => both.(rows := Removed(s.world.rows, e.tenant, e.doc))
  {
    VectorsErased(s, x);
    var t := Step(s, EraseVectors(x));
    ObjectErased(t, x);
    match fails
    case Some(AllThree) =>
    case Some(ObjectAndRow) => AfterOne(s, EraseVectors(x));
    case Some(RowOnly) => AfterTwo(s, EraseVectors(x), EraseObject(x));
    case None =>
      RowErased(Step(t, EraseObject(x)), x);
      AfterThree(s, EraseVectors(x), EraseObject(x), EraseRow(x));
  }

  /** The tombstone, and whether the erasure follows it. */
  lemma DeleteBegins(w: World, tenant: string, doc: DocId, fails: Option<Left>)
    ensures var s, t := Alone(w), Step(Alone(w), Action.Delete(0, tenant, doc));
            && After(s, DeleteScript(tenant, doc, fails)) == After(t, EraseScript(0, fails))
            && (if !Visible(w.rows, tenant, doc) || w.rows[doc].status == Deleting then
                  After(t, EraseScript(0, fails)).world == w
                else
                  && t.world == w.(rows := w.rows[doc := w.rows[doc].(status := Deleting)])
                  && (if w.rows[doc].status == Processing then After(t, EraseScript(0, fails)) == t
                      else 0 in t.erasers && t.erasers[0] == Eraser(tenant, doc, AllThree)))
  {
    var s, t := Alone(w), Step(Alone(w), Action.Delete(0, tenant, doc));
    AfterCons(s, Action.Delete(0, tenant, doc), EraseScript(0, fails));
    if 0 !in t.erasers {
      NoEraserRests(t, 0, EraseScript(0, fails));
    }
  }

  /** The tenant's vectors of the document are gone, or still there; all others are as they were. */
  ghost predicate VectorsOf(before: Points, tenant: string, doc: DocId, gone: bool, after: Points) {
    && (forall p :: p in after ==> p in before && after[p] == before[p])
    && (forall p :: p in before ==>
          (p !in after <==> gone && before[p].doc == doc && before[p].tenant == tenant))
  }

  /** Vectors, object, row: what precedes the failing call is gone, and nothing else changes. */
  ghost predicate ErasedUpTo(before: World, tenant: string, doc: DocId, fails: Option<Left>, after: World) {
    && after.now == before.now
    && VectorsOf(before.points, tenant, doc, fails != Some(AllThree), after.points)
    && after.objects == (if fails.None? || fails == Some(RowOnly) then before.objects - {doc} else before.objects)
    && after.rows == (if fails.None? && Visible(before.rows, tenant, doc) && before.rows[doc].status == Deleting
                      then before.rows - {doc} else before.rows)
  }

  predicate TakenOver(r: Row, e: Event, now: nat, q: Row) {
    && q.status == Processing && q.startedAt == Some(now) && q.attempts == r.attempts + 1
    && q.size == Some(e.size) && q.etag == Some(e.etag) && q.error.None? && q.reason.None?
    && q.uploadedAt == (if r.uploadedAt.Some? then r.uploadedAt else Some(now))
    && q.tenant == r.tenant && q.externalId == r.externalId && q.processedAt == r.processedAt && q.expiresAt == r.expiresAt
  }

  /** The claim of a row, status by status, and what it writes. */
  predicate ClaimedWell(r: Row, e: Event, now: nat, result: ClaimResult, q: Row) {
    match r.status
    case Processing => result == Skipped(Some(BeingProcessed)) && q == r
    case Quarantined => result == Skipped(Some(Withheld)) && q == r
    case Deleting => result == Skipped(Some(BeingDeleted)) && q == r
    case Ready =>
      if r.etag == Some(e.etag) then result == Skipped(Some(AlreadyIndexed)) && q == r
      else result == Proceed && TakenOver(r, e, now, q)
    case _ => result == Proceed && TakenOver(r, e, now, q)
  }

  class Stores {
    var now: nat
    var rows: Rows
    var points: Points
    var objects: Objects

    ghost function View(): World
      reads this
    {
      World(now, rows, points, objects)
    }

    method Claim(e: Event) returns (r: ClaimResult)
      modifies `rows
      ensures rows == Claimed(old(rows), e, now)
      ensures r.Proceed? <==> Claims(old(rows), e)
      ensures r == Skipped(None) <==> !Visible(old(rows), e.tenant, e.doc)
      ensures Visible(old(rows), e.tenant, e.doc) && !Claims(old(rows), e) ==>
                r == Skipped(ClaimDecision(old(rows)[e.doc].status, old(rows)[e.doc].etag, e.etag))
      ensures Visible(old(rows), e.tenant, e.doc) ==>
                ClaimedWell(old(rows)[e.doc], e, now, r, rows[e.doc])
    {
      if !Visible(rows, e.tenant, e.doc) {
        return Skipped(None);
      }
      var skip := ClaimDecision(rows[e.doc].status, rows[e.doc].etag, e.etag);
      if skip.Some? {
        return Skipped(skip);
      }
      rows := rows[e.doc := ClaimedRow(rows[e.doc], e, now)];
      r := Proceed;
    }

    /** `mark_ready` without a failure, `mark_failed` with one; returns whether the row was ours. */
    method Finish(tenant: string, doc: DocId, failure: Option<Failure>) returns (ours: bool)
      modifies `rows
      ensures rows == Finished(old(rows), tenant, doc, failure, now)
      ensures ours <==> Finishes(old(rows), tenant, doc)
      ensures !ours ==> rows == old(rows)
      ensures ours ==>
                var r := old(rows)[doc];
                rows == old(rows)[doc :=
                  if failure.None?
                  then r.(status := Ready, error := None, reason := None, processedAt := Some(now), startedAt := None)
                  else r.(status := Failed, error := Some(failure.value.message), startedAt := None,
                          reason := Some(if failure.value.cause == Unreadable then UnreadableFile
                                         else if failure.value.cause == Unsupported then UnsupportedType
                                         else SystemError))]
    {
      ours := Visible(rows, tenant, doc) && rows[doc].status == Processing;
      if ours {
        rows := rows[doc := FinishedRow(rows[doc], failure, now)];
      }
    }

    /** Unguarded; matching no row is reported as an error. */
    method MarkQuarantined(e: Event, message: string) returns (found: bool)
      modifies `rows
      ensures rows == Withhold(old(rows), e, message)
      ensures found <==> Visible(old(rows), e.tenant, e.doc)
      ensures rows == if !found then old(rows) else old(rows)[e.doc :=
                        old(rows)[e.doc].(status := Quarantined, error := Some(message), reason := Some(TooLarge), startedAt := None)]
    {
      found := Visible(rows, e.tenant, e.doc);
      if found {
        rows := rows[e.doc := QuarantinedRow(rows[e.doc], message)];
      }
    }

    /** One point per chunk, under the id of its index. */
    method Batch(tenant: string, doc: DocId, chunks: seq<Chunking.Chunk>) returns (batch: Points)
      ensures batch == PointsOf(tenant, doc, chunks)
    {
      batch := map[];
      for i := 0 to |chunks|
        invariant batch == PointsOf(tenant, doc, chunks[..i])
      {
        BatchStep(tenant, doc, chunks, i);
        batch := batch[PointId(doc, i) := Point(tenant, doc, chunks[i])];
      }
      assert chunks[..|chunks|] == chunks;
    }

    static lemma BatchStep(tenant: string, doc: DocId, chunks: seq<Chunking.Chunk>, i: nat)
      requires i < |chunks|
      ensures PointsOf(tenant, doc, chunks[..i])[PointId(doc, i) := Point(tenant, doc, chunks[i])]
              == PointsOf(tenant, doc, chunks[..i + 1])
    {
    }

    method Write(e: Event, chunks: seq<Chunking.Chunk>, fault: Option<Fault>, ghost s: State, ghost w: nat)
      returns (r: Ingested)
      requires s.world == View() && w in s.workers && s.workers[w].event == e && s.workers[w].stage == Emptied(chunks)
      modifies `points
      ensures Arrives(s, UpsertScript(w, fault), w, e, View(), r)
      ensures !FailsAt(fault, UpsertCall) ==> r == Indexed(|chunks|)
      ensures FailsAt(fault, UpsertCall) ==> r == Stopped(if fault.value.applied then LOST else fault.value.failure)
      ensures points == if FailsAt(fault, UpsertCall) && !fault.value.applied then old(points)
                        else old(points) + PointsOf(e.tenant, e.doc, chunks)
    {
      var batch := Batch(e.tenant, e.doc, chunks);
      AfterOne(s, UpsertScript(w, fault)[0]);
      if !FailsAt(fault, UpsertCall) {
        points := points + batch;
        r := Indexed(|chunks|);
      } else if fault.value.applied {
        points := points + batch;
        r := Stopped(LOST);
      } else {
        r := Stopped(fault.value.failure);
      }
    }

    /** Embed, clear the previous version, write this one. */
    method Index(e: Event, chunks: seq<Chunking.Chunk>, fault: Option<Fault>, ghost s: State, ghost w: nat)
      returns (r: Ingested)
      requires s.world == View() && w in s.workers && s.workers[w].event == e && s.workers[w].stage == Fetched(chunks)
      modifies `points
      ensures Arrives(s, WriteScript(w, fault), w, e, View(), r)
      ensures WroteAs(fault, e, chunks, old(points), points, r)
    {
      if FailsAt(fault, EmbedCall) || (FailsAt(fault, ClearCall) && !fault.value.applied) {
        FailArrives(s, w, e, fault.value.failure);
        return Stopped(fault.value.failure);
      }
      points := map p | p in points && points[p].doc != e.doc :: points[p];
      if FailsAt(fault, ClearCall) {
        ClearLost(s, w, e, chunks);
        return Stopped(LOST);
      }
      ClearStep(s, w, e, chunks, true);
      r := Write(e, chunks, fault, Step(s, Clear(w, true)), w);
      ArrivesThen(s, Clear(w, true), UpsertScript(w, fault), w, e, View(), r);
    }

    /** Download, parse, chunk, and index what there is. */
    method Ingest(e: Event, fault: Option<Fault>, ghost s: State, ghost w: nat) returns (r: Ingested)
      requires s.world == View() && w in s.workers && s.workers[w].event == e && s.workers[w].stage == Checked
      modifies `points
      ensures Arrives(s, IngestScript(w, fault, e.doc in objects), w, e, View(), r)
      ensures IngestedAs(fault, e, objects, old(points), points, r)
    {
      if FailsAt(fault, GetCall) {
        AfterOne(s, Fail(w, fault.value.failure));
        return Stopped(fault.value.failure);
      }
      if e.doc !in objects {
        AfterFetch(s, w, fault);
        return Stopped(MISSING);
      }
      if FailsAt(fault, ParseCall) {
        AfterOne(s, Fail(w, fault.value.failure));
        return Stopped(fault.value.failure);
      }
      var chunks := Chunking.ChunkWithSpans(objects[e.doc].text, Chunking.CHUNK_SIZE, Chunking.CHUNK_OVERLAP);
      AfterFetch(s, w, fault);
      if |chunks| == 0 {
        return Indexed(0);
      }
      r := Index(e, chunks, fault, Step(s, Fetch(w)), w);
    }

    /** The object must be there, and as large as the event said. */
    method VerifyAndIngest(e: Event, env: Env, ghost s: State, ghost w: nat) returns (r: Ingested)
      requires s.world == View() && w in s.workers && s.workers[w].event == e && s.workers[w].stage == Owner
      modifies `points
      ensures Arrives(s, VerifyScript(w, env, e.doc in objects), w, e, View(), r)
      ensures VerifiedAs(old(View()), e, env, points, r)
    {
      if FailsAt(env.fault, HeadCall) {
        AfterOne(s, Fail(w, env.fault.value.failure));
        return Stopped(env.fault.value.failure);
      }
      AfterHead(s, w, env, e.doc in objects);
      if e.doc !in objects {
        return Stopped(MISSING);
      }
      if env.sizeKnown && objects[e.doc].size != e.size {
        return Stopped(RESIZED);
      }
      r := Ingest(e, env.fault, Step(s, Head(w, env.sizeKnown)), w);
    }

    /** Record the outcome and classify it for the queue. A refused finish is no error. */
    method Settle(e: Event, r: Ingested, up: bool, ghost stage: Stage) returns (v: Verdict)
      requires Reached(stage, r)
      modifies `rows
      ensures rows == if up then Finished(old(rows), e.tenant, e.doc, FailureOf(stage), now) else old(rows)
      ensures v == VerdictOf(stage, up)
      ensures SettledAs(r, up, v)
    {
      match r
      case Indexed(_) =>
        if !up {
          return Retryable;
        }
        var ours := Finish(e.tenant, e.doc, None);
        v := Done;
      case Stopped(f) =>
        if up {
          var ours := Finish(e.tenant, e.doc, Some(f));
        }
        v := if f.cause == Unembeddable then Fatal else Retryable;
    }

    /** A claimed event: index it and record how that went. */
    method Work(e: Event, env: Env, ghost before: World) returns (v: Verdict)
      requires Claims(before.rows, e) && View() == before.(rows := Claimed(before.rows, e, before.now))
      modifies `rows, `points
      ensures HandledAs(before, e, env, View(), v)
      ensures Processed(before, e, env, View(), v)
    {
      ghost var s := Step(Alone(before), Deliver(0, e));
      ghost var t := After(s, VerifyScript(0, env, e.doc in objects));
      var r := VerifyAndIngest(e, env, s, 0);
      v := Settle(e, r, env.finishUp, t.workers[0].stage);
      ClosesAs(before, e, env, View(), v, s, t);
      RowMarked(before.rows, e, now, env.finishUp, FailureIn(r));
      ProcessedAs(before, e, env, View(), r, v);
    }

    /** One event, start to end. */
    method Handle(e: Event, limit: nat, env: Env) returns (v: Verdict)
      modifies `rows, `points, `objects
      ensures !env.databaseUp ==> View() == old(View()) && v == Retryable
      ensures env.databaseUp && e.size > limit ==>
                && rows == Withhold(old(rows), e, "object is too large")
                && objects == (if v == Done && env.dropUp then old(objects) - {e.doc} else old(objects))
                && points == old(points)
                && v == if Visible(old(rows), e.tenant, e.doc) then Done else Retryable
      ensures env.databaseUp && e.size <= limit && !Claims(old(rows), e) ==> View() == old(View()) && v == Done
      ensures env.databaseUp && e.size <= limit && Claims(old(rows), e) ==>
                HandledAs(old(View()), e, env, View(), v) && Processed(old(View()), e, env, View(), v)
    {
      if !env.databaseUp {
        return Retryable;
      }
      if e.size > limit {
        var found := MarkQuarantined(e, "object is too large");
        if !found {
          return Retryable;
        }
        if env.dropUp {
          objects := objects - {e.doc};
        }
        return Done;
      }
      ghost var world := View();
      var claim := Claim(e);
      if claim.Skipped? {
        return Done;
      }
      v := Work(e, env, world);
    }

    // -------------------------------------------------------------- the API's writes

    /** The row comes before the URL. */
    method CreateSession(tenant: string, id: DocId, ttl: nat) returns (ok: bool)
      modifies `rows
      ensures rows == Inserted(old(rows), id, tenant, None, Some(now + ttl))
      ensures ok <==> id !in old(rows)
      ensures rows == if !ok then old(rows) else old(rows)[id :=
                        Row(tenant, None, Uploading, None, None, None, None, None, Some(now + ttl), 0, None, None)]
    {
      ok := id !in rows;
      if ok {
        rows := rows[id := NewRow(tenant, None, Some(now + ttl))];
      }
    }

    method RefreshSession(tenant: string, doc: DocId, ttl: nat) returns (found: bool)
      modifies `rows
      ensures rows == Refreshed(old(rows), tenant, doc, now + ttl)
      ensures found <==> Refreshes(old(rows), tenant, doc)
      ensures found <==> Visible(old(rows), tenant, doc) && old(rows)[doc].status in {Uploading, Expired}
      ensures rows == if !found then old(rows)
                      else old(rows)[doc := old(rows)[doc].(status := Uploading, expiresAt := Some(now + ttl))]
    {
      found := Visible(rows, tenant, doc) && (rows[doc].status == Uploading || rows[doc].status == Expired);
      if found {
        rows := rows[doc := rows[doc].(status := Uploading, expiresAt := Some(now + ttl))];
      }
    }

    /** Content the API writes itself: the document known by this external id, or a new one. While that
        document is being deleted it is not found, and its external id is still taken. */
    method InlineDocument(tenant: string, id: DocId, externalId: Option<string>) returns (r: Inlined)
      modifies `rows
      ensures r.Existing? <==> exists d :: d in old(rows) && Syncs(old(rows)[d], tenant, externalId)
      ensures r.Existing? ==> r.doc in old(rows) && Syncs(old(rows)[r.doc], tenant, externalId)
      ensures r.Existing? ==> rows == Resynced(old(rows), tenant, r.doc)
      ensures !r.Existing? ==> rows == Inserted(old(rows), id, tenant, externalId, None)
      ensures r.Minted? ==> r.doc == id && Inserts(old(rows), id, tenant, externalId)
      ensures r.Refused? ==> rows == old(rows)
      ensures r.Existing? ==>
                var q := old(rows)[r.doc]; q.tenant == tenant && externalId.Some? && q.externalId == externalId && q.status != Deleting
      ensures !r.Existing? && externalId.Some? ==>
                forall d :: d in old(rows) && old(rows)[d].tenant == tenant && old(rows)[d].externalId == externalId ==>
                  old(rows)[d].status == Deleting
      ensures r.Refused? <==>
                !r.Existing? && (id in old(rows) || exists d :: d in old(rows) && Holder(old(rows)[d], tenant, externalId))
      ensures r.Existing? ==> rows == old(rows)[r.doc := old(rows)[r.doc].(status := Uploading, error := None)]
      ensures r.Minted? ==> rows == old(rows)[id :=
                              Row(tenant, externalId, Uploading, None, None, None, None, None, None, 0, None, None)]
    {
      if d :| d in rows && Syncs(rows[d], tenant, externalId) {
        rows := rows[d := rows[d].(status := Uploading, error := None)];
        return Existing(d);
      }
      if id in rows || Taken(rows, tenant, externalId) {
        return Refused;
      }
      rows := rows[id := NewRow(tenant, externalId, None)];
      r := Minted(id);
    }

    /** Vectors, object, row: stops at the call that fails. */
    method EraseStores(tenant: string, doc: DocId, fails: Option<Left>, ghost s: State, ghost x: nat) returns (ok: bool)
      requires s.world == View() && x in s.erasers && s.erasers[x] == Eraser(tenant, doc, AllThree)
      modifies `rows, `points, `objects
      ensures View() == After(s, EraseScript(x, fails)).world
      ensures ok <==> fails.None?
      ensures ErasedUpTo(old(View()), tenant, doc, fails, View())
    {
      ErasesAs(s, x, fails);
      ok := false;
      if fails == Some(AllThree) {
        return;
      }
      points := map p | p in points && !(points[p].doc == doc && points[p].tenant == tenant) :: points[p];
      if fails == Some(ObjectAndRow) {
        return;
      }
      objects := objects - {doc};
      if fails == Some(RowOnly) {
        return;
      }
      if Visible(rows, tenant, doc) && rows[doc].status == Deleting {
        rows := rows - {doc};
      }
      ok := true;
    }

    /** `DELETE /documents/{id}`. */
    method DeleteDocument(tenant: string, doc: DocId, fails: Option<Left>) returns (code: Code)
      modifies `rows, `points, `objects
      ensures View() == After(Alone(old(View())), DeleteScript(tenant, doc, fails)).world
      ensures code == NotFound <==> !Visible(old(rows), tenant, doc)
      ensures code == Accepted <==> Visible(old(rows), tenant, doc) && old(rows)[doc].status in {Processing, Deleting}
      ensures code == NoContent <==>
                Visible(old(rows), tenant, doc) && old(rows)[doc].status !in {Processing, Deleting} && fails.None?
      ensures code == NotFound ==> View() == old(View())
      ensures code == Accepted ==>
                View() == old(View()).(rows := old(rows)[doc := old(rows)[doc].(status := Deleting)])
      ensures code == NoContent || code == Errored ==>
                && now == old(now)
                && rows == (if code == NoContent then old(rows) - {doc}
                            else old(rows)[doc := old(rows)[doc].(status := Deleting)])
                && objects == (if code == NoContent || fails == Some(RowOnly) then old(objects) - {doc} else old(objects))
                && VectorsOf(old(points), tenant, doc, fails != Some(AllThree), points)
    {
      ghost var s := Alone(View());
      ghost var t := Step(s, Action.Delete(0, tenant, doc));
      DeleteBegins(View(), tenant, doc, fails);
      if !Visible(rows, tenant, doc) {
        return NotFound;
      }
      if rows[doc].status == Deleting {
        return Accepted;
      }
      var wasProcessing := rows[doc].status == Processing;
      rows := rows[doc := rows[doc].(status := Deleting)];
      if wasProcessing {
        return Accepted;
      }
      var ok := EraseStores(tenant, doc, fails, t, 0);
      code := if ok then NoContent else Errored;
    }
  }
}
