/** What every run of the guarded writers keeps, as long as workers write within their lease. */
module ProtocolSafety {
  import opened Text
  import opened Documents
  import opened Protocol

  // ---------------------------------------------------------------- the invariant

  /** Every vector belongs to an existing row of its own tenant. */
  ghost predicate Rooted(s: State) {
    forall p :: p in s.world.points ==>
      && s.world.points[p].doc == p.doc
      && p.doc in s.world.rows
      && s.world.points[p].tenant == s.world.rows[p.doc].tenant
  }

  predicate OfRow(s: State, tenant: string, doc: DocId) {
    doc in s.born && (doc in s.world.rows ==> s.world.rows[doc].tenant == tenant)
  }

  /** Ids are never reused, and a process remembers the tenant of a row that exists. */
  ghost predicate Known(s: State) {
    && (forall d :: d in s.world.rows ==> d in s.born)
    && (forall w :: w in s.workers ==> OfRow(s, s.workers[w].event.tenant, s.workers[w].event.doc))
    && (forall x :: x in s.erasers ==> OfRow(s, s.erasers[x].tenant, s.erasers[x].doc))
  }

  /** A live claim is the row's: it is `processing`, or tombstoned, under that claim's clock. */
  predicate Holds(s: State, k: Worker) {
    var d := k.event.doc;
    && d in s.world.rows
    && s.world.rows[d].status in {Processing, Deleting}
    && s.world.rows[d].startedAt == Some(k.claimedAt)
  }

  ghost predicate Held(s: State) {
    && (forall w :: w in s.workers ==> s.workers[w].claimedAt <= s.world.now)
    && (forall w :: w in s.workers && Live(s, w) ==> Holds(s, s.workers[w]))
  }

  predicate Rivals(s: State, v: nat, w: nat)
    requires v in s.workers && w in s.workers
  {
    s.workers[v].event.doc == s.workers[w].event.doc
  }

  /** At most one worker with a live lease per document. */
  ghost predicate Single(s: State) {
    forall v, w :: v in s.workers && w in s.workers && Live(s, v) && Live(s, w) && Rivals(s, v, w) ==> v == w
  }

  predicate Clocked(r: Row, now: nat) {
    && (r.startedAt.Some? ==> r.status in {Processing, Deleting} && r.startedAt.value <= now)
    && (r.status == Processing ==> r.startedAt.Some?)
  }

  /** The lease clock runs only under a claim or a tombstone, always under a claim, and never from the
      future. */
  ghost predicate Idle(s: State) {
    forall d :: d in s.world.rows ==> Clocked(s.world.rows[d], s.world.now)
  }

  /** The row is gone, or tombstoned with no live claim behind it. */
  predicate Doomed(s: State, doc: DocId) {
    doc in s.world.rows ==> Finishable(s.world.rows[doc], s.world.now)
  }

  ghost predicate NoPoints(s: State, doc: DocId) {
    forall p :: p in s.world.points ==> p.doc != doc
  }

  /** An erasure runs only on a doomed document, and past its first step the vectors stay away. */
  ghost predicate Erasing(s: State) {
    forall x :: x in s.erasers ==>
      && Doomed(s, s.erasers[x].doc)
      && (s.erasers[x].left != AllThree ==> NoPoints(s, s.erasers[x].doc))
  }

  ghost predicate Safe(s: State) {
    Rooted(s) && Known(s) && Held(s) && Single(s) && Idle(s) && Erasing(s)
  }

  lemma StartsSafe()
    ensures Safe(START)
  {
  }

  // ---------------------------------------------------------------- it is kept

  predicate SameClaim(k: Worker, l: Worker) {
    k.event == l.event && k.claimedAt == l.claimedAt
  }

  /** Processes that only moved on inside, or stopped. */
  ghost predicate Thinner(s: State, t: State) {
    && t.world == s.world
    && t.born == s.born
    && (forall w :: w in t.workers ==> w in s.workers && SameClaim(t.workers[w], s.workers[w]))
    && (forall x :: x in t.erasers ==> x in s.erasers && t.erasers[x] == s.erasers[x])
  }

  lemma ThinnerIsSafe(s: State, t: State)
    requires Safe(s) && Thinner(s, t)
    ensures Safe(t)
  {
  }

  lemma InnerStepsThin(s: State, a: Action)
    requires a.Head? || a.Fetch? || a.Fail? || a.Crash? || a.Abandon?
    ensures Thinner(s, Step(s, a))
  {
  }

  lemma TimeKeepsSafe(s: State, seconds: nat)
    requires Safe(s)
    ensures Safe(Step(s, Tick(seconds)))
  {
  }

  ghost predicate Unheld(s: State, doc: DocId) {
    forall w :: w in s.workers && s.workers[w].event.doc == doc ==> !Live(s, w)
  }

  lemma ClaimableUnheld(s: State, e: Event)
    requires Held(s) && Claims(s.world.rows, e)
    ensures Unheld(s, e.doc)
  {
  }

  lemma ClaimedKeepsClaims(s: State, w: nat, e: Event)
    requires Known(s) && Held(s) && Single(s) && Idle(s) && Unheld(s, e.doc)
    ensures Known(OnDeliver(s, w, e)) && Held(OnDeliver(s, w, e)) && Single(OnDeliver(s, w, e)) && Idle(OnDeliver(s, w, e))
  {
  }

  /** A row is claimed only when nobody holds it, and then by one worker. */
  lemma ClaimKeepsSafe(s: State, w: nat, e: Event)
    requires Safe(s)
    ensures Safe(OnDeliver(s, w, e))
  {
    if Claims(s.world.rows, e) {
      ClaimableUnheld(s, e);
      ClaimedKeepsClaims(s, w, e);
    }
  }

  /** Points that were there before, or belong to the document and tenant of a live claim. */
  ghost predicate Attributed(s: State, k: Worker, points: Points) {
    forall p :: p in points ==>
      || (p in s.world.points && points[p] == s.world.points[p])
      || (p.doc == k.event.doc && points[p].doc == p.doc && points[p].tenant == k.event.tenant)
  }

  lemma PointWritesKeepSafe(s: State, w: nat, points: Points)
    requires Safe(s) && w in s.workers && Live(s, w) && Attributed(s, s.workers[w], points)
    ensures Safe(WithPoints(s, points))
  {
  }

  lemma ClearKeepsSafe(s: State, w: nat, acked: bool)
    requires Safe(s) && w in s.workers && Live(s, w)
    ensures Safe(OnClear(s, w, acked))
  {
    var points := Cleared(s.world.points, s.workers[w].event.doc);
    PointWritesKeepSafe(s, w, points);
    if s.workers[w].stage.Fetched? {
      ThinnerIsSafe(WithPoints(s, points), OnClear(s, w, acked));
    }
  }

  lemma UpsertKeepsSafe(s: State, w: nat, acked: bool)
    requires Safe(s) && w in s.workers && Live(s, w)
    ensures Safe(OnUpsert(s, w, acked))
  {
    var k := s.workers[w];
    if k.stage.Emptied? {
      var points := s.world.points + PointsOf(k.event.tenant, k.event.doc, k.stage.chunks);
      PointWritesKeepSafe(s, w, points);
      ThinnerIsSafe(WithPoints(s, points), OnUpsert(s, w, acked));
    }
  }

  lemma FinishKeepsSafe(s: State, w: nat)
    requires Safe(s) && w in s.workers && Live(s, w)
    ensures Safe(OnFinish(s, w))
  {
  }

  /** A row written over another without taking it from a live claim, or back from a deletion. */
  predicate Steady(r: Row, t: Row, now: nat) {
    && t.tenant == r.tenant
    && Clocked(t, now)
    && (r.status in {Processing, Deleting} && r.startedAt.Some? && !Passed(r.startedAt, LEASE, now) ==>
          t.status in {Processing, Deleting} && t.startedAt == r.startedAt)
    && (Finishable(r, now) ==> Finishable(t, now))
  }

  ghost predicate SteadyRows(before: Rows, after: Rows, now: nat) {
    && after.Keys == before.Keys
    && forall d :: d in before ==> Steady(before[d], after[d], now)
  }

  lemma SteadyKeepsSafe(s: State, rows: Rows)
    requires Safe(s) && SteadyRows(s.world.rows, rows, s.world.now)
    ensures Safe(WithRows(s, rows))
  {
  }

  lemma RowWritesSteady(s: State, a: Action)
    requires Idle(s) && Fenced(s, a)
    requires a.Refresh? || a.Resync? || a.Quarantine? || a.Expire? || a.Reclaim?
    ensures Step(s, a) == WithRows(s, Step(s, a).world.rows)
    ensures SteadyRows(s.world.rows, Step(s, a).world.rows, s.world.now)
  {
  }

  lemma RowWritesKeepSafe(s: State, a: Action)
    requires Safe(s) && Fenced(s, a)
    requires a.Refresh? || a.Resync? || a.Quarantine? || a.Expire? || a.Reclaim?
    ensures Safe(Step(s, a))
  {
    RowWritesSteady(s, a);
    SteadyKeepsSafe(s, Step(s, a).world.rows);
  }

  lemma BornKeepsSafe(s: State, doc: DocId)
    requires Safe(s)
    ensures Safe(s.(born := s.born + {doc}))
  {
  }

  /** A new row under an id that was never used. */
  lemma NewRowKeepsSafe(s: State, doc: DocId, r: Row)
    requires Safe(s) && doc !in s.world.rows && doc in s.born && r.status == Uploading && r.startedAt.None?
    requires forall w :: w in s.workers ==> s.workers[w].event.doc != doc
    requires forall x :: x in s.erasers ==> s.erasers[x].doc != doc
    ensures Safe(WithRows(s, s.world.rows[doc := r]))
  {
  }

  lemma CreateKeepsSafe(s: State, tenant: string, doc: DocId, externalId: Option<string>, expiresAt: Option<nat>)
    requires Safe(s)
    ensures Safe(OnCreate(s, tenant, doc, externalId, expiresAt))
  {
    if doc !in s.born {
      BornKeepsSafe(s, doc);
      if Inserts(s.world.rows, doc, tenant, externalId) {
        NewRowKeepsSafe(s.(born := s.born + {doc}), doc, NewRow(tenant, externalId, expiresAt));
      }
    }
  }

  lemma TombstoneKeepsSafe(s: State, tenant: string, doc: DocId)
    requires Safe(s)
    ensures Safe(WithRows(s, Tombstoned(s.world.rows, tenant, doc)))
  {
    SteadyKeepsSafe(s, Tombstoned(s.world.rows, tenant, doc));
  }

  /** An erasure may start on any row that is finishable. */
  lemma StartKeepsSafe(s: State, x: nat, e: Eraser)
    requires Safe(s) && e.left == AllThree
    requires Visible(s.world.rows, e.tenant, e.doc) && Finishable(s.world.rows[e.doc], s.world.now)
    ensures Safe(s.(erasers := s.erasers[x := e]))
  {
  }

  lemma DeleteKeepsSafe(s: State, x: nat, tenant: string, doc: DocId)
    requires Safe(s)
    ensures Safe(OnDelete(s, x, tenant, doc))
  {
    if OnDelete(s, x, tenant, doc) != s {
      TombstoneKeepsSafe(s, tenant, doc);
      if s.world.rows[doc].status != Processing {
        StartKeepsSafe(WithRows(s, Tombstoned(s.world.rows, tenant, doc)), x, Eraser(tenant, doc, AllThree));
      }
    }
  }

  lemma SelectKeepsSafe(s: State, x: nat, tenant: string, doc: DocId)
    requires Safe(s)
    ensures Safe(OnSelect(s, x, tenant, doc))
  {
  }

  lemma VectorsKeepSafe(s: State, x: nat)
    requires Safe(s) && x in s.erasers
    ensures Safe(OnEraseVectors(s, x))
  {
  }

  lemma ObjectKeepsSafe(s: State, x: nat)
    requires Safe(s) && x in s.erasers
    ensures Safe(OnEraseObject(s, x))
  {
  }

  lemma RowKeepsSafe(s: State, x: nat)
    requires Safe(s) && x in s.erasers
    ensures Safe(OnEraseRow(s, x))
  {
  }

  predicate ByWorker(a: Action) {
    a.Deliver? || a.Head? || a.Fetch? || a.Clear? || a.Upsert? || a.Fail? || a.Finish? || a.Crash?
  }

  predicate ByEraser(a: Action) {
    a.Delete? || a.Select? || a.EraseVectors? || a.EraseObject? || a.EraseRow? || a.Abandon?
  }

  lemma InnerKeepsSafe(s: State, a: Action)
    requires Safe(s)
    requires a.Head? || a.Fetch? || a.Fail? || a.Crash? || a.Abandon?
    ensures Safe(Step(s, a))
  {
    InnerStepsThin(s, a);
    ThinnerIsSafe(s, Step(s, a));
  }

  lemma WorkerKeepsSafe(s: State, a: Action)
    requires Safe(s) && Disciplined(s, a) && ByWorker(a)
    ensures Safe(Step(s, a))
  {
    match a
    case Deliver(w, e) => ClaimKeepsSafe(s, w, e);
    case Clear(w, acked) => if w in s.workers { ClearKeepsSafe(s, w, acked); }
    case Upsert(w, acked) => if w in s.workers { UpsertKeepsSafe(s, w, acked); }
    case Finish(w) => if w in s.workers { FinishKeepsSafe(s, w); }
    case _ => InnerKeepsSafe(s, a);
  }

  lemma EraserKeepsSafe(s: State, a: Action)
    requires Safe(s) && ByEraser(a)
    ensures Safe(Step(s, a))
  {
    match a
    case Delete(x, tenant, doc) => DeleteKeepsSafe(s, x, tenant, doc);
    case Select(x, tenant, doc) => SelectKeepsSafe(s, x, tenant, doc);
    case EraseVectors(x) => if x in s.erasers { VectorsKeepSafe(s, x); }
    case EraseObject(x) => if x in s.erasers { ObjectKeepsSafe(s, x); }
    case EraseRow(x) => if x in s.erasers { RowKeepsSafe(s, x); }
    case _ => InnerKeepsSafe(s, a);
  }

  lemma ObjectsKeepSafe(s: State, objects: Objects)
    requires Safe(s)
    ensures Safe(WithObjects(s, objects))
  {
  }

  lemma StepKeepsSafe(s: State, a: Action)
    requires Safe(s) && Disciplined(s, a)
    ensures Safe(Step(s, a))
  {
    if ByWorker(a) {
      WorkerKeepsSafe(s, a);
    } else if ByEraser(a) {
      EraserKeepsSafe(s, a);
    } else {
      match a
      case Tick(n) => TimeKeepsSafe(s, n);
      case Create(tenant, doc, externalId, expiresAt) => CreateKeepsSafe(s, tenant, doc, externalId, expiresAt);
      case Put(doc, stored) => ObjectsKeepSafe(s, s.world.objects[doc := stored]);
      case Drop(doc) => ObjectsKeepSafe(s, s.world.objects - {doc});
      case _ => RowWritesKeepSafe(s, a);
    }
  }

  /** Every run of the guarded writers keeps the invariant. */
  lemma {:induction false} RunKeepsSafe(s: State, run: seq<Action>)
    requires Safe(s) && Obeys(s, run)
    ensures Safe(After(s, run))
    decreases |run|
  {
    if run != [] {
      StepKeepsSafe(s, run[0]);
      RunKeepsSafe(Step(s, run[0]), run[1..]);
    }
  }
}
