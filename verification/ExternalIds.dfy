/** External ids in runs of the step system, given the unique index over them: `Documents.Inserts` is the
    guard the index puts on an insert. */
module ExternalIds {
  import opened Text
  import opened Documents
  import opened Protocol
  import opened ProtocolSafety

  predicate SameSource(q: Row, r: Row) {
    q.tenant == r.tenant && q.externalId.Some? && q.externalId == r.externalId
  }

  /** At most one document per tenant and external id. */
  ghost predicate UniqueIds(rows: Rows) {
    forall c, d :: c in rows && d in rows && SameSource(rows[c], rows[d]) ==> c == d
  }

  predicate Bearing(q: Row, r: Row) {
    r.tenant == q.tenant && r.externalId == q.externalId
  }

  /** Rows come and go, but keep their tenant and external id. */
  ghost predicate IdsKept(before: Rows, after: Rows) {
    after.Keys <= before.Keys && forall d :: d in after ==> Bearing(before[d], after[d])
  }

  lemma WorkerKeepsIds(s: State, a: Action)
    requires ByWorker(a)
    ensures IdsKept(s.world.rows, Step(s, a).world.rows)
  {
  }

  lemma StepKeepsIds(s: State, a: Action)
    requires !a.Create?
    ensures IdsKept(s.world.rows, Step(s, a).world.rows)
  {
    if ByWorker(a) {
      WorkerKeepsIds(s, a);
    }
  }

  lemma CreateKeepsUnique(rows: Rows, doc: DocId, tenant: string, externalId: Option<string>, expiresAt: Option<nat>)
    requires UniqueIds(rows)
    ensures UniqueIds(Inserted(rows, doc, tenant, externalId, expiresAt))
  {
    if Inserts(rows, doc, tenant, externalId) && externalId.Some? {
      assert forall d :: d in rows ==> !Bears(rows[d], tenant, externalId.value);
    }
  }

  /** No statement but the insert gives a row an external id, so what the index keeps out of inserts is kept
      out of every run, disciplined or not. */
  lemma {:induction false} RunKeepsUnique(s: State, run: seq<Action>)
    requires UniqueIds(s.world.rows)
    ensures UniqueIds(After(s, run).world.rows)
    decreases |run|
  {
    if run != [] {
      var a := run[0];
      if a.Create? {
        CreateKeepsUnique(s.world.rows, a.doc, a.tenant, a.externalId, a.expiresAt);
      } else {
        StepKeepsIds(s, a);
      }
      RunKeepsUnique(Step(s, a), run[1..]);
    }
  }
}
