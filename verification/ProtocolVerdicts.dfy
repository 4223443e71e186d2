/** What a row tells its tenant, in every run, disciplined or not. */
module ProtocolVerdicts {
  import opened Text
  import opened Documents
  import opened Protocol
  import opened ProtocolSafety

  predicate WasClaimed(r: Row) {
    r.etag.Some? && r.size.Some? && r.uploadedAt.Some? && r.attempts > 0
  }

  /** A document being indexed, or ready, carries no verdict of an earlier attempt; one that failed or was
      withheld says why; and what was ever claimed knows its object. */
  predicate Honest(r: Row) {
    && (r.status in {Processing, Ready} ==> r.error.None? && r.reason.None? && WasClaimed(r))
    && (r.status in {Failed, Quarantined} ==> r.error.Some? && r.reason.Some?)
    && (r.status == Ready ==> r.processedAt.Some?)
    && (r.attempts > 0 <==> r.uploadedAt.Some?)
  }

  ghost predicate AllHonest(rows: Rows) {
    forall d :: d in rows ==> Honest(rows[d])
  }

  /** A claim clears the last verdict and counts the attempt. */
  lemma ClaimHonest(rows: Rows, e: Event, now: nat)
    requires AllHonest(rows)
    ensures AllHonest(Documents.Claimed(rows, e, now))
    ensures Claims(rows, e) ==> Documents.Claimed(rows, e, now)[e.doc].attempts == rows[e.doc].attempts + 1
  {
  }

  lemma FinishHonest(rows: Rows, tenant: string, doc: DocId, failure: Option<Failure>, now: nat)
    requires AllHonest(rows)
    ensures AllHonest(Finished(rows, tenant, doc, failure, now))
  {
  }

  lemma SweepHonest(rows: Rows, tenant: string, now: nat)
    requires AllHonest(rows)
    ensures AllHonest(ExpireUploads(rows, tenant, now)) && AllHonest(ReclaimLeases(rows, tenant, now))
  {
  }

  lemma WorkerHonest(s: State, a: Action)
    requires AllHonest(s.world.rows)
    requires ByWorker(a)
    ensures AllHonest(Step(s, a).world.rows)
  {
    if a.Deliver? {
      ClaimHonest(s.world.rows, a.event, s.world.now);
    } else if a.Finish? && a.worker in s.workers && Ended(s.workers[a.worker].stage) {
      var k := s.workers[a.worker];
      FinishHonest(s.world.rows, k.event.tenant, k.event.doc, FailureOf(k.stage), s.world.now);
    }
  }

  lemma EraserHonest(s: State, a: Action)
    requires AllHonest(s.world.rows)
    requires ByEraser(a)
    ensures AllHonest(Step(s, a).world.rows)
  {
  }

  lemma StepHonest(s: State, a: Action)
    requires AllHonest(s.world.rows)
    ensures AllHonest(Step(s, a).world.rows)
  {
    if ByWorker(a) {
      WorkerHonest(s, a);
    } else if ByEraser(a) {
      EraserHonest(s, a);
    } else if a.Expire? || a.Reclaim? {
      SweepHonest(s.world.rows, a.tenant, s.world.now);
    }
  }

  /** No run shows a tenant an outdated or a missing verdict on a document that is being indexed, ready,
      failed or withheld. */
  lemma {:induction false} VerdictsStayHonest(s: State, run: seq<Action>)
    requires AllHonest(s.world.rows)
    ensures AllHonest(After(s, run).world.rows)
    decreases |run|
  {
    if run != [] {
      StepHonest(s, run[0]);
      VerdictsStayHonest(Step(s, run[0]), run[1..]);
    }
  }

  /** A re-sync is the one exception: the row is `uploading` again, its error gone, its reason not. */
  lemma ResyncKeepsReason(s: State, tenant: string, doc: DocId)
    requires Visible(s.world.rows, tenant, doc)
    ensures var r := Step(s, Resync(tenant, doc)).world.rows[doc];
            r.status == Uploading && r.error.None? && r.reason == s.world.rows[doc].reason
  {
  }
}
