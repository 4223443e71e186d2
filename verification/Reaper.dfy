/** The reaper's sweep (`crates/worker/src/reaper.rs`): tenant by tenant, expire abandoned uploads, reclaim
    stale leases, finish deletions. */
module Reaper {
  import opened Text
  import opened Documents
  import opened Protocol
  import opened Services

  datatype Statement = ExpireSql | ReclaimSql

  predicate Matches(q: Statement, r: Row, now: nat) {
    match q
    case ExpireSql => Lapsed(r, now)
    case ReclaimSql => Stale(r, now)
  }

  function Rewritten(q: Statement, r: Row, now: nat): Row {
    match q
    case ExpireSql => ExpiredRow(r, now)
    case ReclaimSql => ReclaimedRow(r, now)
  }

  function Updated(q: Statement, rows: Rows, tenant: string, now: nat): Rows {
    match q
    case ExpireSql => ExpireUploads(rows, tenant, now)
    case ReclaimSql => ReclaimLeases(rows, tenant, now)
  }

  /** The rows of a tenant that a statement changes. */
  function Hits(q: Statement, rows: Rows, tenants: set<string>, now: nat): set<DocId> {
    set d | d in rows && rows[d].tenant in tenants && Matches(q, rows[d], now)
  }

  /** The tombstones of some tenants that are safe to finish. */
  function Dead(rows: Rows, tenants: set<string>, now: nat): set<DocId> {
    set d | d in rows && rows[d].tenant in tenants && Finishable(rows[d], now)
  }

  function PointsWithout(points: Points, tenant: string, docs: set<DocId>): Points {
    map p | p in points && !(points[p].doc in docs && points[p].tenant == tenant) :: points[p]
  }

  /** One row-level-secured UPDATE; returns the rows it changed. A failed one changes none. */
  method SweepOne(st: Stores, tenant: string, q: Statement, fails: bool) returns (ok: bool, affected: nat)
    modifies st`rows
    ensures ok == !fails
    ensures st.rows == if ok then Updated(q, old(st.rows), tenant, st.now) else old(st.rows)
    ensures ok ==> affected == |Hits(q, old(st.rows), {tenant}, st.now)|
    ensures st.rows.Keys == old(st.rows).Keys
    ensures forall d :: d in st.rows ==>
              var r, t := old(st.rows)[d], st.rows[d];
              if !ok || r.tenant != tenant then t == r
              else if q == ExpireSql && r.status == Uploading && r.expiresAt.Some? && r.expiresAt.value + 300 < st.now then
                t == r.(status := Expired)
              else if q == ReclaimSql && r.status == Processing && r.startedAt.Some? && r.startedAt.value + 1800 < st.now then
                t == r.(status := Failed, error := Some("processing lease expired; worker presumed dead"),
                        reason := Some(SystemError), startedAt := None)
              else t == r
  {
    ok, affected := !fails, 0;
    if fails {
      return;
    }
    var hits := Hits(q, st.rows, {tenant}, st.now);
    st.rows := map d | d in st.rows :: if d in hits then Rewritten(q, st.rows[d], st.now) else st.rows[d];
    affected := |hits|;
  }

  /** The stores without some documents' vectors, objects and rows. */
  function Swept(w: World, tenant: string, vectors: set<DocId>, objects: set<DocId>, rows: set<DocId>): World {
    World(w.now, w.rows - rows, PointsWithout(w.points, tenant, vectors), w.objects - objects)
  }

  lemma SweptMore(w: World, tenant: string, docs: set<DocId>, v: set<DocId>, o: set<DocId>, r: set<DocId>)
    ensures Swept(Swept(w, tenant, docs, docs, docs), tenant, v, o, r) == Swept(w, tenant, docs + v, docs + o, docs + r)
  {
    assert w.rows - docs - r == w.rows - (docs + r);
    assert w.objects - docs - o == w.objects - (docs + o);
  }

  /** The order of an erasure's calls. */
  predicate Before(a: Left, b: Left) {
    (a == AllThree && b != AllThree) || (a == ObjectAndRow && b == RowOnly)
  }

  function Reach(fails: Option<Left>, left: Left, doc: DocId): set<DocId> {
    match fails
    case None => {doc}
    case Some(at) => if Before(left, at) then {doc} else {}
  }

  lemma SweptNone(w: World, tenant: string)
    ensures w.rows - {} == w.rows && w.objects - {} == w.objects && PointsWithout(w.points, tenant, {}) == w.points
  {
  }

  /** Vectors, object, row, for one candidate; stops at the call that fails. */
  method FinishOne(st: Stores, tenant: string, doc: DocId, fails: Option<Left>)
    modifies st`rows, st`points, st`objects
    ensures st.View() == Swept(old(st.View()), tenant, Reach(fails, AllThree, doc), Reach(fails, ObjectAndRow, doc), Reach(fails, RowOnly, doc))
  {
    SweptNone(st.View(), tenant);
    if fails == Some(AllThree) {
      return;
    }
    st.points := PointsWithout(st.points, tenant, {doc});
    if fails == Some(ObjectAndRow) {
      return;
    }
    st.objects := st.objects - {doc};
    if fails == Some(RowOnly) {
      return;
    }
    st.rows := st.rows - {doc};
  }

  lemma ReachNested(docs: set<DocId>, fails: Option<Left>, doc: DocId, all: set<DocId>)
    requires docs <= all && doc in all && fails.Some?
    ensures var v, o := docs + Reach(fails, AllThree, doc), docs + Reach(fails, ObjectAndRow, doc);
            docs + Reach(fails, RowOnly, doc) == docs && docs <= o && o <= v && v <= all
  {
  }

  /** The documents an erasure's call fails for, and which call. */
  type Calls = map<DocId, Left>

  function OutageAt(calls: Calls, doc: DocId): Option<Left> {
    if doc in calls then Some(calls[doc]) else None
  }

  /** How far the loop has come. */
  predicate Underway(all: set<DocId>, todo: set<DocId>, docs: set<DocId>, calls: Calls, done: nat) {
    todo <= all && docs == all - todo && docs !! calls.Keys && done == |docs|
  }

  lemma UnderwayMore(all: set<DocId>, todo: set<DocId>, docs: set<DocId>, calls: Calls, done: nat, doc: DocId)
    requires Underway(all, todo, docs, calls, done) && doc in todo && doc !in calls
    ensures Underway(all, todo - {doc}, docs + {doc}, calls, done + 1)
  {
  }

  lemma UnderwayEnds(all: set<DocId>, docs: set<DocId>, calls: Calls, done: nat)
    requires Underway(all, {}, docs, calls, done)
    ensures docs == all && docs !! calls.Keys && done == |docs|
  {
  }

  lemma UnderwayStops(all: set<DocId>, todo: set<DocId>, docs: set<DocId>, calls: Calls, done: nat, doc: DocId)
    requires Underway(all, todo, docs, calls, done) && doc in todo && doc in calls
    ensures docs <= all && doc in all && !(all !! calls.Keys) && done == |docs|
  {
  }

  /** A tombstone that no worker has claimed, or none within the last `wait` seconds. */
  predicate DeadFor(r: Row, wait: nat, now: nat) {
    r.status == Deleting && (r.startedAt.Some? ==> r.startedAt.value + wait < now)
  }

  /** A row is removed only after its object, and an object only after its vectors. `down` is the query for
      the candidates failing. */
  method FinishDeletions(st: Stores, tenant: string, down: bool, calls: Calls)
    returns (ok: bool, done: nat, ghost vectors: set<DocId>, ghost objects: set<DocId>, ghost rows: set<DocId>)
    modifies st`rows, st`points, st`objects
    ensures var dead := Dead(old(st.rows), {tenant}, st.now);
            && rows <= objects <= vectors <= dead
            && (ok <==> !down && dead !! calls.Keys)
            && (ok ==> rows == dead)
            && done == |rows|
    ensures forall d :: d in vectors ==>
              d in old(st.rows) && old(st.rows)[d].tenant == tenant && DeadFor(old(st.rows)[d], 1800, st.now)
    ensures ok ==> forall d :: d in old(st.rows) && old(st.rows)[d].tenant == tenant && DeadFor(old(st.rows)[d], 1800, st.now) ==>
              d in rows
    ensures st.View() == Swept(old(st.View()), tenant, vectors, objects, rows)
  {
    SweptNone(st.View(), tenant);
    if down {
      return false, 0, {}, {}, {};
    }
    var candidates := Dead(st.rows, {tenant}, st.now);
    var todo := candidates;
    ok, done := true, 0;
    rows := {};
    while todo != {}
      invariant ok && Underway(candidates, todo, rows, calls, done)
      invariant st.View() == Swept(old(st.View()), tenant, rows, rows, rows)
      decreases todo
    {
      var d :| d in todo;
      var fails := OutageAt(calls, d);
      SweptMore(old(st.View()), tenant, rows, Reach(fails, AllThree, d), Reach(fails, ObjectAndRow, d), Reach(fails, RowOnly, d));
      FinishOne(st, tenant, d, fails);
      if fails.Some? {
        UnderwayStops(candidates, todo, rows, calls, done, d);
        ReachNested(rows, fails, d, candidates);
        ok, vectors, objects := false, rows + Reach(fails, AllThree, d), rows + Reach(fails, ObjectAndRow, d);
        return;
      }
      UnderwayMore(candidates, todo, rows, calls, done, d);
      todo := todo - {d};
      rows := rows + {d};
      done := done + 1;
    }
    UnderwayEnds(candidates, rows, calls, done);
    vectors, objects := rows, rows;
  }

  // ---------------------------------------------------------------- the whole sweep

  function SettledRow(r: Row, now: nat): Row {
    ReclaimedRow(ExpiredRow(r, now), now)
  }

  function SettledRows(rows: Rows, tenants: set<string>, now: nat): Rows {
    map d | d in rows && d !in Dead(rows, tenants, now) ::
      if rows[d].tenant in tenants then SettledRow(rows[d], now) else rows[d]
  }

  function SettledPoints(points: Points, rows: Rows, dead: set<DocId>): Points
    requires dead <= rows.Keys
  {
    map p | p in points && !(points[p].doc in dead && points[p].tenant == rows[points[p].doc].tenant) :: points[p]
  }

  /** The stores with everything settled that is overdue for these tenants. */
  function Settled(w: World, tenants: set<string>): World {
    var dead := Dead(w.rows, tenants, w.now);
    World(w.now, SettledRows(w.rows, tenants, w.now), SettledPoints(w.points, w.rows, dead), w.objects - dead)
  }

  predicate ChangedIfOverdue(r: Row, t: Row, swept: bool, now: nat) {
    && (t != r <==> swept && (Lapsed(r, now) || Stale(r, now)))
    && (r.status == Uploading && r.expiresAt.None? ==> t == r)
  }

  /** After a sweep nothing is overdue; what changed was overdue, what vanished was a finishable tombstone,
      and an upload without an expiry is left alone. */
  lemma SettledIsClean(w: World, tenants: set<string>)
    ensures var s := Settled(w, tenants);
            && (forall d :: d in s.rows && s.rows[d].tenant in tenants ==>
                  !Lapsed(s.rows[d], w.now) && !Stale(s.rows[d], w.now) && !Finishable(s.rows[d], w.now))
            && (forall d :: d in w.rows ==>
                  (d !in s.rows <==> w.rows[d].tenant in tenants && Finishable(w.rows[d], w.now)))
            && (forall d :: d in s.rows ==> d in w.rows && ChangedIfOverdue(w.rows[d], s.rows[d], w.rows[d].tenant in tenants, w.now))
  {
  }

  lemma SettledNone(w: World)
    ensures Settled(w, {}) == w
  {
  }

  lemma DeadMore(w: World, tenants: set<string>, t: string)
    requires t !in tenants
    ensures Dead(w.rows, tenants + {t}, w.now) == Dead(w.rows, tenants, w.now) + Dead(Settled(w, tenants).rows, {t}, w.now)
    ensures Dead(Settled(w, tenants).rows, {t}, w.now) == Dead(w.rows, {t}, w.now)
  {
  }

  lemma SettledMore(w: World, tenants: set<string>, t: string)
    requires t !in tenants
    ensures Settled(Settled(w, tenants), {t}) == Settled(w, tenants + {t})
  {
    DeadMore(w, tenants, t);
    var s, dead, more := Settled(w, tenants), Dead(w.rows, tenants, w.now), Dead(w.rows, {t}, w.now);
    assert SettledRows(s.rows, {t}, w.now) == SettledRows(w.rows, tenants + {t}, w.now);
    assert SettledPoints(s.points, s.rows, more) == SettledPoints(w.points, w.rows, dead + more);
    assert w.objects - dead - more == w.objects - (dead + more);
  }

  lemma UnionSize<T>(a: set<T>, b: set<T>)
    requires a !! b
    ensures |a + b| == |a| + |b|
  {
  }

  lemma HitsSplit(q: Statement, w: World, tenants: set<string>, t: string)
    requires t !in tenants
    ensures Hits(q, Settled(w, tenants).rows, {t}, w.now) == Hits(q, w.rows, {t}, w.now)
    ensures Hits(q, w.rows, tenants + {t}, w.now) == Hits(q, w.rows, tenants, w.now) + Hits(q, w.rows, {t}, w.now)
    ensures Hits(q, w.rows, tenants, w.now) !! Hits(q, w.rows, {t}, w.now)
  {
  }

  lemma HitsMore(q: Statement, w: World, tenants: set<string>, t: string)
    requires t !in tenants
    ensures |Hits(q, w.rows, tenants + {t}, w.now)|
            == |Hits(q, w.rows, tenants, w.now)| + |Hits(q, Settled(w, tenants).rows, {t}, w.now)|
  {
    HitsSplit(q, w, tenants, t);
    UnionSize(Hits(q, w.rows, tenants, w.now), Hits(q, w.rows, {t}, w.now));
  }

  /** Expiring uploads makes no lease stale and no tombstone finishable, nor does reclaiming. */
  lemma StatementsApart(rows: Rows, tenant: string, now: nat)
    ensures var expired := ExpireUploads(rows, tenant, now);
            var both := ReclaimLeases(expired, tenant, now);
            && Hits(ReclaimSql, expired, {tenant}, now) == Hits(ReclaimSql, rows, {tenant}, now)
            && Dead(both, {tenant}, now) == Dead(rows, {tenant}, now)
            && both - Dead(rows, {tenant}, now) == SettledRows(rows, {tenant}, now)
  {
    var expired := ExpireUploads(rows, tenant, now);
    assert Hits(ReclaimSql, expired, {tenant}, now) == Hits(ReclaimSql, rows, {tenant}, now);
    var both := ReclaimLeases(expired, tenant, now);
    assert Dead(both, {tenant}, now) == Dead(rows, {tenant}, now);
  }

  lemma SweptIsSettled(w: World, tenant: string)
    ensures var dead := Dead(w.rows, {tenant}, w.now);
            var both := ReclaimLeases(ExpireUploads(w.rows, tenant, w.now), tenant, w.now);
            Swept(w.(rows := both), tenant, dead, dead, dead) == Settled(w, {tenant})
  {
    StatementsApart(w.rows, tenant, w.now);
    var dead := Dead(w.rows, {tenant}, w.now);
    assert PointsWithout(w.points, tenant, dead) == SettledPoints(w.points, w.rows, dead);
  }

  lemma Squeeze<T>(a: set<T>, b: set<T>, c: set<T>, all: set<T>)
    requires a <= b <= c <= all && a == all
    ensures b == all && c == all
  {
  }

  predicate Distinct(tenants: seq<string>) {
    forall i, j :: 0 <= i < j < |tenants| ==> tenants[i] != tenants[j]
  }

  function Among(tenants: seq<string>): set<string> {
    set t | t in tenants
  }

  /** What the sweep has done for some tenants, and counted. */
  predicate Progress(w: World, tenants: set<string>, s: World, expired: nat, reclaimed: nat, deleted: nat) {
    && s == Settled(w, tenants)
    && expired == |Hits(ExpireSql, w.rows, tenants, w.now)|
    && reclaimed == |Hits(ReclaimSql, w.rows, tenants, w.now)|
    && deleted == |Dead(w.rows, tenants, w.now)|
  }

  lemma ProgressMore(w: World, tenants: set<string>, t: string, s: World, e: nat, r: nat, d: nat, u: World, e1: nat, r1: nat, d1: nat)
    requires Progress(w, tenants, s, e, r, d) && Progress(s, {t}, u, e1, r1, d1) && t !in tenants
    ensures Progress(w, tenants + {t}, u, e + e1, r + r1, d + d1)
  {
    SettledMore(w, tenants, t);
    HitsMore(ExpireSql, w, tenants, t);
    HitsMore(ReclaimSql, w, tenants, t);
    DeadMore(w, tenants, t);
    assert Dead(w.rows, tenants, w.now) !! Dead(w.rows, {t}, w.now);
  }

  lemma AmongMore(tenants: seq<string>, i: nat)
    requires i < |tenants| && Distinct(tenants)
    ensures Among(tenants[..i + 1]) == Among(tenants[..i]) + {tenants[i]}
    ensures tenants[i] !in Among(tenants[..i]) && tenants[i] in Among(tenants)
  {
  }

  // ---------------------------------------------------------------- what may fail

  datatype Query = ExpireQuery | ReclaimQuery | CandidatesQuery

  /** Everything that fails in one sweep: the query for the tenants, statements of single tenants, calls
      of single erasures. */
  datatype Outages = Outages(tenants: bool, queries: set<(string, Query)>, calls: Calls)

  predicate Down(o: Outages, tenant: string, q: Query) {
    (tenant, q) in o.queries
  }

  /** Nothing fails that the sweep of these tenants needs. */
  ghost predicate Unhindered(o: Outages, rows: Rows, tenants: set<string>, now: nat) {
    (forall t, q :: t in tenants ==> !Down(o, t, q)) && Dead(rows, tenants, now) !! o.calls.Keys
  }

  lemma OutageMore(w: World, all: set<string>, tenants: set<string>, t: string, o: Outages)
    requires t in all && t !in tenants
    requires Unhindered(o, w.rows, tenants, w.now)
    ensures Unhindered(o, Settled(w, tenants).rows, {t}, w.now) <==> Unhindered(o, w.rows, tenants + {t}, w.now)
    ensures !Unhindered(o, Settled(w, tenants).rows, {t}, w.now) ==> !Unhindered(o, w.rows, all, w.now)
  {
    DeadMore(w, tenants, t);
    assert Dead(w.rows, {t}, w.now) <= Dead(w.rows, all, w.now);
  }

  /** How far one tenant's share got when it failed: not begun, past the first statement, or past both
      with rows removed among objects removed, and those among documents whose vectors are gone. */
  ghost predicate Interrupted(w: World, tenant: string, s: World) {
    var expired := ExpireUploads(w.rows, tenant, w.now);
    || s == w
    || s == w.(rows := expired)
    || exists v, o, r :: r <= o <= v <= Dead(w.rows, {tenant}, w.now)
                         && s == Swept(w.(rows := ReclaimLeases(expired, tenant, w.now)), tenant, v, o, r)
  }

  lemma AllQueries(o: Outages, tenant: string)
    requires !Down(o, tenant, ExpireQuery) && !Down(o, tenant, ReclaimQuery) && !Down(o, tenant, CandidatesQuery)
    ensures forall q :: !Down(o, tenant, q)
  {
    forall q ensures !Down(o, tenant, q) {
      match q
      case ExpireQuery =>
      case ReclaimQuery =>
      case CandidatesQuery =>
    }
  }

  /** One tenant's share of the sweep. */
  method SweepTenant(st: Stores, tenant: string, o: Outages)
    returns (ok: bool, expired: nat, reclaimed: nat, deleted: nat)
    modifies st`rows, st`points, st`objects
    ensures ok <==> Unhindered(o, old(st.rows), {tenant}, st.now)
    ensures ok ==> Progress(old(st.View()), {tenant}, st.View(), expired, reclaimed, deleted)
    ensures !ok ==> Interrupted(old(st.View()), tenant, st.View())
  {
    ghost var w := st.View();
    StatementsApart(w.rows, tenant, w.now);
    SweptIsSettled(w, tenant);
    reclaimed, deleted := 0, 0;
    ok, expired := SweepOne(st, tenant, ExpireSql, Down(o, tenant, ExpireQuery));
    if !ok {
      return;
    }
    ok, reclaimed := SweepOne(st, tenant, ReclaimSql, Down(o, tenant, ReclaimQuery));
    if !ok {
      return;
    }
    ghost var mid := w.(rows := ReclaimLeases(ExpireUploads(w.rows, tenant, w.now), tenant, w.now));
    assert st.View() == mid;
    ghost var vectors, objects, rows;
    ok, deleted, vectors, objects, rows := FinishDeletions(st, tenant, Down(o, tenant, CandidatesQuery), o.calls);
    if ok {
      Squeeze(rows, objects, vectors, Dead(w.rows, {tenant}, w.now));
      AllQueries(o, tenant);
    }
  }

  /** The first `i` tenants are swept, and counted. */
  ghost predicate SoFar(w: World, o: Outages, tenants: seq<string>, i: nat, s: World, e: nat, r: nat, d: nat)
    requires i <= |tenants|
  {
    Unhindered(o, w.rows, Among(tenants[..i]), w.now) && Progress(w, Among(tenants[..i]), s, e, r, d)
  }

  lemma NoneSoFar(w: World, o: Outages, tenants: seq<string>)
    ensures SoFar(w, o, tenants, 0, w, 0, 0, 0)
  {
    SettledNone(w);
  }

  lemma AllSoFar(w: World, o: Outages, tenants: seq<string>, s: World, e: nat, r: nat, d: nat)
    requires SoFar(w, o, tenants, |tenants|, s, e, r, d)
    ensures Unhindered(o, w.rows, Among(tenants), w.now) && Progress(w, Among(tenants), s, e, r, d)
  {
    assert tenants[..|tenants|] == tenants;
  }

  lemma OneMore(w: World, o: Outages, tenants: seq<string>, i: nat, s: World, e: nat, r: nat, d: nat,
                u: World, e1: nat, r1: nat, d1: nat)
    requires i < |tenants| && Distinct(tenants) && SoFar(w, o, tenants, i, s, e, r, d)
    requires Unhindered(o, s.rows, {tenants[i]}, w.now) && Progress(s, {tenants[i]}, u, e1, r1, d1)
    ensures SoFar(w, o, tenants, i + 1, u, e + e1, r + r1, d + d1)
  {
    AmongMore(tenants, i);
    OutageMore(w, Among(tenants), Among(tenants[..i]), tenants[i], o);
    ProgressMore(w, Among(tenants[..i]), tenants[i], s, e, r, d, u, e1, r1, d1);
  }

  lemma StopsAt(w: World, o: Outages, tenants: seq<string>, i: nat, s: World, e: nat, r: nat, d: nat)
    requires i < |tenants| && Distinct(tenants) && SoFar(w, o, tenants, i, s, e, r, d)
    requires !Unhindered(o, s.rows, {tenants[i]}, w.now)
    ensures !Unhindered(o, w.rows, Among(tenants), w.now) && s == Settled(w, Among(tenants[..i]))
  {
    AmongMore(tenants, i);
    OutageMore(w, Among(tenants), Among(tenants[..i]), tenants[i], o);
  }

  /** Every tenant in turn; the first failure ends the sweep. What it leaves is settled for the tenants
      before, and for the one it failed at, interrupted. */
  method Sweep(st: Stores, tenants: seq<string>, o: Outages)
    returns (ok: bool, expired: nat, reclaimed: nat, deleted: nat, ghost swept: nat)
    requires Distinct(tenants)
    modifies st`rows, st`points, st`objects
    ensures ok <==> !o.tenants && Unhindered(o, old(st.rows), Among(tenants), st.now)
    ensures ok ==> Progress(old(st.View()), Among(tenants), st.View(), expired, reclaimed, deleted)
    ensures o.tenants ==> st.View() == old(st.View())
    ensures !ok && !o.tenants ==>
              swept < |tenants|
              && Interrupted(Settled(old(st.View()), Among(tenants[..swept])), tenants[swept], st.View())
  {
    ok, expired, reclaimed, deleted, swept := !o.tenants, 0, 0, 0, 0;
    if o.tenants {
      return;
    }
    ghost var w := st.View();
    NoneSoFar(w, o, tenants);
    for i := 0 to |tenants|
      invariant ok && SoFar(w, o, tenants, i, st.View(), expired, reclaimed, deleted)
    {
      ghost var s := st.View();
      var e, r, d;
      swept := i;
      ok, e, r, d := SweepTenant(st, tenants[i], o);
      if !ok {
        StopsAt(w, o, tenants, i, s, expired, reclaimed, deleted);
        return;
      }
      OneMore(w, o, tenants, i, s, expired, reclaimed, deleted, st.View(), e, r, d);
      expired, reclaimed, deleted := expired + e, reclaimed + r, deleted + d;
    }
    AllSoFar(w, o, tenants, st.View(), expired, reclaimed, deleted);
  }
}
