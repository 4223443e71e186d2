/** The document list by keyset pages (`crates/api/src/handlers.rs`): newest first, cut by the key of the
    last row returned, over a table that changes between the requests. */
module Listing {
  import opened Text

  // ---------------------------------------------------------------- the ordering

  /** Lexicographic order on numbers. */
  predicate LexLess(a: seq<nat>, b: seq<nat>)
    requires |a| == |b|
  {
    a != [] && (a[0] < b[0] || (a[0] == b[0] && LexLess(a[1..], b[1..])))
  }

  lemma {:induction false} LexTotal(a: seq<nat>, b: seq<nat>)
    requires |a| == |b|
    ensures a == b || LexLess(a, b) || LexLess(b, a)
    ensures !(LexLess(a, b) && LexLess(b, a))
    ensures a == b ==> !LexLess(a, b)
  {
    if a != [] {
      LexTotal(a[1..], b[1..]);
      assert a == [a[0]] + a[1..] && b == [b[0]] + b[1..];
    }
  }

  lemma {:induction false} LexTransitive(a: seq<nat>, b: seq<nat>, c: seq<nat>)
    requires |a| == |b| == |c| && LexLess(a, b) && LexLess(b, c)
    ensures LexLess(a, c)
  {
    if a[0] == b[0] == c[0] {
      LexTransitive(a[1..], b[1..], c[1..]);
    }
  }

  /** A point in time as Postgres renders it in UTC, to the microsecond. */
  datatype Timestamp = Timestamp(year: nat, month: nat, day: nat, hour: nat, minute: nat, second: nat, micro: nat)

  /** `(created_at, id)`. */
  datatype Key = Key(at: Timestamp, id: nat)

  function Ranked(k: Key): (r: seq<nat>)
    ensures |r| == 8
  {
    [k.at.year, k.at.month, k.at.day, k.at.hour, k.at.minute, k.at.second, k.at.micro, k.id]
  }

  /** The row-value comparison `(created_at, id) < (.., ..)`. */
  predicate Below(a: Key, b: Key) {
    LexLess(Ranked(a), Ranked(b))
  }

  lemma LexStep(a: seq<nat>, b: seq<nat>, x: nat, y: nat)
    requires |a| == |b|
    ensures LexLess([x] + a, [y] + b) <==> x < y || (x == y && LexLess(a, b))
  {
    assert ([x] + a)[1..] == a && ([y] + b)[1..] == b;
  }

  predicate EarlierInDay(a: Timestamp, b: Timestamp) {
    || a.hour < b.hour
    || (a.hour == b.hour && (a.minute < b.minute
                             || (a.minute == b.minute && (a.second < b.second || (a.second == b.second && a.micro < b.micro)))))
  }

  predicate Earlier(a: Timestamp, b: Timestamp) {
    || a.year < b.year
    || (a.year == b.year && (a.month < b.month
                             || (a.month == b.month && (a.day < b.day || (a.day == b.day && EarlierInDay(a, b))))))
  }

  lemma RankedInDay(a: Key, b: Key)
    ensures LexLess(Ranked(a)[3..], Ranked(b)[3..])
            <==> EarlierInDay(a.at, b.at)
                 || (a.at.hour == b.at.hour && a.at.minute == b.at.minute && a.at.second == b.at.second
                     && a.at.micro == b.at.micro && a.id < b.id)
  {
    assert forall k: Key :: Ranked(k)[3..] == [k.at.hour] + ([k.at.minute] + ([k.at.second] + ([k.at.micro] + ([k.id] + []))));
    LexStep([], [], a.id, b.id);
    LexStep([a.id] + [], [b.id] + [], a.at.micro, b.at.micro);
    var s, t := [a.at.micro] + ([a.id] + []), [b.at.micro] + ([b.id] + []);
    LexStep(s, t, a.at.second, b.at.second);
    LexStep([a.at.second] + s, [b.at.second] + t, a.at.minute, b.at.minute);
    LexStep([a.at.minute] + ([a.at.second] + s), [b.at.minute] + ([b.at.second] + t), a.at.hour, b.at.hour);
  }

  /** Older first, and among documents created in the same microsecond the smaller id. */
  lemma BelowIs(a: Key, b: Key)
    ensures Below(a, b) <==> Earlier(a.at, b.at) || (a.at == b.at && a.id < b.id)
  {
    var s, t := Ranked(a)[3..], Ranked(b)[3..];
    assert forall k: Key :: Ranked(k) == [k.at.year] + ([k.at.month] + ([k.at.day] + Ranked(k)[3..]));
    RankedInDay(a, b);
    LexStep(s, t, a.at.day, b.at.day);
    LexStep([a.at.day] + s, [b.at.day] + t, a.at.month, b.at.month);
    LexStep([a.at.month] + ([a.at.day] + s), [b.at.month] + ([b.at.day] + t), a.at.year, b.at.year);
  }

  lemma BelowTotal(a: Key, b: Key)
    ensures a == b || Below(a, b) || Below(b, a)
    ensures !(Below(a, b) && Below(b, a)) && (a == b ==> !Below(a, b))
  {
    LexTotal(Ranked(a), Ranked(b));
    if Ranked(a) == Ranked(b) {
      assert forall i :: 0 <= i < 8 ==> Ranked(a)[i] == Ranked(b)[i];
      assert Ranked(a)[0] == a.at.year && Ranked(a)[1] == a.at.month && Ranked(a)[2] == a.at.day && Ranked(a)[3] == a.at.hour;
      assert Ranked(a)[4] == a.at.minute && Ranked(a)[5] == a.at.second && Ranked(a)[6] == a.at.micro && Ranked(a)[7] == a.id;
    }
  }

  lemma BelowTransitive(a: Key, b: Key, c: Key)
    requires Below(a, b) && Below(b, c)
    ensures Below(a, c)
  {
    LexTransitive(Ranked(a), Ranked(b), Ranked(c));
  }

  // ---------------------------------------------------------------- one page

  /** A tenant's rows, by document id; a tombstone is not listed. */
  datatype Entry = Entry(at: Timestamp, deleting: bool)

  type Table = map<nat, Entry>

  function Listed(t: Table): set<Key> {
    set id | id in t && !t[id].deleting :: Key(t[id].at, id)
  }

  /** What a page may show: everything, or everything below the cursor. */
  function Eligible(t: Table, before: Option<Key>): set<Key> {
    set k | k in Listed(t) && (before.Some? ==> Below(k, before.value))
  }

  /** What a page may show, row by row. */
  lemma EligibleIs(t: Table, before: Option<Key>, k: Key)
    ensures k in Eligible(t, before)
            <==> k.id in t && t[k.id] == Entry(k.at, false)
                 && (before.Some? ==> Earlier(k.at, before.value.at) || (k.at == before.value.at && k.id < before.value.id))
  {
    if before.Some? {
      BelowIs(k, before.value);
    }
  }

  ghost predicate Descends(s: seq<Key>) {
    forall i, j :: 0 <= i < j < |s| ==> Below(s[j], s[i])
  }

  lemma AboveAll(keys: set<Key>, m: Key, k: Key)
    requires m in keys && forall j :: j in keys && j != m ==> Below(j, m)
    ensures Below(m, k) ==> forall j :: j in keys ==> Below(j, k)
  {
    if Below(m, k) {
      forall j | j in keys && j != m ensures Below(j, k) {
        BelowTransitive(j, m, k);
      }
    }
  }

  ghost function Greatest(keys: set<Key>): (m: Key)
    requires keys != {}
    ensures m in keys && forall k :: k in keys && k != m ==> Below(k, m)
    decreases |keys|
  {
    var k :| k in keys;
    if keys == {k} then k
    else
      var m := Greatest(keys - {k});
      BelowTotal(m, k);
      AboveAll(keys - {k}, m, k);
      if Below(m, k) then k else m
  }

  lemma DescendsFrom(m: Key, rest: seq<Key>)
    requires Descends(rest) && forall k :: k in rest ==> Below(k, m)
    ensures Descends([m] + rest)
  {
  }

  /** `ORDER BY created_at DESC, id DESC`. */
  ghost function Descending(keys: set<Key>): (s: seq<Key>)
    ensures |s| == |keys| && Descends(s)
    ensures forall k :: k in s <==> k in keys
    decreases |keys|
  {
    if keys == {} then []
    else
      var m := Greatest(keys);
      var rest := Descending(keys - {m});
      DescendsFrom(m, rest);
      [m] + rest
  }

  ghost function Query(t: Table, before: Option<Key>, n: nat): seq<Key> {
    var all := Descending(Eligible(t, before));
    if |all| <= n then all else all[..n]
  }

  datatype Page = Page(docs: seq<Key>, next: Option<Key>)

  /** One row more than the page is asked for: it tells whether there is a next page, and is not shown. */
  function PageOf(rows: seq<Key>, limit: nat): Page {
    var docs := if |rows| > limit then rows[..limit] else rows;
    Page(docs, if |rows| > limit && docs != [] then Some(docs[|docs| - 1]) else None)
  }

  ghost function ListPage(t: Table, limit: nat, before: Option<Key>): Page {
    PageOf(Query(t, before, limit + 1), limit)
  }

  const DEFAULT_PAGE_LIMIT: nat := 50
  const MAX_PAGE_LIMIT: nat := 200

  function CheckedPageLimit(limit: Option<nat>): (r: Option<nat>)
    ensures r.Some? ==> 1 <= r.value <= MAX_PAGE_LIMIT
    ensures r.None? <==> limit.Some? && (limit.value == 0 || limit.value > MAX_PAGE_LIMIT)
    ensures limit.None? ==> r == Some(50)
    ensures r.Some? && limit.Some? ==> r == limit
  {
    var n := if limit.Some? then limit.value else DEFAULT_PAGE_LIMIT;
    if n == 0 || n > MAX_PAGE_LIMIT then None else Some(n)
  }

  /** In a descending list the elements below one of them are those after it. */
  lemma BelowIsAfter(s: seq<Key>, n: nat, k: Key)
    requires Descends(s) && n < |s|
    ensures k in s[n + 1..] <==> k in s && Below(k, s[n])
    ensures k in s ==> k in s[..n + 1] || k in s[n + 1..]
  {
    if k in s {
      var i :| 0 <= i < |s| && s[i] == k;
      BelowTotal(k, s[n]);
      BelowTotal(k, k);
      if i > n {
        assert s[n + 1..][i - n - 1] == k;
      } else {
        assert s[..n + 1][i] == k;
        var after := s[n + 1..];
        forall j | 0 <= j < |after| ensures after[j] != k {
          assert Below(s[n + 1 + j], s[i]);
        }
      }
    }
  }

  /** The probe row beyond the page changes nothing but the cursor. */
  lemma ProbeUnseen(all: seq<Key>, limit: nat)
    requires limit >= 1
    ensures PageOf(if |all| <= limit + 1 then all else all[..limit + 1], limit)
            == if |all| > limit then Page(all[..limit], Some(all[limit - 1])) else Page(all, None)
  {
    if |all| > limit + 1 {
      assert all[..limit + 1][..limit] == all[..limit];
    }
  }

  /** A page is the front of what is eligible, and its cursor the last row of that front. */
  lemma PageFront(t: Table, limit: nat, before: Option<Key>)
    requires limit >= 1
    ensures var all := Descending(Eligible(t, before));
            var p := ListPage(t, limit, before);
            && (p.next.None? ==> p.docs == all && |all| <= limit)
            && (p.next.Some? ==> |all| > limit && p.docs == all[..limit] && p.next.value == all[limit - 1])
  {
    ProbeUnseen(Descending(Eligible(t, before)), limit);
  }

  lemma FrontIs(all: seq<Key>, n: nat)
    requires Descends(all) && 1 <= n < |all|
    ensures Descends(all[..n]) && forall k :: k in all[..n] ==> k in all
    ensures forall k :: k in all && k !in all[..n] ==> Below(k, all[n - 1])
  {
    forall k | k in all && k !in all[..n] ensures Below(k, all[n - 1]) {
      BelowIsAfter(all, n - 1, k);
    }
  }

  /** A page in terms of the table: descending, eligible, and complete down to its last row. */
  lemma PageIs(t: Table, limit: nat, before: Option<Key>)
    requires limit >= 1
    ensures var p := ListPage(t, limit, before);
            && |p.docs| <= limit && Descends(p.docs)
            && (forall k :: k in p.docs ==> k in Eligible(t, before))
            && (p.next.Some? ==> |p.docs| == limit && p.next.value == p.docs[|p.docs| - 1])
            && (forall k :: k in Eligible(t, before) && k !in p.docs ==> p.next.Some? && Below(k, p.next.value))
  {
    PageFront(t, limit, before);
    var all := Descending(Eligible(t, before));
    if |all| > limit {
      FrontIs(all, limit);
    }
  }

  // ---------------------------------------------------------------- a walk over changing tables

  /** Page after page by `next_cursor`; request `i` meets the table as it then is. */
  ghost function Walk(tables: seq<Table>, limit: nat, before: Option<Key>): seq<Page>
    decreases |tables|
  {
    if tables == [] then []
    else
      var p := ListPage(tables[0], limit, before);
      if p.next.None? then [p] else [p] + Walk(tables[1..], limit, p.next)
  }

  ghost predicate Completed(pages: seq<Page>) {
    pages != [] && pages[|pages| - 1].next.None?
  }

  function Docs(pages: seq<Page>): seq<Key> {
    if pages == [] then [] else pages[0].docs + Docs(pages[1..])
  }

  ghost predicate AllBelow(s: seq<Key>, before: Option<Key>) {
    before.Some? ==> forall k :: k in s ==> Below(k, before.value)
  }

  lemma DescendsOn(a: seq<Key>, b: seq<Key>, last: Key)
    requires Descends(a) && Descends(b) && a != [] && last == a[|a| - 1]
    requires forall k :: k in b ==> Below(k, last)
    ensures Descends(a + b)
  {
    forall i, j | 0 <= i < j < |a + b| ensures Below((a + b)[j], (a + b)[i]) {
      if i < |a| <= j {
        assert (a + b)[j] == b[j - |a|] && Below(b[j - |a|], last);
        if i < |a| - 1 {
          BelowTransitive(b[j - |a|], last, a[i]);
        }
      }
    }
  }

  lemma DocsCons(p: Page, rest: seq<Page>)
    ensures Docs([p] + rest) == p.docs + Docs(rest)
    ensures Docs([p]) == p.docs
  {
    assert ([p] + rest)[1..] == rest && [p][1..] == [];
    assert p.docs + [] == p.docs;
  }

  lemma AllBelowOn(a: seq<Key>, b: seq<Key>, last: Key, before: Option<Key>)
    requires AllBelow(a, before) && last in a && AllBelow(b, Some(last))
    ensures AllBelow(a + b, before)
  {
    if before.Some? {
      forall k | k in b ensures Below(k, before.value) {
        BelowTransitive(k, last, before.value);
      }
    }
  }

  /** However the table changes between the requests, keys strictly descend through the whole walk. */
  lemma {:induction false} WalkDescends(tables: seq<Table>, limit: nat, before: Option<Key>)
    requires limit >= 1
    ensures Descends(Docs(Walk(tables, limit, before))) && AllBelow(Docs(Walk(tables, limit, before)), before)
    decreases |tables|
  {
    if tables != [] {
      var p := ListPage(tables[0], limit, before);
      PageIs(tables[0], limit, before);
      var rest := Walk(tables[1..], limit, p.next);
      DocsCons(p, rest);
      if p.next.Some? {
        WalkDescends(tables[1..], limit, p.next);
        DescendsOn(p.docs, Docs(rest), p.next.value);
        AllBelowOn(p.docs, Docs(rest), p.next.value, before);
      }
    }
  }

  /** A row's creation time never changes. */
  ghost predicate Stable(tables: seq<Table>) {
    forall i, j, id :: 0 <= i < |tables| && 0 <= j < |tables| && id in tables[i] && id in tables[j]
      ==> tables[i][id].at == tables[j][id].at
  }

  ghost predicate Drawn(k: Key, tables: seq<Table>) {
    exists i :: 0 <= i < |tables| && k in Listed(tables[i])
  }

  lemma {:induction false} WalkDrawn(tables: seq<Table>, limit: nat, before: Option<Key>, k: Key)
    requires limit >= 1 && k in Docs(Walk(tables, limit, before))
    ensures Drawn(k, tables)
    decreases |tables|
  {
    var p := ListPage(tables[0], limit, before);
    PageIs(tables[0], limit, before);
    var rest := Walk(tables[1..], limit, p.next);
    DocsCons(p, rest);
    if k !in p.docs {
      WalkDrawn(tables[1..], limit, p.next, k);
      var i :| 0 <= i < |tables[1..]| && k in Listed(tables[1..][i]);
      assert tables[1..][i] == tables[i + 1];
    }
  }

  /** A walk never returns a row twice. */
  lemma WalkNeverRepeats(tables: seq<Table>, limit: nat, i: nat, j: nat)
    requires limit >= 1 && Stable(tables)
    requires i < j < |Docs(Walk(tables, limit, None))|
    ensures Docs(Walk(tables, limit, None))[i].id != Docs(Walk(tables, limit, None))[j].id
  {
    var docs := Docs(Walk(tables, limit, None));
    WalkDescends(tables, limit, None);
    WalkDrawn(tables, limit, None, docs[i]);
    WalkDrawn(tables, limit, None, docs[j]);
    var a :| 0 <= a < |tables| && docs[i] in Listed(tables[a]);
    var b :| 0 <= b < |tables| && docs[j] in Listed(tables[b]);
    BelowTotal(docs[i], docs[j]);
  }

  /** A row present, and not being deleted, at every request of a completed walk is returned. */
  lemma {:induction false} WalkComplete(tables: seq<Table>, limit: nat, before: Option<Key>, k: Key)
    requires limit >= 1 && Completed(Walk(tables, limit, before))
    requires forall i :: 0 <= i < |Walk(tables, limit, before)| && i < |tables| ==> k in Listed(tables[i])
    requires before.Some? ==> Below(k, before.value)
    ensures k in Docs(Walk(tables, limit, before))
    decreases |tables|
  {
    var p := ListPage(tables[0], limit, before);
    PageIs(tables[0], limit, before);
    var rest := Walk(tables[1..], limit, p.next);
    DocsCons(p, rest);
    assert k in Eligible(tables[0], before);
    if k !in p.docs {
      assert Walk(tables, limit, before) == [p] + rest;
      forall i | 0 <= i < |rest| && i < |tables[1..]| ensures k in Listed(tables[1..][i]) {
        assert tables[1..][i] == tables[i + 1];
      }
      WalkComplete(tables[1..], limit, p.next, k);
    }
  }

  // ---------------------------------------------------------------- a table that stays the same

  predicate Above(a: Key, b: Key) {
    Below(b, a)
  }

  /** There is one descending list of given keys. */
  lemma SameList(a: seq<Key>, b: seq<Key>)
    requires Descends(a) && Descends(b) && forall k :: k in a <==> k in b
    ensures a == b
  {
    forall x: Key, y: Key ensures Above(x, y) ==> !Above(y, x) {
      BelowTotal(x, y);
    }
    SameOrder(a, b, Above);
  }

  /** What is eligible below the last row of a page. */
  lemma EligibleBelow(t: Table, before: Option<Key>, last: Key, k: Key)
    requires last in Eligible(t, before)
    ensures k in Eligible(t, Some(last)) <==> k in Eligible(t, before) && Below(k, last)
  {
    if before.Some? && Below(k, last) {
      BelowTransitive(k, last, before.value);
    }
  }

  /** A page's cursor is one of the rows it could show. */
  lemma NextIsEligible(t: Table, limit: nat, before: Option<Key>)
    requires limit >= 1 && ListPage(t, limit, before).next.Some?
    ensures ListPage(t, limit, before).next.value in Eligible(t, before)
  {
    PageFront(t, limit, before);
    var all := Descending(Eligible(t, before));
    assert all[limit - 1] in all;
  }

  lemma RowsAfter(t: Table, before: Option<Key>, all: seq<Key>, n: nat)
    requires all == Descending(Eligible(t, before)) && n < |all|
    ensures forall k :: k in all[n + 1..] <==> k in Eligible(t, Some(all[n]))
  {
    assert all[n] in all;
    forall k ensures k in all[n + 1..] <==> k in Eligible(t, Some(all[n])) {
      BelowIsAfter(all, n, k);
      EligibleBelow(t, before, all[n], k);
    }
  }

  /** The rows below the last row of a page are the rows after it. */
  lemma NextPage(t: Table, limit: nat, before: Option<Key>)
    requires limit >= 1 && ListPage(t, limit, before).next.Some?
    ensures var all := Descending(Eligible(t, before));
            var p := ListPage(t, limit, before);
            |all| > limit && p.docs == all[..limit] && Descending(Eligible(t, p.next)) == all[limit..]
  {
    PageFront(t, limit, before);
    var all := Descending(Eligible(t, before));
    RowsAfter(t, before, all, limit - 1);
    SameList(all[limit..], Descending(Eligible(t, Some(all[limit - 1]))));
  }

  /** `max(1, ceil(n / limit))`. */
  function PageCount(n: nat, limit: nat): (m: nat)
    requires limit >= 1
    ensures m >= 1
  {
    if n <= limit then 1 else 1 + PageCount(n - limit, limit)
  }

  lemma {:induction false} PageCountRoundsUp(n: nat, limit: nat)
    requires limit >= 1
    ensures n <= PageCount(n, limit) * limit
    ensures n > 0 ==> (PageCount(n, limit) - 1) * limit < n
  {
    if n > limit {
      PageCountRoundsUp(n - limit, limit);
      var m := PageCount(n - limit, limit);
      assert (1 + m) * limit == limit + m * limit;
      assert m * limit == limit + (m - 1) * limit;
    }
  }

  lemma SplitAt(all: seq<Key>, n: nat)
    requires n <= |all|
    ensures all[..n] + all[n..] == all
  {
  }

  /** A list cut into pages. */
  function Cut(all: seq<Key>, limit: nat): seq<Page>
    requires limit >= 1
    decreases |all|
  {
    if |all| <= limit then [Page(all, None)]
    else [Page(all[..limit], Some(all[limit - 1]))] + Cut(all[limit..], limit)
  }

  lemma PageCountMore(n: nat, limit: nat, left: nat)
    requires limit >= 1 && n > limit && left == n - limit
    ensures PageCount(n, limit) == 1 + PageCount(left, limit)
  {
  }

  lemma {:induction false} CutIsWhole(all: seq<Key>, limit: nat)
    requires limit >= 1
    ensures Completed(Cut(all, limit)) && Docs(Cut(all, limit)) == all && |Cut(all, limit)| == PageCount(|all|, limit)
    decreases |all|
  {
    if |all| <= limit {
      DocsCons(Page(all, None), []);
    } else {
      CutIsWhole(all[limit..], limit);
      DocsCons(Page(all[..limit], Some(all[limit - 1])), Cut(all[limit..], limit));
      SplitAt(all, limit);
      PageCountMore(|all|, limit, |all[limit..]|);
    }
  }

  lemma CutFront(t: Table, limit: nat, before: Option<Key>, all: seq<Key>) returns (rest: seq<Key>)
    requires limit >= 1 && all == Descending(Eligible(t, before))
    ensures var p := ListPage(t, limit, before);
            && (p.next.None? ==> Cut(all, limit) == [p])
            && (p.next.Some? ==> rest == Descending(Eligible(t, p.next)) && Cut(all, limit) == [p] + Cut(rest, limit))
  {
    PageFront(t, limit, before);
    rest := if |all| > limit then all[limit..] else [];
    if ListPage(t, limit, before).next.Some? {
      NextPage(t, limit, before);
    }
  }

  ghost predicate Fixed(tables: seq<Table>, t: Table) {
    forall i :: 0 <= i < |tables| ==> tables[i] == t
  }

  lemma FixedRest(tables: seq<Table>, t: Table)
    requires tables != [] && Fixed(tables, t)
    ensures tables[0] == t && Fixed(tables[1..], t)
  {
  }

  lemma {:induction false} FixedTableCut(tables: seq<Table>, t: Table, limit: nat, before: Option<Key>, all: seq<Key>)
    requires limit >= 1 && Fixed(tables, t)
    requires all == Descending(Eligible(t, before)) && |tables| >= |Cut(all, limit)|
    ensures Walk(tables, limit, before) == Cut(all, limit)
    decreases |tables|
  {
    var p := ListPage(t, limit, before);
    var rest := CutFront(t, limit, before, all);
    if p.next.Some? {
      FixedRest(tables, t);
      FixedTableCut(tables[1..], t, limit, p.next, rest);
    }
  }

  /** A walk over a table that stays the same returns the whole list in order, in `max(1, ceil(n / limit))`
      pages. */
  lemma FixedTableWalk(tables: seq<Table>, t: Table, limit: nat)
    requires limit >= 1 && Fixed(tables, t)
    requires |tables| >= PageCount(|Listed(t)|, limit)
    ensures var pages := Walk(tables, limit, None);
            && Completed(pages)
            && Docs(pages) == Descending(Listed(t))
            && |pages| == PageCount(|Listed(t)|, limit)
  {
    assert Eligible(t, None) == Listed(t);
    CutIsWhole(Descending(Eligible(t, None)), limit);
    FixedTableCut(tables, t, limit, None, Descending(Eligible(t, None)));
  }
}
