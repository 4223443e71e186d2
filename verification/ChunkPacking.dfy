/** Packing is greedy on both sides: a run is closed only at a piece that does not fit, and the overlap
    takes back as many whole pieces as its budget allows. */
module ChunkPacking {
  import opened Text
  import opened Chunking
  import opened ChunkProperties

  /** The characters of `pieces[lo..hi]`. */
  function Length(pieces: seq<string>, lo: nat, hi: nat): nat
    requires lo <= hi <= |pieces|
  {
    |Concat(pieces[lo..hi])|
  }

  /** The run begins with pieces before `first` that the last run held too. It is closed because the next piece
      would exceed `size`, and never before: after its first new piece it always fits. */
  predicate Greedy(pieces: seq<string>, size: nat, w: Span, first: nat) {
    && w.lo <= first < w.hi <= |pieces|
    && (w.hi < |pieces| ==> Length(pieces, w.lo, w.hi + 1) > size)
    && forall j :: first + 1 < j <= w.hi ==> Length(pieces, w.lo, j) <= size
  }

  /** `w` takes back from `last` what fits `overlap`, and one piece more would not. */
  predicate TakesBack(pieces: seq<string>, overlap: nat, last: Span, w: Span) {
    && last.lo <= w.lo <= last.hi <= |pieces| && Length(pieces, w.lo, last.hi) <= overlap
    && (last.lo < w.lo ==> Length(pieces, w.lo - 1, last.hi) > overlap)
  }

  predicate Packed(pieces: seq<string>, size: nat, overlap: nat, first: nat, ws: seq<Span>)
    decreases |ws|
  {
    ws == []
    || (&& Greedy(pieces, size, ws[0], first)
        && (|ws| > 1 ==> TakesBack(pieces, overlap, ws[0], ws[1]))
        && Packed(pieces, size, overlap, ws[0].hi, ws[1..]))
  }

  lemma {:induction false} CarryMaximal(pieces: seq<string>, lo: nat, hi: nat, budget: nat)
    requires lo <= hi <= |pieces|
    ensures var c := Carry(pieces, lo, hi, budget); lo < c ==> Total(pieces, c - 1, hi) > budget
    decreases hi
  {
    if lo < hi {
      var last := |pieces[hi - 1]|;
      if last > budget {
        assert Total(pieces, hi - 1, hi) == Total(pieces, hi - 1, hi - 1) + last;
      } else {
        CarryMaximal(pieces, lo, hi - 1, budget - last);
      }
    }
  }

  lemma CarryTakesBack(pieces: seq<string>, overlap: nat, lo: nat, i: nat, w: Span)
    requires lo <= i <= |pieces| && w.lo == Carry(pieces, lo, i, overlap)
    ensures TakesBack(pieces, overlap, Span(lo, i), w)
  {
    CarryWithin(pieces, lo, i, overlap);
    CarryMaximal(pieces, lo, i, overlap);
    TotalIsLength(pieces, w.lo, i);
    if lo < w.lo {
      TotalIsLength(pieces, w.lo - 1, i);
    }
  }

  /** Where the packing stands at piece `i`: the run `pieces[lo..i]`, whose first new piece is `first`. */
  ghost predicate Packing(pieces: seq<string>, size: nat, lo: nat, first: nat, i: nat) {
    && lo <= first <= i <= |pieces| && (lo < i ==> first < i)
    && forall j :: first + 1 < j <= i ==> Total(pieces, lo, j) <= size
  }

  lemma PackingIsGreedy(pieces: seq<string>, size: nat, lo: nat, first: nat, i: nat)
    requires lo < i && Packing(pieces, size, lo, first, i)
    requires i < |pieces| ==> Total(pieces, lo, i) + |pieces[i]| > size
    ensures Greedy(pieces, size, Span(lo, i), first)
  {
    if i < |pieces| {
      TotalIsLength(pieces, lo, i + 1);
    }
    forall j | first + 1 < j <= i ensures Length(pieces, lo, j) <= size {
      TotalIsLength(pieces, lo, j);
    }
  }

  lemma PackedCons(pieces: seq<string>, size: nat, overlap: nat, first: nat, w: Span, ws: seq<Span>)
    requires Greedy(pieces, size, w, first) && Packed(pieces, size, overlap, w.hi, ws)
    requires ws != [] ==> TakesBack(pieces, overlap, w, ws[0])
    ensures Packed(pieces, size, overlap, first, [w] + ws)
  {
    assert ([w] + ws)[1..] == ws;
  }

  lemma {:induction false} WindowsPacked(pieces: seq<string>, size: nat, overlap: nat, lo: nat, first: nat, i: nat)
    requires Packing(pieces, size, lo, first, i)
    ensures var ws := Windows(pieces, size, overlap, lo, i);
            Packed(pieces, size, overlap, first, ws) && (ws != [] ==> ws[0].lo == lo)
    decreases |pieces| - i
  {
    if i == |pieces| {
      if lo < i {
        PackingIsGreedy(pieces, size, lo, first, i);
        PackedCons(pieces, size, overlap, first, Span(lo, i), []);
      }
    } else if Total(pieces, lo, i) + |pieces[i]| > size && lo < i {
      var carry := Carry(pieces, lo, i, overlap);
      var ws := Windows(pieces, size, overlap, carry, i + 1);
      PackingIsGreedy(pieces, size, lo, first, i);
      WindowsPacked(pieces, size, overlap, carry, i, i + 1);
      if ws != [] {
        CarryTakesBack(pieces, overlap, lo, i, ws[0]);
      }
      PackedCons(pieces, size, overlap, first, Span(lo, i), ws);
    } else {
      WindowsPacked(pieces, size, overlap, lo, first, i + 1);
    }
  }

  /** The chunks are the trimmed runs of a greedy packing, blank ones left out. */
  lemma MergePacksGreedily(pieces: seq<string>, size: nat, overlap: nat) returns (ws: seq<Span>)
    ensures Packed(pieces, size, overlap, 0, ws) && Chain(ws, 0, 0, |pieces|)
    ensures Within(ws, |pieces|) && Merge(pieces, size, overlap) == Render(pieces, ws)
  {
    ws := Windows(pieces, size, overlap, 0, 0);
    WindowsPacked(pieces, size, overlap, 0, 0, 0);
    WindowsChain(pieces, size, overlap, 0, 0, 0, 0);
  }

  lemma SameEnd(pieces: seq<string>, size: nat, first: nat, v: Span, w: Span)
    requires Greedy(pieces, size, v, first) && Greedy(pieces, size, w, first) && v.lo == w.lo
    ensures v == w
  {
  }

  lemma {:induction false} LengthGrows(pieces: seq<string>, a: nat, b: nat, hi: nat)
    requires a <= b <= hi <= |pieces|
    ensures Length(pieces, a, hi) >= Length(pieces, b, hi)
  {
    assert pieces[a..hi] == pieces[a..b] + pieces[b..hi];
    ConcatAppend(pieces[a..b], pieces[b..hi]);
  }

  lemma SameBegin(pieces: seq<string>, overlap: nat, last: Span, v: Span, w: Span)
    requires TakesBack(pieces, overlap, last, v) && TakesBack(pieces, overlap, last, w)
    ensures v.lo == w.lo
  {
    if v.lo < w.lo {
      LengthGrows(pieces, v.lo, w.lo - 1, last.hi);
    } else if w.lo < v.lo {
      LengthGrows(pieces, w.lo, v.lo - 1, last.hi);
    }
  }

  /** There is one such packing: being greedy fixes the whole result. */
  lemma {:induction false} PackedUnique(pieces: seq<string>, size: nat, overlap: nat, first: nat, a: seq<Span>, b: seq<Span>)
    requires Packed(pieces, size, overlap, first, a) && Packed(pieces, size, overlap, first, b)
    requires a != [] && b != [] && a[0].lo == b[0].lo
    requires a[|a| - 1].hi == |pieces| && b[|b| - 1].hi == |pieces|
    ensures a == b
    decreases |a|
  {
    SameEnd(pieces, size, first, a[0], b[0]);
    if |a| > 1 && |b| > 1 {
      SameBegin(pieces, overlap, a[0], a[1], b[1]);
      PackedUnique(pieces, size, overlap, a[0].hi, a[1..], b[1..]);
      assert a == [a[0]] + a[1..] && b == [b[0]] + b[1..];
    } else if |a| > 1 || |b| > 1 {
      assert false;
    }
  }
}
