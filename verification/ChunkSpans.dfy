/** The recorded position of each chunk in its source document. */
module ChunkSpans {
  import opened Text
  import opened Chunking
  import opened ChunkPieces
  import opened ChunkProperties

  // ---------------------------------------------------------------- any chunks at all

  ghost predicate OccursFrom(text: string, needle: string, from: nat) {
    exists i: nat :: from <= i && OccursAt(text, needle, i)
  }

  /** A record of `c.text` made while scanning from `cursor`: never before it, as long as the chunk,
      pointing at the chunk exactly if the chunk occurs at or after `cursor`, and then at its first
      occurrence; otherwise left at `cursor`. */
  ghost predicate WellLocated(text: string, c: Chunk, cursor: nat) {
    && cursor <= c.charStart
    && c.charEnd == c.charStart + |c.text|
    && (OccursAt(text, c.text, c.charStart) <==> OccursFrom(text, c.text, cursor))
    && (forall i :: cursor <= i < c.charStart ==> !OccursAt(text, c.text, i))
    && (!OccursAt(text, c.text, c.charStart) ==> c.charStart == cursor)
  }

  ghost predicate AllWellLocated(text: string, out: seq<Chunk>, cursor: nat)
    decreases |out|
  {
    out == [] || (WellLocated(text, out[0], cursor) && AllWellLocated(text, out[1..], out[0].charStart))
  }

  /** Scanning forward locates any list of non-empty chunks as well as it can be: starts never
      decrease, and a span mismatches exactly when its chunk does not occur at or after the previous
      start. */
  lemma {:induction false} LocatedWell(text: string, chunks: seq<string>, cursor: nat)
    requires forall c :: c in chunks ==> c != ""
    ensures AllWellLocated(text, Located(text, chunks, cursor), cursor)
    decreases |chunks|
  {
    if chunks != [] {
      var found := FindFrom(text, chunks[0], cursor);
      var out := Located(text, chunks, cursor);
      assert chunks[0] in chunks;
      assert forall c :: c in chunks[1..] ==> c in chunks;
      LocatedWell(text, chunks[1..], out[0].charStart);
      assert out[1..] == Located(text, chunks[1..], out[0].charStart);
    }
  }

  lemma SpansWellLocated(text: string, size: nat, overlap: nat)
    ensures AllWellLocated(text, Located(text, Chunks(text, size, overlap), 0), 0)
  {
    forall c | c in Chunks(text, size, overlap) ensures c != "" {
      var w := ChunkIsTrimmedRun(text, size, overlap, c);
    }
    LocatedWell(text, Chunks(text, size, overlap), 0);
  }

  // ---------------------------------------------------------------- when nothing was dropped

  predicate Contiguous(spans: seq<Span>, lo: nat, hi: nat)
    decreases |spans|
  {
    if spans == [] then lo == hi
    else spans[0].lo == lo <= spans[0].hi && Contiguous(spans[1..], spans[0].hi, hi)
  }

  lemma {:induction false} TilesLength(text: string, size: nat, lo: nat, hi: nat, spans: seq<Span>)
    requires lo <= hi <= |text| && InRange(text, spans) && Tiles(text, size, lo, hi, spans)
    ensures |Concat(Slices(text, spans))| <= hi - lo
    ensures |Concat(Slices(text, spans))| == hi - lo ==> Contiguous(spans, lo, hi)
    decreases |spans|
  {
    if spans != [] {
      TilesLength(text, size, spans[0].hi, hi, spans[1..]);
    }
  }

  /** Where piece `j` starts; past the last piece, the end of the text. */
  function Offset(text: string, spans: seq<Span>, j: nat): nat
    requires j <= |spans|
  {
    if j < |spans| then spans[j].lo else |text|
  }

  lemma {:induction false} ContiguousNext(spans: seq<Span>, lo: nat, hi: nat, j: nat)
    requires Contiguous(spans, lo, hi) && j < |spans|
    ensures spans[j].lo <= spans[j].hi
    ensures spans[j].hi == if j + 1 < |spans| then spans[j + 1].lo else hi
    decreases j
  {
    if j > 0 {
      ContiguousNext(spans[1..], spans[0].hi, hi, j - 1);
    }
  }

  lemma {:induction false} ContiguousRun(text: string, spans: seq<Span>, lo: nat, hi: nat)
    requires InRange(text, spans) && Contiguous(spans, 0, |text|) && lo <= hi <= |spans|
    ensures |Slices(text, spans)| == |spans|
    ensures Offset(text, spans, lo) <= Offset(text, spans, hi) <= |text|
    ensures Concat(Slices(text, spans)[lo..hi]) == text[Offset(text, spans, lo)..Offset(text, spans, hi)]
    decreases hi
  {
    SlicesLength(text, spans);
    if lo < hi {
      var pieces := Slices(text, spans);
      ContiguousRun(text, spans, lo, hi - 1);
      ContiguousNext(spans, 0, |text|, hi - 1);
      SlicesIndex(text, spans, hi - 1);
      SliceSnoc(pieces, lo, hi - 1);
      ConcatSnoc(pieces[lo..hi - 1], pieces[hi - 1]);
      var a, b, c := Offset(text, spans, lo), Offset(text, spans, hi - 1), Offset(text, spans, hi);
      assert text[a..b] + text[b..c] == text[a..c];
    }
  }

  lemma ForwardInSlice(text: string, x: nat, y: nat)
    requires x <= y <= |text|
    ensures SkipForward(text[x..y], 0, y - x) == SkipForward(text, x, y) - x
  {
    var part := text[x..y];
    var p, q := SkipForward(part, 0, y - x), SkipForward(text, x, y);
    assert forall i :: 0 <= i < y - x ==> part[i] == text[x + i];
    assert p + x <= q by {
      assert p < y - x ==> text[x + p] == part[p];
    }
    assert q - x <= p by {
      assert q < y ==> part[q - x] == text[q];
    }
  }

  lemma BackwardInSlice(text: string, x: nat, y: nat, from: nat)
    requires x <= from <= y <= |text|
    ensures SkipBackward(text[x..y], from - x, y - x) == SkipBackward(text, from, y) - x
  {
    var part := text[x..y];
    var p, q := SkipBackward(part, from - x, y - x), SkipBackward(text, from, y);
    assert forall i :: 0 <= i < y - x ==> part[i] == text[x + i];
    assert q - x <= p by {
      assert q > from ==> part[q - 1 - x] == text[q - 1];
    }
    assert p <= q - x by {
      assert p > from - x ==> text[x + p - 1] == part[p - 1];
    }
  }

  lemma TrimBounds(text: string, x: nat, y: nat, part: string, a: nat, b: nat)
    requires x <= y <= |text| && part == text[x..y]
    requires a == SkipForward(text, x, y) && b == SkipBackward(text, a, y)
    ensures a - x == SkipForward(part, 0, |part|) && b - x == SkipBackward(part, a - x, |part|)
  {
    ForwardInSlice(text, x, y);
    BackwardInSlice(text, x, y, a);
  }

  lemma TrimIs(s: string, a: nat, b: nat)
    requires a == SkipForward(s, 0, |s|) && b == SkipBackward(s, a, |s|)
    ensures Trim(s) == s[a..b]
  {
  }

  lemma SliceOfSlice(text: string, x: nat, y: nat, a: nat, b: nat)
    requires x <= a <= b <= y <= |text|
    ensures text[x..y][a - x..b - x] == text[a..b]
  {
    assert forall k :: 0 <= k < b - a ==> text[x..y][a - x..b - x][k] == text[a..b][k];
  }

  /** The trim of a slice of the text is itself a slice of the text, at its first ink. */
  lemma TrimOfSlice(text: string, x: nat, y: nat)
    requires x <= y <= |text|
    ensures var a := SkipForward(text, x, y);
            Trim(text[x..y]) == text[a..SkipBackward(text, a, y)]
  {
    var a := SkipForward(text, x, y);
    var b := SkipBackward(text, a, y);
    TrimBounds(text, x, y, text[x..y], a, b);
    TrimIs(text[x..y], a - x, b - x);
    SliceOfSlice(text, x, y, a, b);
  }

  lemma {:induction false} SkipForwardFrom(text: string, x: nat, y: nat)
    requires x <= y <= |text|
    ensures SkipForward(text, x, |text|) <= SkipForward(text, y, |text|)
    ensures SkipForward(text, x, y) < y ==> SkipForward(text, x, y) == SkipForward(text, x, |text|)
    decreases y - x
  {
    if x < y && IsWhitespace(text[x]) {
      SkipForwardFrom(text, x + 1, y);
    }
  }

  ghost predicate AllVerbatim(text: string, out: seq<Chunk>) {
    forall k :: 0 <= k < |out| ==> OccursAt(text, out[k].text, out[k].charStart)
  }

  lemma LocatedCons(text: string, c: string, rest: seq<string>, cursor: nat)
    requires FindFrom(text, c, cursor).Some?
    requires AllVerbatim(text, Located(text, rest, FindFrom(text, c, cursor).value))
    ensures AllVerbatim(text, Located(text, [c] + rest, cursor))
  {
    assert ([c] + rest)[1..] == rest;
  }

  /** Where a run of pieces lies when the pieces are the text. */
  lemma RunAt(text: string, spans: seq<Span>, from: nat, w: Span, cursor: nat)
    requires InRange(text, spans) && Contiguous(spans, 0, |text|) && |Slices(text, spans)| == |spans|
    requires from <= w.lo < w.hi <= |spans|
    requires Offset(text, spans, from) <= |text| && cursor <= SkipForward(text, Offset(text, spans, from), |text|)
    ensures var x, y := Offset(text, spans, w.lo), Offset(text, spans, w.hi);
            x <= y <= |text| && cursor <= SkipForward(text, x, |text|)
            && Concat(Slices(text, spans)[w.lo..w.hi]) == text[x..y]
  {
    ContiguousRun(text, spans, from, w.lo);
    ContiguousRun(text, spans, w.lo, w.hi);
    SkipForwardFrom(text, Offset(text, spans, from), Offset(text, spans, w.lo));
  }

  /** The trim of a slice, if anything is left, is found where the slice has its first ink, or before. */
  lemma TrimFound(text: string, x: nat, y: nat, c: string, cursor: nat)
    requires x <= y <= |text| && c == Trim(text[x..y]) && c != "" && cursor <= SkipForward(text, x, |text|)
    ensures FindFrom(text, c, cursor).Some? && FindFrom(text, c, cursor).value <= SkipForward(text, x, |text|)
  {
    TrimOfSlice(text, x, y);
    SkipForwardFrom(text, x, y);
    assert OccursAt(text, c, SkipForward(text, x, y));
  }

  lemma {:induction false} RunsVerbatim(text: string, spans: seq<Span>, ws: seq<Span>, from: nat, reach: nat, cursor: nat)
    requires InRange(text, spans) && Contiguous(spans, 0, |text|) && |Slices(text, spans)| == |spans|
    requires Within(ws, |spans|) && from <= |spans| && Chain(ws, from, reach, |spans|)
    requires Offset(text, spans, from) <= |text| && cursor <= SkipForward(text, Offset(text, spans, from), |text|)
    ensures AllVerbatim(text, Located(text, Render(Slices(text, spans), ws), cursor))
    decreases |ws|
  {
    if ws != [] {
      var pieces, w := Slices(text, spans), ws[0];
      var c := Rendered(pieces, w);
      RunAt(text, spans, from, w, cursor);
      if c == "" {
        RunsVerbatim(text, spans, ws[1..], w.lo, w.hi, cursor);
      } else {
        TrimFound(text, Offset(text, spans, w.lo), Offset(text, spans, w.hi), c, cursor);
        RunsVerbatim(text, spans, ws[1..], w.lo, w.hi, FindFrom(text, c, cursor).value);
        LocatedCons(text, c, Render(pieces, ws[1..]), cursor);
      }
    }
  }

  /** If splitting dropped nothing, every recorded span holds exactly its chunk. */
  lemma SpansVerbatim(text: string, size: nat, overlap: nat)
    requires size >= 1 && Concat(Slices(text, Pieces(text, size, 0))) == text
    ensures AllVerbatim(text, Located(text, Chunks(text, size, overlap), 0))
  {
    if !IsBlank(text) {
      var spans := Pieces(text, size, 0);
      PiecesTile(text, size, 0);
      TilesLength(text, size, 0, |text|, spans);
      SlicesLength(text, spans);
      var pieces := Slices(text, spans);
      WindowsChain(pieces, size, overlap, 0, 0, 0, 0);
      RunsVerbatim(text, spans, Windows(pieces, size, overlap, 0, 0), 0, 0, 0);
    }
  }

  // ---------------------------------------------------------------- chunk by chunk

  /** No whitespace was dropped between the pieces `f` and `l`. */
  predicate Joined(spans: seq<Span>, f: nat, l: nat)
    requires f <= l < |spans|
  {
    forall i :: f <= i < l ==> spans[i].hi == spans[i + 1].lo
  }

  /** The pieces `f` to `l` together are the text between their ends if nothing was dropped, and else are
      shorter. */
  lemma {:induction false} RunOfText(text: string, size: nat, spans: seq<Span>, f: nat, l: nat)
    requires InRange(text, spans) && Tiles(text, size, 0, |text|, spans) && f <= l < |spans| == |Slices(text, spans)|
    ensures spans[f].lo <= spans[l].hi
    ensures var run := Concat(Slices(text, spans)[f..l + 1]);
            if Joined(spans, f, l) then run == text[spans[f].lo..spans[l].hi] else |run| < spans[l].hi - spans[f].lo
    decreases l
  {
    var pieces := Slices(text, spans);
    SlicesIndex(text, spans, l);
    TilesBounds(text, size, 0, |text|, spans, l);
    SliceSnoc(pieces, f, l);
    ConcatSnoc(pieces[f..l], pieces[l]);
    if f < l {
      RunOfText(text, size, spans, f, l - 1);
      if Joined(spans, f, l) {
        assert text[spans[f].lo..spans[l].hi] == text[spans[f].lo..spans[l].lo] + text[spans[l].lo..spans[l].hi];
      } else if Joined(spans, f, l - 1) {
        assert spans[l - 1].hi != spans[l].lo;
      }
    } else {
      assert pieces[f..l] == [] && "" + pieces[l] == pieces[l];
    }
  }

  lemma TrimBetween(s: string, p: nat, e: nat)
    requires p < e <= |s| && Blank(s, 0, p) && !IsWhitespace(s[p]) && Blank(s, e, |s|) && !IsWhitespace(s[e - 1])
    ensures Trim(s) == s[p..e]
  {
    TrimIs(s, p, e);
  }

  lemma BlankUpTo(before: string, run: string, after: string, p: nat)
    requires IsBlank(before) && p < |run| && Blank(run, 0, p)
    ensures Blank(before + run + after, 0, |before| + p)
    ensures (before + run + after)[|before| + p] == run[p]
  {
    var s, n := before + run + after, |before|;
    forall i | 0 <= i < n + p ensures IsWhitespace(s[i]) {
      assert s[i] == if i < n then before[i] else run[i - n];
    }
  }

  lemma MiddleAt(before: string, run: string, after: string, p: nat, e: nat)
    requires p < e <= |run|
    ensures (before + run + after)[|before| + p..|before| + e] == run[p..e]
    ensures (before + run + after)[|before| + e - 1] == run[e - 1]
  {
  }

  /** What trimming leaves of a run between blank pieces. */
  lemma TrimOfRun(before: string, run: string, after: string, p: nat, e: nat)
    requires IsBlank(before) && IsBlank(after) && p < e <= |run|
    requires Blank(run, 0, p) && !IsWhitespace(run[p]) && Blank(run, e, |run|) && !IsWhitespace(run[e - 1])
    ensures Trim(before + run + after) == run[p..e]
  {
    var s, n := before + run + after, |before|;
    BlankUpTo(before, run, after, p);
    InkAfter(before, run, after, e - 1);
    MiddleAt(before, run, after, p, e);
    TrimBetween(s, n + p, n + e);
  }

  lemma RunStarts(run: string, piece: string, rest: string, p: nat)
    requires run == "" + piece + rest && p < |piece| && Blank(piece, 0, p) && !IsWhitespace(piece[p])
    ensures p < |run| && Blank(run, 0, p) && !IsWhitespace(run[p])
  {
    assert forall i :: 0 <= i < |piece| ==> run[i] == piece[i];
  }

  lemma RunEnds(run: string, front: string, piece: string, e: nat)
    requires run == front + piece + "" && 0 < e <= |piece| && Blank(piece, e, |piece|) && !IsWhitespace(piece[e - 1])
    ensures var n := |run| - (|piece| - e); 0 < n <= |run| && Blank(run, n, |run|) && !IsWhitespace(run[n - 1])
  {
    assert forall i :: 0 <= i < |piece| ==> run[|front| + i] == piece[i];
    assert forall i :: |front| + e <= i < |run| ==> run[i] == piece[i - |front|];
  }

  /** Where a run has its first ink, when its first piece has some. */
  lemma InkAtStart(text: string, spans: seq<Span>, f: nat, l: nat, run: string) returns (a: nat)
    requires InRange(text, spans) && f <= l < |spans| == |Slices(text, spans)|
    requires !IsBlank(Slices(text, spans)[f]) && run == Concat(Slices(text, spans)[f..l + 1])
    ensures a == SkipForward(text, spans[f].lo, spans[f].hi) < spans[f].hi
    ensures var p := a - spans[f].lo; p < |run| && Blank(run, 0, p) && !IsWhitespace(run[p])
  {
    var pieces := Slices(text, spans);
    SlicesIndex(text, spans, f);
    var b: nat;
    a, b := InkOfPiece(text, spans[f], pieces[f]);
    SliceAround(pieces, f, f, l + 1);
    assert pieces[f..f] == [];
    RunStarts(run, pieces[f], Concat(pieces[f + 1..l + 1]), a - spans[f].lo);
  }

  lemma InkAtEnd(text: string, spans: seq<Span>, f: nat, l: nat, run: string) returns (b: nat)
    requires InRange(text, spans) && f <= l < |spans| == |Slices(text, spans)|
    requires !IsBlank(Slices(text, spans)[l]) && run == Concat(Slices(text, spans)[f..l + 1])
    ensures b == SkipBackward(text, spans[l].lo, spans[l].hi) > spans[l].lo
    ensures var e := |run| - (spans[l].hi - b); 0 < e <= |run| && Blank(run, e, |run|) && !IsWhitespace(run[e - 1])
  {
    var pieces := Slices(text, spans);
    SlicesIndex(text, spans, l);
    var a: nat;
    a, b := InkOfPiece(text, spans[l], pieces[l]);
    SliceAround(pieces, f, l, l + 1);
    assert pieces[l + 1..l + 1] == [];
    RunEnds(run, Concat(pieces[f..l]), pieces[l], b - spans[l].lo);
  }

  lemma SliceThree(pieces: seq<string>, lo: nat, f: nat, l: nat, hi: nat)
    requires lo <= f <= l < hi <= |pieces|
    ensures Concat(pieces[lo..hi]) == Concat(pieces[lo..f]) + Concat(pieces[f..l + 1]) + Concat(pieces[l + 1..hi])
  {
    var a, b, c := pieces[lo..f], pieces[f..l + 1], pieces[l + 1..hi];
    assert pieces[lo..hi] == a + b + c;
    ConcatAppend(a + b, c);
    ConcatAppend(a, b);
  }

  lemma OrderedInk(run: string, p: nat, e: nat)
    requires p < |run| && !IsWhitespace(run[p]) && 0 < e <= |run| && Blank(run, e, |run|)
    ensures p < e
  {
  }

  lemma InkSlice(text: string, lo: nat, hi: nat, run: string, a: nat, b: nat)
    requires lo <= a < b <= hi <= |text| && run == text[lo..hi]
    ensures run[a - lo..|run| - (hi - b)] == text[a..b]
  {
    SliceOfSlice(text, lo, hi, a, b);
  }

  /** What is left of a run between its ink, against the text between the same two positions. */
  lemma RunVerbatimIff(text: string, size: nat, spans: seq<Span>, f: nat, l: nat, run: string, a: nat, b: nat)
    requires InRange(text, spans) && Tiles(text, size, 0, |text|, spans) && f <= l < |spans| == |Slices(text, spans)|
    requires run == Concat(Slices(text, spans)[f..l + 1])
    requires spans[f].lo <= a < spans[f].hi && spans[l].lo < b <= spans[l].hi && a < b
    requires var p, e := a - spans[f].lo, |run| - (spans[l].hi - b); p < e <= |run|
    ensures run[a - spans[f].lo..|run| - (spans[l].hi - b)] == text[a..b] <==> Joined(spans, f, l)
  {
    RunOfText(text, size, spans, f, l);
    if Joined(spans, f, l) {
      InkSlice(text, spans[f].lo, spans[l].hi, run, a, b);
    }
  }

  lemma InkOrdered(text: string, size: nat, spans: seq<Span>, f: nat, l: nat, a: nat, b: nat)
    requires InRange(text, spans) && Tiles(text, size, 0, |text|, spans) && f <= l < |spans|
    requires a == SkipForward(text, spans[f].lo, spans[f].hi) < spans[f].hi
    requires b == SkipBackward(text, spans[l].lo, spans[l].hi) > spans[l].lo
    ensures a < b <= |text|
  {
    if f < l {
      TilesOrdered(text, size, spans, f, l);
    } else {
      assert !IsWhitespace(text[a]);
    }
  }

  lemma TrimmedRun(text: string, size: nat, spans: seq<Span>, w: Span, f: nat, l: nat) returns (a: nat, b: nat)
    requires InRange(text, spans) && Tiles(text, size, 0, |text|, spans)
    requires w.lo <= f <= l < w.hi <= |spans| == |Slices(text, spans)|
    requires !IsBlank(Slices(text, spans)[f]) && IsBlank(Concat(Slices(text, spans)[w.lo..f]))
    requires !IsBlank(Slices(text, spans)[l]) && IsBlank(Concat(Slices(text, spans)[l + 1..w.hi]))
    ensures a == SkipForward(text, spans[f].lo, spans[f].hi) && b == SkipBackward(text, spans[l].lo, spans[l].hi)
    ensures a < b <= |text|
    ensures Trim(Concat(Slices(text, spans)[w.lo..w.hi])) == text[a..b] <==> Joined(spans, f, l)
  {
    var pieces := Slices(text, spans);
    var run := Concat(pieces[f..l + 1]);
    a := InkAtStart(text, spans, f, l, run);
    b := InkAtEnd(text, spans, f, l, run);
    var p, e := a - spans[f].lo, |run| - (spans[l].hi - b);
    OrderedInk(run, p, e);
    InkOrdered(text, size, spans, f, l, a, b);
    SliceThree(pieces, w.lo, f, l, w.hi);
    TrimOfRun(Concat(pieces[w.lo..f]), run, Concat(pieces[l + 1..w.hi]), p, e);
    RunVerbatimIff(text, size, spans, f, l, run, a, b);
  }

  /** The chunk `c` is the trim of the window `w` of pieces; with `f` and `l` the first and the last of them
      that are not blank, its ink in the text begins at `a` and ends before `b`. */
  ghost predicate InkedFrom(text: string, size: nat, overlap: nat, c: string, w: Span, f: nat, l: nat, a: nat, b: nat)
    requires size > 0
  {
    var spans := Pieces(text, size, 0);
    var pieces := Slices(text, spans);
    && w in Windows(pieces, size, overlap, 0, 0)
    && w.lo <= f <= l < w.hi <= |spans| == |pieces| && c == Trim(Concat(pieces[w.lo..w.hi]))
    && !IsBlank(pieces[f]) && IsBlank(Concat(pieces[w.lo..f])) && a == SkipForward(text, spans[f].lo, spans[f].hi)
    && !IsBlank(pieces[l]) && IsBlank(Concat(pieces[l + 1..w.hi])) && b == SkipBackward(text, spans[l].lo, spans[l].hi)
  }

  /** A chunk is the slice of the text between its own ends exactly when no whitespace was dropped between
      the pieces of its run. */
  lemma ChunkVerbatimIff(text: string, size: nat, overlap: nat, c: string)
    returns (w: Span, f: nat, l: nat, a: nat, b: nat)
    requires c in Chunks(text, size, overlap)
    ensures size > 0 && InkedFrom(text, size, overlap, c, w, f, l, a, b) && a < b <= |text|
    ensures c == text[a..b] <==> Joined(Pieces(text, size, 0), f, l)
  {
    var spans := Pieces(text, size, 0);
    w := ChunkIsTrimmedRun(text, size, overlap, c);
    f, l := InkedEnds(Slices(text, spans), w);
    SlicesLength(text, spans);
    PiecesTile(text, size, 0);
    a, b := TrimmedRun(text, size, spans, w, f, l);
  }

  // ---------------------------------------------------------------- when something was

  lemma OccursChar(text: string, needle: string, i: nat, k: nat)
    requires k < |needle|
    ensures OccursAt(text, needle, i) ==> text[i + k] == needle[k]
  {
    if OccursAt(text, needle, i) {
      assert text[i..i + |needle|][k] == text[i + k];
    }
  }

  lemma FoundAt(text: string, needle: string, from: nat, p: nat)
    requires needle != "" && from <= p && OccursAt(text, needle, p)
    requires forall i :: from <= i < p ==> text[i] != needle[0]
    ensures FindFrom(text, needle, from) == Some(p)
  {
    forall i | from <= i < p ensures !OccursAt(text, needle, i) {
      OccursChar(text, needle, i, 0);
    }
    FindIs(text, needle, from, p);
  }

  lemma DroppedSlices(text: string)
    requires text == "ab\n\n\n\ncd"
    ensures Slices(text, [Span(0, 4), Span(6, 8)]) == ["ab\n\n", "cd"]
  {
    SlicesOne(text, Span(0, 4));
    SlicesOne(text, Span(6, 8));
    SlicesAppend(text, [Span(0, 4)], [Span(6, 8)]);
    assert text[0..4] == "ab\n\n" && text[6..8] == "cd";
  }

  lemma DroppedPieces(text: string)
    requires text == "ab\n\n\n\ncd"
    ensures Pieces(text, 6, 0) == [Span(0, 4), Span(6, 8)]
    ensures Slices(text, Pieces(text, 6, 0)) == ["ab\n\n", "cd"]
  {
    var sep := "\n\n";
    assert text[2..4] == sep && text[4..6] == sep;
    FoundAt(text, sep, 0, 2);
    FoundAt(text, sep, 4, 4);
    assert FindFrom(text, sep, 6).None?;
    assert OnePart(text, 6, 0, 6, 8) == [Span(6, 8)] by {
      assert !IsWhitespace(text[6]);
    }
    assert PartPieces(text, 6, 0, 6) == [Span(6, 8)];
    assert PartPieces(text, 6, 0, 4) == [] + [Span(6, 8)];
    assert OnePart(text, 6, 0, 0, 4) == [Span(0, 4)] by {
      assert !IsWhitespace(text[0]);
    }
    assert PartPieces(text, 6, 0, 0) == [Span(0, 4)] + [Span(6, 8)];
    DroppedSlices(text);
  }

  lemma DroppedMerge(pieces: seq<string>)
    requires pieces == ["ab\n\n", "cd"]
    ensures Merge(pieces, 6, 0) == ["ab\n\ncd"]
  {
    assert Total(pieces, 0, 0) == 0;
    assert Total(pieces, 0, 1) == 4;
    assert Windows(pieces, 6, 0, 0, 2) == [Span(0, 2)];
    assert Windows(pieces, 6, 0, 0, 1) == [Span(0, 2)];
    assert Windows(pieces, 6, 0, 0, 0) == [Span(0, 2)];
    assert pieces[0..2] == ["ab\n\n"] + ["cd"];
    ConcatSnoc(["ab\n\n"], "cd");
    assert Concat(["ab\n\n"]) == "ab\n\n" + Concat([]);
    var c := "ab\n\ncd";
    assert Concat(pieces[0..2]) == c;
    assert !IsWhitespace(c[0]) && !IsWhitespace(c[5]);
    assert Rendered(pieces, Span(0, 2)) == c;
    assert Render(pieces, []) == [];
    assert [Span(0, 2)][1..] == [];
  }

  lemma DroppedChunks(text: string, c: string)
    requires text == "ab\n\n\n\ncd" && c == "ab\n\ncd"
    ensures Chunks(text, 6, 0) == [c]
  {
    DroppedPieces(text);
    DroppedMerge(["ab\n\n", "cd"]);
    assert !IsWhitespace(text[0]);
  }

  lemma LocatedOne(text: string, c: string)
    requires FindFrom(text, c, 0).None?
    ensures Located(text, [c], 0) == [Chunk(c, 0, |c|)]
  {
    assert [c][1..] == [] && Located(text, [], 0) == [];
  }

  lemma DroppedSpan(text: string, c: string)
    requires text == "ab\n\n\n\ncd" && c == "ab\n\ncd"
    ensures Located(text, [c], 0) == [Chunk(c, 0, 6)] && text[0..6] != c
  {
    assert text[0..6] != c by {
      assert text[0..6][4] == '\n';
    }
    forall i: nat ensures !OccursAt(text, c, i) {
      OccursChar(text, c, i, 0);
      OccursChar(text, c, i, 4);
    }
    assert FindFrom(text, c, 0).None?;
    LocatedOne(text, c);
  }

  /** Chunks are not always verbatim: four newlines between two words lose the middle two, and the
      span of the chunk that joins the words then points at text it does not hold. */
  lemma DroppedWhitespaceMismatch()
    ensures var text, c := "ab\n\n\n\ncd", "ab\n\ncd";
            && Chunks(text, 6, 0) == [c]
            && Located(text, Chunks(text, 6, 0), 0) == [Chunk(c, 0, 6)]
            && text[0..6] != c
  {
    DroppedChunks("ab\n\n\n\ncd", "ab\n\ncd");
    DroppedSpan("ab\n\n\n\ncd", "ab\n\ncd");
  }
}
