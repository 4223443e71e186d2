/** What the chunker promises: coverage, budgets, word boundaries and faithful spans. */
module ChunkProperties {
  import opened Text
  import opened Chunking
  import opened ChunkPieces

  // ---------------------------------------------------------------- runs of pieces

  /** Consecutive runs: each starts no later than the previous one ended, no earlier than it started,
      reaches further, and the last reaches `n`. */
  predicate Chain(ws: seq<Span>, from: nat, reach: nat, n: nat)
    decreases |ws|
  {
    if ws == [] then reach == n
    else from <= ws[0].lo <= reach < ws[0].hi <= n && Chain(ws[1..], ws[0].lo, ws[0].hi, n)
  }

  lemma {:induction false} WindowsChain(pieces: seq<string>, size: nat, overlap: nat, lo: nat, i: nat, from: nat, reach: nat)
    requires from <= lo <= reach <= i <= |pieces|
    requires lo == i ==> reach == i
    requires lo < i ==> reach < i
    ensures Chain(Windows(pieces, size, overlap, lo, i), from, reach, |pieces|)
    decreases |pieces| - i
  {
    if i == |pieces| {
      if lo < i {
        assert Windows(pieces, size, overlap, lo, i)[1..] == [];
      }
    } else if Total(pieces, lo, i) + |pieces[i]| > size && lo < i {
      var carry := Carry(pieces, lo, i, overlap);
      WindowsChain(pieces, size, overlap, carry, i + 1, lo, i);
      assert Windows(pieces, size, overlap, lo, i)[1..] == Windows(pieces, size, overlap, carry, i + 1);
    } else {
      WindowsChain(pieces, size, overlap, lo, i + 1, from, reach);
    }
  }

  lemma {:induction false} TotalIsLength(pieces: seq<string>, lo: nat, hi: nat)
    requires lo <= hi <= |pieces|
    ensures Total(pieces, lo, hi) == |Concat(pieces[lo..hi])|
    decreases hi
  {
    if lo < hi {
      TotalIsLength(pieces, lo, hi - 1);
      SliceSnoc(pieces, lo, hi - 1);
      ConcatSnoc(pieces[lo..hi - 1], pieces[hi - 1]);
    }
  }

  lemma {:induction false} RenderMember(pieces: seq<string>, ws: seq<Span>, c: string) returns (w: Span)
    requires Within(ws, |pieces|) && c in Render(pieces, ws)
    ensures w in ws && w.lo <= w.hi <= |pieces| && c == Rendered(pieces, w) && c != ""
    decreases |ws|
  {
    if Rendered(pieces, ws[0]) == c && c != "" {
      w := ws[0];
    } else {
      w := RenderMember(pieces, ws[1..], c);
    }
  }

  // ---------------------------------------------------------------- coverage

  /** Ranges that, in order, cover everything from `reach` to `n` with no gap. */
  predicate Covers(at: seq<Span>, reach: nat, n: nat)
    decreases |at|
  {
    if at == [] then reach == n
    else at[0].lo <= reach <= at[0].hi <= n && Covers(at[1..], at[0].hi, n)
  }

  /** Chunk by chunk, the chunk with whitespace erased is the named range of `ink`. */
  predicate Inked(chunks: seq<string>, at: seq<Span>, ink: string) {
    && |chunks| == |at|
    && forall k :: 0 <= k < |at| ==> at[k].lo <= at[k].hi <= |ink| && Erase(chunks[k]) == ink[at[k].lo..at[k].hi]
  }

  /** How much of the erased text lies in the first `i` pieces. */
  function Ink(pieces: seq<string>, i: nat): nat
    requires i <= |pieces|
  {
    |Erase(Concat(pieces[..i]))|
  }

  lemma InkOfRun(pieces: seq<string>, lo: nat, hi: nat)
    requires lo <= hi <= |pieces|
    ensures Ink(pieces, lo) <= Ink(pieces, hi) <= |Erase(Concat(pieces))|
    ensures Erase(Concat(pieces[lo..hi])) == Erase(Concat(pieces))[Ink(pieces, lo)..Ink(pieces, hi)]
  {
    var a, b, c := pieces[..lo], pieces[lo..hi], pieces[hi..];
    assert pieces[..hi] == a + b && pieces == a + b + c;
    ConcatAppend(a, b);
    ConcatAppend(a + b, c);
    EraseAppend(Concat(a), Concat(b));
    EraseAppend(Concat(a + b), Concat(c));
  }

  lemma InkOfWindow(pieces: seq<string>, w: Span) returns (s: Span)
    requires w.lo <= w.hi <= |pieces|
    ensures s == Span(Ink(pieces, w.lo), Ink(pieces, w.hi))
    ensures s.lo <= s.hi <= |Erase(Concat(pieces))| && Ink(pieces, |pieces|) == |Erase(Concat(pieces))|
    ensures Erase(Rendered(pieces, w)) == Erase(Concat(pieces))[s.lo..s.hi]
  {
    s := Span(Ink(pieces, w.lo), Ink(pieces, w.hi));
    InkOfRun(pieces, w.lo, w.hi);
    EraseTrim(Concat(pieces[w.lo..w.hi]));
    assert pieces[..|pieces|] == pieces;
  }

  lemma InkedCons(c: string, chunks: seq<string>, s: Span, at: seq<Span>, ink: string)
    requires Inked(chunks, at, ink) && s.lo <= s.hi <= |ink| && Erase(c) == ink[s.lo..s.hi]
    ensures Inked([c] + chunks, [s] + at, ink) && ([s] + at)[1..] == at
  {
    var longer, spans := [c] + chunks, [s] + at;
    forall k | 0 <= k < |spans| ensures spans[k].lo <= spans[k].hi <= |ink| && Erase(longer[k]) == ink[spans[k].lo..spans[k].hi] {
      if k > 0 {
        assert spans[k] == at[k - 1] && longer[k] == chunks[k - 1];
      }
    }
  }

  lemma {:induction false} RenderCovers(pieces: seq<string>, ws: seq<Span>, from: nat, reach: nat) returns (at: seq<Span>)
    requires Within(ws, |pieces|) && reach <= |pieces| && Chain(ws, from, reach, |pieces|)
    ensures Inked(Render(pieces, ws), at, Erase(Concat(pieces)))
    ensures Covers(at, Ink(pieces, reach), Ink(pieces, |pieces|))
    decreases |ws|
  {
    if ws == [] {
      at := [];
    } else {
      var w := ws[0];
      var rest := RenderCovers(pieces, ws[1..], w.lo, w.hi);
      InkOfRun(pieces, w.lo, reach);
      InkOfRun(pieces, reach, w.hi);
      var s := InkOfWindow(pieces, w);
      if Rendered(pieces, w) == "" {
        at := rest;
      } else {
        at := [s] + rest;
        InkedCons(Rendered(pieces, w), Render(pieces, ws[1..]), s, rest, Erase(Concat(pieces)));
      }
    }
  }

  /** With whitespace erased, every chunk is a contiguous slice of the text, and the chunks in order
      cover all of the text with no gap. */
  lemma ChunksCoverText(text: string, size: nat, overlap: nat) returns (at: seq<Span>)
    requires size >= 1
    ensures Inked(Chunks(text, size, overlap), at, Erase(text))
    ensures Covers(at, 0, |Erase(text)|)
  {
    if IsBlank(text) {
      EraseBlank(text);
      at := [];
    } else {
      var spans := Pieces(text, size, 0);
      var pieces := Slices(text, spans);
      PiecesTile(text, size, 0);
      TilesErase(text, size, 0, |text|, spans);
      assert text[0..|text|] == text;
      WindowsChain(pieces, size, overlap, 0, 0, 0, 0);
      at := RenderCovers(pieces, Windows(pieces, size, overlap, 0, 0), 0, 0);
      assert pieces[..|pieces|] == pieces && pieces[..0] == [];
    }
  }

  lemma {:induction false} ChainMember(ws: seq<Span>, from: nat, reach: nat, n: nat, w: Span)
    requires Chain(ws, from, reach, n) && w in ws
    ensures w.lo < w.hi <= n
    decreases |ws|
  {
    if w != ws[0] {
      ChainMember(ws[1..], ws[0].lo, ws[0].hi, n, w);
    }
  }

  /** Every chunk is the trim of a non-empty run of consecutive pieces. */
  lemma ChunkIsTrimmedRun(text: string, size: nat, overlap: nat, c: string) returns (w: Span)
    requires c in Chunks(text, size, overlap)
    ensures size > 0 && w.lo < w.hi <= |Slices(text, Pieces(text, size, 0))|
    ensures w in Windows(Slices(text, Pieces(text, size, 0)), size, overlap, 0, 0)
    ensures c == Trim(Concat(Slices(text, Pieces(text, size, 0))[w.lo..w.hi])) && c != ""
  {
    var pieces := Slices(text, Pieces(text, size, 0));
    var ws := Windows(pieces, size, overlap, 0, 0);
    w := RenderMember(pieces, ws, c);
    WindowsChain(pieces, size, overlap, 0, 0, 0, 0);
    ChainMember(ws, 0, 0, |pieces|, w);
  }

  // ---------------------------------------------------------------- budgets

  lemma {:induction false} SlicesLength(text: string, spans: seq<Span>)
    requires InRange(text, spans)
    ensures |Slices(text, spans)| == |spans|
  {
    if spans != [] {
      SlicesLength(text, spans[1..]);
    }
  }

  lemma {:induction false} SlicesIndex(text: string, spans: seq<Span>, i: nat)
    requires InRange(text, spans) && i < |spans|
    ensures |Slices(text, spans)| == |spans|
    ensures Slices(text, spans)[i] == text[spans[i].lo..spans[i].hi]
  {
    SlicesLength(text, spans);
    if i > 0 {
      SlicesIndex(text, spans[1..], i - 1);
    }
  }

  /** Every piece is non-empty and fits the budget. */
  lemma PieceFits(text: string, size: nat, i: nat)
    requires size > 0 && text != "" && i < |Slices(text, Pieces(text, size, 0))|
    ensures 0 < |Slices(text, Pieces(text, size, 0))[i]| <= size
  {
    var spans := Pieces(text, size, 0);
    SlicesLength(text, spans);
    SlicesIndex(text, spans, i);
    PiecesTile(text, size, 0);
    TilesBounds(text, size, 0, |text|, spans, i);
  }

  lemma {:induction false} CarryWithin(pieces: seq<string>, lo: nat, hi: nat, budget: nat)
    requires lo <= hi <= |pieces|
    ensures Total(pieces, Carry(pieces, lo, hi, budget), hi) <= budget
    decreases hi
  {
    if lo < hi && |pieces[hi - 1]| <= budget {
      CarryWithin(pieces, lo, hi - 1, budget - |pieces[hi - 1]|);
    }
  }

  lemma {:induction false} WindowBound(pieces: seq<string>, size: nat, overlap: nat, lo: nat, i: nat, w: Span)
    requires lo <= i <= |pieces| && Total(pieces, lo, i) <= size + overlap
    requires forall j :: 0 <= j < |pieces| ==> |pieces[j]| <= size
    requires w in Windows(pieces, size, overlap, lo, i)
    ensures w.lo <= w.hi <= |pieces| && Total(pieces, w.lo, w.hi) <= size + overlap
    decreases |pieces| - i
  {
    if i == |pieces| {
    } else if Total(pieces, lo, i) + |pieces[i]| > size && lo < i {
      if w != Span(lo, i) {
        CarryWithin(pieces, lo, i, overlap);
        WindowBound(pieces, size, overlap, Carry(pieces, lo, i, overlap), i + 1, w);
      }
    } else {
      WindowBound(pieces, size, overlap, lo, i + 1, w);
    }
  }

  /** No chunk is longer than `size + overlap`: 560 characters in production. */
  lemma ChunksBounded(text: string, size: nat, overlap: nat, c: string)
    requires c in Chunks(text, size, overlap)
    ensures 0 < |c| <= size + overlap
  {
    var pieces := Slices(text, Pieces(text, size, 0));
    var w := ChunkIsTrimmedRun(text, size, overlap, c);
    forall j | 0 <= j < |pieces| ensures |pieces[j]| <= size {
      PieceFits(text, size, j);
    }
    WindowBound(pieces, size, overlap, 0, 0, w);
    TotalIsLength(pieces, w.lo, w.hi);
  }

  lemma ProductionChunksBounded(text: string, c: string)
    requires c in Chunks(text, CHUNK_SIZE, CHUNK_OVERLAP)
    ensures 0 < |c| <= 560
  {
    ChunksBounded(text, CHUNK_SIZE, CHUNK_OVERLAP, c);
  }

  // ---------------------------------------------------------------- word boundaries

  /** `c` begins with `text[a]` and ends with `text[b - 1]`, and neither end is inside a word. */
  predicate CutAtWords(text: string, c: string, a: nat, b: nat) {
    && a < b <= |text| && c != ""
    && c[0] == text[a] && c[|c| - 1] == text[b - 1]
    && (a == 0 || IsWhitespace(text[a - 1]))
    && (b == |text| || IsWhitespace(text[b]))
  }

  /** Position `a` is the first ink of a piece that begins and ends between words. */
  predicate BeginsAt(text: string, s: Span, a: nat) {
    s.lo < s.hi <= |text| && AtEdges(text, s) && a == SkipForward(text, s.lo, s.hi) < s.hi
  }

  predicate StopsAt(text: string, s: Span, b: nat) {
    s.lo < s.hi <= |text| && AtEdges(text, s) && b == SkipBackward(text, s.lo, s.hi) > s.lo
  }

  /** The chunk `c` is the trim of the window `w` of pieces. It begins with the first ink of piece `f`,
      at `a`, and ends with the last ink of piece `l`, before `b`; in the window only blank pieces
      stand before the one and after the other. */
  ghost predicate CutFrom(text: string, size: nat, overlap: nat, c: string, w: Span, f: nat, l: nat, a: nat, b: nat)
    requires size > 0
  {
    var spans := Pieces(text, size, 0);
    var pieces := Slices(text, spans);
    && w in Windows(pieces, size, overlap, 0, 0)
    && w.lo <= f <= l < w.hi <= |spans| == |pieces|
    && c == Trim(Concat(pieces[w.lo..w.hi])) && c != ""
    && IsBlank(Concat(pieces[w.lo..f])) && IsBlank(Concat(pieces[l + 1..w.hi]))
    && BeginsAt(text, spans[f], a) && c[0] == text[a]
    && StopsAt(text, spans[l], b) && c[|c| - 1] == text[b - 1]
  }

  lemma FirstInk(before: string, s: string, rest: string, r: nat)
    requires IsBlank(before) && r < |s| && Blank(s, 0, r) && !IsWhitespace(s[r])
    ensures var t := Trim(before + s + rest); t != "" && t[0] == s[r]
  {
    var t := before + s + rest;
    var at := |before| + r;
    assert forall i :: 0 <= i < |s| ==> t[|before| + i] == s[i];
    var a := SkipForward(t, 0, |t|);
    assert t[at] == s[r];
    assert a == at by {
      assert forall i :: |before| <= i < at ==> t[i] == s[i - |before|];
    }
    var b := SkipBackward(t, a, |t|);
    assert b > at;
  }

  lemma InkAfter(before: string, s: string, after: string, r: nat)
    requires IsBlank(after) && r < |s| && Blank(s, r + 1, |s|)
    ensures Blank(before + s + after, |before| + r + 1, |before + s + after|)
  {
    var t := before + s + after;
    forall j | |before| + r + 1 <= j < |t| ensures IsWhitespace(t[j]) {
      if j < |before| + |s| {
        assert t[j] == s[j - |before|];
      } else {
        assert t[j] == after[j - |before| - |s|];
      }
    }
  }

  lemma LastInk(before: string, s: string, after: string, r: nat)
    requires IsBlank(after) && r < |s| && Blank(s, r + 1, |s|) && !IsWhitespace(s[r])
    ensures var t := Trim(before + s + after); t != "" && t[|t| - 1] == s[r]
  {
    var t := before + s + after;
    var at := |before| + r;
    assert forall i :: 0 <= i < |s| ==> t[|before| + i] == s[i];
    var a := SkipForward(t, 0, |t|);
    assert t[at] == s[r];
    assert a <= at;
    var b := SkipBackward(t, a, |t|);
    assert b == at + 1 by {
      InkAfter(before, s, after, r);
    }
  }

  lemma SliceAround(pieces: seq<string>, lo: nat, i: nat, hi: nat)
    requires lo <= i < hi <= |pieces|
    ensures Concat(pieces[lo..hi]) == Concat(pieces[lo..i]) + pieces[i] + Concat(pieces[i + 1..hi])
  {
    SliceSnoc(pieces, lo, i);
    ConcatSnoc(pieces[lo..i], pieces[i]);
    assert pieces[lo..i + 1] + pieces[i + 1..hi] == pieces[lo..hi];
    ConcatAppend(pieces[lo..i + 1], pieces[i + 1..hi]);
  }

  lemma BlankJoin(s: string, t: string)
    ensures IsBlank(s + t) <==> IsBlank(s) && IsBlank(t)
  {
    if IsBlank(s + t) {
      forall i | 0 <= i < |s| ensures IsWhitespace(s[i]) {
        assert (s + t)[i] == s[i];
      }
      forall i | 0 <= i < |t| ensures IsWhitespace(t[i]) {
        assert (s + t)[|s| + i] == t[i];
      }
    }
  }

  /** The first piece of a run that is not blank. */
  lemma {:induction false} FirstInked(pieces: seq<string>, lo: nat, hi: nat) returns (f: nat)
    requires lo <= hi <= |pieces| && !IsBlank(Concat(pieces[lo..hi]))
    ensures lo <= f < hi && !IsBlank(pieces[f]) && IsBlank(Concat(pieces[lo..f]))
    decreases hi - lo
  {
    SliceAround(pieces, lo, lo, hi);
    if IsBlank(pieces[lo]) {
      BlankJoin(pieces[lo], Concat(pieces[lo + 1..hi]));
      f := FirstInked(pieces, lo + 1, hi);
      SliceAround(pieces, lo, lo, f);
      BlankJoin(pieces[lo], Concat(pieces[lo + 1..f]));
    } else {
      f := lo;
    }
  }

  /** The last piece of a run that is not blank. */
  lemma {:induction false} LastInked(pieces: seq<string>, lo: nat, hi: nat) returns (l: nat)
    requires lo < hi <= |pieces| && !IsBlank(pieces[lo])
    ensures lo <= l < hi && !IsBlank(pieces[l]) && IsBlank(Concat(pieces[l + 1..hi]))
    decreases hi
  {
    if IsBlank(pieces[hi - 1]) {
      l := LastInked(pieces, lo, hi - 1);
      SliceSnoc(pieces, l + 1, hi - 1);
      ConcatSnoc(pieces[l + 1..hi - 1], pieces[hi - 1]);
      BlankJoin(Concat(pieces[l + 1..hi - 1]), pieces[hi - 1]);
    } else {
      l := hi - 1;
    }
  }

  lemma SliceBlank(text: string, s: Span, i: nat, j: nat)
    requires s.lo <= i <= j <= s.hi <= |text| && Blank(text, i, j)
    ensures Blank(text[s.lo..s.hi], i - s.lo, j - s.lo)
  {
    forall m | i - s.lo <= m < j - s.lo ensures IsWhitespace(text[s.lo..s.hi][m]) {
      assert text[s.lo..s.hi][m] == text[s.lo + m];
    }
  }

  /** Where a piece has its first and its last ink. */
  lemma InkOfPiece(text: string, s: Span, piece: string) returns (a: nat, b: nat)
    requires s.lo <= s.hi <= |text| && piece == text[s.lo..s.hi] && !IsBlank(piece)
    ensures a == SkipForward(text, s.lo, s.hi) < s.hi && b == SkipBackward(text, s.lo, s.hi) > s.lo
    ensures Blank(piece, 0, a - s.lo) && !IsWhitespace(piece[a - s.lo]) && piece[a - s.lo] == text[a]
    ensures Blank(piece, b - s.lo, |piece|) && !IsWhitespace(piece[b - 1 - s.lo]) && piece[b - 1 - s.lo] == text[b - 1]
  {
    a, b := SkipForward(text, s.lo, s.hi), SkipBackward(text, s.lo, s.hi);
    BlankPart(text, s.lo, s.hi);
    SliceBlank(text, s, s.lo, a);
    SliceBlank(text, s, b, s.hi);
  }

  lemma ChunkBegins(text: string, pieces: seq<string>, s: Span, lo: nat, f: nat, hi: nat) returns (a: nat)
    requires lo <= f < hi <= |pieces| && s.lo <= s.hi <= |text| && pieces[f] == text[s.lo..s.hi]
    requires !IsBlank(pieces[f]) && IsBlank(Concat(pieces[lo..f])) && AtEdges(text, s)
    ensures BeginsAt(text, s, a)
    ensures var c := Trim(Concat(pieces[lo..hi])); c != "" && c[0] == text[a]
  {
    var b: nat;
    a, b := InkOfPiece(text, s, pieces[f]);
    SliceAround(pieces, lo, f, hi);
    FirstInk(Concat(pieces[lo..f]), pieces[f], Concat(pieces[f + 1..hi]), a - s.lo);
  }

  lemma ChunkStops(text: string, pieces: seq<string>, s: Span, lo: nat, l: nat, hi: nat) returns (b: nat)
    requires lo <= l < hi <= |pieces| && s.lo <= s.hi <= |text| && pieces[l] == text[s.lo..s.hi]
    requires !IsBlank(pieces[l]) && IsBlank(Concat(pieces[l + 1..hi])) && AtEdges(text, s)
    ensures StopsAt(text, s, b)
    ensures var c := Trim(Concat(pieces[lo..hi])); c != "" && c[|c| - 1] == text[b - 1]
  {
    var a: nat;
    a, b := InkOfPiece(text, s, pieces[l]);
    SliceAround(pieces, lo, l, hi);
    LastInk(Concat(pieces[lo..l]), pieces[l], Concat(pieces[l + 1..hi]), b - 1 - s.lo);
  }

  lemma {:induction false} TilesOrdered(text: string, size: nat, spans: seq<Span>, i: nat, j: nat)
    requires Tiles(text, size, 0, |text|, spans) && i < j < |spans|
    ensures spans[i].hi <= spans[j].lo
    decreases j
  {
    TilesBounds(text, size, 0, |text|, spans, j);
    if i < j - 1 {
      TilesOrdered(text, size, spans, i, j - 1);
      TilesBounds(text, size, 0, |text|, spans, j - 1);
    }
  }

  lemma EndsOrdered(text: string, size: nat, spans: seq<Span>, f: nat, l: nat, a: nat, b: nat)
    requires Tiles(text, size, 0, |text|, spans) && f <= l < |spans|
    requires BeginsAt(text, spans[f], a) && StopsAt(text, spans[l], b)
    ensures a < b <= |text| && !IsWhitespace(text[a]) && !IsWhitespace(text[b - 1])
    ensures (a == 0 || IsWhitespace(text[a - 1])) && (b == |text| || IsWhitespace(text[b]))
  {
    assert !IsWhitespace(text[a]);
    assert a > spans[f].lo ==> IsWhitespace(text[a - 1]);
    assert b < spans[l].hi ==> IsWhitespace(text[b]);
    if f < l {
      TilesOrdered(text, size, spans, f, l);
    }
  }

  lemma InkedEnds(pieces: seq<string>, w: Span) returns (f: nat, l: nat)
    requires w.lo < w.hi <= |pieces| && Trim(Concat(pieces[w.lo..w.hi])) != ""
    ensures w.lo <= f <= l < w.hi && !IsBlank(pieces[f]) && !IsBlank(pieces[l])
    ensures IsBlank(Concat(pieces[w.lo..f])) && IsBlank(Concat(pieces[l + 1..w.hi]))
  {
    TrimEmptyIffBlank(Concat(pieces[w.lo..w.hi]));
    f := FirstInked(pieces, w.lo, w.hi);
    l := LastInked(pieces, f, w.hi);
  }

  /** Every chunk of a text whose words fit the budget begins and ends between words, whatever was
      merged and carried over: it begins with the first ink and ends with the last ink of pieces of
      its own window that are cut between words. */
  lemma ChunksEndAtWords(text: string, size: nat, overlap: nat, c: string)
    returns (w: Span, f: nat, l: nat, a: nat, b: nat)
    requires WordsFit(text, size) && c in Chunks(text, size, overlap)
    ensures size > 0 && CutFrom(text, size, overlap, c, w, f, l, a, b)
    ensures CutAtWords(text, c, a, b)
  {
    var spans := Pieces(text, size, 0);
    var pieces := Slices(text, spans);
    w := ChunkIsTrimmedRun(text, size, overlap, c);
    f, l := InkedEnds(pieces, w);
    SlicesLength(text, spans);
    SlicesIndex(text, spans, f);
    SlicesIndex(text, spans, l);
    WordsSplitIff(text, size);
    assert AtEdges(text, spans[f]) && AtEdges(text, spans[l]);
    a := ChunkBegins(text, pieces, spans[f], w.lo, f, w.hi);
    b := ChunkStops(text, pieces, spans[l], w.lo, l, w.hi);
    PiecesTile(text, size, 0);
    EndsOrdered(text, size, spans, f, l, a, b);
  }
}
