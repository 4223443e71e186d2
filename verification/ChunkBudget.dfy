/** The repository's own promise is that every chunk fits `chunk_size`. The piece pushed after an
    overlap is carried is not checked again, so the promise fails; this module settles for which
    settings it holds. */
module ChunkBudget {
  import opened Text
  import opened Chunking
  import opened ChunkPieces
  import opened ChunkProperties
  import opened ChunkSpans

  /** Every chunk of every text fits the budget. */
  ghost predicate BudgetKept(size: nat, overlap: nat) {
    forall text: string, c: string :: c in Chunks(text, size, overlap) ==> |c| <= size
  }

  // ---------------------------------------------------------------- settings that keep it

  /** The piece is as long as a hard cut, ends in whitespace, or ends the text. */
  predicate TailOk(text: string, size: nat, s: Span)
    requires s.lo <= s.hi <= |text|
  {
    s.hi - s.lo == size || s.hi == |text| || (s.hi > 0 && IsWhitespace(text[s.hi - 1]))
  }

  predicate TailsOk(text: string, size: nat, spans: seq<Span>)
    requires InRange(text, spans)
  {
    forall i :: 0 <= i < |spans| ==> TailOk(text, size, spans[i])
  }

  lemma {:induction false} HardCutTails(text: string, size: nat, from: nat)
    requires size > 0 && from <= |text|
    ensures TailsOk(text, size, HardCut(|text|, size, from))
    decreases |text| - from
  {
    if |text| - from > size {
      HardCutTails(text, size, from + size);
    }
  }

  lemma ShiftTails(text: string, size: nat, start: nat, end: nat, spans: seq<Span>)
    requires start <= end <= |text|
    requires end == |text| || (end > 0 && IsWhitespace(text[end - 1]))
    requires InRange(text[start..end], spans) && TailsOk(text[start..end], size, spans)
    ensures InRange(text, Shift(spans, start)) && TailsOk(text, size, Shift(spans, start))
  {
    var part := text[start..end];
    forall i | 0 <= i < |spans|
      ensures Shift(spans, start)[i].hi <= |text| && TailOk(text, size, Shift(spans, start)[i])
    {
      assert TailOk(part, size, spans[i]);
      assert spans[i].hi > 0 ==> part[spans[i].hi - 1] == text[start + spans[i].hi - 1];
    }
  }

  lemma {:induction false} PiecesTails(text: string, size: nat, k: nat)
    requires size > 0 && k <= |SEPARATORS|
    ensures TailsOk(text, size, Pieces(text, size, k))
    decreases |SEPARATORS| - k, 1, 0
  {
    if |text| <= size {
    } else if k == |SEPARATORS| {
      HardCutTails(text, size, 0);
    } else if FindFrom(text, SEPARATORS[k], 0).None? {
      PiecesTails(text, size, k + 1);
    } else {
      PartPiecesTails(text, size, k, 0);
    }
  }

  lemma {:induction false} PartPiecesTails(text: string, size: nat, k: nat, start: nat)
    requires size > 0 && k < |SEPARATORS| && start <= |text|
    ensures TailsOk(text, size, PartPieces(text, size, k, start))
    decreases |SEPARATORS| - k, 0, |text| - start
  {
    var end := PartEnd(text, SEPARATORS[k], start);
    OnePartTails(text, size, k, start);
    if FindFrom(text, SEPARATORS[k], start).Some? {
      SeparatorsEndInBreaks(k);
      PartPiecesTails(text, size, k, end);
    }
  }

  lemma {:induction false} OnePartTails(text: string, size: nat, k: nat, start: nat)
    requires size > 0 && k < |SEPARATORS| && start <= |text|
    ensures TailsOk(text, size, OnePart(text, size, k, start, PartEnd(text, SEPARATORS[k], start)))
    decreases |SEPARATORS| - (k + 1), 2, 0
  {
    var end := PartEnd(text, SEPARATORS[k], start);
    PartEndsInBreak(text, k, start);
    if !Blank(text, start, end) && end - start > size {
      PiecesTails(text[start..end], size, k + 1);
      ShiftTails(text, size, start, end, Pieces(text[start..end], size, k + 1));
    }
  }

  /** A piece that is not the last ends before the text does. */
  lemma InnerPiece(text: string, size: nat, i: nat)
    requires size > 0 && text != "" && i + 1 < |Pieces(text, size, 0)|
    ensures var s := Pieces(text, size, 0)[i];
            s.lo < s.hi < |text| && (s.hi - s.lo == size || IsWhitespace(text[s.hi - 1]))
  {
    var spans := Pieces(text, size, 0);
    PiecesTile(text, size, 0);
    PiecesTails(text, size, 0);
    TilesBounds(text, size, 0, |text|, spans, i);
    TilesBounds(text, size, 0, |text|, spans, i + 1);
    TilesOrdered(text, size, spans, i, i + 1);
    assert TailOk(text, size, spans[i]);
  }

  /** A piece of one character that is not the last piece is whitespace, unless the budget is one. */
  lemma SingleIsBlank(text: string, size: nat, i: nat)
    requires size >= 2 && text != ""
    requires i + 1 < |Slices(text, Pieces(text, size, 0))| && |Slices(text, Pieces(text, size, 0))[i]| == 1
    ensures IsWhitespace(Slices(text, Pieces(text, size, 0))[i][0])
  {
    var spans := Pieces(text, size, 0);
    SlicesLength(text, spans);
    SlicesIndex(text, spans, i);
    InnerPiece(text, size, i);
    assert text[spans[i].lo..spans[i].hi][0] == text[spans[i].lo];
  }

  /** The run fits, or overflows by one whitespace character at its front. */
  predicate Fits(pieces: seq<string>, size: nat, lo: nat, i: nat)
    requires lo <= i <= |pieces|
  {
    || Total(pieces, lo, i) <= size
    || (lo < i && Total(pieces, lo, i) == size + 1 && |pieces[lo]| == 1 && IsWhitespace(pieces[lo][0]))
  }

  /** An overlap of one character carries nothing, or one piece of one character. */
  lemma CarryAtMostOne(pieces: seq<string>, lo: nat, i: nat, overlap: nat)
    requires overlap <= 1 && lo <= i <= |pieces|
    requires forall j :: 0 <= j < |pieces| ==> 0 < |pieces[j]|
    ensures var c := Carry(pieces, lo, i, overlap);
            c == i || (overlap == 1 && c == i - 1 && |pieces[c]| == 1 && Total(pieces, c, i) == 1)
  {
    if lo < i && |pieces[i - 1]| <= overlap {
      assert Carry(pieces, lo, i - 1, 0) == i - 1;
      assert Total(pieces, i - 1, i - 1) == 0;
    }
  }

  lemma {:induction false} WindowFits(pieces: seq<string>, size: nat, overlap: nat, lo: nat, i: nat, w: Span)
    requires overlap <= 1 && lo <= i <= |pieces| && Fits(pieces, size, lo, i)
    requires forall j :: 0 <= j < |pieces| ==> 0 < |pieces[j]| <= size
    requires overlap == 1 ==> forall j :: 0 <= j < |pieces| - 1 && |pieces[j]| == 1 ==> IsWhitespace(pieces[j][0])
    requires w in Windows(pieces, size, overlap, lo, i)
    ensures w.lo <= w.hi <= |pieces| && Fits(pieces, size, w.lo, w.hi)
    decreases |pieces| - i
  {
    if i == |pieces| {
    } else if Total(pieces, lo, i) + |pieces[i]| > size && lo < i {
      if w != Span(lo, i) {
        var carry := Carry(pieces, lo, i, overlap);
        CarryAtMostOne(pieces, lo, i, overlap);
        WindowFits(pieces, size, overlap, carry, i + 1, w);
      }
    } else {
      WindowFits(pieces, size, overlap, lo, i + 1, w);
    }
  }

  lemma FitsAfterTrim(pieces: seq<string>, size: nat, w: Span)
    requires w.lo <= w.hi <= |pieces| && Fits(pieces, size, w.lo, w.hi)
    ensures |Trim(Concat(pieces[w.lo..w.hi]))| <= size
  {
    TotalIsLength(pieces, w.lo, w.hi);
    if Total(pieces, w.lo, w.hi) > size {
      assert pieces[w.lo..w.hi][0] == pieces[w.lo];
      var s := Concat(pieces[w.lo..w.hi]);
      assert s[0] == pieces[w.lo][0];
      assert SkipForward(s, 0, |s|) >= 1;
    }
  }

  lemma SmallOverlapKeepsBudget(size: nat, overlap: nat)
    requires overlap == 0 || (overlap == 1 && size >= 2)
    ensures BudgetKept(size, overlap)
  {
    forall text: string, c: string | c in Chunks(text, size, overlap) ensures |c| <= size {
      var pieces := Slices(text, Pieces(text, size, 0));
      var w := ChunkIsTrimmedRun(text, size, overlap, c);
      forall j | 0 <= j < |pieces| ensures 0 < |pieces[j]| <= size {
        PieceFits(text, size, j);
      }
      if overlap == 1 {
        forall j | 0 <= j < |pieces| - 1 && |pieces[j]| == 1 ensures IsWhitespace(pieces[j][0]) {
          SingleIsBlank(text, size, j);
        }
      }
      assert Total(pieces, 0, 0) == 0;
      WindowFits(pieces, size, overlap, 0, 0, w);
      FitsAfterTrim(pieces, size, w);
    }
  }

  // ---------------------------------------------------------------- a chunk as long as can be

  lemma {:induction false} CarryAll(pieces: seq<string>, lo: nat, hi: nat, budget: nat)
    requires lo <= hi <= |pieces| && Total(pieces, lo, hi) <= budget
    ensures Carry(pieces, lo, hi, budget) == lo
    decreases hi
  {
    if lo < hi {
      CarryAll(pieces, lo, hi - 1, budget - |pieces[hi - 1]|);
    }
  }

  lemma {:induction false} TotalGrows(pieces: seq<string>, lo: nat, i: nat, j: nat)
    requires lo <= i <= j <= |pieces|
    ensures Total(pieces, lo, i) <= Total(pieces, lo, j)
    decreases j
  {
    if i < j {
      TotalGrows(pieces, lo, i, j - 1);
    }
  }

  /** While everything packed so far fits the overlap, everything is carried: the last window is the whole. */
  lemma {:induction false} WindowsKeepAll(pieces: seq<string>, size: nat, overlap: nat, i: nat)
    requires 0 < |pieces| && i <= |pieces| && Total(pieces, 0, |pieces| - 1) <= overlap
    ensures Span(0, |pieces|) in Windows(pieces, size, overlap, 0, i)
    decreases |pieces| - i
  {
    if i < |pieces| {
      TotalGrows(pieces, 0, i, |pieces| - 1);
      CarryAll(pieces, 0, i, overlap);
      WindowsKeepAll(pieces, size, overlap, i + 1);
    }
  }

  lemma {:induction false} RenderHolds(pieces: seq<string>, ws: seq<Span>, w: Span)
    requires Within(ws, |pieces|) && w in ws
    ensures w.lo <= w.hi <= |pieces|
    ensures Rendered(pieces, w) != "" ==> Rendered(pieces, w) in Render(pieces, ws)
    decreases |ws|
  {
    if w != ws[0] {
      RenderHolds(pieces, ws[1..], w);
    }
  }

  /** A text whose pieces but the last fit the overlap together is a chunk of itself. */
  lemma WholeIsChunk(text: string, pieces: seq<string>, size: nat, overlap: nat)
    requires size > 0 && text != "" && !IsWhitespace(text[0]) && !IsWhitespace(text[|text| - 1])
    requires pieces == Slices(text, Pieces(text, size, 0)) && Concat(pieces) == text && pieces != []
    requires |text| - |pieces[|pieces| - 1]| <= overlap
    ensures text in Chunks(text, size, overlap)
  {
    var n := |pieces|;
    assert pieces[0..n] == pieces;
    TotalIsLength(pieces, 0, n);
    WindowsKeepAll(pieces, size, overlap, 0);
    TrimIs(text, 0, |text|);
    assert text[0..|text|] == text;
    RenderHolds(pieces, Windows(pieces, size, overlap, 0, 0), Span(0, n));
  }

  lemma {:induction false} HardCutConcat(text: string, n: nat, size: nat, from: nat)
    requires size > 0 && from <= n <= |text|
    ensures InRange(text, HardCut(n, size, from)) && HardCut(n, size, from) != []
    ensures Concat(Slices(text, HardCut(n, size, from))) == text[from..n]
    decreases n - from
  {
    if n - from <= size {
      SlicesOne(text, Span(from, n));
      ConcatOne(text[from..n]);
    } else {
      var rest := HardCut(n, size, from + size);
      HardCutConcat(text, n, size, from + size);
      assert ([Span(from, from + size)] + rest)[1..] == rest;
      assert text[from..n] == text[from..from + size] + text[from + size..n];
    }
  }

  predicate Lettered(text: string) {
    forall i :: 0 <= i < |text| ==> text[i] == 'a' || text[i] == ' '
  }

  lemma NoOtherSeparator(text: string, k: nat)
    requires Lettered(text) && k < 7
    ensures FindFrom(text, SEPARATORS[k], 0).None?
  {
    var found := FindFrom(text, SEPARATORS[k], 0);
    assert SEPARATORS[k][0] in ['\n', '.', '?', '!', ';', ','];
    if found.Some? {
      OccursChar(text, SEPARATORS[k], found.value, 0);
    }
  }

  /** Of all separators only the space is there. */
  lemma {:induction false} ToSpaces(text: string, size: nat, k: nat)
    requires size > 0 && k <= 7 && Lettered(text)
    ensures Pieces(text, size, k) == Pieces(text, size, 7)
    decreases 7 - k
  {
    if k < 7 {
      NoOtherSeparator(text, k);
      ToSpaces(text, size, k + 1);
    }
  }

  /** One word. */
  function Letters(n: nat): (text: string)
    ensures |text| == n && forall i :: 0 <= i < n ==> text[i] == 'a'
  {
    seq(n, i => 'a')
  }

  lemma NoSpaceIn(text: string, from: nat)
    requires forall i :: from <= i < |text| ==> text[i] == 'a'
    ensures FindFrom(text, " ", from).None?
  {
    var found := FindFrom(text, " ", from);
    if found.Some? {
      OccursChar(text, " ", found.value, 0);
    }
  }

  lemma WordPieces(text: string, size: nat)
    requires size > 0 && text == Letters(|text|) && text != ""
    ensures Pieces(text, size, 0) == HardCut(|text|, size, 0)
  {
    ToSpaces(text, size, 0);
    NoSpaceIn(text, 0);
    assert SEPARATORS[7] == " ";
  }

  /** A word, a space, and a word as long as the budget: `n` characters, and the budget's. */
  function WideText(n: nat, size: nat): (text: string)
    requires n >= 1
    ensures |text| == n + size
  {
    Letters(n - 1) + " " + Letters(size)
  }

  lemma WideFinds(text: string, n: nat, size: nat)
    requires n >= 1 && text == WideText(n, size)
    ensures Lettered(text) && FindFrom(text, " ", 0) == Some(n - 1) && FindFrom(text, " ", n).None?
  {
    assert text[n - 1..n] == " ";
    FoundAt(text, " ", 0, n - 1);
    NoSpaceIn(text, n);
  }

  lemma ShiftNothing(spans: seq<Span>)
    ensures Shift(spans, 0) == spans
  {
  }

  /** The part up to the space: cut hard if it exceeds the budget, which a cut of one piece is as well. */
  lemma FrontPieces(text: string, size: nat, n: nat)
    requires size > 0 && 2 <= n <= |text| && !IsWhitespace(text[0])
    ensures OnePart(text, size, 7, 0, n) == HardCut(n, size, 0)
  {
    assert text[0..n][0] == text[0];
    if n > size {
      ShiftNothing(HardCut(n, size, 0));
    }
  }

  lemma LastPiece(text: string, size: nat, n: nat)
    requires size > 0 && |text| == n + size && !IsWhitespace(text[n])
    ensures OnePart(text, size, 7, n, |text|) == [Span(n, n + size)]
  {
  }

  lemma TwoParts(text: string, size: nat, n: nat)
    requires size > 0 && 1 <= n && |text| == n + size
    requires FindFrom(text, SEPARATORS[7], 0) == Some(n - 1) && FindFrom(text, SEPARATORS[7], n).None? && |SEPARATORS[7]| == 1
    ensures Pieces(text, size, 7) == OnePart(text, size, 7, 0, n) + OnePart(text, size, 7, n, |text|)
  {
    assert PartPieces(text, size, 7, n) == OnePart(text, size, 7, n, |text|);
  }

  lemma WidePieces(text: string, n: nat, size: nat)
    requires n >= 2 && size > 0 && text == WideText(n, size)
    ensures Pieces(text, size, 0) == HardCut(n, size, 0) + [Span(n, n + size)]
  {
    WideFinds(text, n, size);
    ToSpaces(text, size, 0);
    assert SEPARATORS[7] == " ";
    TwoParts(text, size, n);
    FrontPieces(text, size, n);
    LastPiece(text, size, n);
  }

  lemma FrontThenLast(text: string, spans: seq<Span>, n: nat, pieces: seq<string>)
    requires InRange(text, spans) && n <= |text| && Concat(Slices(text, spans)) == text[0..n]
    requires pieces == Slices(text, spans + [Span(n, |text|)])
    ensures Concat(pieces) == text && pieces != [] && pieces[|pieces| - 1] == text[n..]
  {
    SlicesOne(text, Span(n, |text|));
    SlicesAppend(text, spans, [Span(n, |text|)]);
    ConcatSnoc(Slices(text, spans), text[n..|text|]);
    assert text[0..n] + text[n..|text|] == text;
  }

  lemma WideConcat(text: string, n: nat, size: nat) returns (pieces: seq<string>)
    requires n >= 2 && size > 0 && text == WideText(n, size)
    ensures pieces == Slices(text, Pieces(text, size, 0)) && Concat(pieces) == text
    ensures pieces != [] && |pieces[|pieces| - 1]| == size
  {
    WidePieces(text, n, size);
    HardCutConcat(text, n, size, 0);
    pieces := Slices(text, Pieces(text, size, 0));
    FrontThenLast(text, HardCut(n, size, 0), n, pieces);
  }

  /** A word of the budget's length, or one character more when the overlap carries it. */
  lemma WordAttains(n: nat, size: nat, overlap: nat) returns (text: string)
    requires size >= 1 && (n == size || (n == 2 && size == 1 && overlap == 1))
    ensures text in Chunks(text, size, overlap) && |text| == n
  {
    text := Letters(n);
    WordPieces(text, size);
    HardCutConcat(text, n, size, 0);
    var pieces := Slices(text, HardCut(n, size, 0));
    assert text[0..n] == text;
    if n == size {
      SlicesOne(text, Span(0, n));
    } else {
      SlicesOne(text, Span(1, 2));
      assert HardCut(2, 1, 0)[1..] == HardCut(2, 1, 1) == [Span(1, 2)];
    }
    WholeIsChunk(text, pieces, size, overlap);
  }

  /** The bound is reached: whole pieces as long as the overlap, then one as long as the budget. */
  lemma BoundAttained(size: nat, overlap: nat) returns (text: string)
    requires size >= 1 && (overlap >= 2 || (overlap == 1 && size == 1))
    ensures text in Chunks(text, size, overlap) && |text| == size + overlap
  {
    if overlap >= 2 {
      text := WideText(overlap, size);
      var pieces := WideConcat(text, overlap, size);
      WholeIsChunk(text, pieces, size, overlap);
    } else {
      text := WordAttains(2, size, overlap);
    }
  }

  /** Every chunk of every text fits `chunk_size` exactly for these settings; production, with 500
      and 60, is not among them. */
  lemma BudgetKeptIff(size: nat, overlap: nat)
    ensures BudgetKept(size, overlap) <==> size == 0 || overlap == 0 || (overlap == 1 && size >= 2)
    ensures !BudgetKept(CHUNK_SIZE, CHUNK_OVERLAP)
  {
    if overlap == 0 || (overlap == 1 && size >= 2) {
      SmallOverlapKeepsBudget(size, overlap);
    } else if size > 0 {
      var text := BoundAttained(size, overlap);
    }
    var text := BoundAttained(CHUNK_SIZE, CHUNK_OVERLAP);
  }

  /** How long a chunk can get. */
  function LongestChunk(size: nat, overlap: nat): nat
    requires size >= 1
  {
    if overlap == 1 && size >= 2 then size else size + overlap
  }

  /** For every setting the longest chunk any text has: 560 characters in production. */
  lemma LongestChunkIs(size: nat, overlap: nat) returns (text: string, c: string)
    requires size >= 1
    ensures c in Chunks(text, size, overlap) && |c| == LongestChunk(size, overlap)
    ensures forall t: string, d: string :: d in Chunks(t, size, overlap) ==> |d| <= LongestChunk(size, overlap)
    ensures LongestChunk(CHUNK_SIZE, CHUNK_OVERLAP) == 560
  {
    if overlap == 0 || (overlap == 1 && size >= 2) {
      SmallOverlapKeepsBudget(size, overlap);
      text := WordAttains(size, size, overlap);
    } else {
      forall t: string, d: string | d in Chunks(t, size, overlap) ensures |d| <= LongestChunk(size, overlap) {
        ChunksBounded(t, size, overlap, d);
      }
      text := BoundAttained(size, overlap);
    }
    c := text;
  }
}
