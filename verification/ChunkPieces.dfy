/** What splitting guarantees: the pieces tile the text up to dropped whitespace, fit the budget, and
    are cut at word boundaries whenever no word is too long. */
module ChunkPieces {
  import opened Text
  import opened Chunking

  // ---------------------------------------------------------------- tiling

  /** The spans lie in order inside `text[lo..hi]`, none is empty or over `size`, and whatever they
      leave out is whitespace. */
  predicate Tiles(text: string, size: nat, lo: nat, hi: nat, spans: seq<Span>)
    requires lo <= hi <= |text|
    decreases |spans|
  {
    if spans == [] then Blank(text, lo, hi)
    else
      var s := spans[0];
      && lo <= s.lo < s.hi <= hi && s.hi - s.lo <= size
      && Blank(text, lo, s.lo)
      && Tiles(text, size, s.hi, hi, spans[1..])
  }

  lemma TilesWiden(text: string, size: nat, lo: nat, mid: nat, hi: nat, spans: seq<Span>)
    requires lo <= mid <= hi <= |text| && Blank(text, lo, mid) && Tiles(text, size, mid, hi, spans)
    ensures Tiles(text, size, lo, hi, spans)
  {
  }

  lemma {:induction false} TilesAppend(text: string, size: nat, lo: nat, mid: nat, hi: nat, a: seq<Span>, b: seq<Span>)
    requires lo <= mid <= hi <= |text|
    requires Tiles(text, size, lo, mid, a) && Tiles(text, size, mid, hi, b)
    ensures Tiles(text, size, lo, hi, a + b)
    decreases |a|
  {
    if a == [] {
      assert a + b == b;
      TilesWiden(text, size, lo, mid, hi, b);
    } else {
      SplitFirst(a, b);
      TilesAppend(text, size, a[0].hi, mid, hi, a[1..], b);
    }
  }

  lemma {:induction false} TilesShift(text: string, size: nat, start: nat, end: nat, lo: nat, spans: seq<Span>)
    requires start + lo <= end <= |text|
    requires Tiles(text[start..end], size, lo, end - start, spans)
    ensures Tiles(text, size, start + lo, end, Shift(spans, start))
    decreases |spans|
  {
    var part := text[start..end];
    var upto := if spans == [] then end - start else spans[0].lo;
    forall i | start + lo <= i < start + upto ensures IsWhitespace(text[i]) {
      assert part[i - start] == text[i];
    }
    if spans != [] {
      TilesShift(text, size, start, end, spans[0].hi, spans[1..]);
      assert Shift(spans, start)[1..] == Shift(spans[1..], start);
    }
  }

  lemma {:induction false} HardCutTiles(text: string, size: nat, from: nat)
    requires size > 0 && from < |text|
    ensures Tiles(text, size, from, |text|, HardCut(|text|, size, from))
    decreases |text| - from
  {
    if |text| - from > size {
      HardCutTiles(text, size, from + size);
      assert HardCut(|text|, size, from)[1..] == HardCut(|text|, size, from + size);
    } else {
      assert HardCut(|text|, size, from)[1..] == [];
    }
  }

  lemma {:induction false} OnePartTiles(text: string, size: nat, k: nat, start: nat, end: nat)
    requires size > 0 && k < |SEPARATORS| && start <= end <= |text|
    ensures Tiles(text, size, start, end, OnePart(text, size, k, start, end))
    decreases |SEPARATORS| - (k + 1), 2, 0
  {
    if Blank(text, start, end) {
    } else if end - start > size {
      PiecesTile(text[start..end], size, k + 1);
      TilesShift(text, size, start, end, 0, Pieces(text[start..end], size, k + 1));
    } else {
      assert [Span(start, end)][1..] == [];
    }
  }

  lemma {:induction false} PartPiecesTile(text: string, size: nat, k: nat, start: nat)
    requires size > 0 && k < |SEPARATORS| && start <= |text|
    ensures Tiles(text, size, start, |text|, PartPieces(text, size, k, start))
    decreases |SEPARATORS| - k, 0, |text| - start
  {
    var end := PartEnd(text, SEPARATORS[k], start);
    OnePartTiles(text, size, k, start, end);
    if FindFrom(text, SEPARATORS[k], start).Some? {
      PartPiecesTile(text, size, k, end);
      TilesAppend(text, size, start, end, |text|, OnePart(text, size, k, start, end), PartPieces(text, size, k, end));
    }
  }

  /** Splitting any non-empty text tiles it: every piece fits the budget, the pieces keep the order of
      the text, and nothing but whitespace is left out. */
  lemma {:induction false} PiecesTile(text: string, size: nat, k: nat)
    requires size > 0 && k <= |SEPARATORS| && text != ""
    ensures Tiles(text, size, 0, |text|, Pieces(text, size, k))
    decreases |SEPARATORS| - k, 1, 0
  {
    if |text| <= size {
      assert Pieces(text, size, k)[1..] == [];
    } else if k == |SEPARATORS| {
      HardCutTiles(text, size, 0);
    } else if FindFrom(text, SEPARATORS[k], 0).None? {
      PiecesTile(text, size, k + 1);
    } else {
      PartPiecesTile(text, size, k, 0);
    }
  }

  lemma {:induction false} TilesBounds(text: string, size: nat, lo: nat, hi: nat, spans: seq<Span>, i: nat)
    requires lo <= hi <= |text| && Tiles(text, size, lo, hi, spans) && i < |spans|
    ensures lo <= spans[i].lo < spans[i].hi <= hi && spans[i].hi - spans[i].lo <= size
    ensures i > 0 ==> spans[i - 1].hi <= spans[i].lo
    decreases i
  {
    if i > 0 {
      TilesBounds(text, size, spans[0].hi, hi, spans[1..], i - 1);
    }
  }

  lemma BlankSlice(text: string, lo: nat, hi: nat)
    requires lo <= hi <= |text| && Blank(text, lo, hi)
    ensures IsBlank(text[lo..hi])
  {
  }

  lemma EraseCut(text: string, lo: nat, mid: nat, hi: nat)
    requires lo <= mid <= hi <= |text|
    ensures Erase(text[lo..hi]) == Erase(text[lo..mid]) + Erase(text[mid..hi])
  {
    assert text[lo..hi] == text[lo..mid] + text[mid..hi];
    EraseAppend(text[lo..mid], text[mid..hi]);
  }

  /** With whitespace erased, the pieces put together are the text. */
  lemma {:induction false} TilesErase(text: string, size: nat, lo: nat, hi: nat, spans: seq<Span>)
    requires lo <= hi <= |text| && InRange(text, spans) && Tiles(text, size, lo, hi, spans)
    ensures Erase(Concat(Slices(text, spans))) == Erase(text[lo..hi])
    decreases |spans|
  {
    if spans == [] {
      BlankSlice(text, lo, hi);
      EraseBlank(text[lo..hi]);
    } else {
      var s := spans[0];
      TilesErase(text, size, s.hi, hi, spans[1..]);
      EraseAppend(text[s.lo..s.hi], Concat(Slices(text, spans[1..])));
      BlankSlice(text, lo, s.lo);
      EraseBlank(text[lo..s.lo]);
      EraseCut(text, lo, s.lo, hi);
      EraseCut(text, s.lo, s.hi, hi);
    }
  }

  // ---------------------------------------------------------------- word boundaries

  predicate IsBreak(c: char) {
    c == ' ' || c == '\n'
  }

  /** `text[i..j]` holds neither a space nor a newline. */
  predicate Unbroken(text: string, i: nat, j: nat)
    requires i <= j <= |text|
  {
    forall m :: i <= m < j ==> !IsBreak(text[m])
  }

  /** A run free of breaks that is not whitespace alone. */
  predicate Word(text: string, i: nat, j: nat) {
    i <= j <= |text| && Unbroken(text, i, j) && !Blank(text, i, j)
  }

  /** The word is longer than `size`. */
  predicate TooLong(text: string, size: nat, i: nat, j: nat) {
    Word(text, i, j) && j - i > size
  }

  /** The word is longer than `size` together with the break after it, if there is one. */
  predicate Overflows(text: string, size: nat, i: nat, j: nat) {
    Word(text, i, j) && (j - i > size || (j - i == size && j < |text|))
  }

  ghost predicate WordsFit(text: string, size: nat) {
    forall i: nat, j: nat :: !TooLong(text, size, i, j)
  }

  ghost predicate WordsFitWithBreak(text: string, size: nat) {
    forall i: nat, j: nat :: !Overflows(text, size, i, j)
  }

  /** A piece that begins and ends at a space, a newline or an end of the text. */
  predicate AtBreaks(text: string, s: Span) {
    && s.lo <= s.hi <= |text|
    && (s.lo == 0 || IsBreak(text[s.lo - 1]))
    && (s.hi == |text| || (s.hi > 0 && IsBreak(text[s.hi - 1])))
    && !Blank(text, s.lo, s.hi)
  }

  predicate AllAtBreaks(text: string, spans: seq<Span>) {
    forall i :: 0 <= i < |spans| ==> AtBreaks(text, spans[i])
  }

  /** What splitting by the levels before `k` has established about a text still to be split. */
  predicate SplitBefore(text: string, k: nat) {
    && (k >= 2 ==> forall i :: 0 <= i < |text| - 1 ==> text[i] != '\n')
    && (k >= 8 ==> forall i :: 0 <= i < |text| - 1 ==> text[i] != ' ')
  }

  lemma SeparatorsEndInBreaks(k: nat)
    requires k < |SEPARATORS|
    ensures SEPARATORS[k] != "" && IsBreak(SEPARATORS[k][|SEPARATORS[k]| - 1])
  {
    assert |SEPARATORS| == 8;
  }

  lemma PartEndsInBreak(text: string, k: nat, start: nat)
    requires k < |SEPARATORS| && start <= |text|
    ensures var end := PartEnd(text, SEPARATORS[k], start);
            end == |text| || (end > 0 && IsBreak(text[end - 1]))
  {
    var sep := SEPARATORS[k];
    SeparatorsEndInBreaks(k);
    match FindFrom(text, sep, start)
    case None =>
    case Some(p) =>
      assert text[p..p + |sep|][|sep| - 1] == text[p + |sep| - 1];
  }

  /** A word of a part is a word of the text. */
  lemma WordOfText(text: string, start: nat, end: nat, i: nat, j: nat)
    requires start <= end <= |text| && Word(text[start..end], i, j)
    ensures Word(text, start + i, start + j)
  {
    var part := text[start..end];
    forall m | start + i <= m < start + j ensures !IsBreak(text[m]) {
      assert part[m - start] == text[m];
    }
    var m :| i <= m < j && !IsWhitespace(part[m]);
    assert text[start + m] == part[m];
  }

  /** A word of the text inside a part is a word of the part. */
  lemma WordOfPart(text: string, start: nat, end: nat, i: nat, j: nat)
    requires Word(text, i, j) && start <= i && j <= end <= |text|
    ensures Word(text[start..end], i - start, j - start) && !Blank(text, start, end)
  {
    var part := text[start..end];
    forall m | i - start <= m < j - start ensures !IsBreak(part[m]) {
      assert part[m] == text[start + m];
    }
    var m :| i <= m < j && !IsWhitespace(text[m]);
    assert part[m - start] == text[m];
  }

  lemma WordsFitSlice(text: string, size: nat, start: nat, end: nat)
    requires start <= end <= |text|
    ensures WordsFit(text, size) ==> WordsFit(text[start..end], size)
    ensures WordsFitWithBreak(text, size) ==> WordsFitWithBreak(text[start..end], size)
  {
    var part := text[start..end];
    forall i: nat, j: nat | Word(part, i, j)
      ensures TooLong(part, size, i, j) ==> TooLong(text, size, start + i, start + j)
      ensures Overflows(part, size, i, j) ==> Overflows(text, size, start + i, start + j)
    {
      WordOfText(text, start, end, i, j);
    }
  }

  lemma OneCharOccurs(text: string, sep: string, i: nat)
    requires |sep| == 1 && i < |text|
    ensures OccursAt(text, sep, i) <==> text[i] == sep[0]
  {
    assert text[i..i + 1] == [text[i]];
  }

  /** A part holds its one-character separator nowhere but at its end. */
  lemma PartFreeOf(text: string, k: nat, start: nat)
    requires k < |SEPARATORS| && |SEPARATORS[k]| == 1 && start <= |text|
    ensures var end := PartEnd(text, SEPARATORS[k], start);
            var last := if FindFrom(text, SEPARATORS[k], start).Some? then end - 1 else end;
            start <= last && forall i :: start <= i < last ==> text[i] != SEPARATORS[k][0]
  {
    var sep := SEPARATORS[k];
    var end := PartEnd(text, sep, start);
    var last := if FindFrom(text, sep, start).Some? then end - 1 else end;
    forall i | start <= i < last ensures text[i] != sep[0] {
      OneCharOccurs(text, sep, i);
    }
  }

  /** Splitting at level `k` establishes what level `k + 1` relies on. */
  lemma PartSplitBefore(text: string, k: nat, start: nat)
    requires k < |SEPARATORS| && start <= |text| && SplitBefore(text, k)
    ensures SplitBefore(text[start..PartEnd(text, SEPARATORS[k], start)], k + 1)
  {
    var end := PartEnd(text, SEPARATORS[k], start);
    var part := text[start..end];
    if k == 1 || k == 7 {
      PartFreeOf(text, k, start);
    }
    forall i | 0 <= i < |part| - 1
      ensures k + 1 >= 2 ==> part[i] != '\n'
      ensures k + 1 >= 8 ==> part[i] != ' '
    {
      assert part[i] == text[start + i];
    }
  }

  /** A text without the separator of level `k` is as if split by it. */
  lemma AbsentSplitBefore(text: string, k: nat)
    requires k < |SEPARATORS| && SplitBefore(text, k) && FindFrom(text, SEPARATORS[k], 0).None?
    ensures SplitBefore(text, k + 1)
  {
    PartSplitBefore(text, k, 0);
    assert text[0..|text|] == text;
  }

  /** Once split by every separator, what exceeds the budget is one word, perhaps with its break. */
  lemma FullySplitWord(text: string, size: nat) returns (j: nat)
    requires SplitBefore(text, 8) && !IsBlank(text) && |text| > size
    ensures Word(text, 0, j) && Overflows(text, size, 0, j)
    ensures j == if IsBreak(text[|text| - 1]) then |text| - 1 else |text|
  {
    var n := |text|;
    var m :| 0 <= m < n && !IsWhitespace(text[m]);
    j := if IsBreak(text[n - 1]) then n - 1 else n;
    assert Unbroken(text, 0, j);
    assert m < j;
  }

  // ---------------------------------------------------------------- hard cuts

  /** Splitting the text from level `k` runs out of separators with something over the budget left. */
  predicate CutsHard(text: string, size: nat, k: nat)
    requires size > 0 && k <= |SEPARATORS|
    decreases |SEPARATORS| - k, 1, 0
  {
    if |text| <= size then false
    else if k == |SEPARATORS| then true
    else if FindFrom(text, SEPARATORS[k], 0).None? then CutsHard(text, size, k + 1)
    else SomePartCutsHard(text, size, k, 0)
  }

  predicate SomePartCutsHard(text: string, size: nat, k: nat, start: nat)
    requires size > 0 && k < |SEPARATORS| && start <= |text|
    decreases |SEPARATORS| - k, 0, |text| - start
  {
    var end := PartEnd(text, SEPARATORS[k], start);
    || PartCutsHard(text, size, k, start, end)
    || (FindFrom(text, SEPARATORS[k], start).Some? && SomePartCutsHard(text, size, k, end))
  }

  predicate PartCutsHard(text: string, size: nat, k: nat, start: nat, end: nat)
    requires size > 0 && k < |SEPARATORS| && start <= end <= |text|
    decreases |SEPARATORS| - (k + 1), 2, 0
  {
    !Blank(text, start, end) && end - start > size && CutsHard(text[start..end], size, k + 1)
  }

  lemma {:induction false} FittingUncut(text: string, size: nat, k: nat)
    requires size > 0 && k <= |SEPARATORS| && !IsBlank(text)
    requires WordsFitWithBreak(text, size) && SplitBefore(text, k)
    ensures !CutsHard(text, size, k)
    decreases |SEPARATORS| - k, 1, 0
  {
    if |text| <= size {
    } else if k == |SEPARATORS| {
      var j := FullySplitWord(text, size);
    } else if FindFrom(text, SEPARATORS[k], 0).None? {
      AbsentSplitBefore(text, k);
      FittingUncut(text, size, k + 1);
    } else {
      FittingPartsUncut(text, size, k, 0);
    }
  }

  lemma {:induction false} FittingPartsUncut(text: string, size: nat, k: nat, start: nat)
    requires size > 0 && k < |SEPARATORS| && start <= |text|
    requires WordsFitWithBreak(text, size) && SplitBefore(text, k)
    ensures !SomePartCutsHard(text, size, k, start)
    decreases |SEPARATORS| - k, 0, |text| - start
  {
    var end := PartEnd(text, SEPARATORS[k], start);
    if !Blank(text, start, end) {
      BlankPart(text, start, end);
      WordsFitSlice(text, size, start, end);
      PartSplitBefore(text, k, start);
      FittingUncut(text[start..end], size, k + 1);
    }
    if FindFrom(text, SEPARATORS[k], start).Some? {
      FittingPartsUncut(text, size, k, end);
    }
  }

  /** Parts end only at breaks, so a part holds all of a word, and the character after it, or nothing. */
  lemma PartHoldsWord(text: string, k: nat, start: nat, i: nat, j: nat)
    requires k < |SEPARATORS| && start <= i && Word(text, i, j)
    ensures var end := PartEnd(text, SEPARATORS[k], start);
            && (end <= i || (j <= end && (j < |text| ==> j < end)))
            && (end <= i ==> FindFrom(text, SEPARATORS[k], start).Some?)
  {
    PartEndsInBreak(text, k, start);
  }

  lemma {:induction false} OverflowCut(text: string, size: nat, k: nat, i: nat, j: nat)
    requires size > 0 && k <= |SEPARATORS| && Overflows(text, size, i, j)
    ensures CutsHard(text, size, k)
    decreases |SEPARATORS| - k, 1, 0
  {
    if k == |SEPARATORS| {
    } else if FindFrom(text, SEPARATORS[k], 0).None? {
      OverflowCut(text, size, k + 1, i, j);
    } else {
      OverflowPartCut(text, size, k, 0, i, j);
    }
  }

  lemma {:induction false} OverflowPartCut(text: string, size: nat, k: nat, start: nat, i: nat, j: nat)
    requires size > 0 && k < |SEPARATORS| && start <= i && Overflows(text, size, i, j)
    ensures SomePartCutsHard(text, size, k, start)
    decreases |SEPARATORS| - k, 0, |text| - start
  {
    var end := PartEnd(text, SEPARATORS[k], start);
    SeparatorsEndInBreaks(k);
    PartHoldsWord(text, k, start, i, j);
    if end <= i {
      OverflowPartCut(text, size, k, end, i, j);
    } else {
      WordOfPart(text, start, end, i, j);
      OverflowCut(text[start..end], size, k + 1, i - start, j - start);
    }
  }

  /** A piece is cut regardless of boundaries exactly when some word, with the break after it, is
      longer than the budget. */
  lemma CutsHardIff(text: string, size: nat)
    requires size > 0 && !IsBlank(text)
    ensures CutsHard(text, size, 0) <==> !WordsFitWithBreak(text, size)
  {
    if WordsFitWithBreak(text, size) {
      FittingUncut(text, size, 0);
    } else {
      var i: nat, j: nat :| Overflows(text, size, i, j);
      OverflowCut(text, size, 0, i, j);
    }
  }

  // ---------------------------------------------------------------- pieces between breaks

  lemma ShiftOneAtBreaks(text: string, start: nat, end: nat, s: Span)
    requires start <= end <= |text| && AtBreaks(text[start..end], s)
    requires start == 0 || IsBreak(text[start - 1])
    requires end == |text| || (end > 0 && IsBreak(text[end - 1]))
    ensures AtBreaks(text, Span(s.lo + start, s.hi + start))
  {
    var part := text[start..end];
    assert s.lo > 0 ==> part[s.lo - 1] == text[start + s.lo - 1];
    assert s.hi > 0 ==> part[s.hi - 1] == text[start + s.hi - 1];
    var j :| s.lo <= j < s.hi && !IsWhitespace(part[j]);
    assert text[start + j] == part[j];
  }

  lemma ShiftAtBreaks(text: string, start: nat, end: nat, spans: seq<Span>)
    requires start <= end <= |text| && AllAtBreaks(text[start..end], spans)
    requires start == 0 || IsBreak(text[start - 1])
    requires end == |text| || (end > 0 && IsBreak(text[end - 1]))
    ensures AllAtBreaks(text, Shift(spans, start))
  {
    forall i | 0 <= i < |spans| ensures AtBreaks(text, Shift(spans, start)[i]) {
      assert AtBreaks(text[start..end], spans[i]);
      ShiftOneAtBreaks(text, start, end, spans[i]);
    }
  }

  /** Where nothing is cut hard, every piece begins and ends at a break or an end of the text. */
  lemma {:induction false} UncutAtBreaks(text: string, size: nat, k: nat)
    requires size > 0 && k <= |SEPARATORS| && !IsBlank(text) && !CutsHard(text, size, k)
    ensures AllAtBreaks(text, Pieces(text, size, k))
    decreases |SEPARATORS| - k, 1, 0
  {
    if |text| <= size {
    } else if FindFrom(text, SEPARATORS[k], 0).None? {
      UncutAtBreaks(text, size, k + 1);
    } else {
      PartPiecesAtBreaks(text, size, k, 0);
    }
  }

  lemma {:induction false} PartPiecesAtBreaks(text: string, size: nat, k: nat, start: nat)
    requires size > 0 && k < |SEPARATORS| && start <= |text|
    requires start == 0 || IsBreak(text[start - 1])
    requires !SomePartCutsHard(text, size, k, start)
    ensures AllAtBreaks(text, PartPieces(text, size, k, start))
    decreases |SEPARATORS| - k, 0, |text| - start
  {
    var end := PartEnd(text, SEPARATORS[k], start);
    PartEndsInBreak(text, k, start);
    OnePartAtBreaks(text, size, k, start, end);
    if FindFrom(text, SEPARATORS[k], start).Some? {
      SeparatorsEndInBreaks(k);
      PartPiecesAtBreaks(text, size, k, end);
    }
  }

  lemma {:induction false} OnePartAtBreaks(text: string, size: nat, k: nat, start: nat, end: nat)
    requires size > 0 && k < |SEPARATORS| && start <= end <= |text| && !PartCutsHard(text, size, k, start, end)
    requires start == 0 || IsBreak(text[start - 1])
    requires end == |text| || (end > 0 && IsBreak(text[end - 1]))
    ensures AllAtBreaks(text, OnePart(text, size, k, start, end))
    decreases |SEPARATORS| - (k + 1), 2, 0
  {
    if !Blank(text, start, end) && end - start > size {
      BlankPart(text, start, end);
      UncutAtBreaks(text[start..end], size, k + 1);
      ShiftAtBreaks(text, start, end, Pieces(text[start..end], size, k + 1));
    }
  }

  /** If every word fits the budget with the break after it, nothing is cut hard, and every piece
      begins and ends at a break or an end of the text. */
  lemma PiecesAtBreaks(text: string, size: nat)
    requires size > 0 && !IsBlank(text) && WordsFitWithBreak(text, size)
    ensures !CutsHard(text, size, 0)
    ensures AllAtBreaks(text, Pieces(text, size, 0))
  {
    CutsHardIff(text, size);
    UncutAtBreaks(text, size, 0);
  }

  // ---------------------------------------------------------------- which words are split

  /** A position that is not inside a word. */
  predicate Edge(text: string, p: nat) {
    p <= |text| && (p == 0 || p == |text| || IsBreak(text[p - 1]) || IsBreak(text[p]))
  }

  predicate AtEdges(text: string, s: Span) {
    Edge(text, s.lo) && Edge(text, s.hi)
  }

  predicate AllAtEdges(text: string, spans: seq<Span>) {
    forall i :: 0 <= i < |spans| ==> AtEdges(text, spans[i])
  }

  lemma EdgeOfPart(text: string, start: nat, end: nat, p: nat)
    requires start <= end <= |text| && p <= end - start
    requires start == 0 || IsBreak(text[start - 1])
    requires end == |text| || (end > 0 && IsBreak(text[end - 1]))
    ensures Edge(text[start..end], p) ==> Edge(text, start + p)
  {
    var part := text[start..end];
    if 0 < p < end - start {
      assert part[p - 1] == text[start + p - 1] && part[p] == text[start + p];
    }
  }

  lemma InsideOfPart(text: string, start: nat, end: nat, p: nat)
    requires start <= end <= |text| && p <= end - start && !Edge(text[start..end], p)
    ensures !Edge(text, start + p)
  {
    var part := text[start..end];
    assert part[p - 1] == text[start + p - 1] && part[p] == text[start + p];
  }

  lemma ShiftAtEdges(text: string, start: nat, end: nat, spans: seq<Span>)
    requires start <= end <= |text| && AllAtEdges(text[start..end], spans)
    requires start == 0 || IsBreak(text[start - 1])
    requires end == |text| || (end > 0 && IsBreak(text[end - 1]))
    ensures AllAtEdges(text, Shift(spans, start))
  {
    forall i | 0 <= i < |spans| ensures AtEdges(text, Shift(spans, start)[i]) {
      assert AtEdges(text[start..end], spans[i]);
      EdgeOfPart(text, start, end, spans[i].lo);
      EdgeOfPart(text, start, end, spans[i].hi);
    }
  }

  /** A hard cut between a word of exactly the budget and its break splits no word. */
  lemma LastBreakCut(text: string, size: nat)
    requires size > 0 && |text| == size + 1 && IsBreak(text[size])
    ensures AllAtEdges(text, HardCut(|text|, size, 0))
  {
    assert HardCut(|text|, size, 0) == [Span(0, size), Span(size, size + 1)];
  }

  lemma {:induction false} FittingAtEdges(text: string, size: nat, k: nat)
    requires size > 0 && k <= |SEPARATORS| && !IsBlank(text) && WordsFit(text, size) && SplitBefore(text, k)
    ensures AllAtEdges(text, Pieces(text, size, k))
    decreases |SEPARATORS| - k, 1, 0
  {
    if |text| <= size {
    } else if k == |SEPARATORS| {
      var j := FullySplitWord(text, size);
      assert !TooLong(text, size, 0, j);
      LastBreakCut(text, size);
    } else if FindFrom(text, SEPARATORS[k], 0).None? {
      AbsentSplitBefore(text, k);
      FittingAtEdges(text, size, k + 1);
    } else {
      FittingPartsAtEdges(text, size, k, 0);
    }
  }

  lemma {:induction false} FittingPartsAtEdges(text: string, size: nat, k: nat, start: nat)
    requires size > 0 && k < |SEPARATORS| && start <= |text| && WordsFit(text, size) && SplitBefore(text, k)
    requires start == 0 || IsBreak(text[start - 1])
    ensures AllAtEdges(text, PartPieces(text, size, k, start))
    decreases |SEPARATORS| - k, 0, |text| - start
  {
    var end := PartEnd(text, SEPARATORS[k], start);
    PartEndsInBreak(text, k, start);
    FittingPartAtEdges(text, size, k, start, end);
    if FindFrom(text, SEPARATORS[k], start).Some? {
      SeparatorsEndInBreaks(k);
      FittingPartsAtEdges(text, size, k, end);
    }
  }

  lemma {:induction false} FittingPartAtEdges(text: string, size: nat, k: nat, start: nat, end: nat)
    requires size > 0 && k < |SEPARATORS| && start <= |text| && WordsFit(text, size) && SplitBefore(text, k)
    requires start == 0 || IsBreak(text[start - 1])
    requires end == PartEnd(text, SEPARATORS[k], start) && (end == |text| || (end > 0 && IsBreak(text[end - 1])))
    ensures AllAtEdges(text, OnePart(text, size, k, start, end))
    decreases |SEPARATORS| - (k + 1), 2, 0
  {
    if !Blank(text, start, end) && end - start > size {
      BlankPart(text, start, end);
      WordsFitSlice(text, size, start, end);
      PartSplitBefore(text, k, start);
      FittingAtEdges(text[start..end], size, k + 1);
      ShiftAtEdges(text, start, end, Pieces(text[start..end], size, k + 1));
    }
  }

  lemma ShiftMember(spans: seq<Span>, offset: nat, t: Span) returns (s: Span)
    requires t in spans
    ensures s == Span(t.lo + offset, t.hi + offset) && s in Shift(spans, offset)
  {
    var i :| 0 <= i < |spans| && spans[i] == t;
    s := Shift(spans, offset)[i];
  }

  /** A word over the budget is split: some piece ends inside it. */
  lemma {:induction false} TooLongSplit(text: string, size: nat, k: nat, i: nat, j: nat) returns (s: Span)
    requires size > 0 && k <= |SEPARATORS| && TooLong(text, size, i, j) && SplitBefore(text, k)
    ensures s in Pieces(text, size, k) && s.hi <= |text| && !Edge(text, s.hi)
    decreases |SEPARATORS| - k, 1, 0
  {
    if k == |SEPARATORS| {
      s := Span(0, size);
    } else if FindFrom(text, SEPARATORS[k], 0).None? {
      AbsentSplitBefore(text, k);
      s := TooLongSplit(text, size, k + 1, i, j);
    } else {
      s := TooLongPartSplit(text, size, k, 0, i, j);
    }
  }

  lemma {:induction false} TooLongPartSplit(text: string, size: nat, k: nat, start: nat, i: nat, j: nat) returns (s: Span)
    requires size > 0 && k < |SEPARATORS| && start <= i && TooLong(text, size, i, j) && SplitBefore(text, k)
    requires start == 0 || IsBreak(text[start - 1])
    ensures s in PartPieces(text, size, k, start) && s.hi <= |text| && !Edge(text, s.hi)
    decreases |SEPARATORS| - k, 0, |text| - start
  {
    var end := PartEnd(text, SEPARATORS[k], start);
    SeparatorsEndInBreaks(k);
    PartEndsInBreak(text, k, start);
    PartHoldsWord(text, k, start, i, j);
    if end <= i {
      s := TooLongPartSplit(text, size, k, end, i, j);
    } else {
      PartSplitBefore(text, k, start);
      s := TooLongInPart(text, size, k, start, end, i, j);
    }
  }

  lemma {:induction false} TooLongInPart(text: string, size: nat, k: nat, start: nat, end: nat, i: nat, j: nat) returns (s: Span)
    requires size > 0 && k < |SEPARATORS| && start <= i && j <= end <= |text| && TooLong(text, size, i, j)
    requires SplitBefore(text[start..end], k + 1)
    requires start == 0 || IsBreak(text[start - 1])
    requires end == |text| || (end > 0 && IsBreak(text[end - 1]))
    ensures s in OnePart(text, size, k, start, end) && s.hi <= |text| && !Edge(text, s.hi)
    decreases |SEPARATORS| - (k + 1), 2, 0
  {
    WordOfPart(text, start, end, i, j);
    var t := TooLongSplit(text[start..end], size, k + 1, i - start, j - start);
    InsideOfPart(text, start, end, t.hi);
    s := ShiftMember(Pieces(text[start..end], size, k + 1), start, t);
  }

  /** A word is split exactly when it is longer than the budget: the cuts all lie between words if and
      only if every word fits. */
  lemma WordsSplitIff(text: string, size: nat)
    requires size > 0 && !IsBlank(text)
    ensures AllAtEdges(text, Pieces(text, size, 0)) <==> WordsFit(text, size)
  {
    if WordsFit(text, size) {
      FittingAtEdges(text, size, 0);
    } else {
      var i: nat, j: nat :| TooLong(text, size, i, j);
      var s := TooLongSplit(text, size, 0, i, j);
      assert !AtEdges(text, s);
    }
  }
}
