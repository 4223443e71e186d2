/** The ladder of separators: stronger boundaries before weaker ones.

    Paragraph, line, sentence, clause and word breaks are tried in this order, each on what the one
    before left too long. The statements name the separators themselves. */
module ChunkBoundaries {
  import opened Text
  import opened Chunking

  /** `p` is right after an occurrence of `sep`. */
  predicate After(text: string, sep: string, p: nat) {
    |sep| <= p <= |text| && text[p - |sep|..p] == sep
  }

  /** `p` is an end of the text or right after one of the `n` strongest separators. */
  ghost predicate AtStrong(text: string, seps: seq<string>, n: nat, p: nat) {
    p == 0 || p == |text| || exists j :: 0 <= j < n <= |seps| && After(text, seps[j], p)
  }

  /** An occurrence of one of the `n` strongest separators that ends at `p` begins before `lo` unless `p` is `hi`:
      `text[lo..hi]` is not divided by them. */
  ghost predicate Undivided(text: string, seps: seq<string>, n: nat, lo: nat, hi: nat) {
    forall j, p: nat :: 0 <= j < n <= |seps| && p < hi && After(text, seps[j], p) ==> p < lo + |seps[j]|
  }

  /** A stretch between neighbouring strong separators that is over the budget. */
  ghost predicate LongRun(text: string, size: nat, seps: seq<string>, n: nat, a: nat, b: nat) {
    && a <= b <= |text| && b - a > size && Undivided(text, seps, n, a, b)
    && AtStrong(text, seps, n, a) && AtStrong(text, seps, n, b)
  }

  ghost predicate InLongRun(text: string, size: nat, seps: seq<string>, n: nat, s: Span) {
    exists a: nat, b: nat :: LongRun(text, size, seps, n, a, b) && a <= s.lo && s.hi <= b
  }

  /** The piece holds the `n`-th separator somewhere before its end. */
  ghost predicate Joins(text: string, seps: seq<string>, n: nat, s: Span) {
    n < |seps| && exists p :: s.lo + |seps[n]| <= p < s.hi && After(text, seps[n], p)
  }

  ghost predicate BetweenStrong(text: string, seps: seq<string>, n: nat, s: Span) {
    AtStrong(text, seps, n, s.lo) && AtStrong(text, seps, n, s.hi)
  }

  /** Cut inside a stretch between strong separators only where that is over the budget, and left joined across
      the next weaker separator only as a whole such stretch. */
  ghost predicate WellCut(text: string, size: nat, seps: seq<string>, n: nat, s: Span) {
    && s.lo <= s.hi <= |text|
    && (BetweenStrong(text, seps, n, s) || InLongRun(text, size, seps, n, s))
    && (Joins(text, seps, n, s) ==> BetweenStrong(text, seps, n, s))
  }

  ghost predicate AllWellCut(text: string, size: nat, seps: seq<string>, n: nat, spans: seq<Span>) {
    forall i :: 0 <= i < |spans| ==> WellCut(text, size, seps, n, spans[i])
  }

  // ---------------------------------------------------------------- parts

  lemma SliceOfSlice(text: string, start: nat, end: nat, lo: nat, hi: nat)
    requires start <= end <= |text| && lo <= hi <= end - start
    ensures text[start..end][lo..hi] == text[start + lo..start + hi]
  {
    var part := text[start..end];
    assert forall i :: lo <= i < hi ==> part[i] == text[start + i];
    assert |part[lo..hi]| == |text[start + lo..start + hi]|;
  }

  lemma AfterOfPart(text: string, start: nat, end: nat, sep: string, p: nat)
    requires start <= end <= |text| && p <= end - start
    ensures After(text[start..end], sep, p) <==> |sep| <= p && After(text, sep, start + p)
  {
    if |sep| <= p {
      SliceOfSlice(text, start, end, p - |sep|, p);
    }
  }

  lemma UndividedPart(text: string, seps: seq<string>, n: nat, start: nat, end: nat)
    requires start <= end <= |text| && Undivided(text, seps, n, start, end)
    ensures Undivided(text[start..end], seps, n, 0, end - start)
  {
    if !Undivided(text[start..end], seps, n, 0, end - start) {
      var j, p: nat :| 0 <= j < n <= |seps| && p < end - start && After(text[start..end], seps[j], p) && p >= |seps[j]|;
      AfterOfPart(text, start, end, seps[j], p);
      assert false;
    }
  }

  lemma AtStrongOfPart(text: string, seps: seq<string>, n: nat, start: nat, end: nat, p: nat)
    requires start <= end <= |text| && p <= end - start
    requires AtStrong(text, seps, n, start) && AtStrong(text, seps, n, end) && AtStrong(text[start..end], seps, n, p)
    ensures AtStrong(text, seps, n, start + p)
  {
    if 0 < p < end - start {
      var j :| 0 <= j < n <= |seps| && After(text[start..end], seps[j], p);
      AfterOfPart(text, start, end, seps[j], p);
    }
  }

  lemma BetweenStrongOfPart(text: string, seps: seq<string>, n: nat, start: nat, end: nat, s: Span)
    requires start <= end <= |text| && s.lo <= s.hi <= end - start
    requires AtStrong(text, seps, n, start) && AtStrong(text, seps, n, end)
    requires BetweenStrong(text[start..end], seps, n, s)
    ensures BetweenStrong(text, seps, n, Span(start + s.lo, start + s.hi))
  {
    AtStrongOfPart(text, seps, n, start, end, s.lo);
    AtStrongOfPart(text, seps, n, start, end, s.hi);
  }

  lemma LongRunOfPart(text: string, size: nat, seps: seq<string>, n: nat, start: nat, end: nat, a: nat, b: nat)
    requires start <= end <= |text| && AtStrong(text, seps, n, start) && AtStrong(text, seps, n, end)
    requires LongRun(text[start..end], size, seps, n, a, b)
    ensures LongRun(text, size, seps, n, start + a, start + b)
  {
    AtStrongOfPart(text, seps, n, start, end, a);
    AtStrongOfPart(text, seps, n, start, end, b);
    if !Undivided(text, seps, n, start + a, start + b) {
      var j, p: nat :| 0 <= j < n <= |seps| && p < start + b && After(text, seps[j], p) && p >= start + a + |seps[j]|;
      AfterOfPart(text, start, end, seps[j], p - start);
      assert false;
    }
  }

  lemma JoinsOfPart(text: string, seps: seq<string>, n: nat, start: nat, end: nat, s: Span)
    requires start <= end <= |text| && s.lo <= s.hi <= end - start
    requires Joins(text, seps, n, Span(start + s.lo, start + s.hi))
    ensures Joins(text[start..end], seps, n, s)
  {
    var p :| start + s.lo + |seps[n]| <= p < start + s.hi && After(text, seps[n], p);
    AfterOfPart(text, start, end, seps[n], p - start);
    assert After(text[start..end], seps[n], p - start);
  }

  /** Nothing is joined across a separator that does not divide the stretch it lies in. */
  lemma UndividedNotJoined(text: string, seps: seq<string>, k: nat, n: nat, lo: nat, hi: nat, s: Span)
    requires n < k <= |seps| && lo <= s.lo && s.hi <= hi <= |text| && Undivided(text, seps, k, lo, hi)
    ensures !Joins(text, seps, n, s)
  {
  }

  /** What is over the budget and not divided by the first `n` separators may be cut anywhere. */
  lemma WithinLongRun(text: string, size: nat, seps: seq<string>, k: nat, n: nat, s: Span)
    requires n <= k <= |seps| && |text| > size && Undivided(text, seps, k, 0, |text|) && s.hi <= |text|
    ensures InLongRun(text, size, seps, n, s)
  {
    forall j, p: nat | 0 <= j < n <= |seps| && p < |text| && After(text, seps[j], p) ensures p < |seps[j]| {
    }
    assert LongRun(text, size, seps, n, 0, |text|);
  }

  lemma AfterOccurs(text: string, sep: string, p: nat)
    ensures After(text, sep, p) <==> |sep| <= p && OccursAt(text, sep, p - |sep|)
  {
  }

  /** A part is not divided by its separator, and ends right after it or with the text. */
  lemma PartUndivided(text: string, seps: seq<string>, k: nat, start: nat, end: nat)
    requires k < |seps| && seps[k] != "" && start <= |text| && end == PartEnd(text, seps[k], start)
    requires Undivided(text, seps, k, 0, |text|)
    ensures Undivided(text, seps, k + 1, start, end) && AtStrong(text, seps, k + 1, end)
  {
    forall j, p: nat | 0 <= j < k + 1 <= |seps| && p < end && After(text, seps[j], p) ensures p < start + |seps[j]| {
      AfterOccurs(text, seps[j], p);
    }
    if FindFrom(text, seps[k], start).Some? {
      assert After(text, seps[k], end);
    }
  }

  lemma WellCutOfPart(text: string, size: nat, seps: seq<string>, k: nat, n: nat, start: nat, end: nat, s: Span)
    requires k < |seps| && start <= end <= |text| && k < n
    requires AtStrong(text, seps, k + 1, start) && AtStrong(text, seps, k + 1, end)
    requires n <= |seps| && WellCut(text[start..end], size, seps, n, s)
    ensures WellCut(text, size, seps, n, Span(start + s.lo, start + s.hi))
  {
    assert AtStrong(text, seps, n, start) && AtStrong(text, seps, n, end);
    var t := Span(start + s.lo, start + s.hi);
    if BetweenStrong(text[start..end], seps, n, s) {
      BetweenStrongOfPart(text, seps, n, start, end, s);
    } else {
      var a: nat, b: nat :| LongRun(text[start..end], size, seps, n, a, b) && a <= s.lo && s.hi <= b;
      LongRunOfPart(text, size, seps, n, start, end, a, b);
      if Joins(text, seps, n, t) {
        JoinsOfPart(text, seps, n, start, end, s);
      }
    }
  }

  // ---------------------------------------------------------------- pieces

  lemma WellCutAppend(text: string, size: nat, seps: seq<string>, n: nat, a: seq<Span>, b: seq<Span>)
    requires AllWellCut(text, size, seps, n, a) && AllWellCut(text, size, seps, n, b)
    ensures AllWellCut(text, size, seps, n, a + b)
  {
  }

  /** The pieces of an over-long text that none of the first `k` separators divides. */
  lemma LowerLevels(text: string, size: nat, seps: seq<string>, k: nat, n: nat, spans: seq<Span>)
    requires n < k <= |seps| && |text| > size && Undivided(text, seps, k, 0, |text|) && InRange(text, spans)
    ensures AllWellCut(text, size, seps, n, spans)
  {
    forall i | 0 <= i < |spans| ensures WellCut(text, size, seps, n, spans[i]) {
      WithinLongRun(text, size, seps, k, n, spans[i]);
      UndividedNotJoined(text, seps, k, n, 0, |text|, spans[i]);
    }
  }

  ghost predicate Inside(spans: seq<Span>, lo: nat, hi: nat) {
    forall i :: 0 <= i < |spans| ==> lo <= spans[i].lo <= spans[i].hi <= hi
  }

  lemma OnePartInside(text: string, size: nat, k: nat, start: nat, end: nat)
    requires size > 0 && k < |SEPARATORS| && start <= end <= |text|
    ensures Inside(OnePart(text, size, k, start, end), start, end)
  {
  }

  /** The level at hand divides an over-long text at every one of its separators. */
  lemma SameLevel(text: string, size: nat, seps: seq<string>, k: nat, start: nat, end: nat, spans: seq<Span>)
    requires k < |seps| && |text| > size && Undivided(text, seps, k, 0, |text|)
    requires end <= |text| && Undivided(text, seps, k + 1, start, end) && Inside(spans, start, end)
    ensures AllWellCut(text, size, seps, k, spans)
  {
    forall i | 0 <= i < |spans| ensures WellCut(text, size, seps, k, spans[i]) {
      WithinLongRun(text, size, seps, k, k, spans[i]);
      UndividedNotJoined(text, seps, k + 1, k, start, end, spans[i]);
    }
  }

  lemma ShiftWellCut(text: string, size: nat, seps: seq<string>, k: nat, n: nat, start: nat, end: nat, spans: seq<Span>)
    requires k < n <= |seps| && start <= end <= |text|
    requires AtStrong(text, seps, k + 1, start) && AtStrong(text, seps, k + 1, end)
    requires AllWellCut(text[start..end], size, seps, n, spans)
    ensures AllWellCut(text, size, seps, n, Shift(spans, start))
  {
    forall i | 0 <= i < |spans| ensures WellCut(text, size, seps, n, Shift(spans, start)[i]) {
      var s := spans[i];
      assert WellCut(text[start..end], size, seps, n, s);
      WellCutOfPart(text, size, seps, k, n, start, end, s);
      assert Shift(spans, start)[i] == Span(start + s.lo, start + s.hi);
    }
  }

  lemma WholePartWellCut(text: string, size: nat, seps: seq<string>, k: nat, n: nat, start: nat, end: nat)
    requires k < n <= |seps| && start <= end <= |text|
    requires AtStrong(text, seps, k + 1, start) && AtStrong(text, seps, k + 1, end)
    ensures WellCut(text, size, seps, n, Span(start, end))
  {
  }

  lemma AbsentUndivided(text: string, seps: seq<string>, k: nat)
    requires k < |seps| && seps[k] != "" && Undivided(text, seps, k, 0, |text|) && FindFrom(text, seps[k], 0).None?
    ensures Undivided(text, seps, k + 1, 0, |text|)
  {
    PartUndivided(text, seps, k, 0, |text|);
  }

  lemma LastLevel(text: string, size: nat, seps: seq<string>, n: nat, spans: seq<Span>)
    requires n == |seps| && |text| > size && Undivided(text, seps, n, 0, |text|) && InRange(text, spans)
    ensures AllWellCut(text, size, seps, n, spans)
  {
    forall i | 0 <= i < |spans| ensures WellCut(text, size, seps, n, spans[i]) {
      WithinLongRun(text, size, seps, n, n, spans[i]);
    }
  }

  lemma SeparatorsNotEmpty(k: nat)
    requires k < |SEPARATORS|
    ensures SEPARATORS[k] != ""
  {
    assert |SEPARATORS| == 8;
  }

  lemma {:induction false} OnePartWellCut(text: string, size: nat, seps: seq<string>, k: nat, n: nat, start: nat, end: nat)
    requires size > 0 && seps == SEPARATORS && k < n <= |seps| && start <= end <= |text|
    requires Undivided(text, seps, k + 1, start, end)
    requires AtStrong(text, seps, k + 1, start) && AtStrong(text, seps, k + 1, end)
    ensures AllWellCut(text, size, seps, n, OnePart(text, size, k, start, end))
    decreases |SEPARATORS| - (k + 1), 2, 0
  {
    if !Blank(text, start, end) {
      if end - start > size {
        UndividedPart(text, seps, k + 1, start, end);
        PiecesWellCutFrom(text[start..end], size, seps, k + 1, n);
        ShiftWellCut(text, size, seps, k, n, start, end, Pieces(text[start..end], size, k + 1));
      } else {
        WholePartWellCut(text, size, seps, k, n, start, end);
      }
    }
  }

  lemma {:induction false} FirstPartWellCut(text: string, size: nat, seps: seq<string>, k: nat, n: nat, start: nat, end: nat)
    requires size > 0 && seps == SEPARATORS && k < |seps| && k <= n <= |seps| && start <= end <= |text| && |text| > size
    requires Undivided(text, seps, k, 0, |text|) && Undivided(text, seps, k + 1, start, end)
    requires AtStrong(text, seps, k + 1, start) && AtStrong(text, seps, k + 1, end)
    ensures AllWellCut(text, size, seps, n, OnePart(text, size, k, start, end))
    decreases |SEPARATORS| - (k + 1), 2, 1
  {
    if n == k {
      OnePartInside(text, size, k, start, end);
      SameLevel(text, size, seps, k, start, end, OnePart(text, size, k, start, end));
    } else {
      OnePartWellCut(text, size, seps, k, n, start, end);
    }
  }

  lemma {:induction false} PartsWellCut(text: string, size: nat, seps: seq<string>, k: nat, n: nat, start: nat)
    requires size > 0 && seps == SEPARATORS && k < |seps| && k <= n <= |seps| && start <= |text| && |text| > size
    requires Undivided(text, seps, k, 0, |text|) && AtStrong(text, seps, k + 1, start) && seps[k] != ""
    ensures AllWellCut(text, size, seps, n, PartPieces(text, size, k, start))
    decreases |SEPARATORS| - k, 0, |text| - start
  {
    var end := PartEnd(text, seps[k], start);
    PartUndivided(text, seps, k, start, end);
    var one := OnePart(text, size, k, start, end);
    FirstPartWellCut(text, size, seps, k, n, start, end);
    if FindFrom(text, seps[k], start).Some? {
      PartsWellCut(text, size, seps, k, n, end);
      WellCutAppend(text, size, seps, n, one, PartPieces(text, size, k, end));
    }
  }

  lemma {:induction false} PiecesWellCutFrom(text: string, size: nat, seps: seq<string>, k: nat, n: nat)
    requires size > 0 && seps == SEPARATORS && k <= |seps| && n <= |seps| && Undivided(text, seps, k, 0, |text|)
    ensures AllWellCut(text, size, seps, n, Pieces(text, size, k))
    decreases |SEPARATORS| - k, 1, 0
  {
    if |text| <= size {
      assert BetweenStrong(text, seps, n, Span(0, |text|));
    } else if n < k {
      LowerLevels(text, size, seps, k, n, Pieces(text, size, k));
    } else if k == |SEPARATORS| {
      LastLevel(text, size, seps, n, Pieces(text, size, k));
    } else {
      SeparatorsNotEmpty(k);
      if FindFrom(text, SEPARATORS[k], 0).None? {
        AbsentUndivided(text, seps, k);
        PiecesWellCutFrom(text, size, seps, k + 1, n);
      } else {
        PartsWellCut(text, size, seps, k, n, 0);
      }
    }
  }

  /** For each rung of the ladder: a piece begins and ends at one of the `n` strongest separators or an end of the
      text, unless it lies in a stretch between two of them that is over the budget; and a piece that holds the next
      separator before its end is the whole of a stretch between two stronger ones. */
  lemma PiecesWellCut(text: string, size: nat, seps: seq<string>, n: nat)
    requires size > 0 && n <= 8 && seps == ["\n\n", "\n", ". ", "? ", "! ", "; ", ", ", " "]
    ensures AllWellCut(text, size, seps, n, Pieces(text, size, 0))
  {
    PiecesWellCutFrom(text, size, seps, 0, n);
  }

  ghost predicate RunsFit(text: string, size: nat, seps: seq<string>, n: nat) {
    forall a: nat, b: nat :: !LongRun(text, size, seps, n, a, b)
  }

  /** Where every stretch between the `n` strongest separators fits, pieces begin and end nowhere else. */
  lemma FittingRunsKept(text: string, size: nat, seps: seq<string>, n: nat, s: Span)
    requires size > 0 && n <= 8 && seps == ["\n\n", "\n", ". ", "? ", "! ", "; ", ", ", " "]
    requires RunsFit(text, size, seps, n)
    requires s in Pieces(text, size, 0)
    ensures BetweenStrong(text, seps, n, s)
  {
    PiecesWellCut(text, size, seps, n);
    var i :| 0 <= i < |Pieces(text, size, 0)| && Pieces(text, size, 0)[i] == s;
    assert WellCut(text, size, seps, n, Pieces(text, size, 0)[i]);
  }

  /** `p` is an end of the text or right after `sep`. */
  predicate AtSeparator(text: string, sep: string, p: nat) {
    p == 0 || p == |text| || After(text, sep, p)
  }

  /** A stretch from one `sep`, or the beginning, to the next, or the end. */
  ghost predicate Stretch(text: string, sep: string, a: nat, b: nat) {
    && a <= b <= |text| && AtSeparator(text, sep, a) && AtSeparator(text, sep, b)
    && forall p: nat :: p < b && After(text, sep, p) ==> p < a + |sep|
  }

  ghost predicate Absent(text: string, seps: seq<string>, n: nat) {
    forall j, p: nat :: 0 <= j < n <= |seps| ==> !After(text, seps[j], p)
  }

  lemma StrongIsSeparator(text: string, seps: seq<string>, n: nat, p: nat)
    requires n < |seps| && Absent(text, seps, n) && AtStrong(text, seps, n + 1, p)
    ensures AtSeparator(text, seps[n], p)
  {
  }

  lemma LongRunIsStretch(text: string, size: nat, seps: seq<string>, n: nat, a: nat, b: nat)
    requires n < |seps| && Absent(text, seps, n) && LongRun(text, size, seps, n + 1, a, b)
    ensures Stretch(text, seps[n], a, b) && b - a > size
  {
    StrongIsSeparator(text, seps, n, a);
    StrongIsSeparator(text, seps, n, b);
  }

  /** Where no stronger separator occurs and every stretch up to the next separator fits, pieces begin and end only
      there: if every paragraph fits, at empty lines; in one line of fitting sentences, after a full stop and a space;
      and so on down to single words. */
  lemma FittingStretchesKept(text: string, size: nat, seps: seq<string>, n: nat, s: Span)
    requires size > 0 && n < 8 && seps == ["\n\n", "\n", ". ", "? ", "! ", "; ", ", ", " "]
    requires Absent(text, seps, n)
    requires forall a: nat, b: nat :: Stretch(text, seps[n], a, b) ==> b - a <= size
    requires s in Pieces(text, size, 0)
    ensures AtSeparator(text, seps[n], s.lo) && AtSeparator(text, seps[n], s.hi)
  {
    if !RunsFit(text, size, seps, n + 1) {
      var a: nat, b: nat :| LongRun(text, size, seps, n + 1, a, b);
      LongRunIsStretch(text, size, seps, n, a, b);
      assert false;
    }
    FittingRunsKept(text, size, seps, n + 1, s);
    StrongIsSeparator(text, seps, n, s.lo);
    StrongIsSeparator(text, seps, n, s.hi);
  }
}
