/** The boundary-aware chunker of `crates/common/src/chunk.rs`.

    The specification works on positions in the source text: splitting yields the spans of the
    pieces, merging yields windows over the pieces. The methods build strings in loops, as the
    source does, and are proved to return exactly the text those spans and windows name. */
module Chunking {
  import opened Text

  const CHUNK_SIZE: nat := 500
  const CHUNK_OVERLAP: nat := 60

  /** In descending order of how much structure they preserve. */
  const SEPARATORS: seq<string> := ["\n\n", "\n", ". ", "? ", "! ", "; ", ", ", " "]

  /** A half-open range of positions. */
  datatype Span = Span(lo: nat, hi: nat)

  datatype Chunk = Chunk(text: string, charStart: nat, charEnd: nat)

  // ---------------------------------------------------------------- spans of pieces

  predicate InRange(text: string, spans: seq<Span>) {
    forall i :: 0 <= i < |spans| ==> spans[i].lo <= spans[i].hi <= |text|
  }

  function Slices(text: string, spans: seq<Span>): (r: seq<string>)
    requires InRange(text, spans)
  {
    if spans == [] then []
    else [text[spans[0].lo..spans[0].hi]] + Slices(text, spans[1..])
  }

  lemma SlicesOne(text: string, span: Span)
    requires span.lo <= span.hi <= |text|
    ensures Slices(text, [span]) == [text[span.lo..span.hi]]
  {
    assert [span][1..] == [];
  }

  lemma {:induction false} SlicesAppend(text: string, a: seq<Span>, b: seq<Span>)
    requires InRange(text, a) && InRange(text, b)
    ensures InRange(text, a + b)
    ensures Slices(text, a + b) == Slices(text, a) + Slices(text, b)
  {
    if a == [] {
      assert a + b == b;
    } else {
      SlicesAppend(text, a[1..], b);
      SplitFirst(a, b);
    }
  }

  function Shift(spans: seq<Span>, offset: nat): (r: seq<Span>)
    ensures |r| == |spans|
    ensures forall i :: 0 <= i < |r| ==> r[i] == Span(spans[i].lo + offset, spans[i].hi + offset)
  {
    if spans == [] then []
    else [Span(spans[0].lo + offset, spans[0].hi + offset)] + Shift(spans[1..], offset)
  }

  /** The hard cut of one unbroken token longer than the budget. */
  function HardCut(n: nat, size: nat, from: nat): (r: seq<Span>)
    requires size > 0 && from <= n
    ensures forall i :: 0 <= i < |r| ==> r[i].lo <= r[i].hi <= n
    decreases n - from
  {
    if n - from <= size then [Span(from, n)]
    else [Span(from, from + size)] + HardCut(n, size, from + size)
  }

  /** The spans of the pieces that fit the budget, descending the separators from level `k`. */
  function Pieces(text: string, size: nat, k: nat): (r: seq<Span>)
    requires size > 0 && k <= |SEPARATORS|
    ensures InRange(text, r)
    decreases |SEPARATORS| - k, 1, 0
  {
    if |text| <= size then [Span(0, |text|)]
    else if k == |SEPARATORS| then HardCut(|text|, size, 0)
    else if FindFrom(text, SEPARATORS[k], 0).None? then Pieces(text, size, k + 1)
    else PartPieces(text, size, k, 0)
  }

  /** The pieces of the parts of `text[start..]`; a part keeps its separator on the right. */
  function PartPieces(text: string, size: nat, k: nat, start: nat): (r: seq<Span>)
    requires size > 0 && k < |SEPARATORS| && start <= |text|
    ensures InRange(text, r)
    decreases |SEPARATORS| - k, 0, |text| - start
  {
    match FindFrom(text, SEPARATORS[k], start)
    case None => OnePart(text, size, k, start, |text|)
    case Some(p) =>
      var end := p + |SEPARATORS[k]|;
      OnePart(text, size, k, start, end) + PartPieces(text, size, k, end)
  }

  /** A whitespace-only part is dropped, an oversized one is split by the next separator. */
  function OnePart(text: string, size: nat, k: nat, start: nat, end: nat): (r: seq<Span>)
    requires size > 0 && k < |SEPARATORS| && start <= end <= |text|
    ensures InRange(text, r)
    decreases |SEPARATORS| - (k + 1), 2, 0
  {
    if Blank(text, start, end) then []
    else if end - start > size then Shift(Pieces(text[start..end], size, k + 1), start)
    else [Span(start, end)]
  }

  lemma {:induction false} SlicesShift(text: string, start: nat, end: nat, spans: seq<Span>)
    requires start <= end <= |text| && InRange(text[start..end], spans)
    ensures InRange(text, Shift(spans, start))
    ensures Slices(text, Shift(spans, start)) == Slices(text[start..end], spans)
  {
    if spans != [] {
      SlicesShift(text, start, end, spans[1..]);
      assert Shift(spans, start)[1..] == Shift(spans[1..], start);
      var lo, hi := spans[0].lo, spans[0].hi;
      assert lo <= hi <= end - start;
      assert text[start..end][lo..hi] == text[start + lo..start + hi];
    }
  }

  lemma BlankPart(text: string, start: nat, end: nat)
    requires start <= end <= |text|
    ensures IsBlank(text[start..end]) <==> Blank(text, start, end)
  {
    if IsBlank(text[start..end]) {
      forall i | start <= i < end ensures IsWhitespace(text[i]) {
        assert text[start..end][i - start] == text[i];
      }
    }
  }

  lemma HardCutStep(text: string, size: nat, from: nat)
    requires size > 0 && from < |text|
    ensures Slices(text, HardCut(|text|, size, from)) ==
            if |text| - from <= size then [text[from..]]
            else [text[from..from + size]] + Slices(text, HardCut(|text|, size, from + size))
  {
    if |text| - from > size {
      var rest := HardCut(|text|, size, from + size);
      assert HardCut(|text|, size, from)[1..] == rest;
    } else {
      SlicesOne(text, Span(from, |text|));
      assert text[from..|text|] == text[from..];
    }
  }

  /** `slice::chunks`: consecutive cuts of `size` characters, the last one shorter. */
  method CutHard(text: string, size: nat) returns (out: seq<string>)
    requires size > 0 && |text| > size
    ensures out == Slices(text, HardCut(|text|, size, 0))
  {
    out := [];
    var from: nat := 0;
    while |text| - from > size
      invariant 0 <= from < |text|
      invariant out + Slices(text, HardCut(|text|, size, from)) == Slices(text, HardCut(|text|, size, 0))
    {
      HardCutStep(text, size, from);
      Regroup(out, [text[from..from + size]], Slices(text, HardCut(|text|, size, from + size)));
      out := out + [text[from..from + size]];
      from := from + size;
    }
    HardCutStep(text, size, from);
    out := out + [text[from..]];
  }

  /** Where the part that starts at `start` ends, its separator included. */
  function PartEnd(text: string, sep: string, start: nat): (end: nat)
    requires sep != "" && start <= |text|
    ensures start <= end <= |text|
  {
    match FindFrom(text, sep, start)
    case None => |text|
    case Some(p) => p + |sep|
  }

  lemma SplitOnStep(text: string, sep: string, start: nat, parts: seq<string>) returns (end: nat)
    requires sep != "" && start <= |text| && parts == SplitOn(text, sep, start)
    ensures end == PartEnd(text, sep, start)
    ensures |parts| > 1 <==> FindFrom(text, sep, start).Some?
    ensures (if |parts| > 1 then parts[0] + sep else parts[0]) == text[start..end]
    ensures |parts| > 1 ==> parts[1..] == SplitOn(text, sep, end)
  {
    match FindFrom(text, sep, start)
    case None =>
      end := |text|;
    case Some(p) =>
      end := p + |sep|;
      assert text[start..end] == text[start..p] + text[p..end];
  }

  lemma PartPiecesStep(text: string, size: nat, k: nat, start: nat, pieces: seq<string>)
    returns (rest: seq<string>)
    requires size > 0 && k < |SEPARATORS| && start <= |text|
    requires pieces == Slices(text, OnePart(text, size, k, start, PartEnd(text, SEPARATORS[k], start)))
    ensures Slices(text, PartPieces(text, size, k, start)) == pieces + rest
    ensures rest == if FindFrom(text, SEPARATORS[k], start).None? then []
                    else Slices(text, PartPieces(text, size, k, PartEnd(text, SEPARATORS[k], start)))
  {
    if FindFrom(text, SEPARATORS[k], start).None? {
      rest := [];
    } else {
      var end := PartEnd(text, SEPARATORS[k], start);
      rest := Slices(text, PartPieces(text, size, k, end));
      SlicesAppend(text, OnePart(text, size, k, start, end), PartPieces(text, size, k, end));
    }
  }

  /** `split_to_size`: the loop over the parts returns exactly the text of the specified spans. */
  method SplitToSize(text: string, size: nat, k: nat) returns (out: seq<string>)
    requires size > 0 && k <= |SEPARATORS|
    ensures out == Slices(text, Pieces(text, size, k))
    decreases |SEPARATORS| - k, 0
  {
    if |text| <= size {
      SlicesOne(text, Span(0, |text|));
      assert text[0..|text|] == text;
      return [text];
    }
    if k == |SEPARATORS| {
      out := CutHard(text, size);
      return;
    }
    var sep := SEPARATORS[k];
    if FindFrom(text, sep, 0).None? {
      out := SplitToSize(text, size, k + 1);
      return;
    }
    out := SplitParts(text, size, k);
  }

  /** The loop over the parts. */
  method SplitParts(text: string, size: nat, k: nat) returns (out: seq<string>)
    requires size > 0 && k < |SEPARATORS|
    ensures out == Slices(text, PartPieces(text, size, k, 0))
    decreases |SEPARATORS| - (k + 1), 2
  {
    out := [];
    var sep := SEPARATORS[k];
    var parts := SplitOn(text, sep, 0);
    ghost var start: nat := 0;
    ghost var rest := Slices(text, PartPieces(text, size, k, 0));
    ghost var all := rest;
    for i := 0 to |parts|
      invariant start <= |text|
      invariant i < |parts| ==> parts[i..] == SplitOn(text, sep, start)
      invariant i < |parts| ==> rest == Slices(text, PartPieces(text, size, k, start))
      invariant i == |parts| ==> rest == []
      invariant out + rest == all
    {
      var withSep := if i + 1 < |parts| then parts[i] + sep else parts[i];
      ghost var end := SplitOnStep(text, sep, start, parts[i..]);
      var pieces := PartToSize(text, start, end, withSep, size, k);
      rest := PartPiecesStep(text, size, k, start, pieces);
      Regroup(out, pieces, rest);
      out := out + pieces;
      start := end;
    }
  }

  /** The body of the loop over the parts, for the part that is `text[start..end]`. */
  method PartToSize(ghost text: string, ghost start: nat, ghost end: nat, withSep: string, size: nat, k: nat)
    returns (out: seq<string>)
    requires size > 0 && k < |SEPARATORS| && start <= end <= |text| && withSep == text[start..end]
    ensures out == Slices(text, OnePart(text, size, k, start, end))
    decreases |SEPARATORS| - (k + 1), 1
  {
    BlankPart(text, start, end);
    if IsBlank(withSep) {
      out := [];
    } else if |withSep| > size {
      out := SplitToSize(withSep, size, k + 1);
      SlicesShift(text, start, end, Pieces(withSep, size, k + 1));
    } else {
      out := [withSep];
    }
  }

  // ---------------------------------------------------------------- merging pieces

  /** The number of characters in `pieces[lo..hi]`. */
  function Total(pieces: seq<string>, lo: nat, hi: nat): nat
    requires lo <= hi <= |pieces|
    decreases hi
  {
    if lo == hi then 0 else Total(pieces, lo, hi - 1) + |pieces[hi - 1]|
  }

  /** Where the longest run of whole trailing pieces of `pieces[lo..hi]` within `budget` begins. */
  function Carry(pieces: seq<string>, lo: nat, hi: nat, budget: nat): (r: nat)
    requires lo <= hi <= |pieces|
    ensures lo <= r <= hi
    decreases hi
  {
    if lo == hi || |pieces[hi - 1]| > budget then hi
    else Carry(pieces, lo, hi - 1, budget - |pieces[hi - 1]|)
  }

  predicate Within(ws: seq<Span>, n: nat) {
    ws == [] || (ws[0].lo <= ws[0].hi <= n && Within(ws[1..], n))
  }

  /** The runs of pieces that become chunks, when `pieces[lo..i]` is the run being packed. */
  function Windows(pieces: seq<string>, size: nat, overlap: nat, lo: nat, i: nat): (r: seq<Span>)
    requires lo <= i <= |pieces|
    ensures Within(r, |pieces|)
    decreases |pieces| - i
  {
    if i == |pieces| then
      if lo < i then [Span(lo, i)] else []
    else if Total(pieces, lo, i) + |pieces[i]| > size && lo < i then
      [Span(lo, i)] + Windows(pieces, size, overlap, Carry(pieces, lo, i, overlap), i + 1)
    else
      Windows(pieces, size, overlap, lo, i + 1)
  }

  /** The chunk one run of pieces yields. */
  function Rendered(pieces: seq<string>, w: Span): string
    requires w.lo <= w.hi <= |pieces|
  {
    Trim(Concat(pieces[w.lo..w.hi]))
  }

  /** The chunks the windows yield; a run that trims to nothing yields none. */
  function Render(pieces: seq<string>, ws: seq<Span>): seq<string>
    requires Within(ws, |pieces|)
  {
    if ws == [] then []
    else if Rendered(pieces, ws[0]) == "" then Render(pieces, ws[1..])
    else [Rendered(pieces, ws[0])] + Render(pieces, ws[1..])
  }

  function Merge(pieces: seq<string>, size: nat, overlap: nat): seq<string> {
    Render(pieces, Windows(pieces, size, overlap, 0, 0))
  }

  /** `Vec::retain(|c| !c.trim().is_empty())`. */
  function Retain(chunks: seq<string>): (r: seq<string>) {
    if chunks == [] then []
    else if Trim(chunks[0]) == "" then Retain(chunks[1..])
    else [chunks[0]] + Retain(chunks[1..])
  }

  lemma {:induction false} RetainAppend(a: seq<string>, b: seq<string>)
    ensures Retain(a + b) == Retain(a) + Retain(b)
  {
    if a == [] {
      assert a + b == b;
    } else {
      RetainAppend(a[1..], b);
      SplitFirst(a, b);
      Regroup([a[0]], Retain(a[1..]), Retain(b));
    }
  }

  lemma TrimTrim(s: string)
    ensures Trim(Trim(s)) == "" <==> Trim(s) == ""
  {
    TrimEmptyIffBlank(Trim(s));
    if Trim(s) != "" {
      assert !IsWhitespace(Trim(s)[0]);
    }
  }

  /** Adding one rendered run to the chunks, and dropping it later if it is empty. */
  lemma RetainRendered(chunks: seq<string>, c: string, trimmed: string, before: seq<string>, rest: seq<string>)
    requires trimmed == Trim(c)
    requires before == if trimmed == "" then rest else [trimmed] + rest
    ensures Retain(chunks + [trimmed]) + rest == Retain(chunks) + before
  {
    TrimTrim(c);
    RetainAppend(chunks, [trimmed]);
    assert Retain([trimmed]) == if trimmed == "" then [] else [trimmed] by {
      assert Retain([]) == [];
    }
    Regroup(Retain(chunks), Retain([trimmed]), rest);
    assert Retain([trimmed]) + rest == before;
  }

  /** Putting piece `i` on the run `pieces[lo..i]`. */
  method AddPiece(pieces: seq<string>, ghost lo: nat, i: nat, current: seq<string>, currentLen: nat)
    returns (longer: seq<string>, longerLen: nat)
    requires lo <= i < |pieces| && current == pieces[lo..i] && currentLen == Total(pieces, lo, i)
    ensures longer == pieces[lo..i + 1] && longerLen == Total(pieces, lo, i + 1)
  {
    SliceSnoc(pieces, lo, i);
    longer, longerLen := current + [pieces[i]], currentLen + |pieces[i]|;
  }

  lemma RenderCut(pieces: seq<string>, size: nat, overlap: nat, lo: nat, i: nat) returns (rest: seq<string>)
    requires lo < i < |pieces| && Total(pieces, lo, i) + |pieces[i]| > size
    ensures rest == Render(pieces, Windows(pieces, size, overlap, Carry(pieces, lo, i, overlap), i + 1))
    ensures Render(pieces, Windows(pieces, size, overlap, lo, i)) ==
            var c := Trim(Concat(pieces[lo..i]));
            if c == "" then rest else [c] + rest
  {
    var ws := Windows(pieces, size, overlap, Carry(pieces, lo, i, overlap), i + 1);
    rest := Render(pieces, ws);
    assert Windows(pieces, size, overlap, lo, i)[1..] == ws;
  }

  lemma {:induction false} TotalFront(pieces: seq<string>, lo: nat, hi: nat)
    requires lo < hi <= |pieces|
    ensures Total(pieces, lo, hi) == |pieces[lo]| + Total(pieces, lo + 1, hi)
    decreases hi
  {
    if lo + 1 < hi {
      TotalFront(pieces, lo, hi - 1);
    } else {
      assert Total(pieces, lo, lo) == 0;
    }
  }

  /** The inner loop of the merge: whole trailing pieces, from the back, until the budget is spent. */
  method CarryBack(ghost pieces: seq<string>, ghost lo: nat, ghost hi: nat, current: seq<string>, overlap: nat)
    returns (carried: seq<string>, carriedLen: nat)
    requires lo <= hi <= |pieces| && current == pieces[lo..hi]
    ensures carried == pieces[Carry(pieces, lo, hi, overlap)..hi]
    ensures carriedLen == Total(pieces, Carry(pieces, lo, hi, overlap), hi)
  {
    carried, carriedLen := [], 0;
    var j := |current|;
    while j > 0 && carriedLen + |current[j - 1]| <= overlap
      invariant 0 <= j <= |current|
      invariant carried == current[j..] && carriedLen <= overlap
      invariant carriedLen == Total(pieces, lo + j, hi)
      invariant Carry(pieces, lo, hi, overlap) == Carry(pieces, lo, lo + j, overlap - carriedLen)
    {
      TotalFront(pieces, lo + j - 1, hi);
      carriedLen := carriedLen + |current[j - 1]|;
      carried := [current[j - 1]] + carried;
      j := j - 1;
    }
    assert Carry(pieces, lo, hi, overlap) == lo + j;
  }

  /** Closing the run `pieces[lo..i]` because piece `i` does not fit. */
  method CutRun(packed: seq<string>, ghost pieces: seq<string>, ghost size: nat, overlap: nat,
                ghost lo: nat, ghost i: nat, current: seq<string>)
    returns (chunks: seq<string>, carried: seq<string>, carriedLen: nat, ghost rest: seq<string>)
    requires lo < i < |pieces| && Total(pieces, lo, i) + |pieces[i]| > size && current == pieces[lo..i]
    ensures carried == pieces[Carry(pieces, lo, i, overlap)..i]
    ensures carriedLen == Total(pieces, Carry(pieces, lo, i, overlap), i)
    ensures rest == Render(pieces, Windows(pieces, size, overlap, Carry(pieces, lo, i, overlap), i + 1))
    ensures Retain(chunks) + rest == Retain(packed) + Render(pieces, Windows(pieces, size, overlap, lo, i))
  {
    var c := Trim(Concat(current));
    rest := RenderCut(pieces, size, overlap, lo, i);
    RetainRendered(packed, Concat(current), c, if c == "" then rest else [c] + rest, rest);
    chunks := packed + [c];
    carried, carriedLen := CarryBack(pieces, lo, i, current, overlap);
  }

  lemma RenderLast(pieces: seq<string>, size: nat, overlap: nat, lo: nat)
    requires lo < |pieces|
    ensures Render(pieces, Windows(pieces, size, overlap, lo, |pieces|)) ==
            var c := Trim(Concat(pieces[lo..]));
            if c == "" then [] else [c]
  {
    assert pieces[lo..|pieces|] == pieces[lo..];
    assert Windows(pieces, size, overlap, lo, |pieces|)[1..] == [];
  }

  /** The tail of the merge: the last run, if any, and the final `retain`. */
  method FinishMerge(packed: seq<string>, ghost pieces: seq<string>, ghost size: nat, ghost overlap: nat,
                     ghost lo: nat, current: seq<string>)
    returns (chunks: seq<string>)
    requires lo <= |pieces| && current == pieces[lo..]
    ensures chunks == Retain(packed) + Render(pieces, Windows(pieces, size, overlap, lo, |pieces|))
  {
    chunks := packed;
    if current != [] {
      RenderLast(pieces, size, overlap, lo);
      var last := Trim(Concat(current));
      if last != "" {
        RetainRendered(chunks, Concat(current), last, [last], []);
        chunks := chunks + [last];
      }
    }
    chunks := Retain(chunks);
  }

  lemma WindowsPack(pieces: seq<string>, size: nat, overlap: nat, lo: nat, i: nat)
    requires lo <= i < |pieces| && !(Total(pieces, lo, i) + |pieces[i]| > size && lo < i)
    ensures Windows(pieces, size, overlap, lo, i) == Windows(pieces, size, overlap, lo, i + 1)
  {
  }

  /** `merge_with_overlap`: the packing loop yields exactly the chunks of the specified windows. */
  method MergeWithOverlap(pieces: seq<string>, size: nat, overlap: nat) returns (chunks: seq<string>)
    ensures chunks == Merge(pieces, size, overlap)
  {
    chunks := [];
    var current: seq<string>, currentLen: nat := [], 0;
    ghost var lo: nat := 0;
    ghost var rest := Merge(pieces, size, overlap);
    ghost var all := rest;
    for i := 0 to |pieces|
      invariant lo <= i
      invariant current == pieces[lo..i] && currentLen == Total(pieces, lo, i)
      invariant rest == Render(pieces, Windows(pieces, size, overlap, lo, i))
      invariant Retain(chunks) + rest == all
    {
      var piece := pieces[i];
      if currentLen + |piece| > size && current != [] {
        chunks, current, currentLen, rest := CutRun(chunks, pieces, size, overlap, lo, i, current);
        lo := Carry(pieces, lo, i, overlap);
      } else {
        WindowsPack(pieces, size, overlap, lo, i);
      }
      current, currentLen := AddPiece(pieces, lo, i, current, currentLen);
    }
    chunks := FinishMerge(chunks, pieces, size, overlap, lo, current);
  }

  // ---------------------------------------------------------------- the public functions

  /** What `chunk_text_recursive` returns. */
  function Chunks(text: string, size: nat, overlap: nat): seq<string> {
    if IsBlank(text) || size == 0 then []
    else Merge(Slices(text, Pieces(text, size, 0)), size, overlap)
  }

  method ChunkTextRecursive(text: string, size: nat, overlap: nat) returns (chunks: seq<string>)
    ensures chunks == Chunks(text, size, overlap)
  {
    TrimEmptyIffBlank(text);
    if Trim(text) == "" || size == 0 {
      return [];
    }
    var pieces := SplitToSize(text, size, 0);
    chunks := MergeWithOverlap(pieces, size, overlap);
  }

  /** Where each chunk is recorded, scanning forward from `cursor`. */
  function Located(text: string, chunks: seq<string>, cursor: nat): (r: seq<Chunk>)
    ensures |r| == |chunks|
    decreases |chunks|
  {
    if chunks == [] then []
    else
      var found := FindFrom(text, chunks[0], cursor);
      var start := if found.Some? then found.value else cursor;
      [Chunk(chunks[0], start, start + |chunks[0]|)] + Located(text, chunks[1..], start)
  }

  method LocateAll(text: string, chunks: seq<string>) returns (out: seq<Chunk>)
    ensures out == Located(text, chunks, 0)
  {
    out := [];
    var cursor: nat := 0;
    ghost var rest := Located(text, chunks, 0);
    ghost var all := rest;
    for i := 0 to |chunks|
      invariant rest == Located(text, chunks[i..], cursor)
      invariant out + rest == all
    {
      var found := FindFrom(text, chunks[i], cursor);
      var start := if found.Some? then found.value else cursor;
      cursor := start;
      var c := Chunk(chunks[i], start, start + |chunks[i]|);
      assert chunks[i..][1..] == chunks[i + 1..];
      rest := Located(text, chunks[i + 1..], cursor);
      Regroup(out, [c], rest);
      out := out + [c];
    }
  }

  method ChunkWithSpans(text: string, size: nat, overlap: nat) returns (out: seq<Chunk>)
    ensures out == Located(text, Chunks(text, size, overlap), 0)
  {
    var chunks := ChunkTextRecursive(text, size, overlap);
    out := LocateAll(text, chunks);
  }
}
