/** `chunk_text`, the fixed character window the boundary-aware chunker replaced. */
module FixedWindow {
  import opened Text
  import opened Chunking

  function Step(size: nat, overlap: nat): (r: nat)
    ensures r >= 1 && (size >= 1 ==> r <= size)
  {
    if size > overlap then size - overlap else 1
  }

  function Min(a: nat, b: nat): nat {
    if a < b then a else b
  }

  /** The windows from `start` on, the last one reaching the end of the text. */
  function WindowsFrom(n: nat, size: nat, step: nat, start: nat): (r: seq<Span>)
    requires step >= 1
    decreases if start < n then n - start else 0
  {
    if start >= n then []
    else
      var end := Min(start + size, n);
      if end == n then [Span(start, end)]
      else [Span(start, end)] + WindowsFrom(n, size, step, start + step)
  }

  predicate Inside(spans: seq<Span>, n: nat) {
    spans == [] || (spans[0].lo <= spans[0].hi <= n && Inside(spans[1..], n))
  }

  lemma {:induction false} WindowsInside(n: nat, size: nat, step: nat, start: nat)
    requires step >= 1
    ensures Inside(WindowsFrom(n, size, step, start), n)
    decreases if start < n then n - start else 0
  {
    if start < n {
      var end := Min(start + size, n);
      if end == n {
        assert [Span(start, end)][1..] == [];
      } else {
        WindowsInside(n, size, step, start + step);
        var rest := WindowsFrom(n, size, step, start + step);
        assert ([Span(start, end)] + rest)[1..] == rest;
      }
    }
  }

  /** The trimmed text of each window that holds more than whitespace. */
  function Kept(text: string, spans: seq<Span>): seq<string>
    requires Inside(spans, |text|)
  {
    if spans == [] then []
    else
      var c := Trim(text[spans[0].lo..spans[0].hi]);
      if c == "" then Kept(text, spans[1..]) else [c] + Kept(text, spans[1..])
  }

  function FixedChunks(text: string, size: nat, overlap: nat): seq<string> {
    WindowsInside(|text|, size, Step(size, overlap), 0);
    Kept(text, WindowsFrom(|text|, size, Step(size, overlap), 0))
  }

  /** `rest` is what the windows from `start` on still contribute. */
  ghost predicate Remaining(text: string, size: nat, step: nat, start: nat, rest: seq<string>)
    requires step >= 1
  {
    && Inside(WindowsFrom(|text|, size, step, start), |text|)
    && rest == Kept(text, WindowsFrom(|text|, size, step, start))
  }

  /** `chunks` lacks of `all` what the windows from `start` on contribute. */
  ghost predicate Owes(text: string, size: nat, step: nat, start: nat, chunks: seq<string>, all: seq<string>)
    requires step >= 1
  {
    exists rest :: Remaining(text, size, step, start, rest) && chunks + rest == all
  }

  method KeepTrimmed(chunks: seq<string>, trimmed: string, ghost rest: seq<string>) returns (longer: seq<string>)
    ensures longer + rest == chunks + if trimmed == "" then rest else [trimmed] + rest
  {
    longer := chunks;
    if trimmed != "" {
      Regroup(chunks, [trimmed], rest);
      longer := chunks + [trimmed];
    }
  }

  ghost predicate Afterwards(text: string, size: nat, step: nat, next: nat, ended: bool, rest: seq<string>)
    requires step >= 1
  {
    if ended then rest == [] else Remaining(text, size, step, next, rest)
  }

  lemma KeptStep(text: string, size: nat, step: nat, start: nat, next: nat, end: nat, c: string, before: seq<string>)
    returns (rest: seq<string>)
    requires start < |text| && step >= 1 && Remaining(text, size, step, start, before)
    requires next == start + step && end == Min(start + size, |text|) && c == Trim(text[start..end])
    ensures before == if c == "" then rest else [c] + rest
    ensures Afterwards(text, size, step, next, end == |text|, rest)
  {
    var ws := WindowsFrom(|text|, size, step, start);
    var after := if end == |text| then [] else WindowsFrom(|text|, size, step, next);
    assert ws == [Span(start, end)] + after;
    assert ws[1..] == after;
    rest := Kept(text, after);
  }

  lemma OwedBefore(text: string, size: nat, step: nat, start: nat, chunks: seq<string>, all: seq<string>)
    returns (before: seq<string>)
    requires step >= 1 && Owes(text, size, step, start, chunks, all)
    ensures Remaining(text, size, step, start, before) && chunks + before == all
  {
    before :| Remaining(text, size, step, start, before) && chunks + before == all;
  }

  lemma TookWindow(text: string, size: nat, step: nat, next: nat, ended: bool, chunks: seq<string>, rest: seq<string>, all: seq<string>)
    requires step >= 1 && Afterwards(text, size, step, next, ended, rest) && chunks + rest == all
    ensures if ended then chunks == all else Owes(text, size, step, next, chunks, all)
  {
    Neutral(chunks);
  }

  /** The window at `start`, whether it reached the end of the text, and where the next one starts. */
  method TakeWindow(text: string, size: nat, step: nat, start: nat, chunks: seq<string>, ghost all: seq<string>)
    returns (longer: seq<string>, ended: bool, next: nat)
    requires step >= 1 && start < |text| && Owes(text, size, step, start, chunks, all)
    ensures next == start + step && (ended <==> start + size >= |text|)
    ensures if ended then longer == all else Owes(text, size, step, next, longer, all)
  {
    var end := Min(start + size, |text|);
    var trimmed := Trim(text[start..end]);
    next := start + step;
    ghost var before := OwedBefore(text, size, step, start, chunks, all);
    ghost var rest := KeptStep(text, size, step, start, next, end, trimmed, before);
    longer := KeepTrimmed(chunks, trimmed, rest);
    ended := end == |text|;
    TookWindow(text, size, step, next, ended, longer, rest, all);
  }

  lemma OwesNothing(text: string, size: nat, step: nat, start: nat, chunks: seq<string>, all: seq<string>)
    requires step >= 1 && start >= |text| && Owes(text, size, step, start, chunks, all)
    ensures chunks == all
  {
    Neutral(chunks);
  }

  lemma OwesAll(text: string, size: nat, step: nat, all: seq<string>)
    requires step >= 1 && Remaining(text, size, step, 0, all)
    ensures Owes(text, size, step, 0, [], all)
  {
    Neutral(all);
  }

  /** The loop: `all` is what it is going to collect. */
  method SlideWindow(text: string, size: nat, step: nat, ghost all: seq<string>) returns (chunks: seq<string>)
    requires step >= 1 && Remaining(text, size, step, 0, all)
    ensures chunks == all
  {
    chunks := [];
    var start: nat := 0;
    OwesAll(text, size, step, all);
    while start < |text|
      invariant Owes(text, size, step, start, chunks, all)
      decreases if start < |text| then |text| - start else 0
    {
      var ended;
      chunks, ended, start := TakeWindow(text, size, step, start, chunks, all);
      if ended {
        return;
      }
    }
    OwesNothing(text, size, step, start, chunks, all);
  }

  /** `chunk_text`; it terminates for every size and overlap, even an overlap of the whole window. */
  method ChunkText(text: string, size: nat, overlap: nat) returns (chunks: seq<string>)
    ensures chunks == FixedChunks(text, size, overlap)
  {
    WindowsInside(|text|, size, Step(size, overlap), 0);
    chunks := SlideWindow(text, size, Step(size, overlap), FixedChunks(text, size, overlap));
  }

  lemma {:induction false} WindowAt(n: nat, size: nat, step: nat, start: nat, p: nat) returns (s: Span)
    requires 1 <= step <= size && start <= p < n
    ensures s in WindowsFrom(n, size, step, start)
    ensures s.lo <= p < s.hi <= n && s.hi - s.lo <= size
    decreases n - start
  {
    var end := Min(start + size, n);
    if p < end {
      s := Span(start, end);
    } else {
      s := WindowAt(n, size, step, start + step, p);
    }
  }

  lemma {:induction false} KeptHolds(text: string, spans: seq<Span>, s: Span)
    requires Inside(spans, |text|) && s in spans
    ensures s.lo <= s.hi <= |text|
    ensures Trim(text[s.lo..s.hi]) != "" ==> Trim(text[s.lo..s.hi]) in Kept(text, spans)
    decreases |spans|
  {
    if s != spans[0] {
      KeptHolds(text, spans[1..], s);
    }
  }

  /** Every position lies in a window no wider than the budget, and the trim of that window is one of
      the chunks unless it is blank: no character that is not whitespace is lost, whatever the
      overlap. */
  lemma FixedChunksCover(text: string, size: nat, overlap: nat, p: nat) returns (s: Span)
    requires size >= 1 && p < |text|
    ensures s.lo <= p < s.hi <= |text| && s.hi - s.lo <= size
    ensures !IsWhitespace(text[p]) ==> Trim(text[s.lo..s.hi]) in FixedChunks(text, size, overlap)
  {
    s := WindowAt(|text|, size, Step(size, overlap), 0, p);
    WindowsInside(|text|, size, Step(size, overlap), 0);
    KeptHolds(text, WindowsFrom(|text|, size, Step(size, overlap), 0), s);
    TrimEmptyIffBlank(text[s.lo..s.hi]);
    assert text[s.lo..s.hi][p - s.lo] == text[p];
  }

  lemma TrimFits(text: string, lo: nat, hi: nat, c: string)
    requires lo <= hi <= |text| && c == Trim(text[lo..hi]) && c != ""
    ensures 0 < |c| <= hi - lo
  {
  }

  lemma {:induction false} KeptFit(text: string, size: nat, step: nat, start: nat, all: seq<string>, c: string)
    requires step >= 1 && Remaining(text, size, step, start, all) && c in all
    ensures 0 < |c| <= size
    decreases if start < |text| then |text| - start else 0
  {
    if start < |text| {
      var end := Min(start + size, |text|);
      var trimmed := Trim(text[start..end]);
      var rest := KeptStep(text, size, step, start, start + step, end, trimmed, all);
      if c in rest {
        KeptFit(text, size, step, start + step, rest, c);
      } else {
        TrimFits(text, start, end, c);
      }
    }
  }

  /** Every chunk holds something and fits the budget. */
  lemma FixedChunksFit(text: string, size: nat, overlap: nat, c: string)
    requires c in FixedChunks(text, size, overlap)
    ensures 0 < |c| <= size
  {
    WindowsInside(|text|, size, Step(size, overlap), 0);
    KeptFit(text, size, Step(size, overlap), 0, FixedChunks(text, size, overlap), c);
  }

  /** The `k`-th window, counted from one that starts at `start`. */
  ghost predicate IsWindow(n: nat, size: nat, step: nat, start: nat, k: nat, s: Span) {
    s.lo == start + k * step && s.lo < n && s.hi == if s.lo + size < n then s.lo + size else n
  }

  lemma {:induction false} WindowsAt(n: nat, size: nat, step: nat, start: nat, k: nat)
    requires step >= 1 && k < |WindowsFrom(n, size, step, start)|
    ensures var ws := WindowsFrom(n, size, step, start);
            && IsWindow(n, size, step, start, k, ws[k])
            && (k < |ws| - 1 ==> ws[k].hi < n)
            && (k == |ws| - 1 ==> ws[k].hi == n || ws[k].lo + step >= n)
    decreases k
  {
    if k > 0 {
      var rest := WindowsFrom(n, size, step, start + step);
      assert WindowsFrom(n, size, step, start)[k] == rest[k - 1];
      WindowsAt(n, size, step, start + step, k - 1);
      assert step + (k - 1) * step == k * step;
    }
  }

  /** Windows start every `size - overlap` characters, or at every character where the overlap leaves no step;
      each is `size` wide unless the text ends, and the first to reach the end is the last. */
  lemma FixedWindowsAre(text: string, size: nat, overlap: nat) returns (ws: seq<Span>)
    ensures Inside(ws, |text|) && FixedChunks(text, size, overlap) == Kept(text, ws)
    ensures ws == [] <==> text == ""
    ensures forall k :: 0 <= k < |ws| ==>
              var step := if size > overlap then size - overlap else 1;
              && IsWindow(|text|, size, step, 0, k, ws[k])
              && (k < |ws| - 1 ==> ws[k].hi < |text|)
              && (k == |ws| - 1 ==> ws[k].hi == |text| || ws[k].lo + step >= |text|)
  {
    var step := Step(size, overlap);
    ws := WindowsFrom(|text|, size, step, 0);
    WindowsInside(|text|, size, step, 0);
    forall k | 0 <= k < |ws|
      ensures && IsWindow(|text|, size, step, 0, k, ws[k])
              && (k < |ws| - 1 ==> ws[k].hi < |text|)
              && (k == |ws| - 1 ==> ws[k].hi == |text| || ws[k].lo + step >= |text|)
    {
      WindowsAt(|text|, size, step, 0, k);
    }
  }
}
