/** Character sequences as every component of the repository reads them: Rust's `trim`, string
    concatenation and joining, and the text that is left when whitespace is erased.

    Text is a sequence of characters throughout, as in the chunker, which indexes over `chars` and
    never over bytes. */
module Text {
  /** Unicode `White_Space`, the set behind Rust's `char::is_whitespace`. */
  predicate IsWhitespace(c: char) {
    || '\t' <= c <= '\r'
    || c == ' '
    || c == '\U{0085}'
    || c == '\U{00A0}'
    || c == '\U{1680}'
    || '\U{2000}' <= c <= '\U{200A}'
    || c == '\U{2028}'
    || c == '\U{2029}'
    || c == '\U{202F}'
    || c == '\U{205F}'
    || c == '\U{3000}'
  }

  /** `s[lo..hi]` holds nothing but whitespace. */
  predicate Blank(s: string, lo: nat, hi: nat)
    requires lo <= hi <= |s|
  {
    forall i :: lo <= i < hi ==> IsWhitespace(s[i])
  }

  predicate IsBlank(s: string) {
    Blank(s, 0, |s|)
  }

  /** The first position of `s[lo..hi]` that is not whitespace, or `hi`. */
  function SkipForward(s: string, lo: nat, hi: nat): (r: nat)
    requires lo <= hi <= |s|
    ensures lo <= r <= hi
    ensures Blank(s, lo, r)
    ensures r < hi ==> !IsWhitespace(s[r])
    decreases hi - lo
  {
    if lo < hi && IsWhitespace(s[lo]) then SkipForward(s, lo + 1, hi) else lo
  }

  /** One past the last position of `s[lo..hi]` that is not whitespace, or `lo`. */
  function SkipBackward(s: string, lo: nat, hi: nat): (r: nat)
    requires lo <= hi <= |s|
    ensures lo <= r <= hi
    ensures Blank(s, r, hi)
    ensures lo < r ==> !IsWhitespace(s[r - 1])
    decreases hi - lo
  {
    if lo < hi && IsWhitespace(s[hi - 1]) then SkipBackward(s, lo, hi - 1) else hi
  }

  /** Rust's `str::trim`. */
  function Trim(s: string): (r: string)
    ensures |r| <= |s|
    ensures |r| > 0 ==> !IsWhitespace(r[0]) && !IsWhitespace(r[|r| - 1])
  {
    var a := SkipForward(s, 0, |s|);
    s[a..SkipBackward(s, a, |s|)]
  }

  /** Trimming leaves nothing exactly when there was nothing but whitespace. */
  lemma TrimEmptyIffBlank(s: string)
    ensures Trim(s) == "" <==> IsBlank(s)
  {
    var a := SkipForward(s, 0, |s|);
    var b := SkipBackward(s, a, |s|);
    if a < |s| {
      assert !IsWhitespace(s[a]);
      assert a < b;
    }
  }

  lemma Neutral<T>(s: seq<T>)
    ensures s + [] == s && [] + s == s
  {
  }

  lemma Regroup<T>(a: seq<T>, b: seq<T>, c: seq<T>)
    ensures a + b + c == a + (b + c)
  {
  }

  lemma SliceSnoc<T>(s: seq<T>, lo: nat, i: nat)
    requires lo <= i < |s|
    ensures s[lo..i] + [s[i]] == s[lo..i + 1]
  {
  }

  /** Slices of a suffix are slices of the whole. */
  lemma InSuffix<T>(s: seq<T>, a: nat, n: nat, b: nat)
    requires a <= b <= |s| && a + n <= |s|
    ensures s[a..][..n] == s[a..a + n] && s[a..][b - a..] == s[b..]
    ensures a + n < |s| ==> s[a..][n] == s[a + n]
    ensures a + n + 1 < |s| ==> s[a..][n + 1] == s[a + n + 1]
  {
  }

  lemma FirstIn<T>(s: seq<T>)
    requires s != []
    ensures s[0] in s
  {
  }

  /** Every element stands before the later ones. */
  ghost predicate InOrder<T(!new)>(s: seq<T>, before: (T, T) -> bool) {
    forall i, j :: 0 <= i < j < |s| ==> before(s[i], s[j])
  }

  ghost predicate Asymmetric<T(!new)>(before: (T, T) -> bool) {
    forall x, y :: before(x, y) ==> !before(y, x)
  }

  lemma OrderedTail<T(!new)>(s: seq<T>, before: (T, T) -> bool)
    requires s != [] && InOrder(s, before) && Asymmetric(before)
    ensures InOrder(s[1..], before) && forall x :: x in s[1..] <==> x in s && x != s[0]
  {
    forall x | x in s[1..] ensures x in s && x != s[0] {
      var i :| 0 <= i < |s[1..]| && s[1..][i] == x;
      assert before(s[0], s[i + 1]);
    }
  }

  lemma HeadsAgree<T(!new)>(a: seq<T>, b: seq<T>, before: (T, T) -> bool)
    requires InOrder(a, before) && InOrder(b, before) && Asymmetric(before)
    requires a != [] && b != [] && a[0] in b && b[0] in a
    ensures a[0] == b[0]
  {
    var i :| 0 <= i < |a| && a[i] == b[0];
    var j :| 0 <= j < |b| && b[j] == a[0];
    assert i > 0 ==> before(a[0], b[0]);
    assert j > 0 ==> before(b[0], a[0]);
  }

  /** There is one ordered sequence of given elements. */
  lemma {:induction false} SameOrder<T(!new)>(a: seq<T>, b: seq<T>, before: (T, T) -> bool)
    requires InOrder(a, before) && InOrder(b, before) && Asymmetric(before) && forall x :: x in a <==> x in b
    ensures a == b
    decreases |a|
  {
    if a == [] {
      if b != [] { FirstIn(b); }
    } else {
      FirstIn(a);
      FirstIn(b);
      HeadsAgree(a, b, before);
      OrderedTail(a, before);
      OrderedTail(b, before);
      SameOrder(a[1..], b[1..], before);
    }
  }

  lemma SplitFirst<T>(a: seq<T>, b: seq<T>)
    requires a != []
    ensures (a + b)[0] == a[0] && (a + b)[1..] == a[1..] + b
  {
  }

  /** Rust's `[String]::concat`. */
  function Concat(ss: seq<string>): string {
    if ss == [] then "" else ss[0] + Concat(ss[1..])
  }

  lemma {:induction false} ConcatAppend(a: seq<string>, b: seq<string>)
    ensures Concat(a + b) == Concat(a) + Concat(b)
  {
    if a == [] {
      assert a + b == b;
    } else {
      ConcatAppend(a[1..], b);
      SplitFirst(a, b);
      Regroup(a[0], Concat(a[1..]), Concat(b));
    }
  }

  lemma ConcatSnoc(a: seq<string>, x: string)
    ensures Concat(a + [x]) == Concat(a) + x
  {
    ConcatAppend(a, [x]);
    assert Concat([x]) == x + Concat([]);
  }

  lemma ConcatOne(s: string)
    ensures Concat([s]) == s
  {
    assert [s][1..] == [];
    Neutral(s);
  }

  /** JavaScript's `Array.prototype.join`. */
  function Join(ss: seq<string>, sep: string): string {
    if ss == [] then ""
    else if |ss| == 1 then ss[0]
    else ss[0] + sep + Join(ss[1..], sep)
  }

  /** The text with every whitespace character erased. */
  function Erase(s: string): (r: string)
    ensures |r| <= |s|
  {
    if s == "" then ""
    else if IsWhitespace(s[0]) then Erase(s[1..])
    else [s[0]] + Erase(s[1..])
  }

  lemma {:induction false} EraseAppend(a: string, b: string)
    ensures Erase(a + b) == Erase(a) + Erase(b)
  {
    if a == "" {
      assert a + b == b;
    } else {
      EraseAppend(a[1..], b);
      SplitFirst(a, b);
      Regroup([a[0]], Erase(a[1..]), Erase(b));
    }
  }

  lemma {:induction false} EraseBlank(s: string)
    requires IsBlank(s)
    ensures Erase(s) == ""
  {
    if s != "" {
      assert IsWhitespace(s[0]);
      assert Blank(s[1..], 0, |s| - 1);
      EraseBlank(s[1..]);
    }
  }

  lemma EraseEnds(before: string, s: string, after: string)
    requires IsBlank(before) && IsBlank(after)
    ensures Erase(before + (s + after)) == Erase(s)
  {
    EraseAppend(before, s + after);
    EraseAppend(s, after);
    EraseBlank(before);
    EraseBlank(after);
    Neutral(Erase(s));
  }

  /** Trimming removes whitespace and nothing else. */
  lemma EraseTrim(s: string)
    ensures Erase(Trim(s)) == Erase(s)
  {
    var a := SkipForward(s, 0, |s|);
    var b := SkipBackward(s, a, |s|);
    EraseEnds(s[..a], s[a..b], s[b..]);
    assert s == s[..a] + (s[a..b] + s[b..]);
  }

  // ---------------------------------------------------------------- searching and splitting

  datatype Option<+T> = None | Some(value: T)

  predicate OccursAt(haystack: string, needle: string, at: nat) {
    at + |needle| <= |haystack| && haystack[at..at + |needle|] == needle
  }

  /** The first occurrence of a non-empty `needle` at or after `from`. */
  function FindFrom(haystack: string, needle: string, from: nat): (r: Option<nat>)
    ensures r.Some? ==> needle != "" && from <= r.value && OccursAt(haystack, needle, r.value)
    ensures r.Some? ==> forall i :: from <= i < r.value ==> !OccursAt(haystack, needle, i)
    ensures r.None? && needle != "" ==> forall i :: from <= i ==> !OccursAt(haystack, needle, i)
    decreases |haystack| - from
  {
    if needle == "" || from + |needle| > |haystack| then None
    else if haystack[from..from + |needle|] == needle then Some(from)
    else FindFrom(haystack, needle, from + 1)
  }

  lemma FindIs(haystack: string, needle: string, from: nat, p: nat)
    requires needle != "" && from <= p && OccursAt(haystack, needle, p)
    requires forall i :: from <= i < p ==> !OccursAt(haystack, needle, i)
    ensures FindFrom(haystack, needle, from) == Some(p)
  {
  }

  /** Rust's `str::split`, from position `start`. */
  function SplitOn(text: string, sep: string, start: nat): (parts: seq<string>)
    requires sep != "" && start <= |text|
    ensures |parts| > 0
    decreases |text| - start
  {
    match FindFrom(text, sep, start)
    case None => [text[start..]]
    case Some(p) => [text[start..p]] + SplitOn(text, sep, p + |sep|)
  }
}
