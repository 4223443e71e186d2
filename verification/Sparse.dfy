/** The lexical vector of a chunk (`crates/common/src/sparse.rs`): token counts under hashed indices.

    Which characters are alphanumeric, their lower case, and the UTF-8 bytes of a token are those of
    `unicode`. Counts are exact numbers. */
module Sparse {
  import opened Text
  import opened Sorting

  const MIN_TOKEN_CHARS: nat := 2

  datatype Unicode = Unicode(alphanumeric: char -> bool, lower: string -> string, utf8: string -> seq<nat>)

  // ---------------------------------------------------------------- tokens

  /** The maximal runs of alphanumeric characters, and an empty text wherever two separators meet. */
  function SplitWords(u: Unicode, text: string): (parts: seq<string>)
    ensures parts != []
    ensures forall i, j :: 0 <= i < |parts| && 0 <= j < |parts[i]| ==> u.alphanumeric(parts[i][j])
  {
    if text == "" then [""]
    else
      var rest := SplitWords(u, text[1..]);
      if u.alphanumeric(text[0]) then [[text[0]] + rest[0]] + rest[1..] else [""] + rest
  }

  function Separators(u: Unicode, text: string): string {
    if text == "" then ""
    else if u.alphanumeric(text[0]) then Separators(u, text[1..])
    else [text[0]] + Separators(u, text[1..])
  }

  function Weave(parts: seq<string>, separators: string): string
    requires |parts| == |separators| + 1
  {
    if separators == "" then parts[0] else parts[0] + [separators[0]] + Weave(parts[1..], separators[1..])
  }

  lemma WeaveFirst(front: string, parts: seq<string>, separators: string)
    requires |parts| == |separators| + 1
    ensures Weave([front + parts[0]] + parts[1..], separators) == front + Weave(parts, separators)
  {
    var longer := [front + parts[0]] + parts[1..];
    assert longer[1..] == parts[1..];
    if separators != "" {
      var rest := Weave(parts[1..], separators[1..]);
      assert front + parts[0] + [separators[0]] + rest == front + (parts[0] + [separators[0]] + rest);
    }
  }

  /** Splitting loses nothing: the words, with the separators between them, are the text again. */
  lemma {:induction false} SplitRejoins(u: Unicode, text: string)
    ensures |SplitWords(u, text)| == |Separators(u, text)| + 1
    ensures Weave(SplitWords(u, text), Separators(u, text)) == text
  {
    if text != "" {
      SplitRejoins(u, text[1..]);
      var rest, separators := SplitWords(u, text[1..]), Separators(u, text[1..]);
      if u.alphanumeric(text[0]) {
        WeaveFirst([text[0]], rest, separators);
      } else {
        assert ([""] + rest)[1..] == rest && ([text[0]] + separators)[1..] == separators;
      }
      assert [text[0]] + text[1..] == text;
    }
  }

  function Kept(u: Unicode, parts: seq<string>): seq<string> {
    if parts == [] then []
    else if |parts[0]| >= MIN_TOKEN_CHARS then [u.lower(parts[0])] + Kept(u, parts[1..])
    else Kept(u, parts[1..])
  }

  function Tokenize(u: Unicode, text: string): seq<string> {
    Kept(u, SplitWords(u, text))
  }

  // ---------------------------------------------------------------- tokens by their places in the text

  datatype Word = Word(lo: nat, hi: nat)

  /** `text[lo..hi]` is alphanumeric. */
  predicate Spelled(u: Unicode, text: string, lo: nat, hi: nat)
    requires lo <= hi <= |text|
  {
    forall i :: lo <= i < hi ==> u.alphanumeric(text[i])
  }

  /** A run of alphanumeric characters that can be extended to neither side. */
  predicate MaximalRun(u: Unicode, text: string, lo: nat, hi: nat) {
    && lo < hi <= |text| && Spelled(u, text, lo, hi)
    && (lo == 0 || !u.alphanumeric(text[lo - 1])) && (hi == |text| || !u.alphanumeric(text[hi]))
  }

  /** Where the words of `text[from..]` lie, empty ones included. */
  function WordsFrom(u: Unicode, text: string, from: nat): (words: seq<Word>)
    requires from <= |text|
    ensures words != []
    decreases |text| - from
  {
    if from == |text| then [Word(from, from)]
    else
      var rest := WordsFrom(u, text, from + 1);
      if u.alphanumeric(text[from]) then [Word(from, rest[0].hi)] + rest[1..] else [Word(from, from)] + rest
  }

  /** No character can be added to the word on either side, up to `from`. */
  predicate CutOff(u: Unicode, text: string, from: nat, w: Word) {
    && from <= w.lo <= w.hi <= |text| && Spelled(u, text, w.lo, w.hi)
    && (w.lo == from || !u.alphanumeric(text[w.lo - 1])) && (w.hi == |text| || !u.alphanumeric(text[w.hi]))
  }

  predicate Precedes(a: Word, b: Word) {
    a.hi < b.lo
  }

  ghost predicate AllCutOff(u: Unicode, text: string, from: nat, words: seq<Word>) {
    forall k :: 0 <= k < |words| ==> CutOff(u, text, from, words[k])
  }

  ghost predicate AllFollow(w: Word, words: seq<Word>) {
    forall k :: 0 <= k < |words| ==> Precedes(w, words[k])
  }

  lemma OrderedCons(w: Word, words: seq<Word>)
    requires InOrder(words, Precedes) && AllFollow(w, words)
    ensures InOrder([w] + words, Precedes)
  {
  }

  /** The words of `text[from..]` are cut off on both sides and follow one another. */
  ghost predicate Laid(u: Unicode, text: string, from: nat, words: seq<Word>) {
    words != [] && words[0].lo == from && AllCutOff(u, text, from, words) && InOrder(words, Precedes)
  }

  /** The words after the first are cut off by a separator, so they stay so seen from further left. */
  lemma LaterWords(u: Unicode, text: string, from: nat, rest: seq<Word>)
    requires from < |text| && Laid(u, text, from + 1, rest)
    ensures AllCutOff(u, text, from, rest[1..]) && InOrder(rest[1..], Precedes)
    ensures AllFollow(Word(from, rest[0].hi), rest[1..])
  {
    forall k | 0 <= k < |rest[1..]|
      ensures CutOff(u, text, from, rest[1..][k]) && Precedes(Word(from, rest[0].hi), rest[1..][k])
    {
      assert rest[1..][k] == rest[k + 1] && Precedes(rest[0], rest[k + 1]);
    }
  }

  lemma LaidLonger(u: Unicode, text: string, from: nat, rest: seq<Word>)
    requires from < |text| && u.alphanumeric(text[from]) && Laid(u, text, from + 1, rest)
    ensures Laid(u, text, from, [Word(from, rest[0].hi)] + rest[1..])
  {
    LaterWords(u, text, from, rest);
    assert CutOff(u, text, from + 1, rest[0]);
    OrderedCons(Word(from, rest[0].hi), rest[1..]);
  }

  lemma LaidMore(u: Unicode, text: string, from: nat, rest: seq<Word>)
    requires from < |text| && !u.alphanumeric(text[from]) && Laid(u, text, from + 1, rest)
    ensures Laid(u, text, from, [Word(from, from)] + rest)
  {
    forall k | 0 <= k < |rest| ensures CutOff(u, text, from, rest[k]) && Precedes(Word(from, from), rest[k]) {
      assert CutOff(u, text, from + 1, rest[k]);
    }
    OrderedCons(Word(from, from), rest);
  }

  lemma {:induction false} WordsLaid(u: Unicode, text: string, from: nat)
    requires from <= |text|
    ensures Laid(u, text, from, WordsFrom(u, text, from))
    decreases |text| - from
  {
    if from < |text| {
      WordsLaid(u, text, from + 1);
      if u.alphanumeric(text[from]) {
        LaidLonger(u, text, from, WordsFrom(u, text, from + 1));
      } else {
        LaidMore(u, text, from, WordsFrom(u, text, from + 1));
      }
    }
  }

  predicate Holds(text: string, w: Word, part: string) {
    w.lo <= w.hi <= |text| && part == text[w.lo..w.hi]
  }

  ghost predicate AllHold(text: string, words: seq<Word>, parts: seq<string>) {
    |words| == |parts| && forall k :: 0 <= k < |words| ==> Holds(text, words[k], parts[k])
  }

  lemma HoldsTail(text: string, words: seq<Word>, parts: seq<string>)
    requires AllHold(text, words, parts) && words != []
    ensures AllHold(text, words[1..], parts[1..])
  {
  }

  lemma HoldsCons(text: string, w: Word, part: string, words: seq<Word>, parts: seq<string>)
    requires AllHold(text, words, parts) && Holds(text, w, part)
    ensures AllHold(text, [w] + words, [part] + parts)
  {
  }

  /** The words are what splitting yields. */
  lemma {:induction false} WordsSplit(u: Unicode, text: string, from: nat)
    requires from <= |text|
    ensures AllHold(text, WordsFrom(u, text, from), SplitWords(u, text[from..]))
    decreases |text| - from
  {
    if from < |text| {
      WordsSplit(u, text, from + 1);
      WordsLaid(u, text, from + 1);
      var tail := text[from..];
      assert tail[0] == text[from] && tail[1..] == text[from + 1..];
      var rest, parts := WordsFrom(u, text, from + 1), SplitWords(u, text[from + 1..]);
      assert Holds(text, rest[0], parts[0]);
      if u.alphanumeric(text[from]) {
        assert [text[from]] + text[from + 1..rest[0].hi] == text[from..rest[0].hi];
        HoldsTail(text, rest, parts);
        HoldsCons(text, Word(from, rest[0].hi), [text[from]] + parts[0], rest[1..], parts[1..]);
      } else {
        HoldsCons(text, Word(from, from), "", rest, parts);
      }
    }
  }

  lemma {:induction false} WordsComplete(u: Unicode, text: string, from: nat, lo: nat, hi: nat)
    requires from <= lo < hi <= |text| && Spelled(u, text, lo, hi) && (hi == |text| || !u.alphanumeric(text[hi]))
    requires lo == from || !u.alphanumeric(text[lo - 1])
    ensures Word(lo, hi) in WordsFrom(u, text, from)
    decreases |text| - from
  {
    WordsLaid(u, text, from);
    var words := WordsFrom(u, text, from);
    if lo == from {
      assert u.alphanumeric(text[lo]) && CutOff(u, text, from, words[0]);
      assert words[0].hi == hi;
    } else {
      WordsComplete(u, text, from + 1, lo, hi);
      var rest := WordsFrom(u, text, from + 1);
      WordsLaid(u, text, from + 1);
      var k :| 0 <= k < |rest| && rest[k] == Word(lo, hi);
      if u.alphanumeric(text[from]) {
        assert k > 0 && words[k] == rest[k];
      } else {
        assert words[k + 1] == rest[k];
      }
    }
  }

  function LongWords(words: seq<Word>): (runs: seq<Word>)
    ensures forall w :: w in runs <==> w in words && w.hi - w.lo >= 2
  {
    if words == [] then []
    else if words[0].hi - words[0].lo >= 2 then [words[0]] + LongWords(words[1..])
    else LongWords(words[1..])
  }

  lemma {:induction false} LongWordsInOrder(words: seq<Word>)
    requires InOrder(words, Precedes)
    ensures InOrder(LongWords(words), Precedes)
  {
    if words != [] {
      LongWordsInOrder(words[1..]);
      var rest := LongWords(words[1..]);
      forall k | 0 <= k < |rest| ensures Precedes(words[0], rest[k]) {
        assert rest[k] in words[1..];
        var j :| 0 <= j < |words[1..]| && words[1..][j] == rest[k];
        assert words[j + 1] == rest[k];
      }
      OrderedCons(words[0], rest);
    }
  }

  predicate IsLowered(u: Unicode, text: string, run: Word, token: string) {
    run.lo <= run.hi <= |text| && token == u.lower(text[run.lo..run.hi])
  }

  /** `tokens` are the lower-cased texts of these runs, in order. */
  ghost predicate Lowered(u: Unicode, text: string, runs: seq<Word>, tokens: seq<string>) {
    |runs| == |tokens| && forall k :: 0 <= k < |runs| ==> IsLowered(u, text, runs[k], tokens[k])
  }

  lemma LoweredCons(u: Unicode, text: string, run: Word, token: string, runs: seq<Word>, tokens: seq<string>)
    requires Lowered(u, text, runs, tokens) && IsLowered(u, text, run, token)
    ensures Lowered(u, text, [run] + runs, [token] + tokens)
  {
  }

  lemma {:induction false} KeptAre(u: Unicode, text: string, parts: seq<string>, words: seq<Word>)
    requires AllHold(text, words, parts)
    ensures Lowered(u, text, LongWords(words), Kept(u, parts))
  {
    if words != [] {
      HoldsTail(text, words, parts);
      KeptAre(u, text, parts[1..], words[1..]);
      assert Holds(text, words[0], parts[0]);
      if |parts[0]| >= 2 {
        LoweredCons(u, text, words[0], u.lower(parts[0]), LongWords(words[1..]), Kept(u, parts[1..]));
      }
    }
  }

  /** Exactly the maximal runs of two characters or more, in order. */
  ghost predicate AllRuns(u: Unicode, text: string, runs: seq<Word>) {
    && (forall k :: 0 <= k < |runs| ==> MaximalRun(u, text, runs[k].lo, runs[k].hi) && runs[k].hi - runs[k].lo >= 2)
    && (forall k, m :: 0 <= k < m < |runs| ==> Precedes(runs[k], runs[m]))
    && (forall lo: nat, hi: nat :: MaximalRun(u, text, lo, hi) && hi - lo >= 2 ==> Word(lo, hi) in runs)
  }

  lemma LongWordsAreRuns(u: Unicode, text: string, words: seq<Word>)
    requires words == WordsFrom(u, text, 0)
    ensures AllRuns(u, text, LongWords(words))
  {
    var runs := LongWords(words);
    WordsLaid(u, text, 0);
    LongWordsInOrder(words);
    forall k | 0 <= k < |runs| ensures MaximalRun(u, text, runs[k].lo, runs[k].hi) && runs[k].hi - runs[k].lo >= 2 {
      assert runs[k] in words;
      var j :| 0 <= j < |words| && words[j] == runs[k];
      assert CutOff(u, text, 0, words[j]);
    }
    forall lo: nat, hi: nat | MaximalRun(u, text, lo, hi) && hi - lo >= 2 ensures Word(lo, hi) in runs {
      WordsComplete(u, text, 0, lo, hi);
    }
  }

  /** The tokens are, in order, the lower-cased maximal alphanumeric runs of two characters or more. */
  lemma TokensAreRuns(u: Unicode, text: string) returns (runs: seq<Word>)
    ensures AllRuns(u, text, runs) && |runs| == |Tokenize(u, text)|
    ensures forall k :: 0 <= k < |runs| ==> IsLowered(u, text, runs[k], Tokenize(u, text)[k])
  {
    var words := WordsFrom(u, text, 0);
    runs := LongWords(words);
    WordsSplit(u, text, 0);
    assert text[0..] == text;
    KeptAre(u, text, SplitWords(u, text), words);
    LongWordsAreRuns(u, text, words);
  }

  // ---------------------------------------------------------------- FNV-1a on 32 bits

  const WORD: nat := 0x1_0000_0000
  const FNV_OFFSET: nat := 0x811c_9dc5
  const FNV_PRIME: nat := 0x0100_0193

  /** Bitwise exclusive or. */
  function Xor(a: nat, b: nat): nat {
    if a == 0 && b == 0 then 0 else (if a % 2 == b % 2 then 0 else 1) + 2 * Xor(a / 2, b / 2)
  }

  function Fnv(bytes: seq<nat>): nat {
    if bytes == [] then FNV_OFFSET
    else Xor(Fnv(bytes[..|bytes| - 1]), bytes[|bytes| - 1]) * FNV_PRIME % WORD
  }

  /** The hash without its top bit: in range for a signed 32-bit reader. */
  function IdOf(bytes: seq<nat>): (id: nat)
    ensures id < 0x8000_0000
  {
    Fnv(bytes) % 0x8000_0000
  }

  method TokenId(bytes: seq<nat>) returns (id: nat)
    ensures id == IdOf(bytes)
  {
    var hash := FNV_OFFSET;
    for i := 0 to |bytes|
      invariant hash == Fnv(bytes[..i])
    {
      assert bytes[..i + 1][..i] == bytes[..i];
      hash := Xor(hash, bytes[i]);
      hash := hash * FNV_PRIME % WORD;
    }
    assert bytes[..|bytes|] == bytes;
    id := hash % 0x8000_0000;
  }

  // ---------------------------------------------------------------- counting

  function Ids(u: Unicode, tokens: seq<string>): (ids: seq<nat>)
    ensures |ids| == |tokens| && forall i :: 0 <= i < |ids| ==> ids[i] == IdOf(u.utf8(tokens[i]))
  {
    if tokens == [] then [] else [IdOf(u.utf8(tokens[0]))] + Ids(u, tokens[1..])
  }

  function Count(ids: seq<nat>, id: nat): nat {
    if ids == [] then 0
    else if ids[|ids| - 1] == id then Count(ids[..|ids| - 1], id) + 1
    else Count(ids[..|ids| - 1], id)
  }

  lemma {:induction false} CountPositive(ids: seq<nat>, id: nat)
    ensures Count(ids, id) > 0 <==> id in ids
  {
    if ids != [] {
      CountPositive(ids[..|ids| - 1], id);
      assert ids == ids[..|ids| - 1] + [ids[|ids| - 1]];
    }
  }

  function Sum(values: seq<nat>): nat {
    if values == [] then 0 else values[0] + Sum(values[1..])
  }

  predicate Less(x: nat, y: nat) {
    x < y
  }

  ghost predicate Increasing(s: seq<nat>) {
    InOrder(s, Less)
  }

  /** A lexical vector of these token ids: indices strictly increase, every token is counted under its own
      index, and nothing else is. */
  ghost predicate Encodes(ids: seq<nat>, indices: seq<nat>, values: seq<nat>) {
    && |indices| == |values|
    && Increasing(indices)
    && (forall i :: 0 <= i < |indices| ==> indices[i] in ids && values[i] == Count(ids, indices[i]))
    && (forall id :: id in ids ==> id in indices)
  }

  /** There is only one such vector, so the order in which the counts are read off does not matter. */
  lemma EncodingUnique(ids: seq<nat>, indices: seq<nat>, values: seq<nat>, otherIndices: seq<nat>, otherValues: seq<nat>)
    requires Encodes(ids, indices, values) && Encodes(ids, otherIndices, otherValues)
    ensures indices == otherIndices && values == otherValues
  {
    SameOrder(indices, otherIndices, Less);
  }

  function Counts(ids: seq<nat>, keys: seq<nat>): nat {
    if keys == [] then 0 else Count(ids, keys[0]) + Counts(ids, keys[1..])
  }

  lemma {:induction false} CountsMore(ids: seq<nat>, id: nat, keys: seq<nat>)
    requires Increasing(keys)
    ensures Counts(ids + [id], keys) == Counts(ids, keys) + if id in keys then 1 else 0
  {
    if keys != [] {
      OrderedTail(keys, Less);
      CountsMore(ids, id, keys[1..]);
      assert (ids + [id])[..|ids|] == ids;
    }
  }

  lemma {:induction false} CountsOfNothing(keys: seq<nat>)
    ensures Counts([], keys) == 0
  {
    if keys != [] {
      CountsOfNothing(keys[1..]);
    }
  }

  lemma {:induction false} CountsAll(ids: seq<nat>, keys: seq<nat>)
    requires Increasing(keys) && forall id :: id in ids ==> id in keys
    ensures Counts(ids, keys) == |ids|
  {
    if ids == [] {
      CountsOfNothing(keys);
    } else {
      var front, last := ids[..|ids| - 1], ids[|ids| - 1];
      assert ids == front + [last];
      CountsAll(front, keys);
      CountsMore(front, last, keys);
    }
  }

  lemma {:induction false} SumOfCounts(ids: seq<nat>, indices: seq<nat>, values: seq<nat>)
    requires |indices| == |values| && forall i :: 0 <= i < |indices| ==> values[i] == Count(ids, indices[i])
    ensures Sum(values) == Counts(ids, indices)
  {
    if values != [] {
      SumOfCounts(ids, indices[1..], values[1..]);
    }
  }

  /** The weights add up to the number of tokens, and every index fits 31 bits. */
  lemma WeightsAddUp(u: Unicode, text: string, indices: seq<nat>, values: seq<nat>)
    requires Encodes(Ids(u, Tokenize(u, text)), indices, values)
    ensures Sum(values) == |Tokenize(u, text)|
    ensures forall i :: 0 <= i < |indices| ==> indices[i] < 0x8000_0000 && values[i] > 0
  {
    var ids := Ids(u, Tokenize(u, text));
    SumOfCounts(ids, indices, values);
    CountsAll(ids, indices);
    forall i | 0 <= i < |indices| ensures indices[i] < 0x8000_0000 && values[i] > 0 {
      CountPositive(ids, indices[i]);
      var j :| 0 <= j < |ids| && ids[j] == indices[i];
    }
  }

  /** How often an id occurs, as the number of its places. */
  lemma {:induction false} CountIsPlaces(ids: seq<nat>, id: nat)
    ensures Count(ids, id) == |set k | 0 <= k < |ids| && ids[k] == id|
  {
    if ids != [] {
      var n := |ids| - 1;
      var front := ids[..n];
      CountIsPlaces(front, id);
      var before := set k | 0 <= k < |front| && front[k] == id;
      var all := set k | 0 <= k < |ids| && ids[k] == id;
      assert n !in before;
      assert all == if ids[n] == id then before + {n} else before;
    }
  }

  /** The id under which a run is counted. */
  function IdOfRun(u: Unicode, text: string, run: Word): nat
    requires run.lo <= run.hi <= |text|
  {
    IdOf(u.utf8(u.lower(text[run.lo..run.hi])))
  }

  ghost predicate RunsHaveIds(u: Unicode, text: string, runs: seq<Word>, ids: seq<nat>) {
    && |runs| == |ids|
    && forall k :: 0 <= k < |runs| ==> runs[k].lo <= runs[k].hi <= |text| && IdOfRun(u, text, runs[k]) == ids[k]
  }

  lemma TokenIds(u: Unicode, text: string) returns (runs: seq<Word>)
    ensures AllRuns(u, text, runs) && |runs| == |Tokenize(u, text)|
    ensures RunsHaveIds(u, text, runs, Ids(u, Tokenize(u, text)))
  {
    runs := TokensAreRuns(u, text);
    var tokens := Tokenize(u, text);
    forall k | 0 <= k < |runs|
      ensures runs[k].lo <= runs[k].hi <= |text| && IdOfRun(u, text, runs[k]) == Ids(u, tokens)[k]
    {
      assert IsLowered(u, text, runs[k], tokens[k]);
    }
  }

  /** `value` runs hash to `index`. */
  ghost predicate CountsRuns(u: Unicode, text: string, runs: seq<Word>, index: nat, value: nat) {
    value == |set k | 0 <= k < |runs| && runs[k].lo <= runs[k].hi <= |text| && IdOfRun(u, text, runs[k]) == index|
  }

  lemma RunsCounted(u: Unicode, text: string, runs: seq<Word>, ids: seq<nat>, index: nat)
    requires RunsHaveIds(u, text, runs, ids)
    ensures CountsRuns(u, text, runs, index, Count(ids, index))
  {
    CountIsPlaces(ids, index);
    assert (set k | 0 <= k < |ids| && ids[k] == index)
        == (set k | 0 <= k < |runs| && runs[k].lo <= runs[k].hi <= |text| && IdOfRun(u, text, runs[k]) == index);
  }

  /** The weight under an index is the number of runs that hash to it, every run is counted, and the weights
      together are the number of runs. */
  lemma WeightsCountRuns(u: Unicode, text: string, indices: seq<nat>, values: seq<nat>) returns (runs: seq<Word>)
    requires Encodes(Ids(u, Tokenize(u, text)), indices, values)
    ensures AllRuns(u, text, runs) && Sum(values) == |runs| && |indices| == |values|
    ensures forall i, j :: 0 <= i < j < |indices| ==> indices[i] < indices[j]
    ensures forall i :: 0 <= i < |indices| ==> CountsRuns(u, text, runs, indices[i], values[i])
    ensures forall k :: 0 <= k < |runs| ==> IdOfRun(u, text, runs[k]) in indices
  {
    runs := TokenIds(u, text);
    WeightsAddUp(u, text, indices, values);
    var ids := Ids(u, Tokenize(u, text));
    forall i | 0 <= i < |indices| ensures CountsRuns(u, text, runs, indices[i], values[i]) {
      RunsCounted(u, text, runs, ids, indices[i]);
    }
    forall k | 0 <= k < |runs| ensures IdOfRun(u, text, runs[k]) in indices {
      assert ids[k] in ids;
    }
  }

  function Bit(a: nat, i: nat): nat {
    if i == 0 then a % 2 else Bit(a / 2, i - 1)
  }

  /** A bit is set exactly when it differs in the two numbers. */
  lemma {:induction false} XorBits(a: nat, b: nat, i: nat)
    ensures Bit(Xor(a, b), i) == if Bit(a, i) == Bit(b, i) then 0 else 1
    decreases i
  {
    var half := Xor(a / 2, b / 2);
    assert Xor(a, b) == (if a % 2 == b % 2 then 0 else 1) + 2 * half;
    if i > 0 {
      XorBits(a / 2, b / 2, i - 1);
    }
  }

  /** The ids of the empty input and of one byte, from the published FNV-1a constants, without the top bit. */
  lemma ShortIds(empty: seq<nat>, bytes: seq<nat>)
    requires empty == [] && |bytes| == 1
    ensures IdOf(empty) == 0x011c_9dc5
    ensures IdOf(bytes) == Xor(0x811c_9dc5, bytes[0]) * 0x0100_0193 % 0x1_0000_0000 % 0x8000_0000
  {
    assert bytes[..0] == [];
    assert Fnv(bytes[..0]) == FNV_OFFSET;
  }

  // ---------------------------------------------------------------- encode

  datatype Weight = Weight(index: nat, value: nat)

  function IndexOf(w: Weight): nat { w.index }

  /** The hash map holds exactly the counts of the ids seen so far. */
  ghost predicate Counted(counts: map<nat, nat>, ids: seq<nat>) {
    && (forall id :: id in counts <==> id in ids)
    && forall id :: id in counts ==> counts[id] == Count(ids, id)
  }

  lemma CountedMore(counts: map<nat, nat>, ids: seq<nat>, id: nat)
    requires Counted(counts, ids)
    ensures Counted(counts[id := (if id in counts then counts[id] else 0) + 1], ids + [id])
  {
    assert (ids + [id])[..|ids|] == ids;
    CountPositive(ids, id);
  }

  /** The entries of the map in whatever order it yields them. */
  method Entries(counts: map<nat, nat>) returns (pairs: seq<Weight>)
    ensures forall i, j :: 0 <= i < j < |pairs| ==> pairs[i].index != pairs[j].index
    ensures forall i :: 0 <= i < |pairs| ==> pairs[i].index in counts && pairs[i].value == counts[pairs[i].index]
    ensures forall id :: id in counts ==> Weight(id, counts[id]) in pairs
  {
    pairs := [];
    var todo := counts.Keys;
    while todo != {}
      invariant todo <= counts.Keys
      invariant forall i, j :: 0 <= i < j < |pairs| ==> pairs[i].index != pairs[j].index
      invariant forall i :: 0 <= i < |pairs| ==>
                  pairs[i].index in counts && pairs[i].index !in todo && pairs[i].value == counts[pairs[i].index]
      invariant forall id :: id in counts && id !in todo ==> Weight(id, counts[id]) in pairs
      decreases todo
    {
      var id :| id in todo;
      pairs := pairs + [Weight(id, counts[id])];
      todo := todo - {id};
    }
  }

  method CountTokens(u: Unicode, tokens: seq<string>) returns (counts: map<nat, nat>)
    ensures Counted(counts, Ids(u, tokens))
  {
    ghost var ids := Ids(u, tokens);
    counts := map[];
    for n := 0 to |tokens|
      invariant Counted(counts, ids[..n])
    {
      var id := TokenId(u.utf8(tokens[n]));
      CountedMore(counts, ids[..n], id);
      assert ids[..n + 1] == ids[..n] + [id];
      counts := counts[id := (if id in counts then counts[id] else 0) + 1];
    }
    assert ids[..|tokens|] == ids;
  }

  method Unzip(pairs: seq<Weight>) returns (indices: seq<nat>, values: seq<nat>)
    ensures |indices| == |values| == |pairs|
    ensures forall k :: 0 <= k < |pairs| ==> indices[k] == pairs[k].index && values[k] == pairs[k].value
  {
    indices, values := [], [];
    for i := 0 to |pairs|
      invariant |indices| == |values| == i
      invariant forall k :: 0 <= k < i ==> indices[k] == pairs[k].index && values[k] == pairs[k].value
    {
      indices, values := indices + [pairs[i].index], values + [pairs[i].value];
    }
  }

  lemma SortedEncodes(ids: seq<nat>, counts: map<nat, nat>, pairs: seq<Weight>, sorted: seq<Weight>, from: seq<nat>,
                      indices: seq<nat>, values: seq<nat>)
    requires Counted(counts, ids) && SortedBy(sorted, IndexOf) && Rearranged(pairs, sorted, from)
    requires forall i, j :: 0 <= i < j < |pairs| ==> pairs[i].index != pairs[j].index
    requires forall i :: 0 <= i < |pairs| ==> pairs[i].index in counts && pairs[i].value == counts[pairs[i].index]
    requires forall id :: id in counts ==> Weight(id, counts[id]) in pairs
    requires |indices| == |values| == |sorted|
    requires forall k :: 0 <= k < |sorted| ==> indices[k] == sorted[k].index && values[k] == sorted[k].value
    ensures Encodes(ids, indices, values)
  {
    forall i, j | 0 <= i < j < |indices| ensures indices[i] < indices[j] {
      assert from[i] != from[j];
      assert IndexOf(sorted[i]) <= IndexOf(sorted[j]);
    }
    forall id | id in ids ensures id in indices {
      var j :| 0 <= j < |pairs| && pairs[j] == Weight(id, counts[id]);
      PermutationHits(from, j);
      var k :| 0 <= k < |from| && from[k] == j;
      assert indices[k] == id;
    }
  }

  method Encode(u: Unicode, text: string) returns (indices: seq<nat>, values: seq<nat>)
    ensures Encodes(Ids(u, Tokenize(u, text)), indices, values)
  {
    var tokens := Tokenize(u, text);
    var counts := CountTokens(u, tokens);
    var pairs := Entries(counts);
    var sorted, from := SortByKey(pairs, IndexOf);
    indices, values := Unzip(sorted);
    SortedEncodes(Ids(u, tokens), counts, pairs, sorted, from, indices, values);
  }
}
