/** Sorting by a numeric key, standing for Rust's `sort_by_key`; that it is stable is not needed. */
module Sorting {
  ghost predicate Distinct(s: seq<nat>) {
    forall i, j :: 0 <= i < j < |s| ==> s[i] != s[j]
  }

  /** `s` lists 0 to `|s| - 1` in some order. */
  ghost predicate Permutation(s: seq<nat>) {
    Distinct(s) && forall i :: 0 <= i < |s| ==> s[i] < |s|
  }

  function UpTo(n: nat): (s: set<nat>)
    ensures |s| == n && forall k: nat :: k in s <==> k < n
  {
    if n == 0 then {} else UpTo(n - 1) + {n - 1}
  }

  lemma {:induction false} DistinctSize(s: seq<nat>)
    requires Distinct(s)
    ensures |set i | 0 <= i < |s| :: s[i]| == |s|
  {
    if s != [] {
      var n := |s| - 1;
      DistinctSize(s[..n]);
      var front := set i | 0 <= i < n :: s[..n][i];
      assert (set i | 0 <= i < |s| :: s[i]) == front + {s[n]};
      assert s[n] !in front;
    }
  }

  lemma SubsetOfSize<T>(a: set<T>, b: set<T>)
    requires a <= b && |a| == |b|
    ensures a == b
  {
    assert b == a + (b - a);
    assert |b - a| == 0;
  }

  /** A permutation leaves no position out. */
  lemma PermutationHits(s: seq<nat>, k: nat)
    requires Permutation(s) && k < |s|
    ensures exists i :: 0 <= i < |s| && s[i] == k
  {
    var hit := set i | 0 <= i < |s| :: s[i];
    DistinctSize(s);
    SubsetOfSize(hit, UpTo(|s|));
    assert k in hit;
  }

  ghost predicate SortedBy<T>(s: seq<T>, key: T -> nat) {
    forall i, j :: 0 <= i < j < |s| ==> key(s[i]) <= key(s[j])
  }

  /** `out[i]` is `s[from[i]]`, each element used once. */
  ghost predicate Rearranged<T>(s: seq<T>, out: seq<T>, from: seq<nat>) {
    && |out| == |s| == |from| && Permutation(from)
    && forall i :: 0 <= i < |out| ==> out[i] == s[from[i]]
  }

  function Inserted<T>(s: seq<T>, at: nat, x: T): (r: seq<T>)
    requires at <= |s|
    ensures |r| == |s| + 1 && r[at] == x
    ensures forall i :: 0 <= i < at ==> r[i] == s[i]
    ensures forall i :: at < i < |r| ==> r[i] == s[i - 1]
  {
    s[..at] + [x] + s[at..]
  }

  lemma InsertSorted<T>(out: seq<T>, key: T -> nat, at: nat, x: T)
    requires at <= |out| && SortedBy(out, key)
    requires at > 0 ==> key(out[at - 1]) <= key(x)
    requires forall i :: at <= i < |out| ==> key(out[i]) > key(x)
    ensures SortedBy(Inserted(out, at, x), key)
  {
    forall i | 0 <= i < at ensures key(out[i]) <= key(x) {
      assert i < at - 1 ==> key(out[i]) <= key(out[at - 1]);
    }
  }

  lemma InsertRearranged<T>(s: seq<T>, n: nat, out: seq<T>, from: seq<nat>, at: nat)
    requires n < |s| && at <= n && Rearranged(s[..n], out, from)
    ensures Rearranged(s[..n + 1], Inserted(out, at, s[n]), Inserted(from, at, n))
  {
    var longer, list := Inserted(out, at, s[n]), Inserted(from, at, n);
    forall i | 0 <= i < |list| ensures list[i] < n + 1 && longer[i] == s[list[i]] {
      if i < at {
        assert out[i] == s[..n][from[i]];
      } else if i > at {
        assert out[i - 1] == s[..n][from[i - 1]];
      }
    }
  }

  method SortByKey<T>(s: seq<T>, key: T -> nat) returns (out: seq<T>, ghost from: seq<nat>)
    ensures SortedBy(out, key) && Rearranged(s, out, from)
  {
    out, from := [], [];
    for n := 0 to |s|
      invariant SortedBy(out, key) && Rearranged(s[..n], out, from)
    {
      var at := n;
      while at > 0 && key(out[at - 1]) > key(s[n])
        invariant at <= n
        invariant forall i :: at <= i < n ==> key(out[i]) > key(s[n])
      {
        at := at - 1;
      }
      InsertSorted(out, key, at, s[n]);
      InsertRearranged(s, n, out, from, at);
      out, from := Inserted(out, at, s[n]), Inserted(from, at, n);
    }
    assert s[..|s|] == s;
  }
}
