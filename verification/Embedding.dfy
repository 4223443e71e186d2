/** Embedding responses (`crates/common/src/embedding.rs`): restored to request order, batch by batch. */
module Embedding {
  import opened Sorting

  const EMBEDDING_DIM: nat := 1536
  const EMBED_BATCH: nat := 96

  type Vector = seq<real>

  /** One vector of a response, and the position in the request it is labelled with. */
  datatype Datum = Datum(index: nat, embedding: Vector)

  datatype EmbedError = Transport | Status(code: nat, body: string) | Protocol

  datatype Result<T> = Ok(value: T) | Err(error: EmbedError)

  /** What the gateway answers to one request. */
  datatype Reply = Data(data: seq<Datum>) | Failed(error: EmbedError)

  // ---------------------------------------------------------------- labels

  function IndexOf(d: Datum): nat { d.index }

  function Labels(data: seq<Datum>): (s: seq<nat>)
    ensures |s| == |data| && forall i :: 0 <= i < |s| ==> s[i] == data[i].index
  {
    if data == [] then [] else [data[0].index] + Labels(data[1..])
  }

  predicate WellSized(data: seq<Datum>) {
    forall i :: 0 <= i < |data| ==> |data[i].embedding| == EMBEDDING_DIM
  }

  /** A response that can be used for `expected` texts. */
  ghost predicate Usable(data: seq<Datum>, expected: nat) {
    |data| == expected && Permutation(Labels(data)) && WellSized(data)
  }

  /** Every vector stands where its label says. */
  ghost predicate Placed(data: seq<Datum>, out: seq<Vector>) {
    |out| == |data| && forall j :: 0 <= j < |data| ==> data[j].index < |out| && out[data[j].index] == data[j].embedding
  }

  lemma {:induction false} AtLeast(s: seq<nat>, i: nat)
    requires i < |s| && forall j, k :: 0 <= j < k < |s| ==> s[j] < s[k]
    ensures s[i] >= i
  {
    if i > 0 {
      AtLeast(s, i - 1);
    }
  }

  lemma {:induction false} AtMost(s: seq<nat>, bound: nat, i: nat)
    requires i < |s| && forall j, k :: 0 <= j < k < |s| ==> s[j] < s[k]
    requires forall j :: 0 <= j < |s| ==> s[j] < bound
    ensures s[i] + (|s| - i) <= bound
    decreases |s| - i
  {
    if i + 1 < |s| {
      AtMost(s, bound, i + 1);
    }
  }

  /** An increasing list of distinct numbers below its length is 0, 1, 2 and so on. */
  lemma {:induction false} IncreasingIsIdentity(s: seq<nat>, bound: nat, i: nat)
    requires i < |s| && |s| == bound
    requires forall j, k :: 0 <= j < k < |s| ==> s[j] < s[k]
    requires forall j :: 0 <= j < |s| ==> s[j] < bound
    ensures s[i] == i
  {
    AtLeast(s, i);
    AtMost(s, bound, i);
  }

  // ---------------------------------------------------------------- one response

  lemma InPlace(data: seq<Datum>, sorted: seq<Datum>, from: seq<nat>, out: seq<Vector>)
    requires Rearranged(data, sorted, from) && |out| == |sorted|
    requires forall k :: 0 <= k < |sorted| ==>
               sorted[k].index == k && |sorted[k].embedding| == EMBEDDING_DIM && out[k] == sorted[k].embedding
    ensures Usable(data, |data|) && Placed(data, out)
  {
    forall j | 0 <= j < |data|
      ensures exists i :: 0 <= i < |from| && from[i] == j && data[j].index == i && data[j] == sorted[i]
    {
      PermutationHits(from, j);
    }
  }

  lemma NotInPlace(data: seq<Datum>, sorted: seq<Datum>, from: seq<nat>, i: nat)
    requires SortedBy(sorted, IndexOf) && Rearranged(data, sorted, from) && i < |sorted|
    requires sorted[i].index != i || |sorted[i].embedding| != EMBEDDING_DIM
    ensures !Usable(data, |data|)
  {
    if Permutation(Labels(data)) {
      var labels := Labels(sorted);
      forall j, k | 0 <= j < k < |labels| ensures labels[j] < labels[k] {
        assert Labels(data)[from[j]] == labels[j] && Labels(data)[from[k]] == labels[k];
        assert from[j] != from[k];
        assert from[j] < from[k] || from[k] < from[j];
      }
      IncreasingIsIdentity(labels, |labels|, i);
    }
  }

  lemma UsableIs(data: seq<Datum>, expected: nat)
    ensures Usable(data, expected)
            <==> |data| == expected
                 && (forall i :: 0 <= i < |data| ==> data[i].index < expected && |data[i].embedding| == 1536)
                 && (forall i, j :: 0 <= i < j < |data| ==> data[i].index != data[j].index)
  {
    var labels := Labels(data);
    assert forall i :: 0 <= i < |data| ==> labels[i] == data[i].index;
    if Usable(data, expected) {
      forall i, j | 0 <= i < j < |data| ensures data[i].index != data[j].index {
        assert labels[i] != labels[j];
      }
      forall i | 0 <= i < |data| ensures data[i].index < expected {
        assert labels[i] < |labels|;
      }
    }
  }

  /** Succeeds exactly on a usable response, and then puts every vector where its label says. */
  method OrderEmbeddings(data: seq<Datum>, expected: nat) returns (r: Result<seq<Vector>>)
    ensures r.Ok? <==> Usable(data, expected)
    ensures r.Ok? ==> Placed(data, r.value)
    ensures r.Err? ==> r.error == Protocol
    ensures r.Ok? <==> |data| == expected
                       && (forall i :: 0 <= i < |data| ==> data[i].index < expected && |data[i].embedding| == 1536)
                       && (forall i, j :: 0 <= i < j < |data| ==> data[i].index != data[j].index)
  {
    UsableIs(data, expected);
    if |data| != expected {
      return Err(Protocol);
    }
    var sorted, from := SortByKey(data, IndexOf);
    var out: seq<Vector> := [];
    for i := 0 to |sorted|
      invariant |out| == i
      invariant forall k :: 0 <= k < i ==> sorted[k].index == k && |sorted[k].embedding| == EMBEDDING_DIM && out[k] == sorted[k].embedding
    {
      if sorted[i].index != i || |sorted[i].embedding| != EMBEDDING_DIM {
        NotInPlace(data, sorted, from, i);
        return Err(Protocol);
      }
      out := out + [sorted[i].embedding];
    }
    InPlace(data, sorted, from, out);
    r := Ok(out);
  }

  /** Nothing but the labels decides: two responses with the same vectors under the same labels, in
      whatever order, give the same result. */
  lemma OrderDoesNotMatter(data: seq<Datum>, other: seq<Datum>, from: seq<nat>, out: seq<Vector>, otherOut: seq<Vector>)
    requires Rearranged(data, other, from) && Permutation(Labels(data))
    requires Placed(data, out) && Placed(other, otherOut)
    ensures out == otherOut
  {
    forall k | 0 <= k < |out| ensures out[k] == otherOut[k] {
      PermutationHits(Labels(data), k);
      var j :| 0 <= j < |data| && Labels(data)[j] == k;
      PermutationHits(from, j);
    }
  }

  // ---------------------------------------------------------------- all batches

  /** How many texts a batch holds. */
  function BatchSize(total: nat, batch: nat): nat
    requires batch * EMBED_BATCH <= total
  {
    if total - batch * EMBED_BATCH < EMBED_BATCH then total - batch * EMBED_BATCH else EMBED_BATCH
  }

  /** The vector the gateway labelled for text `k`, which is text `k % 96` of request `k / 96`. */
  ghost predicate LabelledFor(replies: nat -> Reply, k: nat, v: Vector) {
    var reply := replies(k / EMBED_BATCH);
    reply.Data? && exists j :: 0 <= j < |reply.data| && reply.data[j] == Datum(k % EMBED_BATCH, v)
  }

  /** One request: an error, or a response put in order. */
  method EmbedOneBatch(texts: seq<string>, reply: Reply) returns (r: Result<seq<Vector>>)
    ensures r.Ok? <==> texts == [] || (reply.Data? && Usable(reply.data, |texts|))
    ensures r.Ok? ==> |r.value| == |texts| && (texts != [] ==> Placed(reply.data, r.value))
  {
    if texts == [] {
      return Ok([]);
    }
    match reply
    case Failed(e) => r := Err(e);
    case Data(data) => r := OrderEmbeddings(data, |texts|);
  }

  lemma LabelFound(replies: nat -> Reply, batch: nat, part: seq<Vector>, k: nat)
    requires replies(batch).Data? && Usable(replies(batch).data, |part|) && Placed(replies(batch).data, part)
    requires batch * EMBED_BATCH <= k < batch * EMBED_BATCH + |part| && |part| <= EMBED_BATCH
    ensures LabelledFor(replies, k, part[k - batch * EMBED_BATCH])
  {
    var data := replies(batch).data;
    var mark := k - batch * EMBED_BATCH;
    assert k / EMBED_BATCH == batch && k % EMBED_BATCH == mark;
    PermutationHits(Labels(data), mark);
    var j :| 0 <= j < |data| && Labels(data)[j] == mark;
    assert data[j] == Datum(mark, part[mark]);
  }

  lemma LabelsFound(replies: nat -> Reply, batch: nat, out: seq<Vector>, part: seq<Vector>)
    requires |out| == batch * EMBED_BATCH && forall k :: 0 <= k < |out| ==> LabelledFor(replies, k, out[k])
    requires replies(batch).Data? && Usable(replies(batch).data, |part|) && Placed(replies(batch).data, part)
    requires |part| <= EMBED_BATCH
    ensures forall k :: 0 <= k < |out + part| ==> LabelledFor(replies, k, (out + part)[k])
  {
    forall k | 0 <= k < |out + part| ensures LabelledFor(replies, k, (out + part)[k]) {
      if k >= |out| {
        LabelFound(replies, batch, part, k);
      }
    }
  }

  /** Fails, or returns for every text the vector the gateway labelled for it. */
  method EmbedBatch(texts: seq<string>, replies: nat -> Reply) returns (r: Result<seq<Vector>>)
    ensures r.Ok? ==> |r.value| == |texts| && forall k :: 0 <= k < |texts| ==> LabelledFor(replies, k, r.value[k])
    ensures r.Ok? <==> forall b: nat :: b * EMBED_BATCH < |texts| ==>
              replies(b).Data? && Usable(replies(b).data, BatchSize(|texts|, b))
    ensures r.Ok? ==> forall k :: 0 <= k < |texts| ==>
              replies(k / 96).Data? && Datum(k % 96, r.value[k]) in replies(k / 96).data
  {
    var out: seq<Vector> := [];
    var batch := 0;
    while batch * EMBED_BATCH < |texts|
      invariant |out| == if batch * EMBED_BATCH < |texts| then batch * EMBED_BATCH else |texts|
      invariant forall k :: 0 <= k < |out| ==> LabelledFor(replies, k, out[k])
      invariant forall b: nat :: b < batch && b * EMBED_BATCH < |texts| ==>
                  replies(b).Data? && Usable(replies(b).data, BatchSize(|texts|, b))
      decreases |texts| - batch * EMBED_BATCH
    {
      var lo := batch * EMBED_BATCH;
      var hi := lo + BatchSize(|texts|, batch);
      var part := EmbedOneBatch(texts[lo..hi], replies(batch));
      if part.Err? {
        return Err(part.error);
      }
      LabelsFound(replies, batch, out, part.value);
      out := out + part.value;
      batch := batch + 1;
    }
    r := Ok(out);
  }
}
