/** The cached, sorted, batched embedding of src/clients/embedding_client.py and the plain batched
    one of src/clients/onnx_text_embedder.py.  The encoder is a pure function of one text, and the
    disk cache is a map keyed by the text itself. */
module Embedding {
  import opened Text
  import opened Batching

  type Vector = seq<real>
  type Cache = map<string, Vector>

  const MAX_INPUT_CHARS := 4000

  datatype EmbeddingResult = EmbeddingResult(embedding: Vector, text: string, cached: bool)

  /** The hard cap on one input. */
  function Clamp(t: string): (r: string)
    ensures r <= t && |r| == if |t| <= 4000 then |t| else 4000
    ensures |t| <= MAX_INPUT_CHARS ==> r == t
  {
    if |t| > MAX_INPUT_CHARS then t[..MAX_INPUT_CHARS] else t
  }

  // ---------- What embedding a list of texts means ----------

  /** The result for one text, given the cache as it was when the call began. */
  function ResultFor(cache: Cache, encode: string -> Vector, t: string): EmbeddingResult {
    var key := Clamp(t);
    EmbeddingResult(if key in cache then cache[key] else encode(key), t, key in cache)
  }

  /** The cache afterwards: old entries are untouched, every clamped input has one. */
  ghost predicate CacheAfter(cache: Cache, cache': Cache, encode: string -> Vector, keys: seq<string>) {
    && (forall key :: key in cache' <==> key in cache || key in keys)
    && (forall key :: key in cache' ==> cache'[key] == if key in cache then cache[key] else encode(key))
  }

  /** Every entry is the embedding of its key. */
  ghost predicate Coherent(cache: Cache, encode: string -> Vector) {
    forall key :: key in cache ==> cache[key] == encode(key)
  }

  /** With a coherent cache the result is the pointwise map, and the cache stays coherent. */
  lemma CoherentCallIsPointwise(cache: Cache, cache': Cache, encode: string -> Vector, texts: seq<string>,
      keys: seq<string>)
    requires Coherent(cache, encode) && CacheAfter(cache, cache', encode, keys)
    requires |keys| == |texts| && forall i :: 0 <= i < |texts| ==> keys[i] == Clamp(texts[i])
    ensures Coherent(cache', encode)
    ensures forall i :: 0 <= i < |texts| ==>
        ResultFor(cache, encode, texts[i])
        == EmbeddingResult(encode(Clamp(texts[i])), texts[i], Clamp(texts[i]) in cache)
    ensures forall i :: 0 <= i < |texts| ==>
        ResultFor(cache', encode, texts[i]) == EmbeddingResult(encode(Clamp(texts[i])), texts[i], true)
  {
    forall i | 0 <= i < |texts| ensures Clamp(texts[i]) in cache' {
      assert keys[i] in keys;
    }
  }

  // ---------- sorted(range(n), key=len) ----------

  ghost predicate IsPermutation(order: seq<nat>, n: nat) {
    && |order| == n
    && (forall k :: 0 <= k < n ==> order[k] < n)
    && (forall i: nat :: i < n ==> i in order)
  }

  /** Ascending by length, and positions with equal length keep their order. */
  ghost predicate StablyByLength(texts: seq<string>, order: seq<nat>) {
    && (forall k :: 0 <= k < |order| ==> order[k] < |texts|)
    && forall a, b :: 0 <= a < b < |order| ==>
         |texts[order[a]]| < |texts[order[b]]| || (|texts[order[a]]| == |texts[order[b]]| && order[a] < order[b])
  }

  function InsertByLength(texts: seq<string>, i: nat, order: seq<nat>): (r: seq<nat>)
    requires i < |texts| && forall k :: 0 <= k < |order| ==> order[k] < |texts|
    ensures |r| == |order| + 1 && forall x :: x in r <==> x == i || x in order
    ensures forall k :: 0 <= k < |r| ==> r[k] < |texts|
  {
    if order == [] then [i]
    else if |texts[order[0]]| <= |texts[i]| then
      assert forall x :: x in order <==> x == order[0] || x in order[1..];
      [order[0]] + InsertByLength(texts, i, order[1..])
    else [i] + order
  }

  function OrderByLength(texts: seq<string>, n: nat): (r: seq<nat>)
    requires n <= |texts|
    ensures |r| == n && (forall i: nat :: i in r <==> i < n) && (forall k :: 0 <= k < n ==> r[k] < |texts|)
  {
    if n == 0 then [] else InsertByLength(texts, n - 1, OrderByLength(texts, n - 1))
  }

  lemma {:induction false} InsertKeepsOrder(texts: seq<string>, i: nat, order: seq<nat>)
    requires i < |texts| && StablyByLength(texts, order)
    requires forall k :: 0 <= k < |order| ==> order[k] < i
    ensures StablyByLength(texts, InsertByLength(texts, i, order))
  {
    if order != [] && |texts[order[0]]| <= |texts[i]| {
      var rest := order[1..];
      InsertKeepsOrder(texts, i, rest);
      var r := InsertByLength(texts, i, rest);
      forall b | 0 <= b < |r|
        ensures |texts[order[0]]| < |texts[r[b]]| || (|texts[order[0]]| == |texts[r[b]]| && order[0] < r[b])
      {
        assert r[b] in r;
        if r[b] != i {
          var k :| 0 <= k < |rest| && rest[k] == r[b];
          assert rest[k] == order[k + 1];
        }
      }
    }
  }

  /** The sort is a permutation of the positions, ascending by length and stable. */
  lemma {:induction false} OrderIsStablePermutation(texts: seq<string>, n: nat)
    requires n <= |texts|
    ensures IsPermutation(OrderByLength(texts, n), n) && StablyByLength(texts, OrderByLength(texts, n))
  {
    var r := OrderByLength(texts, n);
    forall k | 0 <= k < n ensures r[k] < n { assert r[k] in r; }
    if n > 0 {
      OrderIsStablePermutation(texts, n - 1);
      InsertKeepsOrder(texts, n - 1, OrderByLength(texts, n - 1));
    }
  }

  // ---------- The clients ----------

  /** One forward pass: row k is the embedding of the k-th text of the batch. */
  function EncodeBatch(encode: string -> Vector, batch: seq<string>): (rows: seq<Vector>)
    ensures |rows| == |batch| && forall k :: 0 <= k < |batch| ==> rows[k] == encode(batch[k])
  {
    seq(|batch|, k requires 0 <= k < |batch| => encode(batch[k]))
  }

  /** The misses that were found: texts and the result slots they belong to. */
  ghost predicate MissesOf(cache: Cache, keys: seq<string>, n: nat, missIndices: seq<nat>, missTexts: seq<string>)
    requires n <= |keys|
  {
    && |missIndices| == |missTexts|
    && (forall k :: 0 <= k < |missIndices| ==>
        missIndices[k] < n && missTexts[k] == keys[missIndices[k]] && missTexts[k] !in cache)
    && (forall i: nat :: i < n && keys[i] !in cache ==> i in missIndices)
  }

  lemma ReorderKeepsMisses(cache: Cache, keys: seq<string>, n: nat, missIndices: seq<nat>, missTexts: seq<string>,
                           order: seq<nat>, missIndices': seq<nat>, missTexts': seq<string>)
    requires n <= |keys| && MissesOf(cache, keys, n, missIndices, missTexts) && IsPermutation(order, |missTexts|)
    requires |missIndices'| == |order| == |missTexts'|
    requires forall k :: 0 <= k < |order| ==>
        missIndices'[k] == missIndices[order[k]] && missTexts'[k] == missTexts[order[k]]
    ensures MissesOf(cache, keys, n, missIndices', missTexts')
  {
    forall i: nat | i < n && keys[i] !in cache ensures i in missIndices' {
      var j: nat :| j < |missIndices| && missIndices[j] == i;
      assert j in order;
      var k :| 0 <= k < |order| && order[k] == j;
      assert missIndices'[k] == i;
    }
  }

  /** Slots of hits are filled, and so are the slots of the first n misses. */
  ghost predicate Filled(cache: Cache, encode: string -> Vector, texts: seq<string>, keys: seq<string>,
                         results: seq<Option<EmbeddingResult>>, missIndices: seq<nat>, n: nat)
    requires |texts| == |keys| == |results| && n <= |missIndices|
  {
    && (forall i :: 0 <= i < |keys| && keys[i] in cache ==> results[i] == Some(ResultFor(cache, encode, texts[i])))
    && (forall k :: 0 <= k < n ==>
        missIndices[k] < |results| && results[missIndices[k]] == Some(ResultFor(cache, encode, texts[missIndices[k]])))
  }

  lemma FillNext(cache: Cache, encode: string -> Vector, texts: seq<string>, keys: seq<string>,
                 results: seq<Option<EmbeddingResult>>, missIndices: seq<nat>, missTexts: seq<string>, n: nat)
    requires |texts| == |keys| == |results| && (forall i :: 0 <= i < |texts| ==> keys[i] == Clamp(texts[i]))
    requires MissesOf(cache, keys, |keys|, missIndices, missTexts) && n < |missIndices|
    requires Filled(cache, encode, texts, keys, results, missIndices, n)
    ensures var idx := missIndices[n];
      Filled(cache, encode, texts, keys,
          results[idx := Some(EmbeddingResult(encode(missTexts[n]), texts[idx], false))], missIndices, n + 1)
  {
  }

  lemma AllFilled(cache: Cache, encode: string -> Vector, texts: seq<string>, keys: seq<string>,
                  results: seq<Option<EmbeddingResult>>, missIndices: seq<nat>, missTexts: seq<string>)
    requires |texts| == |keys| == |results| && MissesOf(cache, keys, |keys|, missIndices, missTexts)
    requires Filled(cache, encode, texts, keys, results, missIndices, |missIndices|)
    ensures forall i :: 0 <= i < |texts| ==> results[i] == Some(ResultFor(cache, encode, texts[i]))
  {
    forall i: nat | i < |texts| ensures results[i] == Some(ResultFor(cache, encode, texts[i])) {
      if keys[i] !in cache {
        assert i in missIndices;
        var k :| 0 <= k < |missIndices| && missIndices[k] == i;
      }
    }
  }

  lemma StoreNext(cache: Cache, cache': Cache, encode: string -> Vector, missTexts: seq<string>, n: nat)
    requires n < |missTexts| && CacheAfter(cache, cache', encode, missTexts[..n]) && missTexts[n] !in cache
    ensures CacheAfter(cache, cache'[missTexts[n] := encode(missTexts[n])], encode, missTexts[..n + 1])
  {
    assert missTexts[..n + 1] == missTexts[..n] + [missTexts[n]];
  }

  class BgeM3Client {
    const encode: string -> Vector
    const maxCharsPerBatch: int
    var cache: Cache

    constructor (encode: string -> Vector, maxCharsPerBatch: int, cache: Cache)
      ensures this.encode == encode && this.maxCharsPerBatch == maxCharsPerBatch && this.cache == cache
    {
      this.encode, this.maxCharsPerBatch, this.cache := encode, maxCharsPerBatch, cache;
    }

    /** The first loop: fill the slots of cache hits and collect the misses. */
    method LookUp(texts: seq<string>, keys: seq<string>, results: array<Option<EmbeddingResult>>)
      returns (missIndices: seq<nat>, missTexts: seq<string>)
      requires |texts| == |keys| == results.Length
      requires forall i :: 0 <= i < |texts| ==> keys[i] == Clamp(texts[i])
      modifies results
      ensures MissesOf(cache, keys, |keys|, missIndices, missTexts)
      ensures Filled(cache, encode, texts, keys, results[..], missIndices, 0)
    {
      missIndices, missTexts := [], [];
      for i := 0 to |texts|
        invariant MissesOf(cache, keys, i, missIndices, missTexts)
        invariant forall j :: 0 <= j < i && keys[j] in cache ==> results[j] == Some(ResultFor(cache, encode, texts[j]))
      {
        if keys[i] in cache {
          results[i] := Some(EmbeddingResult(cache[keys[i]], texts[i], true));
        } else {
          missIndices := missIndices + [i];
          missTexts := missTexts + [keys[i]];
        }
      }
    }

    /** One batch: encode it, store every vector, and unwind it into its slot. */
    method EncodeChunk(ghost before: Cache, texts: seq<string>, keys: seq<string>,
        results: array<Option<EmbeddingResult>>,
                       missIndices: seq<nat>, missTexts: seq<string>, cursor: nat, chunk: seq<string>)
      requires |texts| == |keys| == results.Length
      requires forall i :: 0 <= i < |texts| ==> keys[i] == Clamp(texts[i])
      requires MissesOf(before, keys, |keys|, missIndices, missTexts)
      requires cursor + |chunk| <= |missTexts| && missTexts[cursor..cursor + |chunk|] == chunk
      requires CacheAfter(before, cache, encode, missTexts[..cursor])
      requires Filled(before, encode, texts, keys, results[..], missIndices, cursor)
      modifies results, `cache
      ensures CacheAfter(before, cache, encode, missTexts[..cursor + |chunk|])
      ensures Filled(before, encode, texts, keys, results[..], missIndices, cursor + |chunk|)
    {
      hide CacheAfter, Filled, MissesOf;
      MissLengths(before, keys, |keys|, missIndices, missTexts);
      var vectors := EncodeBatch(encode, chunk);
      for k := 0 to |chunk|
        invariant CacheAfter(before, cache, encode, missTexts[..cursor + k])
        invariant Filled(before, encode, texts, keys, results[..], missIndices, cursor + k)
      {
        var safeText, vec := chunk[k], vectors[k];
        assert missTexts[cursor..cursor + |chunk|][k] == safeText;
        MissIsMiss(before, keys, missIndices, missTexts, cursor + k);
        StoreNext(before, cache, encode, missTexts, cursor + k);
        FillNext(before, encode, texts, keys, results[..], missIndices, missTexts, cursor + k);
        cache := cache[safeText := vec];
        var idx := missIndices[cursor + k];
        ghost var slots := results[..];
        results[idx] := Some(EmbeddingResult(vec, texts[idx], false));
        assert results[..] == slots[idx := Some(EmbeddingResult(vec, texts[idx], false))];
      }
    }

    /** The second loop, over the batches. */
    method EncodeMisses(texts: seq<string>, keys: seq<string>, results: array<Option<EmbeddingResult>>,
                        missIndices: seq<nat>, missTexts: seq<string>, batches: seq<seq<string>>)
      requires |texts| == |keys| == results.Length
      requires forall i :: 0 <= i < |texts| ==> keys[i] == Clamp(texts[i])
      requires MissesOf(cache, keys, |keys|, missIndices, missTexts)
      requires Concat(batches) == missTexts
      requires Filled(cache, encode, texts, keys, results[..], missIndices, 0)
      modifies results, `cache
      ensures CacheAfter(old(cache), cache, encode, missTexts)
      ensures Filled(old(cache), encode, texts, keys, results[..], missIndices, |missIndices|)
    {
      hide CacheAfter, Filled, MissesOf;
      MissLengths(cache, keys, |keys|, missIndices, missTexts);
      UnchangedCache(cache, encode);
      var cursor: nat := 0;
      for b := 0 to |batches|
        invariant cursor <= |missTexts| && missTexts[cursor..] == Concat(batches[b..])
        invariant CacheAfter(old(cache), cache, encode, missTexts[..cursor])
        invariant Filled(old(cache), encode, texts, keys, results[..], missIndices, cursor)
      {
        var chunk := batches[b];
        NextChunk(missTexts, cursor, batches, b);
        EncodeChunk(old(cache), texts, keys, results, missIndices, missTexts, cursor, chunk);
        cursor := cursor + |chunk|;
      }
      assert batches[|batches|..] == [];
      assert missTexts[..cursor] == missTexts;
    }

    /** embed_batch refines the plain map over the texts: result i is the one of text i alone,
        whatever the batch limit and the sort flag, with duplicates and hits mixed in; and the
        cache gains exactly the clamped inputs it did not hold. */
    method EmbedBatch(texts: seq<string>, sortForPadding: bool) returns (out: seq<EmbeddingResult>)
      modifies `cache
      ensures |out| == |texts|
      ensures forall i :: 0 <= i < |texts| ==> out[i] == ResultFor(old(cache), encode, texts[i])
      ensures CacheAfter(old(cache), cache, encode, ClampAll(texts))
    {
      hide CacheAfter, Filled, MissesOf, ResultFor, Concat, Greedy, Fits;
      UnchangedCache(cache, encode);
      var keys := ClampAll(texts);
      if texts == [] {
        return [];
      }
      var results := new Option<EmbeddingResult>[|texts|](_ => None);
      var missIndices, missTexts := LookUp(texts, keys, results);
      if missTexts != [] {
        if sortForPadding {
          missIndices, missTexts := SortMisses(cache, keys, missIndices, missTexts);
        }
        var batches := MakeClientBatches(missTexts, maxCharsPerBatch);
        GreedyIsSplit(missTexts, maxCharsPerBatch);
        FilledNone(cache, encode, texts, keys, results[..], missIndices);
        EncodeMisses(texts, keys, results, missIndices, missTexts, batches);
      } else {
        MissLengths(cache, keys, |keys|, missIndices, missTexts);
      }
      AllFilled(old(cache), encode, texts, keys, results[..], missIndices, missTexts);
      MissesAreTheNewKeys(old(cache), cache, encode, keys, missIndices, missTexts);
      out := seq(|texts|, i requires 0 <= i < |texts| && results[i].Some? reads results => results[i].value);
    }
  }

  function ClampAll(texts: seq<string>): (keys: seq<string>)
    ensures |keys| == |texts| && forall i :: 0 <= i < |texts| ==> keys[i] == Clamp(texts[i])
  {
    seq(|texts|, i requires 0 <= i < |texts| => Clamp(texts[i]))
  }

  lemma UnchangedCache(cache: Cache, encode: string -> Vector)
    ensures CacheAfter(cache, cache, encode, [])
  {
  }

  lemma MissIsMiss(cache: Cache, keys: seq<string>, missIndices: seq<nat>, missTexts: seq<string>, k: nat)
    requires MissesOf(cache, keys, |keys|, missIndices, missTexts) && k < |missTexts|
    ensures k < |missIndices| && missIndices[k] < |keys| && missTexts[k] !in cache
  {
  }

  lemma MissLengths(cache: Cache, keys: seq<string>, n: nat, missIndices: seq<nat>, missTexts: seq<string>)
    requires n <= |keys| && MissesOf(cache, keys, n, missIndices, missTexts)
    ensures |missIndices| == |missTexts|
  {
  }

  /** No miss has been filled yet, in whatever order the misses stand. */
  lemma FilledNone(cache: Cache, encode: string -> Vector, texts: seq<string>, keys: seq<string>,
                   results: seq<Option<EmbeddingResult>>, missIndices: seq<nat>)
    requires |texts| == |keys| == |results| && Filled(cache, encode, texts, keys, results, [], 0)
    ensures Filled(cache, encode, texts, keys, results, missIndices, 0)
  {
  }

  lemma NextChunk(missTexts: seq<string>, cursor: nat, batches: seq<seq<string>>, b: nat)
    requires cursor <= |missTexts| && b < |batches| && missTexts[cursor..] == Concat(batches[b..])
    ensures cursor + |batches[b]| <= |missTexts|
    ensures missTexts[cursor..cursor + |batches[b]|] == batches[b]
    ensures missTexts[cursor + |batches[b]|..] == Concat(batches[b + 1..])
  {
    assert batches[b..][0] == batches[b] && batches[b..][1..] == batches[b + 1..];
    var rest := missTexts[cursor..];
    assert rest == batches[b] + Concat(batches[b + 1..]);
    assert rest[..|batches[b]|] == missTexts[cursor..cursor + |batches[b]|];
    assert rest[|batches[b]|..] == missTexts[cursor + |batches[b]|..];
  }

  /** The length sort: texts and slots are permuted alike. */
  method SortMisses(ghost cache: Cache, ghost keys: seq<string>, missIndices: seq<nat>, missTexts: seq<string>)
    returns (sortedIndices: seq<nat>, sortedTexts: seq<string>)
    requires MissesOf(cache, keys, |keys|, missIndices, missTexts)
    ensures MissesOf(cache, keys, |keys|, sortedIndices, sortedTexts)
    ensures |sortedTexts| == |missTexts| && forall j, k :: 0 <= j < k < |sortedTexts| ==>
        |sortedTexts[j]| <= |sortedTexts[k]|
  {
    var order := OrderByLength(missTexts, |missTexts|);
    OrderIsStablePermutation(missTexts, |missTexts|);
    sortedTexts := seq(|order|, k requires 0 <= k < |order| => missTexts[order[k]]);
    sortedIndices := seq(|order|, k requires 0 <= k < |order| => missIndices[order[k]]);
    ReorderKeepsMisses(cache, keys, |keys|, missIndices, missTexts, order, sortedIndices, sortedTexts);
  }

  lemma MissesAreTheNewKeys(cache: Cache, cache': Cache, encode: string -> Vector, keys: seq<string>,
                            missIndices: seq<nat>, missTexts: seq<string>)
    requires MissesOf(cache, keys, |keys|, missIndices, missTexts)
    requires CacheAfter(cache, cache', encode, missTexts)
    ensures CacheAfter(cache, cache', encode, keys)
  {
    forall key ensures key in cache' <==> key in cache || key in keys {
      if key in keys && key !in cache {
        var i: nat :| i < |keys| && keys[i] == key;
        var k :| 0 <= k < |missIndices| && missIndices[k] == i;
        assert missTexts[k] == key;
      }
      if key in missTexts {
        var k :| 0 <= k < |missTexts| && missTexts[k] == key;
        assert keys[missIndices[k]] == key;
      }
    }
  }

  /** OnnxTextEmbedder.embed: batching does not show in the result either. */
  method Embed(encode: string -> Vector, texts: seq<string>, maxCharsPerBatch: Option<int>, default: int)
      returns (out: seq<Vector>)
    ensures |out| == |texts|
    ensures forall i :: 0 <= i < |texts| ==> out[i] == encode(texts[i])
  {
    if texts == [] {
      return [];
    }
    var budget := if maxCharsPerBatch.None? || maxCharsPerBatch.value == 0 then default else maxCharsPerBatch.value;
    var batches := MakeDynamicBatches(texts, budget);
    GreedyIsSplit(texts, budget);
    out := [];
    for b := 0 to |batches|
      invariant |out| <= |texts| && texts[|out|..] == Concat(batches[b..])
      invariant forall i :: 0 <= i < |out| ==> out[i] == encode(texts[i])
    {
      assert batches[b..][0] == batches[b] && batches[b..][1..] == batches[b + 1..];
      ghost var done := |out|;
      assert texts[done..] == batches[b] + Concat(batches[b + 1..]);
      forall k | 0 <= k < |batches[b]|
          ensures texts[done + k] == batches[b][k] { assert texts[done..][k] == batches[b][k]; }
      out := out + EncodeBatch(encode, batches[b]);
      assert texts[|out|..] == texts[done..][|batches[b]|..];
    }
    assert batches[|batches|..] == [];
  }
}
