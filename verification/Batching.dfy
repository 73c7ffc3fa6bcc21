/** Greedy batching of texts by accumulated length (src/clients/onnx_text_embedder.py and
    src/clients/embedding_client.py), and its optimality. */
module Batching {

  function TotalLength(batch: seq<string>): nat {
    if batch == [] then 0 else TotalLength(batch[..|batch| - 1]) + |batch[|batch| - 1]|
  }

  function Concat(batches: seq<seq<string>>): seq<string> {
    if batches == [] then [] else batches[0] + Concat(batches[1..])
  }

  /** A batch is within the limit, or a single text. */
  predicate Fits(batch: seq<string>, maxChars: int) {
    batch != [] && (|batch| == 1 || TotalLength(batch) <= maxChars)
  }

  /** An order-preserving split of the texts into admissible batches. */
  predicate IsSplit(texts: seq<string>, batches: seq<seq<string>>, maxChars: int) {
    Concat(batches) == texts && forall b :: 0 <= b < |batches| ==> Fits(batches[b], maxChars)
  }

  /** What the batching loops compute from the batch being filled and the texts still to come. */
  function GreedyFrom(current: seq<string>, texts: seq<string>, maxChars: int): seq<seq<string>>
    decreases |texts|
  {
    if texts == [] then (if current == [] then [] else [current])
    else if current != [] && TotalLength(current) + |texts[0]| > maxChars then
      [current] + GreedyFrom([texts[0]], texts[1..], maxChars)
    else GreedyFrom(current + [texts[0]], texts[1..], maxChars)
  }

  function Greedy(texts: seq<string>, maxChars: int): seq<seq<string>> {
    GreedyFrom([], texts, maxChars)
  }

  // ---------- Greedy takes the longest admissible prefix ----------

  /** How many of the texts still fit behind the current batch. */
  function Room(current: seq<string>, texts: seq<string>, maxChars: int): (n: nat)
    ensures n <= |texts|
    decreases |texts|
  {
    if texts == [] || (current != [] && TotalLength(current) + |texts[0]| > maxChars) then 0
    else 1 + Room(current + [texts[0]], texts[1..], maxChars)
  }

  lemma TotalAppend(batch: seq<string>, t: string)
    ensures TotalLength(batch + [t]) == TotalLength(batch) + |t|
  {
    assert (batch + [t])[..|batch|] == batch;
  }

  lemma {:induction false} TotalConcat(a: seq<string>, b: seq<string>)
    ensures TotalLength(a + b) == TotalLength(a) + TotalLength(b)
  {
    if b == [] {
      assert a + b == a;
    } else {
      var m := |b| - 1;
      assert (a + b)[..|a| + m] == a + b[..m];
      TotalConcat(a, b[..m]);
    }
  }

  lemma {:induction false} GreedyUnfolds(current: seq<string>, texts: seq<string>, maxChars: int)
    requires current != [] || texts != []
    ensures var n := Room(current, texts, maxChars);
      GreedyFrom(current, texts, maxChars) == [current + texts[..n]] + Greedy(texts[n..], maxChars)
    decreases |texts|
  {
    if texts == [] {
      assert current + texts[..0] == current;
    } else if current != [] && TotalLength(current) + |texts[0]| > maxChars {
      assert current + texts[..0] == current && texts[0..] == texts;
      assert [] + [texts[0]] == [texts[0]];
    } else {
      var next, rest := current + [texts[0]], texts[1..];
      var n := Room(next, rest, maxChars);
      GreedyUnfolds(next, rest, maxChars);
      assert next + rest[..n] == current + texts[..n + 1];
      assert rest[n..] == texts[n + 1..];
    }
  }

  /** The batch that is cut off fits, and one text more would not have. */
  lemma {:induction false} RoomIsMaximal(current: seq<string>, texts: seq<string>, maxChars: int)
    requires current == [] || Fits(current, maxChars)
    requires current != [] || texts != []
    ensures var n := Room(current, texts, maxChars);
      && Fits(current + texts[..n], maxChars)
      && forall m :: n < m <= |texts| ==> TotalLength(current + texts[..m]) > maxChars
    decreases |texts|
  {
    hide TotalLength;
    if texts == [] {
      assert current + texts[..0] == current;
    } else if current != [] && TotalLength(current) + |texts[0]| > maxChars {
      assert current + texts[..0] == current;
      forall m | 0 < m <= |texts| ensures TotalLength(current + texts[..m]) > maxChars {
        assert current + texts[..m] == (current + [texts[0]]) + texts[1..m];
        TotalConcat(current + [texts[0]], texts[1..m]);
        TotalAppend(current, texts[0]);
      }
    } else {
      var next, rest := current + [texts[0]], texts[1..];
      TotalAppend(current, texts[0]);
      RoomIsMaximal(next, rest, maxChars);
      var n := Room(next, rest, maxChars);
      assert next + rest[..n] == current + texts[..n + 1];
      forall m | n + 1 < m <= |texts| ensures TotalLength(current + texts[..m]) > maxChars {
        assert next + rest[..m - 1] == current + texts[..m];
      }
    }
  }

  lemma RoomIsPositive(texts: seq<string>, maxChars: int)
    requires texts != []
    ensures Room([], texts, maxChars) >= 1
  {
  }

  /** The greedy batches are an admissible split. */
  lemma {:induction false} GreedyIsSplit(texts: seq<string>, maxChars: int)
    ensures IsSplit(texts, Greedy(texts, maxChars), maxChars)
    decreases |texts|
  {
    if texts != [] {
      var n := Room([], texts, maxChars);
      RoomIsPositive(texts, maxChars);
      GreedyUnfolds([], texts, maxChars);
      RoomIsMaximal([], texts, maxChars);
      assert [] + texts[..n] == texts[..n];
      GreedyIsSplit(texts[n..], maxChars);
      var rest := Greedy(texts[n..], maxChars);
      var all := [texts[..n]] + rest;
      assert all[1..] == rest && texts[..n] + texts[n..] == texts;
      forall b | 0 <= b < |all| ensures Fits(all[b], maxChars) {
        if b > 0 { assert all[b] == rest[b - 1]; }
      }
    }
  }

  /** Greedy stays ahead: even for a suffix of the texts, it never needs more batches than any
      admissible split of all of them. */
  lemma {:induction false} GreedyStaysAhead(texts: seq<string>, split: seq<seq<string>>, k: nat, maxChars: int)
    requires IsSplit(texts, split, maxChars) && k <= |texts|
    ensures |Greedy(texts[k..], maxChars)| <= |split|
    decreases |split|
  {
    if k < |texts| {
      var m, rest := |split[0]|, texts[|split[0]|..];
      assert texts == split[0] + Concat(split[1..]) && rest == Concat(split[1..]);
      if k >= m {
        assert texts[k..] == rest[k - m..];
        GreedyStaysAhead(rest, split[1..], k - m, maxChars);
      } else {
        var z := texts[k..];
        var n := Room([], z, maxChars);
        GreedyUnfolds([], z, maxChars);
        RestOfFirstBatchFits(texts, split[0], k, maxChars);
        assert z[n..] == rest[n - (m - k)..];
        GreedyStaysAhead(rest, split[1..], n - (m - k), maxChars);
      }
    }
  }

  lemma RestOfFirstBatchFits(texts: seq<string>, first: seq<string>, k: nat, maxChars: int)
    requires first <= texts && k < |first| && Fits(first, maxChars)
    ensures Room([], texts[k..], maxChars) >= |first| - k
  {
    var z, j := texts[k..], |first| - k;
    RoomIsPositive(z, maxChars);
    RoomIsMaximal([], z, maxChars);
    if |first| > 1 {
      assert first == first[..k] + first[k..] && [] + z[..j] == first[k..];
      TotalConcat(first[..k], first[k..]);
    }
  }

  /** No admissible order-preserving split has fewer batches than the greedy one. */
  lemma GreedyIsOptimal(texts: seq<string>, split: seq<seq<string>>, maxChars: int)
    requires IsSplit(texts, split, maxChars)
    ensures IsSplit(texts, Greedy(texts, maxChars), maxChars)
    ensures |Greedy(texts, maxChars)| <= |split|
  {
    GreedyIsSplit(texts, maxChars);
    GreedyStaysAhead(texts, split, 0, maxChars);
    assert texts[0..] == texts;
  }

  // ---------- The loops ----------

  /** make_dynamic_batches of the ONNX embedder */
  method MakeDynamicBatches(texts: seq<string>, maxChars: int) returns (batches: seq<seq<string>>)
    ensures batches == Greedy(texts, maxChars)
  {
    batches := [];
    var current: seq<string>, total := [], 0;
    for i := 0 to |texts|
      invariant total == TotalLength(current)
      invariant batches + GreedyFrom(current, texts[i..], maxChars) == Greedy(texts, maxChars)
    {
      var t := texts[i];
      assert texts[i..][0] == t && texts[i..][1..] == texts[i + 1..];
      if current != [] && total + |t| > maxChars {
        batches := batches + [current];
        current, total := [], 0;
      }
      TotalAppend(current, t);
      assert [] + [t] == [t];
      current := current + [t];
      total := total + |t|;
    }
    if current != [] {
      batches := batches + [current];
    }
  }

  /** _make_dynamic_batches of the embedding client: an early return for no texts, and otherwise
      the same answer. */
  method MakeClientBatches(texts: seq<string>, maxChars: int) returns (batches: seq<seq<string>>)
    ensures batches == Greedy(texts, maxChars)
  {
    if texts == [] {
      return [];
    }
    batches := [];
    var current: seq<string>, currentChars := [], 0;
    for i := 0 to |texts|
      invariant currentChars == TotalLength(current)
      invariant batches + GreedyFrom(current, texts[i..], maxChars) == Greedy(texts, maxChars)
    {
      var text := texts[i];
      assert texts[i..][0] == text && texts[i..][1..] == texts[i + 1..];
      if current != [] && currentChars + |text| > maxChars {
        batches := batches + [current];
        current := [];
        currentChars := 0;
      }
      TotalAppend(current, text);
      assert [] + [text] == [text];
      current := current + [text];
      currentChars := currentChars + |text|;
    }
    if current != [] {
      batches := batches + [current];
    }
  }
}
