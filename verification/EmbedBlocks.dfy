/** Packing texts into embedding requests under the provider's two caps. */
module EmbedBlocks {
  import opened Common
  import opened OrderedMaps
  import ChunkBlocks

  const MAX_TEXTS := 1000
  const MAX_TOKENS := 320_000

  function Cost<T>(items: seq<T>, text: T -> string): nat {
    if items == [] then 0 else ChunkBlocks.EstimateTokens(text(items[0])) + Cost(items[1..], text)
  }

  /** A request the planner may emit: within both caps, or a single text whatever its size. */
  predicate IsBatch<T>(b: seq<T>, text: T -> string) {
    0 < |b| <= MAX_TEXTS && (|b| == 1 || Cost(b, text) <= MAX_TOKENS)
  }

  /** The items cut, in order, into requests. */
  ghost predicate IsPartition<T>(batches: seq<seq<T>>, items: seq<T>, text: T -> string) {
    && Flatten(batches) == items
    && forall i :: 0 <= i < |batches| ==> IsBatch(batches[i], text)
  }

  /** No request could have taken the first item of the next one. */
  ghost predicate IsGreedy<T>(batches: seq<seq<T>>, text: T -> string) {
    forall i :: 0 <= i < |batches| - 1 && batches[i + 1] != [] ==> !IsBatch(batches[i] + [batches[i + 1][0]], text)
  }

  lemma {:induction false} CostAppend<T>(a: seq<T>, b: seq<T>, text: T -> string)
    ensures Cost(a + b, text) == Cost(a, text) + Cost(b, text)
  {
    if a == [] {
      assert a + b == b;
    } else {
      assert (a + b)[0] == a[0] && (a + b)[1..] == a[1..] + b;
      CostAppend(a[1..], b, text);
    }
  }

  /** The items seen so far are packed greedily into the closed requests and the current one. */
  ghost predicate Packed<T>(batches: seq<seq<T>>, current: seq<T>, seen: seq<T>, text: T -> string) {
    && Flatten(batches) + current == seen
    && (forall j :: 0 <= j < |batches| ==> IsBatch(batches[j], text))
    && (if current == [] then seen == [] && batches == []
        else IsBatch(current, text) && IsGreedy(batches + [current], text))
  }

  method PlanEmbedBatches<T>(items: seq<T>, text: T -> string) returns (batches: seq<seq<T>>)
    ensures IsPartition(batches, items, text) && IsGreedy(batches, text)
  {
    batches := [];
    var current: seq<T>, currentTokens := [], 0;
    for i := 0 to |items|
      invariant currentTokens == Cost(current, text) && Packed(batches, current, items[..i], text)
    {
      var item := items[i];
      var tokens := ChunkBlocks.EstimateTokens(text(item));
      CostAppend(current, [item], text);
      TakeOneMore(items, i);
      var wouldOverflow := |current| >= MAX_TEXTS || (|current| > 0 && currentTokens + tokens > MAX_TOKENS);
      if wouldOverflow {
        PackNext(batches, current, items[..i], item, text);
        batches := batches + [current];
        current := [];
        currentTokens := 0;
      } else {
        PackOn(batches, current, items[..i], item, text);
      }
      assert [] + [item] == [item];
      current := current + [item];
      currentTokens := currentTokens + tokens;
    }
    TakeAll(items);
    if |current| > 0 {
      CloseBatch(batches, current);
      batches := batches + [current];
    }
  }

  lemma PackOn<T>(batches: seq<seq<T>>, current: seq<T>, seen: seq<T>, item: T, text: T -> string)
    requires Packed(batches, current, seen, text) && IsBatch(current + [item], text)
    ensures Packed(batches, current + [item], seen + [item], text)
  {
    Associates(Flatten(batches), current, [item]);
    GrowGreedy(batches, current, item, text);
  }

  lemma PackNext<T>(batches: seq<seq<T>>, current: seq<T>, seen: seq<T>, item: T, text: T -> string)
    requires Packed(batches, current, seen, text) && current != [] && !IsBatch(current + [item], text)
    ensures Packed(batches + [current], [item], seen + [item], text)
  {
    CloseBatch(batches, current);
    StayGreedy(batches, current, [item], text);
  }

  lemma CloseBatch<T>(batches: seq<seq<T>>, current: seq<T>)
    ensures Flatten(batches + [current]) == Flatten(batches) + current
  {
    FlattenAppend(batches, [current]);
    assert Flatten([current]) == current;
  }

  lemma StayGreedy<T>(batches: seq<seq<T>>, current: seq<T>, next: seq<T>, text: T -> string)
    requires IsGreedy(batches + [current], text) && next != [] && !IsBatch(current + [next[0]], text)
    ensures IsGreedy(batches + [current] + [next], text)
  {
    var before, after := batches + [current], batches + [current] + [next];
    forall i | 0 <= i < |after| - 1 && after[i + 1] != [] ensures !IsBatch(after[i] + [after[i + 1][0]], text) {
      if i < |before| - 1 {
        assert after[i] == before[i] && after[i + 1] == before[i + 1];
      }
    }
  }

  lemma GrowGreedy<T>(batches: seq<seq<T>>, current: seq<T>, item: T, text: T -> string)
    requires current == [] ==> batches == []
    requires current != [] ==> IsGreedy(batches + [current], text)
    ensures IsGreedy(batches + [current + [item]], text)
  {
    var after := batches + [current + [item]];
    forall i | 0 <= i < |after| - 1 && after[i + 1] != [] ensures !IsBatch(after[i] + [after[i + 1][0]], text) {
      var before := batches + [current];
      assert after[i] == before[i] && after[i + 1][0] == before[i + 1][0];
    }
  }

  // ----- greedy is optimal -----

  /** A non-empty stretch of a request is a request. */
  lemma StretchIsBatch<T>(b: seq<T>, from: nat, to: nat, text: T -> string)
    requires IsBatch(b, text) && from < to <= |b|
    ensures IsBatch(b[from..to], text)
  {
    assert b == b[..from] + (b[from..to] + b[to..]);
    CostAppend(b[..from], b[from..to] + b[to..], text);
    CostAppend(b[from..to], b[to..], text);
  }

  lemma PartitionHead<T>(batches: seq<seq<T>>, items: seq<T>, text: T -> string)
    requires IsPartition(batches, items, text) && batches != []
    ensures batches[0] == items[..|batches[0]|] && IsPartition(batches[1..], items[|batches[0]|..], text)
    ensures |batches[0]| <= |items|
  {
    assert items == batches[0] + Flatten(batches[1..]);
  }

  /** A first request that stops inside a stretch of items which is a request could have taken one item more. */
  lemma CouldTakeMore<T>(batches: seq<seq<T>>, items: seq<T>, k: nat, m: nat, text: T -> string)
    requires k < m <= |items| && IsBatch(items[..m], text)
    requires IsPartition(batches, items[k..], text) && batches != [] && k + |batches[0]| < m
    ensures |batches| > 1 && batches[1] != [] && IsBatch(batches[0] + [batches[1][0]], text)
  {
    var n := |batches[0]|;
    PartitionHead(batches, items[k..], text);
    assert batches[1..] != [] by { assert Flatten(batches[1..]) != []; }
    PartitionHead(batches[1..], items[k..][n..], text);
    assert batches[1][0] == items[k + n];
    StretchIsBatch(items[..m], k, k + n + 1, text);
    assert items[..m][k..k + n + 1] == batches[0] + [batches[1][0]];
  }

  /** Whatever part of the items is already packed, the greedy rest needs no more requests than any partition of all. */
  lemma {:induction false} GreedyOnSuffix<T>(batches: seq<seq<T>>, other: seq<seq<T>>, items: seq<T>, k: nat,
                                               text: T -> string)
    requires k <= |items| && IsPartition(batches, items[k..], text) && IsGreedy(batches, text)
    requires IsPartition(other, items, text)
    ensures |batches| <= |other|
    decreases |other|
  {
    if |batches| > 0 {
      PartitionHead(batches, items[k..], text);
      assert other != [] by { assert Flatten(other) != []; }
      PartitionHead(other, items, text);
      var m, b := |other[0]|, |batches[0]|;
      if k >= m {
        assert items[m..][k - m..] == items[k..];
        GreedyOnSuffix(batches, other[1..], items[m..], k - m, text);
      } else {
        if k + b < m {
          CouldTakeMore(batches, items, k, m, text);
        }
        assert items[k..][b..] == items[m..][k + b - m..];
        TailGreedy(batches, text);
        GreedyOnSuffix(batches[1..], other[1..], items[m..], k + b - m, text);
      }
    }
  }

  lemma TailGreedy<T>(batches: seq<seq<T>>, text: T -> string)
    requires IsGreedy(batches, text) && batches != []
    ensures IsGreedy(batches[1..], text)
  {
    forall i | 0 <= i < |batches[1..]| - 1 && batches[1..][i + 1] != []
      ensures !IsBatch(batches[1..][i] + [batches[1..][i + 1][0]], text)
    {
      assert batches[1..][i] == batches[i + 1] && batches[1..][i + 1] == batches[(i + 1) + 1];
    }
  }

  /** No other contiguous partition within the caps uses fewer requests. */
  lemma GreedyIsOptimal<T>(batches: seq<seq<T>>, other: seq<seq<T>>, items: seq<T>, text: T -> string)
    requires IsPartition(batches, items, text) && IsGreedy(batches, text)
    requires IsPartition(other, items, text)
    ensures |batches| <= |other|
  {
    assert items[0..] == items;
    GreedyOnSuffix(batches, other, items, 0, text);
  }

  /** The greedy partition is the only one of its kind. */
  lemma {:induction false} GreedyIsUnique<T>(a: seq<seq<T>>, b: seq<seq<T>>, items: seq<T>, text: T -> string)
    requires IsPartition(a, items, text) && IsGreedy(a, text)
    requires IsPartition(b, items, text) && IsGreedy(b, text)
    ensures a == b
    decreases |a|
  {
    if a == [] || b == [] {
      assert a == [] ==> Flatten(a) == [];
      assert b == [] ==> Flatten(b) == [];
      if a != [] { PartitionHead(a, items, text); }
      if b != [] { PartitionHead(b, items, text); }
    } else {
      FirstAsLong(a, b, items, text);
      FirstAsLong(b, a, items, text);
      PartitionHead(a, items, text);
      PartitionHead(b, items, text);
      TailGreedy(a, text);
      TailGreedy(b, text);
      GreedyIsUnique(a[1..], b[1..], items[|a[0]|..], text);
      assert a == [a[0]] + a[1..] && b == [b[0]] + b[1..];
    }
  }

  lemma FirstAsLong<T>(a: seq<seq<T>>, b: seq<seq<T>>, items: seq<T>, text: T -> string)
    requires IsPartition(a, items, text) && IsGreedy(a, text) && a != []
    requires IsPartition(b, items, text) && b != []
    ensures |a[0]| >= |b[0]|
  {
    PartitionHead(a, items, text);
    PartitionHead(b, items, text);
    if |a[0]| < |b[0]| {
      assert items[0..] == items;
      CouldTakeMore(a, items, 0, |b[0]|, text);
    }
  }

  // ----- the caps -----

  /** The tokens of the items' texts: one for every four characters begun. */
  function Tokens<T>(items: seq<T>, text: T -> string): nat {
    if items == [] then 0 else (|text(items[0])| + 3) / 4 + Tokens(items[1..], text)
  }

  /** A request: at most 1000 texts and, unless it is one text, 320000 tokens. */
  predicate Sendable<T>(b: seq<T>, text: T -> string) {
    0 < |b| <= 1000 && (|b| > 1 ==> Tokens(b, text) <= 320_000)
  }

  lemma {:induction false} CostIsTokens<T>(items: seq<T>, text: T -> string)
    ensures Cost(items, text) == Tokens(items, text)
  {
    if items != [] { CostIsTokens(items[1..], text); }
  }

  lemma SendableIff<T>(b: seq<T>, text: T -> string)
    ensures IsBatch(b, text) <==> Sendable(b, text)
  {
    CostIsTokens(b, text);
  }

  /** One request carries everything exactly when everything fits in one. */
  lemma OneRequestIff<T>(batches: seq<seq<T>>, items: seq<T>, text: T -> string)
    requires IsPartition(batches, items, text) && IsGreedy(batches, text)
    ensures |batches| == 1 <==> Sendable(items, text)
  {
    SendableIff(items, text);
    if |batches| == 1 {
      assert batches[1..] == [] && batches[0] + [] == batches[0];
      assert items == batches[0];
    }
    if Sendable(items, text) {
      assert Flatten([items]) == items + Flatten([]) == items;
      assert IsPartition([items], items, text);
      GreedyIsOptimal(batches, [items], items, text);
      assert batches == [] ==> Flatten(batches) == [];
    }
  }

  /** groupByProject: one group per project, in order of first appearance, each keeping its items' order. */
  method GroupByProject<T>(items: seq<T>, projectId: T -> string) returns (groups: seq<seq<T>>)
    ensures |groups| == |FirstSeen(Map(items, projectId))|
    ensures forall i :: 0 <= i < |groups| ==>
              groups[i] != [] && groups[i] == Members(items, projectId, FirstSeen(Map(items, projectId))[i])
  {
    var grouped := GroupBy(items, projectId);
    groups := grouped.Values();
    forall i | 0 <= i < |groups| ensures groups[i] != [] {
      var p := grouped.keys[i];
      assert p in Map(items, projectId);
      var j :| 0 <= j < |items| && Map(items, projectId)[j] == p;
      assert items[j] in Members(items, projectId, p);
    }
  }
}
