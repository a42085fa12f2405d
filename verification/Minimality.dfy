/** The greedy schedule is determined by its shape, and no feasible schedule is shorter. */
module Minimality {
  import opened Rows
  import opened TokenBatching

  // ---------------------------------------------------------------- batches as runs of the order

  /** Where batch `k` starts in the flattening. */
  function Start(batches: seq<seq<nat>>, k: nat): nat
    requires k <= |batches|
  {
    |Flatten(batches[..k])|
  }

  lemma BatchIsRun(batches: seq<seq<nat>>, k: nat)
    requires k < |batches|
    ensures Start(batches, k + 1) == Start(batches, k) + |batches[k]| <= |Flatten(batches)|
    ensures batches[k] == Flatten(batches)[Start(batches, k)..Start(batches, k + 1)]
  {
    FlattenAround(batches, k, []);
    FlattenAround(batches[..k+1], k, []);
    assert batches[..k+1][..k] == batches[..k];
  }

  lemma RunLongestFirst(lengths: seq<int>, order: seq<nat>, from: nat, to: nat)
    requires Descending(lengths, order) && from < to <= |order|
    ensures InRange(order[from..to], |lengths|)
    ensures Longest(lengths, order[from..to]) == lengths[order[from]]
  {
    forall j | from < j < to ensures lengths[order[j]] <= lengths[order[from]] {
      assert Before(lengths, order[from], order[j]);
    }
    FirstIsLongest(lengths, order[from..to]);
  }

  /** In a greedy schedule batch `k` is a run of the descending order, as wide as its first row. */
  lemma GreedyRun(lengths: seq<int>, budget: int, multiple: int, batches: seq<seq<nat>>, k: nat)
    requires multiple > 0 && Greedy(lengths, budget, multiple, batches) && k < |batches|
    ensures Start(batches, k) + |batches[k]| == Start(batches, k + 1) <= |lengths|
    ensures batches[k] == SortedOrder(lengths)[Start(batches, k)..Start(batches, k + 1)]
    ensures |batches[k]| > 0 && InRange(batches[k], |lengths|)
    ensures Longest(lengths, batches[k]) == lengths[batches[k][0]]
  {
    hide PaddedLength, SortedOrder, Flatten, BatchWidth, Full, Cost;
    BatchIsRun(batches, k);
    assert Fits(lengths, budget, multiple, batches[k]);
    RunLongestFirst(lengths, SortedOrder(lengths), Start(batches, k), Start(batches, k + 1));
  }

  lemma Quotient(total: int, width: int, rows: nat)
    requires width > 0 && rows > 0 && rows * width <= total < (rows + 1) * width
    ensures rows == total / width && 2 * rows * width > total
  {
    var q := total / width;
    assert total == q * width + total % width;
    MultipleBelow(q, rows + 1, width);
    MultipleBelow(rows, q + 1, width);
    assert rows * width >= width by { MultipleAtMost(1, rows, width); }
  }

  /** Every batch but the last holds exactly budget / width rows, so more than half the budget. */
  lemma GreedyBatchIsBudgetOverWidth(lengths: seq<int>, budget: int, multiple: int, batches: seq<seq<nat>>, k: nat)
    requires multiple > 0 && RowsAccepted(lengths, budget, multiple)
    requires Greedy(lengths, budget, multiple, batches) && k + 1 < |batches|
    ensures |batches[k]| > 0 && InRange(batches[k], |lengths|)
    ensures var width := BatchWidth(lengths, multiple, batches[k]);
            0 < width && |batches[k]| == budget / width && 2 * |batches[k]| * width > budget
  {
    hide PaddedLength;
    GreedyRun(lengths, budget, multiple, batches, k);
    var width, rows := BatchWidth(lengths, multiple, batches[k]), |batches[k]|;
    assert Fits(lengths, budget, multiple, batches[k]) && Full(lengths, budget, multiple, batches[k]);
    Quotient(budget, width, rows);
  }

  lemma {:induction false} StartsIncrease(batches: seq<seq<nat>>, j: nat, k: nat)
    requires j <= k <= |batches|
    ensures Start(batches, j) <= Start(batches, k) <= |Flatten(batches)|
    decreases k
  {
    if j < k {
      StartsIncrease(batches, j, k - 1);
      BatchIsRun(batches, k - 1);
    } else if k < |batches| {
      BatchIsRun(batches, k);
    } else {
      assert batches[..k] == batches;
    }
  }

  /** Widths never increase from one batch to the next. */
  lemma GreedyWidthsDescend(lengths: seq<int>, budget: int, multiple: int, batches: seq<seq<nat>>, j: nat, k: nat)
    requires multiple > 0 && Greedy(lengths, budget, multiple, batches) && j < k < |batches|
    ensures Fits(lengths, budget, multiple, batches[j]) && Fits(lengths, budget, multiple, batches[k])
    ensures BatchWidth(lengths, multiple, batches[k]) <= BatchWidth(lengths, multiple, batches[j])
  {
    hide PaddedLength;
    GreedyRun(lengths, budget, multiple, batches, j);
    GreedyRun(lengths, budget, multiple, batches, k);
    StartsIncrease(batches, j, k);
    var order := SortedOrder(lengths);
    assert batches[j][0] == order[Start(batches, j)] && batches[k][0] == order[Start(batches, k)];
    if Start(batches, j) < Start(batches, k) {
      assert Before(lengths, order[Start(batches, j)], order[Start(batches, k)]);
    }
    PaddedMonotone(lengths[batches[k][0]], lengths[batches[j][0]], multiple);
  }

  // ---------------------------------------------------------------- the shape determines the schedule

  lemma NoLarger(full: nat, other: nat, width: int, budget: int)
    requires Cost(full, width) <= budget < Cost(full + 1, width) && Cost(other, width) <= budget
    ensures other <= full
  {
    MultipleBelow(other, full + 1, width);
  }

  lemma FullIsLarger(lengths: seq<int>, budget: int, multiple: int, full: seq<nat>, other: seq<nat>)
    requires multiple > 0 && Fits(lengths, budget, multiple, full) && Full(lengths, budget, multiple, full)
    requires Fits(lengths, budget, multiple, other) && Longest(lengths, other) == Longest(lengths, full)
    ensures |other| <= |full|
  {
    hide PaddedLength, Cost;
    NoLarger(|full|, |other|, BatchWidth(lengths, multiple, full), budget);
  }

  lemma GreedySameBatch(lengths: seq<int>, budget: int, multiple: int, a: seq<seq<nat>>, b: seq<seq<nat>>, k: nat)
    requires multiple > 0 && Greedy(lengths, budget, multiple, a) && Greedy(lengths, budget, multiple, b)
    requires k < |a| && k < |b| && a[..k] == b[..k]
    ensures |a[k]| >= |b[k]|
  {
    hide PaddedLength, SortedOrder, Cost, Flatten, Longest, BatchWidth, Fits, Full;
    GreedyRun(lengths, budget, multiple, a, k);
    GreedyRun(lengths, budget, multiple, b, k);
    if k < |a| - 1 {
      assert a[k][0] == b[k][0];
      FullIsLarger(lengths, budget, multiple, a[k], b[k]);
    } else {
      assert a[..k+1] == a;
    }
  }

  /** The greedy shape leaves no freedom, so `MakeBatches` has exactly one possible result. */
  lemma GreedyIsUnique(lengths: seq<int>, budget: int, multiple: int, a: seq<seq<nat>>, b: seq<seq<nat>>)
    requires multiple > 0 && Greedy(lengths, budget, multiple, a) && Greedy(lengths, budget, multiple, b)
    ensures a == b
  {
    hide PaddedLength, SortedOrder, BatchWidth, Longest, Cost;
    var k := 0;
    while k < |a| && k < |b|
      invariant k <= |a| && k <= |b| && a[..k] == b[..k]
    {
      GreedySameBatch(lengths, budget, multiple, a, b, k);
      GreedySameBatch(lengths, budget, multiple, b, a, k);
      GreedyRun(lengths, budget, multiple, a, k);
      GreedyRun(lengths, budget, multiple, b, k);
      assert a[..k+1] == a[..k] + [a[k]] && b[..k+1] == b[..k] + [b[k]];
      k := k + 1;
    }
    assert a[..|a|] == a && b[..|b|] == b;
    if k < |a| {
      GreedyRun(lengths, budget, multiple, a, k);
    }
    if k < |b| {
      GreedyRun(lengths, budget, multiple, b, k);
    }
  }

  // ---------------------------------------------------------------- the counting argument, on positions

  function Min(batch: seq<nat>): (m: nat)
    requires |batch| > 0
    ensures m in batch && forall x :: x in batch ==> m <= x
  {
    if |batch| == 1 then batch[0]
    else
      assert batch == [batch[0]] + batch[1..];
      var rest := Min(batch[1..]);
      if batch[0] <= rest then batch[0] else rest
  }

  /** Batches of positions in the descending order whose widths `w` are nonincreasing:
      each fits when charged the width at its smallest position. */
  ghost predicate FitsAtMin(w: seq<int>, budget: int, batch: seq<nat>) {
    |batch| > 0 && InRange(batch, |w|) && Cost(|batch|, w[Min(batch)]) <= budget
  }

  /** Nothing below a member's smallest position is missing from the family. */
  ghost predicate Closed(family: seq<seq<nat>>) {
    forall b, p: nat :: 0 <= b < |family| && |family[b]| > 0 && p < Min(family[b]) ==> p in Flatten(family)
  }

  lemma LargestMin(family: seq<seq<nat>>) returns (i: nat)
    requires |family| > 0 && forall b :: 0 <= b < |family| ==> |family[b]| > 0
    ensures i < |family| && forall b :: 0 <= b < |family| ==> Min(family[b]) <= Min(family[i])
  {
    i := 0;
    var k := 1;
    while k < |family|
      invariant 1 <= k <= |family| && i < k
      invariant forall b :: 0 <= b < k ==> Min(family[b]) <= Min(family[i])
    {
      if Min(family[k]) > Min(family[i]) { i := k; }
      k := k + 1;
    }
  }

  /** Dropping the batch with the largest smallest position keeps the family closed, and
      that position is covered from below by the rest alone. */
  lemma DropLargest(family: seq<seq<nat>>, i: nat)
    requires i < |family| && Closed(family)
    requires forall b :: 0 <= b < |family| ==> |family[b]| > 0
    requires forall b :: 0 <= b < |family| ==> Min(family[b]) <= Min(family[i])
    ensures Closed(family[..i] + family[i+1..])
    ensures Min(family[i]) <= |Flatten(family[..i] + family[i+1..])|
    ensures |Flatten(family)| == |Flatten(family[..i] + family[i+1..])| + |family[i]|
  {
    var rest := family[..i] + family[i+1..];
    FlattenAround(family, i, []);
    assert family[..i] + [] + family[i+1..] == rest;
    forall p: nat | p < Min(family[i]) ensures p in Flatten(rest) {
      assert p in Flatten(family) && p !in family[i];
    }
    CoverNeedsLength(Flatten(rest), Min(family[i]));
    forall b, p: nat | 0 <= b < |rest| && p < Min(rest[b]) ensures p in Flatten(rest) {
      assert rest[b] == family[if b < i then b else b + 1];
    }
  }

  ghost predicate Saturated(w: seq<int>, budget: int, starts: seq<nat>, k: nat)
    requires k + 1 < |starts|
  {
    starts[k] < starts[k+1] && starts[k] < |w| && Cost(starts[k+1] - starts[k] + 1, w[starts[k]]) > budget
  }

  /** A batch starting no later than a saturated run is no larger than it. */
  lemma SizeAtMost(w: seq<int>, budget: int, from: nat, run: nat, q: nat, size: nat)
    requires forall i, j :: 0 <= i <= j < |w| ==> w[i] >= w[j] > 0
    requires q <= from < |w| && Cost(run + 1, w[from]) > budget && Cost(size, w[q]) <= budget
    ensures size <= run
  {
    MultipleAtMost(w[from], w[q], size);
    MultipleBelow(size, run + 1, w[from]);
  }

  ghost predicate Descends(w: seq<int>) {
    forall i, j :: 0 <= i <= j < |w| ==> w[i] >= w[j] > 0
  }

  lemma LastBatchFits(w: seq<int>, budget: int, starts: seq<nat>, k: nat, batch: seq<nat>)
    requires Descends(w) && k + 1 < |starts|
    requires Saturated(w, budget, starts, k) && FitsAtMin(w, budget, batch) && Min(batch) <= starts[k]
    ensures |batch| <= starts[k+1] - starts[k]
  {
    hide Min, Cost;
    SizeAtMost(w, budget, starts[k], starts[k+1] - starts[k], Min(batch), |batch|);
  }

  /** A closed family of k batches holds at most as many positions as the first k greedy runs. */
  lemma {:induction false} FamilyHoldsNoMore(w: seq<int>, budget: int, starts: seq<nat>, family: seq<seq<nat>>)
    requires Descends(w) && |family| < |starts| && starts[0] == 0
    requires forall k :: 0 <= k < |family| ==> Saturated(w, budget, starts, k)
    requires forall b :: 0 <= b < |family| ==> FitsAtMin(w, budget, family[b])
    requires Closed(family)
    ensures |Flatten(family)| <= starts[|family|]
    decreases |family|
  {
    if |family| > 0 {
      hide Min, Flatten, Cost, Descends;
      var i := LargestMin(family);
      DropLargest(family, i);
      var rest := family[..i] + family[i+1..];
      assert forall b :: 0 <= b < |rest| ==> rest[b] == family[if b < i then b else b + 1];
      FamilyHoldsNoMore(w, budget, starts, rest);
      LastBatchFits(w, budget, starts, |rest|, family[i]);
    }
  }

  // ---------------------------------------------------------------- minimality

  function IndexOf(s: seq<nat>, x: nat): (k: nat)
    requires x in s
    ensures k < |s| && s[k] == x
  {
    if s[0] == x then 0 else
      assert s == [s[0]] + s[1..];
      1 + IndexOf(s[1..], x)
  }

  /** A batch of rows, as positions in the descending order. */
  function Positions(order: seq<nat>, batch: seq<nat>): (r: seq<nat>)
    requires forall x :: x in batch ==> x in order
    ensures |r| == |batch| && InRange(r, |order|)
    ensures forall k :: 0 <= k < |r| ==> order[r[k]] == batch[k]
  {
    seq(|batch|, k requires 0 <= k < |batch| => assert batch[k] in batch; IndexOf(order, batch[k]))
  }

  /** Padded width of the row at each position of the descending order. */
  function WidthsInOrder(lengths: seq<int>, multiple: int): (w: seq<int>)
    requires multiple > 0
    ensures |w| == |lengths|
    ensures forall p :: 0 <= p < |w| ==> w[p] == PaddedLength(lengths[SortedOrder(lengths)[p]], multiple)
  {
    var order := SortedOrder(lengths);
    seq(|lengths|, p requires 0 <= p < |lengths| => PaddedLength(lengths[order[p]], multiple))
  }

  lemma WidthsInOrderDescend(lengths: seq<int>, multiple: int)
    requires multiple > 0 && forall i :: 0 <= i < |lengths| ==> lengths[i] > 0
    ensures forall i, j :: 0 <= i <= j < |lengths| ==>
      WidthsInOrder(lengths, multiple)[i] >= WidthsInOrder(lengths, multiple)[j] > 0
  {
    hide PaddedLength, WidthsInOrder;
    var order := SortedOrder(lengths);
    forall i, j | 0 <= i <= j < |lengths|
      ensures WidthsInOrder(lengths, multiple)[i] >= WidthsInOrder(lengths, multiple)[j] > 0
    {
      if i < j { assert Before(lengths, order[i], order[j]); }
      PaddedMonotone(lengths[order[j]], lengths[order[i]], multiple);
    }
  }

  lemma CostMonotone(rows: nat, narrow: int, wide: int)
    requires narrow <= wide
    ensures Cost(rows, narrow) <= Cost(rows, wide)
  {
    MultipleAtMost(narrow, wide, rows);
  }

  /** A batch that fits its real width also fits the width at its smallest position. */
  lemma FitsAsPositions(lengths: seq<int>, budget: int, multiple: int, batch: seq<nat>)
    requires multiple > 0 && Fits(lengths, budget, multiple, batch)
    requires forall x :: x in batch ==> x in SortedOrder(lengths)
    ensures FitsAtMin(WidthsInOrder(lengths, multiple), budget, Positions(SortedOrder(lengths), batch))
  {
    hide PaddedLength, WidthsInOrder, SortedOrder, Positions, Longest, Cost;
    var order := SortedOrder(lengths);
    var positions := Positions(order, batch);
    var p := Min(positions);
    var k :| 0 <= k < |positions| && positions[k] == p;
    assert order[p] == batch[k];
    PaddedMonotone(lengths[batch[k]], Longest(lengths, batch), multiple);
    var w := WidthsInOrder(lengths, multiple)[p];
    assert w <= BatchWidth(lengths, multiple, batch);
    CostMonotone(|batch|, w, BatchWidth(lengths, multiple, batch));
  }

  ghost predicate CoversAllRows(cover: seq<seq<nat>>, n: nat) {
    forall i: nat :: i < n ==> i in Flatten(cover)
  }

  lemma GreedySaturates(lengths: seq<int>, budget: int, multiple: int, batches: seq<seq<nat>>, starts: seq<nat>, k: nat)
    requires multiple > 0 && Greedy(lengths, budget, multiple, batches)
    requires |starts| == |batches| + 1 && forall i :: 0 <= i < |starts| ==> starts[i] == Start(batches, i)
    requires k + 1 < |batches|
    ensures Saturated(WidthsInOrder(lengths, multiple), budget, starts, k)
  {
    hide PaddedLength, WidthsInOrder, SortedOrder, Cost;
    GreedyRun(lengths, budget, multiple, batches, k);
    assert Full(lengths, budget, multiple, batches[k]);
    assert batches[k][0] == SortedOrder(lengths)[starts[k]];
  }

  lemma FamilyCovers(lengths: seq<int>, order: seq<nat>, cover: seq<seq<nat>>, family: seq<seq<nat>>)
    requires order == SortedOrder(lengths) && |family| == |cover|
    requires forall b, x :: 0 <= b < |cover| && x in cover[b] ==> x in order
    requires forall b :: 0 <= b < |cover| ==> family[b] == Positions(order, cover[b])
    requires forall b :: 0 <= b < |cover| ==> |cover[b]| > 0
    requires CoversAllRows(cover, |lengths|)
    ensures forall p: nat :: p < |lengths| ==> p in Flatten(family)
    ensures Closed(family)
  {
    forall p: nat | p < |lengths| ensures p in Flatten(family) {
      FlattenHas(cover, order[p]);
      var b :| 0 <= b < |cover| && order[p] in cover[b];
      var k :| 0 <= k < |cover[b]| && cover[b][k] == order[p];
      assert order[family[b][k]] == order[p];
      assert family[b][k] == p;
      FlattenHas(family, p);
    }
    forall b, p: nat | 0 <= b < |family| && |family[b]| > 0 && p < Min(family[b]) ensures p in Flatten(family) {
      assert Min(family[b]) in family[b];
    }
  }

  /** MINIMALITY. However the rows are covered by batches that each fit the budget - even if
      rows may repeat - at least as many batches are needed as the greedy schedule has. */
  lemma GreedyIsMinimal(lengths: seq<int>, budget: int, multiple: int,
                        batches: seq<seq<nat>>, cover: seq<seq<nat>>)
    requires multiple > 0 && forall i :: 0 <= i < |lengths| ==> lengths[i] > 0
    requires Greedy(lengths, budget, multiple, batches)
    requires AllFit(lengths, budget, multiple, cover) && CoversAllRows(cover, |lengths|)
    ensures |batches| <= |cover|
  {
    if |cover| < |batches| {
      hide PaddedLength, WidthsInOrder, SortedOrder, Positions, Cost;
      var order, w := SortedOrder(lengths), WidthsInOrder(lengths, multiple);
      PermutationCovers(order, |lengths|);
      var starts := seq(|batches| + 1, k requires 0 <= k <= |batches| => Start(batches, k));
      forall b, x | 0 <= b < |cover| && x in cover[b] ensures x in order {
        assert Fits(lengths, budget, multiple, cover[b]);
      }
      var family := seq(|cover|, b requires 0 <= b < |cover| => Positions(order, cover[b]));
      forall b | 0 <= b < |family| ensures FitsAtMin(w, budget, family[b]) {
        assert Fits(lengths, budget, multiple, cover[b]);
        FitsAsPositions(lengths, budget, multiple, cover[b]);
      }
      FamilyCovers(lengths, order, cover, family);
      WidthsInOrderDescend(lengths, multiple);
      forall k | 0 <= k < |family| ensures Saturated(w, budget, starts, k) {
        GreedySaturates(lengths, budget, multiple, batches, starts, k);
      }
      FamilyHoldsNoMore(w, budget, starts, family);
      CoverNeedsLength(Flatten(family), |lengths|);
      GreedyRun(lengths, budget, multiple, batches, |cover|);
      assert false;
    }
  }
}
