/** Greedy packing of variable-length rows into microbatches under a padded token budget. */
module TokenBatching {
  import opened Rows

  datatype ScheduleError =
    | BadConfiguration                        // budget or padding multiple not positive
    | EmptySequence                           // some row has no token
    | Oversized(index: nat)                   // a row that cannot fit even alone
    | BadSplitCount
    | DuplicateRow(row: nat)
    | OmittedRow
    | EmptyBatch
    | RowOutOfRange
    | OverBudget

  datatype Result<+T> = Ok(value: T) | Err(error: ScheduleError)

  /** The least multiple of `multiple` that is not below `length`. */
  function PaddedLength(length: int, multiple: int): (width: int)
    requires multiple > 0
    ensures length <= width < length + multiple
  {
    ((length + multiple - 1) / multiple) * multiple
  }

  lemma MultipleAtMost(p: int, q: int, multiple: int)
    requires multiple >= 0 && p <= q
    ensures p * multiple <= q * multiple
  {
    assert (q - p) * multiple >= 0;
  }

  lemma MultipleBelow(p: int, q: int, multiple: int)
    requires multiple > 0 && p * multiple < q * multiple
    ensures p < q
  {
    if p >= q { MultipleAtMost(q, p, multiple); }
  }

  /** Padding reaches a multiple, and no smaller multiple would do. */
  lemma PaddedIsLeastMultiple(length: int, multiple: int)
    requires multiple > 0
    ensures PaddedLength(length, multiple) % multiple == 0
    ensures forall q: int :: q * multiple >= length ==> PaddedLength(length, multiple) <= q * multiple
  {
    var q := (length + multiple - 1) / multiple;
    var d, rest := (q * multiple) / multiple, (q * multiple) % multiple;
    assert q * multiple == d * multiple + rest;
    assert (q - d) * multiple == rest;
    MultipleBelow(q - d, 1, multiple);
    MultipleBelow(d - q, 1, multiple);
    forall p: int | p * multiple >= length ensures q * multiple <= p * multiple {
      assert (q - p) * multiple < multiple;
      MultipleBelow(q - p, 1, multiple);
      MultipleAtMost(q, p, multiple);
    }
  }

  lemma PaddedMonotone(a: int, b: int, multiple: int)
    requires multiple > 0 && a <= b
    ensures PaddedLength(a, multiple) <= PaddedLength(b, multiple)
  {
    var p, q := (a + multiple - 1) / multiple, (b + multiple - 1) / multiple;
    MultipleBelow(p, q + 1, multiple);
    MultipleAtMost(p, q, multiple);
  }

  // ---------------------------------------------------------------- descending order

  /** The sort key (-length, index): longer rows first, ties by index. */
  predicate Before(lengths: seq<int>, i: nat, j: nat)
    requires i < |lengths| && j < |lengths|
  {
    lengths[i] > lengths[j] || (lengths[i] == lengths[j] && i < j)
  }

  ghost predicate Descending(lengths: seq<int>, s: seq<nat>) {
    InRange(s, |lengths|) && forall i, j :: 0 <= i < j < |s| ==> Before(lengths, s[i], s[j])
  }

  function Insert(lengths: seq<int>, s: seq<nat>, x: nat): (r: seq<nat>)
    requires Descending(lengths, s) && x < |lengths| && x !in s
    ensures Descending(lengths, r)
    ensures |r| == |s| + 1 && forall y :: y in r <==> y in s || y == x
  {
    if |s| == 0 then [x]
    else if Before(lengths, x, s[0]) then [x] + s
    else
      var tail := Insert(lengths, s[1..], x);
      assert s == [s[0]] + s[1..];
      assert forall y :: y in tail ==> y < |lengths| && Before(lengths, s[0], y) by {
        assert forall y :: y in s[1..] ==> Before(lengths, s[0], y);
      }
      [s[0]] + tail
  }

  function OrderOfFirst(lengths: seq<int>, n: nat): (r: seq<nat>)
    requires n <= |lengths|
    ensures Descending(lengths, r) && |r| == n && forall y: nat :: y in r <==> y < n
  {
    if n == 0 then [] else Insert(lengths, OrderOfFirst(lengths, n - 1), n - 1)
  }

  /** What `sorted(range(len(lengths)), key=(-length, index))` returns. */
  function SortedOrder(lengths: seq<int>): (r: seq<nat>)
    ensures Descending(lengths, r) && Permutation(r, |lengths|)
  {
    OrderOfFirst(lengths, |lengths|)
  }

  /** The order is the only one: nothing is left to how the sort works. */
  lemma {:induction false} DescendingIsUnique(lengths: seq<int>, s: seq<nat>, t: seq<nat>)
    requires Descending(lengths, s) && Descending(lengths, t) && |s| == |t|
    requires forall x :: x in s <==> x in t
    ensures s == t
  {
    if |s| > 0 {
      var s', t' := s[1..], t[1..];
      assert s[0] in t && t[0] in s;
      assert s == [s[0]] + s' && t == [t[0]] + t';
      forall x ensures x in s' <==> x in t' {
        assert x in s' ==> x in s;
        assert x in t' ==> x in t;
      }
      DescendingIsUnique(lengths, s', t');
    }
  }

  /** Every row once, longer rows first, rows of equal length by index. */
  lemma OrderIsLongestFirst(lengths: seq<int>)
    ensures Permutation(SortedOrder(lengths), |lengths|)
    ensures var order := SortedOrder(lengths);
            forall i, j :: 0 <= i < j < |order| ==>
              lengths[order[i]] > lengths[order[j]] ||
              (lengths[order[i]] == lengths[order[j]] && order[i] < order[j])
  {
    hide SortedOrder;
  }

  // ---------------------------------------------------------------- cost of a batch

  function Longest(lengths: seq<int>, batch: seq<nat>): (m: int)
    requires |batch| > 0 && InRange(batch, |lengths|)
    ensures forall k :: 0 <= k < |batch| ==> lengths[batch[k]] <= m
    ensures exists k :: 0 <= k < |batch| && lengths[batch[k]] == m
  {
    if |batch| == 1 then
      assert lengths[batch[0]] == lengths[batch[0]];
      lengths[batch[0]]
    else
      var rest := Longest(lengths, batch[1..]);
      if lengths[batch[0]] >= rest then lengths[batch[0]] else rest
  }

  /** Every row of a microbatch is padded to the padded length of its longest row. */
  function BatchWidth(lengths: seq<int>, multiple: int, batch: seq<nat>): int
    requires multiple > 0 && |batch| > 0 && InRange(batch, |lengths|)
  {
    PaddedLength(Longest(lengths, batch), multiple)
  }

  /** Tokens a microbatch occupies: every row at the batch's width. */
  function Cost(rows: nat, width: int): int {
    rows * width
  }

  /** A nonempty microbatch whose rows times width stay within the budget. */
  ghost predicate Fits(lengths: seq<int>, budget: int, multiple: int, batch: seq<nat>)
    requires multiple > 0
  {
    |batch| > 0 && InRange(batch, |lengths|) &&
    Cost(|batch|, BatchWidth(lengths, multiple, batch)) <= budget
  }

  ghost predicate AllFit(lengths: seq<int>, budget: int, multiple: int, batches: seq<seq<nat>>)
    requires multiple > 0
  {
    forall b :: 0 <= b < |batches| ==> Fits(lengths, budget, multiple, batches[b])
  }

  /** A feasible schedule: every row in exactly one batch, every batch within budget. */
  ghost predicate Feasible(lengths: seq<int>, budget: int, multiple: int, batches: seq<seq<nat>>)
    requires multiple > 0
  {
    AllFit(lengths, budget, multiple, batches) && Permutation(Flatten(batches), |lengths|)
  }

  /** No further row of the batch's own width would fit. */
  ghost predicate Full(lengths: seq<int>, budget: int, multiple: int, batch: seq<nat>)
    requires multiple > 0 && |batch| > 0 && InRange(batch, |lengths|)
  {
    Cost(|batch| + 1, BatchWidth(lengths, multiple, batch)) > budget
  }

  /** Consecutive runs of the descending order, each but the last filled to the brim. */
  ghost predicate Greedy(lengths: seq<int>, budget: int, multiple: int, batches: seq<seq<nat>>)
    requires multiple > 0
  {
    && Flatten(batches) == SortedOrder(lengths)
    && AllFit(lengths, budget, multiple, batches)
    && forall b :: 0 <= b < |batches| - 1 ==> Full(lengths, budget, multiple, batches[b])
  }

  /** Rows that `make_batches` accepts. */
  ghost predicate RowsAccepted(lengths: seq<int>, budget: int, multiple: int)
    requires multiple > 0
  {
    forall i :: 0 <= i < |lengths| ==> 0 < lengths[i] && PaddedLength(lengths[i], multiple) <= budget
  }

  lemma FirstIsLongest(lengths: seq<int>, batch: seq<nat>)
    requires |batch| > 0 && InRange(batch, |lengths|)
    requires forall k :: 0 <= k < |batch| ==> lengths[batch[k]] <= lengths[batch[0]]
    ensures Longest(lengths, batch) == lengths[batch[0]]
  {
  }

  lemma SnocFlatten(batches: seq<seq<nat>>, x: nat)
    ensures Flatten(batches + [[x]]) == Flatten(batches) + [x]
    ensures |batches| > 0 ==>
      Flatten(batches[|batches|-1 := batches[|batches|-1] + [x]]) == Flatten(batches) + [x]
  {
    FlattenConcat(batches, [[x]]);
    FlattenOne([x]);
    if |batches| > 0 {
      var last := |batches| - 1;
      FlattenAround(batches, last, [batches[last] + [x]]);
      FlattenOne(batches[last] + [x]);
      assert batches[..last] + [batches[last] + [x]] + batches[last+1..] == batches[last := batches[last] + [x]];
      assert batches[last+1..] == [];
    }
  }

  lemma CostOfOne(width: int)
    ensures Cost(1, width) == width
  {
  }

  /** The loop's state after placing the rows of `placed`: an open last batch, full ones before it. */
  ghost predicate Packed(lengths: seq<int>, budget: int, multiple: int, placed: seq<nat>,
                         batches: seq<seq<nat>>, widths: seq<int>)
    requires multiple > 0
  {
    && Flatten(batches) == placed
    && |widths| == |batches|
    && (forall b :: 0 <= b < |batches| ==>
         |batches[b]| > 0 && InRange(batches[b], |lengths|) &&
         widths[b] == BatchWidth(lengths, multiple, batches[b]) &&
         Longest(lengths, batches[b]) == lengths[batches[b][0]])
    && (forall b :: 0 <= b < |batches| ==> Cost(|batches[b]|, widths[b]) <= budget)
    && (forall b :: 0 <= b < |batches| - 1 ==> Cost(|batches[b]| + 1, widths[b]) > budget)
  }

  ghost predicate NotLongerThan(lengths: seq<int>, x: nat, placed: seq<nat>)
    requires x < |lengths| && InRange(placed, |lengths|)
  {
    forall k :: 0 <= k < |placed| ==> lengths[x] <= lengths[placed[k]]
  }

  predicate HasRoom(batches: seq<seq<nat>>, widths: seq<int>, budget: int, b: nat)
    requires b < |batches| == |widths|
  {
    Cost(|batches[b]| + 1, widths[b]) <= budget
  }

  /** The first batch with room; `|batches|` when there is none. */
  method FirstWithRoom(batches: seq<seq<nat>>, widths: seq<int>, budget: int) returns (b: nat)
    requires |batches| == |widths|
    ensures b <= |batches|
    ensures forall c :: 0 <= c < b ==> !HasRoom(batches, widths, budget, c)
    ensures b < |batches| ==> HasRoom(batches, widths, budget, b)
  {
    b := 0;
    while b < |batches| && !HasRoom(batches, widths, budget, b)
      invariant b <= |batches|
      invariant forall c :: 0 <= c < b ==> !HasRoom(batches, widths, budget, c)
    {
      b := b + 1;
    }
  }

  /** First fit on descending rows never reaches behind the last batch. */
  lemma PlaceInLast(lengths: seq<int>, budget: int, multiple: int, placed: seq<nat>,
                    batches: seq<seq<nat>>, widths: seq<int>, b: nat, x: nat)
    requires multiple > 0 && Packed(lengths, budget, multiple, placed, batches, widths)
    requires x < |lengths| && InRange(placed, |lengths|) && NotLongerThan(lengths, x, placed)
    requires b < |batches| && HasRoom(batches, widths, budget, b)
    ensures b == |batches| - 1
    ensures Packed(lengths, budget, multiple, placed + [x], batches[b := batches[b] + [x]], widths)
  {
    hide PaddedLength, Flatten, Cost;
    var last := batches[|batches|-1];
    SnocFlatten(batches, x);
    FlattenHas(batches, last[0]);
    assert last[0] in placed;
    var grown := last + [x];
    forall k | 0 <= k < |grown| ensures lengths[grown[k]] <= lengths[grown[0]] {
      if k < |last| { assert lengths[last[k]] <= Longest(lengths, last); }
    }
    FirstIsLongest(lengths, grown);
  }

  lemma OpenNew(lengths: seq<int>, budget: int, multiple: int, placed: seq<nat>,
                batches: seq<seq<nat>>, widths: seq<int>, x: nat)
    requires multiple > 0 && Packed(lengths, budget, multiple, placed, batches, widths)
    requires x < |lengths| && PaddedLength(lengths[x], multiple) <= budget
    requires forall b :: 0 <= b < |batches| ==> !HasRoom(batches, widths, budget, b)
    ensures Packed(lengths, budget, multiple, placed + [x],
                   batches + [[x]], widths + [PaddedLength(lengths[x], multiple)])
  {
    hide PaddedLength, Flatten, Cost;
    SnocFlatten(batches, x);
    var width := PaddedLength(lengths[x], multiple);
    CostOfOne(width);
    assert BatchWidth(lengths, multiple, [x]) == PaddedLength(lengths[x], multiple);
    var after := batches + [[x]];
    forall b | 0 <= b < |after| - 1 ensures Cost(|after[b]| + 1, (widths + [width])[b]) > budget {
      assert after[b] == batches[b] && !HasRoom(batches, widths, budget, b);
    }
  }

  lemma PackedIsGreedy(lengths: seq<int>, budget: int, multiple: int, batches: seq<seq<nat>>, widths: seq<int>)
    requires multiple > 0 && Packed(lengths, budget, multiple, SortedOrder(lengths), batches, widths)
    ensures Greedy(lengths, budget, multiple, batches)
  {
    hide PaddedLength, Longest, SortedOrder, Cost;
  }

  /** A longest row, and the first of those. */
  ghost predicate IsFirst(lengths: seq<int>, i: nat)
    requires i < |lengths|
  {
    forall j: nat :: j < |lengths| && j != i ==> lengths[i] > lengths[j] || (lengths[i] == lengths[j] && i < j)
  }

  /** The longest row is met first, so it is the one an error names. */
  lemma OversizedIsFirst(lengths: seq<int>, budget: int, multiple: int, k: nat)
    requires multiple > 0 && k < |lengths|
    requires PaddedLength(lengths[SortedOrder(lengths)[k]], multiple) > budget
    requires k > 0 ==> PaddedLength(lengths[SortedOrder(lengths)[0]], multiple) <= budget
    ensures IsFirst(lengths, SortedOrder(lengths)[k])
  {
    hide PaddedLength;
    var order := SortedOrder(lengths);
    if k > 0 {
      PaddedMonotone(lengths[order[k]], lengths[order[0]], multiple);
    }
    PermutationCovers(order, |lengths|);
    forall j: nat | j < |lengths| && j != order[k]
      ensures lengths[order[k]] > lengths[j] || (lengths[order[k]] == lengths[j] && order[k] < j)
    {
      assert j in order;
      var p :| 0 <= p < |order| && order[p] == j;
    }
  }

  lemma AllFitInOrder(lengths: seq<int>, budget: int, multiple: int)
    requires multiple > 0
    requires forall k :: 0 <= k < |lengths| ==> PaddedLength(lengths[SortedOrder(lengths)[k]], multiple) <= budget
    ensures forall i :: 0 <= i < |lengths| ==> PaddedLength(lengths[i], multiple) <= budget
  {
    hide PaddedLength;
    var order := SortedOrder(lengths);
    PermutationCovers(order, |lengths|);
    forall i: nat | i < |lengths| ensures PaddedLength(lengths[i], multiple) <= budget {
      assert i in order;
      var p :| 0 <= p < |order| && order[p] == i;
    }
  }

  /** First-fit decreasing. The result is pinned down completely: which error, or the one
      greedy schedule (`GreedyIsUnique`). */
  method MakeBatches(lengths: seq<int>, budget: int, multiple: int) returns (r: Result<seq<seq<nat>>>)
    ensures r == Err(BadConfiguration) <==> budget <= 0 || multiple <= 0
    ensures r == Err(EmptySequence) <==>
      budget > 0 && multiple > 0 && exists i :: 0 <= i < |lengths| && lengths[i] <= 0
    ensures r.Ok? <==> budget > 0 && multiple > 0 && RowsAccepted(lengths, budget, multiple)
    ensures r.Err? && r.error !in {BadConfiguration, EmptySequence} ==>
      exists i: nat :: i < |lengths| && r.error == Oversized(i) && PaddedLength(lengths[i], multiple) > budget
        && IsFirst(lengths, i)
    ensures r.Ok? ==> Greedy(lengths, budget, multiple, r.value)
  {
    hide PaddedLength, HasRoom, BatchWidth, Longest, Cost, IsFirst;
    if budget <= 0 || multiple <= 0 {
      return Err(BadConfiguration);
    }
    if exists i :: 0 <= i < |lengths| && lengths[i] <= 0 {
      return Err(EmptySequence);
    }
    var batches: seq<seq<nat>>, widths: seq<int> := [], [];
    var order := SortedOrder(lengths);
    assert order[..0] == Flatten(batches);
    assert Packed(lengths, budget, multiple, order[..0], batches, widths);
    hide Packed, Greedy, Flatten, SortedOrder;
    var k := 0;
    while k < |order|
      invariant 0 <= k <= |order|
      invariant |widths| == |batches|
      invariant Packed(lengths, budget, multiple, order[..k], batches, widths)
      invariant forall i :: 0 <= i < k ==> PaddedLength(lengths[order[i]], multiple) <= budget
    {
      var index := order[k];
      var width := PaddedLength(lengths[index], multiple);
      if width > budget {
        OversizedIsFirst(lengths, budget, multiple, k);
        return Err(Oversized(index));
      }
      var b := FirstWithRoom(batches, widths, budget);
      assert order[..k+1] == order[..k] + [index];
      if b < |batches| {
        PlaceInLast(lengths, budget, multiple, order[..k], batches, widths, b, index);
        batches := batches[b := batches[b] + [index]];
      } else {
        OpenNew(lengths, budget, multiple, order[..k], batches, widths, index);
        batches := batches + [[index]];
        widths := widths + [width];
      }
      k := k + 1;
    }
    assert order[..|order|] == order;
    AllFitInOrder(lengths, budget, multiple);
    PackedIsGreedy(lengths, budget, multiple, batches, widths);
    return Ok(batches);
  }
}
