/** Splitting batches until there are exactly as many as every other rank runs. */
module Splitting {
  import opened Rows
  import opened TokenBatching
  import opened Minimality

  /** The index of a largest batch; the first one, as `max` with a key picks it. */
  function FirstLargest(batches: seq<seq<nat>>): (i: nat)
    requires |batches| > 0
    ensures i < |batches|
    ensures forall b :: 0 <= b < |batches| ==> |batches[b]| <= |batches[i]|
    ensures forall b :: 0 <= b < i ==> |batches[b]| < |batches[i]|
  {
    if |batches| == 1 then 0
    else
      var rest := FirstLargest(batches[1..]);
      assert forall b :: 1 <= b < |batches| ==> batches[b] == batches[1..][b-1];
      if |batches[0]| >= |batches[rest + 1]| then 0 else rest + 1
  }

  /** Replace batch `i` by its two halves, in place and in order. */
  function Halve(batches: seq<seq<nat>>, i: nat): seq<seq<nat>>
    requires i < |batches|
  {
    var middle := |batches[i]| / 2;
    batches[..i] + [batches[i][..middle], batches[i][middle..]] + batches[i+1..]
  }

  lemma HalveKeepsRows(batches: seq<seq<nat>>, i: nat)
    requires i < |batches|
    ensures |Halve(batches, i)| == |batches| + 1
    ensures Flatten(Halve(batches, i)) == Flatten(batches)
  {
    var batch, middle := batches[i], |batches[i]| / 2;
    FlattenAround(batches, i, [batch[..middle], batch[middle..]]);
    FlattenConcat([batch[..middle]], [batch[middle..]]);
    FlattenOne(batch[..middle]);
    FlattenOne(batch[middle..]);
    assert [batch[..middle], batch[middle..]] == [batch[..middle]] + [batch[middle..]];
    assert batch[..middle] + batch[middle..] == batch;
  }

  lemma HalveElement(batches: seq<seq<nat>>, i: nat, b: nat)
    requires i < |batches| && b <= |batches|
    ensures |Halve(batches, i)| == |batches| + 1
    ensures Halve(batches, i)[b] == if b < i then batches[b]
                                    else if b == i then batches[i][..|batches[i]| / 2]
                                    else if b == i + 1 then batches[i][|batches[i]| / 2..]
                                    else batches[b-1]
  {
  }

  /** The state the loop reaches: largest batches halved until there are `count`. */
  function SplitTo(batches: seq<seq<nat>>, count: nat): seq<seq<nat>>
    requires |batches| <= count <= |Flatten(batches)|
    decreases count - |batches|
  {
    if |batches| == count then batches
    else
      assert |batches| > 0;
      HalveKeepsRows(batches, FirstLargest(batches));
      SplitTo(Halve(batches, FirstLargest(batches)), count)
  }

  /** The loop's states are the splits to each count on the way, so `SplitIsCorrect` holds of
      all of them: the next one halves a largest batch of the one before. */
  lemma {:induction false} SplitOneMore(batches: seq<seq<nat>>, k: nat)
    requires |batches| <= k < |Flatten(batches)|
    ensures |SplitTo(batches, k)| == k && k > 0
    ensures SplitTo(batches, k + 1) == Halve(SplitTo(batches, k), FirstLargest(SplitTo(batches, k)))
    decreases k - |batches|
  {
    var first := FirstLargest(batches);
    HalveKeepsRows(batches, first);
    if |batches| < k {
      SplitOneMore(Halve(batches, first), k);
    } else {
      assert SplitTo(Halve(batches, first), k + 1) == Halve(batches, first);
    }
  }

  method SplitToCount(batches: seq<seq<nat>>, count: int) returns (r: Result<seq<seq<nat>>>)
    ensures r.Ok? <==> |batches| <= count <= |Flatten(batches)|
    ensures r.Err? ==> r.error == BadSplitCount
    ensures r.Ok? ==> r.value == SplitTo(batches, count)
  {
    if !(|batches| <= count <= |Flatten(batches)|) {
      return Err(BadSplitCount);
    }
    var result := batches;
    while |result| < count
      invariant |result| <= count <= |Flatten(result)|
      invariant |batches| <= |result| && result == SplitTo(batches, |result|)
      decreases count - |result|
    {
      var index := FirstLargest(result);
      HalveKeepsRows(result, index);
      SplitOneMore(batches, |result|);
      var batch := result[index];
      var middle := |batch| / 2;
      result := result[..index] + [batch[..middle], batch[middle..]] + result[index+1..];
    }
    return Ok(result);
  }

  // ---------------------------------------------------------------- what a split keeps

  ghost predicate IsSlice(piece: seq<nat>, batch: seq<nat>) {
    exists i, j :: 0 <= i <= j <= |batch| && piece == batch[i..j]
  }

  ghost predicate AllNonempty(batches: seq<seq<nat>>) {
    forall b :: 0 <= b < |batches| ==> |batches[b]| > 0
  }

  ghost predicate PieceOfSome(piece: seq<nat>, before: seq<seq<nat>>) {
    exists c :: 0 <= c < |before| && IsSlice(piece, before[c])
  }

  /** Every batch of `after` is a contiguous piece of one batch of `before`. */
  ghost predicate Refines(after: seq<seq<nat>>, before: seq<seq<nat>>) {
    forall b :: 0 <= b < |after| ==> PieceOfSome(after[b], before)
  }

  /** Every batch of `after` was left whole, or is at least half (rounded down) of the largest.
      Being left whole is a matter of contents; where no row repeats, as in every schedule, equal
      nonempty batches are the same batch. */
  ghost predicate Balanced(after: seq<seq<nat>>, before: seq<seq<nat>>) {
    forall b, c :: 0 <= b < |after| && 0 <= c < |after| ==> after[b] in before || |after[b]| >= |after[c]| / 2
  }

  lemma Recut(s: seq<nat>, k: nat, l: nat, i: nat, j: nat)
    requires k <= l <= |s| && i <= j <= l - k
    ensures s[k..l][i..j] == s[k+i..k+j]
  {
    assert forall x :: 0 <= x < j - i ==> s[k..l][i..j][x] == s[k..l][i + x] == s[k + i + x];
  }

  lemma SliceOfSlice(a: seq<nat>, b: seq<nat>, c: seq<nat>)
    requires IsSlice(a, b) && IsSlice(b, c)
    ensures IsSlice(a, c)
  {
    var i, j :| 0 <= i <= j <= |b| && a == b[i..j];
    var k, l :| 0 <= k <= l <= |c| && b == c[k..l];
    Recut(c, k, l, i, j);
    assert a == c[k+i..k+j];
  }

  lemma RefinesTransitive(a: seq<seq<nat>>, b: seq<seq<nat>>, c: seq<seq<nat>>)
    requires Refines(a, b) && Refines(b, c)
    ensures Refines(a, c)
  {
    forall x | 0 <= x < |a| ensures PieceOfSome(a[x], c) {
      assert PieceOfSome(a[x], b);
      var y :| 0 <= y < |b| && IsSlice(a[x], b[y]);
      assert PieceOfSome(b[y], c);
      var z :| 0 <= z < |c| && IsSlice(b[y], c[z]);
      SliceOfSlice(a[x], b[y], c[z]);
    }
  }

  lemma {:induction false} SmallBatchesHoldFew(batches: seq<seq<nat>>)
    requires forall b :: 0 <= b < |batches| ==> |batches[b]| <= 1
    ensures |Flatten(batches)| <= |batches|
  {
    if |batches| > 0 { SmallBatchesHoldFew(batches[1..]); }
  }

  /** Pigeonhole: with more rows than batches, a largest batch holds at least two rows. */
  lemma LargestHasTwo(batches: seq<seq<nat>>)
    requires 0 < |batches| < |Flatten(batches)|
    ensures |batches[FirstLargest(batches)]| >= 2
  {
    if |batches[FirstLargest(batches)]| < 2 {
      SmallBatchesHoldFew(batches);
    }
  }

  lemma HalveRefines(batches: seq<seq<nat>>, i: nat)
    requires i < |batches| && |batches[i]| >= 2
    ensures Refines(Halve(batches, i), batches)
    ensures AllNonempty(batches) ==> AllNonempty(Halve(batches, i))
    ensures forall b :: 0 <= b < |batches| && b != i ==> batches[b] in Halve(batches, i)
  {
    hide Halve;
    var after, middle := Halve(batches, i), |batches[i]| / 2;
    HalveElement(batches, i, 0);
    forall b | 0 <= b < |after|
      ensures PieceOfSome(after[b], batches)
      ensures AllNonempty(batches) ==> |after[b]| > 0
    {
      HalveElement(batches, i, b);
      var c := if b <= i then b else b - 1;
      assert batches[c] == batches[c][0..|batches[c]|] && batches[i][..middle] == batches[i][0..middle]
          && batches[i][middle..] == batches[i][middle..|batches[i]|];
      assert IsSlice(after[b], batches[c]);
    }
    forall b | 0 <= b < |batches| && b != i ensures batches[b] in after {
      HalveElement(batches, i, if b < i then b else b + 1);
    }
  }

  /** One step of the loop keeps the balance relative to the original batches. */
  lemma HalveBalanced(before: seq<seq<nat>>, batches: seq<seq<nat>>)
    requires |batches| > 0 && Balanced(batches, before)
    ensures Balanced(Halve(batches, FirstLargest(batches)), before)
  {
    hide Halve;
    var i := FirstLargest(batches);
    var after := Halve(batches, i);
    HalveElement(batches, i, 0);
    forall b, c | 0 <= b < |after| && 0 <= c < |after| ensures after[b] in before || |after[b]| >= |after[c]| / 2 {
      HalveElement(batches, i, b);
      HalveElement(batches, i, c);
      assert |after[c]| <= |batches[i]|;
      if b != i && b != i + 1 {
        var d := if b < i then b else b - 1;
        assert batches[d] in before || |batches[d]| >= |batches[i]| / 2;
      }
    }
  }

  lemma {:induction false} SplitFrom(before: seq<seq<nat>>, batches: seq<seq<nat>>, count: nat)
    requires |batches| <= count <= |Flatten(batches)|
    requires Refines(batches, before) && Balanced(batches, before)
    ensures |SplitTo(batches, count)| == count
    ensures Flatten(SplitTo(batches, count)) == Flatten(batches)
    ensures AllNonempty(batches) ==> AllNonempty(SplitTo(batches, count))
    ensures Refines(SplitTo(batches, count), before)
    ensures Balanced(SplitTo(batches, count), before)
    decreases count - |batches|
  {
    if |batches| < count {
      assert |batches| > 0;
      var i := FirstLargest(batches);
      HalveKeepsRows(batches, i);
      LargestHasTwo(batches);
      HalveRefines(batches, i);
      RefinesTransitive(Halve(batches, i), batches, before);
      HalveBalanced(before, batches);
      hide Refines, Balanced, AllNonempty, Halve, Flatten, PieceOfSome;
      SplitFrom(before, Halve(batches, i), count);
    }
  }

  /** SPLIT CORRECTNESS. Exactly `count` batches, the same rows in the same order, nothing
      emptied, every batch a contiguous piece of an old one, and split ones balanced. */
  lemma {:induction false} SplitIsCorrect(batches: seq<seq<nat>>, count: nat)
    requires |batches| <= count <= |Flatten(batches)|
    ensures |SplitTo(batches, count)| == count
    ensures Flatten(SplitTo(batches, count)) == Flatten(batches)
    ensures AllNonempty(batches) ==> AllNonempty(SplitTo(batches, count))
    ensures Refines(SplitTo(batches, count), batches)
    ensures Balanced(SplitTo(batches, count), batches)
  {
    assert forall b :: 0 <= b < |batches| ==> batches[b] == batches[b][0..|batches[b]|] && batches[b] in batches;
    assert Refines(batches, batches) by {
      assert forall b :: 0 <= b < |batches| ==> IsSlice(batches[b], batches[b]);
    }
    SplitFrom(batches, batches, count);
  }

  lemma CostMoreRows(few: nat, many: nat, width: int)
    requires few <= many && width >= 0
    ensures Cost(few, width) <= Cost(many, width)
  {
    MultipleAtMost(few, many, width);
  }

  /** A nonempty piece of a batch costs no more than the batch, so it fits wherever that did. */
  lemma SliceFits(lengths: seq<int>, budget: int, multiple: int, piece: seq<nat>, batch: seq<nat>)
    requires multiple > 0 && forall i :: 0 <= i < |lengths| ==> lengths[i] > 0
    requires Fits(lengths, budget, multiple, batch) && IsSlice(piece, batch) && |piece| > 0
    ensures Fits(lengths, budget, multiple, piece)
  {
    hide PaddedLength, Cost;
    var i, j :| 0 <= i <= j <= |batch| && piece == batch[i..j];
    assert forall k :: 0 <= k < |piece| ==> piece[k] == batch[i + k];
    var k :| 0 <= k < |piece| && lengths[piece[k]] == Longest(lengths, piece);
    assert Longest(lengths, piece) <= Longest(lengths, batch);
    PaddedMonotone(Longest(lengths, piece), Longest(lengths, batch), multiple);
    CostMonotone(|piece|, BatchWidth(lengths, multiple, piece), BatchWidth(lengths, multiple, batch));
    CostMoreRows(|piece|, |batch|, BatchWidth(lengths, multiple, batch));
  }

  lemma SplitStaysFeasible(lengths: seq<int>, budget: int, multiple: int, batches: seq<seq<nat>>, count: nat)
    requires multiple > 0 && forall i :: 0 <= i < |lengths| ==> lengths[i] > 0
    requires AllFit(lengths, budget, multiple, batches)
    requires |batches| <= count <= |Flatten(batches)|
    ensures AllFit(lengths, budget, multiple, SplitTo(batches, count))
  {
    hide PaddedLength, Cost, SplitTo, BatchWidth;
    SplitIsCorrect(batches, count);
    var after := SplitTo(batches, count);
    forall b | 0 <= b < |after| ensures Fits(lengths, budget, multiple, after[b]) {
      assert PieceOfSome(after[b], batches);
      var c :| 0 <= c < |batches| && IsSlice(after[b], batches[c]);
      assert Fits(lengths, budget, multiple, batches[c]);
      assert AllNonempty(batches);
      SliceFits(lengths, budget, multiple, after[b], batches[c]);
    }
  }

  // ---------------------------------------------------------------- which counts are possible

  ghost predicate HasSchedule(lengths: seq<int>, budget: int, multiple: int, count: nat)
    requires multiple > 0
  {
    exists batches :: Feasible(lengths, budget, multiple, batches) && |batches| == count
  }

  lemma NonemptyBatchesAreFew(batches: seq<seq<nat>>)
    requires AllNonempty(batches)
    ensures |batches| <= |Flatten(batches)|
  {
    if |batches| > 0 { NonemptyBatchesAreFew(batches[1..]); }
  }

  /** A shard can run `count` nonempty microbatches within budget exactly when `count` lies
      between the greedy count and the number of rows. */
  lemma PossibleCounts(lengths: seq<int>, budget: int, multiple: int, greedy: seq<seq<nat>>, count: nat)
    requires multiple > 0 && RowsAccepted(lengths, budget, multiple)
    requires Greedy(lengths, budget, multiple, greedy)
    ensures HasSchedule(lengths, budget, multiple, count) <==> |greedy| <= count <= |lengths|
  {
    hide PaddedLength, SortedOrder, BatchWidth, Longest, SplitTo, Flatten, Cost;
    assert Permutation(Flatten(greedy), |lengths|);
    if HasSchedule(lengths, budget, multiple, count) {
      var batches :| Feasible(lengths, budget, multiple, batches) && |batches| == count;
      PermutationCovers(Flatten(batches), |lengths|);
      GreedyIsMinimal(lengths, budget, multiple, greedy, batches);
      assert forall b :: 0 <= b < |batches| ==> Fits(lengths, budget, multiple, batches[b]);
      NonemptyBatchesAreFew(batches);
    }
    if |greedy| <= count <= |lengths| {
      SplitIsCorrect(greedy, count);
      SplitStaysFeasible(lengths, budget, multiple, greedy, count);
      assert Feasible(lengths, budget, multiple, SplitTo(greedy, count));
    }
  }
}
