/** Per-row padding widths rebuilt from a schedule, which is also the check that the schedule
    is a partition; and why running rows in schedule order loses nothing. */
module Widths {
  import opened Rows
  import opened TokenBatching
  import opened Splitting

  ghost predicate Positive(lengths: seq<int>) {
    forall i :: 0 <= i < |lengths| ==> lengths[i] > 0
  }

  /** Nonempty batches that hold each of the `n` rows exactly once. */
  ghost predicate Partitions(batches: seq<seq<nat>>, n: nat) {
    AllNonempty(batches) && Permutation(Flatten(batches), n)
  }

  /** The rows written so far: all of the first `b` batches and `k` rows of the next. */
  ghost function Written(batches: seq<seq<nat>>, b: nat, k: nat): seq<nat>
    requires b < |batches| && k <= |batches[b]|
  {
    Flatten(batches[..b]) + batches[b][..k]
  }

  lemma WrittenIsPrefix(batches: seq<seq<nat>>, b: nat, k: nat)
    requires b < |batches| && k <= |batches[b]|
    ensures |Written(batches, b, k)| <= |Flatten(batches)|
    ensures Written(batches, b, k) == Flatten(batches)[..|Written(batches, b, k)|]
    ensures k == |batches[b]| ==> Written(batches, b, k) == Flatten(batches[..b+1])
    ensures k < |batches[b]| ==> Written(batches, b, k + 1) == Written(batches, b, k) + [batches[b][k]]
  {
    FlattenAround(batches, b, []);
    FlattenAround(batches[..b+1], b, []);
    assert batches[..b+1][..b] == batches[..b];
    assert batches[b] == batches[b][..k] + batches[b][k..];
  }

  ghost predicate Usable(batch: seq<nat>, n: nat) {
    |batch| > 0 && InRange(batch, n)
  }

  /** `widths` holds the batch width of exactly the rows in `written`, and zero elsewhere. */
  ghost predicate Filled(lengths: seq<int>, multiple: int, batches: seq<seq<nat>>, b: nat, k: nat,
                         written: seq<nat>, widths: seq<int>)
    requires multiple > 0 && b <= |batches|
  {
    && |widths| == |lengths|
    && InRange(written, |lengths|) && Distinct(written)
    && (forall row: nat :: row < |widths| ==> (widths[row] != 0 <==> row in written))
    && (forall c :: 0 <= c < b ==> Usable(batches[c], |lengths|))
    && (forall c, j :: 0 <= c < b && 0 <= j < |batches[c]| ==>
         batches[c][j] in written && widths[batches[c][j]] == BatchWidth(lengths, multiple, batches[c]))
    && (k > 0 ==> b < |batches| && k <= |batches[b]| && Usable(batches[b], |lengths|) && forall j :: 0 <= j < k ==>
         batches[b][j] in written && widths[batches[b][j]] == BatchWidth(lengths, multiple, batches[b]))
  }

  lemma WidthIsPositive(lengths: seq<int>, multiple: int, batch: seq<nat>)
    requires multiple > 0 && Usable(batch, |lengths|) && Positive(lengths)
    ensures BatchWidth(lengths, multiple, batch) > 0
  {
  }

  lemma FillOne(lengths: seq<int>, multiple: int, batches: seq<seq<nat>>, b: nat, k: nat,
                written: seq<nat>, widths: seq<int>)
    requires multiple > 0 && b < |batches| && k < |batches[b]| && Usable(batches[b], |lengths|)
    requires Positive(lengths) && Filled(lengths, multiple, batches, b, k, written, widths)
    requires batches[b][k] !in written
    ensures Filled(lengths, multiple, batches, b, k + 1, written + [batches[b][k]],
                   widths[batches[b][k] := BatchWidth(lengths, multiple, batches[b])])
  {
    hide PaddedLength, Longest;
    assert BatchWidth(lengths, multiple, batches[b]) > 0 by { WidthIsPositive(lengths, multiple, batches[b]); }
  }

  lemma NextBatch(lengths: seq<int>, multiple: int, batches: seq<seq<nat>>, b: nat,
                  written: seq<nat>, widths: seq<int>)
    requires multiple > 0 && b < |batches| && |batches[b]| > 0
    requires Filled(lengths, multiple, batches, b, |batches[b]|, written, widths)
    ensures Filled(lengths, multiple, batches, b + 1, 0, written, widths)
  {
    hide BatchWidth;
  }

  lemma FlattenNothing(batches: seq<seq<nat>>)
    ensures Flatten(batches[..0]) == []
  {
  }

  lemma RepeatInPrefix(s: seq<nat>, prefix: seq<nat>, x: nat)
    requires |prefix| < |s| && s[..|prefix|+1] == prefix + [x] && x in prefix
    ensures !Distinct(s) && x in s
  {
    var i :| 0 <= i < |prefix| && prefix[i] == x;
    assert s[..|prefix|+1][i] == x && s[..|prefix|+1][|prefix|] == x;
    assert s[i] == s[|prefix|];
  }

  lemma DistinctIsShort(s: seq<nat>, n: nat)
    requires Distinct(s) && InRange(s, n)
    ensures |s| <= n
  {
    ElementsBound(s);
    Included(Elements(s), Range(n));
  }

  /** Row by row, the padding width of the microbatch it runs in. On positive lengths it
      succeeds exactly on partitions, and each error names a real defect. */
  method BatchWidths(lengths: seq<int>, batches: seq<seq<nat>>, multiple: int) returns (r: Result<seq<int>>)
    requires multiple > 0
    ensures Positive(lengths) ==> (r.Ok? <==> Partitions(batches, |lengths|))
    ensures r.Ok? ==> |r.value| == |lengths| && forall b :: 0 <= b < |batches| ==> Usable(batches[b], |lengths|)
    ensures r.Ok? && Positive(lengths) ==> forall b, j :: 0 <= b < |batches| && 0 <= j < |batches[b]| ==>
      batches[b][j] < |lengths| && InRange(batches[b], |lengths|) &&
      r.value[batches[b][j]] == BatchWidth(lengths, multiple, batches[b])
    ensures r == Err(EmptyBatch) ==> !AllNonempty(batches)
    ensures r == Err(RowOutOfRange) ==> !InRange(Flatten(batches), |lengths|)
    ensures Positive(lengths) && r.Err? && r.error.DuplicateRow? ==>
      !Distinct(Flatten(batches)) && r.error.row in Flatten(batches)
    ensures Positive(lengths) && r == Err(OmittedRow) ==>
      Distinct(Flatten(batches)) && exists row: nat :: row < |lengths| && row !in Flatten(batches)
    ensures r.Err? ==> r.error in {EmptyBatch, RowOutOfRange, OmittedRow} || r.error.DuplicateRow?
  {
    hide PaddedLength, BatchWidth, Longest, Flatten;
    var widths := new int[|lengths|](_ => 0);
    ghost var written: seq<nat> := [];
    assert Filled(lengths, multiple, batches, 0, 0, written, widths[..]);
    assert batches[..0] == [] && Flatten(batches[..0]) == written by { FlattenNothing(batches); }
    var b := 0;
    while b < |batches|
      invariant 0 <= b <= |batches|
      invariant forall c :: 0 <= c < b ==> Usable(batches[c], |lengths|)
      invariant Positive(lengths) ==>
        written == Flatten(batches[..b]) && Filled(lengths, multiple, batches, b, 0, written, widths[..])
    {
      var batch := batches[b];
      if |batch| == 0 {
        return Err(EmptyBatch);
      }
      if exists k :: 0 <= k < |batch| && batch[k] >= |lengths| {
        FlattenInRange(batches, |lengths|);
        return Err(RowOutOfRange);
      }
      var width := BatchWidth(lengths, multiple, batch);
      var k := 0;
      while k < |batch|
        invariant 0 <= k <= |batch|
        invariant Positive(lengths) ==>
          written == Written(batches, b, k) && Filled(lengths, multiple, batches, b, k, written, widths[..])
      {
        var row := batch[k];
        WrittenIsPrefix(batches, b, k);
        if widths[row] != 0 {
          if Positive(lengths) {
            WrittenIsPrefix(batches, b, k + 1);
            RepeatInPrefix(Flatten(batches), written, row);
          }
          return Err(DuplicateRow(row));
        }
        if Positive(lengths) {
          FillOne(lengths, multiple, batches, b, k, written, widths[..]);
        }
        widths[row] := width;
        written := written + [row];
        k := k + 1;
      }
      WrittenIsPrefix(batches, b, |batch|);
      if Positive(lengths) {
        NextBatch(lengths, multiple, batches, b, written, widths[..]);
      }
      b := b + 1;
    }
    assert batches[..b] == batches;
    if exists row :: 0 <= row < widths.Length && widths[row] == 0 {
      if Positive(lengths) {
        var row: nat :| row < widths.Length && widths[..][row] == 0;
        assert row !in written;
        if Permutation(written, |lengths|) { PermutationCovers(written, |lengths|); }
      }
      return Err(OmittedRow);
    }
    if Positive(lengths) {
      forall row: nat | row < |lengths| ensures row in written {
        assert widths[..][row] != 0;
      }
      CoverNeedsLength(written, |lengths|);
      DistinctIsShort(written, |lengths|);
    }
    return Ok(widths[..]);
  }

  // ---------------------------------------------------------------- reordering per-row results

  /** Per-row values in the order the microbatches run them. */
  function Gather<T>(values: seq<T>, order: seq<nat>): (r: seq<T>)
    requires InRange(order, |values|)
    ensures |r| == |order| && forall k :: 0 <= k < |r| ==> r[k] == values[order[k]]
  {
    seq(|order|, k requires 0 <= k < |order| => values[order[k]])
  }

  /** Writing each result back to the row it came from. */
  function Scatter<T>(into: seq<T>, order: seq<nat>, results: seq<T>): (r: seq<T>)
    requires |order| == |results| && InRange(order, |into|)
    ensures |r| == |into|
    decreases |order|
  {
    if |order| == 0 then into
    else Scatter(into[order[0] := results[0]], order[1..], results[1..])
  }

  lemma {:induction false} ScatterWrites<T>(into: seq<T>, values: seq<T>, order: seq<nat>)
    requires |into| == |values| && InRange(order, |values|)
    ensures forall row: nat :: row < |values| ==>
      Scatter(into, order, Gather(values, order))[row] == if row in order then values[row] else into[row]
    decreases |order|
  {
    if |order| > 0 {
      var next := into[order[0] := values[order[0]]];
      assert Gather(values, order)[1..] == Gather(values, order[1..]);
      ScatterWrites(next, values, order[1..]);
      assert order == [order[0]] + order[1..];
    }
  }

  function Sum(s: seq<real>): real {
    if |s| == 0 then 0.0 else s[0] + Sum(s[1..])
  }

  lemma {:induction false} SumWithout(s: seq<real>, i: nat)
    requires i < |s|
    ensures Sum(s) == s[i] + Sum(s[..i] + s[i+1..])
  {
    if i == 0 {
      assert s[..0] + s[1..] == s[1..];
    } else {
      SumWithout(s[1..], i - 1);
      var rest := s[..i] + s[i+1..];
      assert rest[1..] == s[1..][..i-1] + s[1..][i..];
    }
  }

  ghost function Without(order: seq<nat>, at: nat): seq<nat>
    requires at < |order|
  {
    order[..at] + order[at+1..]
  }

  lemma RemoveLast(order: seq<nat>, at: nat, last: nat)
    requires Permutation(order, last + 1) && at < |order| && order[at] == last
    ensures Permutation(Without(order, at), last)
  {
    var rest := Without(order, at);
    assert forall k :: 0 <= k < |rest| ==> rest[k] == order[if k < at then k else k + 1];
    assert forall k :: 0 <= k < |rest| ==> rest[k] != order[at];
  }

  lemma GatherWithout<T>(values: seq<T>, order: seq<nat>, at: nat)
    requires |values| > 0 && InRange(order, |values|) && at < |order|
    requires InRange(Without(order, at), |values| - 1)
    ensures Gather(values, order)[..at] + Gather(values, order)[at+1..]
         == Gather(values[..|values|-1], Without(order, at))
  {
  }

  /** A permutation of the entries has the same sum. */
  lemma {:induction false} SumOfGather(values: seq<real>, order: seq<nat>)
    requires Permutation(order, |values|)
    ensures Sum(Gather(values, order)) == Sum(values)
    decreases |values|
  {
    if |values| > 0 {
      var last := |values| - 1;
      PermutationCovers(order, |values|);
      assert last in order;
      var at :| 0 <= at < |order| && order[at] == last;
      RemoveLast(order, at, last);
      hide Gather, Sum, Without;
      SumOfGather(values[..last], Without(order, at));
      GatherWithout(values, order, at);
      SumWithout(Gather(values, order), at);
      SumWithout(values, last);
      assert values[..last] + values[last+1..] == values[..last];
    }
  }

  lemma MultisetWithout<T>(s: seq<T>, at: nat)
    requires at < |s|
    ensures multiset(s) == multiset(s[..at] + s[at+1..]) + multiset{s[at]}
  {
    assert s == s[..at] + [s[at]] + s[at+1..];
  }

  lemma {:induction false} MultisetOfGather<T>(values: seq<T>, order: seq<nat>)
    requires Permutation(order, |values|)
    ensures multiset(Gather(values, order)) == multiset(values)
    decreases |values|
  {
    if |values| > 0 {
      var last := |values| - 1;
      PermutationCovers(order, |values|);
      assert last in order;
      var at :| 0 <= at < |order| && order[at] == last;
      RemoveLast(order, at, last);
      hide Gather, Without;
      MultisetOfGather(values[..last], Without(order, at));
      GatherWithout(values, order, at);
      MultisetWithout(Gather(values, order), at);
      MultisetWithout(values, last);
      assert values[..last] + values[last+1..] == values[..last];
    }
  }

  /** Whatever the values are and whatever was in the buffer, scattering what was gathered along a
      partition restores the original row order, and on the way each value is there as often as
      before. */
  lemma ReorderingIsLossless<T>(batches: seq<seq<nat>>, values: seq<T>, buffer: seq<T>)
    requires Partitions(batches, |values|) && |buffer| == |values|
    ensures Scatter(buffer, Flatten(batches), Gather(values, Flatten(batches))) == values
    ensures multiset(Gather(values, Flatten(batches))) == multiset(values)
  {
    hide Flatten, Scatter, Gather;
    var order := Flatten(batches);
    PermutationCovers(order, |values|);
    ScatterWrites(buffer, values, order);
    MultisetOfGather(values, order);
  }
}
