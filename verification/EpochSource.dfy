/** The prompt source that refuses to cycle past a number of epochs. */
module EpochSource {
  datatype Setup = Ready | BadRetryOrEpochCount | BeyondEpochLimit

  /** The checks made before training starts. */
  function CheckArguments(maxRetries: int, maxEpochs: int, numRollout: int, batchSize: int, size: nat): Setup {
    if maxRetries < 0 || maxEpochs < 1 then BadRetryOrEpochCount
    else if numRollout * batchSize > size * maxEpochs then BeyondEpochLimit
    else Ready
  }

  /** The wrapped source. Its rows are not modelled, only that a fetch advances its position by
      the number of rows asked for, wrapping into the next epoch. */
  class DataSource {
    const size: nat
    var epoch: nat
    var offset: nat

    constructor (size: nat)
      ensures this.size == size && Position() == 0
    {
      this.size := size;
      epoch, offset := 0, 0;
    }

    ghost function Position(): nat
      reads this
    {
      epoch * size + offset
    }

    method GetSamples(count: nat)
      modifies this
      ensures Position() == old(Position()) + count
    {
      var total := offset + count;
      if size == 0 {
        offset := total;
      } else {
        var whole := total / size;
        epoch, offset := epoch + whole, total % size;
        assert total == whole * size + total % size;
        assert (old(epoch) + whole) * size == old(epoch) * size + whole * size;
      }
    }
  }

  /** Which fetches succeed, from a position, under a limit on rows. */
  function Granted(counts: seq<nat>, position: nat, limit: int): seq<bool> {
    if |counts| == 0 then []
    else if position + counts[0] > limit then [false] + Granted(counts[1..], position, limit)
    else [true] + Granted(counts[1..], position + counts[0], limit)
  }

  lemma NoMoreGranted(position: nat, limit: int)
    ensures Granted([], position, limit) == []
  {
  }

  lemma StillGranted(counts: seq<nat>, i: nat, position: nat, limit: int, granted: seq<bool>, g: bool)
    requires i < |counts| && (g <==> position + counts[i] <= limit)
    ensures granted + Granted(counts[i..], position, limit)
         == granted + [g] + Granted(counts[i+1..], if g then position + counts[i] else position, limit)
  {
    assert counts[i..][1..] == counts[i+1..];
  }

  /** Rows handed out over a history of fetches. */
  function HandedOut(counts: seq<nat>, granted: seq<bool>): nat
    requires |counts| == |granted|
  {
    if |counts| == 0 then 0 else (if granted[0] then counts[0] else 0) + HandedOut(counts[1..], granted[1..])
  }

  lemma {:induction false} HandedOutOneMore(counts: seq<nat>, granted: seq<bool>, count: nat, g: bool)
    requires |counts| == |granted|
    ensures HandedOut(counts + [count], granted + [g]) == HandedOut(counts, granted) + (if g then count else 0)
  {
    if |counts| > 0 {
      assert (counts + [count])[1..] == counts[1..] + [count];
      assert (granted + [g])[1..] == granted[1..] + [g];
      HandedOutOneMore(counts[1..], granted[1..], count, g);
    }
  }

  class BoundedSource {
    const source: DataSource
    const maxEpochs: int

    constructor (source: DataSource, maxEpochs: int)
      ensures this.source == source && this.maxEpochs == maxEpochs
    {
      this.source, this.maxEpochs := source, maxEpochs;
    }

    /** Refuses, touching nothing, exactly when the fetch would pass the limit. */
    method GetSamples(count: nat) returns (granted: bool)
      modifies source
      ensures granted <==> old(source.Position()) + count <= maxEpochs * source.size
      ensures granted ==> source.Position() == old(source.Position()) + count
      ensures !granted ==> source.epoch == old(source.epoch) && source.offset == old(source.offset)
      ensures !granted ==> source.Position() == old(source.Position())
    {
      var consumed := source.epoch * source.size + source.offset;
      if consumed + count > maxEpochs * source.size {
        return false;
      }
      source.GetSamples(count);
      return true;
    }

    /** A caller's whole history of fetches. */
    method FetchAll(counts: seq<nat>) returns (granted: seq<bool>)
      modifies source
      ensures granted == Granted(counts, old(source.Position()), maxEpochs * source.size)
      ensures |granted| == |counts|
      ensures source.Position() == old(source.Position()) + HandedOut(counts, granted)
    {
      hide DataSource.Position, Granted;
      granted := [];
      ghost var start, limit := source.Position(), maxEpochs * source.size;
      assert counts[0..] == counts;
      for i := 0 to |counts|
        invariant |granted| == i && limit == maxEpochs * source.size
        invariant Granted(counts, start, limit) == granted + Granted(counts[i..], source.Position(), limit)
        invariant source.Position() == start + HandedOut(counts[..i], granted)
      {
        ghost var at := source.Position();
        var g := GetSamples(counts[i]);
        StillGranted(counts, i, at, limit, granted, g);
        assert counts[..i+1] == counts[..i] + [counts[i]];
        HandedOutOneMore(counts[..i], granted, counts[i], g);
        granted := granted + [g];
      }
      assert counts[..|counts|] == counts && counts[|counts|..] == [];
      NoMoreGranted(source.Position(), limit);
    }
  }

  lemma {:induction false} GrantedLength(counts: seq<nat>, position: nat, limit: int)
    ensures |Granted(counts, position, limit)| == |counts|
  {
    if |counts| > 0 {
      GrantedLength(counts[1..], position, limit);
      GrantedLength(counts[1..], position + counts[0], limit);
    }
  }

  /** EPOCH BOUND. However a fresh source is asked, the rows handed out never exceed the limit. */
  lemma {:induction false} NeverBeyondLimit(counts: seq<nat>, position: nat, limit: nat)
    requires position <= limit
    ensures |Granted(counts, position, limit)| == |counts|
    ensures position + HandedOut(counts, Granted(counts, position, limit)) <= limit
  {
    GrantedLength(counts, position, limit);
    if |counts| > 0 {
      GrantedLength(counts[1..], position, limit);
      var next := if position + counts[0] > limit then position else position + counts[0];
      NeverBeyondLimit(counts[1..], next, limit);
      assert Granted(counts, position, limit)[1..] == Granted(counts[1..], next, limit);
    }
  }

  function Repeat(count: nat, times: nat): (r: seq<nat>)
    ensures |r| == times
  {
    seq(times, _ => count)
  }

  /** `times` fetches of `count` rows. */
  function RowsOf(count: nat, times: nat): nat {
    if times == 0 then 0 else count + RowsOf(count, times - 1)
  }

  lemma {:induction false} RowsOfIsProduct(count: nat, times: nat)
    ensures RowsOf(count, times) == times * count
  {
    if times > 0 {
      RowsOfIsProduct(count, times - 1);
    }
  }

  lemma {:induction false} EqualFetches(count: nat, times: nat, position: nat, limit: int)
    ensures |Granted(Repeat(count, times), position, limit)| == times
    ensures (false !in Granted(Repeat(count, times), position, limit)) <==>
      times == 0 || position + RowsOf(count, times) <= limit
    decreases times
  {
    if times > 0 {
      assert Repeat(count, times)[1..] == Repeat(count, times - 1);
      EqualFetches(count, times - 1, position, limit);
      EqualFetches(count, times - 1, position + count, limit);
    }
  }

  /** The start-up check is exact: training's equal-sized fetches from a fresh source all
      succeed if and only if the check passes. */
  lemma CheckIsExact(maxRetries: int, maxEpochs: int, numRollout: nat, batchSize: nat, size: nat)
    ensures CheckArguments(maxRetries, maxEpochs, numRollout, batchSize, size) == Ready <==>
      maxRetries >= 0 && maxEpochs >= 1 && false !in Granted(Repeat(batchSize, numRollout), 0, maxEpochs * size)
  {
    EqualFetches(batchSize, numRollout, 0, maxEpochs * size);
    RowsOfIsProduct(batchSize, numRollout);
    assert maxEpochs >= 1 ==> size * maxEpochs >= 0;
  }
}
