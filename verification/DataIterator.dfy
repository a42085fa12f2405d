/** The data-parallel side of one rank: its checks, its plan, and the counts that two MAX
    reductions make all ranks agree on. */
module DataIterator {
  import opened Wrappers
  import opened Rows
  import opened TokenBatching
  import opened Splitting
  import opened Widths

  datatype Settings = Settings(budget: int, multiple: int, globalBatch: int)

  datatype RolloutData = RolloutData(
    adapterSlots: bool, multimodal: bool,
    tokens: seq<seq<int>>, totalLengths: seq<int>, numRollouts: Option<seq<int>>)

  datatype LocalError =
    | MultipleAdapters | Multimodal | CountsDiffer | LengthDiffers
    | IndivisibleBatch | IncompleteBatch | BoundariesDiffer

  datatype Plan = Plan(schedule: seq<seq<nat>>, counts: seq<nat>, widths: seq<int>)

  datatype Outcome =
    | Rejected(reason: LocalError)    // raised before the first collective
    | OversizedSomewhere              // raised after the first reduction
    | Raised(error: ScheduleError)    // raised while planning
    | Scheduled(plan: Plan)

  // ---------------------------------------------------------------- local checks

  ghost predicate ValidSettings(settings: Settings, ranks: nat) {
    settings.budget > 0 && settings.multiple > 0 && settings.globalBatch > 0 && ranks > 0
  }

  function LocalBatch(settings: Settings, ranks: nat): nat
    requires settings.globalBatch > 0 && ranks > 0
  {
    settings.globalBatch / ranks
  }

  lemma LocalBatchIsPositive(settings: Settings, ranks: nat)
    requires settings.globalBatch > 0 && ranks > 0 && settings.globalBatch % ranks == 0
    ensures LocalBatch(settings, ranks) > 0
  {
    assert settings.globalBatch == LocalBatch(settings, ranks) * ranks + settings.globalBatch % ranks;
  }

  /** The checks a rank makes on its own shard before it joins any collective. */
  function LocalCheck(data: RolloutData, settings: Settings, ranks: nat): Option<LocalError>
    requires settings.globalBatch > 0 && ranks > 0
  {
    var lengths := data.totalLengths;
    if data.adapterSlots then Some(MultipleAdapters)
    else if data.multimodal then Some(Multimodal)
    else if |lengths| != |data.tokens| then Some(CountsDiffer)
    else if exists i :: 0 <= i < |lengths| && |data.tokens[i]| != lengths[i] then Some(LengthDiffers)
    else if settings.globalBatch % ranks != 0 then Some(IndivisibleBatch)
    else
      LocalBatchIsPositive(settings, ranks);
      var local := LocalBatch(settings, ranks);
      if |lengths| == 0 || |lengths| % local != 0 then Some(IncompleteBatch)
      else if data.numRollouts.Some? &&
              data.numRollouts.value != seq(|lengths| / local, _ => settings.globalBatch) then
        Some(BoundariesDiffer)
      else None
  }

  /** Where an optimizer step's rows start. */
  function Offset(step: nat, local: nat): nat {
    step * local
  }

  // ---------------------------------------------------------------- what the checks are for

  function Times(a: nat, b: nat): nat {
    a * b
  }

  /** The shard is `steps` complete global batches' worth of rows for one of `ranks` equal ranks. */
  ghost predicate HoldsSteps(rows: nat, globalBatch: int, ranks: nat, steps: nat) {
    steps > 0 && exists local: nat :: Times(local, ranks) == globalBatch && Times(steps, local) == rows
  }

  /** The defect a reason names, read off the shard. */
  ghost predicate HasDefect(e: LocalError, data: RolloutData, settings: Settings, ranks: nat) {
    var rows := |data.totalLengths|;
    match e
    case MultipleAdapters => data.adapterSlots
    case Multimodal => data.multimodal
    case CountsDiffer => |data.tokens| != rows
    case LengthDiffers => exists i :: 0 <= i < rows && i < |data.tokens| && |data.tokens[i]| != data.totalLengths[i]
    case IndivisibleBatch => !(exists local: nat :: Times(local, ranks) == settings.globalBatch)
    case IncompleteBatch => !(exists steps: nat :: HoldsSteps(rows, settings.globalBatch, ranks, steps))
    case BoundariesDiffer =>
      data.numRollouts.Some? && exists steps: nat ::
        HoldsSteps(rows, settings.globalBatch, ranks, steps) &&
        !(|data.numRollouts.value| == steps &&
          forall k :: 0 <= k < steps ==> data.numRollouts.value[k] == settings.globalBatch)
  }

  /** In the order of the checks. */
  function Earlier(e: LocalError): set<LocalError> {
    match e
    case MultipleAdapters => {}
    case Multimodal => {MultipleAdapters}
    case CountsDiffer => {MultipleAdapters, Multimodal}
    case LengthDiffers => {MultipleAdapters, Multimodal, CountsDiffer}
    case IndivisibleBatch => {MultipleAdapters, Multimodal, CountsDiffer, LengthDiffers}
    case IncompleteBatch => {MultipleAdapters, Multimodal, CountsDiffer, LengthDiffers, IndivisibleBatch}
    case BoundariesDiffer =>
      {MultipleAdapters, Multimodal, CountsDiffer, LengthDiffers, IndivisibleBatch, IncompleteBatch}
  }

  ghost predicate HasFirstDefect(e: LocalError, data: RolloutData, settings: Settings, ranks: nat) {
    HasDefect(e, data, settings, ranks) && forall d :: d in Earlier(e) ==> !HasDefect(d, data, settings, ranks)
  }

  /** One length for every row's tokens, no adapters or images, and complete global batches. */
  ghost predicate IsSound(data: RolloutData, settings: Settings, ranks: nat) {
    && !data.adapterSlots && !data.multimodal
    && |data.tokens| == |data.totalLengths|
    && (forall i :: 0 <= i < |data.tokens| ==> |data.tokens[i]| == data.totalLengths[i])
    && exists steps: nat ::
         && HoldsSteps(|data.totalLengths|, settings.globalBatch, ranks, steps)
         && (data.numRollouts.Some? ==>
              |data.numRollouts.value| == steps &&
              forall k :: 0 <= k < steps ==> data.numRollouts.value[k] == settings.globalBatch)
  }

  lemma QuotientIs(whole: nat, part: nat, times: nat)
    requires part > 0 && times * part == whole
    ensures whole / part == times && whole % part == 0
  {
    var q, rest := whole / part, whole % part;
    assert (times - q) * part == rest;
    MultipleBelow(times - q, 1, part);
    MultipleBelow(q - times, 1, part);
    assert times == q;
  }

  lemma DivisionIsExact(whole: nat, part: nat)
    requires part > 0 && whole % part == 0
    ensures Times(whole / part, part) == whole
  {
  }

  lemma SharesAreUnique(settings: Settings, ranks: nat)
    requires ValidSettings(settings, ranks)
    ensures (exists local: nat :: Times(local, ranks) == settings.globalBatch) <==> settings.globalBatch % ranks == 0
    ensures forall local: nat :: Times(local, ranks) == settings.globalBatch ==> local == LocalBatch(settings, ranks)
  {
    forall local: nat | Times(local, ranks) == settings.globalBatch
      ensures local == LocalBatch(settings, ranks) && settings.globalBatch % ranks == 0
    {
      QuotientIs(settings.globalBatch, ranks, local);
    }
    if settings.globalBatch % ranks == 0 {
      DivisionIsExact(settings.globalBatch, ranks);
    }
  }

  lemma StepsAreUnique(settings: Settings, ranks: nat, rows: nat)
    requires ValidSettings(settings, ranks) && settings.globalBatch % ranks == 0
    ensures LocalBatch(settings, ranks) > 0
    ensures forall steps: nat :: HoldsSteps(rows, settings.globalBatch, ranks, steps) <==>
      rows > 0 && rows % LocalBatch(settings, ranks) == 0 && steps == rows / LocalBatch(settings, ranks)
  {
    LocalBatchIsPositive(settings, ranks);
    SharesAreUnique(settings, ranks);
    var local := LocalBatch(settings, ranks);
    DivisionIsExact(settings.globalBatch, ranks);
    forall steps: nat | HoldsSteps(rows, settings.globalBatch, ranks, steps)
      ensures rows > 0 && rows % local == 0 && steps == rows / local
    {
      assert Times(steps, local) == rows;
      QuotientIs(rows, local, steps);
      if rows == 0 { MultipleBelow(0, steps, local); }
    }
    if rows > 0 && rows % local == 0 {
      DivisionIsExact(rows, local);
      assert rows / local > 0;
      assert HoldsSteps(rows, settings.globalBatch, ranks, rows / local);
    }
  }

  lemma BatchDefects(data: RolloutData, settings: Settings, ranks: nat)
    requires ValidSettings(settings, ranks)
    ensures HasDefect(IndivisibleBatch, data, settings, ranks) <==> settings.globalBatch % ranks != 0
    ensures settings.globalBatch % ranks == 0 ==>
      var rows, local := |data.totalLengths|, LocalBatch(settings, ranks);
      && local > 0
      && (HasDefect(IncompleteBatch, data, settings, ranks) <==> rows == 0 || rows % local != 0)
      && (rows > 0 && rows % local == 0 ==>
           (HasDefect(BoundariesDiffer, data, settings, ranks) <==>
             data.numRollouts.Some? && data.numRollouts.value != seq(rows / local, _ => settings.globalBatch)))
  {
    SharesAreUnique(settings, ranks);
    if settings.globalBatch % ranks == 0 {
      StepsAreUnique(settings, ranks, |data.totalLengths|);
      var rows, local := |data.totalLengths|, LocalBatch(settings, ranks);
      assert rows > 0 && rows % local == 0 ==> HoldsSteps(rows, settings.globalBatch, ranks, rows / local);
      hide HoldsSteps;
      if data.numRollouts.Some? {
        var steps := rows / local;
        var given, expected := data.numRollouts.value, seq(steps, _ => settings.globalBatch);
        assert given == expected <==>
          |given| == steps && forall k :: 0 <= k < steps ==> given[k] == settings.globalBatch;
      }
    }
  }

  lemma SoundMeansNoDefect(data: RolloutData, settings: Settings, ranks: nat)
    requires ValidSettings(settings, ranks)
    ensures IsSound(data, settings, ranks) <==> forall d :: !HasDefect(d, data, settings, ranks)
  {
    SharesAreUnique(settings, ranks);
    if settings.globalBatch % ranks == 0 {
      StepsAreUnique(settings, ranks, |data.totalLengths|);
    }
    if forall d :: !HasDefect(d, data, settings, ranks) {
      assert !HasDefect(MultipleAdapters, data, settings, ranks) && !HasDefect(Multimodal, data, settings, ranks);
      assert !HasDefect(CountsDiffer, data, settings, ranks) && !HasDefect(LengthDiffers, data, settings, ranks);
      assert !HasDefect(IncompleteBatch, data, settings, ranks) && !HasDefect(BoundariesDiffer, data, settings, ranks);
      hide HoldsSteps;
    }
    if IsSound(data, settings, ranks) {
      forall d ensures !HasDefect(d, data, settings, ranks) {
        match d
        case IndivisibleBatch =>
        case _ => hide Times;
      }
    }
  }

  lemma FirstDefectIsUnique(d: LocalError, e: LocalError, data: RolloutData, settings: Settings, ranks: nat)
    requires HasFirstDefect(d, data, settings, ranks) && HasFirstDefect(e, data, settings, ranks)
    ensures d == e
  {
    hide HasDefect;
    assert d == e || d in Earlier(e) || e in Earlier(d);
  }

  /** The checks raise nothing exactly on sound shards, and otherwise name the first defect. */
  lemma LocalCheckIsExact(data: RolloutData, settings: Settings, ranks: nat)
    requires ValidSettings(settings, ranks)
    ensures LocalCheck(data, settings, ranks) == None <==> IsSound(data, settings, ranks)
    ensures forall e :: LocalCheck(data, settings, ranks) == Some(e) <==> HasFirstDefect(e, data, settings, ranks)
  {
    BatchDefects(data, settings, ranks);
    SoundMeansNoDefect(data, settings, ranks);
    var check := LocalCheck(data, settings, ranks);
    hide IsSound, HoldsSteps, Times;
    if check.Some? {
      assert HasFirstDefect(check.value, data, settings, ranks);
      hide LocalCheck, HasDefect;
      forall e | HasFirstDefect(e, data, settings, ranks) ensures e == check.value {
        FirstDefectIsUnique(e, check.value, data, settings, ranks);
      }
    } else {
      forall d ensures !HasDefect(d, data, settings, ranks) {
      }
    }
  }

  /** A shard has at most one first defect, and a sound one none. */
  lemma DefectsDecide(data: RolloutData, settings: Settings, ranks: nat)
    requires ValidSettings(settings, ranks)
    ensures IsSound(data, settings, ranks) ==> forall e :: !HasFirstDefect(e, data, settings, ranks)
    ensures forall d, e ::
      HasFirstDefect(d, data, settings, ranks) && HasFirstDefect(e, data, settings, ranks) ==> d == e
  {
    LocalCheckIsExact(data, settings, ranks);
    hide IsSound, HasFirstDefect, LocalCheck;
  }

  lemma SoundShardHoldsSteps(data: RolloutData, settings: Settings, ranks: nat)
    requires ValidSettings(settings, ranks) && IsSound(data, settings, ranks)
    ensures var local := LocalBatch(settings, ranks);
            local > 0 && |data.totalLengths| > 0 &&
            |data.totalLengths| == Offset(|data.totalLengths| / local, local)
  {
    SharesAreUnique(settings, ranks);
    StepsAreUnique(settings, ranks, |data.totalLengths|);
    DivisionIsExact(|data.totalLengths|, LocalBatch(settings, ranks));
    hide HoldsSteps;
  }

  // ---------------------------------------------------------------- optimizer steps

  lemma NextOffset(step: nat, local: nat)
    ensures Offset(step + 1, local) == Offset(step, local) + local
    ensures Offset(0, local) == 0
  {
  }

  lemma {:induction false} OffsetsIncrease(a: nat, b: nat, local: nat)
    requires a <= b
    ensures Offset(a, local) <= Offset(b, local)
    ensures a < b ==> Offset(a, local) + local <= Offset(b, local)
    decreases b
  {
    if a < b {
      hide Offset;
      OffsetsIncrease(a, b - 1, local);
      NextOffset(b - 1, local);
    }
  }

  /** The rows of one optimizer step. */
  function StepRows(lengths: seq<int>, local: nat, step: nat): (r: seq<int>)
    requires Offset(step, local) + local <= |lengths|
    ensures |r| == local
  {
    lengths[Offset(step, local)..Offset(step, local) + local]
  }

  /** `steps[s]` is the greedy schedule of step `s`, for every step of the shard. */
  ghost predicate GreedySteps(lengths: seq<int>, local: nat, settings: Settings, steps: seq<seq<seq<nat>>>)
    requires settings.multiple > 0
  {
    && |lengths| == Offset(|steps|, local)
    && (forall s :: 0 <= s < |steps| ==>
         Offset(s, local) + local <= |lengths| &&
         Greedy(StepRows(lengths, local, s), settings.budget, settings.multiple, steps[s]))
  }

  lemma StepsAreAccepted(lengths: seq<int>, start: nat, local: nat, settings: Settings)
    requires settings.multiple > 0 && start + local <= |lengths|
    ensures RowsAccepted(lengths[..start + local], settings.budget, settings.multiple) <==>
      RowsAccepted(lengths[..start], settings.budget, settings.multiple) &&
      RowsAccepted(lengths[start..start + local], settings.budget, settings.multiple)
  {
    hide PaddedLength;
    var all, step := lengths[..start + local], lengths[start..start + local];
    assert forall i :: 0 <= i < |step| ==> step[i] == all[start + i];
    assert forall i :: start <= i < |all| ==> all[i] == step[i - start];
    assert forall i :: 0 <= i < start ==> all[i] == lengths[..start][i];
  }

  lemma NoRowsAccepted(settings: Settings)
    requires settings.multiple > 0
    ensures RowsAccepted([], settings.budget, settings.multiple)
  {
  }

  lemma RowsAcceptedBelow(lengths: seq<int>, n: nat, settings: Settings)
    requires settings.multiple > 0 && n <= |lengths|
    ensures RowsAccepted(lengths, settings.budget, settings.multiple) ==>
      RowsAccepted(lengths[..n], settings.budget, settings.multiple)
  {
    hide PaddedLength;
    assert forall i :: 0 <= i < n ==> lengths[..n][i] == lengths[i];
  }

  /** Plans step by step, and raises exactly when the shard has a row no batch can hold. */
  method PlanSteps(lengths: seq<int>, local: nat, settings: Settings) returns (r: Result<seq<seq<seq<nat>>>>)
    requires settings.budget > 0 && settings.multiple > 0 && local > 0
    requires exists steps: nat :: |lengths| == Offset(steps, local)
    ensures r.Ok? <==> RowsAccepted(lengths, settings.budget, settings.multiple)
    ensures r.Ok? ==> GreedySteps(lengths, local, settings, r.value)
  {
    hide PaddedLength, Offset, Greedy, RowsAccepted;
    ghost var count: nat :| |lengths| == Offset(count, local);
    var steps: seq<seq<seq<nat>>>, start := [], 0;
    NextOffset(0, local);
    assert RowsAccepted(lengths[..0], settings.budget, settings.multiple) by {
      NoRowsAccepted(settings);
      assert lengths[..0] == [];
    }
    while start < |lengths|
      invariant start == Offset(|steps|, local)
      invariant |steps| <= count
      invariant start <= |lengths| && RowsAccepted(lengths[..start], settings.budget, settings.multiple)
      invariant forall s :: 0 <= s < |steps| ==> Offset(s, local) + local <= |lengths|
      invariant forall s :: 0 <= s < |steps| ==>
          Greedy(StepRows(lengths, local, s), settings.budget, settings.multiple, steps[s])
      decreases |lengths| - start
    {
      if |steps| == count { assert false; }
      OffsetsIncrease(|steps|, count, local);
      StepsAreAccepted(lengths, start, local, settings);
      var step := MakeBatches(lengths[start..start + local], settings.budget, settings.multiple);
      if step.Err? {
        RowsAcceptedBelow(lengths, start + local, settings);
        return Err(step.error);
      }
      NextOffset(|steps|, local);
      steps := steps + [step.value];
      start := start + local;
    }
    OffsetsIncrease(|steps|, count, local);
    assert lengths[..start] == lengths;
    return Ok(steps);
  }

  // ---------------------------------------------------------------- collectives

  /** MAX all-reduce of one count vector per rank. */
  function PointwiseMax(vectors: seq<seq<nat>>): (r: seq<nat>)
    requires |vectors| > 0 && forall v :: 0 <= v < |vectors| ==> |vectors[v]| == |vectors[0]|
    ensures |r| == |vectors[0]|
    ensures forall s, v :: 0 <= s < |r| && 0 <= v < |vectors| ==> vectors[v][s] <= r[s]
    ensures forall s :: 0 <= s < |r| ==> exists v :: 0 <= v < |vectors| && vectors[v][s] == r[s]
  {
    if |vectors| == 1 then
      assert forall s :: 0 <= s < |vectors[0]| ==> vectors[0][s] == vectors[0][s];
      vectors[0]
    else
      assert forall v :: 0 <= v < |vectors[1..]| ==> vectors[1..][v] == vectors[v+1];
      var rest := PointwiseMax(vectors[1..]);
      var r := seq(|rest|, s requires 0 <= s < |rest| =>
        if vectors[0][s] >= rest[s] then vectors[0][s] else rest[s]);
      assert forall s :: 0 <= s < |r| ==> exists v :: 0 <= v < |vectors| && vectors[v][s] == r[s] by {
        forall s | 0 <= s < |r| ensures exists v :: 0 <= v < |vectors| && vectors[v][s] == r[s] {
          var v :| 0 <= v < |vectors[1..]| && vectors[1..][v][s] == rest[s];
          assert vectors[v+1][s] == rest[s];
          assert vectors[0][s] == vectors[0][s];
        }
      }
      r
  }

  // ---------------------------------------------------------------- one rank's schedule

  function ShiftBatch(batch: seq<nat>, start: nat): (r: seq<nat>)
    ensures |r| == |batch| && forall k :: 0 <= k < |r| ==> r[k] == start + batch[k]
  {
    seq(|batch|, k requires 0 <= k < |batch| => start + batch[k])
  }

  /** A step's batches with row numbers of the whole shard. */
  function Shift(batches: seq<seq<nat>>, start: nat): (r: seq<seq<nat>>)
    ensures |r| == |batches|
  {
    seq(|batches|, b requires 0 <= b < |batches| => ShiftBatch(batches[b], start))
  }

  lemma {:induction false} FlattenShift(batches: seq<seq<nat>>, start: nat)
    ensures Flatten(Shift(batches, start)) == ShiftBatch(Flatten(batches), start)
  {
    if |batches| > 0 {
      assert Shift(batches, start)[1..] == Shift(batches[1..], start);
      FlattenShift(batches[1..], start);
    }
  }

  ghost predicate Splittable(steps: seq<seq<seq<nat>>>, counts: seq<nat>) {
    |steps| == |counts| && forall s :: 0 <= s < |steps| ==> |steps[s]| <= counts[s] <= |Flatten(steps[s])|
  }

  /** Step `s` of the schedule: the greedy batches split to the common count, renumbered. */
  function Block(steps: seq<seq<seq<nat>>>, counts: seq<nat>, local: nat, s: nat): seq<seq<nat>>
    requires s < |steps| == |counts| && |steps[s]| <= counts[s] <= |Flatten(steps[s])|
  {
    Shift(SplitTo(steps[s], counts[s]), Offset(s, local))
  }

  function ScheduleOf(steps: seq<seq<seq<nat>>>, counts: seq<nat>, local: nat, upto: nat): seq<seq<nat>>
    requires Splittable(steps, counts) && upto <= |steps|
  {
    if upto == 0 then [] else ScheduleOf(steps, counts, local, upto - 1) + Block(steps, counts, local, upto - 1)
  }

  function Total(counts: seq<nat>, upto: nat): nat
    requires upto <= |counts|
  {
    if upto == 0 then 0 else Total(counts, upto - 1) + counts[upto - 1]
  }

  /** `rows` lists each of start, ..., start + n - 1 exactly once. */
  ghost predicate Window(rows: seq<nat>, start: nat, n: nat) {
    |rows| == n && Distinct(rows) && forall k :: 0 <= k < |rows| ==> start <= rows[k] < start + n
  }

  lemma AppendWindow(a: seq<nat>, b: seq<nat>, start: nat, n: nat)
    requires Permutation(a, start) && Window(b, start, n)
    ensures Permutation(a + b, start + n)
  {
  }

  lemma ShiftPermutation(s: seq<nat>, n: nat, start: nat)
    requires Permutation(s, n)
    ensures Window(ShiftBatch(s, start), start, n)
  {
  }

  lemma SameLongest(here: seq<int>, there: seq<int>, batch: seq<nat>, renamed: seq<nat>)
    requires |batch| == |renamed| > 0 && InRange(batch, |here|) && InRange(renamed, |there|)
    requires forall k :: 0 <= k < |batch| ==> here[batch[k]] == there[renamed[k]]
    ensures Longest(here, batch) == Longest(there, renamed)
  {
    var k :| 0 <= k < |batch| && here[batch[k]] == Longest(here, batch);
    var j :| 0 <= j < |renamed| && there[renamed[j]] == Longest(there, renamed);
  }

  lemma ShiftFits(lengths: seq<int>, budget: int, multiple: int, start: nat, n: nat, batch: seq<nat>)
    requires multiple > 0 && start + n <= |lengths|
    requires Fits(lengths[start..start+n], budget, multiple, batch)
    ensures Fits(lengths, budget, multiple, ShiftBatch(batch, start))
  {
    hide PaddedLength, Cost;
    SameLongest(lengths[start..start+n], lengths, batch, ShiftBatch(batch, start));
  }

  /** A block splits its step's rows into `counts[s]` microbatches that all fit. */
  lemma BlockIsGood(lengths: seq<int>, local: nat, settings: Settings,
                    steps: seq<seq<seq<nat>>>, counts: seq<nat>, s: nat)
    requires settings.multiple > 0 && RowsAccepted(lengths, settings.budget, settings.multiple)
    requires GreedySteps(lengths, local, settings, steps) && Splittable(steps, counts) && s < |steps|
    ensures |Block(steps, counts, local, s)| == counts[s]
    ensures Window(Flatten(Block(steps, counts, local, s)), Offset(s, local), local)
    ensures AllFit(lengths, settings.budget, settings.multiple, Block(steps, counts, local, s))
  {
    hide PaddedLength, Offset, SplitTo, Flatten, SortedOrder, Cost, BatchWidth;
    var part, start := StepRows(lengths, local, s), Offset(s, local);
    assert Greedy(part, settings.budget, settings.multiple, steps[s]);
    assert forall i :: 0 <= i < |part| ==> part[i] == lengths[start + i] > 0;
    SplitIsCorrect(steps[s], counts[s]);
    SplitStaysFeasible(part, settings.budget, settings.multiple, steps[s], counts[s]);
    var split := SplitTo(steps[s], counts[s]);
    FlattenShift(split, start);
    ShiftPermutation(Flatten(split), local, start);
    forall b | 0 <= b < |split|
      ensures Fits(lengths, settings.budget, settings.multiple, Block(steps, counts, local, s)[b])
    {
      assert Fits(part, settings.budget, settings.multiple, split[b]);
      ShiftFits(lengths, settings.budget, settings.multiple, start, local, split[b]);
    }
  }

  lemma {:induction false} ScheduleIsGood(lengths: seq<int>, local: nat, settings: Settings,
                                         steps: seq<seq<seq<nat>>>, counts: seq<nat>, upto: nat)
    requires settings.multiple > 0 && RowsAccepted(lengths, settings.budget, settings.multiple)
    requires GreedySteps(lengths, local, settings, steps) && Splittable(steps, counts) && upto <= |steps|
    ensures |ScheduleOf(steps, counts, local, upto)| == Total(counts, upto)
    ensures Permutation(Flatten(ScheduleOf(steps, counts, local, upto)), Offset(upto, local))
    ensures AllFit(lengths, settings.budget, settings.multiple, ScheduleOf(steps, counts, local, upto))
  {
    hide Offset, Fits, Block, GreedySteps, RowsAccepted, SplitTo;
    NextOffset(0, local);
    if upto > 0 {
      NextOffset(upto - 1, local);
      ScheduleIsGood(lengths, local, settings, steps, counts, upto - 1);
      BlockIsGood(lengths, local, settings, steps, counts, upto - 1);
      var before, block := ScheduleOf(steps, counts, local, upto - 1), Block(steps, counts, local, upto - 1);
      FlattenConcat(before, block);
      AppendWindow(Flatten(before), Flatten(block), Offset(upto - 1, local), local);
    }
  }

  lemma {:induction false} ScheduleLength(steps: seq<seq<seq<nat>>>, counts: seq<nat>, local: nat, upto: nat)
    requires Splittable(steps, counts) && upto <= |steps|
    ensures |ScheduleOf(steps, counts, local, upto)| == Total(counts, upto)
  {
    if upto > 0 {
      ScheduleLength(steps, counts, local, upto - 1);
      SplitIsCorrect(steps[upto - 1], counts[upto - 1]);
    }
  }

  /** Block `s` sits at its place in the schedule. */
  lemma {:induction false} BlockInPlace(steps: seq<seq<seq<nat>>>, counts: seq<nat>, local: nat, upto: nat, s: nat)
    requires Splittable(steps, counts) && s < upto <= |steps|
    ensures Total(counts, s + 1) <= |ScheduleOf(steps, counts, local, upto)| == Total(counts, upto)
    ensures ScheduleOf(steps, counts, local, upto)[Total(counts, s)..Total(counts, s + 1)]
         == Block(steps, counts, local, s)
    decreases upto
  {
    hide Offset, SplitTo;
    SplitIsCorrect(steps[upto - 1], counts[upto - 1]);
    ScheduleLength(steps, counts, local, upto - 1);
    hide Block, Flatten;
    if s < upto - 1 {
      BlockInPlace(steps, counts, local, upto - 1, s);
    }
  }

  /** The `s`-th block of `counts[s]` microbatches runs exactly the rows of step `s`. */
  ghost predicate StepHoldsItsRows(plan: Plan, local: nat, s: nat)
    requires s < |plan.counts|
  {
    var from, to := Total(plan.counts, s), Total(plan.counts, s + 1);
    to <= |plan.schedule| && Window(Flatten(plan.schedule[from..to]), Offset(s, local), local)
  }

  /** Every row carries the width of its own microbatch, and rows times width fit the budget. */
  ghost predicate WithinBudget(lengths: seq<int>, settings: Settings, widths: seq<int>, batch: seq<nat>)
    requires settings.multiple > 0
  {
    && |batch| > 0 && InRange(batch, |lengths|) && |widths| == |lengths|
    && (forall k :: 0 <= k < |batch| ==> widths[batch[k]] == BatchWidth(lengths, settings.multiple, batch))
    && (forall k :: 0 <= k < |batch| ==> lengths[batch[k]] <= widths[batch[k]])
    && Cost(|batch|, widths[batch[0]]) <= settings.budget
  }

  /** What a rank hands to training: the rows partitioned into microbatches within budget at
      the width recorded for their rows, step by step, with the agreed number in each step. */
  ghost predicate GoodPlan(lengths: seq<int>, local: nat, settings: Settings, plan: Plan)
    requires settings.multiple > 0
  {
    && Partitions(plan.schedule, |lengths|)
    && |lengths| == Offset(|plan.counts|, local)
    && |plan.widths| == |lengths|
    && |plan.schedule| == Total(plan.counts, |plan.counts|)
    && (forall s :: 0 <= s < |plan.counts| ==> StepHoldsItsRows(plan, local, s))
    && (forall b :: 0 <= b < |plan.schedule| ==> WithinBudget(lengths, settings, plan.widths, plan.schedule[b]))
  }

  lemma RowsFitTheirWidth(lengths: seq<int>, multiple: int, batch: seq<nat>)
    requires multiple > 0 && |batch| > 0 && InRange(batch, |lengths|)
    ensures forall k :: 0 <= k < |batch| ==> lengths[batch[k]] <= BatchWidth(lengths, multiple, batch)
  {
  }

  lemma ScheduleMeets(lengths: seq<int>, local: nat, settings: Settings, steps: seq<seq<seq<nat>>>, counts: seq<nat>)
    requires settings.multiple > 0 && RowsAccepted(lengths, settings.budget, settings.multiple)
    requires GreedySteps(lengths, local, settings, steps) && Splittable(steps, counts)
    ensures Partitions(ScheduleOf(steps, counts, local, |steps|), |lengths|)
    ensures AllFit(lengths, settings.budget, settings.multiple, ScheduleOf(steps, counts, local, |steps|))
    ensures Positive(lengths)
  {
    hide PaddedLength, Offset, ScheduleOf, BatchWidth, Cost;
    ScheduleIsGood(lengths, local, settings, steps, counts, |steps|);
    var schedule := ScheduleOf(steps, counts, local, |steps|);
    forall b | 0 <= b < |schedule| ensures |schedule[b]| > 0 {
      assert Fits(lengths, settings.budget, settings.multiple, schedule[b]);
    }
  }

  lemma FitMeansWithin(lengths: seq<int>, settings: Settings, widths: seq<int>, batch: seq<nat>)
    requires settings.multiple > 0 && |widths| == |lengths|
    requires Fits(lengths, settings.budget, settings.multiple, batch)
    requires forall k :: 0 <= k < |batch| ==> widths[batch[k]] == BatchWidth(lengths, settings.multiple, batch)
    ensures WithinBudget(lengths, settings, widths, batch)
  {
    hide BatchWidth, Cost;
    RowsFitTheirWidth(lengths, settings.multiple, batch);
  }

  lemma StepInPlace(lengths: seq<int>, local: nat, settings: Settings, steps: seq<seq<seq<nat>>>, plan: Plan, s: nat)
    requires settings.multiple > 0 && RowsAccepted(lengths, settings.budget, settings.multiple)
    requires GreedySteps(lengths, local, settings, steps) && Splittable(steps, plan.counts)
    requires plan.schedule == ScheduleOf(steps, plan.counts, local, |steps|) && s < |steps|
    ensures StepHoldsItsRows(plan, local, s)
  {
    hide PaddedLength, Offset, ScheduleOf, RowsAccepted, GreedySteps, Flatten, Block, Window, Total;
    BlockInPlace(steps, plan.counts, local, |steps|, s);
    BlockIsGood(lengths, local, settings, steps, plan.counts, s);
  }

  lemma PlanMeets(lengths: seq<int>, local: nat, settings: Settings, steps: seq<seq<seq<nat>>>, plan: Plan)
    requires settings.multiple > 0 && RowsAccepted(lengths, settings.budget, settings.multiple)
    requires GreedySteps(lengths, local, settings, steps) && Splittable(steps, plan.counts)
    requires plan.schedule == ScheduleOf(steps, plan.counts, local, |steps|)
    requires Partitions(plan.schedule, |lengths|) && |plan.widths| == |lengths|
    requires forall b :: 0 <= b < |plan.schedule| ==> WithinBudget(lengths, settings, plan.widths, plan.schedule[b])
    ensures GoodPlan(lengths, local, settings, plan)
  {
    hide PaddedLength, Offset, ScheduleOf, WithinBudget, Partitions, RowsAccepted, StepHoldsItsRows;
    assert |steps| == |plan.counts| && |lengths| == Offset(|steps|, local);
    hide Splittable;
    ScheduleLength(steps, plan.counts, local, |steps|);
    forall s | 0 <= s < |plan.counts| ensures StepHoldsItsRows(plan, local, s) {
      StepInPlace(lengths, local, settings, steps, plan, s);
    }
  }

  /** The part of planning after the second reduction: split, concatenate, rebuild widths,
      check the budget once more. With counts every rank can split to, no check fires. */
  method PlanRank(lengths: seq<int>, local: nat, settings: Settings, steps: seq<seq<seq<nat>>>, counts: seq<nat>)
    returns (r: Result<Plan>)
    requires settings.multiple > 0 && |steps| == |counts|
    requires RowsAccepted(lengths, settings.budget, settings.multiple) && GreedySteps(lengths, local, settings, steps)
    ensures r.Ok? <==> Splittable(steps, counts)
    ensures r.Err? ==> r.error == BadSplitCount
    ensures r.Ok? ==> r.value.counts == counts && r.value.schedule == ScheduleOf(steps, counts, local, |steps|)
    ensures r.Ok? ==> GoodPlan(lengths, local, settings, r.value)
  {
    hide PaddedLength, Offset, SplitTo, Flatten, BatchWidth, Fits, GreedySteps, Cost,
      RowsAccepted, Partitions, GoodPlan;
    var schedule: seq<seq<nat>> := [];
    var s := 0;
    while s < |steps|
      invariant 0 <= s <= |steps|
      invariant Splittable(steps[..s], counts[..s])
      invariant Splittable(steps, counts) ==> schedule == ScheduleOf(steps, counts, local, s)
    {
      var split := SplitToCount(steps[s], counts[s]);
      if split.Err? {
        return Err(split.error);
      }
      assert steps[..s+1] == steps[..s] + [steps[s]] && counts[..s+1] == counts[..s] + [counts[s]];
      schedule := schedule + Shift(split.value, Offset(s, local));
      s := s + 1;
    }
    assert steps[..s] == steps && counts[..s] == counts;
    ScheduleMeets(lengths, local, settings, steps, counts);
    var widths := BatchWidths(lengths, schedule, settings.multiple);
    if widths.Err? {
      assert false;  // the schedule repeats and omits nothing
    }
    forall b | 0 <= b < |schedule| ensures WithinBudget(lengths, settings, widths.value, schedule[b]) {
      assert Fits(lengths, settings.budget, settings.multiple, schedule[b]);
      FitMeansWithin(lengths, settings, widths.value, schedule[b]);
    }
    if exists b :: 0 <= b < |schedule| && Cost(|schedule[b]|, widths.value[schedule[b][0]]) > settings.budget {
      return Err(OverBudget);
    }
    var plan := Plan(schedule, counts, widths.value);
    PlanMeets(lengths, local, settings, steps, plan);
    return Ok(plan);
  }

  // ---------------------------------------------------------------- all ranks together

  ghost predicate AllSound(shards: seq<RolloutData>, settings: Settings) {
    forall r :: 0 <= r < |shards| ==> IsSound(shards[r], settings, |shards|)
  }

  ghost predicate SameRowCount(shards: seq<RolloutData>) {
    forall r :: 0 <= r < |shards| ==> |shards[r].totalLengths| == |shards[0].totalLengths|
  }

  /** A row that no microbatch of its shard could hold. */
  predicate HasBadRow(lengths: seq<int>, settings: Settings)
    requires settings.multiple > 0
  {
    exists i :: 0 <= i < |lengths| && (lengths[i] <= 0 || PaddedLength(lengths[i], settings.multiple) > settings.budget)
  }

  /** Every rank has some feasible schedule of step `s` in exactly `count` microbatches. */
  ghost predicate AllRanksCanRun(shards: seq<RolloutData>, local: nat, settings: Settings, s: nat, count: nat)
    requires settings.multiple > 0
  {
    forall r :: 0 <= r < |shards| ==>
      Offset(s, local) + local <= |shards[r].totalLengths| &&
      HasSchedule(StepRows(shards[r].totalLengths, local, s), settings.budget, settings.multiple, count)
  }

  /** `count` is the least number of microbatches that suits every rank (`local` is the largest). */
  ghost predicate LeastCommonCount(shards: seq<RolloutData>, local: nat, settings: Settings, s: nat, count: nat)
    requires settings.multiple > 0
  {
    count <= local && forall c: nat :: AllRanksCanRun(shards, local, settings, s, c) <==> count <= c <= local
  }

  ghost predicate PlannedWith(lengths: seq<int>, local: nat, settings: Settings, counts: seq<nat>, outcome: Outcome)
    requires settings.multiple > 0
  {
    outcome.Scheduled? && outcome.plan.counts == counts && GoodPlan(lengths, local, settings, outcome.plan)
  }

  function CountsOf(steps: seq<seq<seq<nat>>>): (r: seq<nat>)
    ensures |r| == |steps| && forall s :: 0 <= s < |r| ==> r[s] == |steps[s]|
  {
    seq(|steps|, s requires 0 <= s < |steps| => |steps[s]|)
  }

  ghost predicate AllGreedy(shards: seq<RolloutData>, local: nat, settings: Settings, all: seq<seq<seq<seq<nat>>>>)
    requires settings.multiple > 0
  {
    |all| <= |shards| && forall r :: 0 <= r < |all| ==> GreedySteps(shards[r].totalLengths, local, settings, all[r])
  }

  ghost predicate AllAccepted(shards: seq<RolloutData>, settings: Settings)
    requires settings.multiple > 0
  {
    forall r :: 0 <= r < |shards| ==> RowsAccepted(shards[r].totalLengths, settings.budget, settings.multiple)
  }

  lemma RankCounts(lengths: seq<int>, local: nat, settings: Settings, steps: seq<seq<seq<nat>>>, s: nat)
    requires settings.multiple > 0 && RowsAccepted(lengths, settings.budget, settings.multiple)
    requires GreedySteps(lengths, local, settings, steps) && s < |steps|
    ensures Offset(s, local) + local <= |lengths|
    ensures |Flatten(steps[s])| == local && |steps[s]| <= local
    ensures forall c: nat ::
      HasSchedule(StepRows(lengths, local, s), settings.budget, settings.multiple, c) <==> |steps[s]| <= c <= local
  {
    hide PaddedLength, Offset, Flatten, SortedOrder, HasSchedule, Full;
    var part := StepRows(lengths, local, s);
    assert Greedy(part, settings.budget, settings.multiple, steps[s]);
    assert forall i :: 0 <= i < |part| ==> part[i] == lengths[Offset(s, local) + i];
    forall c: nat ensures HasSchedule(part, settings.budget, settings.multiple, c) <==> |steps[s]| <= c <= local {
      PossibleCounts(part, settings.budget, settings.multiple, steps[s], c);
    }
    assert forall b :: 0 <= b < |steps[s]| ==> Fits(part, settings.budget, settings.multiple, steps[s][b]);
    NonemptyBatchesAreFew(steps[s]);
  }

  /** The reduced count of a step is between what each rank needs at least and its row count;
      so every rank can split to it, and no smaller count suits all of them. */
  lemma ReducedCount(shards: seq<RolloutData>, local: nat, settings: Settings,
                     all: seq<seq<seq<seq<nat>>>>, counts: seq<nat>, s: nat)
    requires settings.multiple > 0 && |all| == |shards| > 0
    requires AllAccepted(shards, settings) && AllGreedy(shards, local, settings, all)
    requires forall r :: 0 <= r < |all| ==> |all[r]| == |counts|
    requires counts == PointwiseMax(seq(|all|, r requires 0 <= r < |all| => CountsOf(all[r])))
    requires s < |counts|
    ensures forall r :: 0 <= r < |all| ==> |all[r][s]| <= counts[s] <= |Flatten(all[r][s])|
    ensures LeastCommonCount(shards, local, settings, s, counts[s])
  {
    hide PaddedLength, Offset, Flatten, SortedOrder, PointwiseMax, HasSchedule, AllFit, Full;
    var vectors := seq(|all|, r requires 0 <= r < |all| => CountsOf(all[r]));
    forall r | 0 <= r < |all|
      ensures |all[r][s]| <= counts[s]
      ensures Offset(s, local) + local <= |shards[r].totalLengths|
      ensures |Flatten(all[r][s])| == local && |all[r][s]| <= local
      ensures forall c: nat ::
        HasSchedule(StepRows(shards[r].totalLengths, local, s), settings.budget, settings.multiple, c)
        <==> |all[r][s]| <= c <= local
    {
      assert vectors[r][s] <= counts[s];
      assert GreedySteps(shards[r].totalLengths, local, settings, all[r]);
      RankCounts(shards[r].totalLengths, local, settings, all[r], s);
    }
    var most :| 0 <= most < |vectors| && vectors[most][s] == counts[s];
    assert |all[most][s]| == counts[s];
  }

  lemma ReducedCounts(shards: seq<RolloutData>, local: nat, settings: Settings,
                      all: seq<seq<seq<seq<nat>>>>, counts: seq<nat>)
    requires settings.multiple > 0 && |all| == |shards| > 0
    requires AllAccepted(shards, settings) && AllGreedy(shards, local, settings, all)
    requires forall r :: 0 <= r < |all| ==> |all[r]| == |counts|
    requires counts == PointwiseMax(seq(|all|, r requires 0 <= r < |all| => CountsOf(all[r])))
    ensures forall r :: 0 <= r < |all| ==> Splittable(all[r], counts)
    ensures forall s :: 0 <= s < |counts| ==> LeastCommonCount(shards, local, settings, s, counts[s])
  {
    hide LeastCommonCount, AllAccepted, AllGreedy, PointwiseMax, Flatten;
    forall s | 0 <= s < |counts|
      ensures LeastCommonCount(shards, local, settings, s, counts[s])
    {
      ReducedCount(shards, local, settings, all, counts, s);
    }
    forall r, s | 0 <= r < |all| && 0 <= s < |counts|
      ensures |all[r][s]| <= counts[s] <= |Flatten(all[r][s])|
    {
      ReducedCount(shards, local, settings, all, counts, s);
    }
  }

  lemma StepCountFromRows(a: nat, b: nat, local: nat)
    requires local > 0 && Offset(a, local) == Offset(b, local)
    ensures a == b
  {
    hide Offset;
    if a < b { OffsetsIncrease(a, b, local); }
    if b < a { OffsetsIncrease(b, a, local); }
  }

  lemma BadRowMeansNotAccepted(lengths: seq<int>, settings: Settings)
    requires settings.multiple > 0
    ensures HasBadRow(lengths, settings) <==> !RowsAccepted(lengths, settings.budget, settings.multiple)
  {
    hide PaddedLength;
  }
}
