/** A data-parallel group: every rank runs the script of `get_data_iterator` on its own shard, in
    any order, and meets the others in two MAX reductions. */
module Ranks {
  import opened Wrappers
  import opened Rows
  import opened TokenBatching
  import opened DataIterator

  // ---------------------------------------------------------------- one rank's script

  /** How far a rank is. In a reduction it waits until every rank has joined the same one. */
  datatype Stage =
    | Starting
    | InFlags(bad: bool)
    | Flagged(bad: bool)
    | InCounts(steps: seq<seq<seq<nat>>>)
    | Counted(steps: seq<seq<seq<nat>>>, counts: seq<nat>)
    | Ended(outcome: Outcome)

  predicate IsRunnable(stage: Stage) {
    stage.Starting? || stage.Flagged? || stage.Counted?
  }

  /** What a rank does on its own between two reductions. */
  ghost predicate RankStep(data: RolloutData, settings: Settings, ranks: nat, before: Stage, after: Stage)
    requires ValidSettings(settings, ranks)
  {
    var lengths, local := data.totalLengths, LocalBatch(settings, ranks);
    match before
    case Starting =>
      if IsSound(data, settings, ranks) then
        after == InFlags(!RowsAccepted(lengths, settings.budget, settings.multiple))
      else
        after.Ended? && after.outcome.Rejected? && HasFirstDefect(after.outcome.reason, data, settings, ranks)
    case Flagged(bad) =>
      if bad then after == Ended(OversizedSomewhere)
      else if RowsAccepted(lengths, settings.budget, settings.multiple) then
        after.InCounts? && GreedySteps(lengths, local, settings, after.steps)
      else after.Ended? && after.outcome.Raised?
    case Counted(steps, counts) =>
      if Splittable(steps, counts) then after.Ended? && PlannedWith(lengths, local, settings, counts, after.outcome)
      else after == Ended(Raised(BadSplitCount))
    case _ => false
  }

  /** What a rank may rely on when it runs. */
  ghost predicate Prepared(data: RolloutData, settings: Settings, ranks: nat, stage: Stage)
    requires ValidSettings(settings, ranks)
  {
    var lengths, local := data.totalLengths, LocalBatch(settings, ranks);
    match stage
    case Starting => true
    case Flagged(_) => IsSound(data, settings, ranks)
    case Counted(steps, counts) =>
      |steps| == |counts| && RowsAccepted(lengths, settings.budget, settings.multiple) &&
      GreedySteps(lengths, local, settings, steps)
    case _ => false
  }

  method RunRank(data: RolloutData, settings: Settings, ranks: nat, stage: Stage) returns (next: Stage)
    requires ValidSettings(settings, ranks) && Prepared(data, settings, ranks, stage)
    ensures RankStep(data, settings, ranks, stage, next) && !IsRunnable(next)
  {
    hide PaddedLength, Offset, RowsAccepted, GreedySteps, GoodPlan, Splittable, HasBadRow;
    var lengths := data.totalLengths;
    match stage
    case Starting =>
      LocalCheckIsExact(data, settings, ranks);
      BadRowMeansNotAccepted(lengths, settings);
      var check := LocalCheck(data, settings, ranks);
      return if check.Some? then Ended(Rejected(check.value)) else InFlags(HasBadRow(lengths, settings));
    case Flagged(bad) =>
      if bad {
        return Ended(OversizedSomewhere);
      }
      SoundShardHoldsSteps(data, settings, ranks);
      var steps := PlanSteps(lengths, LocalBatch(settings, ranks), settings);
      return if steps.Ok? then InCounts(steps.value) else Ended(Raised(steps.error));
    case Counted(steps, counts) =>
      var plan := PlanRank(lengths, LocalBatch(settings, ranks), settings, steps, counts);
      return Ended(if plan.Ok? then Scheduled(plan.value) else Raised(plan.error));
  }

  // ---------------------------------------------------------------- all ranks, in any order

  predicate FlagsJoined(s: seq<Stage>) {
    forall r :: 0 <= r < |s| ==> s[r].InFlags?
  }

  function AfterFlags(s: seq<Stage>): (s': seq<Stage>)
    requires FlagsJoined(s)
    ensures |s'| == |s|
  {
    var bad := exists r :: 0 <= r < |s| && s[r].bad;
    seq(|s|, _ => Flagged(bad))
  }

  predicate CountsJoined(s: seq<Stage>) {
    forall r :: 0 <= r < |s| ==> s[r].InCounts? && s[0].InCounts? && |s[r].steps| == |s[0].steps|
  }

  function AfterCounts(s: seq<Stage>): (s': seq<Stage>)
    requires |s| > 0 && CountsJoined(s)
    ensures |s'| == |s|
  {
    var counts := PointwiseMax(seq(|s|, r requires 0 <= r < |s| => CountsOf(s[r].steps)));
    seq(|s|, r requires 0 <= r < |s| => Counted(s[r].steps, counts))
  }

  ghost predicate OneRankSteps(shards: seq<RolloutData>, settings: Settings, s: seq<Stage>, s': seq<Stage>, r: nat)
    requires ValidSettings(settings, |shards|) && |s| == |shards|
  {
    r < |s| && |s'| == |s| && s' == s[r := s'[r]] && RankStep(shards[r], settings, |shards|, s[r], s'[r])
  }

  /** One rank runs to its next reduction or its end, or a reduction that all ranks have joined
      completes. */
  ghost predicate Next(shards: seq<RolloutData>, settings: Settings, s: seq<Stage>, s': seq<Stage>)
    requires ValidSettings(settings, |shards|) && |s| == |shards|
  {
    || (exists r :: OneRankSteps(shards, settings, s, s', r))
    || (FlagsJoined(s) && s' == AfterFlags(s))
    || (CountsJoined(s) && s' == AfterCounts(s))
  }

  ghost predicate IsRun(shards: seq<RolloutData>, settings: Settings, run: seq<seq<Stage>>)
    requires ValidSettings(settings, |shards|)
  {
    && |run| > 0
    && run[0] == seq(|shards|, _ => Starting)
    && (forall i :: 0 <= i < |run| ==> |run[i]| == |shards|)
    && (forall i :: 0 < i < |run| ==> Next(shards, settings, run[i-1], run[i]))
  }

  ghost predicate Reachable(shards: seq<RolloutData>, settings: Settings, s: seq<Stage>)
    requires ValidSettings(settings, |shards|)
  {
    exists run :: IsRun(shards, settings, run) && run[|run|-1] == s
  }

  /** No rank can run, and no reduction can complete: whoever still waits, waits for ever. */
  predicate AtRest(s: seq<Stage>) {
    (forall r :: 0 <= r < |s| ==> !IsRunnable(s[r])) && !FlagsJoined(s) && !CountsJoined(s)
  }

  // ---------------------------------------------------------------- what every run keeps

  /** Before the first reduction completes. */
  ghost predicate BeforeFlags(shards: seq<RolloutData>, settings: Settings, s: seq<Stage>)
    requires ValidSettings(settings, |shards|) && |s| == |shards|
  {
    forall r :: 0 <= r < |s| ==>
      match s[r]
      case Starting => true
      case InFlags(bad) =>
        IsSound(shards[r], settings, |shards|) &&
        bad == !RowsAccepted(shards[r].totalLengths, settings.budget, settings.multiple)
      case Ended(Rejected(e)) => HasFirstDefect(e, shards[r], settings, |shards|)
      case _ => false
  }

  /** Between the two reductions. */
  ghost predicate BetweenReductions(shards: seq<RolloutData>, settings: Settings, s: seq<Stage>)
    requires ValidSettings(settings, |shards|) && |s| == |shards|
  {
    && AllSound(shards, settings)
    && (forall r :: 0 <= r < |s| ==>
      match s[r]
      case Flagged(bad) => bad == !AllAccepted(shards, settings)
      case Ended(OversizedSomewhere) => !AllAccepted(shards, settings)
      case InCounts(steps) =>
        AllAccepted(shards, settings) &&
        GreedySteps(shards[r].totalLengths, LocalBatch(settings, |shards|), settings, steps)
      case _ => false)
  }

  /** After the second one, with the counts it produced. */
  ghost predicate AfterReductions(shards: seq<RolloutData>, settings: Settings, s: seq<Stage>, counts: seq<nat>)
    requires ValidSettings(settings, |shards|) && |s| == |shards|
  {
    var local := LocalBatch(settings, |shards|);
    && AllSound(shards, settings) && AllAccepted(shards, settings)
    && (forall k :: 0 <= k < |counts| ==> LeastCommonCount(shards, local, settings, k, counts[k]))
    && (forall r :: 0 <= r < |s| ==>
      match s[r]
      case Counted(steps, reduced) =>
        reduced == counts && GreedySteps(shards[r].totalLengths, local, settings, steps) && Splittable(steps, counts)
      case Ended(outcome) => PlannedWith(shards[r].totalLengths, local, settings, counts, outcome)
      case _ => false)
  }

  ghost predicate Inv(shards: seq<RolloutData>, settings: Settings, s: seq<Stage>)
    requires ValidSettings(settings, |shards|) && |s| == |shards|
  {
    || BeforeFlags(shards, settings, s)
    || BetweenReductions(shards, settings, s)
    || exists counts :: AfterReductions(shards, settings, s, counts)
  }

  lemma RankStepKeepsInv(shards: seq<RolloutData>, settings: Settings, s: seq<Stage>, s': seq<Stage>, r: nat)
    requires ValidSettings(settings, |shards|) && |s| == |shards|
    requires Inv(shards, settings, s) && OneRankSteps(shards, settings, s, s', r)
    ensures Inv(shards, settings, s')
  {
    hide IsSound, HasFirstDefect, RowsAccepted, GreedySteps, Splittable, PlannedWith, LeastCommonCount;
    if BeforeFlags(shards, settings, s) {
      assert BeforeFlags(shards, settings, s');
    } else if BetweenReductions(shards, settings, s) {
      assert AllAccepted(shards, settings) ==>
        RowsAccepted(shards[r].totalLengths, settings.budget, settings.multiple);
      assert BetweenReductions(shards, settings, s');
    } else {
      var counts :| AfterReductions(shards, settings, s, counts);
      assert AfterReductions(shards, settings, s', counts);
    }
  }

  lemma FlagsKeepInv(shards: seq<RolloutData>, settings: Settings, s: seq<Stage>)
    requires ValidSettings(settings, |shards|) && |s| == |shards|
    requires Inv(shards, settings, s) && FlagsJoined(s)
    ensures Inv(shards, settings, AfterFlags(s))
  {
    hide IsSound, HasFirstDefect, RowsAccepted, GreedySteps, Splittable, PlannedWith, LeastCommonCount;
    assert s[0].InFlags?;
    assert BeforeFlags(shards, settings, s);
    assert BetweenReductions(shards, settings, AfterFlags(s));
  }

  lemma CountsKeepInv(shards: seq<RolloutData>, settings: Settings, s: seq<Stage>)
    requires ValidSettings(settings, |shards|) && |s| == |shards|
    requires Inv(shards, settings, s) && CountsJoined(s)
    ensures Inv(shards, settings, AfterCounts(s))
  {
    hide IsSound, HasFirstDefect, RowsAccepted, GreedySteps, PlannedWith, LeastCommonCount, AllAccepted,
      PointwiseMax, CountsOf;
    assert s[0].InCounts?;
    assert BetweenReductions(shards, settings, s);
    var all := seq(|s|, r requires 0 <= r < |s| => s[r].steps);
    var vectors := seq(|s|, r requires 0 <= r < |s| => CountsOf(s[r].steps));
    assert vectors == seq(|all|, r requires 0 <= r < |all| => CountsOf(all[r]));
    var counts := PointwiseMax(vectors);
    var local := LocalBatch(settings, |shards|);
    assert AllGreedy(shards, local, settings, all);
    ReducedCounts(shards, local, settings, all, counts);
    assert AfterReductions(shards, settings, AfterCounts(s), counts);
  }

  lemma {:induction false} RunKeepsInv(shards: seq<RolloutData>, settings: Settings, run: seq<seq<Stage>>, i: nat)
    requires ValidSettings(settings, |shards|) && IsRun(shards, settings, run) && i < |run|
    ensures Inv(shards, settings, run[i])
  {
    hide AfterReductions, BetweenReductions, RankStep;
    if i == 0 {
      assert BeforeFlags(shards, settings, run[0]);
    } else {
      hide BeforeFlags;
      RunKeepsInv(shards, settings, run, i - 1);
      var s, s' := run[i-1], run[i];
      assert Next(shards, settings, s, s');
      hide Inv;
      if r: nat :| OneRankSteps(shards, settings, s, s', r) {
        RankStepKeepsInv(shards, settings, s, s', r);
      } else if FlagsJoined(s) && s' == AfterFlags(s) {
        FlagsKeepInv(shards, settings, s);
      } else {
        CountsKeepInv(shards, settings, s);
      }
    }
  }

  lemma ReachableInv(shards: seq<RolloutData>, settings: Settings, s: seq<Stage>)
    requires ValidSettings(settings, |shards|) && Reachable(shards, settings, s)
    ensures |s| == |shards| && Inv(shards, settings, s)
  {
    var run :| IsRun(shards, settings, run) && run[|run|-1] == s;
    RunKeepsInv(shards, settings, run, |run| - 1);
  }

  // ---------------------------------------------------------------- how every run ends

  ghost predicate Lockstep(shards: seq<RolloutData>, settings: Settings, counts: seq<nat>, s: seq<Stage>)
    requires ValidSettings(settings, |shards|)
  {
    var local := LocalBatch(settings, |shards|);
    && |s| == |shards|
    && (forall r :: 0 <= r < |s| ==>
      s[r].Ended? && PlannedWith(shards[r].totalLengths, local, settings, counts, s[r].outcome))
    && (forall k :: 0 <= k < |counts| ==> LeastCommonCount(shards, local, settings, k, counts[k]))
  }

  /** No rank is ever left alone in the second reduction: while one waits there, none has ended. */
  lemma NoneAloneInCounts(shards: seq<RolloutData>, settings: Settings, s: seq<Stage>, r: nat, q: nat)
    requires ValidSettings(settings, |shards|) && Reachable(shards, settings, s)
    requires r < |s| && s[r].InCounts? && q < |s|
    ensures !s[q].Ended?
  {
    ReachableInv(shards, settings, s);
  }

  lemma JoinWithSameRows(shards: seq<RolloutData>, settings: Settings, s: seq<Stage>)
    requires ValidSettings(settings, |shards|) && |s| == |shards| && SameRowCount(shards)
    requires AllSound(shards, settings)
    requires forall r :: 0 <= r < |s| ==>
      s[r].InCounts? && GreedySteps(shards[r].totalLengths, LocalBatch(settings, |shards|), settings, s[r].steps)
    ensures CountsJoined(s)
  {
    hide Offset, IsSound;
    var local := LocalBatch(settings, |shards|);
    SoundShardHoldsSteps(shards[0], settings, |shards|);
    forall r | 0 <= r < |s| ensures |s[r].steps| == |s[0].steps| {
      StepCountFromRows(|s[r].steps|, |s[0].steps|, local);
    }
  }

  lemma SomeFirstDefect(shards: seq<RolloutData>, settings: Settings)
    requires ValidSettings(settings, |shards|)
    ensures forall r :: 0 <= r < |shards| ==>
      IsSound(shards[r], settings, |shards|) || exists e :: HasFirstDefect(e, shards[r], settings, |shards|)
  {
    hide IsSound, HasFirstDefect, LocalCheck;
    forall r | 0 <= r < |shards| && !IsSound(shards[r], settings, |shards|)
      ensures exists e :: HasFirstDefect(e, shards[r], settings, |shards|)
    {
      LocalCheckIsExact(shards[r], settings, |shards|);
      var check := LocalCheck(shards[r], settings, |shards|);
      assert check.Some? && LocalCheck(shards[r], settings, |shards|) == Some(check.value);
    }
  }

  /** FAILURE IS COLLECTIVE. In whatever order ranks run, when nothing moves any more: a rank
      was rejected exactly for the first defect of its own shard; it waits for ever, in the first
      reduction, exactly if its shard is sound and another rank's is not; all raise exactly if all
      are sound and some shard has a row outside the budget; and otherwise all ranks have good
      plans with the same counts, each the least common one. */
  lemma HowRanksEnd(shards: seq<RolloutData>, settings: Settings, s: seq<Stage>)
    requires ValidSettings(settings, |shards|) && Reachable(shards, settings, s) && AtRest(s)
    requires AllSound(shards, settings) ==> SameRowCount(shards)
    ensures |s| == |shards|
    ensures forall r, e :: 0 <= r < |s| ==>
      (s[r] == Ended(Rejected(e)) <==> HasFirstDefect(e, shards[r], settings, |shards|))
    ensures forall r :: 0 <= r < |s| ==>
      (s[r].InFlags? <==> IsSound(shards[r], settings, |shards|) && !AllSound(shards, settings))
    ensures forall r :: 0 <= r < |s| ==>
      (s[r] == Ended(OversizedSomewhere) <==> AllSound(shards, settings) && !AllAccepted(shards, settings))
    ensures forall r :: 0 <= r < |s| ==> s[r].InFlags? || s[r].Ended?
    ensures AllSound(shards, settings) && AllAccepted(shards, settings) ==>
      exists counts :: Lockstep(shards, settings, counts, s)
  {
    hide IsSound, HasFirstDefect, GreedySteps, Splittable, LeastCommonCount, AllAccepted;
    ReachableInv(shards, settings, s);
    forall r | 0 <= r < |s|
      ensures IsSound(shards[r], settings, |shards|) ==> forall e :: !HasFirstDefect(e, shards[r], settings, |shards|)
      ensures forall d, e ::
        HasFirstDefect(d, shards[r], settings, |shards|) && HasFirstDefect(e, shards[r], settings, |shards|) ==> d == e
    {
      DefectsDecide(shards[r], settings, |shards|);
    }
    SomeFirstDefect(shards, settings);
    if BeforeFlags(shards, settings, s) {
      var q :| 0 <= q < |s| && !s[q].InFlags?;
      assert s[q].Ended?;
    } else if BetweenReductions(shards, settings, s) {
      if AllAccepted(shards, settings) {
        JoinWithSameRows(shards, settings, s);
        assert false;
      }
    } else {
      var counts :| AfterReductions(shards, settings, s, counts);
      assert Lockstep(shards, settings, counts, s);
    }
  }

  lemma RowsFit(lengths: seq<int>, local: nat, settings: Settings, plan: Plan)
    requires settings.multiple > 0 && GoodPlan(lengths, local, settings, plan)
    ensures forall i :: 0 <= i < |lengths| ==> lengths[i] <= plan.widths[i]
    ensures forall b :: 0 <= b < |plan.schedule| ==>
      var batch := plan.schedule[b];
      |batch| > 0 && InRange(batch, |lengths|) && |batch| * plan.widths[batch[0]] <= settings.budget
  {
    hide BatchWidth, StepHoldsItsRows, Flatten;
    PermutationCovers(Flatten(plan.schedule), |lengths|);
    forall i: nat | i < |lengths| ensures lengths[i] <= plan.widths[i] {
      FlattenHas(plan.schedule, i);
      var b :| 0 <= b < |plan.schedule| && i in plan.schedule[b];
      assert WithinBudget(lengths, settings, plan.widths, plan.schedule[b]);
    }
    forall b | 0 <= b < |plan.schedule|
      ensures var batch := plan.schedule[b];
        |batch| > 0 && InRange(batch, |lengths|) && |batch| * plan.widths[batch[0]] <= settings.budget
    {
      assert WithinBudget(lengths, settings, plan.widths, plan.schedule[b]);
    }
  }

  /** Every plan fits the tokens themselves: each row has as many as the plan was made for, at most
      its width, and the rows of a microbatch fit the budget at that width. */
  lemma PlansFitTokens(shards: seq<RolloutData>, settings: Settings, s: seq<Stage>, r: nat)
    requires ValidSettings(settings, |shards|) && Reachable(shards, settings, s)
    requires r < |shards| && |s| == |shards| && s[r].Ended? && s[r].outcome.Scheduled?
    ensures var tokens, lengths, plan := shards[r].tokens, shards[r].totalLengths, s[r].outcome.plan;
            && |tokens| == |lengths| == |plan.widths|
            && (forall i :: 0 <= i < |tokens| ==> |tokens[i]| == lengths[i] <= plan.widths[i])
            && Permutation(Flatten(plan.schedule), |tokens|)
            && forall b :: 0 <= b < |plan.schedule| ==>
                 var batch := plan.schedule[b];
                 |batch| > 0 && (forall k :: 0 <= k < |batch| ==> batch[k] < |tokens|) &&
                 |batch| * plan.widths[batch[0]] <= settings.budget
  {
    hide LeastCommonCount, GreedySteps, Splittable, HasFirstDefect;
    ReachableInv(shards, settings, s);
    var counts :| AfterReductions(shards, settings, s, counts);
    var lengths, plan := shards[r].totalLengths, s[r].outcome.plan;
    assert IsSound(shards[r], settings, |shards|);
    assert GoodPlan(lengths, LocalBatch(settings, |shards|), settings, plan);
    RowsFit(lengths, LocalBatch(settings, |shards|), settings, plan);
  }

  // ---------------------------------------------------------------- runs come to rest

  function Remaining(stage: Stage): nat {
    match stage
    case Starting => 5
    case InFlags(_) => 4
    case Flagged(_) => 3
    case InCounts(_) => 2
    case Counted(_, _) => 1
    case Ended(_) => 0
  }

  function RemainingIn(s: seq<Stage>): (n: nat)
    ensures n <= 5 * |s|
  {
    if |s| == 0 then 0 else Remaining(s[0]) + RemainingIn(s[1..])
  }

  lemma {:induction false} RemainingDrops(s: seq<Stage>, s': seq<Stage>)
    requires |s| == |s'| && forall r :: 0 <= r < |s| ==> Remaining(s'[r]) <= Remaining(s[r])
    ensures RemainingIn(s') <= RemainingIn(s)
    ensures (exists r :: 0 <= r < |s| && Remaining(s'[r]) < Remaining(s[r])) ==> RemainingIn(s') < RemainingIn(s)
  {
    if |s| > 0 {
      hide Remaining;
      assert forall r :: 0 <= r < |s| - 1 ==> s[1..][r] == s[r+1] && s'[1..][r] == s'[r+1];
      RemainingDrops(s[1..], s'[1..]);
      if r :| 0 <= r < |s| && Remaining(s'[r]) < Remaining(s[r]) {
        if r > 0 {
          assert Remaining(s'[1..][r-1]) < Remaining(s[1..][r-1]);
        }
      }
    }
  }

  lemma StageGoesOn(data: RolloutData, settings: Settings, ranks: nat, before: Stage, after: Stage)
    requires ValidSettings(settings, ranks) && RankStep(data, settings, ranks, before, after)
    ensures Remaining(after) < Remaining(before)
  {
  }

  lemma NextUsesUp(shards: seq<RolloutData>, settings: Settings, s: seq<Stage>, s': seq<Stage>)
    requires ValidSettings(settings, |shards|) && |s| == |shards| == |s'| && Next(shards, settings, s, s')
    ensures RemainingIn(s') < RemainingIn(s)
  {
    hide RankStep, PointwiseMax, CountsOf;
    if r: nat :| OneRankSteps(shards, settings, s, s', r) {
      StageGoesOn(shards[r], settings, |shards|, s[r], s'[r]);
    } else {
      assert Remaining(s'[0]) < Remaining(s[0]);
    }
    RemainingDrops(s, s');
  }

  /** Every run comes to rest: no more than five stages can lie ahead of any rank. */
  lemma {:induction false} RunsAreShort(shards: seq<RolloutData>, settings: Settings, run: seq<seq<Stage>>)
    requires ValidSettings(settings, |shards|) && IsRun(shards, settings, run)
    ensures |run| - 1 + RemainingIn(run[|run|-1]) <= 5 * |shards|
    decreases |run|
  {
    if |run| > 1 {
      hide Next;
      var before := run[..|run|-1];
      assert IsRun(shards, settings, before);
      RunsAreShort(shards, settings, before);
      NextUsesUp(shards, settings, before[|before|-1], run[|run|-1]);
    }
  }

  // ---------------------------------------------------------------- a whole run

  lemma RunOn(shards: seq<RolloutData>, settings: Settings, s: seq<Stage>, s': seq<Stage>)
    requires ValidSettings(settings, |shards|) && Reachable(shards, settings, s)
    requires |s| == |shards| && |s'| == |shards| && Next(shards, settings, s, s')
    ensures Reachable(shards, settings, s')
  {
    hide Next;
    var run :| IsRun(shards, settings, run) && run[|run|-1] == s;
    assert IsRun(shards, settings, run + [s']);
  }

  lemma RunnableIsPrepared(shards: seq<RolloutData>, settings: Settings, s: seq<Stage>, r: nat)
    requires ValidSettings(settings, |shards|) && Reachable(shards, settings, s)
    requires |s| == |shards| && r < |s| && IsRunnable(s[r])
    ensures Prepared(shards[r], settings, |shards|, s[r])
  {
    hide IsSound, RowsAccepted, GreedySteps, PlannedWith, LeastCommonCount;
    ReachableInv(shards, settings, s);
    if counts :| AfterReductions(shards, settings, s, counts) {
      assert s[r].Counted?;
    }
  }

  /** Every rank in turn runs to its next reduction or its end. */
  method RunAll(shards: seq<RolloutData>, settings: Settings, s: seq<Stage>) returns (s': seq<Stage>)
    requires ValidSettings(settings, |shards|) && Reachable(shards, settings, s) && |s| == |shards|
    requires forall r :: 0 <= r < |s| ==> IsRunnable(s[r])
    ensures Reachable(shards, settings, s') && |s'| == |shards|
    ensures forall r :: 0 <= r < |s| ==>
      !IsRunnable(s'[r]) && RankStep(shards[r], settings, |shards|, s[r], s'[r])
  {
    hide RankStep, Reachable, Prepared, ValidSettings, IsRunnable;
    s' := s;
    for r := 0 to |s|
      invariant |s'| == |shards| && Reachable(shards, settings, s')
      invariant forall q :: 0 <= q < r ==> !IsRunnable(s'[q]) && RankStep(shards[q], settings, |shards|, s[q], s'[q])
      invariant forall q :: r <= q < |s| ==> s'[q] == s[q]
    {
      RunnableIsPrepared(shards, settings, s', r);
      var next := RunRank(shards[r], settings, |shards|, s'[r]);
      assert OneRankSteps(shards, settings, s', s'[r := next], r);
      RunOn(shards, settings, s', s'[r := next]);
      s' := s'[r := next];
    }
  }

  lemma AllStart(shards: seq<RolloutData>, settings: Settings)
    requires ValidSettings(settings, |shards|)
    ensures Reachable(shards, settings, seq(|shards|, _ => Starting))
  {
    assert IsRun(shards, settings, [seq(|shards|, _ => Starting)]);
  }

  /** The order of a rank's stages. */
  lemma ScriptGoesOn(data: RolloutData, settings: Settings, ranks: nat, before: Stage, after: Stage)
    requires ValidSettings(settings, ranks) && RankStep(data, settings, ranks, before, after)
    ensures before.Starting? ==> after.InFlags? || after.Ended?
    ensures before.Flagged? ==> after.InCounts? || after.Ended?
    ensures before.Counted? ==> after.Ended?
  {
  }

  lemma ScriptsGoOn(shards: seq<RolloutData>, settings: Settings, s: seq<Stage>, s': seq<Stage>)
    requires ValidSettings(settings, |shards|) && |s| == |shards| == |s'|
    requires forall r :: 0 <= r < |s| ==> RankStep(shards[r], settings, |shards|, s[r], s'[r])
    ensures forall r :: 0 <= r < |s| && s[r].Starting? ==> s'[r].InFlags? || s'[r].Ended?
    ensures forall r :: 0 <= r < |s| && s[r].Flagged? ==> s'[r].InCounts? || s'[r].Ended?
    ensures forall r :: 0 <= r < |s| && s[r].Counted? ==> s'[r].Ended?
  {
    hide RankStep;
    forall r | 0 <= r < |s|
      ensures s[r].Starting? ==> s'[r].InFlags? || s'[r].Ended?
      ensures s[r].Flagged? ==> s'[r].InCounts? || s'[r].Ended?
      ensures s[r].Counted? ==> s'[r].Ended?
    {
      ScriptGoesOn(shards[r], settings, |shards|, s[r], s'[r]);
    }
  }

  /** All ranks of a data-parallel group, through both reductions as far as they complete.
      `HowRanksEnd` says what that leaves, here and in every other order. */
  method GetDataIterators(shards: seq<RolloutData>, settings: Settings) returns (ranks: seq<Stage>)
    requires ValidSettings(settings, |shards|)
    ensures |ranks| == |shards| && Reachable(shards, settings, ranks) && AtRest(ranks)
  {
    hide RankStep, Reachable, PointwiseMax, CountsOf;
    ghost var before := seq(|shards|, _ => Starting);
    AllStart(shards, settings);
    ranks := RunAll(shards, settings, seq(|shards|, _ => Starting));
    ScriptsGoOn(shards, settings, before, ranks);
    assert !ranks[0].InCounts?;
    if FlagsJoined(ranks) {
      RunOn(shards, settings, ranks, AfterFlags(ranks));
      before := AfterFlags(ranks);
      ranks := RunAll(shards, settings, AfterFlags(ranks));
      ScriptsGoOn(shards, settings, before, ranks);
      assert before[0].Flagged? && !ranks[0].InFlags?;
      if CountsJoined(ranks) {
        RunOn(shards, settings, ranks, AfterCounts(ranks));
        before := AfterCounts(ranks);
        ranks := RunAll(shards, settings, AfterCounts(ranks));
        ScriptsGoOn(shards, settings, before, ranks);
        assert before[0].Counted? && ranks[0].Ended?;
      }
    }
  }

  // ---------------------------------------------------------------- a shard that strands another

  const TWO_RANKS := Settings(4, 1, 2)
  const ONE_ROW := RolloutData(false, false, [[7]], [1], None)
  const NO_ROWS := RolloutData(false, false, [], [], None)

  lemma OnlyOneRowPasses()
    ensures IsSound(ONE_ROW, TWO_RANKS, 2)
    ensures RowsAccepted(ONE_ROW.totalLengths, TWO_RANKS.budget, TWO_RANKS.multiple)
    ensures HasFirstDefect(IncompleteBatch, NO_ROWS, TWO_RANKS, 2) && !IsSound(NO_ROWS, TWO_RANKS, 2)
  {
    assert LocalBatch(TWO_RANKS, 2) == 1;
    assert ONE_ROW.totalLengths[0] == 1 && PaddedLength(1, 1) == 1;
    LocalCheckIsExact(ONE_ROW, TWO_RANKS, 2);
    LocalCheckIsExact(NO_ROWS, TWO_RANKS, 2);
    hide IsSound, HasFirstDefect;
  }

  /** Two ranks, one of them with an empty shard: in some order - and by `HowRanksEnd` in every
      one - the rank with the good shard ends up waiting in the first reduction for ever. */
  lemma EmptyShardStrandsAnother()
    ensures var s := [InFlags(false), Ended(Rejected(IncompleteBatch))];
            Reachable([ONE_ROW, NO_ROWS], TWO_RANKS, s) && AtRest(s)
    ensures forall s: seq<Stage> :: Reachable([ONE_ROW, NO_ROWS], TWO_RANKS, s) && AtRest(s) ==>
      |s| == 2 && s[0].InFlags?
  {
    OnlyOneRowPasses();
    hide IsSound, HasFirstDefect, Reachable, RowsAccepted;
    var shards := [ONE_ROW, NO_ROWS];
    var s0: seq<Stage> := [Starting, Starting];
    var s1 := [InFlags(false), Starting];
    var s2 := [InFlags(false), Ended(Rejected(IncompleteBatch))];
    assert s0 == seq(|shards|, _ => Starting);
    AllStart(shards, TWO_RANKS);
    assert OneRankSteps(shards, TWO_RANKS, s0, s1, 0);
    RunOn(shards, TWO_RANKS, s0, s1);
    assert OneRankSteps(shards, TWO_RANKS, s1, s2, 1);
    RunOn(shards, TWO_RANKS, s1, s2);
    assert !s2[1].InFlags? && !s2[0].InCounts?;
    hide AtRest, RankStep;
    forall s: seq<Stage> | Reachable(shards, TWO_RANKS, s) && AtRest(s) ensures |s| == 2 && s[0].InFlags? {
      assert !IsSound(shards[1], TWO_RANKS, |shards|) && IsSound(shards[0], TWO_RANKS, |shards|);
      HowRanksEnd(shards, TWO_RANKS, s);
    }
  }
}
