# Verified model of a Miles reinforcement-learning recipe on AgentCore

The recipe trains a language model from agent trajectories. This project models its parts that
have to be right on every run, and proves what they promise.

**Scheduling a batch.** `TokenBatching`, `Minimality`, `Splitting`, `Widths`, `DataIterator` and
`Ranks` model `bshd_token_batching.py`. A microbatch costs its row count times the padded length of its
longest row. `MakeBatches` packs rows first-fit on descending length, `SplitToCount` halves
batches until all data-parallel ranks run equally many, `BatchWidths` rebuilds the padding width
of every row. In `Ranks` every data-parallel rank runs its script on its own shard, in any order;
a MAX reduction completes only when all ranks have joined it.
The main results: the greedy schedule is the unique one of its shape and no cover of the rows by
fitting batches has fewer; a step can run in `count` microbatches exactly for the counts between
the greedy count and the row count; the reduced count is the least that suits every rank, so the
ranks stay in lockstep and none of the late errors can be raised.

**Running trajectories.** `FrontDoor` is the routing table with its feedback handlers, and the
normalisation of a chat request. `Backoff` is one invocation with retries on throttles.
`Invocation` is a step machine for any number of concurrent invocations: whatever a task does
between two awaits is one step, and worker threads, the front door, requests that arrive after
their sender gave up, agent feedback and `abort` interleave freely. Its invariant gives bounds on
concurrency and routing while an invocation is submitted. `Progress` adds that these runs never
deadlock and all end, and `Exits` reads the exact state every task leaves behind off the events of
its run. `Attempts` counts the calls a task submits in the events of its run.

**Retrying trajectories.** `Retry` models the attempt loop of one trajectory on heap objects, so
that "the input sample is unchanged" is a statement about sharing, and the filter behind it.
`Abort` is a step machine for many such tasks below a training call that fails. `EpochSource` is
the prompt source that refuses to cycle. `AttemptLoop` says what the attempt loop does with what it
observes; the method of `Retry` and every task of `Abort` are proved to run it.

**The agent and its addresses.** `Episode` is the tool-calling loop for an arbitrary policy and the
health report. `Base64Url` and `Token` are the session tokens and the two ways an agent reaches its
session server.

`Rows`, `Strings`, `JsonValues` and `Wrappers` hold shared vocabulary.

A method models each loop or update of state of the source and is proved against a specification
function or predicate; the lemmas beside it say what that specification means. The step machines
are functions on states, because they describe the interleaving of many tasks and not one routine.

## Findings

Places where a promise does not hold on all inputs. Each has its exact condition proved, and an
input or a run that shows it.

- A local check that fails on some but not all ranks strands the ranks that passed: they wait in
  the first reduction. `Ranks.HowRanksEnd` proves that this happens exactly then, in every order of
  steps, and `Ranks.EmptyShardStrandsAnother` gives two shards. The comment at
  `bshd_token_batching.py:122-123` guards against it only for rows outside the budget.
- With `RFT_STOP_SESSION_ON_FINISH=1`, a cancellation that arrives while the clean-up awaits the stop
  call skips the rest of the `finally` block: the session stays listed as active and stays
  registered. A native session stays listed if its payload cannot be printed as JSON, because it is
  listed at `agentcore_agent_function.py:251` and the `try` opens at line 253.
  `Exits.CanStayListed` proves that a done task can be listed exactly if it is native or the hook is
  on, `Exits.OneCancellationSuffices` when that one cancellation is all it takes, and
  `Exits.LeftBehind` which events of a run leave what.
- A task that ends after the front door has handled its registration but before its `try` block
  never unregisters: it failed or was cancelled there, with or without the reply, or its record
  cannot be printed (`Exits.RegistrationLeaks`, `Exits.LeftBehind`).
- An exception whose `response` attribute no code can be read from, such as `None`, makes the
  handler at `agentcore_agent_function.py:186` raise an error of its own, even if the text holds a
  fatal or a retryable name. `Backoff.InvokeWithBackoff` proves this ending exact and
  `Backoff.UnreadableResponseHidesFatal` gives an input.
- The calculator promises a value or a readable error, but `agent/agent.py:243-245` is outside its
  `try`: printing an integer of more digits than Python converts by default raises there, as for
  `99**4096` (`Episode.LongResultEscapes`). Reading arguments promises a dictionary, but lines
  252-255 catch syntax errors of JSON only: an integer literal that long raises another one, and
  line 344 reads the arguments of every call before it looks at the name, so a lone submission is
  lost too (`Episode.UnreadableSubmissionEscapes`). `Episode.RunEpisode` proves that the episode is
  left without its answer exactly if such an exception, or one of the request that is no API error,
  is raised.
- `int(port)` drops leading zeros, so for a server id that names the session URL's own host and port
  the proxied and the direct address are the same text if and only if the port is written without
  them (`Token.OwnServerAgrees`; `Token.LeadingZeroDisagrees` gives one that is not).

A session URL made of slashes only is registered as the empty string, which the front door then
treats as an unknown trajectory; routing results therefore ask for a nonempty stripped URL.

## Model

| member | source | states |
|---|---|---|
| TokenBatching.PaddedIsLeastMultiple | bshd_token_batching.py:19-20 | The padded length is a multiple of `multiple`, and no smaller multiple reaches the length |
| TokenBatching.PaddedMonotone | bshd_token_batching.py:19-20 | A longer row never pads to less |
| TokenBatching.DescendingIsUnique | bshd_token_batching.py:31 | Two lists of the same rows in (-length, index) order are the same list, so nothing depends on how the sort works |
| TokenBatching.OrderIsLongestFirst | bshd_token_batching.py:31 | The order holds every row once, longer rows first and rows of equal length by index |
| TokenBatching.FirstWithRoom | bshd_token_batching.py:38-42 | The batch chosen has room for one more row and no earlier one has; falling through means none has |
| TokenBatching.PlaceInLast | bshd_token_batching.py:38-41 | Whatever batch first fit finds is the last one, and adding a row no longer than those placed keeps widths equal to padded maxima, budgets kept and all earlier batches full |
| TokenBatching.OpenNew | bshd_token_batching.py:42-44 | When no batch has room, opening one for the row keeps the same loop invariant, and the batch before it is full |
| TokenBatching.OversizedIsFirst | bshd_token_batching.py:31-37 | The row an oversize error names is the very first in (-length, index) order |
| TokenBatching.MakeBatches | bshd_token_batching.py:23-45 | Which inputs are rejected and with which error, both directions, an oversize error naming the first longest row; otherwise the batches concatenate to the (-length, index) order, each fits the budget and each but the last cannot take one more row |
| Minimality.GreedyRun | bshd_token_batching.py:29-45 | Batch k is a contiguous run of the sorted order, as wide as its first row |
| Minimality.GreedyBatchIsBudgetOverWidth | bshd_token_batching.py:29-45 | Every batch but the last holds exactly `budget / width` rows and uses more than half the budget |
| Minimality.GreedyWidthsDescend | bshd_token_batching.py:29-45 | Widths never increase from one batch to a later one |
| Minimality.GreedyIsUnique | bshd_token_batching.py:29-45 | The shape promised by `MakeBatches` leaves exactly one schedule |
| Minimality.FamilyHoldsNoMore | bshd_token_batching.py:29-45 | Any k fitting batches that leave no gap below their smallest positions hold at most as many rows as the first k greedy batches |
| Minimality.GreedyIsMinimal | bshd_token_batching.py:23-45 | No family of fitting batches that covers all rows, even with repetitions, has fewer batches than the greedy schedule |
| Splitting.SplitOneMore | bshd_token_batching.py:53-57 | Every state of the loop is the split to its own number of batches, and the next one halves a largest batch; so what is proved of splits holds throughout the loop |
| Splitting.SplitToCount | bshd_token_batching.py:48-58 | Succeeds exactly when the count lies between the number of batches and the number of rows, terminates, and returns the repeated halving of a largest batch |
| Splitting.LargestHasTwo | bshd_token_batching.py:53-57 | While there are more rows than batches the largest batch has at least two rows, so a split empties nothing |
| Splitting.SplitIsCorrect | bshd_token_batching.py:48-58 | Exactly `count` batches, the same concatenation, none emptied, each a contiguous slice of one input batch, and each split one at least half (rounded down) of the largest |
| Splitting.SplitStaysFeasible | bshd_token_batching.py:48-58 | No padded cost grows: a schedule within budget is still within budget after splitting |
| Splitting.PossibleCounts | bshd_token_batching.py:135-145 | A step has a schedule of `count` nonempty batches within budget if and only if the count lies between the greedy count and the number of rows |
| Widths.BatchWidths | bshd_token_batching.py:61-72 | On positive lengths succeeds if and only if the batches are nonempty and hold every row exactly once; then each row has its own batch's padded maximum; each error names a defect that is there |
| Widths.ScatterWrites | bshd_token_batching.py:184-187 | Writing gathered values back along any schedule restores exactly the rows it names |
| Widths.SumOfGather | bshd_token_batching.py:184-187 | Running rows in another order changes no sum of real numbers over them |
| Widths.ReorderingIsLossless | bshd_token_batching.py:184-187 | For a schedule that is a partition and values of any kind, gathering then scattering is the identity, and on the way every value occurs as often as before |
| DataIterator.LocalCheckIsExact | bshd_token_batching.py:100-118 | Raises nothing if and only if the shard has single-adapter text rows, as many tokens in each row as its length says, a global batch that the ranks share equally, a positive whole number of complete steps and, where given, matching step boundaries; otherwise names the first of these that fails |
| DataIterator.SoundShardHoldsSteps | bshd_token_batching.py:110-116 | A sound shard holds a positive whole number of steps of equal positive size |
| DataIterator.PlanSteps | bshd_token_batching.py:135-138 | Raises exactly if some row is unacceptable; otherwise every step's slice gets its greedy schedule, and the slices tile the shard |
| DataIterator.PointwiseMax | bshd_token_batching.py:139-141 | The reduced vector bounds every rank's and is attained in each component by some rank |
| DataIterator.ReducedCount | bshd_token_batching.py:139-145 | The reduced count lies between every rank's batches and its rows, and the counts with which all ranks have a schedule are exactly those from it up to the local batch size |
| DataIterator.BlockIsGood | bshd_token_batching.py:142-145 | One step's block has the agreed number of microbatches, runs each row of its window once and fits the budget under the shard's own lengths |
| DataIterator.ScheduleIsGood | bshd_token_batching.py:142-145 | The blocks together are a permutation of all rows of the steps so far, as many as the counts add up to, each within budget |
| DataIterator.BlockInPlace | bshd_token_batching.py:142-145 | The s-th run of `counts[s]` microbatches in the final schedule is step s's block |
| DataIterator.PlanRank | bshd_token_batching.py:142-155 | Planning fails only for counts that cannot be split to; otherwise the widths check and the budget check never fire and the plan partitions the rows step by step within the recorded widths |
| Ranks.RunRank | bshd_token_batching.py:100-155 | What one rank does between two reductions, in terms of its shard's own fields: rejected for the first defect or on to the first reduction with the flag of its rows; its plan; its schedule |
| Ranks.RunKeepsInv | bshd_token_batching.py:100-155 | In every state of every run all ranks are in the same third of the script, with flags, plans and counts that belong together |
| Ranks.NoneAloneInCounts | bshd_token_batching.py:119-141 | While some rank waits in the second reduction, no rank has ended |
| Ranks.HowRanksEnd | bshd_token_batching.py:100-155 | In every order of steps, by the fields of the shards: who is rejected and for which defect, who waits for ever in the first reduction, and when all raise, each both ways; otherwise all ranks have good plans with the same counts, each the least common one |
| Ranks.PlansFitTokens | bshd_token_batching.py:105-155 | In every scheduled plan each row's tokens are as many as the length it was planned with and at most its width, the microbatches hold every row once, and rows times width stay within the budget |
| Ranks.RunsAreShort | bshd_token_batching.py:100-155 | Every run comes to rest, after at most five steps for each rank |
| Ranks.GetDataIterators | bshd_token_batching.py:88-171 | Runs all ranks through the reductions that complete, to a state in which none can go on |
| Ranks.EmptyShardStrandsAnother | bshd_token_batching.py:113-128 | Two shards for which one rank waits for ever, in some order and in every order |
| FrontDoor.Server.constructor | rft_front_door.py:67-68 | A new server routes nothing and holds no diagnostics |
| FrontDoor.Server.OnRegister | rft_front_door.py:100-107 | The whole new state: the id routes to the stripped URL and its old diagnostics are gone |
| FrontDoor.Server.OnUnregister | rft_front_door.py:109-113 | The whole new state: the id has neither a route nor diagnostics |
| FrontDoor.Server.OnResult | rft_front_door.py:115-117 | Shows the id's diagnostics, or nothing |
| FrontDoor.Server.OnChat | rft_front_door.py:119-125 | Forwards to the registered session's completion address, or answers 404 |
| FrontDoor.Server.OnCompleteRollout | rft_front_door.py:179-189 | Sets the status of a registered id, nothing for any other; routes are framed out |
| FrontDoor.Server.OnUpdateReward | rft_front_door.py:191-200 | Sets the rewards of a registered id, nothing for any other; routes are framed out |
| FrontDoor.OwnEventsOnly | rft_front_door.py:100-200 | After any history, routing and diagnostics of an id are those of the id's own events alone |
| FrontDoor.FeedbackNeverRoutes | rft_front_door.py:179-200 | Deleting all feedback from any history leaves every route as it was |
| FrontDoor.ResultsWithinSessions | rft_front_door.py:100-200 | In every reachable state diagnostics are held for registered ids only |
| FrontDoor.DiagnosticsAreLatest | rft_front_door.py:100-200 | From a registration on, exactly the latest value of each kind is shown and nothing older; after unregistering, late feedback shows and routes nothing |
| FrontDoor.NormalizeBody | rft_front_door.py:128-156 | The in-place loop produces the normalised body the next two rows describe |
| FrontDoor.BlocksAreJoinedInOrder | rft_front_door.py:141-151 | No block becomes the empty text, one text block its own text, and a list of text blocks the text of its first part followed by that of the rest |
| FrontDoor.OtherContentIsUntouched | rft_front_door.py:141-151 | A message with any block that is not text, or whose content is no list, is untouched |
| FrontDoor.NormalizeMessageKeeps | rft_front_door.py:141-151 | Idempotent; keeps the text and every field but the content; an all-text block list becomes its joined text, mixed content stays |
| FrontDoor.NormalizeKeepsMeaning | rft_front_door.py:128-156 | Idempotent on whole bodies; messages keep number, order, text and every field but the content; besides messages only the model and stream options differ; a non-object is untouched |
| Backoff.NamesDecide | agentcore_agent_function.py:66-70 | Which codes, and which names anywhere in the text, make an error fatal and which retryable |
| Backoff.Delay | agentcore_agent_function.py:198 | The jittered wait lies in the upper half of its ceiling |
| Backoff.DelayIsLinear | agentcore_agent_function.py:198 | The wait starts at half the ceiling and grows with the draw by half the ceiling |
| Backoff.InvokeWithBackoff | agentcore_agent_function.py:173-203 | At most the limit of calls; all but the last throttled; one jittered wait of the attempt's own ceiling between two calls and none elsewhere; delivered, fatal and broken-handler endings if and only if the last outcome is of that kind, a fatal name deciding whatever else is mentioned; a throttle ends it only at the limit |
| Backoff.UnreadableResponseHidesFatal | agentcore_agent_function.py:184-188 | An error that mentions a fatal name and yet ends with the handler raising, at the first attempt |
| Backoff.TotalWaitIsBounded | agentcore_agent_function.py:198-202 | Total waiting lies between half of and the whole of the summed ceilings |
| Backoff.CeilingsAreGeometric | agentcore_agent_function.py:198 | Below the cap the ceilings of n waits add up to base times (2^n - 1) |
| Backoff.CeilingsPastTheCap | agentcore_agent_function.py:198 | From five waits on, the sum is 62 seconds plus the cap for each further one |
| Invocation.StepKeepsInv | rft_agent_function.py:94-141 | Every step of every task and of everything around them keeps the four-part invariant (front door, slots, executor calls, active set) |
| Invocation.ReachableInv | rft_agent_function.py:97-141 | The invariant holds in every state of every run |
| Invocation.ConcurrencyIsBounded | agentcore_agent_function.py:83-97 | Slot holders, awaited calls and busy workers each stay within the limit although abandoned calls run on; when all tasks are done every slot is free again |
| Invocation.OnlyAbandonedCallsDelay | agentcore_agent_function.py:177-183 | A queued awaited call can start at once unless some worker is busy with a call nobody awaits |
| Invocation.SubmittedWhileRouted | rft_agent_function.py:99-122 | At every submission, first or retried, and while the call is awaited, the front door maps the id to its own session URL |
| Invocation.ExitLeavesBehind | rft_agent_function.py:123-141 | For each way a task can end, whether it is registered and whether it is listed as active, both directions |
| Invocation.ActiveIsListed | agentcore_agent_function.py:250-298 | The active set is exactly the tasks in flight and those that ended in one of the two places where the entry is left, less what `abort` has discarded |
| Exits.RunIsTraced | rft_agent_function.py:99-141 | In every run, where a task is and which of its requests are outstanding is fixed by the events that have happened to it |
| Exits.LeftBehind | rft_agent_function.py:99-141 | Whether a done task is listed, and whether it is registered, if and only if stated events are in the run |
| Exits.UndisturbedExitIsClean | rft_agent_function.py:119-141 | A done task that was not disturbed at the four exposed places is neither listed nor registered, whatever else failed, timed out or was cancelled |
| Exits.CanStayListed | agentcore_agent_function.py:250-261 | Some run leaves a task done and listed if and only if it is native or the stop hook is on |
| Exits.CancelledStopLeaks | rft_agent_function.py:126-141 | With the stop hook on, every task can end done, listed and registered, for every limit of slots and attempts |
| Exits.OneCancellationSuffices | rft_agent_function.py:119-141 | A run in which nothing goes wrong but one cancellation in the stop call leaves the task listed if and only if the hook is on and there is a slot at all |
| Exits.RegistrationLeaks | rft_agent_function.py:99-120 | For every task runs that end between registering and the try block and leave it registered |
| Attempts.CallLeadsTo | agentcore_agent_function.py:175-202 | Where each step inside the try block starts and leads: on to the next attempt only after a throttle, out to the clean-up otherwise |
| Attempts.CallsMade | agentcore_agent_function.py:175-202 | In every run a task at attempt k has submitted exactly k calls and none more than the limit; every call but the last was throttled; a settled task whose calls were all throttled made exactly as many as allowed |
| Attempts.HeldWhileInvoking | agentcore_agent_function.py:250-261 | A task holds its slot exactly from getting it to the step that settles, gives up on or cancels its invocation |
| Progress.CanBeCutOffAnywhere | rft_agent_function.py:97-141 | Wherever a task waits it can be cancelled, and its requests and calls can fail or time out |
| Progress.NeverStuck | rft_agent_function.py:97-141 | No deadlock: in every reachable state with an unfinished task, some step without failure, timeout or cancellation is possible |
| Progress.StepDecreases | rft_agent_function.py:97-141 | Every step of a task, a worker or a late request uses up a measure of the work left, retries and abandoned calls included |
| Progress.RunsEnd | rft_agent_function.py:97-141 | Every run takes at most 4 * attempts + 7 such steps for each task, and where no ordinary step is left all tasks are done |
| Retry.InSomeTree | rft_rollout.py:25-30 | A sample is in a flattened list exactly when it is in some nested element |
| Retry.LeavesInOrder | rft_rollout.py:25-30 | Flattening lists the leaves in the order of the nesting |
| Retry.FailureReason | rft_rollout.py:33-43 | Some reason is given if and only if the output is refused |
| Retry.OutputFailsExactly | rft_rollout.py:33-43 | An output is refused unless it has leaves and every leaf is not aborted and has an exit status that is neither missing, empty, null, zero, false nor `error` |
| Retry.ReasonIsFirst | rft_rollout.py:33-43 | The reason is that of the first leaf that fails |
| Retry.FailureText | rft_rollout.py:64-72 | The text reported for an exhausted trajectory, from what its last call did |
| Retry.CallGenerator | rft_rollout.py:59-61 | A generator call may change the copy it is given, and nothing else that existed before |
| Retry.Attempt | rft_rollout.py:55-72 | One attempt on a copy of its own: accepted, rejected with the reason, or stopped, in exactly the stated cases; accepted leaves are new objects carrying the attempt number |
| Retry.Mark | rft_rollout.py:66-67 | Every leaf records the attempt and keeps its status and all other metadata, shared leaves included |
| Retry.Exhaust | rft_rollout.py:77-85 | One aborted copy of the input with the failure recorded and all other metadata kept |
| Retry.Generate | rft_rollout.py:46-87 | At most `retries + 1` calls, the next only after a retryable failure and never once halted; changes no existing object; an accepted output's leaves are none of them aborted and all report a status that is neither empty nor an error, and the first call that comes back so, uncancelled, is accepted at that attempt; else one aborted sample; calls and ending are those of the attempt loop on what it observes |
| Retry.RequireCompleteGroup | rft_rollout.py:99-108 | Raises exactly when some leaf is aborted, naming the first |
| Retry.GroupFailsIffExhausted | rft_rollout.py:77-108 | On completed outputs of `Generate`, the filter raises if and only if some trajectory exhausted its attempts |
| AttemptLoop.ObservationsDecide | rft_rollout.py:55-72 | Whether it was halted at each loop head and how each call came back decide how many calls the loop makes and how it ends |
| Abort.TasksRunTheLoop | rft_rollout.py:46-87 | In every run each task's number of calls and its ending are those of the attempt loop on what that task observed |
| Abort.StepKeepsInv | rft_rollout.py:46-149 | Every step of every task and of the trainer keeps the invariant |
| Abort.WhoIsCancelled | rft_rollout.py:137-145 | A task is cancelled if and only if someone cancels it or it is in a call when training fails; aborted exactly when training has failed |
| Abort.NoCallAfterAbort | rft_rollout.py:137-149 | Once training has failed, no continuation starts another generator call in any task, entered before or after |
| Abort.CancelledNeverSucceeds | rft_rollout.py:56-68 | A task cancelled before it ended never returns a successful output, even if the generator swallows the cancellation |
| Abort.GatherLeavesNoTask | rft_rollout.py:137-149 | When the gather returns the task set is empty and no task awaits a call, and it stays so for tasks that enter later |
| Abort.CallsAreBounded | rft_rollout.py:52-68 | No task exceeds its attempts; success names the last call made; giving up means all were made |
| EpochSource.BoundedSource.GetSamples | rft_rollout.py:119-124 | Refuses exactly when the fetch would pass the limit, and a refusal leaves the position as it was |
| EpochSource.BoundedSource.FetchAll | rft_rollout.py:119-124 | Over a whole history of fetches, which are granted, and that the position moved by just the rows handed out |
| EpochSource.NeverBeyondLimit | rft_rollout.py:119-124 | Over every history of fetches, the rows handed out never exceed the limit |
| EpochSource.CheckIsExact | rft_rollout.py:128-135 | The start-up check passes if and only if the retry and epoch counts are allowed and all of training's fetches from a fresh source succeed |
| Episode.SystemPromptFirst | agent/agent.py:259-262 | The transcript starts with a system message followed by the whole prompt, which is changed only if it has none |
| Episode.AnswersOfCalls | agent/agent.py:343-362 | What each kind of call is answered with; a recorded answer is the one that was read, and the one shown |
| Episode.TurnRecordsReply | agent/agent.py:303-364 | A turn records the content, reasoning and calls that were said, and answers each call under its id in order |
| Episode.RunTool | agent/agent.py:343-362 | One call's answer or the exception it lets through, from reading its arguments on, and the submission it records |
| Episode.RunTools | agent/agent.py:339-364 | The first exception that escapes, if any; otherwise one answer per call in order, the counters, and an answer set exactly by a submission that is the turn's only call |
| Episode.TakeTurn | agent/agent.py:283-368 | What one reply adds to the transcript and to every counter, and which way the loop goes on, ends or is left |
| Episode.RunEpisode | agent/agent.py:265-386 | Each request is the transcript so far and all replies but the last continue; the episode is left by an exception if and only if its last turn raises it; else counters, status and answer are those of the replies: submitted exactly when an answer is set, exactly when the last reply is a lone submission, whose arguments read as just that answer, which the last message records; never the initial status, and at most the limit of turns |
| Episode.LongResultEscapes | agent/agent.py:242-245 | An episode that is lost because the calculator raises |
| Episode.UnreadableSubmissionEscapes | agent/agent.py:251-256 | An episode whose lone submission is lost because its arguments cannot be read |
| Episode.TranscriptIsWellFormed | agent/agent.py:303-364 | For every policy the transcript is the prompt followed by assistant turns, each with one tool message per call and the ids in order |
| Episode.CountersMatchTranscript | agent/agent.py:278-386 | Turns, tool calls, calculator calls and rejected submissions can be read off the final transcript |
| Episode.RequestsExtend | agent/agent.py:285-290 | Every request extends every earlier one |
| Episode.Ping.constructor | agent/agent.py:397 | Starts healthy with nothing in flight |
| Episode.Ping.SetStatus | agent/agent.py:400-403 | The time of the last update moves only when the status changes |
| Episode.Ping.Begin | agent/agent.py:415-416 | Busy with one more in flight; the time moves only on the first |
| Episode.Ping.Finish | agent/agent.py:431-434 | One fewer in flight, healthy exactly when none is left; the time moves only then |
| Base64Url.GroupsAreBigEndian | proxy.py:52-53 | Each group read in base 64 is its bytes read in base 256, as section 4 of RFC 4648 defines it |
| Base64Url.AlphabetIsUrlSafe | proxy.py:52-57 | The alphabet of section 5 of RFC 4648; the decoder reads the standard one's last two characters as well |
| Base64Url.PaddingCompletesGroups | proxy.py:56-57 | Padding ends the input exactly where it completes a group |
| Base64Url.EncodedShape | proxy.py:52-53 | Stripping removes just the padding; the text has no dot and a length that is never one modulo four |
| Base64Url.DecodeUndoesEncode | proxy.py:52-57 | Decoding undoes unpadded encoding for every byte string |
| Base64Url.EncodeIsInjective | proxy.py:52-53 | Different byte strings have different encodings |
| Token.SomeLibraryIsTrusted | proxy.py:60-64 | For every payload some library prints and reads it back, so the next rows speak of libraries that exist |
| Token.ClaimsPassExactly | proxy.py:80-85 | Claims pass if and only if all four fields are there and the expiry, as a number, is not before the time; the first missing field is named |
| Token.SignedTokensVerify | proxy.py:60-85 | For a library that reads back this payload, verifying its signed token gives what its claims alone deserve: the claims themselves while complete and unexpired |
| Token.AcceptedExactly | proxy.py:67-85 | A token is accepted, and with which claims, if and only if it is a body, a dot and that body's digest, and the body decodes to claims that pass |
| Token.AcceptedTokensAreAuthentic | proxy.py:67-85 | An accepted token carries the digest of its own body, and the claims returned are the body's, complete and unexpired |
| Token.PortSurvives | agentcore_agent_function.py:143-146 | A decimal port is unchanged by reading and printing if and only if it has no leading zero |
| Token.UrlPathIs | agentcore_agent_function.py:130-132 | The path of an http URL is what stands between its site and any query or fragment |
| Token.SegmentIsReadBack | agentcore_agent_function.py:130-132 | The last path segment of an http URL is found whatever slashes trail it |
| Token.SessionIdIsReadBack | agentcore_agent_function.py:130-132 | The session id and the bare session URL are recovered from a session URL with any trailing slashes |
| Token.ServerIdIsReadBack | agentcore_agent_function.py:143-145 | Host and port are recovered from `ip:port`, for hosts that contain colons too |
| Token.AcceptedServerIds | agentcore_agent_function.py:143-145 | A server id is accepted if and only if it is a nonempty host, a colon and decimal digits |
| Token.SameTarget | proxy.py:126-133 | Two addresses of one session are equal if and only if host and port are |
| Token.BoundToItsSession | proxy.py:99-109 | A token reaches the session it was minted for, at its server, and no other |
| Token.ProxiedAndDirectAgree | agentcore_agent_function.py:135-157 | For any session URL and any well-formed server id, minting, verifying in time and forwarding reaches an upstream address, and it is the direct path's address if and only if the hosts are equal and the URL's port is the server's as a number prints |
| Token.OwnServerAgrees | agentcore_agent_function.py:135-157 | For a server id that names the URL's own host and port they agree if and only if the port has no leading zero |
| Token.LeadingZeroDisagrees | agentcore_agent_function.py:143-146 | A session URL and server id for which they do not |

## Left out

- Ranks.HowRanksEnd: assumes that ranks which all pass their checks hold equally many rows, because what a MAX reduction does with vectors of different lengths is the collective library's business; the settings are the same on all ranks; a budget that is not positive is refused before (`bshd_token_batching.py:84-85`), and the padding multiple and the global batch are taken to be positive.
- Widths.SumOfGather: over real numbers; the rounding of floating-point sums is not modelled.
- Widths.BatchWidths: row numbers are naturals, so Python's negative indices are not modelled.
- FrontDoor.NormalizeBody: the parsed body is a value; freshly parsed JSON shares no parts, so editing it in place shows no aliasing.
- Invocation.ExitLeavesBehind: the front door is taken to handle every request it receives; its peer filter is not modelled.
- Invocation.StepKeepsInv: the order in which waiting tasks get slots is not modelled, and neither is why a setting is missing or a payload cannot be printed; both are steps that may happen.
- EpochSource.BoundedSource.FetchAll: the wrapped source's rows are not modelled, only that a fetch advances its position by the rows asked for.
- Episode.RunEpisode: the calculator, the reading of tool arguments and the quoting of names are arbitrary functions, so which expressions and arguments raise is not modelled; the text of the rejection is shortened; sampling parameters and time measurements are not modelled.
- Episode.Ping.Finish: the reply built for an episode that raises is not modelled.
- Retry.Generate: metadata values are immutable here, so copying a sample and deep-copying it are the same; generator calls are arbitrary behaviours chosen from outside.
- Token.SignedTokensVerify: the digest is an arbitrary function and JSON reads back the payload it printed, so forgery resistance is not a statement here; key order is not modelled.
- Token.AcceptedTokensAreAuthentic: numbers are finite, so an expiry that is infinite or not a number is not modelled; a body that is no JSON object, or an expiry that is no number, boolean or numeric text, counts as refused, although the source raises errors of other types on some of these.
- Token.ProxiedAndDirectAgree: hosts and session ids need no percent-encoding, URLs use http, and digits are ASCII digits.
- Torch tensors, process groups, the iterator over microbatches and the installation hook: library code; the reduction is an abstract pointwise maximum. The scope checks on settings are single branches.
- HTTP servers and clients, streaming relays, boto3, logging and clocks: outcomes and times are parameters. Random jitter is a parameter in [0, 1).
- Peer filtering, header forwarding and the catch-all route of the front door and the proxy: single-branch checks.
- The contents of the payloads and results around an invocation, and the reward function: field copying and floating-point comparison.
- The session message matcher, launchers, data conversion, fake servers and smoke checks: orchestration around code that is not part of this model.
