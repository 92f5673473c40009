# CityFlow signal driver with an LLM controller — a Dafny model

The modelled program drives a CityFlow traffic simulation. At every step it:

1. reads the engine's per-lane counters and folds them into one record per intersection (`get_state`);
2. on every `tl_update_interval`-th step, asks a chat-completion service for one signal phase per intersection (`DeepSeekController.get_action`);
3. applies those phases with `set_tl_phase`, isolating each intersection's failure and retrying once at phase 0;
4. advances the engine with `next_step`.

Any exception inside an iteration is caught, and the handler makes one more `next_step` attempt. At the end the engine is terminated, tolerating failure, and the final vehicle count is reported.

## Modules

- `PyDicts` (dicts.dfy) models Python dicts as insertion-ordered association lists, so `d.items()` visits pairs in the order the program sees them.
  - Assigning to an absent key appends; assigning to a present key replaces the value in place.
  - `d.get(k, 0)` is `Get`.
- `Engine` (engine.dfy) models the CityFlow engine as a class `Simulator`.
  - Its mutable state is the log of calls made to it. Each call records whether it returned normally.
  - The current phases and the number of steps taken are functions of that log.
  - A `Setup` fixes which log positions raise, the lane counters after each number of steps, and whether the engine has `get_tl_phase`, `get_vehicles` and `terminate` at all.
- `Aggregation` (aggregation.dfy) holds `get_state` as pure functions:
  - `Contains` is Python's substring `in`, scanning windows;
  - `RelatedLanes` is the lane filter;
  - `SumCounts` is the two sums;
  - `PhaseOrDefault` is the phase query with its fallback;
  - `GetState` is the id loop that builds the state dict.
- `Controller` (controller.dfy) holds the decision provider.
  - The HTTP request and `json.loads` are an oracle answering `Failed` or `Parsed(dict)`.
  - `FillMissing` specifies the fill loop and `DefaultActions` the failure default.
  - `DeepSeekController.GetAction` runs the fill loop in place and is proved equal to `Decide`.
  - The controller keeps a ghost log `asked` of the steps at which the service was asked. The loop's contracts say exactly when it grows.
- `ControlLoop` (control_loop.dfy) holds `main` from the engine's construction on.
  - Each part is an imperative method on the engine. Each method is proved to append exactly the calls that a specification function predicts: `ApplyOne`/`ApplyAll` for the apply block, `AdvanceCalls` for the advance block, `IterationSpec` for one loop body, `RunSpec` for the whole loop and `ShutdownCalls` for the shutdown.
  - The promised properties are lemmas about those functions: cadence, retry, isolation and the number of `next_step` attempts.

Four behaviours of the code worth knowing:

- On a successful reply, keys of the reply that are not intersection ids are kept. The result's keys are those of the reply plus the ids, not exactly the ids (`Controller.FillKeys`).
- The final vehicle count (run.py:121) is guarded only by whether the engine has `get_vehicles`. If that call raises, `main` ends with the exception and prints no summary (`Outcome.Crashed` in `ControlLoop.RunSimulation`).
- A zero update interval is not excluded up front. `step % 0` raises inside the try block, so every iteration senses and then takes the handler's `next_step` only (`ControlLoop.TailCalls`, `ControlLoop.IterationFacts`).
- On a report step (every 100th), `next_step` may succeed and the vehicle query behind the progress line may then raise (run.py:102). The handler's `next_step` (run.py:108) then takes a second simulation step in the same iteration (`ControlLoop.ReportFailureStepsTwice`).

## Model

| member | source | states |
|---|---|---|
| PyDicts.GetAt | run.py:21-22 | in a dict without duplicate keys, `d.get(k, default)` is the value paired with `k` |
| PyDicts.GetAbsent | run.py:21-22 | `d.get(k, default)` is the default when no pair has key `k` |
| PyDicts.Put | controller_deepseek.py:64 | assigning a key keeps the key order; an absent key is appended with its value |
| PyDicts.PutLookup | controller_deepseek.py:64 | after `d[k] = v`, `k` maps to `v` and every other present key keeps its value |
| PyDicts.PutWf | run.py:31 | assigning a key never creates a duplicate key |
| PyDicts.LookupPrefix | controller_deepseek.py:62-64 | appending pairs does not change the value of a key already present |
| Engine.Succeeds | run.py:86-114 | definition: a call returns normally unless its log position is faulty or the engine lacks the method it needs |
| Engine.PhasesAfter | run.py:87 | definition: the signal phases after a call log; every successful `set_tl_phase` takes effect |
| Engine.Advances | run.py:98 | definition: the number of simulation steps a call log has taken, one per successful `next_step` |
| Engine.PhaseReply | run.py:25-28 | definition: the phases `get_tl_phase` reports after a call log; nothing when the engine lacks the method |
| Engine.Simulator.constructor | run.py:44 | a fresh engine has an empty call log, its initial phases and step 0 |
| Engine.Simulator.Observe | run.py:13-15 | the counter reads append one call; when it succeeds they return the counters of the current step; phases and time are unchanged |
| Engine.Simulator.SetTlPhase | run.py:87 | appends one call; the phase of `id` becomes `phase` exactly when the call succeeds; time is unchanged |
| Engine.Simulator.NextStep | run.py:98 | appends one call; time advances by one exactly when the call succeeds; phases are unchanged |
| Engine.Simulator.CountVehicles | run.py:102 | appends one call; on success returns the number of vehicles now in the simulation |
| Engine.Simulator.Terminate | run.py:114 | appends one call; fails when the engine raises or has no `terminate` |
| Engine.AdvancesAppend | run.py:98 | the steps taken by two call sequences add up |
| Engine.PhasesAfterAppend | run.py:87 | the phases after two call sequences are the second replayed on the phases after the first |
| Aggregation.Contains | run.py:19 | definition: Python's `inter_id in lane` on strings, scanning windows left to right |
| Aggregation.RelatedLanes | run.py:19 | definition: the lanes whose name contains the intersection id, in key order |
| Aggregation.SumCounts | run.py:21-22 | definition: the sum of `counts.get(lane, 0)` over the lanes |
| Aggregation.PhaseOrDefault | run.py:25-28 | definition: the phase query's answer, or 0 when it raised |
| Aggregation.Record | run.py:19-38 | definition: one intersection's record, as the dict literal builds it |
| Aggregation.GetState | run.py:11-39 | definition: `state[inter_id] = record` for each id in order |
| Aggregation.ContainsIsSubstring | run.py:19 | the window scan answers true exactly when the id occurs as a contiguous piece of the lane name |
| Aggregation.RelatedLanesMembers | run.py:19 | a lane is related exactly when it is in the lane list and contains the intersection id |
| Aggregation.RelatedLanesAppend | run.py:19 | the filter keeps the lanes' order: it distributes over concatenation |
| Aggregation.SumCountsAppend | run.py:21-22 | the sum over concatenated lane lists is the sum of the two sums |
| Aggregation.SumCountsSkipsAbsent | run.py:22 | a lane missing from the counter map contributes 0 |
| Aggregation.FirstCharAbsent | run.py:19 | an id whose first character does not occur in a lane name is not contained in it |
| Aggregation.NotContainsPastFirst | run.py:19 | an id that is not a prefix of the lane name, and whose first character occurs nowhere after position 0, is not contained in it |
| Aggregation.GetStateKeys | run.py:17-38 | the state has a key exactly for each intersection id, and no other key |
| Aggregation.GetStateWf | run.py:17-38 | the state holds no key twice, even when an id is repeated |
| Aggregation.GetStateLookup | run.py:17-38 | each id's entry is its record, wherever the id occurs in the list |
| Aggregation.StateRecordMeaning | run.py:17-38 | each record names its id; its related lanes are exactly the count-map lanes that contain the id; its totals are the sums over those lanes, 0 when none match; its phase is the query's answer, or 0 when the query raised; every record carries the total vehicle count |
| Aggregation.TwoIntersectionScenario | run.py:17-38 | for lanes I0_lane1:3, I0_lane2:2, I1_lane1:1 and waiting I0_lane1:1, I0 totals 5 vehicles and 1 waiting, and I1 totals 1 and 0 |
| Aggregation.ScenarioLanes | run.py:19 | in that example, I0 owns the two I0 lanes and I1 owns I1_lane1 |
| Aggregation.ScenarioCounts | run.py:21-22 | the example's sums over those lanes, with absent waiting lanes counting 0 |
| Aggregation.ScenarioRecordI0 | run.py:19-22 | the example's record for I0 totals 5 vehicles and 1 waiting |
| Aggregation.ScenarioRecordI1 | run.py:19-22 | the example's record for I1 totals 1 vehicle and 0 waiting |
| Controller.FillMissing | controller_deepseek.py:62-64 | definition: the fill loop over the intersection ids, assigning phase 0 to each absent one |
| Controller.DefaultActions | controller_deepseek.py:72 | definition: `{inter_id: 1 for inter_id in intersection_ids}` |
| Controller.Decide | controller_deepseek.py:46-74 | definition: the fill of the parsed reply on success, the default on failure |
| Controller.DeepSeekController.constructor | controller_deepseek.py:10-12 | the intersection ids and the total step count are stored unchanged; nothing has been asked yet |
| Controller.DeepSeekController.GetAction | controller_deepseek.py:46-74 | each call asks the service once and logs its step. The in-place fill loop yields the fill of the parsed reply on success and the all-1 default on failure. It always returns, and every intersection id is a key of the result |
| Controller.FillExtends | controller_deepseek.py:62-64 | the fill only appends: the parsed reply is a prefix of the result |
| Controller.FillKeys | controller_deepseek.py:62-64 | after the fill, a key is present exactly when it was in the reply or is an intersection id |
| Controller.FillKeepsResponse | controller_deepseek.py:60-67 | entries already in the reply keep their values |
| Controller.FillMissingIsZero | controller_deepseek.py:63-64 | an id missing from the reply is assigned phase 0 |
| Controller.FillNothingMissing | controller_deepseek.py:62-64 | a reply that already names every id is returned unchanged |
| Controller.FillIdempotent | controller_deepseek.py:62-64 | filling the fill's own output changes nothing |
| Controller.FillWf | controller_deepseek.py:62-64 | a reply without duplicate keys stays without them |
| Controller.DefaultKeys | controller_deepseek.py:72 | the failure default's keys are exactly the intersection ids |
| Controller.DefaultValue | controller_deepseek.py:72 | the failure default gives every intersection id phase 1 |
| Controller.DefaultWf | controller_deepseek.py:72 | the failure default holds no key twice |
| Controller.DecideCovers | controller_deepseek.py:46-74 | whatever the oracle answers, every intersection id gets a phase |
| Controller.DecideWf | controller_deepseek.py:46-74 | the returned dict has no duplicate keys when the parsed reply has none |
| Controller.FallbacksDiffer | controller_deepseek.py:62-72 | an id missing from a successful reply gets 0, while a failed request gives it 1 |
| ControlLoop.StepCount | run.py:75 | definition: the number of steps `range(total_steps)` visits, 0 for a negative count |
| ControlLoop.ApplyOne | run.py:86-95 | definition: one pair's calls: the requested phase, then after a failure (of the call or of `int(phase)`) one retry at phase 0 |
| ControlLoop.ApplyRange | run.py:85-95 | definition: the calls for a range of pairs, each made where the previous pair's calls ended |
| ControlLoop.ApplyAll | run.py:85-95 | definition: the calls for every pair of the dict, in dict order |
| ControlLoop.Snapshot | run.py:6-39 | definition: what `get_state` reports at the current step and phases |
| ControlLoop.OnCadence | run.py:81 | definition: `step % interval == 0`, false for a zero interval, whose `%` raises |
| ControlLoop.ControllerPlan | run.py:83 | definition: the controller's answer to the sensed state at a step |
| ControlLoop.AppliedCalls | run.py:81-95 | definition: on a sensed step, nothing off the cadence, otherwise the apply loop over the controller's answer |
| ControlLoop.AdvanceCalls | run.py:98-110 | definition: `next_step`, the report query on every 100th step, and the handler's `next_step` after either raised |
| ControlLoop.HeadCalls | run.py:77-95 | definition: the sensing call, then the apply phase when sensing succeeded |
| ControlLoop.TailCalls | run.py:98-110 | definition: the handler's `next_step` after a raise before line 98, the advance block otherwise |
| ControlLoop.Raised | run.py:76-105 | definition: an engine call other than `set_tl_phase` failed, so an exception left the try block |
| ControlLoop.IterationSpec | run.py:76-110 | definition: one loop body's calls and whether it sensed and asked the controller |
| ControlLoop.AskedSteps | run.py:81-83 | definition: the steps at which iterations asked the controller, in order |
| ControlLoop.RunSpec | run.py:75-110 | the loop's iterations, one per step, each on the log the previous one left; there are exactly n of them |
| ControlLoop.ShutdownCalls | run.py:113-121 | definition: `terminate`, then the final vehicle query when the engine has `get_vehicles` |
| ControlLoop.IdsOrDefault | run.py:60-61 | the id list is never empty: loaded ids are kept, and an empty list becomes `["intersection_0"]` |
| ControlLoop.ApplyPair | run.py:86-95 | one pair's engine calls are exactly those `ApplyOne` predicts |
| ControlLoop.ApplyActions | run.py:85-95 | the loop over `actions.items()` makes exactly the calls `ApplyAll` predicts, pair after pair in dict order |
| ControlLoop.ApplyOneRetriesOnce | run.py:86-95 | each pair makes one or two `set_tl_phase` calls, all on its own id. For a convertible phase, the first asks for that phase and a second follows exactly when the first failed. When `int(phase)` raises, the single call is the retry. Any retry asks for phase 0 |
| ControlLoop.ApplyOneOutcome | run.py:86-95 | a pair leaves its intersection at the requested phase, else at 0 if the retry succeeded, else unchanged |
| ControlLoop.ApplyRangeSplit | run.py:85-95 | the calls for a range of pairs are those for its first part, then those for the rest, made where the first part ended |
| ControlLoop.ApplyAllAround | run.py:85-95 | the calls for the dict are those before pair `i`, then pair `i`'s own calls, then those after it |
| ControlLoop.ApplyRangeTargets | run.py:85-95 | every call for a range of pairs is a `set_tl_phase` on the key of a pair in that range |
| ControlLoop.ApplyAllTargetsKeys | run.py:85-95 | every apply-phase call is a `set_tl_phase` on a key of the actions dict |
| ControlLoop.ApplyAllReachesEveryKey | run.py:85-95 | every key of the actions dict gets a `set_tl_phase` attempt, whatever failed before it |
| ControlLoop.PhasesAfterElsewhere | run.py:85-95 | calls that never target an intersection leave its phase alone |
| ControlLoop.ApplyIsolation | run.py:85-95 | in a dict without duplicate keys, the phase left for each intersection depends only on that pair's own calls, whatever happened to the others |
| ControlLoop.OthersStillApplied | run.py:85-95 | an intersection whose requested `set_tl_phase` succeeds ends at that phase, even after other intersections' calls and retries failed |
| ControlLoop.Sense | run.py:6-39 | `get_state` makes one counter-read call; when it succeeds, the result is the aggregation of the current counters and phases |
| ControlLoop.SenseAndDecide | run.py:77-95 | the controller's request log grows by this step exactly when sensing succeeded and `step % interval == 0`, and by nothing otherwise; its answer is then applied exactly as `ApplyAll` predicts |
| ControlLoop.Advance | run.py:98-110 | `next_step`, then the report every 100 steps; a failure of either leads to the handler's one extra `next_step` |
| ControlLoop.FinishIteration | run.py:98-110 | after a failed sensing or a zero interval, only the handler's `next_step`; otherwise the advance block |
| ControlLoop.Iterate | run.py:76-110 | one loop body makes exactly the calls `IterationSpec` predicts; the controller is asked once, at this step, exactly when the iteration decided |
| ControlLoop.AppliedCallsFacts | run.py:81-95 | the apply phase issues `set_tl_phase` calls only, takes no step, and without faults all of them succeed |
| ControlLoop.ReportFailureStepsTwice | run.py:101-108 | on a report step where `next_step` succeeded and the vehicle query raised, the handler's successful `next_step` makes the iteration take two simulation steps |
| ControlLoop.AdvanceCallsFacts | run.py:98-110 | the advance block starts with `next_step` and issues no `set_tl_phase`; it attempts `next_step` once (taking one step) when nothing raised, and twice otherwise |
| ControlLoop.HeadFacts | run.py:77-95 | before `next_step`: the sensing call, then only `set_tl_phase` calls, and those only on a sensed step on the cadence |
| ControlLoop.TailFacts | run.py:98-110 | from `next_step` on: no `set_tl_phase`; the handler's single `next_step` after a raise before line 98; otherwise the advance block's counts |
| ControlLoop.IterationCadence | run.py:76-95 | the cadence part of one iteration: the controller runs exactly when sensing succeeded on a step with `step % interval == 0`, and `set_tl_phase` is issued on no other step |
| ControlLoop.IterationFacts | run.py:76-110 | each iteration starts by sensing. The controller runs exactly on sensed steps on the cadence, and `set_tl_phase` is issued on no other step. `next_step` is attempted once when nothing raised, once (from the handler) after a raise before line 98, and twice after a raise at or after it |
| ControlLoop.DecidedIterationCovers | run.py:81-95 | on a decided step, every id the controller's answer names gets a `set_tl_phase` attempt |
| ControlLoop.DecidedIterationReachesEveryId | run.py:81-95 | on a decided step, every intersection id gets a `set_tl_phase` attempt, whatever the service answered |
| ControlLoop.ControllerPlanIsolation | run.py:83-95 | when the oracle only ever parses replies without repeated keys, as `json.loads` yields, the controller's answer has no repeated key, and each intersection's phase after the apply loop depends only on its own pair's calls |
| ControlLoop.FaultFreeIteration | run.py:76-110 | without faults, and with `get_vehicles` present, an iteration senses and takes exactly one step |
| ControlLoop.RunEndCalls | run.py:75-110 | the log after the loop is the log before it followed by every iteration's calls |
| ControlLoop.RunSpecAt | run.py:75-110 | iteration `k` is the loop body at step `k`, on the log the earlier iterations left |
| ControlLoop.RunCadence | run.py:75-95 | the loop visits steps 0 .. n-1 once each, in order; an iteration decides exactly when its sensing succeeded on a step on the cadence; no `set_tl_phase` is issued on any other step |
| ControlLoop.AskedStepsSnoc | run.py:83 | one more iteration adds its own request, if any, at the end of the log |
| ControlLoop.AskedStepsAppend | run.py:83 | the requests of consecutive runs of iterations are concatenated |
| ControlLoop.AskedStepsNone | run.py:81 | iterations that did not decide add no request |
| ControlLoop.AskedStepsOrdered | run.py:75-83 | for iterations numbered by step, the request log holds exactly the steps that asked, once each, in increasing order |
| ControlLoop.RunAskedSteps | run.py:75-83 | over the loop, the controller is asked exactly at the sensed steps on the cadence, once each, in increasing order |
| ControlLoop.AskedInTen | run.py:75-83 | ten iterations that decide exactly on sensed multiples of five ask at step 0 and step 5 only |
| ControlLoop.IterationAttempts | run.py:98-110 | an iteration attempts `next_step` once or twice; twice exactly when an engine call raised after a successful sensing on a nonzero interval |
| ControlLoop.RunStepAttempts | run.py:75-110 | the same holds for every iteration of the loop |
| ControlLoop.RunAdvances | run.py:75-110 | a run of n steps makes between n and 2n `next_step` attempts |
| ControlLoop.FaultFreeSteps | run.py:75-110 | without faults every iteration senses and takes exactly one step |
| ControlLoop.FaultFreeRun | run.py:75-110 | without faults a run of n steps attempts `next_step` n times and takes n steps |
| ControlLoop.TenStepScenario | run.py:75-83 | with ten steps and interval 5, the request log is step 0 (if sensed there) followed by step 5 (if sensed there); without faults it is exactly [0, 5] and ten steps are taken |
| ControlLoop.RunStep | run.py:76-110 | one pass of the loop makes the calls of the run's specification for that step, and asks the controller exactly when it decided |
| ControlLoop.RunSteps | run.py:75-110 | the loop's trace is `RunSpec`: each iteration is the loop body on the log the previous ones left. The engine's log gains exactly their calls, and the controller's request log gains exactly `AskedSteps` of the trace |
| ControlLoop.RunSimulation | run.py:51-121 | `main` runs the loop over the ids or their default, asking a fresh controller that holds those ids at exactly the steps `AskedSteps` of the trace gives. It then terminates with failures tolerated, then counts. The count is 0 without `get_vehicles`, the engine's vehicle total when that call succeeds, and a crash when it raises |

## Left out

- Engine construction (run.py:43-49): reading `config.json` and the early return when it fails. The model starts from a constructed engine.
- Road-network loading (run.py:52-58): the ids read from `data/roadnet.json` are the parameter `loadedIds`, and any read or parse failure is the empty list.
- Environment parsing (run.py:67-68): the step count and interval arrive as integers. An `int()` failure there happens before the loop and is not modelled.
- The HTTP round trip, prompt, headers, API key, URL and model name (controller_deepseek.py:13-59). They are the oracle `Oracle`. The prompt carries the state and the intersection ids, which the controller holds. The step is not in the prompt; it only indexes the oracle, so replies may differ from call to call.
- Controller.DeepSeekController.GetAction: a reply that is valid JSON but not an object is treated as a failed request. For numbers, `null`, booleans, and lists or strings missing an id, the source's fill raises, so it also returns the default. A list or string that already contains every id would be returned unchanged, and its `.items()` would then raise in the loop.
- Controller.PhaseValue: `int(phase)` on arbitrary JSON values is reduced to "converts to n" or "raises". Python's conversion rules (floats truncated, booleans as 0/1, numeric strings) are not modelled.
- A JSON object with a repeated key keeps its last value in Python. The parsed reply is taken as already a dict, and `Controller.Reply` does not itself exclude repeated keys. `Controller.DecideWf` and `ControlLoop.ApplyIsolation` assume a reply without them, and `ControlLoop.ControllerPlanIsolation` states that assumption about the oracle.
- Engine.Simulator.Observe: the three counter reads of `get_state` (run.py:13-15) are one logged call. A failure of any one of them has the same effect, since all three sit in the same try block.
- The per-intersection `get_tl_phase` queries (run.py:25-28) are not logged as calls. They answer from the current phases when the engine has the method, and raise (giving phase 0) when it lacks it or the id has no phase.
- Vehicle dynamics and the engine's internal threads (run.py:44): the counters after each step count come from `Setup.traffic`.
- Console output (every `print`, including the progress lines of run.py:88-89 and 101-103 and the summary of run.py:122-126). Printing cannot change the engine, so only the vehicle-count query behind the progress line is kept.
- Terminate's two handlers (run.py:115-118) differ only in what they print. Both are modelled as a tolerated failure.
- Exceptions outside `Exception`, such as a keyboard interrupt, are not modelled. The bare `except:` clauses (run.py:27, 57, 94, 109) swallow them; anywhere else they end `main`.
