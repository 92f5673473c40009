/**
 * The control loop (`main` in run.py): for each step, sense, decide on the
 * update cadence, apply the phases with per-intersection isolation and one
 * retry at phase 0, and advance; any exception of the iteration is caught
 * and followed by another next_step attempt. Each part is an imperative
 * method on the engine, proved to append exactly the calls a specification
 * function predicts, and the properties of the loop are lemmas about those
 * functions.
 */
module ControlLoop {
  import opened Wrappers
  import opened PyDicts
  import opened Aggregation
  import opened Controller
  import opened Engine

  /** The id used when none could be read from the road network (run.py:60-61). */
  const DefaultIntersectionId := "intersection_0"

  /** Steps between progress reports, which also query the vehicle count. */
  const ReportInterval := 100

  /** run.py:60-61: the loop always has at least one intersection. */
  function IdsOrDefault(loaded: seq<string>): (ids: seq<string>)
    ensures ids != []
    ensures loaded != [] ==> ids == loaded
    ensures loaded == [] ==> ids == [DefaultIntersectionId]
  {
    if loaded == [] then [DefaultIntersectionId] else loaded
  }

  /** `range(total_steps)` is empty for a negative count. */
  function StepCount(totalSteps: int): nat
  {
    if totalSteps < 0 then 0 else totalSteps
  }

  // ---------------------------------------------------------------------------
  // Applying one decision (run.py:85-95)
  // ---------------------------------------------------------------------------

  /**
   * The engine calls made for one `(inter_id, phase)` pair when the log has
   * length `at`: the requested phase, and after a failure (of the call or of
   * `int(phase)`) one retry at phase 0 whose own failure is swallowed.
   */
  function ApplyOne(su: Setup, at: nat, id: string, value: PhaseValue): seq<Call>
  {
    match value
    case Num(p) =>
      if Succeeds(su, SetPhase(id, p), at) then [Call(SetPhase(id, p), true)]
      else [Call(SetPhase(id, p), false), Call(SetPhase(id, 0), Succeeds(su, SetPhase(id, 0), at + 1))]
    case Unconvertible =>
      [Call(SetPhase(id, 0), Succeeds(su, SetPhase(id, 0), at))]
  }

  /**
   * The calls made for pairs `lo` .. `hi - 1` of the dict, in the dict's
   * order, when the engine's log is `log` before the first of them: each
   * pair's calls are made where the previous pair's ended.
   */
  function ApplyRange(su: Setup, log: seq<Call>, actions: Dict<PhaseValue>, lo: nat, hi: nat): seq<Call>
    requires lo <= hi <= |actions|
    decreases hi - lo
  {
    if lo == hi then []
    else
      var own := ApplyOne(su, |log|, actions[lo].0, actions[lo].1);
      own + ApplyRange(su, log + own, actions, lo + 1, hi)
  }

  /** The calls made for all pairs of the dict. */
  function ApplyAll(su: Setup, log: seq<Call>, actions: Dict<PhaseValue>): seq<Call>
  {
    ApplyRange(su, log, actions, 0, |actions|)
  }

  /** One `(inter_id, phase)` pair of run.py:86-95: set the phase, else retry at phase 0. */
  method ApplyPair(eng: Simulator, id: string, value: PhaseValue)
    modifies eng
    ensures eng.log == old(eng.log) + ApplyOne(eng.setup, |old(eng.log)|, id, value)
  {
    match value {
      case Num(p) =>
        var ok := eng.SetTlPhase(id, p);
        if !ok {
          var retried := eng.SetTlPhase(id, 0);
        }
      case Unconvertible =>
        var fallback := eng.SetTlPhase(id, 0);
    }
  }

  /** The inner loop of run.py:85-95, over the pairs in the dict's order. */
  method ApplyActions(eng: Simulator, actions: Dict<PhaseValue>)
    modifies eng
    ensures eng.log == old(eng.log) + ApplyAll(eng.setup, old(eng.log), actions)
  {
    ghost var log0 := eng.log;
    for i := 0 to |actions|
      invariant log0 + ApplyAll(eng.setup, log0, actions)
             == eng.log + ApplyRange(eng.setup, eng.log, actions, i, |actions|)
    {
      ghost var before := eng.log;
      ghost var own := ApplyOne(eng.setup, |before|, actions[i].0, actions[i].1);
      ApplyPair(eng, actions[i].0, actions[i].1);
      ghost var after := ApplyRange(eng.setup, before + own, actions, i + 1, |actions|);
      assert before + (own + after) == before + own + after;
    }
    assert eng.log + [] == eng.log;
  }

  /**
   * One pair's calls: one or two set_tl_phase calls on that intersection.
   * For a convertible phase the first asks for it and a second follows
   * exactly when the first failed; when the phase cannot be converted the
   * only call is the retry. Every retry asks for phase 0.
   */
  lemma ApplyOneRetriesOnce(su: Setup, at: nat, id: string, value: PhaseValue)
    ensures var calls := ApplyOne(su, at, id, value);
      && 1 <= |calls| <= 2
      && (forall c :: c in calls ==> c.op.SetPhase? && c.op.id == id)
      && (value.Num? ==> calls[0].op.phase == value.n && (|calls| == 2 <==> !calls[0].ok))
      && (value.Unconvertible? ==> |calls| == 1)
      && (|calls| == 2 || value.Unconvertible? ==> calls[|calls| - 1].op.phase == 0)
  {
  }

  lemma PhasesAfterSingle(phases: map<string, int>, c: Call)
    ensures PhasesAfter(phases, [c]) == if c.ok && c.op.SetPhase? then phases[c.op.id := c.op.phase] else phases
  {
    assert [c][..0] == [];
  }

  /** The effect of one pair on the phases: requested phase, else 0, else unchanged. */
  lemma ApplyOneOutcome(su: Setup, at: nat, id: string, value: PhaseValue, phases: map<string, int>)
    ensures var calls := ApplyOne(su, at, id, value);
      PhasesAfter(phases, calls) ==
        if calls[0].ok && value.Num? then phases[id := value.n]
        else if calls[|calls| - 1].ok then phases[id := 0]
        else phases
  {
    var calls := ApplyOne(su, at, id, value);
    PhasesAfterSingle(phases, calls[0]);
    if |calls| == 2 {
      assert calls == [calls[0]] + [calls[1]];
      PhasesAfterAppend(phases, [calls[0]], [calls[1]]);
      PhasesAfterSingle(PhasesAfter(phases, [calls[0]]), calls[1]);
    } else {
      assert calls == [calls[0]];
    }
  }

  /** The calls for a range are those for its first part followed by those for the rest, made after them. */
  lemma {:induction false} ApplyRangeSplit(su: Setup, log: seq<Call>, actions: Dict<PhaseValue>, lo: nat, mid: nat, hi: nat)
    requires lo <= mid <= hi <= |actions|
    ensures var first := ApplyRange(su, log, actions, lo, mid);
      ApplyRange(su, log, actions, lo, hi) == first + ApplyRange(su, log + first, actions, mid, hi)
    decreases mid - lo
  {
    if lo == mid {
      assert log + [] == log;
    } else {
      var own := ApplyOne(su, |log|, actions[lo].0, actions[lo].1);
      var rest := ApplyRange(su, log + own, actions, lo + 1, mid);
      var after := ApplyRange(su, log + own + rest, actions, mid, hi);
      assert log + (own + rest) == log + own + rest && own + (rest + after) == own + rest + after by {
        assert forall a: seq<Call>, b: seq<Call>, c: seq<Call> :: a + (b + c) == a + b + c;
      }
      ApplyRangeSplit(su, log + own, actions, lo + 1, mid, hi);
    }
  }

  /** The calls for the whole dict are those before pair `i`, those for pair `i`, and those after it. */
  lemma ApplyAllAround(su: Setup, log: seq<Call>, actions: Dict<PhaseValue>, i: nat)
    requires i < |actions|
    ensures var pre := ApplyRange(su, log, actions, 0, i);
      var own := ApplyOne(su, |log + pre|, actions[i].0, actions[i].1);
      ApplyAll(su, log, actions) == pre + own + ApplyRange(su, log + pre + own, actions, i + 1, |actions|)
  {
    var pre := ApplyRange(su, log, actions, 0, i);
    var own := ApplyOne(su, |log + pre|, actions[i].0, actions[i].1);
    ApplyRangeSplit(su, log, actions, 0, i, |actions|);
    var post := ApplyRange(su, log + pre + own, actions, i + 1, |actions|);
    assert pre + (own + post) == pre + own + post;
  }

  /** Every call for a range of pairs is a set_tl_phase on the key of one of them. */
  lemma {:induction false} ApplyRangeTargets(su: Setup, log: seq<Call>, actions: Dict<PhaseValue>, lo: nat, hi: nat, c: Call)
    requires lo <= hi <= |actions| && c in ApplyRange(su, log, actions, lo, hi)
    ensures c.op.SetPhase? && exists j :: lo <= j < hi && actions[j].0 == c.op.id
    decreases hi - lo
  {
    var own := ApplyOne(su, |log|, actions[lo].0, actions[lo].1);
    if c in own {
      ApplyOneRetriesOnce(su, |log|, actions[lo].0, actions[lo].1);
      assert actions[lo].0 == c.op.id;
    } else {
      ApplyRangeTargets(su, log + own, actions, lo + 1, hi, c);
    }
  }

  /** Every call of the apply phase is a set_tl_phase on one of the dict's keys. */
  lemma ApplyAllTargetsKeys(su: Setup, log: seq<Call>, actions: Dict<PhaseValue>, c: Call)
    requires c in ApplyAll(su, log, actions)
    ensures c.op.SetPhase? && HasKey(actions, c.op.id)
  {
    ApplyRangeTargets(su, log, actions, 0, |actions|, c);
    var j :| 0 <= j < |actions| && actions[j].0 == c.op.id;
    assert Keys(actions)[j] == c.op.id;
  }

  /** Every key of the dict gets a set_tl_phase call. */
  lemma ApplyAllReachesEveryKey(su: Setup, log: seq<Call>, actions: Dict<PhaseValue>, id: string)
    requires HasKey(actions, id)
    ensures exists c :: c in ApplyAll(su, log, actions) && c.op.SetPhase? && c.op.id == id
  {
    var j :| 0 <= j < |Keys(actions)| && Keys(actions)[j] == id;
    var pre := ApplyRange(su, log, actions, 0, j);
    var own := ApplyOne(su, |log + pre|, actions[j].0, actions[j].1);
    ApplyAllAround(su, log, actions, j);
    ApplyOneRetriesOnce(su, |log + pre|, actions[j].0, actions[j].1);
    assert own[0] in ApplyAll(su, log, actions);
  }

  /** `m1` and `m2` agree on `id`: both lack it or both map it to the same phase. */
  ghost predicate SameAt(m1: map<string, int>, m2: map<string, int>, id: string)
  {
    (id in m1 <==> id in m2) && (id in m1 ==> m1[id] == m2[id])
  }

  /** Calls that never target `id` leave its phase alone. */
  lemma {:induction false} PhasesAfterElsewhere(phases: map<string, int>, calls: seq<Call>, id: string)
    requires forall c :: c in calls ==> !(c.op.SetPhase? && c.op.id == id)
    ensures SameAt(PhasesAfter(phases, calls), phases, id)
  {
    if calls != [] {
      var init := calls[..|calls| - 1];
      assert forall c :: c in init ==> c in calls;
      assert calls[|calls| - 1] in calls;
      PhasesAfterElsewhere(phases, init, id);
    }
  }

  /** Replaying the same calls keeps two phase maps that agree on `id` in agreement. */
  lemma {:induction false} PhasesAfterSameAt(m1: map<string, int>, m2: map<string, int>, calls: seq<Call>, id: string)
    requires SameAt(m1, m2, id)
    ensures SameAt(PhasesAfter(m1, calls), PhasesAfter(m2, calls), id)
  {
    if calls != [] {
      PhasesAfterSameAt(m1, m2, calls[..|calls| - 1], id);
    }
  }

  /** Calls around `own` that never target `id` do not change what `own` leaves for it. */
  lemma PhasesAfterBetween(phases: map<string, int>, pre: seq<Call>, own: seq<Call>, post: seq<Call>, id: string)
    requires forall c :: c in pre ==> !(c.op.SetPhase? && c.op.id == id)
    requires forall c :: c in post ==> !(c.op.SetPhase? && c.op.id == id)
    ensures SameAt(PhasesAfter(phases, pre + own + post), PhasesAfter(phases, own), id)
  {
    var afterPre := PhasesAfter(phases, pre);
    var afterOwn := PhasesAfter(afterPre, own);
    PhasesAfterElsewhere(phases, pre, id);
    PhasesAfterSameAt(afterPre, phases, own, id);
    PhasesAfterElsewhere(afterOwn, post, id);
    PhasesAfterAppend(phases, pre + own, post);
    PhasesAfterAppend(phases, pre, own);
  }

  /** In a dict without duplicate keys, the pairs outside a range that holds `i` never target its key. */
  lemma ApplyRangeAvoids(su: Setup, log: seq<Call>, actions: Dict<PhaseValue>, lo: nat, hi: nat, i: nat)
    requires Wf(actions) && lo <= hi <= |actions| && i < |actions| && !(lo <= i < hi)
    ensures forall c :: c in ApplyRange(su, log, actions, lo, hi) ==> !(c.op.SetPhase? && c.op.id == actions[i].0)
  {
    forall c | c in ApplyRange(su, log, actions, lo, hi) ensures !(c.op.SetPhase? && c.op.id == actions[i].0) {
      ApplyRangeTargets(su, log, actions, lo, hi, c);
    }
  }

  /**
   * Fault isolation: in a dict without duplicate keys, what the apply phase
   * leaves for intersection `actions[i].0` depends only on that pair's own
   * calls, whatever happened to the other intersections before or after it.
   */
  lemma ApplyIsolation(su: Setup, log: seq<Call>, actions: Dict<PhaseValue>, i: nat, phases: map<string, int>)
    requires Wf(actions) && i < |actions|
    ensures var pre := ApplyRange(su, log, actions, 0, i);
      var own := ApplyOne(su, |log + pre|, actions[i].0, actions[i].1);
      SameAt(PhasesAfter(phases, ApplyAll(su, log, actions)), PhasesAfter(phases, own), actions[i].0)
  {
    var pre := ApplyRange(su, log, actions, 0, i);
    var own := ApplyOne(su, |log + pre|, actions[i].0, actions[i].1);
    ApplyAllAround(su, log, actions, i);
    ApplyRangeAvoids(su, log, actions, 0, i, i);
    ApplyRangeAvoids(su, log + pre + own, actions, i + 1, |actions|, i);
    PhasesAfterBetween(phases, pre, own, ApplyRange(su, log + pre + own, actions, i + 1, |actions|), actions[i].0);
  }

  /**
   * The scenario of a double failure: whatever happens to the other
   * intersections, one whose requested set_tl_phase succeeds ends with that phase.
   */
  lemma OthersStillApplied(su: Setup, log: seq<Call>, actions: Dict<PhaseValue>, i: nat, phases: map<string, int>)
    requires Wf(actions) && i < |actions| && actions[i].1.Num?
    requires |log + ApplyRange(su, log, actions, 0, i)| !in su.faulty
    ensures var final := PhasesAfter(phases, ApplyAll(su, log, actions));
      actions[i].0 in final && final[actions[i].0] == actions[i].1.n
  {
    ApplyIsolation(su, log, actions, i, phases);
    ApplyOneOutcome(su, |log + ApplyRange(su, log, actions, 0, i)|, actions[i].0, actions[i].1, phases);
  }

  // ---------------------------------------------------------------------------
  // One iteration of the step loop (run.py:75-110)
  // ---------------------------------------------------------------------------

  /** What one iteration did: its step, whether sensing and deciding ran, its engine calls. */
  datatype Iteration = Iteration(step: nat, sensed: bool, decided: bool, calls: seq<Call>)

  /** The step the controller was asked at in this iteration, if it was. */
  function Asked(it: Iteration): seq<int>
  {
    if it.decided then [it.step] else []
  }

  /** The steps at which the controller was asked during the iterations, in order. */
  function AskedSteps(its: seq<Iteration>): seq<int>
  {
    if its == [] then [] else AskedSteps(its[..|its| - 1]) + Asked(its[|its| - 1])
  }

  lemma AskedStepsSnoc(its: seq<Iteration>, it: Iteration)
    ensures AskedSteps(its + [it]) == AskedSteps(its) + Asked(it)
  {
    assert (its + [it])[..|its|] == its;
  }

  /** What `get_state` reports when sensing at the end of `log` succeeds. */
  function Snapshot(su: Setup, ids: seq<string>, log: seq<Call>): Dict<IntersectionState>
  {
    var c := su.traffic(Advances(log));
    GetState(c.laneVehicles, c.laneWaiting, c.vehicles, ids, PhaseReply(su, log))
  }

  /** Whether the controller is consulted at `step` (run.py:81); a zero interval raises instead. */
  predicate OnCadence(interval: int, step: nat)
  {
    interval != 0 && step % interval == 0
  }

  /** The assignment the controller returns at a step, given the engine's log when sensing succeeded. */
  type Planner = (nat, seq<Call>) -> Dict<PhaseValue>

  /** `controller.get_action(get_state(eng, intersection_ids), step)` as a planner. */
  function ControllerPlan(su: Setup, ids: seq<string>, oracle: Oracle): Planner
  {
    (step: nat, log: seq<Call>) => Decide(ids, oracle(Snapshot(su, ids, log), step))
  }

  /**
   * `plan` answers as `ControllerPlan(su, ids, oracle)` does, at every step
   * and log where the state has been sensed.
   */
  ghost predicate AsksController(plan: Planner, su: Setup, ids: seq<string>, oracle: Oracle)
  {
    forall step: nat, log: seq<Call> {:trigger plan(step, log), Snapshot(su, ids, log)} ::
      plan(step, log) == Decide(ids, oracle(Snapshot(su, ids, log), step))
  }

  /**
   * The set_tl_phase calls of an iteration whose sensing succeeded at the
   * end of `log`: none off the cadence.
   */
  function AppliedCalls(su: Setup, plan: Planner, interval: int, step: nat, log: seq<Call>): seq<Call>
  {
    if OnCadence(interval, step) then ApplyAll(su, log + [Call(Observe, true)], plan(step, log)) else []
  }

  /**
   * next_step and what follows it in the try block, starting at log
   * position `at`: a failure of next_step, or of the progress report's
   * vehicle query, lands in the handler, which tries next_step once more.
   */
  function AdvanceCalls(su: Setup, at: nat, step: nat): seq<Call>
  {
    if !Succeeds(su, NextStep, at) then
      [Call(NextStep, false), Call(NextStep, Succeeds(su, NextStep, at + 1))]
    else if step % ReportInterval != 0 then
      [Call(NextStep, true)]
    else if Succeeds(su, CountVehicles, at + 1) then
      [Call(NextStep, true), Call(CountVehicles, true)]
    else
      [Call(NextStep, true), Call(CountVehicles, false), Call(NextStep, Succeeds(su, NextStep, at + 2))]
  }

  /** `get_state` (run.py:6-39) on the engine: the counter reads and the aggregation; `None` when a read raised. */
  method Sense(eng: Simulator, ids: seq<string>) returns (state: Option<Dict<IntersectionState>>)
    modifies eng
    ensures eng.log == old(eng.log) + [Call(Observe, Succeeds(eng.setup, Observe, |old(eng.log)|))]
    ensures state == if Succeeds(eng.setup, Observe, |old(eng.log)|)
                     then Some(Snapshot(eng.setup, ids, old(eng.log))) else None
  {
    ghost var log0 := eng.log;
    var counters := eng.Observe();
    if counters.None? {
      return None;
    }
    var c := counters.value;
    var phases := if eng.setup.hasPhaseQuery then eng.Phases() else map[];
    assert phases == PhaseReply(eng.setup, log0);
    state := Some(GetState(c.laneVehicles, c.laneWaiting, c.vehicles, ids, phases));
  }

  /** run.py:98-110: next_step, the report every 100 steps, and the handler's retry. */
  method Advance(eng: Simulator, step: nat)
    modifies eng
    ensures eng.log == old(eng.log) + AdvanceCalls(eng.setup, |old(eng.log)|, step)
  {
    var advanced := eng.NextStep();
    if !advanced {
      var handled := eng.NextStep();
    } else if step % ReportInterval == 0 {
      var count := eng.CountVehicles();
      if count.None? {
        var handled := eng.NextStep();
      }
    }
  }

  /** The calls of the try block before next_step, when the engine's log is `log` at its start. */
  function HeadCalls(su: Setup, plan: Planner, interval: int, step: nat, log: seq<Call>): seq<Call>
  {
    [Call(Observe, Succeeds(su, Observe, |log|))]
    + if Succeeds(su, Observe, |log|) && interval != 0 then AppliedCalls(su, plan, interval, step, log) else []
  }

  /**
   * The calls from log position `at` on: the handler's next_step after
   * sensing or `step % 0` raised, otherwise the advance part.
   */
  function TailCalls(su: Setup, sensed: bool, interval: int, step: nat, at: nat): seq<Call>
  {
    if !sensed || interval == 0 then [Call(NextStep, Succeeds(su, NextStep, at))]
    else AdvanceCalls(su, at, step)
  }

  /** The iteration for `step` when the engine's log is `log` at its start. */
  function IterationSpec(su: Setup, plan: Planner, interval: int, step: nat, log: seq<Call>): Iteration
  {
    var sensed := Succeeds(su, Observe, |log|);
    var head := HeadCalls(su, plan, interval, step, log);
    Iteration(step, sensed, sensed && OnCadence(interval, step),
              head + TailCalls(su, sensed, interval, step, |log + head|))
  }

  /**
   * The try block of run.py:77-95 up to next_step: sense, and when that
   * succeeded and the step is on the cadence, ask the controller and apply
   * its answer. `step % 0` raises before the controller is asked.
   */
  method SenseAndDecide(eng: Simulator, ctrl: DeepSeekController, ids: seq<string>, interval: int,
                        step: nat, oracle: Oracle, ghost plan: Planner) returns (sensed: bool, decided: bool)
    requires ctrl.intersectionIds == ids && AsksController(plan, eng.setup, ids, oracle)
    modifies eng, ctrl
    ensures sensed == Succeeds(eng.setup, Observe, |old(eng.log)|)
    ensures decided == (sensed && OnCadence(interval, step))
    ensures ctrl.asked == old(ctrl.asked) + if decided then [step] else []
    ensures eng.log == old(eng.log) + [Call(Observe, sensed)]
                       + if sensed && interval != 0
                         then AppliedCalls(eng.setup, plan, interval, step, old(eng.log))
                         else []
  {
    var state := Sense(eng, ids);
    sensed := state.Some?;
    decided := false;
    if sensed && interval != 0 {
      decided := step % interval == 0;
      if decided {
        var actions := ctrl.GetAction(state.value, step, oracle);
        ApplyActions(eng, actions);
      }
    }
  }

  /** The rest of the iteration: next_step and the report, or the handler's next_step alone. */
  method FinishIteration(eng: Simulator, sensed: bool, interval: int, step: nat)
    modifies eng
    ensures eng.log == old(eng.log) + TailCalls(eng.setup, sensed, interval, step, |old(eng.log)|)
  {
    if !sensed || interval == 0 {
      var handled := eng.NextStep();
    } else {
      Advance(eng, step);
    }
  }

  /** The body of `for step in range(total_steps)`. */
  method Iterate(eng: Simulator, ctrl: DeepSeekController, ids: seq<string>, interval: int,
                 step: nat, oracle: Oracle, ghost plan: Planner) returns (it: Iteration)
    requires ctrl.intersectionIds == ids && AsksController(plan, eng.setup, ids, oracle)
    modifies eng, ctrl
    ensures it == IterationSpec(eng.setup, plan, interval, step, old(eng.log))
    ensures eng.log == old(eng.log) + it.calls
    ensures ctrl.asked == old(ctrl.asked) + Asked(it)
  {
    ghost var log0 := eng.log;
    var start := |eng.log|;
    var sensed, decided := SenseAndDecide(eng, ctrl, ids, interval, step, oracle, plan);
    ghost var head := HeadCalls(eng.setup, plan, interval, step, log0);
    assert eng.log == log0 + head;
    FinishIteration(eng, sensed, interval, step);
    ghost var tail := TailCalls(eng.setup, sensed, interval, step, |log0 + head|);
    assert log0 + (head + tail) == log0 + head + tail;
    assert (log0 + (head + tail))[|log0|..] == head + tail;
    it := Iteration(step, sensed, decided, eng.log[start..]);
  }

  /** The number of next_step attempts among the calls. */
  function NextSteps(calls: seq<Call>): nat
  {
    if calls == [] then 0
    else NextSteps(calls[..|calls| - 1]) + (if calls[|calls| - 1].op.NextStep? then 1 else 0)
  }

  lemma {:induction false} NextStepsAppend(a: seq<Call>, b: seq<Call>)
    ensures NextSteps(a + b) == NextSteps(a) + NextSteps(b)
  {
    if b == [] {
      assert a + b == a;
    } else {
      assert (a + b)[..|a + b| - 1] == a + b[..|b| - 1];
      NextStepsAppend(a, b[..|b| - 1]);
    }
  }

  lemma NextStepsSingle(c: Call)
    ensures NextSteps([c]) == if c.op.NextStep? then 1 else 0
    ensures Advances([c]) == if c == Call(NextStep, true) then 1 else 0
  {
    assert [c][..0] == [];
  }

  /** Calls that are all set_tl_phase attempts neither attempt nor take a step. */
  lemma {:induction false} SetPhasesOnly(calls: seq<Call>)
    requires forall c :: c in calls ==> c.op.SetPhase?
    ensures NextSteps(calls) == 0 && Advances(calls) == 0
  {
    if calls != [] {
      assert forall c :: c in calls[..|calls| - 1] ==> c in calls;
      assert calls[|calls| - 1] in calls;
      SetPhasesOnly(calls[..|calls| - 1]);
    }
  }

  /** Without faults every set_tl_phase of the apply phase succeeds. */
  lemma {:induction false} ApplyRangeCallsOk(su: Setup, log: seq<Call>, actions: Dict<PhaseValue>, lo: nat, hi: nat)
    requires su.faulty == {} && lo <= hi <= |actions|
    ensures forall c :: c in ApplyRange(su, log, actions, lo, hi) ==> c.ok
    decreases hi - lo
  {
    if lo < hi {
      var own := ApplyOne(su, |log|, actions[lo].0, actions[lo].1);
      ApplyRangeCallsOk(su, log + own, actions, lo + 1, hi);
    }
  }

  /** The apply phase issues set_tl_phase calls only, and without faults all succeed. */
  lemma AppliedCallsFacts(su: Setup, plan: Planner, interval: int, step: nat, log: seq<Call>)
    ensures var applied := AppliedCalls(su, plan, interval, step, log);
      && (forall c :: c in applied ==> c.op.SetPhase?)
      && NextSteps(applied) == 0 && Advances(applied) == 0
      && (su.faulty == {} ==> forall c :: c in applied ==> c.ok)
  {
    var applied := AppliedCalls(su, plan, interval, step, log);
    if OnCadence(interval, step) {
      var actions := plan(step, log);
      forall c | c in applied ensures c.op.SetPhase? {
        ApplyAllTargetsKeys(su, log + [Call(Observe, true)], actions, c);
      }
      if su.faulty == {} {
        ApplyRangeCallsOk(su, log + [Call(Observe, true)], actions, 0, |actions|);
      }
    }
    SetPhasesOnly(applied);
  }

  /** An exception left the iteration's try block from an engine call: a failed call other than set_tl_phase. */
  predicate Raised(calls: seq<Call>)
  {
    exists k :: 0 <= k < |calls| && !calls[k].ok && !calls[k].op.SetPhase?
  }

  /** When every call of `head` succeeded or is a set_tl_phase, only `tail` can raise. */
  lemma RaisedInTail(head: seq<Call>, tail: seq<Call>)
    requires forall k :: 0 <= k < |head| ==> head[k].ok || head[k].op.SetPhase?
    ensures Raised(head + tail) <==> Raised(tail)
  {
    var calls := head + tail;
    if Raised(calls) {
      var k :| 0 <= k < |calls| && !calls[k].ok && !calls[k].op.SetPhase?;
      assert calls[k] == tail[k - |head|];
    }
    if Raised(tail) {
      var k :| 0 <= k < |tail| && !tail[k].ok && !tail[k].op.SetPhase?;
      assert calls[|head| + k] == tail[k];
    }
  }

  /**
   * The advance part: no set_tl_phase; next_step attempted once if nothing
   * in it failed (and then a step is taken), twice otherwise.
   */
  lemma AdvanceCallsFacts(su: Setup, at: nat, step: nat)
    ensures var tail := AdvanceCalls(su, at, step);
      && tail != [] && tail[0].op == NextStep
      && (forall c :: c in tail ==> !c.op.SetPhase?)
      && (Raised(tail) ==> NextSteps(tail) == 2)
      && (!Raised(tail) ==> NextSteps(tail) == 1 && Advances(tail) == 1)
      && (su.faulty == {} && su.hasVehicleQuery ==> !Raised(tail))
  {
    var tail := AdvanceCalls(su, at, step);
    NextStepsSingle(tail[0]);
    if |tail| == 1 {
      forall k | 0 <= k < |tail| ensures tail[k].ok || tail[k].op.SetPhase? {
      }
    } else if |tail| == 2 {
      assert tail == [tail[0]] + [tail[1]];
      NextStepsAppend([tail[0]], [tail[1]]);
      NextStepsSingle(tail[1]);
      AdvancesAppend([tail[0]], [tail[1]]);
      if tail[1].op.NextStep? {
        assert !tail[0].ok;
      } else {
        forall k | 0 <= k < |tail| ensures tail[k].ok || tail[k].op.SetPhase? {
        }
      }
    } else {
      assert tail == [tail[0]] + [tail[1]] + [tail[2]];
      NextStepsAppend([tail[0]] + [tail[1]], [tail[2]]);
      NextStepsAppend([tail[0]], [tail[1]]);
      NextStepsSingle(tail[1]);
      NextStepsSingle(tail[2]);
      assert !tail[1].ok;
    }
  }

  /**
   * On a report step where next_step succeeded but the vehicle query
   * raised, the handler's next_step takes a second simulation step in the
   * same iteration when it succeeds.
   */
  lemma ReportFailureStepsTwice(su: Setup, at: nat, step: nat)
    requires step % ReportInterval == 0
    requires Succeeds(su, NextStep, at) && !Succeeds(su, CountVehicles, at + 1) && Succeeds(su, NextStep, at + 2)
    ensures AdvanceCalls(su, at, step) == [Call(NextStep, true), Call(CountVehicles, false), Call(NextStep, true)]
    ensures Advances(AdvanceCalls(su, at, step)) == 2
  {
    var tail := AdvanceCalls(su, at, step);
    assert tail == [tail[0], tail[1]] + [tail[2]];
    assert [tail[0], tail[1]] == [tail[0]] + [tail[1]];
    AdvancesAppend([tail[0], tail[1]], [tail[2]]);
    AdvancesAppend([tail[0]], [tail[1]]);
    NextStepsSingle(tail[0]);
    NextStepsSingle(tail[1]);
    NextStepsSingle(tail[2]);
  }

  /**
   * The part before next_step: the sensing call, then set_tl_phase calls
   * only, and those only when sensing succeeded on a step on the cadence.
   */
  lemma HeadFacts(su: Setup, plan: Planner, interval: int, step: nat, log: seq<Call>)
    ensures var head := HeadCalls(su, plan, interval, step, log);
            var sensed := Succeeds(su, Observe, |log|);
      && head != [] && head[0] == Call(Observe, sensed)
      && (forall k :: 1 <= k < |head| ==> head[k].op.SetPhase?)
      && (!(sensed && OnCadence(interval, step)) ==> |head| == 1)
      && NextSteps(head) == 0 && Advances(head) == 0
      && (sensed ==> forall k :: 0 <= k < |head| ==> head[k].ok || head[k].op.SetPhase?)
      && (sensed && su.faulty == {} ==> forall k :: 0 <= k < |head| ==> head[k].ok)
  {
    var sensed := Succeeds(su, Observe, |log|);
    var applied := if sensed && interval != 0 then AppliedCalls(su, plan, interval, step, log) else [];
    var head := [Call(Observe, sensed)] + applied;
    assert HeadCalls(su, plan, interval, step, log) == head;
    AppliedCallsFacts(su, plan, interval, step, log);
    NextStepsAppend([Call(Observe, sensed)], applied);
    AdvancesAppend([Call(Observe, sensed)], applied);
    NextStepsSingle(Call(Observe, sensed));
    forall k | 1 <= k < |head| ensures head[k].op.SetPhase? {
      assert head[k] == applied[k - 1] && applied[k - 1] in applied;
    }
    if sensed && su.faulty == {} {
      forall k | 1 <= k < |head| ensures head[k].ok {
        assert head[k] == applied[k - 1] && applied[k - 1] in applied;
      }
    }
  }

  /**
   * The part from next_step on: no set_tl_phase; the handler's next_step
   * alone after sensing or `step % 0` raised, the advance part otherwise.
   */
  lemma TailFacts(su: Setup, sensed: bool, interval: int, step: nat, at: nat)
    ensures var tail := TailCalls(su, sensed, interval, step, at);
      && tail != [] && tail[0].op == NextStep
      && (forall c :: c in tail ==> !c.op.SetPhase?)
      && (!sensed || interval == 0 ==> |tail| == 1 && NextSteps(tail) == 1)
      && (sensed && interval != 0 && Raised(tail) ==> NextSteps(tail) == 2)
      && (sensed && interval != 0 && !Raised(tail) ==> NextSteps(tail) == 1 && Advances(tail) == 1)
      && (su.faulty == {} && su.hasVehicleQuery ==> !Raised(tail) && NextSteps(tail) == 1 && Advances(tail) == 1)
  {
    var tail := TailCalls(su, sensed, interval, step, at);
    if !sensed || interval == 0 {
      NextStepsSingle(tail[0]);
    } else {
      AdvanceCallsFacts(su, at, step);
    }
  }

  /**
   * The cadence of one iteration: the controller runs exactly when sensing
   * succeeded on a step on the cadence, and set_tl_phase is issued on no
   * other step.
   */
  lemma IterationCadence(su: Setup, plan: Planner, interval: int, step: nat, log: seq<Call>)
    ensures var it := IterationSpec(su, plan, interval, step, log);
      && it.step == step
      && (it.decided <==> it.sensed && OnCadence(interval, step))
      && (!it.decided ==> forall c :: c in it.calls ==> !c.op.SetPhase?)
  {
    var sensed := Succeeds(su, Observe, |log|);
    var head := HeadCalls(su, plan, interval, step, log);
    var tail := TailCalls(su, sensed, interval, step, |log + head|);
    var calls := head + tail;
    assert IterationSpec(su, plan, interval, step, log).calls == calls;
    if !(sensed && OnCadence(interval, step)) {
      HeadFacts(su, plan, interval, step, log);
      TailFacts(su, sensed, interval, step, |log + head|);
      forall c | c in calls ensures !c.op.SetPhase? {
        assert c == head[0] || c in tail;
      }
    }
  }

  /**
   * What one iteration does: it starts by sensing; the controller runs
   * exactly when sensing succeeded on a step on the cadence; set_tl_phase
   * is issued on no other step; next_step is attempted once when nothing
   * raised, once (from the handler) when sensing or `step % 0` raised, and
   * twice when the exception came at or after next_step.
   */
  lemma IterationFacts(su: Setup, plan: Planner, interval: int, step: nat, log: seq<Call>)
    ensures var it := IterationSpec(su, plan, interval, step, log);
      && it.step == step
      && it.calls != [] && it.calls[0].op == Observe && (it.sensed <==> it.calls[0].ok)
      && (it.decided <==> it.sensed && OnCadence(interval, step))
      && (!it.decided ==> forall c :: c in it.calls ==> !c.op.SetPhase?)
      && (!Raised(it.calls) ==> NextSteps(it.calls) == 1)
      && (!it.sensed || interval == 0 ==> NextSteps(it.calls) == 1 && |it.calls| == 2 && it.calls[1].op == NextStep)
      && (it.sensed && interval != 0 && Raised(it.calls) ==> NextSteps(it.calls) == 2)
  {
    var sensed := Succeeds(su, Observe, |log|);
    var head := HeadCalls(su, plan, interval, step, log);
    var tail := TailCalls(su, sensed, interval, step, |log + head|);
    var calls := head + tail;
    assert IterationSpec(su, plan, interval, step, log).calls == calls;
    HeadFacts(su, plan, interval, step, log);
    TailFacts(su, sensed, interval, step, |log + head|);
    NextStepsAppend(head, tail);
    assert calls[0] == head[0];
    IterationCadence(su, plan, interval, step, log);
    if sensed {
      RaisedInTail(head, tail);
    }
  }

  /** When the planner's assignment names an id, a decided iteration attempts set_tl_phase on it. */
  lemma DecidedIterationCovers(su: Setup, plan: Planner, interval: int, step: nat, log: seq<Call>, id: string)
    requires IterationSpec(su, plan, interval, step, log).decided
    requires HasKey(plan(step, log), id)
    ensures exists c :: c in IterationSpec(su, plan, interval, step, log).calls && c.op.SetPhase? && c.op.id == id
  {
    var applied := AppliedCalls(su, plan, interval, step, log);
    var head := HeadCalls(su, plan, interval, step, log);
    assert head == [Call(Observe, true)] + applied;
    var calls := IterationSpec(su, plan, interval, step, log).calls;
    assert calls == head + TailCalls(su, true, interval, step, |log + head|);
    ApplyAllReachesEveryKey(su, log + [Call(Observe, true)], plan(step, log), id);
    var x :| x in applied && x.op.SetPhase? && x.op.id == id;
    assert x in head;
    assert x in calls;
  }

  /**
   * When the oracle's parsed replies never repeat a key, the controller's
   * answer has none either, so each intersection's phase after the apply
   * loop depends only on its own pair's calls.
   */
  lemma ControllerPlanIsolation(su: Setup, ids: seq<string>, oracle: Oracle, step: nat, log: seq<Call>,
                                i: nat, phases: map<string, int>)
    requires forall s, st :: oracle(s, st).Parsed? ==> Wf(oracle(s, st).content)
    requires i < |ControllerPlan(su, ids, oracle)(step, log)|
    ensures var actions := ControllerPlan(su, ids, oracle)(step, log);
      var base := log + [Call(Observe, true)];
      var pre := ApplyRange(su, base, actions, 0, i);
      var own := ApplyOne(su, |base + pre|, actions[i].0, actions[i].1);
      && Wf(actions)
      && SameAt(PhasesAfter(phases, ApplyAll(su, base, actions)), PhasesAfter(phases, own), actions[i].0)
  {
    var reply := oracle(Snapshot(su, ids, log), step);
    DecideWf(ids, reply);
    var actions := ControllerPlan(su, ids, oracle)(step, log);
    assert actions == Decide(ids, reply);
    ApplyIsolation(su, log + [Call(Observe, true)], actions, i, phases);
  }

  /** On a step where the controller ran, every intersection id gets a set_tl_phase attempt. */
  lemma DecidedIterationReachesEveryId(su: Setup, ids: seq<string>, interval: int, oracle: Oracle,
                                       step: nat, log: seq<Call>, id: string)
    requires id in ids
    requires IterationSpec(su, ControllerPlan(su, ids, oracle), interval, step, log).decided
    ensures exists c :: c in IterationSpec(su, ControllerPlan(su, ids, oracle), interval, step, log).calls
                        && c.op.SetPhase? && c.op.id == id
  {
    var plan := ControllerPlan(su, ids, oracle);
    var reply := oracle(Snapshot(su, ids, log), step);
    DecideCovers(ids, reply, id);
    assert plan(step, log) == Decide(ids, reply);
    DecidedIterationCovers(su, plan, interval, step, log, id);
  }

  /** Without faults, and with get_vehicles present, an iteration senses and takes exactly one step. */
  lemma FaultFreeIteration(su: Setup, plan: Planner, interval: int, step: nat, log: seq<Call>)
    requires su.faulty == {} && su.hasVehicleQuery
    ensures var it := IterationSpec(su, plan, interval, step, log);
      it.sensed && NextSteps(it.calls) == 1 && Advances(it.calls) == 1
  {
    var head := HeadCalls(su, plan, interval, step, log);
    var tail := TailCalls(su, true, interval, step, |log + head|);
    assert IterationSpec(su, plan, interval, step, log).calls == head + tail;
    HeadFacts(su, plan, interval, step, log);
    TailFacts(su, true, interval, step, |log + head|);
    NextStepsAppend(head, tail);
    AdvancesAppend(head, tail);
  }

  // ---------------------------------------------------------------------------
  // The whole run (run.py:41-121)
  // ---------------------------------------------------------------------------

  /** The engine calls of a sequence of iterations, in order. */
  function AllCalls(its: seq<Iteration>): seq<Call>
  {
    if its == [] then [] else its[0].calls + AllCalls(its[1..])
  }

  lemma {:induction false} AllCallsAppend(a: seq<Iteration>, b: seq<Iteration>)
    ensures AllCalls(a + b) == AllCalls(a) + AllCalls(b)
  {
    if a != [] {
      assert (a + b)[1..] == a[1..] + b;
      AllCallsAppend(a[1..], b);
    } else {
      assert a + b == b;
    }
  }

  /** What one iteration does, as a function of its step and of the engine's log before it. */
  type Stepper = (nat, seq<Call>) -> Iteration

  /** The iteration of the loop body of run.py:75-110. */
  function LoopBody(su: Setup, plan: Planner, interval: int): Stepper
  {
    (step: nat, log: seq<Call>) => IterationSpec(su, plan, interval, step, log)
  }

  /**
   * The `n` iterations of steps `start`, `start + 1`, ... when the engine's
   * log is `log` before the first: each one starts where the previous left it.
   */
  function RunSpec(f: Stepper, start: nat, n: nat, log: seq<Call>): (run: seq<Iteration>)
    ensures |run| == n
    decreases n
  {
    if n == 0 then []
    else
      var it := f(start, log);
      [it] + RunSpec(f, start + 1, n - 1, log + it.calls)
  }

  /** The engine's log after the `n` iterations of `RunSpec`, threaded the same way. */
  function RunEnd(f: Stepper, start: nat, n: nat, log: seq<Call>): seq<Call>
    decreases n
  {
    if n == 0 then log
    else RunEnd(f, start + 1, n - 1, log + f(start, log).calls)
  }

  /** The log a run leaves is the log it started from followed by the calls of its iterations. */
  lemma {:induction false} RunEndCalls(f: Stepper, start: nat, n: nat, log: seq<Call>)
    ensures RunEnd(f, start, n, log) == log + AllCalls(RunSpec(f, start, n, log))
    decreases n
  {
    if n > 0 {
      var it := f(start, log);
      var rest := RunSpec(f, start + 1, n - 1, log + it.calls);
      RunEndCalls(f, start + 1, n - 1, log + it.calls);
      assert ([it] + rest)[1..] == rest;
    }
  }

  /** Iteration `k` of a run is the iteration of its step on the log the earlier ones left. */
  lemma {:induction false} RunSpecAt(f: Stepper, start: nat, n: nat, log: seq<Call>, k: nat)
    requires k < n
    ensures RunSpec(f, start, n, log)[k] == f(start + k, RunEnd(f, start, k, log))
    decreases k
  {
    if k > 0 {
      RunSpecAt(f, start + 1, n - 1, log + f(start, log).calls, k - 1);
    }
  }

  /** One more iteration extends the log by that iteration's calls. */
  lemma {:induction false} RunEndSnoc(f: Stepper, start: nat, k: nat, log: seq<Call>)
    ensures RunEnd(f, start, k + 1, log) == RunEnd(f, start, k, log) + f(start + k, RunEnd(f, start, k, log)).calls
    decreases k
  {
    if k > 0 {
      RunEndSnoc(f, start + 1, k - 1, log + f(start, log).calls);
    }
  }

  /**
   * The loop visits steps start .. start+n-1 once each, in order; the
   * controller runs exactly on the sensed steps on the cadence, and no
   * set_tl_phase is issued on any other step.
   */
  lemma {:induction false} RunCadence(su: Setup, plan: Planner, interval: int, start: nat, n: nat, log: seq<Call>)
    ensures var run := RunSpec(LoopBody(su, plan, interval), start, n, log);
      && |run| == n
      && (forall k :: 0 <= k < n ==> run[k].step == start + k)
      && (forall k :: 0 <= k < n ==> (run[k].decided <==> run[k].sensed && OnCadence(interval, start + k)))
      && (forall k, c :: 0 <= k < n && !run[k].decided && c in run[k].calls ==> !c.op.SetPhase?)
    decreases n
  {
    if n > 0 {
      var it := IterationSpec(su, plan, interval, start, log);
      var rest := RunSpec(LoopBody(su, plan, interval), start + 1, n - 1, log + it.calls);
      var run := [it] + rest;
      assert RunSpec(LoopBody(su, plan, interval), start, n, log) == run;
      IterationCadence(su, plan, interval, start, log);
      RunCadence(su, plan, interval, start + 1, n - 1, log + it.calls);
      forall k | 0 < k < n
        ensures run[k].step == start + k
        ensures run[k].decided <==> run[k].sensed && OnCadence(interval, start + k)
      {
        assert run[k] == rest[k - 1];
      }
    }
  }

  lemma {:induction false} AskedStepsAppend(a: seq<Iteration>, b: seq<Iteration>)
    ensures AskedSteps(a + b) == AskedSteps(a) + AskedSteps(b)
  {
    if b == [] {
      assert a + b == a;
    } else {
      var init, last := b[..|b| - 1], b[|b| - 1];
      assert b == init + [last];
      assert a + b == (a + init) + [last];
      AskedStepsAppend(a, init);
      AskedStepsSnoc(a + init, last);
      AskedStepsSnoc(init, last);
    }
  }

  /** Iterations in which the controller was not asked add nothing to the request log. */
  lemma {:induction false} AskedStepsNone(its: seq<Iteration>)
    requires forall k :: 0 <= k < |its| ==> !its[k].decided
    ensures AskedSteps(its) == []
  {
    if its != [] {
      AskedStepsNone(its[..|its| - 1]);
    }
  }

  /**
   * For iterations numbered start, start+1, ..., the request log holds
   * exactly the steps of those that asked, once each, in increasing order.
   */
  lemma {:induction false} AskedStepsOrdered(its: seq<Iteration>, start: nat)
    requires forall k :: 0 <= k < |its| ==> its[k].step == start + k
    ensures forall i :: 0 <= i < |AskedSteps(its)| ==> start <= AskedSteps(its)[i] < start + |its|
    ensures forall k :: 0 <= k < |its| ==> (start + k in AskedSteps(its) <==> its[k].decided)
    ensures forall i, j :: 0 <= i < j < |AskedSteps(its)| ==> AskedSteps(its)[i] < AskedSteps(its)[j]
  {
    if its != [] {
      var init, last := its[..|its| - 1], its[|its| - 1];
      AskedStepsOrdered(init, start);
      var a := AskedSteps(init);
      assert AskedSteps(its) == a + Asked(last);
      forall k | 0 <= k < |its| ensures start + k in a + Asked(last) <==> its[k].decided {
        if k < |init| {
          assert its[k] == init[k];
        }
      }
    }
  }

  /**
   * The controller is asked exactly at the steps among start .. start+n-1
   * whose sensing succeeded and that are on the cadence, once each, in
   * increasing order.
   */
  lemma RunAskedSteps(su: Setup, plan: Planner, interval: int, start: nat, n: nat, log: seq<Call>, run: seq<Iteration>)
    requires run == RunSpec(LoopBody(su, plan, interval), start, n, log)
    ensures |run| == n
    ensures forall i :: 0 <= i < |AskedSteps(run)| ==> start <= AskedSteps(run)[i] < start + n
    ensures forall k :: 0 <= k < n ==> (start + k in AskedSteps(run) <==> run[k].sensed && OnCadence(interval, start + k))
    ensures forall i, j :: 0 <= i < j < |AskedSteps(run)| ==> AskedSteps(run)[i] < AskedSteps(run)[j]
  {
    RunCadence(su, plan, interval, start, n, log);
    assert |run| == n && forall k :: 0 <= k < n ==> run[k].step == start + k;
    AskedStepsOrdered(run, start);
    forall k | 0 <= k < n
      ensures start + k in AskedSteps(run) <==> run[k].sensed && OnCadence(interval, start + k)
    {
      assert run[k].decided <==> run[k].sensed && OnCadence(interval, start + k);
    }
  }

  /**
   * An iteration attempts next_step once or twice, twice exactly when an
   * engine call raised after sensing succeeded on a nonzero interval.
   */
  lemma IterationAttempts(su: Setup, plan: Planner, interval: int, step: nat, log: seq<Call>)
    ensures var it := IterationSpec(su, plan, interval, step, log);
      && 1 <= NextSteps(it.calls) <= 2
      && (NextSteps(it.calls) == 2 <==> it.sensed && interval != 0 && Raised(it.calls))
  {
    IterationFacts(su, plan, interval, step, log);
  }

  /** The same for every iteration of a run. */
  lemma {:induction false} RunStepAttempts(su: Setup, plan: Planner, interval: int, start: nat, n: nat, log: seq<Call>)
    ensures var run := RunSpec(LoopBody(su, plan, interval), start, n, log);
      && |run| == n
      && (forall k :: 0 <= k < n ==> 1 <= NextSteps(run[k].calls) <= 2)
      && (forall k :: 0 <= k < n ==>
            (NextSteps(run[k].calls) == 2 <==> run[k].sensed && interval != 0 && Raised(run[k].calls)))
    decreases n
  {
    if n > 0 {
      var it := IterationSpec(su, plan, interval, start, log);
      var rest := RunSpec(LoopBody(su, plan, interval), start + 1, n - 1, log + it.calls);
      assert RunSpec(LoopBody(su, plan, interval), start, n, log) == [it] + rest;
      IterationAttempts(su, plan, interval, start, log);
      RunStepAttempts(su, plan, interval, start + 1, n - 1, log + it.calls);
    }
  }

  /** So a run of n steps makes between n and 2n next_step attempts. */
  lemma RunAdvances(su: Setup, plan: Planner, interval: int, n: nat, log0: seq<Call>)
    ensures var run := RunSpec(LoopBody(su, plan, interval), 0, n, log0);
      n <= NextSteps(AllCalls(run)) <= 2 * n
  {
    RunStepAttempts(su, plan, interval, 0, n, log0);
    TotalNextSteps(RunSpec(LoopBody(su, plan, interval), 0, n, log0));
  }

  lemma {:induction false} TotalNextSteps(its: seq<Iteration>)
    requires forall k :: 0 <= k < |its| ==> 1 <= NextSteps(its[k].calls) <= 2
    ensures |its| <= NextSteps(AllCalls(its)) <= 2 * |its|
  {
    if its != [] {
      assert forall k :: 0 <= k < |its| - 1 ==> its[1..][k] == its[k + 1];
      TotalNextSteps(its[1..]);
      NextStepsAppend(its[0].calls, AllCalls(its[1..]));
    }
  }

  /** With no injected faults every iteration of a run senses and takes exactly one step. */
  lemma {:induction false} FaultFreeSteps(su: Setup, plan: Planner, interval: int, start: nat, n: nat, log: seq<Call>)
    requires su.faulty == {} && su.hasVehicleQuery
    ensures var run := RunSpec(LoopBody(su, plan, interval), start, n, log);
      && |run| == n
      && forall k :: 0 <= k < n ==> run[k].sensed && NextSteps(run[k].calls) == 1 && Advances(run[k].calls) == 1
    decreases n
  {
    if n > 0 {
      var it := IterationSpec(su, plan, interval, start, log);
      var rest := RunSpec(LoopBody(su, plan, interval), start + 1, n - 1, log + it.calls);
      assert RunSpec(LoopBody(su, plan, interval), start, n, log) == [it] + rest;
      FaultFreeIteration(su, plan, interval, start, log);
      FaultFreeSteps(su, plan, interval, start + 1, n - 1, log + it.calls);
    }
  }

  lemma {:induction false} FaultFreeTotals(its: seq<Iteration>)
    requires forall k :: 0 <= k < |its| ==> NextSteps(its[k].calls) == 1 && Advances(its[k].calls) == 1
    ensures NextSteps(AllCalls(its)) == |its| && Advances(AllCalls(its)) == |its|
  {
    if its != [] {
      assert forall k :: 0 <= k < |its| - 1 ==> its[1..][k] == its[k + 1];
      FaultFreeTotals(its[1..]);
      NextStepsAppend(its[0].calls, AllCalls(its[1..]));
      AdvancesAppend(its[0].calls, AllCalls(its[1..]));
    }
  }

  /** So a fault-free run of n steps attempts next_step n times and takes n steps. */
  lemma FaultFreeRun(su: Setup, plan: Planner, interval: int, n: nat, log0: seq<Call>)
    requires su.faulty == {} && su.hasVehicleQuery
    ensures var run := RunSpec(LoopBody(su, plan, interval), 0, n, log0);
      NextSteps(AllCalls(run)) == n && Advances(AllCalls(run)) == n
  {
    FaultFreeSteps(su, plan, interval, 0, n, log0);
    FaultFreeTotals(RunSpec(LoopBody(su, plan, interval), 0, n, log0));
  }

  /** Ten iterations of steps 0 .. 9 that decide exactly on sensed multiples of five ask at 0 and 5 only. */
  lemma AskedInTen(run: seq<Iteration>)
    requires |run| == 10 && run[0].step == 0 && run[5].step == 5
    requires forall k :: 0 <= k < 10 ==> (run[k].decided <==> run[k].sensed && OnCadence(5, k))
    ensures AskedSteps(run) == (if run[0].sensed then [0] else []) + (if run[5].sensed then [5] else [])
  {
    var first, middle, fifth, last := [run[0]], run[1..5], [run[5]], run[6..];
    assert run == first + middle + fifth + last;
    forall k | 0 <= k < |middle| ensures !middle[k].decided {
      assert middle[k] == run[k + 1] && (k + 1) % 5 != 0;
    }
    forall k | 0 <= k < |last| ensures !last[k].decided {
      assert last[k] == run[k + 6] && (k + 6) % 5 != 0;
    }
    AskedStepsNone(middle);
    AskedStepsNone(last);
    AskedStepsAppend(first + middle + fifth, last);
    AskedStepsAppend(first + middle, fifth);
    AskedStepsAppend(first, middle);
    AskedStepsSnoc([], run[0]);
    AskedStepsSnoc([], run[5]);
    assert [] + [run[0]] == first && [] + [run[5]] == fifth;
    assert OnCadence(5, 0) && OnCadence(5, 5);
  }

  /**
   * Ten steps with a decision interval of five: the controller is asked at
   * step 0 and at step 5 when sensing succeeds there, and at no other step;
   * a fault-free run asks it at exactly those two steps and takes ten steps.
   */
  lemma TenStepScenario(su: Setup, plan: Planner, interval: int, n: nat, log0: seq<Call>)
    requires interval == 5 && n == 10
    ensures var run := RunSpec(LoopBody(su, plan, interval), 0, n, log0);
      && |run| == 10
      && AskedSteps(run) == (if run[0].sensed then [0] else []) + (if run[5].sensed then [5] else [])
      && (su.faulty == {} && su.hasVehicleQuery ==> AskedSteps(run) == [0, 5] && Advances(AllCalls(run)) == 10)
  {
    var run := RunSpec(LoopBody(su, plan, interval), 0, n, log0);
    RunCadence(su, plan, interval, 0, n, log0);
    AskedInTen(run);
    if su.faulty == {} && su.hasVehicleQuery {
      FaultFreeSteps(su, plan, interval, 0, n, log0);
      assert run[0].sensed && run[5].sensed;
      FaultFreeRun(su, plan, interval, n, log0);
    }
  }

  /** `f` is the specification of the loop body: it gives `IterationSpec` at every step and log. */
  ghost predicate SpecifiesLoopBody(f: Stepper, su: Setup, plan: Planner, interval: int)
  {
    forall step, log {:trigger IterationSpec(su, plan, interval, step, log)} ::
      f(step, log) == IterationSpec(su, plan, interval, step, log)
  }

  /** One pass of the step loop, as the run's specification `f` predicts it. */
  method RunStep(eng: Simulator, ctrl: DeepSeekController, ids: seq<string>, interval: int, step: nat,
                 oracle: Oracle, ghost plan: Planner, ghost f: Stepper) returns (it: Iteration)
    requires ctrl.intersectionIds == ids && AsksController(plan, eng.setup, ids, oracle)
    requires SpecifiesLoopBody(f, eng.setup, plan, interval)
    modifies eng, ctrl
    ensures it == f(step, old(eng.log))
    ensures eng.log == old(eng.log) + it.calls
    ensures ctrl.asked == old(ctrl.asked) + Asked(it)
  {
    it := Iterate(eng, ctrl, ids, interval, step, oracle, plan);
  }

  /** `for step in range(total_steps)` (run.py:75-110), one loop body per step. */
  method RunSteps(eng: Simulator, ctrl: DeepSeekController, ids: seq<string>, interval: int, n: nat,
                  oracle: Oracle, ghost plan: Planner, ghost f: Stepper) returns (trace: seq<Iteration>)
    requires ctrl.intersectionIds == ids && AsksController(plan, eng.setup, ids, oracle)
    requires SpecifiesLoopBody(f, eng.setup, plan, interval)
    modifies eng, ctrl
    ensures trace == RunSpec(f, 0, n, old(eng.log))
    ensures eng.log == old(eng.log) + AllCalls(trace)
    ensures ctrl.asked == old(ctrl.asked) + AskedSteps(trace)
  {
    ghost var log0 := eng.log;
    ghost var asked0 := ctrl.asked;
    ghost var run := RunSpec(f, 0, n, log0);
    trace := [];
    for step := 0 to n
      invariant trace == run[..step]
      invariant eng.log == RunEnd(f, 0, step, log0)
      invariant ctrl.asked == asked0 + AskedSteps(trace)
    {
      RunSpecAt(f, 0, n, log0, step);
      RunEndSnoc(f, 0, step, log0);
      ghost var before := AskedSteps(trace);
      var it := RunStep(eng, ctrl, ids, interval, step, oracle, plan, f);
      AskedStepsSnoc(trace, it);
      assert asked0 + before + Asked(it) == asked0 + (before + Asked(it));
      trace := trace + [it];
      assert trace == run[..step + 1];
    }
    assert trace == run;
    RunEndCalls(f, 0, n, log0);
  }

  /** How `main` ends: with its summary, or raising from the final vehicle count. */
  datatype Outcome = Completed(totalSteps: int, finalVehicleCount: nat) | Crashed

  /**
   * run.py:113-121: terminate, whose failure is tolerated, then the final
   * count, which is only guarded by whether the engine has get_vehicles.
   */
  function ShutdownCalls(su: Setup, at: nat): seq<Call>
  {
    [Call(Terminate, Succeeds(su, Terminate, at))]
    + if su.hasVehicleQuery then [Call(CountVehicles, Succeeds(su, CountVehicles, at + 1))] else []
  }

  /**
   * `main` from the engine's construction on: the id fallback, the
   * controller, the step loop, the tolerated terminate and the final count.
   */
  method RunSimulation(eng: Simulator, loadedIds: seq<string>, totalSteps: int, interval: int, oracle: Oracle)
    returns (trace: seq<Iteration>, outcome: Outcome, ctrl: DeepSeekController)
    modifies eng
    ensures fresh(ctrl) && ctrl.intersectionIds == IdsOrDefault(loadedIds) && ctrl.totalSteps == totalSteps
    ensures ctrl.asked == AskedSteps(trace)
    ensures trace == RunSpec(LoopBody(eng.setup, ControllerPlan(eng.setup, IdsOrDefault(loadedIds), oracle), interval),
                             0, StepCount(totalSteps), old(eng.log))
    ensures eng.log == old(eng.log) + AllCalls(trace) + ShutdownCalls(eng.setup, |old(eng.log) + AllCalls(trace)|)
    ensures outcome == if !eng.setup.hasVehicleQuery then Completed(totalSteps, 0)
                       else if eng.log[|eng.log| - 1].ok then Completed(totalSteps, |eng.setup.traffic(eng.Time()).vehicles|)
                       else Crashed
  {
    var ids := IdsOrDefault(loadedIds);
    ctrl := new DeepSeekController(ids, totalSteps);
    ghost var plan := ControllerPlan(eng.setup, ids, oracle);
    trace := RunSteps(eng, ctrl, ids, interval, StepCount(totalSteps), oracle, plan, LoopBody(eng.setup, plan, interval));
    var terminated := eng.Terminate();
    if eng.setup.hasVehicleQuery {
      var count := eng.CountVehicles();
      outcome := if count.Some? then Completed(totalSteps, count.value) else Crashed;
    } else {
      outcome := Completed(totalSteps, 0);
    }
  }
}
