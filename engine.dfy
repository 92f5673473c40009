/**
 * The CityFlow engine as the driver uses it: a stepping state machine with a
 * small query/command API whose calls may raise. Vehicle dynamics are not
 * modelled; the lane counters the engine would report after `t` steps are
 * given by `Setup.traffic(t)`. Every call is appended to a log with whether
 * it succeeded, and which calls raise is decided up front by their position
 * in that log.
 */
module Engine {
  import opened Wrappers
  import opened PyDicts

  datatype Op =
    | Observe                           // get_lane_vehicle_count, get_lane_waiting_vehicle_count, get_vehicles
    | SetPhase(id: string, phase: int)  // set_tl_phase
    | NextStep                          // next_step
    | CountVehicles                     // len(get_vehicles()) for the progress and final reports
    | Terminate                         // terminate

  datatype Call = Call(op: Op, ok: bool)

  /** What the three counter queries of `get_state` return. */
  datatype Counters = Counters(laneVehicles: Dict<nat>, laneWaiting: Dict<nat>, vehicles: seq<string>)

  /**
   * The fixed behaviour of one engine: the log positions of the calls that
   * raise, the counters after each number of steps, whether the engine has
   * `get_tl_phase`, `get_vehicles` and `terminate` at all, and its initial
   * phases.
   */
  datatype Setup = Setup(
    faulty: set<nat>,
    traffic: nat -> Counters,
    hasPhaseQuery: bool,
    hasVehicleQuery: bool,
    hasTerminate: bool,
    initialPhases: map<string, int>)

  /**
   * Whether the call made at log position `at` returns normally: it is not
   * a faulty position, and the engine has the method the call needs.
   */
  predicate Succeeds(su: Setup, op: Op, at: nat)
  {
    && at !in su.faulty
    && (op.Observe? || op.CountVehicles? ==> su.hasVehicleQuery)
    && (op.Terminate? ==> su.hasTerminate)
  }

  /** The signal phases after the logged calls: each successful set_tl_phase takes effect. */
  function PhasesAfter(phases: map<string, int>, calls: seq<Call>): map<string, int>
  {
    if calls == [] then phases
    else
      var prev := PhasesAfter(phases, calls[..|calls| - 1]);
      var c := calls[|calls| - 1];
      if c.ok && c.op.SetPhase? then prev[c.op.id := c.op.phase] else prev
  }

  /** The number of simulation steps taken: successful next_step calls. */
  function Advances(calls: seq<Call>): nat
  {
    if calls == [] then 0
    else Advances(calls[..|calls| - 1]) + (if calls[|calls| - 1] == Call(NextStep, true) then 1 else 0)
  }

  /** What get_tl_phase answers after the logged calls; an absent id raises. */
  function PhaseReply(su: Setup, log: seq<Call>): map<string, int>
  {
    if su.hasPhaseQuery then PhasesAfter(su.initialPhases, log) else map[]
  }

  lemma {:induction false} AdvancesAppend(a: seq<Call>, b: seq<Call>)
    ensures Advances(a + b) == Advances(a) + Advances(b)
  {
    if b == [] {
      assert a + b == a;
    } else {
      assert (a + b)[..|a + b| - 1] == a + b[..|b| - 1];
      AdvancesAppend(a, b[..|b| - 1]);
    }
  }

  lemma {:induction false} PhasesAfterAppend(phases: map<string, int>, a: seq<Call>, b: seq<Call>)
    ensures PhasesAfter(phases, a + b) == PhasesAfter(PhasesAfter(phases, a), b)
  {
    if b == [] {
      assert a + b == a;
    } else {
      assert (a + b)[..|a + b| - 1] == a + b[..|b| - 1];
      PhasesAfterAppend(phases, a, b[..|b| - 1]);
    }
  }

  /** The effect of one more call on the phases and on the step count. */
  lemma AfterOneMore(phases: map<string, int>, log: seq<Call>, c: Call)
    ensures PhasesAfter(phases, log + [c])
         == if c.ok && c.op.SetPhase? then PhasesAfter(phases, log)[c.op.id := c.op.phase] else PhasesAfter(phases, log)
    ensures Advances(log + [c]) == Advances(log) + if c == Call(NextStep, true) then 1 else 0
  {
    assert (log + [c])[..|log + [c]| - 1] == log;
  }

  /**
   * The engine object. Everything the driver can learn from it is decided
   * by its setup and by the calls made so far, so its mutable state is the
   * log of those calls; the signal phases and the step count are read off
   * that log.
   */
  class Simulator {
    const setup: Setup
    var log: seq<Call>

    /** The current signal phases. */
    function Phases(): map<string, int>
      reads this
    {
      PhasesAfter(setup.initialPhases, log)
    }

    /** The number of steps taken. */
    function Time(): nat
      reads this
    {
      Advances(log)
    }

    /** The outcome of the next call, made at the current end of the log. */
    function Attempt(op: Op): Call
      reads this
    {
      Call(op, Succeeds(setup, op, |log|))
    }

    constructor (setup: Setup)
      ensures this.setup == setup && log == []
      ensures Phases() == setup.initialPhases && Time() == 0
    {
      this.setup := setup;
      log := [];
    }

    /** The three counter queries of `get_state`; `None` when one raises. */
    method Observe() returns (counters: Option<Counters>)
      modifies this
      ensures log == old(log) + [old(Attempt(Op.Observe))]
      ensures Phases() == old(Phases()) && Time() == old(Time())
      ensures counters == if log[|log| - 1].ok then Some(setup.traffic(Time())) else None
    {
      var c := Attempt(Op.Observe);
      AfterOneMore(setup.initialPhases, log, c);
      log := log + [c];
      counters := if c.ok then Some(setup.traffic(Time())) else None;
    }

    /** set_tl_phase(id, phase); `ok` is false when it raised. */
    method SetTlPhase(id: string, phase: int) returns (ok: bool)
      modifies this
      ensures log == old(log) + [old(Attempt(Op.SetPhase(id, phase)))]
      ensures ok == log[|log| - 1].ok
      ensures Phases() == if ok then old(Phases())[id := phase] else old(Phases())
      ensures Time() == old(Time())
    {
      var c := Attempt(Op.SetPhase(id, phase));
      AfterOneMore(setup.initialPhases, log, c);
      log := log + [c];
      ok := c.ok;
    }

    /** next_step; `ok` is false when it raised. */
    method NextStep() returns (ok: bool)
      modifies this
      ensures log == old(log) + [old(Attempt(Op.NextStep))]
      ensures ok == log[|log| - 1].ok
      ensures Phases() == old(Phases())
      ensures Time() == if ok then old(Time()) + 1 else old(Time())
    {
      var c := Attempt(Op.NextStep);
      AfterOneMore(setup.initialPhases, log, c);
      log := log + [c];
      ok := c.ok;
    }

    /** len(get_vehicles()); `None` when it raised. */
    method CountVehicles() returns (count: Option<nat>)
      modifies this
      ensures log == old(log) + [old(Attempt(Op.CountVehicles))]
      ensures Phases() == old(Phases()) && Time() == old(Time())
      ensures count == if log[|log| - 1].ok then Some(|setup.traffic(Time()).vehicles|) else None
    {
      var c := Attempt(Op.CountVehicles);
      AfterOneMore(setup.initialPhases, log, c);
      log := log + [c];
      count := if c.ok then Some(|setup.traffic(Time()).vehicles|) else None;
    }

    /** terminate; fails when the engine has no such operation or it raised. */
    method Terminate() returns (ok: bool)
      modifies this
      ensures log == old(log) + [old(Attempt(Op.Terminate))]
      ensures ok == log[|log| - 1].ok
      ensures Phases() == old(Phases()) && Time() == old(Time())
    {
      var c := Attempt(Op.Terminate);
      AfterOneMore(setup.initialPhases, log, c);
      log := log + [c];
      ok := c.ok;
    }
  }
}
