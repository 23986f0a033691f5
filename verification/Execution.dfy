/** Capability Runs (core/execution/service.py, context_service.py, testing.py): a trace store
    with compare-and-set on Run status, and the service operations built on it. */
module Execution {
  import opened Common

  datatype RunStatus = PREPARED | RUNNING | COMPLETED | FAILED | ABORTED | SUPERSEDED

  function AllowedTransitions(s: RunStatus): set<RunStatus> {
    match s
    case PREPARED => {RUNNING, ABORTED, SUPERSEDED}
    case RUNNING => {COMPLETED, FAILED, ABORTED, SUPERSEDED}
    case _ => {}
  }

  predicate Terminal(s: RunStatus) { AllowedTransitions(s) == {} }

  datatype Target = Target(capability: string, version: string, function_: string, mode: string)

  /** A Run record; `parent` is empty for a first attempt. */
  datatype Run = Run(id: string, project: string, target: Target, attempt: nat, parent: string,
                     status: RunStatus, handoff: Option<string>)
  {
    /** The fields no transition may change. */
    function Pins(): Run { this.(status := PREPARED, handoff := None) }
  }

  datatype LifecycleEvent = LifecycleEvent(sequence: nat, was: Option<RunStatus>, becomes: RunStatus)

  datatype Traces = Traces(runs: map<string, Run>, events: map<string, seq<LifecycleEvent>>)

  function EventsFor(t: Traces, id: string): seq<LifecycleEvent> {
    if id in t.events then t.events[id] else []
  }

  /** `create_run`; None stands for the single-use ValueError. */
  function CreateIn(t: Traces, run: Run): Option<Traces> {
    if run.id in t.runs then None else Some(Traces(t.runs[run.id := run], t.events[run.id := []]))
  }

  function AppendIn(t: Traces, id: string, e: LifecycleEvent): Traces {
    t.(events := t.events[id := EventsFor(t, id) + [e]])
  }

  datatype Swap = Swapped | Lost | PinChanged

  /** `transition_run`: compare the stored status, then store the Run and its event together. */
  function SwapIn(t: Traces, expected: RunStatus, updated: Run, e: LifecycleEvent): (Traces, Swap) {
    if updated.id !in t.runs || t.runs[updated.id].status != expected then (t, Lost)
    else if t.runs[updated.id].Pins() != updated.Pins() then (t, PinChanged)
    else (AppendIn(t.(runs := t.runs[updated.id := updated]), updated.id, e), Swapped)
  }

  function TransitionEvent(was: RunStatus, becomes: RunStatus): LifecycleEvent {
    LifecycleEvent(if was.PREPARED? then 2 else 3, Some(was), becomes)
  }

  /** `_transition`; None stands for the error an illegal or stale transition raises. */
  function Move(t: Traces, run: Run, becomes: RunStatus, handoff: Option<string>): (Traces, Option<Run>) {
    if becomes !in AllowedTransitions(run.status) then (t, None)
    else
      var updated := run.(status := becomes, handoff := handoff);
      var (next, swap) := SwapIn(t, run.status, updated, TransitionEvent(run.status, becomes));
      (next, if swap.Swapped? then Some(updated) else None)
  }

  // ---------------------------------------------------------------- preparation

  datatype Invocation = Invocation(id: string, project: string, target: Target, parent: string)

  /** The checks on a retry parent, and the attempt number; None stands for an error. The
      service with context extensions does not compare projects. */
  function AttemptFor(t: Traces, inv: Invocation, extended: bool): Option<nat> {
    if inv.parent == "" then Some(1)
    else if inv.parent !in t.runs then None
    else
      var parent := t.runs[inv.parent];
      if parent.id == inv.id then None
      else if !extended && parent.project != inv.project then None
      else if parent.target != inv.target || !Terminal(parent.status) then None
      else Some(parent.attempt + 1)
  }

  function NewRun(inv: Invocation, attempt: nat): Run {
    Run(inv.id, inv.project, inv.target, attempt, inv.parent, PREPARED, None)
  }

  const OPENING := LifecycleEvent(1, None, PREPARED)

  // ---------------------------------------------------------------- results

  /** What collecting an output ends in: `proposal` says that a proposal was returned. */
  datatype Collected = Collected(run: Option<Run>, proposal: bool)

  /** What an adapter produced: whether it validates, and whether it is marked rejected. */
  datatype Output = Output(valid: bool, handoff: string, rejected: bool, normalizes: bool)

  /** The end of `_accept_output`: COMPLETED or FAILED by compare-and-set. */
  function Accept(t: Traces, run: Run, output: Output): (Traces, Collected) {
    if !output.valid then
      var (next, failed) := Move(t, run, FAILED, None);
      (next, Collected(if failed.Some? then failed else Current(next, run.id), false))
    else
      var (next, completed) := Move(t, run, COMPLETED, Some(output.handoff));
      if completed.None? then (next, Collected(Current(next, run.id), false))
      else (next, Collected(completed, !output.rejected && output.normalizes))
  }

  function Current(t: Traces, id: string): Option<Run> {
    if id in t.runs then Some(t.runs[id]) else None
  }

  // ---------------------------------------------------------------- the store and service as objects

  class ExecutionTraceStore {
    var runs: map<string, Run>
    var events: map<string, seq<LifecycleEvent>>

    ghost function State(): Traces
      reads this
    {
      Traces(runs, events)
    }

    constructor ()
      ensures State() == Traces(map[], map[])
    {
      runs, events := map[], map[];
    }

    method CreateRun(run: Run) returns (ok: bool)
      modifies this
      ensures ok <==> CreateIn(old(State()), run).Some?
      ensures State() == CreateIn(old(State()), run).GetOr(old(State()))
    {
      if run.id in runs { return false; }
      runs := runs[run.id := run];
      events := events[run.id := []];
      return true;
    }

    method LoadRun(id: string) returns (run: Option<Run>)
      ensures run == Current(State(), id)
    {
      run := if id in runs then Some(runs[id]) else None;
    }

    method AppendRunEvent(id: string, e: LifecycleEvent)
      modifies this
      ensures State() == AppendIn(old(State()), id, e)
    {
      events := events[id := (if id in events then events[id] else []) + [e]];
    }

    method TransitionRun(expected: RunStatus, updated: Run, e: LifecycleEvent) returns (swap: Swap)
      modifies this
      ensures (State(), swap) == SwapIn(old(State()), expected, updated, e)
    {
      if updated.id !in runs || runs[updated.id].status != expected { return Lost; }
      if runs[updated.id].Pins() != updated.Pins() { return PinChanged; }
      runs := runs[updated.id := updated];
      AppendRunEvent(updated.id, e);
      return Swapped;
    }
  }

  class CapabilityExecutionService {
    const traces: ExecutionTraceStore

    constructor (traces: ExecutionTraceStore)
      ensures this.traces == traces
    {
      this.traces := traces;
    }

    method Transition(run: Run, becomes: RunStatus, handoff: Option<string>) returns (updated: Option<Run>)
      modifies traces
      ensures (traces.State(), updated) == Move(old(traces.State()), run, becomes, handoff)
    {
      if becomes !in AllowedTransitions(run.status) { return None; }
      var next := run.(status := becomes, handoff := handoff);
      var swap := traces.TransitionRun(run.status, next, TransitionEvent(run.status, becomes));
      return if swap.Swapped? then Some(next) else None;
    }

    /** Parent checks, then the Run and its opening event; None stands for an error. */
    method PrepareRun(inv: Invocation, extended: bool) returns (run: Option<Run>)
      modifies traces
      ensures run.Some? <==> AttemptFor(old(traces.State()), inv, extended).Some? && inv.id !in old(traces.State()).runs
      ensures run.None? ==> traces.State() == old(traces.State())
      ensures run.Some? ==>
                run.value == NewRun(inv, AttemptFor(old(traces.State()), inv, extended).value)
                && traces.State() == AppendIn(CreateIn(old(traces.State()), run.value).value, inv.id, OPENING)
    {
      var attempt := 1;
      if inv.parent != "" {
        var found := traces.LoadRun(inv.parent);
        if found.None? { return None; }
        var parent := found.value;
        if parent.id == inv.id || (!extended && parent.project != inv.project) { return None; }
        if parent.target != inv.target || !Terminal(parent.status) { return None; }
        attempt := parent.attempt + 1;
      }
      var taken := traces.LoadRun(inv.id);
      if taken.Some? { return None; }
      var created := NewRun(inv, attempt);
      var ok := traces.CreateRun(created);
      traces.AppendRunEvent(inv.id, OPENING);
      return Some(created);
    }

    method AcceptOutput(run: Run, output: Output) returns (r: Collected)
      modifies traces
      ensures (traces.State(), r) == Accept(old(traces.State()), run, output)
    {
      var becomes := if output.valid then COMPLETED else FAILED;
      var handoff := if output.valid then Some(output.handoff) else None;
      var moved := Transition(run, becomes, handoff);
      if moved.None? {
        var current := traces.LoadRun(run.id);
        return Collected(current, false);
      }
      return Collected(moved, output.valid && !output.rejected && output.normalizes);
    }

    method CollectExternal(id: string, output: Output) returns (r: Collected)
      modifies traces
      ensures var run := Current(old(traces.State()), id);
              (traces.State(), r) == if run.Some? && run.value.status.RUNNING?
                                     then Accept(old(traces.State()), run.value, output)
                                     else (old(traces.State()), Collected(run, false))
    {
      var run := traces.LoadRun(id);
      if run.None? || !run.value.status.RUNNING? { return Collected(run, false); }
      r := AcceptOutput(run.value, output);
    }

    /** Returns the aborted Run, or the Run as it stands when it could not be aborted. */
    method Abort(id: string) returns (r: Option<Run>)
      modifies traces
      ensures var run := Current(old(traces.State()), id);
              if run.None? || Terminal(run.value.status) then traces.State() == old(traces.State()) && r == run
              else traces.State() == Move(old(traces.State()), run.value, ABORTED, run.value.handoff).0
                   && r == Current(traces.State(), id)
    {
      r := traces.LoadRun(id);
      if r.None? || (!r.value.status.PREPARED? && !r.value.status.RUNNING?) { return; }
      var moved := Transition(r.value, ABORTED, r.value.handoff);
      r := traces.LoadRun(id);
    }
  }
}
