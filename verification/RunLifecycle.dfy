/** Any interleaving of prepare, collect and abort calls, each of which may stop between two
    store calls, and what every Run keeps under it. */
module RunLifecycle {
  import opened Common
  import opened Execution

  /** Where a call stands between two of its store calls, with the Run record it holds. */
  datatype Call =
    | Screened(inv: Invocation, attempt: nat, managed: bool)
    | Created(run: Run, managed: bool)
    | Announced(run: Run, managed: bool)
    | Holding(run: Run)
    | Aborting(run: Run)

  datatype World = World(traces: Traces, calls: map<nat, Call>, proposals: seq<string>)

  datatype Act =
    | Screen(call: nat, inv: Invocation, managed: bool, extended: bool)
    | Create(call: nat)
    | Announce(call: nat)
    | Start(call: nat)
    | Collect(call: nat, id: string)
    | Finish(call: nat, output: Output)
    | Abort(call: nat, id: string)
    | Fire(call: nat)
    | Drop(call: nat)

  const EMPTY := World(Traces(map[], map[]), map[], [])

  function Ended(w: World, call: nat): World { w.(calls := w.calls - {call}) }

  function At(w: World, call: nat, c: Call): World { w.(calls := w.calls[call := c]) }

  function Begin(w: World, call: nat, c: Option<Call>): World {
    if call in w.calls || c.None? then w else At(w, call, c.value)
  }

  function CreateStep(w: World, call: nat, c: Call): World
    requires c.Screened?
  {
    var run := NewRun(c.inv, c.attempt);
    match CreateIn(w.traces, run)
    case None => Ended(w, call)
    case Some(t) => At(w.(traces := t), call, Created(run, c.managed))
  }

  function StartStep(w: World, call: nat, c: Call): World
    requires c.Announced?
  {
    var (t, moved) := Move(w.traces, c.run, RUNNING, c.run.handoff);
    var next := w.(traces := t);
    if moved.Some? && c.managed then At(next, call, Holding(moved.value)) else Ended(next, call)
  }

  function FinishStep(w: World, call: nat, c: Call, output: Output): World
    requires c.Holding?
  {
    var (t, r) := Accept(w.traces, c.run, output);
    Ended(w.(traces := t, proposals := if r.proposal then w.proposals + [c.run.id] else w.proposals), call)
  }

  /** One store call of one call under way, or the opening reads of a new one. */
  function Step(w: World, a: Act): World {
    match a
    case Screen(call, inv, managed, extended) =>
      var attempt := AttemptFor(w.traces, inv, extended);
      Begin(w, call, if attempt.Some? then Some(Screened(inv, attempt.value, managed)) else None)
    case Collect(call, id) =>
      var run := Current(w.traces, id);
      Begin(w, call, if run.Some? && run.value.status.RUNNING? then Some(Holding(run.value)) else None)
    case Abort(call, id) =>
      var run := Current(w.traces, id);
      Begin(w, call, if run.Some? && !Terminal(run.value.status) then Some(Aborting(run.value)) else None)
    case Drop(call) => Ended(w, call)
    case Create(call) =>
      if call in w.calls && w.calls[call].Screened? then CreateStep(w, call, w.calls[call]) else w
    case Announce(call) =>
      if call in w.calls && w.calls[call].Created? then
        var c := w.calls[call];
        At(w.(traces := AppendIn(w.traces, c.run.id, OPENING)), call, Announced(c.run, c.managed))
      else w
    case Start(call) =>
      if call in w.calls && w.calls[call].Announced? then StartStep(w, call, w.calls[call]) else w
    case Finish(call, output) =>
      if call in w.calls && w.calls[call].Holding? then FinishStep(w, call, w.calls[call], output) else w
    case Fire(call) =>
      if call in w.calls && w.calls[call].Aborting? then
        Ended(w.(traces := Move(w.traces, w.calls[call].run, ABORTED, w.calls[call].run.handoff).0), call)
      else w
  }

  function Run(acts: seq<Act>): World {
    if acts == [] then EMPTY else Step(Run(acts[..|acts| - 1]), acts[|acts| - 1])
  }

  // ---------------------------------------------------------------- one Run's events

  function Openings(events: seq<LifecycleEvent>): seq<LifecycleEvent> {
    if events == [] then []
    else (if events[0].was.None? then [events[0]] else []) + Openings(events[1..])
  }

  function Transitions(events: seq<LifecycleEvent>): seq<LifecycleEvent> {
    if events == [] then []
    else (if events[0].was.Some? then [events[0]] else []) + Transitions(events[1..])
  }

  /** Transition events, in the order they were stored, lead from PREPARED to `status`: each
      is allowed and starts where the one before it ended. */
  ghost predicate Leads(ts: seq<LifecycleEvent>, status: RunStatus) {
    if ts == [] then status == PREPARED
    else
      var last := ts[|ts| - 1];
      last.was.Some? && last == TransitionEvent(last.was.value, status)
      && status in AllowedTransitions(last.was.value)
      && Leads(ts[..|ts| - 1], last.was.value)
  }

  ghost predicate RunSound(t: Traces, id: string)
    requires id in t.runs
  {
    && t.runs[id].id == id
    && id in t.events
    && Leads(Transitions(t.events[id]), t.runs[id].status)
    && (Openings(t.events[id]) == [] || Openings(t.events[id]) == [OPENING])
  }

  // ---------------------------------------------------------------- retries

  /** The attempt number fits the parent, which is terminal and asks for the same capability. */
  ghost predicate Retries(t: Traces, id: string, target: Target, parent: string, attempt: nat) {
    if parent == "" then attempt == 1
    else parent in t.runs && parent != id && Terminal(t.runs[parent].status)
         && t.runs[parent].target == target && attempt == t.runs[parent].attempt + 1
  }

  // ---------------------------------------------------------------- the invariant

  ghost predicate CallSound(t: Traces, c: Call) {
    match c
    case Screened(inv, attempt, _) => Retries(t, inv.id, inv.target, inv.parent, attempt)
    case Created(run, _) =>
      run.id in t.runs && run.status.PREPARED? && run.Pins() == t.runs[run.id].Pins()
          && Openings(EventsFor(t, run.id)) == []
    case Announced(run, _) => run.id in t.runs && run.status.PREPARED? && run.Pins() == t.runs[run.id].Pins()
    case Holding(run) => run.id in t.runs && run.status.RUNNING? && run.Pins() == t.runs[run.id].Pins()
    case Aborting(run) => run.id in t.runs && !Terminal(run.status) && run.Pins() == t.runs[run.id].Pins()
  }

  /** Only the call that created a Run may announce it, so two such calls hold different Runs. */
  ghost predicate OneCreator(calls: map<nat, Call>) {
    forall i, j :: i in calls && j in calls && i != j && calls[i].Created? && calls[j].Created? ==>
      calls[i].run.id != calls[j].run.id
  }

  ghost predicate Distinctly(ids: seq<string>) {
    forall i, j :: 0 <= i < j < |ids| ==> ids[i] != ids[j]
  }

  ghost predicate RetrySound(t: Traces, id: string)
    requires id in t.runs
  {
    Retries(t, id, t.runs[id].target, t.runs[id].parent, t.runs[id].attempt)
  }

  ghost predicate TracesSound(t: Traces) {
    forall id :: id in t.runs ==> RunSound(t, id) && RetrySound(t, id)
  }

  ghost predicate CallsSound(t: Traces, calls: map<nat, Call>) {
    OneCreator(calls) && forall i :: i in calls ==> CallSound(t, calls[i])
  }

  ghost predicate ProposalsSound(t: Traces, proposals: seq<string>) {
    Distinctly(proposals) && forall id :: id in proposals ==> id in t.runs && t.runs[id].status.COMPLETED?
  }

  ghost predicate Sound(w: World) {
    TracesSound(w.traces) && CallsSound(w.traces, w.calls) && ProposalsSound(w.traces, w.proposals)
  }

  // ---------------------------------------------------------------- how traces change

  /** A later trace store: Runs keep their pins, and terminal Runs do not change at all. */
  ghost predicate Later(a: Traces, b: Traces) {
    forall id :: id in a.runs ==>
      id in b.runs && b.runs[id].Pins() == a.runs[id].Pins()
          && (Terminal(a.runs[id].status) ==> b.runs[id] == a.runs[id])
  }

  lemma RetriesKept(a: Traces, b: Traces, id: string, target: Target, parent: string, attempt: nat)
    requires Later(a, b) && Retries(a, id, target, parent, attempt)
    ensures Retries(b, id, target, parent, attempt)
  {
  }

  lemma {:induction false} OpeningsAppend(events: seq<LifecycleEvent>, e: LifecycleEvent)
    ensures Openings(events + [e]) == Openings(events) + if e.was.None? then [e] else []
    ensures Transitions(events + [e]) == Transitions(events) + if e.was.Some? then [e] else []
  {
    if events == [] {
      assert ([] + [e])[1..] == [];
    } else {
      assert (events + [e])[1..] == events[1..] + [e];
      OpeningsAppend(events[1..], e);
    }
  }

  /** A successful transition extends the chain by one allowed step. */
  lemma MoveExtends(t: Traces, run: Run, becomes: RunStatus, handoff: Option<string>)
    requires run.id in t.runs && RunSound(t, run.id) && run.Pins() == t.runs[run.id].Pins()
    ensures var (next, moved) := Move(t, run, becomes, handoff);
            && (moved.None? ==> next == t)
            && (moved.Some? ==>
                  && moved.value.Pins() == run.Pins() && moved.value.status == becomes && moved.value.id == run.id
                  && t.runs[run.id].status == run.status && becomes in AllowedTransitions(run.status)
                  && next.runs == t.runs[run.id := moved.value]
                  && next.events == t.events[run.id := t.events[run.id] + [TransitionEvent(run.status, becomes)]]
                  && RunSound(next, run.id))
  {
    var (next, moved) := Move(t, run, becomes, handoff);
    if moved.Some? {
      var e := TransitionEvent(run.status, becomes);
      OpeningsAppend(t.events[run.id], e);
      var ts := Transitions(t.events[run.id]);
      assert (ts + [e])[..|ts|] == ts;
    }
  }

  /** A later store in which no Run but `but` gained an opening event. */
  ghost predicate LaterBut(a: Traces, b: Traces, but: string) {
    Later(a, b) && forall id :: id in a.runs && id != but ==> Openings(EventsFor(b, id)) == Openings(EventsFor(a, id))
  }

  lemma CallKept(a: Traces, b: Traces, but: string, c: Call)
    requires LaterBut(a, b, but) && CallSound(a, c) && (c.Created? ==> c.run.id != but)
    ensures CallSound(b, c)
  {
  }

  lemma CallsKept(a: Traces, b: Traces, but: string, calls: map<nat, Call>)
    requires LaterBut(a, b, but) && CallsSound(a, calls)
    requires forall i :: i in calls && calls[i].Created? ==> calls[i].run.id != but
    ensures CallsSound(b, calls)
  {
    forall i | i in calls ensures CallSound(b, calls[i]) { CallKept(a, b, but, calls[i]); }
  }

  lemma MoveTraces(t: Traces, run: Run, becomes: RunStatus, handoff: Option<string>)
    requires TracesSound(t) && run.id in t.runs && run.Pins() == t.runs[run.id].Pins()
    ensures TracesSound(Move(t, run, becomes, handoff).0) && Later(t, Move(t, run, becomes, handoff).0)
    ensures forall id :: id in t.runs ==>
              Openings(EventsFor(Move(t, run, becomes, handoff).0, id)) == Openings(EventsFor(t, id))
  {
    MoveExtends(t, run, becomes, handoff);
    var (next, moved) := Move(t, run, becomes, handoff);
    if moved.Some? {
      OpeningsAppend(t.events[run.id], TransitionEvent(run.status, becomes));
      MoveKeepsRuns(t, next, run.id, moved.value, TransitionEvent(run.status, becomes));
    }
  }

  lemma MoveKeepsRuns(t: Traces, next: Traces, id: string, moved: Run, e: LifecycleEvent)
    requires TracesSound(t) && id in t.runs && moved.Pins() == t.runs[id].Pins() && !Terminal(t.runs[id].status)
    requires next.runs == t.runs[id := moved] && next.events == t.events[id := t.events[id] + [e]]
    requires RunSound(next, id)
    ensures TracesSound(next) && Later(t, next)
  {
    assert Later(t, next);
    forall k | k in next.runs ensures RunSound(next, k) && RetrySound(next, k) {
      assert RunSound(t, k) && RetrySound(t, k);
      var r := t.runs[k];
      RetriesKept(t, next, k, r.target, r.parent, r.attempt);
      assert next.runs[k].Pins() == r.Pins();
    }
  }

  lemma MoveSound(w: World, run: Run, becomes: RunStatus, handoff: Option<string>)
    requires Sound(w) && run.id in w.traces.runs && run.Pins() == w.traces.runs[run.id].Pins()
    ensures Sound(w.(traces := Move(w.traces, run, becomes, handoff).0))
  {
    MoveTraces(w.traces, run, becomes, handoff);
    MovedCalls(w, Move(w.traces, run, becomes, handoff).0);
  }

  lemma MovedCalls(w: World, t: Traces)
    requires Sound(w) && TracesSound(t) && Later(w.traces, t)
    requires forall id :: id in w.traces.runs ==> Openings(EventsFor(t, id)) == Openings(EventsFor(w.traces, id))
    ensures Sound(w.(traces := t))
  {
    forall i | i in w.calls ensures CallSound(t, w.calls[i]) {
      var c := w.calls[i];
      assert CallSound(w.traces, c);
      assert c.Created? ==> Openings(EventsFor(t, c.run.id)) == Openings(EventsFor(w.traces, c.run.id));
    }
  }

  lemma Ending(w: World, call: nat)
    requires Sound(w)
    ensures Sound(Ended(w, call))
  {
    var calls := w.calls - {call};
    forall i | i in calls ensures CallSound(w.traces, calls[i]) {
      assert CallSound(w.traces, w.calls[i]);
    }
  }

  lemma Placing(w: World, call: nat, c: Call)
    requires Sound(w) && CallSound(w.traces, c)
    requires c.Created? ==> forall i :: i in w.calls && i != call && w.calls[i].Created? ==>
               w.calls[i].run.id != c.run.id
    ensures Sound(At(w, call, c))
  {
    var calls := w.calls[call := c];
    forall i | i in calls ensures CallSound(w.traces, calls[i]) {
      if i != call { assert CallSound(w.traces, w.calls[i]); }
    }
  }

  lemma CreatedTraces(t: Traces, run: Run)
    requires TracesSound(t) && run.id !in t.runs && run.status.PREPARED?
    requires Retries(t, run.id, run.target, run.parent, run.attempt)
    ensures TracesSound(CreateIn(t, run).value) && Later(t, CreateIn(t, run).value)
  {
    var next := CreateIn(t, run).value;
    forall id | id in next.runs ensures RunSound(next, id) && RetrySound(next, id) {
      if id != run.id { assert RunSound(t, id) && RetrySound(t, id); }
      var r := next.runs[id];
      RetriesKept(t, next, id, r.target, r.parent, r.attempt);
    }
  }

  lemma CreateSound(w: World, call: nat)
    requires Sound(w) && call in w.calls && w.calls[call].Screened?
    ensures Sound(CreateStep(w, call, w.calls[call]))
  {
    var c := w.calls[call];
    var run := NewRun(c.inv, c.attempt);
    assert CallSound(w.traces, c);
    if run.id in w.traces.runs {
      Ending(w, call);
    } else {
      CreatedTraces(w.traces, run);
      var next := w.(traces := CreateIn(w.traces, run).value);
      MovedCalls(w, next.traces);
      forall i | i in w.calls && w.calls[i].Created? ensures w.calls[i].run.id != run.id {
        assert CallSound(w.traces, w.calls[i]);
      }
      Placing(next, call, Created(run, c.managed));
    }
  }

  lemma AnnouncedTraces(t: Traces, id: string)
    requires TracesSound(t) && id in t.runs && Openings(EventsFor(t, id)) == []
    ensures TracesSound(AppendIn(t, id, OPENING)) && LaterBut(t, AppendIn(t, id, OPENING), id)
  {
    var next := AppendIn(t, id, OPENING);
    OpeningsAppend(t.events[id], OPENING);
    assert Transitions(next.events[id]) == Transitions(t.events[id]);
    forall k | k in next.runs ensures RunSound(next, k) && RetrySound(next, k) {
      assert RunSound(t, k) && RetrySound(t, k);
      var r := t.runs[k];
      RetriesKept(t, next, k, r.target, r.parent, r.attempt);
    }
  }

  lemma AnnounceSound(w: World, call: nat)
    requires Sound(w) && call in w.calls && w.calls[call].Created?
    ensures Sound(Step(w, Announce(call)))
  {
    var c := w.calls[call];
    assert CallSound(w.traces, c);
    AnnouncedTraces(w.traces, c.run.id);
    var t := AppendIn(w.traces, c.run.id, OPENING);
    Ending(w, call);
    CallsKept(w.traces, t, c.run.id, w.calls - {call});
    Placing(World(t, w.calls - {call}, w.proposals), call, Announced(c.run, c.managed));
    assert (w.calls - {call})[call := Announced(c.run, c.managed)] == w.calls[call := Announced(c.run, c.managed)];
  }

  lemma StartSound(w: World, call: nat)
    requires Sound(w) && call in w.calls && w.calls[call].Announced?
    ensures Sound(StartStep(w, call, w.calls[call]))
  {
    var c := w.calls[call];
    assert CallSound(w.traces, c) && RunSound(w.traces, c.run.id);
    MoveSound(w, c.run, RUNNING, c.run.handoff);
    MoveExtends(w.traces, c.run, RUNNING, c.run.handoff);
    var (t, moved) := Move(w.traces, c.run, RUNNING, c.run.handoff);
    Ending(w.(traces := t), call);
    if moved.Some? { Placing(w.(traces := t), call, Holding(moved.value)); }
  }

  lemma Proposing(w: World, id: string)
    requires Sound(w) && id !in w.proposals && id in w.traces.runs && w.traces.runs[id].status.COMPLETED?
    ensures Sound(w.(proposals := w.proposals + [id]))
  {
  }

  /** Only the call that wins the step to COMPLETED returns a proposal. */
  lemma FinishSound(w: World, call: nat, output: Output)
    requires Sound(w) && call in w.calls && w.calls[call].Holding?
    ensures Sound(FinishStep(w, call, w.calls[call], output))
  {
    var c := w.calls[call];
    assert CallSound(w.traces, c) && RunSound(w.traces, c.run.id);
    var becomes := if output.valid then COMPLETED else FAILED;
    var handoff := if output.valid then Some(output.handoff) else None;
    MoveSound(w, c.run, becomes, handoff);
    MoveExtends(w.traces, c.run, becomes, handoff);
    var (t, moved) := Move(w.traces, c.run, becomes, handoff);
    var next := w.(traces := t);
    Ending(next, call);
    if output.valid && moved.Some? && !output.rejected && output.normalizes {
      assert c.run.id !in w.proposals;
      Proposing(Ended(next, call), c.run.id);
    }
  }

  lemma FireSound(w: World, call: nat)
    requires Sound(w) && call in w.calls && w.calls[call].Aborting?
    ensures Sound(Step(w, Fire(call)))
  {
    var c := w.calls[call];
    assert CallSound(w.traces, c);
    MoveSound(w, c.run, ABORTED, c.run.handoff);
    Ending(w.(traces := Move(w.traces, c.run, ABORTED, c.run.handoff).0), call);
  }

  lemma AttemptRetries(t: Traces, inv: Invocation, extended: bool)
    requires TracesSound(t) && AttemptFor(t, inv, extended).Some?
    ensures Retries(t, inv.id, inv.target, inv.parent, AttemptFor(t, inv, extended).value)
  {
    if inv.parent != "" { assert RunSound(t, inv.parent); }
  }

  lemma HeldRun(t: Traces, id: string)
    requires TracesSound(t) && id in t.runs
    ensures t.runs[id].id == id
  {
    assert RunSound(t, id);
  }

  lemma ScreenSound(w: World, call: nat, inv: Invocation, managed: bool, extended: bool)
    requires Sound(w)
    ensures Sound(Step(w, Screen(call, inv, managed, extended)))
  {
    if AttemptFor(w.traces, inv, extended).Some? {
      AttemptRetries(w.traces, inv, extended);
      Placing(w, call, Screened(inv, AttemptFor(w.traces, inv, extended).value, managed));
    }
  }

  lemma CollectSound(w: World, call: nat, id: string)
    requires Sound(w)
    ensures Sound(Step(w, Collect(call, id)))
  {
    if id in w.traces.runs && w.traces.runs[id].status.RUNNING? {
      HeldRun(w.traces, id);
      Placing(w, call, Holding(w.traces.runs[id]));
    }
  }

  lemma AbortSound(w: World, call: nat, id: string)
    requires Sound(w)
    ensures Sound(Step(w, Abort(call, id)))
  {
    if id in w.traces.runs && !Terminal(w.traces.runs[id].status) {
      HeldRun(w.traces, id);
      Placing(w, call, Aborting(w.traces.runs[id]));
    }
  }

  lemma StoreSound(w: World, a: Act)
    requires Sound(w) && (a.Create? || a.Announce? || a.Start?)
    ensures Sound(Step(w, a))
  {
    if a.call in w.calls {
      if a.Create? && w.calls[a.call].Screened? { CreateSound(w, a.call); }
      if a.Announce? && w.calls[a.call].Created? { AnnounceSound(w, a.call); }
      if a.Start? && w.calls[a.call].Announced? { StartSound(w, a.call); }
    }
  }

  lemma MoveOnSound(w: World, a: Act)
    requires Sound(w) && (a.Finish? || a.Fire? || a.Drop?)
    ensures Sound(Step(w, a))
  {
    if a.Drop? { Ending(w, a.call); }
    if a.call in w.calls {
      if a.Finish? && w.calls[a.call].Holding? { FinishSound(w, a.call, a.output); }
      if a.Fire? && w.calls[a.call].Aborting? { FireSound(w, a.call); }
    }
  }

  lemma StepSound(w: World, a: Act)
    requires Sound(w)
    ensures Sound(Step(w, a))
  {
    match a
    case Create(_) => StoreSound(w, a);
    case Announce(_) => StoreSound(w, a);
    case Start(_) => StoreSound(w, a);
    case Finish(_, _) => MoveOnSound(w, a);
    case Fire(_) => MoveOnSound(w, a);
    case Drop(_) => MoveOnSound(w, a);
    case Screen(call, inv, managed, extended) => ScreenSound(w, call, inv, managed, extended);
    case Collect(call, id) => CollectSound(w, call, id);
    case Abort(call, id) => AbortSound(w, call, id);
  }

  lemma {:induction false} RunsSound(acts: seq<Act>)
    ensures Sound(Run(acts))
  {
    if acts != [] {
      RunsSound(acts[..|acts| - 1]);
      StepSound(Run(acts[..|acts| - 1]), acts[|acts| - 1]);
    }
  }

  // ---------------------------------------------------------------- what it means for one Run

  function InsertEvent(e: LifecycleEvent, sorted: seq<LifecycleEvent>): seq<LifecycleEvent> {
    if sorted != [] && sorted[0].sequence < e.sequence then [sorted[0]] + InsertEvent(e, sorted[1..]) else [e] + sorted
  }

  /** The events in the order of their sequence numbers. */
  function BySequence(events: seq<LifecycleEvent>): seq<LifecycleEvent> {
    if events == [] then [] else InsertEvent(events[0], BySequence(events[1..]))
  }

  /** Consecutive events join up, and the last one says where the Run stands. */
  ghost predicate Linked(events: seq<LifecycleEvent>, status: RunStatus) {
    && (forall i, j :: 0 <= i < |events| && j == i + 1 && j < |events| ==> events[j].was == Some(events[i].becomes))
    && (events != [] ==> events[|events| - 1].becomes == status)
    && (events != [] ==> events[0] == OPENING || events[0].was == Some(PREPARED))
  }

  /** Transition numbers rise, and none is that of the opening event. */
  ghost predicate Rising(ts: seq<LifecycleEvent>) {
    (forall i :: 0 <= i < |ts| ==> ts[i].sequence > 1)
    && forall i, j :: 0 <= i < j < |ts| ==> ts[i].sequence < ts[j].sequence
  }

  /** A chain from PREPARED has at most two steps, and only its last one can be terminal. */
  lemma {:induction false} LeadsShort(ts: seq<LifecycleEvent>, status: RunStatus)
    requires Leads(ts, status)
    ensures |ts| <= 2 && Rising(ts) && Linked(ts, status)
    ensures status.RUNNING? ==> |ts| == 1
    ensures ts == [] <==> status.PREPARED?
    ensures forall i :: 0 <= i < |ts| - 1 ==> !Terminal(ts[i].becomes)
    ensures ts != [] ==> ts[0].was == Some(PREPARED)
  {
    if ts != [] {
      var front, last := ts[..|ts| - 1], ts[|ts| - 1];
      LeadsShort(front, last.was.value);
    }
  }

  /** At most one transition of a Run ever reaches a terminal status, under any interleaving. */
  lemma OneTerminalStep(acts: seq<Act>, id: string, i: int, j: int)
    requires id in Run(acts).traces.runs
    requires var ts := Transitions(EventsFor(Run(acts).traces, id));
             0 <= i < |ts| && 0 <= j < |ts| && Terminal(ts[i].becomes) && Terminal(ts[j].becomes)
    ensures i == j && Transitions(EventsFor(Run(acts).traces, id))[i].becomes == Run(acts).traces.runs[id].status
  {
    RunsSound(acts);
    var t := Run(acts).traces;
    assert RunSound(t, id);
    LeadsShort(Transitions(t.events[id]), t.runs[id].status);
  }

  lemma InsertFirst(e: LifecycleEvent, ts: seq<LifecycleEvent>)
    requires forall i :: 0 <= i < |ts| ==> e.sequence < ts[i].sequence
    ensures InsertEvent(e, ts) == [e] + ts
  {
  }

  lemma InsertAfterOpenings(e: LifecycleEvent, os: seq<LifecycleEvent>, ts: seq<LifecycleEvent>)
    requires |os| <= 1 && (os != [] ==> os[0].sequence < e.sequence)
    requires forall i :: 0 <= i < |ts| ==> e.sequence < ts[i].sequence
    ensures InsertEvent(e, os + ts) == os + ([e] + ts)
  {
    InsertFirst(e, ts);
    if os == [] {
      assert os + ts == ts;
    } else {
      assert (os + ts)[1..] == ts;
    }
  }

  ghost predicate OneOpening(os: seq<LifecycleEvent>) { |os| <= 1 && (os != [] ==> os[0].sequence == 1) }

  lemma OneOpeningTail(events: seq<LifecycleEvent>)
    requires events != [] && OneOpening(Openings(events))
    ensures OneOpening(Openings(events[1..]))
    ensures events[0].was.None? ==> Openings(events[1..]) == [] && events[0].sequence == 1
  {
    var e, os := events[0], Openings(events[1..]);
    if e.was.None? {
      assert Openings(events) == [e] + os;
      assert Openings(events)[0] == e;
    } else {
      assert Openings(events) == os;
    }
  }

  lemma {:induction false} OpeningsFirst(events: seq<LifecycleEvent>)
    requires OneOpening(Openings(events)) && Rising(Transitions(events))
    ensures BySequence(events) == Openings(events) + Transitions(events)
  {
    if events != [] {
      RisingTail(events);
      OneOpeningTail(events);
      OpeningsFirst(events[1..]);
      InsertStep(events[0], events[1..]);
      assert events == [events[0]] + events[1..];
    }
  }

  lemma Unfolded(e: LifecycleEvent, rest: seq<LifecycleEvent>)
    ensures Openings([e] + rest) == (if e.was.None? then [e] else []) + Openings(rest)
    ensures Transitions([e] + rest) == (if e.was.Some? then [e] else []) + Transitions(rest)
    ensures BySequence([e] + rest) == InsertEvent(e, BySequence(rest))
  {
    assert ([e] + rest)[1..] == rest;
  }

  lemma InsertStep(e: LifecycleEvent, rest: seq<LifecycleEvent>)
    requires OneOpening(Openings(rest)) && BySequence(rest) == Openings(rest) + Transitions(rest)
    requires e.was.None? ==> Openings(rest) == [] && e.sequence == 1
    requires e.was.Some? ==> e.sequence > 1
    requires forall i :: 0 <= i < |Transitions(rest)| ==> e.sequence < Transitions(rest)[i].sequence
    ensures BySequence([e] + rest) == Openings([e] + rest) + Transitions([e] + rest)
  {
    Unfolded(e, rest);
    InsertBetween(e, Openings(rest), Transitions(rest));
  }

  lemma InsertBetween(e: LifecycleEvent, os: seq<LifecycleEvent>, ts: seq<LifecycleEvent>)
    requires OneOpening(os) && (e.was.None? ==> os == []) && (e.was.Some? ==> e.sequence > 1)
    requires forall i :: 0 <= i < |ts| ==> e.sequence < ts[i].sequence
    ensures InsertEvent(e, os + ts)
            == ((if e.was.None? then [e] else []) + os) + ((if e.was.Some? then [e] else []) + ts)
  {
    if e.was.Some? {
      InsertAfterOpenings(e, os, ts);
    } else {
      assert os + ts == ts;
      InsertFirst(e, ts);
    }
  }

  lemma RisingTail(events: seq<LifecycleEvent>)
    requires events != [] && Rising(Transitions(events))
    ensures Rising(Transitions(events[1..]))
    ensures events[0].was.Some? ==> events[0].sequence > 1
    ensures events[0].was.Some? || events[0].sequence == 1 ==>
              forall i :: 0 <= i < |Transitions(events[1..])| ==>
                  events[0].sequence < Transitions(events[1..])[i].sequence
  {
    var ts := Transitions(events[1..]);
    if events[0].was.Some? {
      RisingRest(events[0], ts);
    } else {
      assert Transitions(events) == ts;
    }
  }

  lemma RisingRest(e: LifecycleEvent, ts: seq<LifecycleEvent>)
    requires Rising([e] + ts)
    ensures Rising(ts) && e.sequence > 1 && forall i :: 0 <= i < |ts| ==> e.sequence < ts[i].sequence
  {
    var all := [e] + ts;
    assert all[0] == e;
    forall i | 0 <= i < |ts| ensures ts[i] == all[i + 1] && e.sequence < ts[i].sequence {
      assert all[0].sequence < all[i + 1].sequence;
    }
    forall i, j | 0 <= i < j < |ts| ensures ts[i].sequence < ts[j].sequence {
      assert all[i + 1].sequence < all[j + 1].sequence;
    }
  }

  /** A Run's transitions follow allowed steps from PREPARED, and sorted by sequence number its
      events form one linked chain that ends at the stored status. The opening event leads it when
      its creator lived to append it, even if another call's transition was stored first. */
  lemma EventsFormOneChain(acts: seq<Act>, id: string)
    requires id in Run(acts).traces.runs
    ensures var t := Run(acts).traces;
            var events := EventsFor(t, id);
            && Leads(Transitions(events), t.runs[id].status)
            && Linked(BySequence(events), t.runs[id].status)
            && BySequence(events) == Openings(events) + Transitions(events)
            && |Transitions(events)| <= 2 && |Openings(events)| <= 1
            && (events == [] ==> t.runs[id].status.PREPARED?)
  {
    RunsSound(acts);
    var t := Run(acts).traces;
    assert RunSound(t, id);
    var events := t.events[id];
    LeadsShort(Transitions(events), t.runs[id].status);
    OpeningsFirst(events);
    OpenedChain(Openings(events), Transitions(events), t.runs[id].status);
    NoEvents(events);
  }

  lemma NoEvents(events: seq<LifecycleEvent>)
    ensures events == [] ==> Transitions(events) == []
  {
  }

  /** An opening event joins up with the transitions after it. */
  lemma OpenedChain(os: seq<LifecycleEvent>, ts: seq<LifecycleEvent>, status: RunStatus)
    requires Linked(ts, status) && (ts == [] <==> status.PREPARED?) && (os == [] || os == [OPENING])
    requires ts != [] ==> ts[0].was == Some(PREPARED)
    ensures Linked(os + ts, status)
  {
    var all := os + ts;
    if os == [OPENING] {
      forall i, j | 0 <= i < |all| && j == i + 1 && j < |all| ensures all[j].was == Some(all[i].becomes) {
        if i > 0 { assert all[i] == ts[i - 1] && all[j] == ts[j - 1]; }
      }
    } else {
      assert all == ts;
    }
  }

  /** A proposal is returned at most once for a Run, and only when the Run is COMPLETED. */
  lemma ProposalsFromWinners(acts: seq<Act>, id: string)
    requires id in Run(acts).proposals
    ensures id in Run(acts).traces.runs && Run(acts).traces.runs[id].status.COMPLETED?
    ensures multiset(Run(acts).proposals)[id] == 1
  {
    RunsSound(acts);
    CountsOnce(Run(acts).proposals, id);
  }

  lemma {:induction false} CountsOnce(ids: seq<string>, id: string)
    requires Distinctly(ids)
    ensures multiset(ids)[id] == if id in ids then 1 else 0
  {
    if ids != [] {
      var front, last := ids[..|ids| - 1], ids[|ids| - 1];
      CountsOnce(front, id);
      assert ids == front + [last];
      forall i | 0 <= i < |front| ensures front[i] != last { assert ids[i] == front[i]; }
    }
  }

  // ---------------------------------------------------------------- retry chains

  /** A Run and its retry parents, back to the first attempt. */
  function RetryChain(t: Traces, id: string, attempt: nat): seq<string>
    decreases attempt
  {
    if id !in t.runs then []
    else if t.runs[id].parent == "" || attempt == 0 then [id]
    else [id] + RetryChain(t, t.runs[id].parent, attempt - 1)
  }

  /** The Runs of a retry chain: attempts count down to 1, every parent is terminal. */
  ghost predicate RetriesFrom(t: Traces, chain: seq<string>, n: nat, target: Target) {
    && |chain| == n
    && (forall i :: 0 <= i < n ==>
          chain[i] in t.runs && t.runs[chain[i]].attempt == n - i && t.runs[chain[i]].target == target)
    && (forall i :: 0 < i < n ==> Terminal(t.runs[chain[i]].status))
  }

  lemma ChainLonger(t: Traces, id: string, tail: seq<string>, n: nat)
    requires id in t.runs && t.runs[id].attempt == n + 1 && RetriesFrom(t, tail, n, t.runs[id].target)
    requires tail != [] ==> Terminal(t.runs[tail[0]].status)
    ensures RetriesFrom(t, [id] + tail, n + 1, t.runs[id].target)
  {
    var chain := [id] + tail;
    forall i | 0 < i < n + 1 ensures chain[i] == tail[i - 1] {}
  }

  lemma {:induction false} ChainOf(t: Traces, id: string, n: nat)
    requires TracesSound(t) && id in t.runs && n == t.runs[id].attempt
    ensures var chain := RetryChain(t, id, n);
            RetriesFrom(t, chain, n, t.runs[id].target) && chain != [] && chain[0] == id
                && t.runs[chain[n - 1]].parent == ""
    decreases n
  {
    assert RetrySound(t, id);
    var parent := t.runs[id].parent;
    if parent == "" {
      assert RetryChain(t, id, n) == [id];
    } else {
      var k := n - 1;
      ChainOf(t, parent, k);
      ChainLonger(t, id, RetryChain(t, parent, k), k);
      assert RetryChain(t, id, n) == [id] + RetryChain(t, parent, k);
    }
  }

  /** Retry chains are finite: as long as the attempt number, without a repetition, every
      earlier attempt terminal and of the same capability, back to a first attempt. */
  lemma RetryChainsEnd(acts: seq<Act>, id: string)
    requires id in Run(acts).traces.runs
    ensures var t := Run(acts).traces;
            var chain := RetryChain(t, id, t.runs[id].attempt);
            && |chain| == t.runs[id].attempt >= 1 && chain[0] == id
            && (forall i :: 0 <= i < |chain| ==> chain[i] in t.runs)
            && (forall i :: 0 < i < |chain| ==>
                Terminal(t.runs[chain[i]].status) && t.runs[chain[i]].target == t.runs[id].target)
            && t.runs[chain[|chain| - 1]].parent == ""
            && Distinctly(chain)
  {
    RunsSound(acts);
    var t := Run(acts).traces;
    ChainOf(t, id, t.runs[id].attempt);
  }

  // ---------------------------------------------------------------- projects

  ghost predicate ParentProject(t: Traces, project: string, parent: string) {
    parent != "" ==> parent in t.runs && t.runs[parent].project == project
  }

  ghost predicate ProjectsKept(w: World) {
    && (forall id :: id in w.traces.runs ==>
          ParentProject(w.traces, w.traces.runs[id].project, w.traces.runs[id].parent))
    && (forall i :: i in w.calls && w.calls[i].Screened? ==>
          ParentProject(w.traces, w.calls[i].inv.project, w.calls[i].inv.parent))
  }

  /** What a step may do to the Runs: keep their pins, and add the Run of a screened call. */
  ghost predicate StepsTo(w: World, next: World) {
    && (forall id :: id in w.traces.runs ==>
        id in next.traces.runs && next.traces.runs[id].Pins() == w.traces.runs[id].Pins())
    && (forall id :: id in next.traces.runs && id !in w.traces.runs ==>
          exists i :: i in w.calls && w.calls[i].Screened?
              && next.traces.runs[id] == NewRun(w.calls[i].inv, w.calls[i].attempt))
  }

  lemma MoveSteps(w: World, run: Run, becomes: RunStatus, handoff: Option<string>)
    ensures StepsTo(w, w.(traces := Move(w.traces, run, becomes, handoff).0))
  {
  }

  lemma StepSteps(w: World, a: Act)
    ensures StepsTo(w, Step(w, a))
  {
    match a
    case Start(call) =>
      if call in w.calls && w.calls[call].Announced? {
        MoveSteps(w, w.calls[call].run, RUNNING, w.calls[call].run.handoff);
      }
    case Finish(call, output) =>
      if call in w.calls && w.calls[call].Holding? {
        MoveSteps(w, w.calls[call].run, COMPLETED, Some(output.handoff));
        MoveSteps(w, w.calls[call].run, FAILED, None);
      }
    case Fire(call) =>
      if call in w.calls && w.calls[call].Aborting? {
        MoveSteps(w, w.calls[call].run, ABORTED, w.calls[call].run.handoff);
      }
    case _ =>
  }

  lemma ParentProjectKept(w: World, next: World, project: string, parent: string)
    requires StepsTo(w, next) && ParentProject(w.traces, project, parent)
    ensures ParentProject(next.traces, project, parent)
  {
    if parent != "" {
      assert next.traces.runs[parent].Pins().project == w.traces.runs[parent].Pins().project;
    }
  }

  /** A step that opens a retry opens it in its parent's project: the check that the plain
      service makes and the service with context extensions leaves out. */
  ghost predicate Admits(w: World, a: Act) {
    a.Screen? && a.call !in w.calls && AttemptFor(w.traces, a.inv, a.extended).Some? ==>
      ParentProject(w.traces, a.inv.project, a.inv.parent)
  }

  lemma CallsAfter(w: World, a: Act, i: nat)
    requires i in Step(w, a).calls && Step(w, a).calls[i].Screened?
    ensures (i in w.calls && w.calls[i] == Step(w, a).calls[i])
            || (a.Screen? && a.call !in w.calls && AttemptFor(w.traces, a.inv, a.extended).Some?
                && Step(w, a).calls[i].inv == a.inv)
  {
  }

  lemma RunsKeepProjects(w: World, a: Act)
    requires ProjectsKept(w)
    ensures var next := Step(w, a);
            forall id :: id in next.traces.runs ==>
              ParentProject(next.traces, next.traces.runs[id].project, next.traces.runs[id].parent)
  {
    var next := Step(w, a);
    StepSteps(w, a);
    forall id | id in next.traces.runs
      ensures ParentProject(next.traces, next.traces.runs[id].project, next.traces.runs[id].parent)
    {
      if id in w.traces.runs {
        assert next.traces.runs[id].Pins().project == w.traces.runs[id].Pins().project;
        assert next.traces.runs[id].Pins().parent == w.traces.runs[id].Pins().parent;
      } else {
        var i :| i in w.calls && w.calls[i].Screened?
                 && next.traces.runs[id] == NewRun(w.calls[i].inv, w.calls[i].attempt);
      }
      ParentProjectKept(w, next, next.traces.runs[id].project, next.traces.runs[id].parent);
    }
  }

  lemma CallsKeepProjects(w: World, a: Act)
    requires ProjectsKept(w) && Admits(w, a)
    ensures var next := Step(w, a);
            forall i :: i in next.calls && next.calls[i].Screened? ==>
              ParentProject(next.traces, next.calls[i].inv.project, next.calls[i].inv.parent)
  {
    var next := Step(w, a);
    StepSteps(w, a);
    forall i | i in next.calls && next.calls[i].Screened?
      ensures ParentProject(next.traces, next.calls[i].inv.project, next.calls[i].inv.parent)
    {
      CallsAfter(w, a, i);
      ParentProjectKept(w, next, next.calls[i].inv.project, next.calls[i].inv.parent);
    }
  }

  lemma AdmittedShows(w: World, a: Act)
    requires ProjectsKept(Step(w, a))
    ensures Admits(w, a)
  {
    if a.Screen? && a.call !in w.calls && AttemptFor(w.traces, a.inv, a.extended).Some? {
      var next := Step(w, a);
      assert next.traces == w.traces && a.call in next.calls && next.calls[a.call].Screened?;
    }
  }

  /** A step keeps every retry in its parent's project exactly when it admits no other. */
  lemma StepProjectsExactly(w: World, a: Act)
    requires ProjectsKept(w)
    ensures ProjectsKept(Step(w, a)) <==> Admits(w, a)
  {
    if Admits(w, a) {
      RunsKeepProjects(w, a);
      CallsKeepProjects(w, a);
    } else if ProjectsKept(Step(w, a)) {
      AdmittedShows(w, a);
    }
  }

  ghost predicate ProjectsKeptThroughout(acts: seq<Act>) {
    acts != [] ==> ProjectsKeptThroughout(acts[..|acts| - 1]) && ProjectsKept(Run(acts))
  }

  ghost predicate EachAdmits(acts: seq<Act>) {
    acts != [] ==>
      EachAdmits(acts[..|acts| - 1]) && Admits(Run(acts[..|acts| - 1]), acts[|acts| - 1])
  }

  /** Over every interleaving: retries stay in their parent's project throughout if and only if
      each retry was in its parent's project when it was prepared. */
  lemma {:induction false} RetriesKeepProjectExactly(acts: seq<Act>)
    ensures ProjectsKeptThroughout(acts) <==> EachAdmits(acts)
  {
    if acts != [] {
      var front := acts[..|acts| - 1];
      RetriesKeepProjectExactly(front);
      if ProjectsKeptThroughout(front) {
        KeptAtEnd(front);
        StepProjectsExactly(Run(front), acts[|acts| - 1]);
      }
    }
  }

  lemma KeptAtEnd(acts: seq<Act>)
    requires ProjectsKeptThroughout(acts)
    ensures ProjectsKept(Run(acts))
  {
  }

  /** Requests of the plain service only. */
  predicate PlainOnly(acts: seq<Act>) {
    forall i :: 0 <= i < |acts| && acts[i].Screen? ==> !acts[i].extended
  }

  /** Prepared by the plain service alone, a retry always belongs to its parent's project. */
  lemma {:induction false} PlainRetriesKeepProject(acts: seq<Act>)
    requires PlainOnly(acts)
    ensures EachAdmits(acts) && ProjectsKept(Run(acts))
  {
    if acts != [] {
      PlainRetriesKeepProject(acts[..|acts| - 1]);
      StepProjectsExactly(Run(acts[..|acts| - 1]), acts[|acts| - 1]);
    }
  }

  const FIRST := Invocation("1", "P", Target("c", "v", "f", "m"), "")
  const SECOND := Invocation("2", "Q", Target("c", "v", "f", "m"), "1")

  const CROSSING := [Screen(0, FIRST, false, true), Create(0), Abort(1, "1"), Fire(1),
      Screen(2, SECOND, false, true), Create(2)]

  lemma RunOfSix(a: Act, b: Act, c: Act, d: Act, e: Act, f: Act)
    ensures Run([a, b, c, d, e, f]) == Step(Step(Step(Step(Step(Step(EMPTY, a), b), c), d), e), f)
  {
    var all := [a, b, c, d, e, f];
    assert all[..5] == [a, b, c, d, e] && [a, b, c, d, e][..4] == [a, b, c, d] && [a, b, c, d][..3] == [a, b, c];
    assert [a, b, c][..2] == [a, b] && [a, b][..1] == [a] && [a][..0] == [];
    assert Run([a]) == Step(EMPTY, a);
    assert Run([a, b]) == Step(Step(EMPTY, a), b);
    assert Run([a, b, c]) == Step(Run([a, b]), c);
    assert Run([a, b, c, d]) == Step(Run([a, b, c]), d);
    assert Run([a, b, c, d, e]) == Step(Run([a, b, c, d]), e);
    assert Run(all) == Step(Run([a, b, c, d, e]), f);
  }

  const LEFT := NewRun(FIRST, 1).(status := ABORTED)

  lemma FirstAborted()
    ensures var w := Step(Step(Step(Step(EMPTY, CROSSING[0]), CROSSING[1]), CROSSING[2]), CROSSING[3]);
            w.traces.runs == map["1" := LEFT] && w.calls.Keys == {0}
  {
    var first := NewRun(FIRST, 1);
    var w1 := Step(EMPTY, CROSSING[0]);
    assert w1 == World(EMPTY.traces, map[0 := Screened(FIRST, 1, false)], []);
    var w2 := Step(w1, CROSSING[1]);
    assert w2 == World(Traces(map["1" := first], map["1" := []]), map[0 := Created(first, false)], []);
    var w3 := Step(w2, CROSSING[2]);
    assert w3 == World(w2.traces, map[0 := Created(first, false), 1 := Aborting(first)], []);
    assert Move(w3.traces, first, ABORTED, None).1 == Some(LEFT);
  }

  lemma SecondCreated(w: World)
    requires w.traces.runs == map["1" := LEFT] && w.calls.Keys == {0}
    ensures Step(Step(w, CROSSING[4]), CROSSING[5]).traces.runs == map["1" := LEFT, "2" := NewRun(SECOND, 2)]
  {
    assert AttemptFor(w.traces, SECOND, true) == Some(2);
    var w5 := Step(w, CROSSING[4]);
    assert w5.traces == w.traces && w5.calls[2] == Screened(SECOND, 2, false);
  }

  /** The service with context extensions makes no such check: a retry may cross projects. */
  lemma ExtendedRetryCrossesProjects()
    ensures !ProjectsKept(Run(CROSSING))
  {
    RunOfSix(CROSSING[0], CROSSING[1], CROSSING[2], CROSSING[3], CROSSING[4], CROSSING[5]);
    FirstAborted();
    var w := Step(Step(Step(Step(EMPTY, CROSSING[0]), CROSSING[1]), CROSSING[2]), CROSSING[3]);
    SecondCreated(w);
    var t := Run(CROSSING).traces;
    assert !ParentProject(t, t.runs["2"].project, t.runs["2"].parent);
  }
}
