/** Which step brings a Run to which end, and what its record then says, over any interleaving of
    calls that may stop anywhere (core/execution/service.py:36-55, 427-629). */
module RunEndings {
  import opened Common
  import opened Execution
  import opened RunLifecycle
  import Life = RunLifecycle

  // ---------------------------------------------------------------- one transition

  /** The steps of a Run's life. */
  predicate MayMove(was: RunStatus, becomes: RunStatus) {
    || (was == PREPARED && (becomes == RUNNING || becomes == ABORTED || becomes == SUPERSEDED))
    || (was == RUNNING && (becomes == COMPLETED || becomes == FAILED || becomes == ABORTED || becomes == SUPERSEDED))
  }

  /** A transition happens exactly when the Run stands where the caller saw it, its pinned fields are
      the stored ones and the step is one of a Run's life; it then stores status, handoff and event. */
  lemma MoveExactly(t: Traces, run: Run, becomes: RunStatus, handoff: Option<string>)
    requires run.id in t.runs ==> t.runs[run.id].id == run.id
    ensures var (next, moved) := Move(t, run, becomes, handoff);
            && (moved.Some? <==>
                  && run.id in t.runs && t.runs[run.id].status == run.status && MayMove(run.status, becomes)
                  && t.runs[run.id].project == run.project && t.runs[run.id].target == run.target
                  && t.runs[run.id].attempt == run.attempt && t.runs[run.id].parent == run.parent)
            && (moved.None? ==> next == t)
            && (moved.Some? ==>
                  && moved.value.status == becomes && moved.value.handoff == handoff
                  && next.runs == t.runs[run.id := moved.value]
                  && next.events == t.events[run.id := EventsFor(t, run.id)
                       + [LifecycleEvent(if run.status == PREPARED then 2 else 3, Some(run.status), becomes)]])
  {
  }

  // ---------------------------------------------------------------- one step

  /** The act finishes a Run that is still running. */
  ghost predicate Finishes(w: World, a: Act, id: string) {
    && a.Finish? && a.call in w.calls && w.calls[a.call].Holding? && w.calls[a.call].run.id == id
    && id in w.traces.runs && w.traces.runs[id].status == RUNNING
  }

  /** The act aborts a Run that stands where the aborting call saw it. */
  ghost predicate Aborts(w: World, a: Act, id: string) {
    && a.Fire? && a.call in w.calls && w.calls[a.call].Aborting? && w.calls[a.call].run.id == id
    && id in w.traces.runs && w.traces.runs[id].status == w.calls[a.call].run.status
  }

  ghost predicate Starts(w: World, a: Act, id: string) {
    && a.Start? && a.call in w.calls && w.calls[a.call].Announced? && w.calls[a.call].run.id == id
    && id in w.traces.runs && w.traces.runs[id].status == PREPARED
  }

  /** The Run after the step: ended as the output says, aborted, started, or as it was. */
  ghost predicate EndsRight(w: World, a: Act, id: string)
    requires id in w.traces.runs
  {
    var was, next := w.traces.runs[id], Step(w, a).traces.runs;
    && id in next
    && (Finishes(w, a, id) && a.output.valid ==>
          next[id] == was.(status := COMPLETED, handoff := Some(a.output.handoff)))
    && (Finishes(w, a, id) && !a.output.valid ==> next[id] == was.(status := FAILED, handoff := None))
    && (Aborts(w, a, id) ==> next[id].status == ABORTED && next[id].Pins() == was.Pins())
    && (Starts(w, a, id) ==> next[id].status == RUNNING && next[id].Pins() == was.Pins())
    && (!Finishes(w, a, id) && !Aborts(w, a, id) && !Starts(w, a, id) ==> next[id] == was)
  }

  lemma HeldPins(w: World, call: nat)
    requires Sound(w) && call in w.calls && !w.calls[call].Screened?
    ensures var run := w.calls[call].run;
            run.id in w.traces.runs && run.Pins() == w.traces.runs[run.id].Pins()
            && w.traces.runs[run.id].id == run.id
            && (w.calls[call].Holding? ==> run.status == RUNNING)
            && (w.calls[call].Announced? ==> run.status == PREPARED)
            && (w.calls[call].Aborting? ==> run.status == PREPARED || run.status == RUNNING)
  {
    assert CallSound(w.traces, w.calls[call]);
    assert RunSound(w.traces, w.calls[call].run.id);
  }

  lemma MoveOfHeld(t: Traces, run: Run, becomes: RunStatus, handoff: Option<string>, id: string)
    requires run.id in t.runs && t.runs[run.id].id == run.id && run.Pins() == t.runs[run.id].Pins() && id in t.runs
    ensures var next := Move(t, run, becomes, handoff).0;
            && id in next.runs
            && (id != run.id || t.runs[id].status != run.status || !MayMove(run.status, becomes) ==>
                  next.runs[id] == t.runs[id])
            && (id == run.id && t.runs[id].status == run.status && MayMove(run.status, becomes) ==>
                  next.runs[id] == t.runs[id].(status := becomes, handoff := handoff)
                  && Move(t, run, becomes, handoff).1.Some?)
  {
    MoveExactly(t, run, becomes, handoff);
    assert run.Pins().project == t.runs[run.id].Pins().project;
  }

  lemma FinishEndsRight(w: World, a: Act, id: string)
    requires Sound(w) && id in w.traces.runs && a.Finish?
    ensures EndsRight(w, a, id)
  {
    if a.call in w.calls && w.calls[a.call].Holding? {
      HeldPins(w, a.call);
      MoveOfHeld(w.traces, w.calls[a.call].run, COMPLETED, Some(a.output.handoff), id);
      MoveOfHeld(w.traces, w.calls[a.call].run, FAILED, None, id);
    }
  }

  /** Each step ends a Run as it should. */
  lemma StepEndsRight(w: World, a: Act, id: string)
    requires Sound(w) && id in w.traces.runs
    ensures EndsRight(w, a, id)
  {
    match a
    case Start(call) =>
      if call in w.calls && w.calls[call].Announced? {
        HeldPins(w, call);
        MoveOfHeld(w.traces, w.calls[call].run, RUNNING, w.calls[call].run.handoff, id);
      }
    case Finish(_, _) => FinishEndsRight(w, a, id);
    case Fire(call) =>
      if call in w.calls && w.calls[call].Aborting? {
        HeldPins(w, call);
        MoveOfHeld(w.traces, w.calls[call].run, ABORTED, w.calls[call].run.handoff, id);
      }
    case _ =>
  }

  ghost predicate Proposes(w: World, a: Act, id: string) {
    Finishes(w, a, id) && a.output.valid && !a.output.rejected && a.output.normalizes
  }

  lemma StepProposesRight(w: World, a: Act, id: string)
    requires Sound(w)
    ensures id in Step(w, a).proposals <==> id in w.proposals || Proposes(w, a, id)
  {
    if a.Finish? && a.call in w.calls && w.calls[a.call].Holding? {
      HeldPins(w, a.call);
      var run := w.calls[a.call].run;
      MoveOfHeld(w.traces, run, COMPLETED, Some(a.output.handoff), run.id);
      MoveExactly(w.traces, run, COMPLETED, Some(a.output.handoff));
    }
  }

  // ---------------------------------------------------------------- every interleaving

  ghost predicate FinishedAs(acts: seq<Act>, n: nat, id: string, valid: bool) {
    n < |acts| && Finishes(Life.Run(acts[..n]), acts[n], id) && acts[n].output.valid == valid
  }

  /** The Run stands where some act of the run brought it. */
  ghost predicate StandsBecause(acts: seq<Act>, id: string)
    requires id in Life.Run(acts).traces.runs
  {
    var run := Life.Run(acts).traces.runs[id];
    match run.status
    case PREPARED => true
    case RUNNING => exists n :: 0 <= n < |acts| && Starts(Life.Run(acts[..n]), acts[n], id)
    case COMPLETED =>
      exists n: nat :: FinishedAs(acts, n, id, true) && run.handoff == Some(acts[n].output.handoff)
    case FAILED => run.handoff == None && exists n: nat :: FinishedAs(acts, n, id, false)
    case ABORTED => exists n :: 0 <= n < |acts| && Aborts(Life.Run(acts[..n]), acts[n], id)
    case SUPERSEDED => false
  }

  lemma StandsLonger(front: seq<Act>, a: Act, id: string)
    requires id in Life.Run(front).traces.runs && StandsBecause(front, id)
    requires id in Life.Run(front + [a]).traces.runs
    requires Life.Run(front + [a]).traces.runs[id] == Life.Run(front).traces.runs[id]
    ensures StandsBecause(front + [a], id)
  {
    var acts := front + [a];
    forall n | 0 <= n < |front| ensures acts[..n] == front[..n] && acts[n] == front[n] {}
    match Life.Run(acts).traces.runs[id].status
    case RUNNING =>
      var n :| 0 <= n < |front| && Starts(Life.Run(front[..n]), front[n], id);
      assert Starts(Life.Run(acts[..n]), acts[n], id);
    case COMPLETED =>
      var n: nat :| FinishedAs(front, n, id, true)
                    && Life.Run(front).traces.runs[id].handoff == Some(front[n].output.handoff);
      assert FinishedAs(acts, n, id, true);
    case FAILED =>
      var n: nat :| FinishedAs(front, n, id, false);
      assert FinishedAs(acts, n, id, false);
    case ABORTED =>
      var n :| 0 <= n < |front| && Aborts(Life.Run(front[..n]), front[n], id);
      assert Aborts(Life.Run(acts[..n]), acts[n], id);
    case _ =>
  }

  lemma StandsNow(front: seq<Act>, a: Act, id: string)
    requires Sound(Life.Run(front)) && id in Life.Run(front).traces.runs
    requires EndsRight(Life.Run(front), a, id)
    requires Step(Life.Run(front), a).traces.runs[id] != Life.Run(front).traces.runs[id]
    ensures id in Life.Run(front + [a]).traces.runs && StandsBecause(front + [a], id)
  {
    RunMore(front, a);
    var acts, n := front + [a], |front|;
    assert acts[..n] == front && acts[n] == a;
    if Finishes(Life.Run(front), a, id) { assert FinishedAs(acts, n, id, a.output.valid); }
    if Aborts(Life.Run(front), a, id) { assert Aborts(Life.Run(acts[..n]), acts[n], id); }
    if Starts(Life.Run(front), a, id) { assert Starts(Life.Run(acts[..n]), acts[n], id); }
  }

  lemma NewRunPrepared(w: World, a: Act, id: string)
    requires id in Step(w, a).traces.runs && id !in w.traces.runs
    ensures Step(w, a).traces.runs[id].status == PREPARED
  {
    StepSteps(w, a);
  }

  lemma RunMore(front: seq<Act>, a: Act)
    ensures Life.Run(front + [a]) == Step(Life.Run(front), a)
  {
    assert (front + [a])[..|front|] == front;
  }

  /** Over every interleaving: a Run is COMPLETED only by a finish with a valid output, and then has that
      output's handoff; FAILED only by one with an invalid output; ABORTED only by an abort. */
  lemma {:induction false} EndedBecause(acts: seq<Act>, id: string)
    requires id in Life.Run(acts).traces.runs
    ensures StandsBecause(acts, id)
  {
    var front, a := acts[..|acts| - 1], acts[|acts| - 1];
    assert acts == front + [a];
    RunMore(front, a);
    RunsSound(front);
    if id in Life.Run(front).traces.runs {
      EndedBecause(front, id);
      StepEndsRight(Life.Run(front), a, id);
      if Life.Run(acts).traces.runs[id] == Life.Run(front).traces.runs[id] {
        StandsLonger(front, a, id);
      } else {
        StandsNow(front, a, id);
      }
    } else {
      NewRunPrepared(Life.Run(front), a, id);
    }
  }

  ghost predicate ProposedAt(acts: seq<Act>, n: nat, id: string) {
    n < |acts| && Proposes(Life.Run(acts[..n]), acts[n], id)
  }

  ghost predicate ProposedEver(acts: seq<Act>, id: string) { exists n: nat :: ProposedAt(acts, n, id) }

  lemma ProposedMore(front: seq<Act>, a: Act, id: string)
    ensures ProposedEver(front + [a], id) <==> ProposedEver(front, id) || Proposes(Life.Run(front), a, id)
  {
    var acts := front + [a];
    if n: nat :| ProposedAt(front, n, id) {
      assert acts[..n] == front[..n];
      assert ProposedAt(acts, n, id);
    }
    assert acts[..|front|] == front;
    if Proposes(Life.Run(front), a, id) { assert ProposedAt(acts, |front|, id); }
    if n: nat :| ProposedAt(acts, n, id) {
      if n < |front| {
        assert acts[..n] == front[..n];
        assert ProposedAt(front, n, id);
      }
    }
  }

  /** Over every interleaving: a proposal for a Run is returned exactly when some act finished the running
      Run with an output that is valid, not rejected and normalizes. */
  lemma {:induction false} ProposedExactly(acts: seq<Act>, id: string)
    ensures id in Life.Run(acts).proposals <==> ProposedEver(acts, id)
  {
    if acts != [] {
      var front, a := acts[..|acts| - 1], acts[|acts| - 1];
      assert acts == front + [a];
      RunMore(front, a);
      RunsSound(front);
      ProposedExactly(front, id);
      StepProposesRight(Life.Run(front), a, id);
      ProposedMore(front, a, id);
    }
  }

  // ---------------------------------------------------------------- where a Run comes from

  /** A call asked for this Run: it has the project, capability and parent that call named. */
  ghost predicate AskedFor(acts: seq<Act>, inv: Invocation) {
    exists n :: 0 <= n < |acts| && acts[n].Screen? && acts[n].inv == inv
  }

  ghost predicate RunAsked(acts: seq<Act>, run: Run) {
    AskedFor(acts, Invocation(run.id, run.project, run.target, run.parent))
  }

  lemma AskedLonger(front: seq<Act>, a: Act, inv: Invocation)
    ensures AskedFor(front + [a], inv) <==> AskedFor(front, inv) || (a.Screen? && a.inv == inv)
  {
    var acts := front + [a];
    if n :| 0 <= n < |front| && front[n].Screen? && front[n].inv == inv { assert acts[n] == front[n]; }
    if a.Screen? { assert acts[|front|] == a; }
  }

  ghost predicate AllAsked(acts: seq<Act>) {
    && (forall id :: id in Life.Run(acts).traces.runs ==>
          RunAsked(acts, Life.Run(acts).traces.runs[id]) && Life.Run(acts).traces.runs[id].id == id)
    && (forall i :: i in Life.Run(acts).calls && Life.Run(acts).calls[i].Screened? ==>
          AskedFor(acts, Life.Run(acts).calls[i].inv))
  }

  /** Over every interleaving each Run has the project, capability and retry parent of a call for it. */
  lemma {:induction false} RunsAreAsked(acts: seq<Act>)
    ensures AllAsked(acts)
  {
    if acts != [] {
      var front, a := acts[..|acts| - 1], acts[|acts| - 1];
      assert acts == front + [a];
      RunMore(front, a);
      RunsAreAsked(front);
      RunsSound(acts);
      StepAsked(front, a, acts);
    }
  }

  lemma StepAsked(front: seq<Act>, a: Act, acts: seq<Act>)
    requires AllAsked(front) && acts == front + [a]
    requires Life.Run(acts) == Step(Life.Run(front), a) && Sound(Life.Run(acts))
    ensures AllAsked(acts)
  {
    var w, next := Life.Run(front), Life.Run(acts);
    StepSteps(w, a);
    forall id | id in next.traces.runs ensures RunAsked(acts, next.traces.runs[id]) && next.traces.runs[id].id == id {
      assert RunSound(next.traces, id);
      var run := next.traces.runs[id];
      AskedLonger(front, a, Invocation(run.id, run.project, run.target, run.parent));
      if id in w.traces.runs {
        assert run.Pins().project == w.traces.runs[id].Pins().project;
        assert run.Pins().target == w.traces.runs[id].Pins().target;
        assert run.Pins().parent == w.traces.runs[id].Pins().parent;
      }
    }
    forall i | i in next.calls && next.calls[i].Screened? ensures AskedFor(acts, next.calls[i].inv) {
      CallsAfter(w, a, i);
      AskedLonger(front, a, next.calls[i].inv);
    }
  }
}
