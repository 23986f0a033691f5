/** What the human's answer brings about (core/decision/service.py:148-346): the end of an uninterrupted
    `resolve`, and what a closed request tells about its answer after any crashes. */
module Dispositions {
  import opened Common
  import opened Records
  import opened Repository
  import opened Service
  import opened DecisionGate
  import opened DecisionResolution
  import opened Recovery

  // ---------------------------------------------------------------- one uninterrupted call

  /** The request waits for this response of its bound human. */
  predicate Awaits(desk: Desk, response: Response) {
    var id := response.request.id;
    && id in desk && desk[id].request == response.request && desk[id].status == Status.Pending
    && response.actor.actorType == "human" && response.actor.id == desk[id].request.human
  }

  predicate StillCurrent(desk: Desk, r: Repo, response: Response, sources: bool) {
    var v := LoadView(r, response.request.project, response.request.lineage);
    v.Some? && FreshnessOf(response.request, v.value, sources).Current?
  }

  /** The entry of the response's request, closed or left open by it. */
  function EndsAs(desk: Desk, response: Response, status: Status, receipt: Option<Receipt>): Desk {
    desk[response.request.id := Entry(response.request, status, Some(response), receipt)]
  }

  lemma ClaimedNext(desk: Desk, r: Repo, p: Policy, response: Response, stale: bool, fails: bool)
    requires Awaits(desk, response)
    requires desk[response.request.id] == Entry(response.request, Status.Pending, None, None)
    ensures Finished(World(desk, r, Claiming(response, stale)), p, fails)
         == Finished(World(EndsAs(desk, response, Status.Resolving, None), r,
                           if stale then Closing(response, Stale, None) else Working(response)), p, fails)
  {
  }

  lemma ClosedNext(desk: Desk, r: Repo, p: Policy, response: Response, status: Status, receipt: Option<Receipt>,
                   fails: bool)
    requires IsFinal(status)
    ensures Finished(World(EndsAs(desk, response, Status.Resolving, None), r, Closing(response, status, receipt)),
                     p, fails)
         == (World(EndsAs(desk, response, status, receipt), r, Idle), Some(Answer(status, receipt)))
  {
    var open := EndsAs(desk, response, Status.Resolving, None);
    ClosingFinishes(World(open, r, Closing(response, status, receipt)), p, fails);
    assert open[response.request.id := Entry(response.request, status, Some(response), receipt)]
        == EndsAs(desk, response, status, receipt);
  }

  lemma WorkedNext(w: World, p: Policy, fails: bool)
    requires w.phase.Working? && !w.phase.response.disposition.ApproveExact?
    ensures Finished(w, p, fails)
         == Finished(w.(phase := Closing(w.phase.response,
                                         if w.phase.response.disposition.Decline? then Declined else RevisionRequested,
                                         None)), p, fails)
  {
  }

  /** Declining a current request closes it as DECLINED, asking for a revision as
      REVISION_REQUESTED, and neither touches the Research State. */
  lemma RefusalEnds(desk: Desk, r: Repo, p: Policy, response: Response, sources: bool, fails: bool)
    requires Awaits(desk, response) && StillCurrent(desk, r, response, sources)
    requires desk[response.request.id] == Entry(response.request, Status.Pending, None, None)
    ensures response.disposition.Decline? ==>
              Resolve(desk, r, p, response, sources, fails)
              == (EndsAs(desk, response, Declined, None), r, Answer(Declined, None))
    ensures response.disposition.RequestRevision? ==>
              Resolve(desk, r, p, response, sources, fails)
              == (EndsAs(desk, response, RevisionRequested, None), r, Answer(RevisionRequested, None))
  {
    ClaimedNext(desk, r, p, response, false, fails);
    var open := EndsAs(desk, response, Status.Resolving, None);
    if !response.disposition.ApproveExact? {
      WorkedNext(World(open, r, Working(response)), p, fails);
      ClosedNext(desk, r, p, response, if response.disposition.Decline? then Declined else RevisionRequested, None,
                 fails);
    }
  }

  /** A request that is no longer current is closed as STALE whatever the human answered. */
  lemma OutdatedEnds(desk: Desk, r: Repo, p: Policy, response: Response, sources: bool, fails: bool)
    requires Awaits(desk, response)
    requires desk[response.request.id] == Entry(response.request, Status.Pending, None, None)
    requires var v := LoadView(r, response.request.project, response.request.lineage);
             v.Some? && FreshnessOf(response.request, v.value, sources).Outdated?
    ensures Resolve(desk, r, p, response, sources, fails)
         == (EndsAs(desk, response, Stale, None), r, Answer(Stale, None))
  {
    ClaimedNext(desk, r, p, response, true, fails);
    ClosedNext(desk, r, p, response, Stale, None, fails);
  }

  /** The head moved, or a pin no longer fits. */
  predicate TellsOfStaleness(codes: set<string>) {
    "RT-HEAD-001" in codes || "RT-HEAD-002" in codes || "RT-PIN-002" in codes || "RT-PIN-003" in codes
    || "RT-PIN-004" in codes
  }

  lemma StaleCodes(codes: set<string>)
    ensures codes * STALE_CODES != {} <==> TellsOfStaleness(codes)
  {
    if TellsOfStaleness(codes) {
      var c :| c in codes && c in STALE_CODES;
      assert c in codes * STALE_CODES;
    }
  }

  /** What an approval's transition answers decides how its request ends. */
  lemma ApprovalEnds(desk: Desk, r: Repo, p: Policy, response: Response, sources: bool, t: Request)
    requires Awaits(desk, response) && StillCurrent(desk, r, response, sources)
    requires desk[response.request.id] == Entry(response.request, Status.Pending, None, None)
    requires response.disposition.ApproveExact? && Approval(response.request, response.actor, response.at) == Some(t)
    ensures var (next, outcome) := Apply(r, p, t);
            Resolve(desk, r, p, response, sources, false)
            == match outcome
               case Committed(receipt) =>
                 (EndsAs(desk, response, Resolved, Some(receipt)), next, Answer(Resolved, Some(receipt)))
               case Rejected(codes, _) =>
                 if TellsOfStaleness(codes) then (EndsAs(desk, response, Stale, None), next, Answer(Stale, None))
                 else (EndsAs(desk, response, Status.Resolving, None), next, CommitRejected(codes))
               case Missing => (EndsAs(desk, response, Status.Resolving, None), next, Error("KeyError"))
  {
    ClaimedNext(desk, r, p, response, false, false);
    var open := EndsAs(desk, response, Status.Resolving, None);
    var (next, outcome) := Apply(r, p, t);
    WorkingFinishes(World(open, r, Working(response)), p, false, t);
    if outcome.Rejected? { StaleCodes(outcome.codes); }
    var (phase, answer) := AfterApply(response, outcome);
    if answer.None? {
      ClosingFinishes(World(open, next, phase), p, false);
      ClosedNext(desk, next, p, response, phase.status, phase.receipt, false);
    }
  }

  // ---------------------------------------------------------------- every course

  /** What the status of a request says about the answer that closed it. */
  predicate StatusTells(id: string, e: Entry) {
    && (e.status == Status.Pending <==> e.claimed.None?)
    && (e.claimed.Some? ==>
          && e.claimed.value.request == e.request && e.request.id == id
          && e.claimed.value.actor.actorType == "human" && e.claimed.value.actor.id == e.request.human)
    && (e.status == Declined ==> e.claimed.value.disposition == Decline)
    && (e.status == RevisionRequested ==> e.claimed.value.disposition == RequestRevision)
    && (e.status == Resolved ==> e.claimed.value.disposition == ApproveExact)
    && (e.receipt.Some? <==> e.status == Resolved)
  }

  /** Over every course, with crashes and commits from elsewhere: a request is DECLINED only by a
      declining answer of its human, REVISION_REQUESTED only by one that asks for a revision, RESOLVED
      only by one that approves it exactly. */
  lemma DispositionDecides(w: World, p: Policy, events: seq<Happening>, id: string)
    requires Fresh(w) && ForeignEvents(w.desk, events) && id in w.desk
    ensures id in Course(w, p, events).desk && StatusTells(id, Course(w, p, events).desk[id])
  {
    CourseSound(w, p, events);
    var end := Course(w, p, events);
    assert EntrySound(id, end.desk[id], end.repo, p);
  }
}
