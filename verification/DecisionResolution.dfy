/** Resolving a Human Decision Request (core/decision/service.py) across two stores that
    share no transaction: the Decision store and the Research State repository. */
module DecisionResolution {
  import opened Common
  import opened Records
  import opened Repository
  import opened Service
  import opened DecisionGate

  datatype Status = Pending | Resolving | Resolved | Declined | RevisionRequested | Stale

  predicate IsFinal(s: Status) { !s.Pending? && !s.Resolving? }

  datatype Disposition = ApproveExact | Decline | RequestRevision

  /** A response whose own digest has been checked. It names the request by content, which
      is what an equal request digest means. */
  datatype Response = Response(id: string, request: DecisionRequest, disposition: Disposition, actor: Actor, at: string)

  // ---------------------------------------------------------------- the Decision store

  datatype Entry = Entry(request: DecisionRequest, status: Status, claimed: Option<Response>, receipt: Option<Receipt>)

  type Desk = map<string, Entry>

  datatype ClaimAnswer = Claimed | Retry | ClaimRejected

  /** `claim_response`: one response owns a request from PENDING on. */
  function Claim(desk: Desk, response: Response): (Desk, ClaimAnswer) {
    var id := response.request.id;
    if id !in desk || desk[id].request != response.request then (desk, ClaimRejected)
    else if desk[id].status.Resolving? then (desk, if desk[id].claimed == Some(response) then Retry else ClaimRejected)
    else if !desk[id].status.Pending? then (desk, ClaimRejected)
    else (desk[id := desk[id].(status := Resolving, claimed := Some(response))], Claimed)
  }

  /** `finalize`; None stands for ValueError. */
  function Finalize(desk: Desk, response: Response, status: Status, receipt: Option<Receipt>): Option<Desk> {
    var id := response.request.id;
    if id !in desk then None
    else if desk[id].claimed != Some(response) then None
    else if desk[id].status == status then
      if receipt.Some? && desk[id].receipt != receipt then None else Some(desk)
    else if !desk[id].status.Resolving? then None
    else Some(desk[id := desk[id].(status := status, receipt := receipt)])
  }

  // ---------------------------------------------------------------- one resolve call, call by call

  datatype Resolution =
    | Answer(status: Status, receipt: Option<Receipt>)
    | CommitRejected(codes: set<string>)
    | Error(code: string)

  /** What an unfinished resolve call does next. */
  datatype Phase =
    | Idle
    | Claiming(response: Response, stale: bool)
    | Working(response: Response)
    | Closing(response: Response, status: Status, receipt: Option<Receipt>)

  datatype Freshness = Current | Outdated | Broken

  predicate PinsHold(r: DecisionRequest, v: View) {
    r.snapshot == v.Head() && r.config == v.config && r.profile == v.profile
  }

  /** `_stale_reason`; `sources` says that the bound source documents are still there. */
  function FreshnessOf(r: DecisionRequest, v: View, sources: bool): Freshness {
    if !PinsHold(r, v) || !sources then Outdated
    else if !UnitsCurrent(r) then Broken
    else if UnitsOf(v, r.actions) != r.requirementSet then Outdated
    else Current
  }

  const STALE_CODES := {"RT-HEAD-001", "RT-HEAD-002", "RT-PIN-002", "RT-PIN-003", "RT-PIN-004"}

  /** Each recorded Decision is stored exactly as materialized. */
  predicate DecisionsStored(r: Repo, decisions: seq<Action>) {
    forall i :: 0 <= i < |decisions| && decisions[i].payload.Some? ==>
      Lookup(r.objects, decisions[i].payload.value.Slot()) == decisions[i].payload
  }

  predicate SnapshotStored(r: Repo, project: string, head: Pin) {
    head.ref in r.snapshots && r.snapshots[head.ref].Says("project_id", project)
        && r.snapshots[head.ref].seal == head.digest
  }

  /** The commit history agrees that this approval produced this receipt. */
  predicate Confirms(r: Repo, response: Response, receipt: Receipt) {
    var t := Approval(response.request, response.actor, response.at);
    && response.disposition.ApproveExact? && t.Some?
    && CommitUnder(r.commits, t.value.key) == Some(CommitRecord(t.value.digest, receipt))
    && receipt.commitId == t.value.commitId && receipt.transitionId == t.value.transitionId
    && (receipt.snapshot.Some? ==> SnapshotStored(r, response.request.project, receipt.snapshot.value))
    && DecisionsStored(r, DecisionActions(response.request, response.actor.id, response.at))
  }

  /** `_verify_committed_resolution`. */
  function Verified(r: Repo, response: Response, receipt: Option<Receipt>): Resolution {
    if receipt.Some? && Confirms(r, response, receipt.value) then Answer(Resolved, receipt)
    else Error("DECISION-STATE-MISMATCH-001")
  }

  /** The reads of `resolve`: an answer at once, or the first writing step. */
  function Opening(desk: Desk, r: Repo, response: Response, sources: bool): (Phase, Option<Resolution>) {
    var id := response.request.id;
    if id !in desk then (Idle, Some(Error("DECISION-REQUEST-UNKNOWN")))
    else if desk[id].request != response.request then (Idle, Some(Error("DECISION-BINDING-001")))
    else
      var entry := desk[id];
      if IsFinal(entry.status) then
        (Idle, Some(if entry.claimed != Some(response) then Error("DECISION-TERMINAL-001")
                    else if entry.status.Resolved? then Verified(r, response, entry.receipt)
                    else Answer(entry.status, entry.receipt)))
      else if response.actor.actorType != "human" || response.actor.id != entry.request.human then
        (Idle, Some(Error("DECISION-ACTOR-001")))
      else if entry.status.Resolving? then
        if entry.claimed != Some(response) then (Idle, Some(Error("DECISION-RACE-001"))) else (Working(response), None)
      else
        match LoadView(r, entry.request.project, entry.request.lineage)
        case None => (Idle, Some(Error("DECISION-BINDING-001")))
        case Some(v) =>
          match FreshnessOf(entry.request, v, sources)
          case Current => (Claiming(response, false), None)
          case Outdated => (Claiming(response, true), None)
          case Broken => (Idle, Some(Error("DECISION-BINDING-001")))
  }

  /** What follows the transition service's answer. */
  function AfterApply(response: Response, outcome: Outcome): (Phase, Option<Resolution>) {
    match outcome
    case Committed(receipt) => (Closing(response, Resolved, Some(receipt)), None)
    case Rejected(codes, _) =>
      if codes * STALE_CODES != {} then (Closing(response, Stale, None), None) else (Idle, Some(CommitRejected(codes)))
    case Missing => (Idle, Some(Error("KeyError")))
  }

  datatype World = World(desk: Desk, repo: Repo, phase: Phase)

  /** One store call of an open resolve call. `fails` is an injected persistence failure. */
  function Advance(w: World, p: Policy, fails: bool): (World, Option<Resolution>) {
    match w.phase
    case Idle => (w, None)
    case Claiming(response, stale) =>
      var (desk, answer) := Claim(w.desk, response);
      if answer.ClaimRejected? then (w.(phase := Idle), Some(Error("DECISION-RACE-001")))
      else (w.(desk := desk, phase := if stale then Closing(response, Stale, None) else Working(response)), None)
    case Working(response) =>
      (match response.disposition
       case Decline => (w.(phase := Closing(response, Declined, None)), None)
       case RequestRevision => (w.(phase := Closing(response, RevisionRequested, None)), None)
       case ApproveExact =>
         match Approval(response.request, response.actor, response.at)
         case None => (w.(phase := Idle), Some(Error("DECISION-BINDING-001")))
         case Some(t) =>
           var (repo, outcome) := if fails then (w.repo, ApplyFailing(w.repo, p, t)) else Apply(w.repo, p, t);
           var (phase, result) := AfterApply(response, outcome);
           (World(w.desk, repo, phase), result))
    case Closing(response, status, receipt) =>
      match Finalize(w.desk, response, status, receipt)
      case None => (w.(phase := Idle), Some(Error("ValueError")))
      case Some(desk) => (World(desk, w.repo, Idle), Some(Answer(status, receipt)))
  }

  /** Carries an open call to its end; three store calls always suffice. */
  function Finished(w: World, p: Policy, fails: bool): (World, Option<Resolution>)
    decreases match w.phase case Idle => 0 case Closing(_, _, _) => 1 case Working(_) => 2 case Claiming(_, _) => 3
  {
    var (next, result) := Advance(w, p, fails);
    if next.phase.Idle? then (next, result) else Finished(next, p, fails)
  }

  /** `resolve` run to its end with nothing in between. */
  function Resolve(desk: Desk, r: Repo, p: Policy, response: Response, sources: bool, fails: bool): (Desk, Repo,
                   Resolution) {
    var (phase, answer) := Opening(desk, r, response, sources);
    if answer.Some? then (desk, r, answer.value)
    else
      var (end, result) := Finished(World(desk, r, phase), p, fails);
      (end.desk, end.repo, result.GetOr(Error("")))
  }

  /** An approving call at its commit, written out. */
  lemma WorkingFinishes(w: World, p: Policy, fails: bool, t: Request)
    requires w.phase.Working? && w.phase.response.disposition.ApproveExact?
    requires Approval(w.phase.response.request, w.phase.response.actor, w.phase.response.at) == Some(t)
    ensures var response := w.phase.response;
            var (repo, outcome) := if fails then (w.repo, ApplyFailing(w.repo, p, t)) else Apply(w.repo, p, t);
            var (phase, answer) := AfterApply(response, outcome);
            Finished(w, p, fails) == if answer.Some? then (World(w.desk, repo, Idle), answer)
                                     else Advance(World(w.desk, repo, phase), p, fails)
  {
    var (next, _) := Advance(w, p, fails);
    if next.phase.Closing? { ClosingFinishes(next, p, fails); }
  }

  lemma ClosingFinishes(w: World, p: Policy, fails: bool)
    requires w.phase.Closing?
    ensures Finished(w, p, fails) == Advance(w, p, fails)
  {
    var (next, _) := Advance(w, p, fails);
    assert next.phase.Idle?;
  }

  // ---------------------------------------------------------------- the two stores as objects

  class DecisionStore {
    var entries: Desk

    constructor ()
      ensures entries == map[]
    {
      entries := map[];
    }

    method PutRequest(r: DecisionRequest) returns (ok: bool)
      modifies this
      ensures ok <==> r.id !in old(entries) || old(entries)[r.id].request == r
      ensures entries == if r.id in old(entries) then old(entries)
              else old(entries)[r.id := Entry(r, Pending, None, None)]
    {
      if r.id !in entries { entries := entries[r.id := Entry(r, Pending, None, None)]; }
      ok := entries[r.id].request == r;
    }

    method ClaimResponse(response: Response) returns (answer: ClaimAnswer)
      modifies this
      ensures (entries, answer) == Claim(old(entries), response)
    {
      var id := response.request.id;
      if id !in entries || entries[id].request != response.request { return ClaimRejected; }
      if entries[id].status.Resolving? {
        return if entries[id].claimed == Some(response) then Retry else ClaimRejected;
      }
      if !entries[id].status.Pending? { return ClaimRejected; }
      entries := entries[id := entries[id].(status := Resolving, claimed := Some(response))];
      return Claimed;
    }

    method FinalizeResponse(response: Response, status: Status, receipt: Option<Receipt>) returns (ok: bool)
      modifies this
      ensures ok <==> Finalize(old(entries), response, status, receipt).Some?
      ensures entries == Finalize(old(entries), response, status, receipt).GetOr(old(entries))
    {
      var id := response.request.id;
      if id !in entries || entries[id].claimed != Some(response) { return false; }
      if entries[id].status == status { return receipt.None? || entries[id].receipt == receipt; }
      if !entries[id].status.Resolving? { return false; }
      entries := entries[id := entries[id].(status := status, receipt := receipt)];
      return true;
    }
  }

  class HumanDecisionService {
    const store: DecisionStore
    const transitions: StateTransitionService

    constructor (store: DecisionStore, transitions: StateTransitionService)
      ensures this.store == store && this.transitions == transitions
    {
      this.store, this.transitions := store, transitions;
    }

    ghost function At(phase: Phase): World
      reads store, transitions.repository
    {
      World(store.entries, transitions.repository.State(), phase)
    }

    /** Claim, then close as stale or go on. */
    method ClaimOrRaise(response: Response, stale: bool) returns (result: Resolution)
      modifies store, transitions.repository
      ensures var (end, answer) := Finished(old(At(Claiming(response, stale))), transitions.policy,
                                            old(transitions.repository.failNextCommit));
              At(Idle) == end && answer == Some(result)
    {
      ghost var fails := transitions.repository.failNextCommit;
      var claimed := store.ClaimResponse(response);
      if claimed.ClaimRejected? { return Error("DECISION-RACE-001"); }
      if stale {
        result := Close(response, Stale, None);
      } else {
        result := ResolveClaimed(response);
      }
    }

    /** `_resolve_claimed`. */
    method ResolveClaimed(response: Response) returns (result: Resolution)
      modifies store, transitions.repository
      ensures var (end, answer) := Finished(old(At(Working(response))), transitions.policy,
                                            old(transitions.repository.failNextCommit));
              At(Idle) == end && answer == Some(result)
    {
      match response.disposition {
        case Decline => result := Close(response, Declined, None);
        case RequestRevision => result := Close(response, RevisionRequested, None);
        case ApproveExact => result := CommitApproval(response);
      }
    }

    /** The approving branch of `_resolve_claimed`. */
    method CommitApproval(response: Response) returns (result: Resolution)
      requires response.disposition.ApproveExact?
      modifies store, transitions.repository
      ensures var (end, answer) := Finished(old(At(Working(response))), transitions.policy,
                                            old(transitions.repository.failNextCommit));
              At(Idle) == end && answer == Some(result)
    {
      var transition := Approval(response.request, response.actor, response.at);
      if transition.None? { return Error("DECISION-BINDING-001"); }
      ghost var start, fails := At(Working(response)), transitions.repository.failNextCommit;
      WorkingFinishes(start, transitions.policy, fails, transition.value);
      var outcome := transitions.ApplyTransition(transition.value);
      var (phase, answer) := AfterApply(response, outcome);
      if answer.Some? { return answer.value; }
      result := Close(response, phase.status, phase.receipt);
    }

    method Close(response: Response, status: Status, receipt: Option<Receipt>) returns (result: Resolution)
      modifies store
      ensures var (end, answer) := Advance(old(At(Closing(response, status, receipt))), transitions.policy, false);
              At(Idle) == end && answer == Some(result)
    {
      var ok := store.FinalizeResponse(response, status, receipt);
      result := if ok then Answer(status, receipt) else Error("ValueError");
    }

    method ResolveResponse(response: Response, sources: bool) returns (result: Resolution)
      modifies store, transitions.repository
      ensures (store.entries, transitions.repository.State(), result)
           == Resolve(old(store.entries), old(transitions.repository.State()), transitions.policy, response, sources,
                      old(transitions.repository.failNextCommit))
    {
      var id := response.request.id;
      if id !in store.entries { return Error("DECISION-REQUEST-UNKNOWN"); }
      var entry := store.entries[id];
      if entry.request != response.request { return Error("DECISION-BINDING-001"); }
      if IsFinal(entry.status) {
        if entry.claimed != Some(response) { return Error("DECISION-TERMINAL-001"); }
        if !entry.status.Resolved? { return Answer(entry.status, entry.receipt); }
        result := VerifyCommitted(response, entry.receipt);
        return;
      }
      if response.actor.actorType != "human" || response.actor.id != entry.request.human {
        return Error("DECISION-ACTOR-001");
      }
      if entry.status.Resolving? {
        if entry.claimed != Some(response) { return Error("DECISION-RACE-001"); }
        result := ResolveClaimed(response);
        return;
      }
      var view := transitions.repository.LoadStateView(entry.request.project, entry.request.lineage);
      if view.None? { return Error("DECISION-BINDING-001"); }
      var freshness := FreshnessOf(entry.request, view.value, sources);
      if freshness.Broken? { return Error("DECISION-BINDING-001"); }
      result := ClaimOrRaise(response, freshness.Outdated?);
    }

    method VerifyCommitted(response: Response, receipt: Option<Receipt>) returns (result: Resolution)
      ensures result == Verified(transitions.repository.State(), response, receipt)
    {
      var repository := transitions.repository;
      result := Error("DECISION-STATE-MISMATCH-001");
      if receipt.None? || !response.disposition.ApproveExact? { return; }
      var t := Approval(response.request, response.actor, response.at);
      if t.None? { return; }
      var prior := repository.FindCommit(t.value.key);
      if prior != Some(CommitRecord(t.value.digest, receipt.value)) { return; }
      if receipt.value.commitId != t.value.commitId || receipt.value.transitionId != t.value.transitionId { return; }
      if receipt.value.snapshot.Some? {
        var head := receipt.value.snapshot.value;
        if head.ref !in repository.snapshots { return; }
        var snapshot := repository.snapshots[head.ref];
        if !snapshot.Says("project_id", response.request.project) || snapshot.seal != head.digest { return; }
      }
      var stored := DecisionsMatch(DecisionActions(response.request, response.actor.id, response.at));
      if stored { result := Answer(Resolved, receipt); }
    }

    method DecisionsMatch(decisions: seq<Action>) returns (stored: bool)
      ensures stored <==> DecisionsStored(transitions.repository.State(), decisions)
    {
      var repository := transitions.repository;
      for i := 0 to |decisions|
        invariant forall k :: 0 <= k < i && decisions[k].payload.Some? ==>
                    Lookup(repository.objects, decisions[k].payload.value.Slot()) == decisions[k].payload
      {
        if decisions[i].payload.Some?
           && Lookup(repository.objects, decisions[i].payload.value.Slot()) != decisions[i].payload { return false; }
      }
      return true;
    }
  }
}
