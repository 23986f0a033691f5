/** Exactly-once resolution: runs in which every resolve call may stop after any store call
    while other transitions commit in between. */
module Recovery {
  import opened Common
  import opened Records
  import opened Reducer
  import opened ReducerFacts
  import opened Repository
  import opened Service
  import opened CommitFacts
  import opened History
  import opened ApplyOutcomes
  import opened DecisionGate
  import opened GateFacts
  import opened DecisionResolution

  datatype Happening =
    | Open(response: Response, sources: bool)
    | Call(fails: bool)
    | Crash
    | Elsewhere(req: Request)

  /** Resolve calls run one at a time: one opens only when none is under way. */
  function After(w: World, p: Policy, e: Happening): World {
    match e
    case Open(response, sources) =>
      if w.phase.Idle? then w.(phase := Opening(w.desk, w.repo, response, sources).0) else w
    case Call(fails) => Advance(w, p, fails).0
    case Crash => w.(phase := Idle)
    case Elsewhere(req) => w.(repo := Apply(w.repo, p, req).0)
  }

  function Course(w: World, p: Policy, events: seq<Happening>): World {
    if events == [] then w else After(Course(w, p, events[..|events| - 1]), p, events[|events| - 1])
  }

  function KeyOf(id: string): string { StableId("IDEMP-HD-", [id]) }

  /** Transitions from elsewhere use other keys and leave the reserved kinds alone. */
  predicate Foreign(desk: Desk, req: Request) {
    Clean(req) && forall id :: id in desk ==> req.key != KeyOf(id)
  }

  predicate ForeignEvents(desk: Desk, events: seq<Happening>) {
    forall i :: 0 <= i < |events| && events[i].Elsewhere? ==> Foreign(desk, events[i].req)
  }

  predicate CleanRequest(r: DecisionRequest) {
    forall i :: 0 <= i < |r.actions| ==> CleanAction(r.actions[i])
  }

  // ---------------------------------------------------------------- the invariant

  /** The repository holds exactly this approval's commit, with this receipt. */
  ghost predicate CommittedBy(r: Repo, p: Policy, response: Response, receipt: Receipt) {
    && Confirms(r, response, receipt)
    && p.schema(Approval(response.request, response.actor, response.at).value) == {}
  }

  /** The bound human answers this very request. */
  predicate AnsweredByHuman(r: DecisionRequest, response: Response) {
    response.request == r && response.actor.actorType == "human" && response.actor.id == r.human
  }

  ghost predicate EntrySound(id: string, e: Entry, r: Repo, p: Policy) {
    && e.request.id == id && CleanRequest(e.request)
    && (e.claimed.Some? ==> AnsweredByHuman(e.request, e.claimed.value))
    && (!e.status.Resolved? ==> e.receipt.None?)
    && match e.status
       case Pending => e.claimed.None? && KeyOf(id) !in r.commits
       case Resolving =>
         e.claimed.Some?
         && (KeyOf(id) in r.commits ==> CommittedBy(r, p, e.claimed.value, r.commits[KeyOf(id)].receipt))
       case Resolved =>
         e.claimed.Some? && e.receipt.Some? && CommittedBy(r, p, e.claimed.value, e.receipt.value)
       case Declined => e.claimed.Some? && e.claimed.value.disposition.Decline? && KeyOf(id) !in r.commits
       case RevisionRequested =>
         e.claimed.Some? && e.claimed.value.disposition.RequestRevision? && KeyOf(id) !in r.commits
       case Stale => e.claimed.Some? && KeyOf(id) !in r.commits
  }

  /** `response` owns its request, which no other call has closed. */
  ghost predicate Owns(desk: Desk, response: Response) {
    var id := response.request.id;
    id in desk && desk[id].request == response.request && desk[id].status.Resolving?
        && desk[id].claimed == Some(response)
  }

  ghost predicate PhaseSound(w: World, p: Policy) {
    match w.phase
    case Idle => true
    case Claiming(response, _) =>
      response.request.id in w.desk && AnsweredByHuman(w.desk[response.request.id].request, response)
      && w.desk[response.request.id].status.Pending?
    case Working(response) => Owns(w.desk, response)
    case Closing(response, status, receipt) =>
      Owns(w.desk, response)
      && (if status.Resolved? then receipt.Some? && CommittedBy(w.repo, p, response, receipt.value)
          else IsFinal(status) && receipt.None? && KeyOf(response.request.id) !in w.repo.commits)
      && (status.Declined? ==> response.disposition.Decline?)
      && (status.RevisionRequested? ==> response.disposition.RequestRevision?)
  }

  ghost predicate Sound(w: World, p: Policy) {
    && WellFormed(w.repo)
    && (forall id :: id in w.desk ==> EntrySound(id, w.desk[id], w.repo, p))
    && PhaseSound(w, p)
  }

  // ---------------------------------------------------------------- keys

  lemma KeysDiffer(a: string, b: string)
    ensures KeyOf(a) == KeyOf(b) <==> a == b
  {
    if KeyOf(a) == KeyOf(b) {
      assert Joined([a]) == a && Joined([b]) == b;
      SamePrefix("IDEMP-HD-", a, b);
    }
  }

  lemma ApprovalKey(r: DecisionRequest, actor: Actor, at: string)
    requires Approval(r, actor, at).Some?
    ensures var t := Approval(r, actor, at).value;
            t.key == KeyOf(r.id) && t.digest == t.CalculatedDigest() && t.project == r.project && t.actor == actor
  {
  }

  // ---------------------------------------------------------------- what a transition elsewhere keeps

  lemma WentGrows(way: Way, r: Repo, p: Policy, t: Request, next: Repo, outcome: Outcome)
    requires WellFormed(r) && Clean(t) && Went(way, r, p, t, next, outcome)
    ensures WellFormed(next) && Grows(r, next) && next.commits.Keys <= r.commits.Keys + {t.key}
  {
    if way.Anew? { StoredIsWellFormed(r, r, t, way.view, way.reduction, BundleOf(way.view, t, way.reduction)); }
  }

  lemma ApplyGrows(r: Repo, p: Policy, req: Request)
    requires WellFormed(r) && Clean(req)
    ensures WellFormed(Apply(r, p, req).0) && Grows(r, Apply(r, p, req).0)
    ensures Apply(r, p, req).0.commits.Keys <= r.commits.Keys + {req.key}
  {
    var way := ApplyGoes(r, p, req);
    WentGrows(way, r, p, req, Apply(r, p, req).0, Apply(r, p, req).1);
  }

  lemma ConfirmsKept(a: Repo, b: Repo, response: Response, receipt: Receipt)
    requires Confirms(a, response, receipt) && Grows(a, b)
    ensures Confirms(b, response, receipt)
  {
    var decisions := DecisionActions(response.request, response.actor.id, response.at);
    forall i | 0 <= i < |decisions| && decisions[i].payload.Some?
      ensures Lookup(b.objects, decisions[i].payload.value.Slot()) == decisions[i].payload
    {
      assert Lookup(a.objects, decisions[i].payload.value.Slot()) == decisions[i].payload;
    }
  }

  lemma EntryKept(id: string, e: Entry, a: Repo, b: Repo, p: Policy)
    requires EntrySound(id, e, a, p) && Grows(a, b) && (KeyOf(id) in b.commits ==> KeyOf(id) in a.commits)
    ensures EntrySound(id, e, b, p)
  {
    match e.status
    case Resolving =>
      if KeyOf(id) in b.commits { ConfirmsKept(a, b, e.claimed.value, a.commits[KeyOf(id)].receipt); }
    case Resolved => ConfirmsKept(a, b, e.claimed.value, e.receipt.value);
    case _ =>
  }

  lemma SoundKept(w: World, p: Policy, next: Repo)
    requires Sound(w, p) && WellFormed(next) && Grows(w.repo, next)
    requires forall id :: id in w.desk && KeyOf(id) in next.commits ==> KeyOf(id) in w.repo.commits
    ensures Sound(w.(repo := next), p)
  {
    forall id | id in w.desk ensures EntrySound(id, w.desk[id], next, p) {
      EntryKept(id, w.desk[id], w.repo, next, p);
    }
    match w.phase
    case Closing(response, status, receipt) =>
      if status.Resolved? { ConfirmsKept(w.repo, next, response, receipt.value); }
    case _ =>
  }

  lemma ElsewhereSound(w: World, p: Policy, req: Request)
    requires Sound(w, p) && Foreign(w.desk, req)
    ensures Sound(After(w, p, Elsewhere(req)), p)
  {
    ApplyGrows(w.repo, p, req);
    SoundKept(w, p, Apply(w.repo, p, req).0);
  }

  // ---------------------------------------------------------------- the approval's own commit

  lemma ApprovalActions(r: DecisionRequest, actor: Actor, at: string) returns (bound: seq<Action>)
    requires Approval(r, actor, at).Some?
    ensures BindActions(r, r.actions) == Some(bound)
    ensures Approval(r, actor, at).value.actions == DecisionActions(r, actor.id, at) + bound
  {
    bound := BindActions(r, r.actions).value;
  }

  lemma JoinedClean(a: seq<Action>, b: seq<Action>)
    requires (forall i :: 0 <= i < |a| ==> CleanAction(a[i])) && (forall i :: 0 <= i < |b| ==> CleanAction(b[i]))
    ensures forall i :: 0 <= i < |a + b| ==> CleanAction((a + b)[i])
  {
  }

  lemma DecisionsClean(r: DecisionRequest, human: string, at: string)
    ensures var records := DecisionActions(r, human, at);
            forall i :: 0 <= i < |records| ==> CleanAction(records[i])
  {
  }

  lemma ApprovalClean(r: DecisionRequest, actor: Actor, at: string)
    requires CleanRequest(r) && Approval(r, actor, at).Some?
    ensures Clean(Approval(r, actor, at).value)
  {
    var bound := ApprovalActions(r, actor, at);
    BoundActions(r, r.actions);
    forall i | 0 <= i < |bound| ensures CleanAction(bound[i]) { BoundClean(r, i, bound[i]); }
    DecisionsClean(r, actor.id, at);
    JoinedClean(DecisionActions(r, actor.id, at), bound);
  }

  lemma BoundClean(r: DecisionRequest, index: nat, b: Action)
    requires index < |r.actions| && CleanAction(r.actions[index]) && BindAction(r, index, r.actions[index]) == Some(b)
    ensures CleanAction(b)
  {
    var a := r.actions[index];
    BindingTransparent(r, index, a);
    if a.payload.Some? { SameMaterial(a.payload.value, b.payload.value); }
    if a.plan.Some? {
      forall i | 0 <= i < |b.plan.value.treatments| && b.plan.value.treatments[i].derived.Some?
        ensures Unreserved(b.plan.value.treatments[i].derived.value.kind)
      {
        assert SameTreatment(a.plan.value.treatments[i], b.plan.value.treatments[i]);
        SameMaterial(a.plan.value.treatments[i].derived.value, b.plan.value.treatments[i].derived.value);
      }
    }
  }

  /** A freshly stored transition confirms its own receipt. */
  lemma NewCommitConfirms(r: Repo, p: Policy, response: Response, t: Request, v: View, red: Reduction)
    requires response.disposition.ApproveExact? && Approval(response.request, response.actor, response.at) == Some(t)
    requires Reduce(v, t) == Some(red) && Staged(r, BundleOf(v, t, red)).Some?
    ensures Confirms(Staged(r, BundleOf(v, t, red)).value, response, ReceiptOf(v, t, red))
  {
    var next, receipt := Staged(r, BundleOf(v, t, red)).value, ReceiptOf(v, t, red);
    ReducedTidy(v, t, red);
    assert CommitUnder(next.commits, t.key) == Some(CommitRecord(t.digest, receipt));
    assert receipt.snapshot.Some? ==> SnapshotStored(next, response.request.project, receipt.snapshot.value) by {
      if red.snapshot.Some? { NewSnapshotStored(r, v, t, red); }
    }
    var decisions := DecisionActions(response.request, response.actor.id, response.at);
    forall i | 0 <= i < |decisions|
      ensures Lookup(next.objects, decisions[i].payload.value.Slot()) == decisions[i].payload
    {
      assert t.actions[i] == decisions[i];
      RecordStored(r, v, t, red, i, decisions[i].payload.value);
    }
  }

  lemma BuiltForProject(v: View, t: Request, members: map<Ref, Object>, mode: string)
    ensures BuildSnapshot(v, t, members, mode).Says("project_id", t.project)
  {
  }

  lemma SnapshotOfProject(v: View, t: Request, red: Reduction)
    requires Reduce(v, t) == Some(red) && red.snapshot.Some?
    ensures red.snapshot.value.Says("project_id", t.project)
  {
    if HasPlan(t.actions) {
      var i := PlanAction(v, t, red);
      var p := t.actions[i].plan.value;
      BuiltForProject(v, t, ChildMembers(v, p, Baseline(v)), p.executionMode.GetOr(Mode(v)));
    } else {
      BuiltForProject(v, t, Fold(v.Effective(), ObjectsOf(t.actions)), Mode(v));
    }
  }

  lemma NewSnapshotStored(r: Repo, v: View, t: Request, red: Reduction)
    requires Reduce(v, t) == Some(red) && Staged(r, BundleOf(v, t, red)).Some? && red.snapshot.Some?
    ensures SnapshotStored(Staged(r, BundleOf(v, t, red)).value, t.project,
            Pin(red.snapshot.value.id, red.snapshot.value.seal))
  {
    SnapshotOfProject(v, t, red);
  }

  lemma RecordStored(r: Repo, v: View, t: Request, red: Reduction, i: nat, d: Object)
    requires Reduce(v, t) == Some(red) && Staged(r, BundleOf(v, t, red)).Some? && Tidy(red)
    requires i < |t.actions| && t.actions[i].kind.RecordDecision? && t.actions[i].payload == Some(d)
             && d.kind == "decision"
    ensures Lookup(Staged(r, BundleOf(v, t, red)).value.objects, d.Slot()) == Some(d)
  {
    DecisionsOrigin(t.actions, d);
    RecordedDecisions(v, t, red, d);
    StagedObjects(r.objects, red.revisions);
  }

  lemma ApprovalWent(way: Way, r: Repo, p: Policy, response: Response, t: Request, next: Repo, outcome: Outcome)
    requires Went(way, r, p, t, next, outcome)
    requires response.disposition.ApproveExact? && Approval(response.request, response.actor, response.at) == Some(t)
    requires t.key in r.commits ==> CommittedBy(r, p, response, r.commits[t.key].receipt)
    ensures outcome.Committed? ==> t.key in next.commits && CommittedBy(next, p, response, outcome.receipt)
    ensures !outcome.Committed? ==> next == r && t.key !in r.commits
  {
    match way
    case Replay =>
    case Refusal => ApprovalKey(response.request, response.actor, response.at);
    case Anew(v, red) => NewCommitConfirms(r, p, response, t, v, red);
  }

  /** Applying the approval: its receipt is confirmed, or nothing is committed under its key. */
  lemma ApprovalApplied(r: Repo, p: Policy, response: Response, t: Request)
    requires WellFormed(r) && CleanRequest(response.request)
    requires response.disposition.ApproveExact? && Approval(response.request, response.actor, response.at) == Some(t)
    requires t.key in r.commits ==> CommittedBy(r, p, response, r.commits[t.key].receipt)
    ensures var (next, outcome) := Apply(r, p, t);
            && WellFormed(next) && Grows(r, next) && next.commits.Keys <= r.commits.Keys + {t.key}
            && (outcome.Committed? ==> t.key in next.commits && CommittedBy(next, p, response, outcome.receipt))
            && (!outcome.Committed? ==> next == r && t.key !in r.commits)
  {
    var way := ApplyGoes(r, p, t);
    var (next, outcome) := Apply(r, p, t);
    ApprovalClean(response.request, response.actor, response.at);
    WentGrows(way, r, p, t, next, outcome);
    ApprovalWent(way, r, p, response, t, next, outcome);
  }

  lemma FailingGoes(r: Repo, p: Policy, t: Request) returns (way: Way)
    ensures !way.Anew? && Went(way, r, p, t, r, ApplyFailing(r, p, t))
  {
    if Prepare(r, p, t).Ready? {
      var v, red := ReadyMeansAccepted(r, p, t);
      way := Refusal;
    } else {
      way := AnsweredGoes(r, p, t);
    }
  }

  lemma FailedApproval(r: Repo, p: Policy, response: Response, t: Request)
    requires response.disposition.ApproveExact? && Approval(response.request, response.actor, response.at) == Some(t)
    requires t.key in r.commits ==> CommittedBy(r, p, response, r.commits[t.key].receipt)
    ensures var outcome := ApplyFailing(r, p, t);
            && (outcome.Committed? ==> t.key in r.commits && CommittedBy(r, p, response, outcome.receipt))
            && (!outcome.Committed? ==> t.key !in r.commits)
  {
    var way := FailingGoes(r, p, t);
    ApprovalWent(way, r, p, response, t, r, ApplyFailing(r, p, t));
  }

  // ---------------------------------------------------------------- each store call keeps it

  lemma ClaimSound(w: World, p: Policy, fails: bool)
    requires Sound(w, p) && w.phase.Claiming?
    ensures Sound(Advance(w, p, fails).0, p)
  {
    var response := w.phase.response;
    var next := Advance(w, p, fails).0;
    forall id | id in next.desk ensures EntrySound(id, next.desk[id], next.repo, p) {
      assert EntrySound(id, w.desk[id], w.repo, p);
    }
  }

  lemma CloseSound(w: World, p: Policy, fails: bool)
    requires Sound(w, p) && w.phase.Closing?
    ensures Sound(Advance(w, p, fails).0, p)
  {
    var next := Advance(w, p, fails).0;
    forall id | id in next.desk ensures EntrySound(id, next.desk[id], next.repo, p) {
      assert EntrySound(id, w.desk[id], w.repo, p);
    }
  }

  lemma OthersKept(w: World, p: Policy, next: Repo, response: Response)
    requires Sound(w, p) && Owns(w.desk, response) && Grows(w.repo, next)
    requires next.commits.Keys <= w.repo.commits.Keys + {KeyOf(response.request.id)}
    requires KeyOf(response.request.id) in next.commits ==>
               CommittedBy(next, p, response, next.commits[KeyOf(response.request.id)].receipt)
    ensures forall id :: id in w.desk ==> EntrySound(id, w.desk[id], next, p)
  {
    forall id | id in w.desk ensures EntrySound(id, w.desk[id], next, p) {
      KeysDiffer(id, response.request.id);
      assert EntrySound(id, w.desk[id], w.repo, p);
      if id != response.request.id { EntryKept(id, w.desk[id], w.repo, next, p); }
    }
  }

  lemma CommitSound(w: World, p: Policy, fails: bool)
    requires Sound(w, p) && w.phase.Working? && w.phase.response.disposition.ApproveExact?
    ensures Sound(Advance(w, p, fails).0, p)
  {
    var response := w.phase.response;
    var approval := Approval(response.request, response.actor, response.at);
    assert EntrySound(response.request.id, w.desk[response.request.id], w.repo, p);
    if approval.Some? {
      var t := approval.value;
      ApprovalKey(response.request, response.actor, response.at);
      if fails {
        FailedApproval(w.repo, p, response, t);
      } else {
        ApprovalApplied(w.repo, p, response, t);
        OthersKept(w, p, Apply(w.repo, p, t).0, response);
      }
    }
  }

  lemma OpeningSound(w: World, p: Policy, response: Response, sources: bool)
    requires Sound(w, p) && w.phase.Idle?
    ensures Sound(w.(phase := Opening(w.desk, w.repo, response, sources).0), p)
  {
  }

  lemma RefusalSound(w: World, p: Policy, fails: bool)
    requires Sound(w, p) && w.phase.Working? && !w.phase.response.disposition.ApproveExact?
    requires KeyOf(w.phase.response.request.id) !in w.repo.commits
    ensures Sound(Advance(w, p, fails).0, p)
  {
  }

  lemma CallSound(w: World, p: Policy, fails: bool)
    requires Sound(w, p)
    ensures Sound(Advance(w, p, fails).0, p)
  {
    match w.phase
    case Idle =>
    case Claiming(_, _) => ClaimSound(w, p, fails);
    case Closing(_, _, _) => CloseSound(w, p, fails);
    case Working(response) =>
      if response.disposition.ApproveExact? {
        CommitSound(w, p, fails);
      } else {
        assert EntrySound(response.request.id, w.desk[response.request.id], w.repo, p);
        RefusalSound(w, p, fails);
      }
  }

  lemma DeskKeys(w: World, p: Policy, e: Happening)
    ensures After(w, p, e).desk.Keys == w.desk.Keys
  {
  }

  lemma AfterSound(w: World, p: Policy, e: Happening)
    requires Sound(w, p) && (e.Elsewhere? ==> Foreign(w.desk, e.req))
    ensures Sound(After(w, p, e), p)
  {
    match e
    case Open(response, sources) => if w.phase.Idle? { OpeningSound(w, p, response, sources); }
    case Call(fails) => CallSound(w, p, fails);
    case Crash =>
    case Elsewhere(req) => ElsewhereSound(w, p, req);
  }

  /** A start: requests just put into the store, nothing committed under their keys. */
  ghost predicate Fresh(w: World) {
    && WellFormed(w.repo) && w.phase.Idle?
    && forall id :: id in w.desk ==>
         w.desk[id].request.id == id && CleanRequest(w.desk[id].request)
         && w.desk[id].status.Pending? && w.desk[id].claimed.None? && w.desk[id].receipt.None?
         && KeyOf(id) !in w.repo.commits
  }

  lemma {:induction false} CourseSound(w: World, p: Policy, events: seq<Happening>)
    requires Fresh(w) && ForeignEvents(w.desk, events)
    ensures Sound(Course(w, p, events), p) && Course(w, p, events).desk.Keys == w.desk.Keys
  {
    if events != [] {
      var front, last := events[..|events| - 1], events[|events| - 1];
      CourseSound(w, p, front);
      AfterSound(Course(w, p, front), p, last);
      DeskKeys(Course(w, p, front), p, last);
    }
  }

  // ---------------------------------------------------------------- exactly once

  /** After any run with crashes: a resolved request has its one commit under its key, with the
      stored receipt; a request closed in any other way has none, and neither has a pending one. */
  lemma ExactlyOnce(w: World, p: Policy, events: seq<Happening>, id: string)
    requires Fresh(w) && ForeignEvents(w.desk, events) && id in w.desk
    ensures var end := Course(w, p, events);
            id in end.desk &&
            var e := end.desk[id];
            && (e.status.Resolved? ==>
                  e.claimed.Some? && e.receipt.Some? && Confirms(end.repo, e.claimed.value, e.receipt.value)
                  && KeyOf(id) in end.repo.commits && end.repo.commits[KeyOf(id)].receipt == e.receipt.value)
            && (!e.status.Resolved? && !e.status.Resolving? ==> KeyOf(id) !in end.repo.commits && e.receipt.None?)
            && (e.status.Resolving? && KeyOf(id) in end.repo.commits ==>
                  e.claimed.Some? && Confirms(end.repo, e.claimed.value, end.repo.commits[KeyOf(id)].receipt))
  {
    CourseSound(w, p, events);
    var end := Course(w, p, events);
    assert EntrySound(id, end.desk[id], end.repo, p);
    if end.desk[id].status.Resolved? {
      var response := end.desk[id].claimed.value;
      ApprovalKey(response.request, response.actor, response.at);
    }
  }

  lemma ReplayAnswers(r: Repo, p: Policy, response: Response, receipt: Receipt)
    requires CommittedBy(r, p, response, receipt)
    ensures var t := Approval(response.request, response.actor, response.at).value;
            Apply(r, p, t) == (r, Committed(receipt)) && ApplyFailing(r, p, t) == Committed(receipt)
  {
    ApprovalKey(response.request, response.actor, response.at);
  }

  lemma WorkingReplays(desk: Desk, r: Repo, p: Policy, response: Response, receipt: Receipt, fails: bool)
    requires CommittedBy(r, p, response, receipt) && Owns(desk, response)
    ensures var id := response.request.id;
            Finished(World(desk, r, Working(response)), p, fails)
            == (World(desk[id := desk[id].(status := Resolved, receipt := Some(receipt))], r, Idle),
                Some(Resolution.Answer(Resolved, Some(receipt))))
  {
    ReplayAnswers(r, p, response, receipt);
    var closing := World(desk, r, Closing(response, Resolved, Some(receipt)));
    assert Advance(World(desk, r, Working(response)), p, fails) == (closing, None);
    assert Finished(closing, p, fails) == Advance(closing, p, fails);
  }

  /** Retrying the owning response after a lost finalize returns the receipt of the commit that
      already happened, whatever else has been committed since, and commits nothing. */
  lemma RetryReturnsFirstReceipt(w: World, p: Policy, events: seq<Happening>, id: string, response: Response,
                                 sources: bool, fails: bool)
    requires Fresh(w) && ForeignEvents(w.desk, events)
    requires var end := Course(w, p, events);
             id in end.desk && end.desk[id].status.Resolving? && end.desk[id].claimed == Some(response)
             && KeyOf(id) in end.repo.commits
    ensures var end := Course(w, p, events);
            var receipt := end.repo.commits[KeyOf(id)].receipt;
            Resolve(end.desk, end.repo, p, response, sources, fails)
            == (end.desk[id := end.desk[id].(status := Resolved, receipt := Some(receipt))], end.repo,
                Resolution.Answer(Resolved, Some(receipt)))
  {
    CourseSound(w, p, events);
    var end := Course(w, p, events);
    RetryFrom(end.desk, end.repo, p, id, response, sources, fails);
  }

  lemma RetryFrom(desk: Desk, r: Repo, p: Policy, id: string, response: Response, sources: bool, fails: bool)
    requires id in desk && EntrySound(id, desk[id], r, p)
    requires desk[id].status.Resolving? && desk[id].claimed == Some(response) && KeyOf(id) in r.commits
    ensures var receipt := r.commits[KeyOf(id)].receipt;
            Resolve(desk, r, p, response, sources, fails)
            == (desk[id := desk[id].(status := Resolved, receipt := Some(receipt))], r,
                Resolution.Answer(Resolved, Some(receipt)))
  {
    assert Opening(desk, r, response, sources) == (Working(response), None);
    WorkingReplays(desk, r, p, response, r.commits[KeyOf(id)].receipt, fails);
  }

  /** Resolving a resolved request again always passes the check against the commit history. */
  lemma ResolvedAlwaysVerifies(w: World, p: Policy, events: seq<Happening>, id: string, response: Response,
                               sources: bool, fails: bool)
    requires Fresh(w) && ForeignEvents(w.desk, events)
    requires var end := Course(w, p, events);
             id in end.desk && end.desk[id].status.Resolved? && end.desk[id].claimed == Some(response)
    ensures var end := Course(w, p, events);
            end.desk[id].receipt.Some?
            && Resolve(end.desk, end.repo, p, response, sources, fails)
               == (end.desk, end.repo, Resolution.Answer(Resolved, end.desk[id].receipt))
  {
    CourseSound(w, p, events);
    var end := Course(w, p, events);
    assert EntrySound(id, end.desk[id], end.repo, p);
  }

  // ---------------------------------------------------------------- staleness and crashes

  /** The request's pins no longer fit the state, and its snapshot is one the lineage has left. */
  ghost predicate LeftBehind(r: Repo, q: DecisionRequest) {
    var v := LoadView(r, q.project, q.lineage);
    v.Some? && !PinsHold(q, v.value) && q.snapshot.ref in r.snapshots
  }

  lemma StagedHeads(r: Repo, req: Request, v: View, red: Reduction, b: Bundle, lineage: string)
    requires Reduce(v, req) == Some(red) && b.reduction == red && Staged(r, b).Some? && lineage in r.lineages
    ensures var next := Staged(r, b).value;
            lineage in next.lineages
            && (next.lineages[lineage] == r.lineages[lineage]
                || (next.lineages[lineage].head.ref !in r.snapshots
                    && next.lineages[lineage].head.ref in next.snapshots))
  {
    ReducedHeads(v, req, red);
  }

  /** A lineage that moves on never comes back to a snapshot that was already stored. */
  lemma LeftBehindStays(r: Repo, p: Policy, req: Request, q: DecisionRequest)
    requires WellFormed(r) && Clean(req) && LeftBehind(r, q)
    ensures LeftBehind(Apply(r, p, req).0, q)
  {
    ApplyGrows(r, p, req);
    if Prepare(r, p, req).Ready? {
      var v, red := ReadyMeansAccepted(r, p, req);
      var b := BundleOf(v, req, red);
      StoresIsPersist(r, b, req.head.digest);
      if Stores(r, b, req.head.digest) { StagedHeads(r, req, v, red, b, q.lineage); }
    }
  }

  lemma LeftBehindRejected(r: Repo, p: Policy, q: DecisionRequest, actor: Actor, at: string)
    requires LeftBehind(r, q) && Approval(q, actor, at).Some? && KeyOf(q.id) !in r.commits
    ensures Apply(r, p, Approval(q, actor, at).value).0 == r
  {
    ApprovalKey(q, actor, at);
    var t, v := Approval(q, actor, at).value, LoadView(r, q.project, q.lineage).value;
    assert PinCodes(v, t) != {};
    assert PreCodes(v, t) != {};
  }

  /** What a step leaves alone about a request whose lineage has moved on. */
  ghost predicate StillBehind(a: Repo, b: Repo, q: DecisionRequest) {
    LeftBehind(b, q) && (KeyOf(q.id) in b.commits ==> KeyOf(q.id) in a.commits)
  }

  lemma ApplyStillBehind(r: Repo, p: Policy, req: Request, q: DecisionRequest)
    requires WellFormed(r) && Clean(req) && LeftBehind(r, q) && req.key != KeyOf(q.id)
    ensures StillBehind(r, Apply(r, p, req).0, q)
  {
    LeftBehindStays(r, p, req, q);
    ApplyGrows(r, p, req);
  }

  lemma ApprovalStillBehind(r: Repo, p: Policy, response: Response, t: Request, q: DecisionRequest)
    requires WellFormed(r) && LeftBehind(r, q) && KeyOf(q.id) !in r.commits && CleanRequest(response.request)
    requires Approval(response.request, response.actor, response.at) == Some(t)
    requires response.request.id == q.id ==> response.request == q
    ensures StillBehind(r, Apply(r, p, t).0, q)
  {
    ApprovalKey(response.request, response.actor, response.at);
    ApprovalClean(response.request, response.actor, response.at);
    KeysDiffer(q.id, response.request.id);
    if response.request.id == q.id {
      LeftBehindRejected(r, p, q, response.actor, response.at);
    } else {
      ApplyStillBehind(r, p, t, q);
    }
  }

  lemma RepoAfter(w: World, p: Policy, e: Happening)
    ensures After(w, p, e).repo == w.repo
            || (e.Elsewhere? && After(w, p, e).repo == Apply(w.repo, p, e.req).0)
            || (e.Call? && w.phase.Working?
                && Approval(w.phase.response.request, w.phase.response.actor, w.phase.response.at).Some?
                && After(w, p, e).repo
                   == Apply(w.repo, p, Approval(w.phase.response.request, w.phase.response.actor,
                       w.phase.response.at).value).0)
  {
  }

  lemma RequestsKept(w: World, p: Policy, e: Happening, id: string)
    requires id in w.desk
    ensures After(w, p, e).desk.Keys == w.desk.Keys && After(w, p, e).desk[id].request == w.desk[id].request
  {
  }

  lemma LeftBehindStep(w: World, p: Policy, e: Happening, id: string)
    requires Sound(w, p) && (e.Elsewhere? ==> Foreign(w.desk, e.req)) && id in w.desk
    requires LeftBehind(w.repo, w.desk[id].request) && KeyOf(id) !in w.repo.commits
    ensures LeftBehind(After(w, p, e).repo, w.desk[id].request) && KeyOf(id) !in After(w, p, e).repo.commits
  {
    var q := w.desk[id].request;
    assert EntrySound(id, w.desk[id], w.repo, p);
    RepoAfter(w, p, e);
    if After(w, p, e).repo != w.repo {
      if e.Elsewhere? {
        ApplyStillBehind(w.repo, p, e.req, q);
      } else {
        var response := w.phase.response;
        assert EntrySound(response.request.id, w.desk[response.request.id], w.repo, p);
        ApprovalStillBehind(w.repo, p, response, Approval(response.request, response.actor, response.at).value, q);
      }
    }
  }

  /** Pins are checked again by the transition itself: a request whose lineage has moved on is
      never committed, however its resolve calls crash and are retried. */
  lemma {:induction false} LeftBehindNeverCommits(w: World, p: Policy, events: seq<Happening>, id: string)
    requires Sound(w, p) && ForeignEvents(w.desk, events) && id in w.desk
    requires LeftBehind(w.repo, w.desk[id].request) && KeyOf(id) !in w.repo.commits
    ensures var end := Course(w, p, events);
            Sound(end, p) && end.desk.Keys == w.desk.Keys && end.desk[id].request == w.desk[id].request
            && LeftBehind(end.repo, w.desk[id].request) && KeyOf(id) !in end.repo.commits
  {
    if events != [] {
      var front, last := events[..|events| - 1], events[|events| - 1];
      LeftBehindNeverCommits(w, p, front, id);
      LeftBehindStep(Course(w, p, front), p, last, id);
      RequestsKept(Course(w, p, front), p, last, id);
      AfterSound(Course(w, p, front), p, last);
    }
  }
}
