/** What each call of `resolve` answers at once, read off the request's entry and the repository
    (core/decision/service.py:148-346, 348-443). */
module ResolutionRules {
  import opened Common
  import opened Records
  import opened Repository
  import opened Service
  import opened DecisionGate
  import opened DecisionResolution
  import opened DecisionRules
  import opened GateRules

  // ---------------------------------------------------------------- the Decision store

  /** The entry as it is, but with this status, claim and receipt. */
  predicate StandsAs(was: Entry, now: Entry, status: Status, claimed: Option<Response>, receipt: Option<Receipt>) {
    now.request == was.request && now.status == status && now.claimed == claimed && now.receipt == receipt
  }

  predicate OnlyEntry(was: Desk, now: Desk, id: string) {
    now.Keys == was.Keys && forall k :: k in was && k != id ==> now[k] == was[k]
  }

  /** A claim succeeds on a pending request, is repeated by its owner while it resolves, and fails otherwise. */
  lemma ClaimTells(desk: Desk, response: Response)
    ensures var id := response.request.id;
            var (now, answer) := Claim(desk, response);
            if id !in desk || desk[id].request != response.request then now == desk && answer == ClaimRejected
            else if desk[id].status == Status.Pending then
              && answer == Claimed && OnlyEntry(desk, now, id)
              && StandsAs(desk[id], now[id], Status.Resolving, Some(response), desk[id].receipt)
            else now == desk && answer == (if desk[id].status == Status.Resolving && desk[id].claimed == Some(response)
                                           then Retry else ClaimRejected)
  {
  }

  /** Only the owner closes a request, once; closing it again the same way changes nothing. */
  lemma FinalizeTells(desk: Desk, response: Response, status: Status, receipt: Option<Receipt>)
    ensures var id := response.request.id;
            var now := Finalize(desk, response, status, receipt);
            if id !in desk || desk[id].claimed != Some(response) then now.None?
            else if desk[id].status == status then
              now == if receipt.None? || receipt == desk[id].receipt then Some(desk) else None
            else if desk[id].status == Status.Resolving then
              && now.Some? && OnlyEntry(desk, now.value, id)
              && StandsAs(desk[id], now.value[id], status, Some(response), receipt)
            else now.None?
  {
  }

  // ---------------------------------------------------------------- the history check

  /** The snapshot of the receipt is stored, of the project, and as the receipt says. */
  predicate SnapshotConfirmed(r: Repo, project: string, pin: Option<Pin>) {
    pin.Some? ==>
      && pin.value.ref in r.snapshots && r.snapshots[pin.value.ref].seal == pin.value.digest
      && Field(r.snapshots[pin.value.ref].text, "project_id") == Some(project)
  }

  /** Every Decision the approval records is stored as it was recorded. */
  predicate DecisionsConfirmed(r: Repo, records: seq<Action>) {
    forall i :: 0 <= i < |records| && records[i].payload.Some? ==>
      var o := records[i].payload.value;
      Key(o.kind, o.id, o.revision) in r.objects && r.objects[Key(o.kind, o.id, o.revision)] == o
  }

  /** The commit history holds this receipt for the approval of the response. */
  ghost predicate HistoryHolds(r: Repo, response: Response, receipt: Receipt) {
    && response.disposition == ApproveExact
    && exists t, records, bound ::
         && Approval(response.request, response.actor, response.at) == Some(t) && t.actions == records + bound
         && |bound| == |response.request.actions|
         && t.key in r.commits && r.commits[t.key].digest == t.digest && r.commits[t.key].receipt == receipt
         && receipt.commitId == t.commitId && receipt.transitionId == t.transitionId
         && SnapshotConfirmed(r, response.request.project, receipt.snapshot)
         && DecisionsConfirmed(r, records)
  }

  lemma {:induction false} SplitSame<T>(a: seq<T>, b: seq<T>, c: seq<T>, d: seq<T>)
    requires a + b == c + d && |b| == |d|
    ensures a == c && b == d
  {
    assert a == (a + b)[..|a|] && c == (c + d)[..|c|];
    assert b == (a + b)[|a|..] && d == (c + d)[|c|..];
  }

  lemma RecordsAre(response: Response, records: seq<Action>, bound: seq<Action>)
    requires var t := Approval(response.request, response.actor, response.at);
             t.Some? && t.value.actions == records + bound && |bound| == |response.request.actions|
    ensures records == DecisionActions(response.request, response.actor.id, response.at)
  {
    ApprovalParts(response.request, response.actor, response.at);
    GateFacts.BoundActions(response.request, response.request.actions);
    SplitSame(records, bound, DecisionActions(response.request, response.actor.id, response.at),
              BindActions(response.request, response.request.actions).value);
  }

  lemma StoredConfirmed(r: Repo, records: seq<Action>)
    ensures DecisionsStored(r, records) <==> DecisionsConfirmed(r, records)
  {
  }

  lemma HistoryExactly(r: Repo, response: Response, receipt: Receipt)
    ensures Confirms(r, response, receipt) <==> HistoryHolds(r, response, receipt)
  {
    var approval := Approval(response.request, response.actor, response.at);
    var records := DecisionActions(response.request, response.actor.id, response.at);
    StoredConfirmed(r, records);
    if HistoryHolds(r, response, receipt) {
      var t, rs, bound :| Approval(response.request, response.actor, response.at) == Some(t) && t.actions == rs + bound
                          && |bound| == |response.request.actions| && t.key in r.commits
                          && r.commits[t.key].digest == t.digest && r.commits[t.key].receipt == receipt
                          && receipt.commitId == t.commitId && receipt.transitionId == t.transitionId
                          && SnapshotConfirmed(r, response.request.project, receipt.snapshot)
                          && DecisionsConfirmed(r, rs);
      RecordsAre(response, rs, bound);
    }
    if Confirms(r, response, receipt) {
      ApprovalParts(response.request, response.actor, response.at);
      GateFacts.BoundActions(response.request, response.request.actions);
      var bound := BindActions(response.request, response.request.actions).value;
      assert approval.value.actions == records + bound;
    }
  }

  // ---------------------------------------------------------------- the reads

  /** The head or a pin of the request is no longer the view's. */
  predicate PinsDiffer(r: DecisionRequest, v: View) {
    || r.snapshot.ref != v.snapshot.id || r.snapshot.digest != v.snapshot.seal
    || r.config != v.config || r.profile != v.profile
  }

  predicate UnitAstray(r: DecisionRequest) {
    exists u :: u in r.units && !(u.index < |r.actions| && r.actions[u.index] == u.action)
  }

  lemma AstrayExactly(r: DecisionRequest)
    ensures !UnitsCurrent(r) <==> UnitAstray(r)
  {
    if u :| u in r.units && !(u.index < |r.actions| && r.actions[u.index] == u.action) {
      var i :| 0 <= i < |r.units| && r.units[i] == u;
      assert !UnitCurrent(r.actions, r.units[i]);
    }
  }

  lemma FreshnessExactly(r: DecisionRequest, v: View, sources: bool)
    ensures FreshnessOf(r, v, sources)
         == if PinsDiffer(r, v) || !sources then Outdated
            else if UnitAstray(r) then Broken
            else if UnitsOf(v, r.actions) != r.requirementSet then Outdated else Current
  {
    AstrayExactly(r);
  }

  /** What a call answers before it writes anything, and what it goes on to do. */
  lemma OpeningTells(desk: Desk, r: Repo, response: Response, sources: bool)
    ensures var id := response.request.id;
            var (phase, answer) := Opening(desk, r, response, sources);
            && (answer.Some? ==> phase == Idle)
            && if id !in desk then answer == Some(Error("DECISION-REQUEST-UNKNOWN"))
               else if desk[id].request != response.request then answer == Some(Error("DECISION-BINDING-001"))
               else if desk[id].status != Status.Pending && desk[id].status != Status.Resolving then
                 if desk[id].claimed != Some(response) then answer == Some(Error("DECISION-TERMINAL-001"))
                 else if desk[id].status != Resolved then answer == Some(Answer(desk[id].status, desk[id].receipt))
                 else answer == Some(if desk[id].receipt.Some? && HistoryHolds(r, response, desk[id].receipt.value)
                                     then Answer(Resolved, desk[id].receipt)
                                     else Error("DECISION-STATE-MISMATCH-001"))
               else if response.actor.actorType != "human" || response.actor.id != desk[id].request.human then
                 answer == Some(Error("DECISION-ACTOR-001"))
               else if desk[id].status == Status.Resolving then
                 if desk[id].claimed == Some(response) then answer.None? && phase == Working(response)
                 else answer == Some(Error("DECISION-RACE-001"))
               else
                 match LoadView(r, desk[id].request.project, desk[id].request.lineage)
                 case None => answer == Some(Error("DECISION-BINDING-001"))
                 case Some(v) =>
                   if PinsDiffer(desk[id].request, v) || !sources then answer.None? && phase == Claiming(response, true)
                   else if UnitAstray(desk[id].request) then answer == Some(Error("DECISION-BINDING-001"))
                   else answer.None?
                        && phase == Claiming(response,
                                             UnitsOf(v, desk[id].request.actions) != desk[id].request.requirementSet)
  {
    var id := response.request.id;
    if id in desk {
      if desk[id].receipt.Some? { HistoryExactly(r, response, desk[id].receipt.value); }
      var view := LoadView(r, desk[id].request.project, desk[id].request.lineage);
      if view.Some? { FreshnessExactly(desk[id].request, view.value, sources); }
    }
  }

  /** What follows the transition service's answer to an approval. */
  lemma AppliedTells(response: Response, outcome: Outcome)
    ensures var (phase, answer) := AfterApply(response, outcome);
            match outcome
            case Committed(receipt) => answer.None? && phase == Closing(response, Resolved, Some(receipt))
            case Rejected(codes, _) =>
              if "RT-HEAD-001" in codes || "RT-HEAD-002" in codes || "RT-PIN-002" in codes || "RT-PIN-003" in codes
                 || "RT-PIN-004" in codes
              then answer.None? && phase == Closing(response, Stale, None)
              else phase == Idle && answer == Some(CommitRejected(codes))
            case Missing => phase == Idle && answer == Some(Error("KeyError"))
  {
    if outcome.Rejected? {
      var codes := outcome.codes;
      if "RT-HEAD-001" in codes || "RT-HEAD-002" in codes || "RT-PIN-002" in codes || "RT-PIN-003" in codes
         || "RT-PIN-004" in codes
      {
        var c :| c in codes && c in STALE_CODES;
        assert c in codes * STALE_CODES;
      }
    }
  }
}
