/** What a stored request writes, read off the request itself, and that every reachable repository is
    its seed and what the stored requests wrote. */
module CommitContents {
  import opened Common
  import opened Records
  import opened Authority
  import opened Reducer
  import opened ReducerFacts
  import opened Repository
  import opened Service
  import opened CommitFacts
  import opened ApplyOutcomes
  import opened History
  import opened SingleUse
  import opened LineagePlan
  import opened ChildHeads
  import opened DecisionRules

  // ---------------------------------------------------------------- what a request asks for

  /** The target of the request's switch. */
  function SwitchOf(actions: seq<Action>): Option<string> {
    if actions == [] then None
    else if actions[0].kind.SwitchActiveLineage? then Some(actions[0].switchTarget) else SwitchOf(actions[1..])
  }

  function PlanOf(actions: seq<Action>): Option<Plan> {
    if actions == [] then None
    else if actions[0].kind.ApplyLineagePlan? then actions[0].plan else PlanOf(actions[1..])
  }

  /** The request adopts a run result, or replays one with its plan. */
  predicate Adopts(req: Request, ref: string) {
    exists i :: 0 <= i < |req.actions| && ActionAdopts(req.actions[i], ref)
  }

  predicate ActionAdopts(a: Action, ref: string) {
    || (a.kind == RecordRunResultAdoption && ref in a.adoptionRefs)
    || (a.kind == ApplyLineagePlan && a.plan.Some? && ref != ""
        && (ref == a.plan.value.replayPlanRef || ref in a.plan.value.replayPlanRefs))
  }

  /** The request cites the Decision for an action that needs one. */
  ghost predicate Consumes(v: View, req: Request, d: string) {
    exists i, q :: 0 <= i < |req.actions| && d in req.actions[i].decisionRefs && Needs(v, req.actions[i], q)
  }

  predicate RecordsDecision(req: Request, id: string) {
    exists i :: 0 <= i < |req.actions| && req.actions[i].kind == RecordDecision
                && req.actions[i].payload.Some? && req.actions[i].payload.value.id == id
  }

  /** An action writes this object, or the plan derives it. */
  ghost predicate RevisesTo(req: Request, o: Object) {
    || (exists i :: 0 <= i < |req.actions| && WritesPayload(req.actions[i]) && req.actions[i].payload.value == o)
    || (exists i, j :: 0 <= i < |req.actions| && req.actions[i].kind == ApplyLineagePlan && req.actions[i].plan.Some?
                       && 0 <= j < |req.actions[i].plan.value.treatments|
                       && req.actions[i].plan.value.treatments[j].treatment == "RECONFIRM"
                       && req.actions[i].plan.value.treatments[j].derived == Some(o))
  }

  ghost predicate Revises(req: Request, k: Key) { exists o :: RevisesTo(req, o) && o.Slot() == k }

  /** Every slot the request fills: its revisions, its audit event and, unless it switches, its snapshot. */
  ghost predicate Files(req: Request, k: Key) {
    || Revises(req, k) || k == Key("audit_event", req.auditId, 0)
    || (SwitchOf(req.actions).None? && k == Key("snapshot", req.snapshotId, 0))
  }

  // ---------------------------------------------------------------- the shape of a reduced request

  lemma {:induction false} SwitchFound(actions: seq<Action>)
    ensures SwitchOf(actions).None? <==> !HasSwitch(actions)
    ensures SwitchOf(actions).Some? ==>
              exists i :: 0 <= i < |actions| && actions[i].kind.SwitchActiveLineage?
                          && SwitchOf(actions) == Some(actions[i].switchTarget)
  {
    if actions != [] {
      SwitchFound(actions[1..]);
      if HasSwitch(actions[1..]) {
        var i :| 0 <= i < |actions[1..]| && actions[1..][i].kind.SwitchActiveLineage?
                 && SwitchOf(actions[1..]) == Some(actions[1..][i].switchTarget);
        assert actions[i + 1] == actions[1..][i];
      }
      if i :| 0 <= i < |actions| && actions[i].kind.SwitchActiveLineage? {
        if i > 0 { assert actions[1..][i - 1] == actions[i]; }
      }
    }
  }

  lemma {:induction false} PlanFound(actions: seq<Action>)
    ensures HasPlan(actions) ==>
              exists i :: 0 <= i < |actions| && actions[i].kind.ApplyLineagePlan? && PlanOf(actions) == actions[i].plan
    ensures !HasPlan(actions) ==> PlanOf(actions).None?
  {
    if actions != [] {
      PlanFound(actions[1..]);
      if HasPlan(actions[1..]) {
        var i :| 0 <= i < |actions[1..]| && actions[1..][i].kind.ApplyLineagePlan?
                 && PlanOf(actions[1..]) == actions[1..][i].plan;
        assert actions[i + 1] == actions[1..][i];
      }
      if i :| 0 <= i < |actions| && actions[i].kind.ApplyLineagePlan? {
        if i > 0 { assert actions[1..][i - 1] == actions[i]; }
      }
    }
  }

  /** A request reduces as a plan, as a switch or as an ordinary transition. */
  lemma ReducedAs(v: View, req: Request, red: Reduction)
    requires Reduce(v, req) == Some(red)
    ensures PlanOf(req.actions).Some? ==> SwitchOf(req.actions).None? && HasPlan(req.actions)
    ensures PlanOf(req.actions).Some? ==> ReducePlan(v, req, PlanOf(req.actions).value) == Some(red)
    ensures SwitchOf(req.actions).Some? ==>
              !HasPlan(req.actions) && ReduceSwitch(v, req, SwitchOf(req.actions).value) == Some(red)
    ensures PlanOf(req.actions).None? && SwitchOf(req.actions).None? ==>
              !HasPlan(req.actions) && !HasSwitch(req.actions) && ReduceOrdinary(v, req) == Some(red)
  {
    SwitchFound(req.actions);
    PlanFound(req.actions);
    if HasPlan(req.actions) {
      var i := AsPlan(v, req, red);
    } else if HasSwitch(req.actions) {
      AsSwitch(v, req, red);
    }
  }

  lemma SamePlan(actions: seq<Action>, i: nat)
    requires |Semantic(actions)| == 1 && i < |actions| && actions[i].kind.ApplyLineagePlan?
    ensures PlanOf(actions) == actions[i].plan
  {
    PlanFound(actions);
    var k :| 0 <= k < |actions| && actions[k].kind.ApplyLineagePlan? && PlanOf(actions) == actions[k].plan;
    SoleSemantic(actions, i, k);
  }

  lemma NoSwitchBeside(actions: seq<Action>, i: nat)
    requires |Semantic(actions)| == 1 && i < |actions| && actions[i].kind.ApplyLineagePlan?
    ensures !HasSwitch(actions)
  {
    if k :| 0 <= k < |actions| && actions[k].kind.SwitchActiveLineage? { SoleSemantic(actions, i, k); }
  }

  lemma AsPlan(v: View, req: Request, red: Reduction) returns (i: nat)
    requires Reduce(v, req) == Some(red) && HasPlan(req.actions)
    ensures i < |req.actions| && req.actions[i].kind.ApplyLineagePlan? && req.actions[i].plan.Some?
    ensures PlanOf(req.actions) == req.actions[i].plan && ReducePlan(v, req, req.actions[i].plan.value) == Some(red)
    ensures |Semantic(req.actions)| == 1 && !HasSwitch(req.actions)
  {
    i := PlanAction(v, req, red);
    OneSemantic(v, req, red);
    SamePlan(req.actions, i);
    NoSwitchBeside(req.actions, i);
  }

  lemma SoleSwitch(actions: seq<Action>)
    requires |Semantic(actions)| == 1 && HasSwitch(actions)
    ensures SwitchOf(actions) == Some(Semantic(actions)[0].switchTarget)
  {
    SwitchFound(actions);
    var i :| 0 <= i < |actions| && actions[i].kind.SwitchActiveLineage?
             && SwitchOf(actions) == Some(actions[i].switchTarget);
    SemanticKeeps(actions, i);
  }

  lemma AsSwitch(v: View, req: Request, red: Reduction)
    requires Reduce(v, req) == Some(red) && !HasPlan(req.actions) && HasSwitch(req.actions)
    ensures SwitchOf(req.actions).Some? && ReduceSwitch(v, req, SwitchOf(req.actions).value) == Some(red)
  {
    OneSemantic(v, req, red);
    SoleSwitch(req.actions);
  }

  // ---------------------------------------------------------------- parts of a reduction

  lemma ReducedSwitch(v: View, req: Request, red: Reduction)
    requires Reduce(v, req) == Some(red)
    ensures red.activate == SwitchOf(req.actions)
    ensures red.snapshot.Some? <==> SwitchOf(req.actions).None?
  {
    ReducedAs(v, req, red);
  }

  lemma {:induction false} AdoptionsExactly(actions: seq<Action>, ref: string)
    ensures ref in AdoptionsOf(actions) <==>
              exists i :: 0 <= i < |actions| && actions[i].kind.RecordRunResultAdoption?
                          && ref in actions[i].adoptionRefs
  {
    if actions != [] {
      var front := actions[..|actions| - 1];
      AdoptionsExactly(front, ref);
      if i :| 0 <= i < |front| && front[i].kind.RecordRunResultAdoption? && ref in front[i].adoptionRefs {
        assert actions[i] == front[i];
      }
      if i :| 0 <= i < |actions| && actions[i].kind.RecordRunResultAdoption? && ref in actions[i].adoptionRefs {
        if i < |front| { assert front[i] == actions[i]; }
      }
    }
  }

  lemma {:induction false} NonEmptyExactly(refs: seq<string>, ref: string)
    ensures ref in NonEmpty(refs) <==> ref in refs && ref != ""
  {
    if refs != [] { NonEmptyExactly(refs[1..], ref); }
  }

  lemma OrdinaryAdopts(req: Request, ref: string)
    requires !HasPlan(req.actions)
    ensures ref in Distinct(AdoptionsOf(req.actions)) <==> Adopts(req, ref)
  {
    AdoptionsExactly(req.actions, ref);
    if i :| 0 <= i < |req.actions| && req.actions[i].kind.RecordRunResultAdoption?
            && ref in req.actions[i].adoptionRefs {
      assert ActionAdopts(req.actions[i], ref);
    }
    if i :| 0 <= i < |req.actions| && ActionAdopts(req.actions[i], ref) {
      assert !req.actions[i].kind.ApplyLineagePlan?;
    }
  }

  lemma ReducedAdoptions(v: View, req: Request, red: Reduction, ref: string)
    requires Reduce(v, req) == Some(red)
    ensures ref in red.adoptions <==> Adopts(req, ref)
  {
    ReducedAs(v, req, red);
    if HasPlan(req.actions) {
      PlanAdopts(v, req, red, ref);
    } else if HasSwitch(req.actions) {
      SwitchAdopts(v, req, red, ref);
    } else {
      OrdinaryAdopts(req, ref);
    }
  }

  lemma PlanAdoptions(v: View, req: Request, red: Reduction, p: Plan, ref: string)
    requires ReducePlan(v, req, p) == Some(red)
    ensures ref in red.adoptions <==> ref != "" && (ref == p.replayPlanRef || ref in p.replayPlanRefs)
  {
    NonEmptyExactly([p.replayPlanRef] + p.replayPlanRefs, ref);
  }

  lemma OnlyPlanAdopts(req: Request, i: nat, ref: string)
    requires |Semantic(req.actions)| == 1 && i < |req.actions| && req.actions[i].kind.ApplyLineagePlan?
    ensures Adopts(req, ref) <==> ActionAdopts(req.actions[i], ref)
  {
    if k :| 0 <= k < |req.actions| && ActionAdopts(req.actions[k], ref) { SoleSemantic(req.actions, i, k); }
  }

  lemma PlanAdopts(v: View, req: Request, red: Reduction, ref: string)
    requires Reduce(v, req) == Some(red) && HasPlan(req.actions)
    ensures ref in red.adoptions <==> Adopts(req, ref)
  {
    var i := AsPlan(v, req, red);
    PlanAdoptions(v, req, red, req.actions[i].plan.value, ref);
    OnlyPlanAdopts(req, i, ref);
  }

  lemma SwitchAdoptsNothing(req: Request, ref: string)
    requires HasSwitch(req.actions) && !HasPlan(req.actions) && |Semantic(req.actions)| == 1
    ensures !Adopts(req, ref)
  {
    if k :| 0 <= k < |req.actions| && ActionAdopts(req.actions[k], ref) { OnlyDecisionsBeside(req.actions, k); }
  }

  lemma SwitchAdoptions(v: View, req: Request, red: Reduction, target: string)
    requires ReduceSwitch(v, req, target) == Some(red)
    ensures red.adoptions == []
  {
  }

  lemma SwitchAdopts(v: View, req: Request, red: Reduction, ref: string)
    requires Reduce(v, req) == Some(red) && !HasPlan(req.actions) && HasSwitch(req.actions)
    ensures ref !in red.adoptions && !Adopts(req, ref)
  {
    AsSwitch(v, req, red);
    OneSemantic(v, req, red);
    SwitchAdoptions(v, req, red, SwitchOf(req.actions).value);
    SwitchAdoptsNothing(req, ref);
  }

  lemma ReducedConsumes(v: View, req: Request, red: Reduction, d: string)
    requires Reduce(v, req) == Some(red) && Filed(v)
    ensures d in red.used <==> Consumes(v, req, d)
  {
    ReducedUsed(v, req, red);
    if a :| a in req.actions && Required(v, a) != [] && d in a.decisionRefs {
      var i :| 0 <= i < |req.actions| && req.actions[i] == a;
      RequiredExactly(v, a, Required(v, a)[0]);
      assert Needs(v, req.actions[i], Required(v, a)[0]);
    }
    if i, q :| 0 <= i < |req.actions| && d in req.actions[i].decisionRefs && Needs(v, req.actions[i], q) {
      RequiredExactly(v, req.actions[i], q);
      assert req.actions[i] in req.actions;
    }
  }

  lemma ReducedRecords(v: View, req: Request, red: Reduction, o: Object)
    requires Reduce(v, req) == Some(red)
    ensures o in red.decisions <==>
              exists i :: 0 <= i < |req.actions| && req.actions[i].kind == RecordDecision
                          && req.actions[i].payload == Some(o)
  {
    RecordedDecisions(v, req, red, o);
    DecisionsOrigin(req.actions, o);
  }

  lemma DerivedListed(v: View, req: Request, red: Reduction, p: Plan, j: nat, o: Object)
    requires ReducePlan(v, req, p) == Some(red)
    requires j < |p.treatments| && Reconfirms(p.treatments[j]) && p.treatments[j].derived == Some(o)
    ensures o in red.revisions
  {
    ReducedProposes(v, req, p, red);
    SurvivorOf(v, p, j);
    var m := Source(p.treatments[j]);
    assert m in v.snapshot.members && Derives(p, m) && Survivor(v, p, m) == Some(o);
  }

  lemma DerivedIsRevision(v: View, req: Request, red: Reduction, i: nat, j: nat, o: Object)
    requires Reduce(v, req) == Some(red) && i < |req.actions|
    requires req.actions[i].kind.ApplyLineagePlan? && req.actions[i].plan.Some?
    requires j < |req.actions[i].plan.value.treatments| && Reconfirms(req.actions[i].plan.value.treatments[j])
    requires req.actions[i].plan.value.treatments[j].derived == Some(o)
    ensures o in red.revisions
  {
    var k := AsPlan(v, req, red);
    SoleSemantic(req.actions, i, k);
    DerivedListed(v, req, red, req.actions[i].plan.value, j, o);
  }

  lemma RecordedRevises(req: Request, o: Object)
    requires o in DecisionsOf(req.actions)
    ensures RevisesTo(req, o)
  {
    DecisionsOrigin(req.actions, o);
    var i :| 0 <= i < |req.actions| && req.actions[i].kind.RecordDecision? && req.actions[i].payload == Some(o);
    assert WritesPayload(req.actions[i]);
  }

  lemma DerivedRevises(v: View, req: Request, i: nat, m: Ref, o: Object)
    requires i < |req.actions| && req.actions[i].kind.ApplyLineagePlan? && req.actions[i].plan.Some?
    requires PlanAccepted(v, req.actions[i].plan.value) && m in v.snapshot.members
    requires Derives(req.actions[i].plan.value, m) && Survivor(v, req.actions[i].plan.value, m) == Some(o)
    ensures RevisesTo(req, o)
  {
    var j := TreatedAt(v, req.actions[i].plan.value, m);
    assert req.actions[i].plan.value.treatments[j].treatment == "RECONFIRM";
  }

  lemma PlanRevises(v: View, req: Request, red: Reduction, i: nat, o: Object)
    requires i < |req.actions| && req.actions[i].kind.ApplyLineagePlan? && req.actions[i].plan.Some?
    requires ReducePlan(v, req, req.actions[i].plan.value) == Some(red) && o in red.revisions
    ensures RevisesTo(req, o)
  {
    var p := req.actions[i].plan.value;
    ReducedProposes(v, req, p, red);
    if o in DecisionsOf(req.actions) {
      RecordedRevises(req, o);
    } else {
      var m :| m in v.snapshot.members && Derives(p, m) && Survivor(v, p, m) == Some(o);
      DerivedRevises(v, req, i, m, o);
    }
  }

  lemma SwitchRevises(v: View, req: Request, red: Reduction, target: string, o: Object)
    requires ReduceSwitch(v, req, target) == Some(red) && o in red.revisions
    ensures RevisesTo(req, o)
  {
    SortMembers(DecisionsOf(req.actions), o);
    RecordedRevises(req, o);
  }

  lemma OrdinaryRevises(v: View, req: Request, red: Reduction, o: Object)
    requires !HasPlan(req.actions) && !HasSwitch(req.actions) && ReduceOrdinary(v, req) == Some(red)
    requires o in red.revisions
    ensures RevisesTo(req, o)
  {
    SortMembers(ObjectsOf(req.actions), o);
    ObjectsOrigin(req.actions, o);
    var i :| 0 <= i < |req.actions| && !req.actions[i].kind.RecordRunResultAdoption?
             && req.actions[i].payload == Some(o);
    assert !req.actions[i].kind.ApplyLineagePlan? && !req.actions[i].kind.SwitchActiveLineage?;
    assert WritesPayload(req.actions[i]);
  }

  lemma OriginRevises(v: View, req: Request, red: Reduction, o: Object)
    requires Reduce(v, req) == Some(red) && o in red.revisions
    ensures RevisesTo(req, o)
  {
    ReducedAs(v, req, red);
    if HasPlan(req.actions) {
      var i := AsPlan(v, req, red);
      PlanRevises(v, req, red, i, o);
    } else if HasSwitch(req.actions) {
      AsSwitch(v, req, red);
      SwitchRevises(v, req, red, SwitchOf(req.actions).value, o);
    } else {
      OrdinaryRevises(v, req, red, o);
    }
  }

  /** The revisions of a reduction are what the request's actions write and its plan derives. */
  lemma ReducedRevises(v: View, req: Request, red: Reduction, o: Object)
    requires Reduce(v, req) == Some(red)
    ensures o in red.revisions <==> RevisesTo(req, o)
  {
    if o in red.revisions { OriginRevises(v, req, red, o); }
    if i :| 0 <= i < |req.actions| && WritesPayload(req.actions[i]) && req.actions[i].payload.value == o {
      WrittenIsRevision(v, req, red, i);
    }
    if i, j :| 0 <= i < |req.actions| && req.actions[i].kind == ApplyLineagePlan && req.actions[i].plan.Some?
               && 0 <= j < |req.actions[i].plan.value.treatments|
               && req.actions[i].plan.value.treatments[j].treatment == "RECONFIRM"
               && req.actions[i].plan.value.treatments[j].derived == Some(o) {
      DerivedIsRevision(v, req, red, i, j, o);
    }
  }

  // ---------------------------------------------------------------- one commit

  /** The pin of the snapshot the request stores. */
  function SnapshotPin(next: Repo, req: Request): Pin {
    Pin(req.snapshotId, if req.snapshotId in next.snapshots then next.snapshots[req.snapshotId].seal else Unsealed)
  }

  /** What becomes of the lineages: a plan adds its child, a switch leaves them, anything else moves
      the head of its own lineage. */
  ghost predicate LineagesWritten(r: Repo, next: Repo, req: Request) {
    match PlanOf(req.actions)
    case Some(p) =>
      && p.targetLineage !in r.lineages
      && next.lineages == r.lineages[p.targetLineage := Lineage(p.targetLineage, p.lineageKind,
             SnapshotPin(next, req), Some(req.lineage), Some(req.head.ref))]
    case None =>
      if SwitchOf(req.actions).Some? then next.lineages == r.lineages
      else req.lineage in r.lineages
           && next.lineages == r.lineages[req.lineage := r.lineages[req.lineage].(head := SnapshotPin(next, req))]
  }

  /** The receipt repeats the request and names what was stored. */
  ghost predicate ReceiptTells(r: Repo, next: Repo, v: View, req: Request, receipt: Receipt) {
    && receipt.transitionId == req.transitionId && receipt.commitId == req.commitId && receipt.key == req.key
    && receipt.lineage == req.lineage && receipt.timestamp == req.submittedAt && receipt.actor == req.actor
    && receipt.prior == req.head
    && receipt.snapshot == (if SwitchOf(req.actions).Some? then None else Some(SnapshotPin(next, req)))
    && |receipt.applied| == |req.actions|
    && (forall i :: 0 <= i < |req.actions| ==> receipt.applied[i] == req.actions[i].kind)
    && (forall d :: d in receipt.resolving <==> Consumes(v, req, d))
  }

  /** The new repository is the old one and what the request writes. */
  ghost predicate Wrote(r: Repo, next: Repo, v: View, req: Request) {
    && next.project == r.project && next.config == r.config && next.profile == r.profile
    && next.active == SwitchOf(req.actions).GetOr(r.active)
    && (forall ref :: ref in next.adoptions <==> ref in r.adoptions || Adopts(req, ref))
    && (forall d :: d in next.used <==> d in r.used || Consumes(v, req, d))
    && (forall id :: id in next.decisions <==> id in r.decisions || RecordsDecision(req, id))
    && (forall k :: k in next.objects <==> k in r.objects || Files(req, k))
    && (forall id :: id in next.snapshots <==>
          id in r.snapshots || (id == req.snapshotId && SwitchOf(req.actions).None?))
    && (forall id :: id in next.audits <==> id in r.audits || id == req.auditId)
    && (forall key :: key in next.commits <==> key in r.commits || key == req.key)
    && req.key !in r.commits && next.commits[req.key].digest == req.digest
    && ReceiptTells(r, next, v, req, next.commits[req.key].receipt)
    && LineagesWritten(r, next, req)
  }

  lemma ObjectsWritten(r: Repo, v: View, req: Request, red: Reduction, next: Repo, k: Key)
    requires Reduce(v, req) == Some(red) && Staged(r, BundleOf(v, req, red)) == Some(next)
    ensures k in next.objects <==> k in r.objects || Files(req, k)
  {
    StagedObjects(r.objects, red.revisions);
    ReducedTidy(v, req, red);
    ReducedSwitch(v, req, red);
    var staged := StageObjects(r.objects, red.revisions).value;
    if k in staged && k !in r.objects {
      ReducedRevises(v, req, red, staged[k]);
      assert Revises(req, k);
    }
    if Revises(req, k) {
      var o :| RevisesTo(req, o) && o.Slot() == k;
      ReducedRevises(v, req, red, o);
    }
  }

  lemma DecisionsWritten(r: Repo, v: View, req: Request, red: Reduction, next: Repo, id: string)
    requires Reduce(v, req) == Some(red) && Staged(r, BundleOf(v, req, red)) == Some(next)
    ensures id in next.decisions <==> id in r.decisions || RecordsDecision(req, id)
  {
    StagedDecisions(r.decisions, red.decisions);
    if id in next.decisions && id !in r.decisions {
      ReducedRecords(v, req, red, next.decisions[id]);
    }
    if i :| 0 <= i < |req.actions| && req.actions[i].kind == RecordDecision
            && req.actions[i].payload.Some? && req.actions[i].payload.value.id == id {
      ReducedRecords(v, req, red, req.actions[i].payload.value);
    }
  }

  lemma SetsWritten(r: Repo, v: View, req: Request, red: Reduction, next: Repo)
    requires Reduce(v, req) == Some(red) && Staged(r, BundleOf(v, req, red)) == Some(next) && Filed(v)
    ensures forall ref :: ref in next.adoptions <==> ref in r.adoptions || Adopts(req, ref)
    ensures forall d :: d in next.used <==> d in r.used || Consumes(v, req, d)
    ensures forall d :: d in red.used <==> Consumes(v, req, d)
  {
    forall ref ensures ref in red.adoptions <==> Adopts(req, ref) { ReducedAdoptions(v, req, red, ref); }
    forall d ensures d in red.used <==> Consumes(v, req, d) { ReducedConsumes(v, req, red, d); }
  }

  lemma NamesWritten(r: Repo, v: View, req: Request, red: Reduction, next: Repo)
    requires Reduce(v, req) == Some(red) && Staged(r, BundleOf(v, req, red)) == Some(next)
    ensures next.project == r.project && next.config == r.config && next.profile == r.profile
    ensures next.active == SwitchOf(req.actions).GetOr(r.active)
    ensures forall id :: id in next.snapshots <==>
              id in r.snapshots || (id == req.snapshotId && SwitchOf(req.actions).None?)
    ensures forall id :: id in next.audits <==> id in r.audits || id == req.auditId
    ensures forall key :: key in next.commits <==> key in r.commits || key == req.key
    ensures next.commits[req.key] == CommitRecord(req.digest, ReceiptOf(v, req, red))
    ensures red.snapshot.Some? ==> SnapshotPin(next, req) == Pin(red.snapshot.value.id, red.snapshot.value.seal)
  {
    ReducedTidy(v, req, red);
    ReducedSwitch(v, req, red);
  }

  lemma ReducedLineages(v: View, req: Request, red: Reduction)
    requires Reduce(v, req) == Some(red)
    ensures PlanOf(req.actions).Some? ==>
              var p := PlanOf(req.actions).value;
              && red.moved.None? && red.snapshot.Some?
              && red.child == Some(Lineage(p.targetLineage, p.lineageKind,
                     Pin(red.snapshot.value.id, red.snapshot.value.seal), Some(req.lineage), Some(v.snapshot.id)))
    ensures SwitchOf(req.actions).Some? ==> red.moved.None? && red.child.None?
    ensures PlanOf(req.actions).None? && SwitchOf(req.actions).None? ==>
              && red.child.None? && red.snapshot.Some? && req.lineage in v.lineages
              && red.moved == Some(v.lineages[req.lineage].(head :=
                     Pin(red.snapshot.value.id, red.snapshot.value.seal)))
  {
    ReducedAs(v, req, red);
  }

  /** The moved lineage is the stored one under its new head. */
  lemma MovedInPlace(a: Lineage, b: Lineage, head: Pin)
    requires Fixed(a) == Fixed(b)
    ensures a.(head := head) == b.(head := head)
  {
  }

  lemma LineagesAsWritten(base: Repo, r: Repo, v: View, req: Request, red: Reduction, next: Repo)
    requires LoadView(base, req.project, req.lineage) == Some(v) && Grows(base, r) && Keyed(base)
    requires Reduce(v, req) == Some(red) && Staged(r, BundleOf(v, req, red)) == Some(next)
    requires req.head == v.Head()
    ensures LineagesWritten(r, next, req)
  {
    ReducedLineages(v, req, red);
    NamesWritten(r, v, req, red, next);
    ViewOfBase(base, req.project, req.lineage);
    if PlanOf(req.actions).None? && SwitchOf(req.actions).None? {
      MovedInPlace(v.lineages[req.lineage], r.lineages[req.lineage], SnapshotPin(next, req));
    }
  }

  lemma ReceiptIsTold(r: Repo, v: View, req: Request, red: Reduction, next: Repo)
    requires Reduce(v, req) == Some(red) && Staged(r, BundleOf(v, req, red)) == Some(next) && req.head == v.Head()
    requires forall d :: d in red.used <==> Consumes(v, req, d)
    ensures ReceiptTells(r, next, v, req, ReceiptOf(v, req, red))
  {
    ReducedSwitch(v, req, red);
    NamesWritten(r, v, req, red, next);
  }

  /** A stored bundle wrote exactly what its request asks for. */
  lemma StoredWrote(base: Repo, r: Repo, v: View, req: Request, red: Reduction, next: Repo)
    requires LoadView(base, req.project, req.lineage) == Some(v) && Grows(base, r) && Keyed(base)
    requires Reduce(v, req) == Some(red) && Staged(r, BundleOf(v, req, red)) == Some(next)
    requires req.head == v.Head() && req.key !in r.commits
    ensures Wrote(r, next, v, req)
  {
    ViewOfBase(base, req.project, req.lineage);
    NamesWritten(r, v, req, red, next);
    SetsWritten(r, v, req, red, next);
    forall k ensures k in next.objects <==> k in r.objects || Files(req, k) { ObjectsWritten(r, v, req, red, next, k); }
    forall id ensures id in next.decisions <==> id in r.decisions || RecordsDecision(req, id) {
      DecisionsWritten(r, v, req, red, next, id);
    }
    ReceiptIsTold(r, v, req, red, next);
    LineagesAsWritten(base, r, v, req, red, next);
  }

  /** An `apply` call that commits anew writes exactly what the request asks for. */
  lemma ApplyWrites(r: Repo, p: Policy, req: Request) returns (v: View)
    requires WellFormed(r) && req.key !in r.commits && Apply(r, p, req).1.Committed?
    ensures LoadView(r, req.project, req.lineage) == Some(v) && Wrote(r, Apply(r, p, req).0, v, req)
    ensures Apply(r, p, req).1.receipt == Apply(r, p, req).0.commits[req.key].receipt
  {
    var way := ApplyGoes(r, p, req);
    v := way.view;
    PreClean(v, req);
    GrowsToItself(r);
    StoredWrote(r, r, v, req, way.reduction, Apply(r, p, req).0);
    NamesWritten(r, v, req, way.reduction, Apply(r, p, req).0);
  }
}
