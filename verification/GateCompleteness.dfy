/** On an unchanged state an approval always carries the Decisions its transition needs. */
module GateCompleteness {
  import opened Common
  import opened Records
  import opened Authority
  import opened DecisionGate
  import opened GateFacts

  /** The request was issued by the gate for this state. */
  ghost predicate Issued(v: View, r: DecisionRequest) {
    r.units == UnitsOf(v, r.actions) && AllHonest(v, r.actions)
  }

  ghost predicate Mints(r: DecisionRequest, id: string) {
    exists g :: g in Groups(r.units) && id == DecisionId(r.id, g)
  }

  /** No minted Decision id has been used, and the candidate records no Decision under one. */
  ghost predicate FreshIds(v: View, r: DecisionRequest) {
    && (forall g :: g in Groups(r.units) ==> DecisionId(r.id, g) !in v.used)
    && (forall i, id :: 0 <= i < |r.actions| && Mints(r, id) ==> !RecordsUnder(r.actions[i], id))
  }

  // ---------------------------------------------------------------- an approval can be built

  lemma IssuedUnitsCurrent(v: View, r: DecisionRequest)
    requires Issued(v, r)
    ensures UnitsCurrent(r)
  {
    forall i | 0 <= i < |r.units| ensures UnitCurrent(r.actions, r.units[i]) {
      UnitsAt(v, r.actions, r.units[i]);
    }
  }

  lemma TreatmentBinds(v: View, r: DecisionRequest, index: nat, t: Treatment)
    requires Issued(v, r) && index < |r.actions| && r.actions[index].kind.ApplyLineagePlan?
             && r.actions[index].plan.Some?
    requires t in r.actions[index].plan.value.treatments
    ensures BindTreatment(r, index, t).Some?
    ensures Reconfirms(t) ==>
              BindTreatment(r, index, t)
              == Some(t.(decisionRef := DecisionId(r.id, RECONFIRM),
                         derived := Some(Stamp(t.derived.value, [DecisionId(r.id, RECONFIRM)]))))
  {
    if Reconfirms(t) {
      ReconfirmationRequired(v, r.actions[index], t);
      MatchingUnits(v, r.actions, r.id, index, t.derived.value.Identity());
    }
  }

  lemma {:induction false} TreatmentsBind(v: View, r: DecisionRequest, index: nat, ts: seq<Treatment>)
    requires Issued(v, r) && index < |r.actions| && r.actions[index].kind.ApplyLineagePlan?
             && r.actions[index].plan.Some?
    requires forall t :: t in ts ==> t in r.actions[index].plan.value.treatments
    ensures BindTreatments(r, index, ts).Some?
  {
    if ts != [] {
      TreatmentsBind(v, r, index, ts[..|ts| - 1]);
      TreatmentBinds(v, r, index, ts[|ts| - 1]);
    }
  }

  lemma {:induction false} ActionsBind(v: View, r: DecisionRequest, n: nat)
    requires Issued(v, r) && n <= |r.actions|
    ensures BindActions(r, r.actions[..n]).Some?
  {
    if n > 0 {
      ActionsBind(v, r, n - 1);
      ActionBinds(v, r, n - 1);
      BoundOneMore(r, r.actions, n - 1, BindActions(r, r.actions[..n - 1]).value,
          BindAction(r, n - 1, r.actions[n - 1]).value);
    }
  }

  lemma ActionBinds(v: View, r: DecisionRequest, k: nat)
    requires Issued(v, r) && k < |r.actions|
    ensures BindAction(r, k, r.actions[k]).Some?
  {
    var a := r.actions[k];
    if a.kind.ApplyLineagePlan? && a.plan.Some? { TreatmentsBind(v, r, k, a.plan.value.treatments); }
  }

  /** Every RECONFIRM of a gated candidate matches exactly one Decision, so an approval of a
      request the gate issued can always be turned into a transition. */
  lemma ApprovalExists(v: View, r: DecisionRequest, actor: Actor, at: string)
    requires Issued(v, r)
    ensures Approval(r, actor, at).Some?
  {
    IssuedUnitsCurrent(v, r);
    ActionsBind(v, r, |r.actions|);
    assert r.actions[..|r.actions|] == r.actions;
  }

  // ---------------------------------------------------------------- the minted Decisions are found

  predicate Recorded(actions: seq<Action>, i: int, d: Object)
    requires 0 <= i < |actions|
  {
    actions[i].kind.RecordDecision? && actions[i].payload == Some(d)
  }

  predicate RecordsUnder(a: Action, id: string) {
    a.kind.RecordDecision? && a.payload.Some? && a.payload.value.id == id
  }

  lemma {:induction false} PoolHolds(stored: map<string, Object>, actions: seq<Action>, d: Object)
    requires d.id != "" && exists i :: 0 <= i < |actions| && Recorded(actions, i, d)
    requires forall i :: 0 <= i < |actions| && RecordsUnder(actions[i], d.id) ==> actions[i].payload == Some(d)
    ensures d.id in Pool(stored, actions) && Pool(stored, actions)[d.id] == d
  {
    var last := |actions| - 1;
    var front := actions[..last];
    if !RecordsUnder(actions[last], d.id) {
      var i :| 0 <= i < |actions| && Recorded(actions, i, d);
      assert Recorded(front, i, d);
      PoolHolds(stored, front, d);
    }
  }

  function Minted(r: DecisionRequest, human: string, at: string, g: Ref): Object {
    DecisionFor(r, human, at, g, Ordered(Subjects(r.units, g)))
  }

  lemma GroupsKnown(v: View, r: DecisionRequest, g: Ref)
    requires Issued(v, r) && g in Groups(r.units)
    ensures Plain(g.kind) && DecisionId(r.id, g) != ""
  {
    var u :| u in r.units && GroupOf(u) == g;
    UnitsAt(v, r.actions, u);
    RequiredKinds(v, u.action, u.requirement);
    KnownPlain(g.kind);
  }

  lemma BoundRecordsSame(r: DecisionRequest, index: nat, b: Action, id: string)
    requires index < |r.actions| && BindAction(r, index, r.actions[index]) == Some(b)
    ensures RecordsUnder(b, id) <==> RecordsUnder(r.actions[index], id)
  {
    BindingTransparent(r, index, r.actions[index]);
    if r.actions[index].payload.Some? { SameMaterial(r.actions[index].payload.value, b.payload.value); }
  }

  /** Among the recorded Decisions, each minted id occurs, and only for its own group. */
  lemma RecordsByGroup(v: View, r: DecisionRequest, human: string, at: string, g: Ref)
    requires Issued(v, r) && g in Groups(r.units)
    ensures var records, d := DecisionActions(r, human, at), Minted(r, human, at, g);
            && (exists i :: 0 <= i < |records| && Recorded(records, i, d))
            && forall i :: 0 <= i < |records| && RecordsUnder(records[i], d.id) ==> records[i].payload == Some(d)
  {
    var records, groups := DecisionActions(r, human, at), Ordered(Groups(r.units));
    var d := Minted(r, human, at, g);
    GroupsKnown(v, r, g);
    var k :| 0 <= k < |groups| && groups[k] == g;
    assert Recorded(records, k, d);
    forall i | 0 <= i < |records| && RecordsUnder(records[i], d.id) ensures records[i].payload == Some(d) {
      GroupsKnown(v, r, groups[i]);
      DecisionIdsDiffer(r.id, groups[i], g);
    }
  }

  lemma PoolOfBoth(stored: map<string, Object>, records: seq<Action>, bound: seq<Action>, d: Object)
    requires d.id != "" && exists i :: 0 <= i < |records| && Recorded(records, i, d)
    requires forall i :: 0 <= i < |records| && RecordsUnder(records[i], d.id) ==> records[i].payload == Some(d)
    requires forall i :: 0 <= i < |bound| ==> !RecordsUnder(bound[i], d.id)
    ensures d.id in Pool(stored, records + bound) && Pool(stored, records + bound)[d.id] == d
  {
    var all := records + bound;
    var k :| 0 <= k < |records| && Recorded(records, k, d);
    assert Recorded(all, k, d);
    assert forall i :: |records| <= i < |all| ==> all[i] == bound[i - |records|];
    PoolHolds(stored, all, d);
  }

  lemma PoolHasMinted(v: View, r: DecisionRequest, human: string, at: string, bound: seq<Action>, g: Ref)
    requires Issued(v, r) && FreshIds(v, r) && BindActions(r, r.actions) == Some(bound) && g in Groups(r.units)
    ensures var pool := Pool(v.decisions, DecisionActions(r, human, at) + bound);
            DecisionId(r.id, g) in pool && pool[DecisionId(r.id, g)] == Minted(r, human, at, g)
  {
    var d := Minted(r, human, at, g);
    GroupsKnown(v, r, g);
    RecordsByGroup(v, r, human, at, g);
    BoundActions(r, r.actions);
    forall i | 0 <= i < |bound| ensures !RecordsUnder(bound[i], d.id) {
      BoundRecordsSame(r, i, bound[i], d.id);
      assert Mints(r, d.id) && !RecordsUnder(r.actions[i], d.id);
    }
    PoolOfBoth(v.decisions, DecisionActions(r, human, at), bound, d);
  }

  // ---------------------------------------------------------------- each requirement is answered

  lemma RefsOfAction(v: View, r: DecisionRequest, index: nat, ref: string)
    requires Issued(v, r) && index < |r.actions|
    ensures ref in RefsAt(r, index) <==>
              exists q :: q in Required(v, r.actions[index]) && ref == DecisionId(r.id, Ref(q.decisionKind, q.choice))
  {
    if ref in RefsAt(r, index) {
      var u :| u in r.units && u.index == index && ref == DecisionId(r.id, GroupOf(u));
      UnitsAt(v, r.actions, u);
    }
    if q :| q in Required(v, r.actions[index]) && ref == DecisionId(r.id, Ref(q.decisionKind, q.choice)) {
      var u := Unit(index, r.actions[index], q);
      UnitsAt(v, r.actions, u);
      assert ref == DecisionId(r.id, GroupOf(u));
    }
  }

  lemma RequirementGrouped(v: View, r: DecisionRequest, index: nat, q: Requirement)
    requires Issued(v, r) && index < |r.actions| && q in Required(v, r.actions[index])
    ensures var g := Ref(q.decisionKind, q.choice); g in Groups(r.units) && q.subject in Subjects(r.units, g)
  {
    var u := Unit(index, r.actions[index], q);
    UnitsAt(v, r.actions, u);
    assert GroupOf(u) == Ref(q.decisionKind, q.choice);
  }

  /** A Decision of the pool that was minted for requirement `q` and answers it. */
  ghost predicate Settles(pool: map<string, Object>, r: DecisionRequest, q: Requirement) {
    var ref := DecisionId(r.id, Ref(q.decisionKind, q.choice));
    && ref in pool
    && pool[ref].Says("actor_type", "human") && pool[ref].Says("project_id", r.project)
    && pool[ref].Says("decision_kind", q.decisionKind) && pool[ref].Says("choice", q.choice)
    && pool[ref].Names(q.subject.kind, q.subject.id)
  }

  lemma MintedIsAnswer(r: DecisionRequest, human: string, at: string, q: Requirement, pool: map<string, Object>)
    requires var g := Ref(q.decisionKind, q.choice);
             q.subject in Subjects(r.units, g)
             && DecisionId(r.id, g) in pool && pool[DecisionId(r.id, g)] == Minted(r, human, at, g)
    ensures Settles(pool, r, q)
  {
    assert q.subject in Ordered(Subjects(r.units, Ref(q.decisionKind, q.choice)));
  }

  lemma MintedSettles(v: View, r: DecisionRequest, human: string, at: string, bound: seq<Action>, index: nat,
                      q: Requirement)
    requires Issued(v, r) && FreshIds(v, r) && BindActions(r, r.actions) == Some(bound)
    requires index < |r.actions| && q in Required(v, r.actions[index])
    ensures Settles(Pool(v.decisions, DecisionActions(r, human, at) + bound), r, q)
    ensures DecisionId(r.id, Ref(q.decisionKind, q.choice)) !in v.used
  {
    var g := Ref(q.decisionKind, q.choice);
    RequirementGrouped(v, r, index, q);
    PoolHasMinted(v, r, human, at, bound, g);
    MintedIsAnswer(r, human, at, q, Pool(v.decisions, DecisionActions(r, human, at) + bound));
  }

  lemma BoundCites(v: View, r: DecisionRequest, index: nat, b: Action)
    requires Issued(v, r) && index < |r.actions| && BindAction(r, index, r.actions[index]) == Some(b)
    ensures b.decisionRefs == RefsAt(r, index)
    ensures b.payload.Some? ==> forall ref :: ref in b.decisionRefs ==> ref in b.payload.value.List("decision_ids")
  {
  }

  /** Each of these needs has its own unused, minted answer in the pool. */
  ghost predicate Settled(pool: map<string, Object>, v: View, r: DecisionRequest, needs: seq<Requirement>) {
    forall q :: q in needs ==> Settles(pool, r, q) && DecisionId(r.id, Ref(q.decisionKind, q.choice)) !in v.used
  }

  lemma SettledAnswered(pool: map<string, Object>, v: View, r: DecisionRequest, b: Action, q: Requirement)
    requires var ref := DecisionId(r.id, Ref(q.decisionKind, q.choice));
             Settles(pool, r, q) && ref !in v.used && ref in b.decisionRefs
             && (b.payload.Some? ==> ref in b.payload.value.List("decision_ids"))
    ensures !Unanswered(pool, v, r.project, b, q)
  {
    var ref := DecisionId(r.id, Ref(q.decisionKind, q.choice));
    var k :| 0 <= k < |b.decisionRefs| && b.decisionRefs[k] == ref;
    assert Answers(pool, v, r.project, b, q, b.decisionRefs[k]);
  }

  lemma SettledReferenceClean(pool: map<string, Object>, v: View, r: DecisionRequest, b: Action, q: Requirement)
    requires Settles(pool, r, q) && DecisionId(r.id, Ref(q.decisionKind, q.choice)) !in v.used
    requires !b.IsSpecial() && b.TargetRef().Some? ==> q.subject == b.TargetRef().value
    ensures ReferenceCodes(pool, v, b, DecisionId(r.id, Ref(q.decisionKind, q.choice))) == {}
  {
  }

  lemma BoundEffect(v: View, r: DecisionRequest, index: nat, b: Action)
    requires index < |r.actions| && BindAction(r, index, r.actions[index]) == Some(b)
    ensures Required(v, b) == Required(v, r.actions[index]) && b.kind == r.actions[index].kind
  {
    BindingTransparent(r, index, r.actions[index]);
    RequirementsUnchanged(v, r.actions[index], b);
  }

  lemma TargetNeeded(v: View, b: Action, q: Requirement)
    requires q in Required(v, b) && !b.IsSpecial() && b.TargetRef().Some?
    ensures q.subject == b.TargetRef().value
  {
    RequiredKinds(v, b, q);
  }

  lemma BoundReferences(v: View, r: DecisionRequest, index: nat, b: Action, ref: string)
    requires Issued(v, r) && index < |r.actions| && BindAction(r, index, r.actions[index]) == Some(b)
    ensures ref in b.decisionRefs <==>
              exists q :: q in Required(v, b) && ref == DecisionId(r.id, Ref(q.decisionKind, q.choice))
    ensures ref in b.decisionRefs && b.payload.Some? ==> ref in b.payload.value.List("decision_ids")
  {
    BoundCites(v, r, index, b);
    BoundEffect(v, r, index, b);
    RefsOfAction(v, r, index, ref);
  }

  lemma BoundActionClean(v: View, r: DecisionRequest, pool: map<string, Object>, index: nat, b: Action)
    requires Issued(v, r) && index < |r.actions| && BindAction(r, index, r.actions[index]) == Some(b)
    requires Settled(pool, v, r, Required(v, b))
    ensures ActionDecisionCodes(pool, v, r.project, b) == {}
  {
    forall q | q in Required(v, b) ensures !Unanswered(pool, v, r.project, b, q) {
      BoundReferences(v, r, index, b, DecisionId(r.id, Ref(q.decisionKind, q.choice)));
      SettledAnswered(pool, v, r, b, q);
    }
    forall ref | ref in b.decisionRefs ensures ReferenceCodes(pool, v, b, ref) == {} {
      BoundReferences(v, r, index, b, ref);
      var q :| q in Required(v, b) && ref == DecisionId(r.id, Ref(q.decisionKind, q.choice));
      if !b.IsSpecial() && b.TargetRef().Some? { TargetNeeded(v, b, q); }
      SettledReferenceClean(pool, v, r, b, q);
    }
    CleanByParts(pool, v, r.project, b);
  }

  lemma RecordClean(v: View, pool: map<string, Object>, project: string, d: Object)
    requires d.kind == "decision"
    ensures ActionDecisionCodes(pool, v, project, Record(d)) == {}
  {
    assert ObjectRequirements(v.Latest(d.kind, d.id), d) == [];
    assert Required(v, Record(d)) == [];
  }

  // ---------------------------------------------------------------- gate completeness

  lemma NoDecisionCodes(v: View, t: Request)
    requires forall i :: 0 <= i < |t.actions| ==>
               ActionDecisionCodes(Pool(v.decisions, t.actions), v, t.project, t.actions[i]) == {}
    ensures HumanDecisionCodes(v, t) == {}
  {
  }

  lemma ActionsClean(v: View, r: DecisionRequest, human: string, at: string, bound: seq<Action>,
                     pool: map<string, Object>)
    requires Issued(v, r) && BindActions(r, r.actions) == Some(bound)
    requires |bound| == |r.actions| && forall i :: 0 <= i < |bound| ==> Settled(pool, v, r, Required(v, bound[i]))
    ensures var all := DecisionActions(r, human, at) + bound;
            forall i :: 0 <= i < |all| ==> ActionDecisionCodes(pool, v, r.project, all[i]) == {}
  {
    var records := DecisionActions(r, human, at);
    BoundActions(r, r.actions);
    forall i | 0 <= i < |records| ensures ActionDecisionCodes(pool, v, r.project, records[i]) == {} {
      RecordClean(v, pool, r.project, records[i].payload.value);
    }
    forall i | 0 <= i < |bound| ensures ActionDecisionCodes(pool, v, r.project, bound[i]) == {} {
      BoundActionClean(v, r, pool, i, bound[i]);
    }
  }

  lemma PoolSettles(v: View, r: DecisionRequest, human: string, at: string, bound: seq<Action>, i: nat)
    requires Issued(v, r) && FreshIds(v, r) && BindActions(r, r.actions) == Some(bound)
    requires i < |r.actions| == |bound|
    ensures Settled(Pool(v.decisions, DecisionActions(r, human, at) + bound), v, r, Required(v, bound[i]))
  {
    BoundActions(r, r.actions);
    BoundEffect(v, r, i, bound[i]);
    forall q | q in Required(v, r.actions[i])
      ensures Settles(Pool(v.decisions, DecisionActions(r, human, at) + bound), r, q)
      ensures DecisionId(r.id, Ref(q.decisionKind, q.choice)) !in v.used
    {
      MintedSettles(v, r, human, at, bound, i, q);
    }
  }

  lemma DecisionsComplete(v: View, r: DecisionRequest, human: string, at: string, bound: seq<Action>, t: Request)
    requires Issued(v, r) && FreshIds(v, r) && BindActions(r, r.actions) == Some(bound)
    requires t.actions == DecisionActions(r, human, at) + bound && t.project == r.project
    ensures HumanDecisionCodes(v, t) == {}
  {
    BoundActions(r, r.actions);
    forall i | 0 <= i < |bound| ensures Settled(Pool(v.decisions, t.actions), v, r, Required(v, bound[i])) {
      PoolSettles(v, r, human, at, bound, i);
    }
    ActionsClean(v, r, human, at, bound, Pool(v.decisions, t.actions));
    NoDecisionCodes(v, t);
  }

  /** The approved transition, judged on the state the request was issued for. */
  lemma ApprovalDecisionsComplete(v: View, r: DecisionRequest, actor: Actor, at: string)
    requires Issued(v, r) && FreshIds(v, r)
    ensures Approval(r, actor, at).Some? && HumanDecisionCodes(v, Approval(r, actor, at).value) == {}
  {
    ApprovalExists(v, r, actor, at);
    DecisionsComplete(v, r, actor.id, at, BindActions(r, r.actions).value, Approval(r, actor, at).value);
  }

  /** A RECONFIRM treatment without a derived object: nothing in the gate looks for it. */
  predicate Underived(a: Action) {
    a.kind.ApplyLineagePlan? && a.plan.Some?
    && exists i :: 0 <= i < |a.plan.value.treatments| && MissesDerived(a.plan.value.treatments[i])
  }

  predicate MissesDerived(t: Treatment) { t.treatment == "RECONFIRM" && t.derived.None? }

  predicate Provenance(code: string) { code == "RT-LINEAGE-013" || code == "RT-LINEAGE-014" }

  lemma PlanProvenanceCodes(v: View, t: Request, a: Action, p: Plan, code: string)
    requires Provenance(code)
    ensures code in PlanCodes(v, t, a, p) <==>
              exists j :: 0 <= j < |p.treatments| && code in TreatmentCodes(a, p.treatments[j])
  {
  }

  lemma LineageProvenanceCodes(v: View, t: Request, code: string)
    requires Provenance(code)
    ensures code in LineageCodes(v, t) <==>
              exists i :: 0 <= i < |t.actions| && code in ActionLineageCodes(v, t, t.actions[i])
  {
  }

  lemma PlainTreatmentCodes(a: Action, t: Treatment)
    requires !Reconfirms(t)
    ensures "RT-LINEAGE-014" !in TreatmentCodes(a, t)
            && ("RT-LINEAGE-013" in TreatmentCodes(a, t) <==> MissesDerived(t))
  {
  }

  lemma ProvenTreatmentCodes(a: Action, t: Treatment)
    requires Reconfirms(t) && t.decisionRef != "" && !Unprovenanced(a, t)
    ensures "RT-LINEAGE-014" !in TreatmentCodes(a, t) && "RT-LINEAGE-013" !in TreatmentCodes(a, t)
  {
  }

  lemma BoundTreatmentCodes(v: View, r: DecisionRequest, index: nat, t: Treatment, b: Action)
    requires Issued(v, r) && index < |r.actions| && r.actions[index].kind.ApplyLineagePlan?
             && r.actions[index].plan.Some?
    requires t in r.actions[index].plan.value.treatments && b.decisionRefs == RefsAt(r, index)
    ensures BindTreatment(r, index, t).Some?
    ensures var codes := TreatmentCodes(b, BindTreatment(r, index, t).value);
            "RT-LINEAGE-014" !in codes && ("RT-LINEAGE-013" in codes <==> MissesDerived(t))
  {
    TreatmentBinds(v, r, index, t);
    if Reconfirms(t) {
      var ref := DecisionId(r.id, RECONFIRM);
      ReconfirmationRequired(v, r.actions[index], t);
      RefsOfAction(v, r, index, ref);
      assert ref in Stamp(t.derived.value, [ref]).List("decision_ids");
      ProvenTreatmentCodes(b, BindTreatment(r, index, t).value);
    } else {
      PlainTreatmentCodes(b, t);
    }
  }

  lemma BoundTreatmentsCodes(v: View, t: Request, r: DecisionRequest, index: nat, b: Action, p: Plan)
    requires Issued(v, r) && index < |r.actions| && r.actions[index].kind.ApplyLineagePlan?
             && r.actions[index].plan.Some?
    requires b.decisionRefs == RefsAt(r, index)
    requires BindTreatments(r, index, r.actions[index].plan.value.treatments) == Some(p.treatments)
    ensures "RT-LINEAGE-014" !in PlanCodes(v, t, b, p)
    ensures "RT-LINEAGE-013" in PlanCodes(v, t, b, p) <==> Underived(r.actions[index])
  {
    var ts := r.actions[index].plan.value.treatments;
    BoundTreatments(r, index, ts);
    forall j | 0 <= j < |ts|
      ensures "RT-LINEAGE-014" !in TreatmentCodes(b, p.treatments[j])
      ensures "RT-LINEAGE-013" in TreatmentCodes(b, p.treatments[j]) <==> MissesDerived(ts[j])
    {
      BoundTreatmentCodes(v, r, index, ts[j], b);
    }
    PlanProvenanceCodes(v, t, b, p, "RT-LINEAGE-013");
    PlanProvenanceCodes(v, t, b, p, "RT-LINEAGE-014");
  }

  lemma BoundPlanForm(r: DecisionRequest, index: nat, a: Action, b: Action)
    requires BindAction(r, index, a) == Some(b)
    ensures b.kind == a.kind && b.decisionRefs == RefsAt(r, index) && (b.plan.Some? <==> a.plan.Some?)
    ensures a.kind.ApplyLineagePlan? && a.plan.Some? ==>
              BindTreatments(r, index, a.plan.value.treatments) == Some(b.plan.value.treatments)
  {
  }

  lemma OtherLineageCodes(v: View, t: Request, b: Action)
    requires !(b.kind.ApplyLineagePlan? && b.plan.Some?)
    ensures var codes := ActionLineageCodes(v, t, b); "RT-LINEAGE-014" !in codes && "RT-LINEAGE-013" !in codes
  {
  }

  lemma BoundPlanCodes(v: View, t: Request, r: DecisionRequest, index: nat, b: Action)
    requires Issued(v, r) && index < |r.actions| && BindAction(r, index, r.actions[index]) == Some(b)
    ensures var codes := ActionLineageCodes(v, t, b);
            "RT-LINEAGE-014" !in codes && ("RT-LINEAGE-013" in codes <==> Underived(r.actions[index]))
  {
    BoundPlanForm(r, index, r.actions[index], b);
    if b.kind.ApplyLineagePlan? && b.plan.Some? {
      BoundTreatmentsCodes(v, t, r, index, b, b.plan.value);
    } else {
      OtherLineageCodes(v, t, b);
    }
  }

  /** The codes of all actions of a transition that records Decisions and then acts. */
  lemma TransitionProvenanceCodes(v: View, t: Request, records: seq<Action>, bound: seq<Action>, code: string)
    requires Provenance(code) && t.actions == records + bound
    requires forall i :: 0 <= i < |records| ==> records[i].kind.RecordDecision?
    ensures code in LineageCodes(v, t) <==>
              exists i :: 0 <= i < |bound| && code in ActionLineageCodes(v, t, bound[i])
  {
    LineageProvenanceCodes(v, t, code);
    forall i | 0 <= i < |records| ensures code !in ActionLineageCodes(v, t, t.actions[i]) {
      OtherLineageCodes(v, t, records[i]);
    }
    if i :| 0 <= i < |t.actions| && code in ActionLineageCodes(v, t, t.actions[i]) {
      assert t.actions[i] == bound[i - |records|];
    }
    if i :| 0 <= i < |bound| && code in ActionLineageCodes(v, t, bound[i]) {
      assert t.actions[|records| + i] == bound[i];
    }
  }

  /** The approved plan never lacks its reconfirmation provenance; it lacks a bound
      reconfirmation exactly when the candidate left out a derived object. */
  lemma ApprovalLineageCodes(v: View, r: DecisionRequest, actor: Actor, at: string)
    requires Issued(v, r)
    ensures Approval(r, actor, at).Some?
    ensures var codes := LineageCodes(v, Approval(r, actor, at).value);
            "RT-LINEAGE-014" !in codes
            && ("RT-LINEAGE-013" in codes <==> exists i :: 0 <= i < |r.actions| && Underived(r.actions[i]))
  {
    ApprovalExists(v, r, actor, at);
    var t, bound := Approval(r, actor, at).value, BindActions(r, r.actions).value;
    var records := DecisionActions(r, actor.id, at);
    BoundActions(r, r.actions);
    forall i | 0 <= i < |bound|
      ensures "RT-LINEAGE-014" !in ActionLineageCodes(v, t, bound[i])
      ensures "RT-LINEAGE-013" in ActionLineageCodes(v, t, bound[i]) <==> Underived(r.actions[i])
    {
      BoundPlanCodes(v, t, r, i, bound[i]);
    }
    TransitionProvenanceCodes(v, t, records, bound, "RT-LINEAGE-013");
    TransitionProvenanceCodes(v, t, records, bound, "RT-LINEAGE-014");
  }

  /** Gate completeness, from the gate's own answer. */
  lemma GateIsComplete(v: View, c: Candidate, proposer: Actor, human: Actor, authorization: seq<string>,
                       id: string, issuedAt: string, at: string)
    requires Gate(v, c, proposer, authorization, id, issuedAt).DecisionRequired?
    requires FreshIds(v, Gate(v, c, proposer, authorization, id, issuedAt).request)
    ensures var r := Gate(v, c, proposer, authorization, id, issuedAt).request;
            && Approval(r, human, at).Some?
            && HumanDecisionCodes(v, Approval(r, human, at).value) == {}
            && "RT-LINEAGE-014" !in LineageCodes(v, Approval(r, human, at).value)
            && ("RT-LINEAGE-013" in LineageCodes(v, Approval(r, human, at).value) <==>
                exists i :: 0 <= i < |c.actions| && Underived(c.actions[i]))
  {
    var r := Gate(v, c, proposer, authorization, id, issuedAt).request;
    ApprovalDecisionsComplete(v, r, human, at);
    ApprovalLineageCodes(v, r, human, at);
  }

  /** A plan that reconfirms one method with its next revision and another without any. */
  const HALF := Action(
    ApplyLineagePlan, None, None,
    Some(Plan("PLAN", "CHILD", "exploratory_fork", Pin("S", Unsealed),
              [Treatment("method", "M", "RECONFIRM",
                         Some(Object("method", "M", 1, map[], map[], map[], map[], Unsealed)), "M", ""),
               Treatment("method", "N", "RECONFIRM", None, "", "")],
              "", [], None)),
    "", [], [])

  lemma PlanNeedsDecision(v: View, a: Action)
    requires a.kind.ApplyLineagePlan? && a.plan.Some?
    ensures Requirement("lineage_plan", "apply", Ref("lineage_plan", a.plan.value.planRef)) in Required(v, a)
  {
    assert Requirement("lineage_plan", "apply", Ref("lineage_plan", a.plan.value.planRef)) in PlanRequirements(a.plan);
  }

  lemma HalfIsHonest(v: View)
    ensures AllHonest(v, [HALF]) && Underived(HALF)
  {
    assert HALF.plan.value.treatments[0].derived.value.List("decision_ids") == [];
    assert MissesDerived(HALF.plan.value.treatments[1]);
  }

  /** So in every state the gate asks for Decisions on such a plan, and what it builds from the
      approval is refused. */
  lemma UnderivedIsApprovedInVain(v: View, proposer: Actor, human: Actor, authorization: seq<string>,
                                  id: string, issuedAt: string, at: string)
    ensures var c := Candidate("C", v.project, v.lineage, v.Head(), [HALF]);
            var gated := Gate(v, c, proposer, authorization, id, issuedAt);
            && gated.DecisionRequired? && Approval(gated.request, human, at).Some?
            && "RT-LINEAGE-013" in LineageCodes(v, Approval(gated.request, human, at).value)
  {
    var r := HalfIsGated(v, proposer, authorization, id, issuedAt);
    HalfIsHonest(v);
    ApprovalLineageCodes(v, r, human, at);
    assert Underived(r.actions[0]);
  }

  lemma HalfIsGated(v: View, proposer: Actor, authorization: seq<string>, id: string, issuedAt: string)
    returns (r: DecisionRequest)
    ensures var c := Candidate("C", v.project, v.lineage, v.Head(), [HALF]);
            Gate(v, c, proposer, authorization, id, issuedAt) == DecisionRequired(r)
    ensures Issued(v, r) && r.actions == [HALF]
  {
    var c := Candidate("C", v.project, v.lineage, v.Head(), [HALF]);
    HalfIsHonest(v);
    PlanNeedsDecision(v, HALF);
    var q := Requirement("lineage_plan", "apply", Ref("lineage_plan", "PLAN"));
    UnitsAt(v, c.actions, Unit(0, HALF, q));
    r := RequestFor(v, c, proposer.id, id);
  }

  /** Without approval nothing is authorized: the candidate itself is refused whenever the gate
      asks for a Decision. */
  lemma UnapprovedIsRefused(v: View, c: Candidate, t: Request)
    requires AllHonest(v, c.actions) && UnitsOf(v, c.actions) != [] && t.actions == c.actions
    ensures "RT-DECISION-001" in HumanDecisionCodes(v, t)
  {
    var u := UnitsOf(v, c.actions)[0];
    UnitsAt(v, c.actions, u);
    var a, pool := c.actions[u.index], Pool(v.decisions, t.actions);
    assert Honest(v, a);
    var j :| 0 <= j < |Required(v, a)| && Required(v, a)[j] == u.requirement;
    assert Unanswered(pool, v, t.project, a, Required(v, a)[j]);
    assert "RT-DECISION-001" in ActionDecisionCodes(pool, v, t.project, t.actions[u.index]);
  }
}
