/** When the reducer refuses a request, read off the request's fields (core/runtime/state_reducer.py:104-352). */
module ReductionRules {
  import opened Common
  import opened Records
  import opened Authority
  import opened Reducer
  import opened LineageRules

  // ---------------------------------------------------------------- single actions

  function FieldOf(o: Object, f: string): Option<string> { if f in o.text then Some(o.text[f]) else None }

  /** The object is what the kind of action says it makes of it. */
  predicate Meets(kind: ActionKind, o: Object) {
    && (kind == AdoptObject ==> FieldOf(o, "adoption_state") == Some("approved"))
    && (kind == RejectObject ==> FieldOf(o, "adoption_state") == Some("rejected"))
    && (kind == VerifyEvidence ==> FieldOf(o, "verification_status") == Some("verified"))
    && (kind == ReclassifyEvidence ==> o.kind == "evidence")
    && (kind == RecordDecision ==> o.kind == "decision")
    && (kind == RegisterWritingFeedbackAction ==> o.kind == "next_action")
  }

  /** It is a first revision where the kind of action creates, and the next one where it revises. */
  predicate Succeeds(v: View, kind: ActionKind, o: Object) {
    var prior := v.Latest(o.kind, o.id);
    if prior.None? then
      o.revision == 0 && (kind == CreateObject || kind == RecordDecision || kind == RegisterWritingFeedbackAction)
    else o.revision == prior.value.revision + 1 && kind != CreateObject && kind != RecordDecision
  }

  predicate Works(v: View, a: Action) {
    if a.kind == RecordRunResultAdoption then exists ref :: ref in a.adoptionRefs
    else a.payload.Some? && Meets(a.kind, a.payload.value) && Succeeds(v, a.kind, a.payload.value)
  }

  lemma WorksExactly(v: View, a: Action)
    ensures ActionAccepted(v, a) <==> Works(v, a)
  {
    if a.kind.RecordRunResultAdoption? && a.adoptionRefs != [] { assert a.adoptionRefs[0] in a.adoptionRefs; }
  }

  /** No two actions record a Decision under one id. */
  predicate RecordsOnce(actions: seq<Action>) {
    forall i, j :: 0 <= i < j < |actions| && Recording(actions[i]) && Recording(actions[j]) ==>
      actions[i].payload.value.id != actions[j].payload.value.id
  }

  predicate Recording(a: Action) { a.kind == RecordDecision && a.payload.Some? }

  lemma {:induction false} RecordedIds(actions: seq<Action>, id: string)
    ensures (exists o :: o in DecisionsOf(actions) && o.id == id)
       <==> exists i :: 0 <= i < |actions| && Recording(actions[i]) && actions[i].payload.value.id == id
  {
    if actions != [] {
      var front, last := actions[..|actions| - 1], actions[|actions| - 1];
      RecordedIds(front, id);
      if o :| o in DecisionsOf(actions) && o.id == id {
        if o in DecisionsOf(front) {
          var i :| 0 <= i < |front| && Recording(front[i]) && front[i].payload.value.id == id;
          assert Recording(actions[i]);
        } else {
          assert Recording(actions[|actions| - 1]);
        }
      }
      if i :| 0 <= i < |actions| && Recording(actions[i]) && actions[i].payload.value.id == id {
        RecordedLast(actions, i);
      }
    }
  }

  lemma RecordedLast(actions: seq<Action>, i: nat)
    requires i < |actions| && Recording(actions[i])
    requires i < |actions| - 1 ==>
               exists o :: o in DecisionsOf(actions[..|actions| - 1]) && o.id == actions[i].payload.value.id
    ensures exists o :: o in DecisionsOf(actions) && o.id == actions[i].payload.value.id
  {
    var front := actions[..|actions| - 1];
    if i < |front| {
      var o :| o in DecisionsOf(front) && o.id == actions[i].payload.value.id;
      assert o in DecisionsOf(actions);
    } else {
      assert actions[i].payload.value in DecisionsOf(actions);
    }
  }

  lemma {:induction false} OnceExactly(actions: seq<Action>)
    ensures DistinctIds(DecisionsOf(actions)) <==> RecordsOnce(actions)
  {
    if actions != [] {
      var last := |actions| - 1;
      var front := actions[..last];
      OnceExactly(front);
      FrontOnce(actions);
      if Recording(actions[last]) {
        var id := actions[last].payload.value.id;
        RecordedIds(front, id);
        DistinctMore(DecisionsOf(front), actions[last].payload.value);
        assert (forall x :: x in DecisionsOf(front) ==> x.id != id)
          <==> forall i :: 0 <= i < last && Recording(front[i]) ==> front[i].payload.value.id != id;
        assert forall i :: 0 <= i < last ==> front[i] == actions[i];
      } else {
        assert DecisionsOf(actions) == DecisionsOf(front);
      }
    }
  }

  lemma FrontOnce(actions: seq<Action>)
    requires actions != []
    ensures var last := |actions| - 1;
            RecordsOnce(actions) <==>
              RecordsOnce(actions[..last])
              && (Recording(actions[last]) ==>
                    forall i :: 0 <= i < last && Recording(actions[i]) ==>
                      actions[i].payload.value.id != actions[last].payload.value.id)
  {
    assert forall i :: 0 <= i < |actions| - 1 ==> actions[..|actions| - 1][i] == actions[i];
  }

  lemma DistinctMore(objs: seq<Object>, o: Object)
    ensures DistinctIds(objs + [o]) <==> DistinctIds(objs) && forall x :: x in objs ==> x.id != o.id
  {
    var all := objs + [o];
    if DistinctIds(all) {
      forall i, j | 0 <= i < j < |objs| ensures objs[i].id != objs[j].id {
        assert all[i] == objs[i] && all[j] == objs[j];
      }
      forall x | x in objs ensures x.id != o.id {
        var i :| 0 <= i < |objs| && objs[i] == x;
        assert all[i].id != all[|objs|].id;
      }
    }
  }

  // ---------------------------------------------------------------- plans

  /** The derived object keeps its source's kind, is named after it or by the treatment, and is the next
      revision of what is stored under its identity. */
  predicate DerivesWell(v: View, t: Treatment) {
    && t.derived.Some?
    && t.derived.value.kind == t.objectKind && t.derived.value.id != ""
    && (t.derived.value.id == t.sourceRef || t.derived.value.id == t.derivedRef)
    && (t.derivedRef == "" || t.derived.value.id == t.derivedRef)
    && var prior := v.Latest(t.derived.value.kind, t.derived.value.id);
       t.derived.value.revision >= 0
       && t.derived.value.revision == (if prior.Some? then prior.value.revision + 1 else 0)
  }

  predicate TreatsWell(v: View, t: Treatment) {
    && t.objectKind != "" && t.sourceRef != "" && t.treatment in TREATMENTS
    && (t.treatment == "RECONFIRM" ==> DerivesWell(v, t))
  }

  /** Each treatment is of a member and each member has exactly one. */
  predicate TreatsMembersOnce(p: Plan, members: map<Ref, Row>) {
    && (forall t :: t in p.treatments ==> Ref(t.objectKind, t.sourceRef) in members)
    && (forall m :: m in members ==> exists t :: t in p.treatments && AboutMember(t, m))
    && forall i, j :: 0 <= i < j < |p.treatments| ==>
         !(p.treatments[i].objectKind == p.treatments[j].objectKind
           && p.treatments[i].sourceRef == p.treatments[j].sourceRef)
  }

  predicate PlanWorks(v: View, p: Plan) {
    && p.targetLineage != "" && p.lineageKind != ""
    && TreatsMembersOnce(p, v.snapshot.members)
    && (forall t :: t in p.treatments ==> TreatsWell(v, t))
    && forall m :: m in v.snapshot.members ==> Key(m.kind, m.id, v.snapshot.members[m].revision) in v.objects
  }

  lemma {:induction false} FirstTreatment(treatments: seq<Treatment>, m: Ref)
    ensures TreatmentOf(treatments, m).Some? <==> exists t :: t in treatments && AboutMember(t, m)
    ensures TreatmentOf(treatments, m).Some? ==>
              TreatmentOf(treatments, m).value in treatments && AboutMember(TreatmentOf(treatments, m).value, m)
  {
    if treatments != [] {
      FirstTreatment(treatments[1..], m);
      forall t ensures t in treatments <==> t == treatments[0] || t in treatments[1..] {
        assert treatments == [treatments[0]] + treatments[1..];
      }
      var first := TreatmentOf(treatments, m);
      if first.Some? {
        assert first.value in treatments && AboutMember(first.value, m);
      } else {
        assert !AboutMember(treatments[0], m);
      }
    }
  }

  lemma OnlyTreatment(treatments: seq<Treatment>, t: Treatment)
    requires TreatmentsDistinct(treatments) && t in treatments
    ensures TreatmentOf(treatments, Ref(t.objectKind, t.sourceRef)) == Some(t)
  {
    var m := Ref(t.objectKind, t.sourceRef);
    FirstTreatment(treatments, m);
    assert AboutMember(t, m);
    var u := TreatmentOf(treatments, m).value;
    var i :| 0 <= i < |treatments| && treatments[i] == t;
    var j :| 0 <= j < |treatments| && treatments[j] == u;
    assert i == j;
  }

  lemma DerivesExactly(v: View, m: Ref, t: Treatment)
    requires AboutMember(t, m) && t.derived.Some?
    ensures DerivedAccepted(v, m, t, t.derived.value) <==> DerivesWell(v, t)
  {
  }

  lemma AcceptedWorks(v: View, p: Plan)
    requires PlanAccepted(v, p)
    ensures PlanWorks(v, p)
  {
    forall t | t in p.treatments ensures TreatsWell(v, t) && Ref(t.objectKind, t.sourceRef) in v.snapshot.members {
      var i :| 0 <= i < |p.treatments| && p.treatments[i] == t;
      var m := Ref(t.objectKind, t.sourceRef);
      OnlyTreatment(p.treatments, t);
      assert MemberAccepted(v, p, m);
      if t.treatment == "RECONFIRM" { DerivesExactly(v, m, t); }
    }
    forall m | m in v.snapshot.members
      ensures Key(m.kind, m.id, v.snapshot.members[m].revision) in v.objects
      ensures exists t :: t in p.treatments && AboutMember(t, m)
    {
      assert MemberAccepted(v, p, m);
      FirstTreatment(p.treatments, m);
    }
  }

  lemma WorksAccepted(v: View, p: Plan)
    requires PlanWorks(v, p)
    ensures PlanAccepted(v, p)
  {
    forall i, j | 0 <= i < j < |p.treatments|
      ensures Ref(p.treatments[i].objectKind, p.treatments[i].sourceRef)
           != Ref(p.treatments[j].objectKind, p.treatments[j].sourceRef)
    {}
    forall m | m in v.snapshot.members ensures MemberAccepted(v, p, m) {
      FirstTreatment(p.treatments, m);
      var t := TreatmentOf(p.treatments, m).value;
      assert TreatsWell(v, t);
      if t.treatment == "RECONFIRM" { DerivesExactly(v, m, t); }
    }
    forall i | 0 <= i < |p.treatments|
      ensures p.treatments[i].objectKind != "" && p.treatments[i].sourceRef != ""
              && Ref(p.treatments[i].objectKind, p.treatments[i].sourceRef) in v.snapshot.members
    {
      assert TreatsWell(v, p.treatments[i]);
    }
  }

  // ---------------------------------------------------------------- requests

  /** Action `i` alone does not record a Decision. */
  predicate Sole(actions: seq<Action>, i: int) {
    && 0 <= i < |actions| && actions[i].kind != RecordDecision
    && forall k :: 0 <= k < |actions| && k != i ==> actions[k].kind == RecordDecision
  }

  predicate RecordsWell(v: View, actions: seq<Action>) {
    && RecordsOnce(actions)
    && forall i :: 0 <= i < |actions| && actions[i].kind == RecordDecision ==> Works(v, actions[i])
  }

  predicate HasKind(actions: seq<Action>, kind: ActionKind) {
    exists i :: 0 <= i < |actions| && actions[i].kind == kind
  }

  ghost predicate SolePlanWorks(v: View, actions: seq<Action>) {
    exists i :: Sole(actions, i) && actions[i].plan.Some? && PlanWorks(v, actions[i].plan.value)
  }

  /** A plan or a switch stands alone beside recorded Decisions and can be carried out; any other request has
      actions that each work. */
  ghost predicate Reducible(v: View, req: Request) {
    if HasKind(req.actions, ApplyLineagePlan) then
      SolePlanWorks(v, req.actions) && req.lineage in v.lineages && RecordsWell(v, req.actions)
    else if HasKind(req.actions, SwitchActiveLineage) then
      (exists i :: Sole(req.actions, i) && req.actions[i].switchTarget != "") && RecordsWell(v, req.actions)
    else
      && req.actions != [] && (forall i :: 0 <= i < |req.actions| ==> Works(v, req.actions[i]))
      && RecordsOnce(req.actions) && req.lineage in v.lineages
  }

  lemma {:induction false} SemanticEmpty(actions: seq<Action>)
    ensures Semantic(actions) == [] <==> forall i :: 0 <= i < |actions| ==> actions[i].kind == RecordDecision
  {
    if actions != [] {
      SemanticEmpty(actions[1..]);
      assert forall i :: 1 <= i < |actions| ==> actions[i] == actions[1..][i - 1];
    }
  }

  lemma {:induction false} SoleExactly(actions: seq<Action>)
    ensures |Semantic(actions)| == 1 <==> exists i :: Sole(actions, i)
    ensures forall i :: Sole(actions, i) ==> Semantic(actions) == [actions[i]]
  {
    if actions != [] {
      var rest := actions[1..];
      SoleExactly(rest);
      SemanticEmpty(rest);
      assert forall i :: 1 <= i < |actions| ==> actions[i] == rest[i - 1];
      if actions[0].kind.RecordDecision? {
        forall i ensures Sole(actions, i) <==> Sole(rest, i - 1) {}
        if i :| Sole(rest, i) { assert Sole(actions, i + 1); }
      } else {
        if i :| Sole(actions, i) { assert i == 0; }
        if |Semantic(actions)| == 1 { assert Sole(actions, 0); }
      }
    }
  }

  lemma RecordsWellExactly(v: View, actions: seq<Action>)
    ensures RecordedAccepted(v, actions) <==> RecordsWell(v, actions)
  {
    OnceExactly(actions);
    forall i | 0 <= i < |actions| ensures ActionAccepted(v, actions[i]) <==> Works(v, actions[i]) {
      WorksExactly(v, actions[i]);
    }
  }

  lemma PlanExactly(v: View, req: Request)
    requires HasPlan(req.actions)
    ensures Reduce(v, req).Some? <==>
              && SolePlanWorks(v, req.actions) && req.lineage in v.lineages && RecordsWell(v, req.actions)
  {
    SoleExactly(req.actions);
    RecordsWellExactly(v, req.actions);
    if i :| Sole(req.actions, i) {
      if req.actions[i].plan.Some? { PlanWorksExactly(v, req.actions[i].plan.value); }
    }
  }

  lemma PlanWorksExactly(v: View, p: Plan)
    ensures PlanAccepted(v, p) <==> PlanWorks(v, p)
  {
    if PlanAccepted(v, p) { AcceptedWorks(v, p); }
    if PlanWorks(v, p) { WorksAccepted(v, p); }
  }

  lemma SwitchExactly(v: View, req: Request)
    requires !HasPlan(req.actions) && HasSwitch(req.actions)
    ensures Reduce(v, req).Some? <==>
              (exists i :: Sole(req.actions, i) && req.actions[i].switchTarget != "") && RecordsWell(v, req.actions)
  {
    SoleExactly(req.actions);
    RecordsWellExactly(v, req.actions);
    if i :| Sole(req.actions, i) { assert Semantic(req.actions)[0] == req.actions[i]; }
  }

  lemma OrdinaryExactly(v: View, req: Request)
    ensures OrdinaryAccepted(v, req) <==>
              && req.actions != [] && (forall i :: 0 <= i < |req.actions| ==> Works(v, req.actions[i]))
              && RecordsOnce(req.actions) && req.lineage in v.lineages
  {
    OnceExactly(req.actions);
    forall i | 0 <= i < |req.actions| ensures ActionAccepted(v, req.actions[i]) <==> Works(v, req.actions[i]) {
      WorksExactly(v, req.actions[i]);
    }
  }

  /** The reducer refuses a request exactly when it is not of this form. */
  lemma ReducesExactly(v: View, req: Request)
    ensures Reduce(v, req).Some? <==> Reducible(v, req)
  {
    assert HasPlan(req.actions) <==> HasKind(req.actions, ApplyLineagePlan);
    assert HasSwitch(req.actions) <==> HasKind(req.actions, SwitchActiveLineage);
    if HasPlan(req.actions) {
      PlanExactly(v, req);
    } else if HasSwitch(req.actions) {
      SwitchExactly(v, req);
    } else {
      OrdinaryExactly(v, req);
    }
  }

  // ---------------------------------------------------------------- accepted plans

  /** The Decision of a reconfirmed treatment is named, cited by the action and listed by the object. */
  predicate Proven(a: Action, t: Treatment) {
    && t.derived.Some? && t.decisionRef != "" && t.decisionRef in a.decisionRefs
    && "decision_ids" in t.derived.value.lists && t.decisionRef in t.derived.value.lists["decision_ids"]
  }

  /** Whatever its view, an accepted plan is of a known kind, names a replay when it recovers, treats members in
      known ways, and derives each reconfirmed object properly, with proof; an accepted switch names its target. */
  predicate Lawful(a: Action) {
    && (a.kind == ApplyLineagePlan ==> a.plan.Some? && LawfulPlan(a, a.plan.value))
    && (a.kind == SwitchActiveLineage ==> a.switchTarget != "")
  }

  predicate LawfulPlan(a: Action, p: Plan) {
    && p.lineageKind in LINEAGE_KINDS && p.targetLineage != ""
    && (p.lineageKind == "corrective_recovery" ==> p.replayPlanRef != "")
    && (forall t :: t in p.treatments ==> LawfulTreatment(a, t))
  }

  predicate LawfulTreatment(a: Action, t: Treatment) {
    && t.objectKind != "" && t.sourceRef != "" && t.treatment in TREATMENTS
    && (t.treatment == "RECONFIRM" ==>
          && Proven(a, t) && t.derived.value.kind == t.objectKind && t.derived.value.id != ""
          && (t.derived.value.id == t.sourceRef || t.derived.value.id == t.derivedRef)
          && (t.derivedRef == "" || t.derived.value.id == t.derivedRef))
  }

  lemma SolePlan(v: View, req: Request, i: nat)
    requires Reducible(v, req) && i < |req.actions| && req.actions[i].kind == ApplyLineagePlan
    ensures req.actions[i].plan.Some? && PlanWorks(v, req.actions[i].plan.value)
  {
    assert HasKind(req.actions, ApplyLineagePlan);
    var k :| Sole(req.actions, k) && req.actions[k].plan.Some? && PlanWorks(v, req.actions[k].plan.value);
    assert k == i;
  }

  lemma SoleSwitch(v: View, req: Request, i: nat)
    requires Reducible(v, req) && i < |req.actions| && req.actions[i].kind == SwitchActiveLineage
    ensures req.actions[i].switchTarget != ""
  {
    assert HasKind(req.actions, SwitchActiveLineage);
    forall k | Sole(req.actions, k) ensures k == i && !HasKind(req.actions, ApplyLineagePlan) {}
  }

  lemma NothingCaused(v: View, req: Request, i: nat, c: string)
    requires LineageCodes(v, req) == {} && i < |req.actions|
    ensures !ActionCauses(v, req, req.actions[i], c)
  {
    LineageCodesExactly(v, req, c);
  }

  lemma TreatmentLawful(v: View, req: Request, i: nat, p: Plan, t: Treatment)
    requires LineageCodes(v, req) == {} && i < |req.actions| && req.actions[i].kind == ApplyLineagePlan
    requires req.actions[i].plan == Some(p) && t in p.treatments && TreatsWell(v, t)
    ensures LawfulTreatment(req.actions[i], t)
  {
    var a := req.actions[i];
    NothingCaused(v, req, i, "RT-LINEAGE-013");
    NothingCaused(v, req, i, "RT-LINEAGE-014");
    assert !TreatmentCauses(a, t, "RT-LINEAGE-013") && !TreatmentCauses(a, t, "RT-LINEAGE-014");
  }

  lemma AcceptedLawful(v: View, req: Request, i: nat)
    requires LineageCodes(v, req) == {} && Reduce(v, req).Some? && i < |req.actions|
    ensures Lawful(req.actions[i])
  {
    var a := req.actions[i];
    ReducesExactly(v, req);
    if a.kind.ApplyLineagePlan? {
      SolePlan(v, req, i);
      NothingCaused(v, req, i, "RT-LINEAGE-003");
      NothingCaused(v, req, i, "RT-LINEAGE-009");
      forall t | t in a.plan.value.treatments ensures LawfulTreatment(a, t) {
        TreatmentLawful(v, req, i, a.plan.value, t);
      }
    } else if a.kind.SwitchActiveLineage? {
      SoleSwitch(v, req, i);
    }
  }
}
