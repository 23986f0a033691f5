/** The checks on lineage plans and switches read off their fields (core/runtime/authority_validation.py:205-362). */
module LineageRules {
  import opened Records
  import opened Authority

  // ---------------------------------------------------------------- the codes

  const LINEAGE_KINDS: set<string> := {"exploratory_fork", "corrective_recovery"}
  const TREATMENTS: set<string> := {"PRESERVE", "RECONFIRM", "INVALIDATE"}

  predicate AboutMember(t: Treatment, m: Ref) { t.objectKind == m.kind && t.sourceRef == m.id }

  predicate LeavesOut(p: Plan, members: map<Ref, Row>) {
    exists m :: m in members && forall t :: t in p.treatments ==> !AboutMember(t, m)
  }

  /** The derived object is named neither after its source nor by the treatment, or the treatment names another. */
  predicate NamedWrongly(t: Treatment) {
    && t.derived.Some? && t.decisionRef != ""
    && (|| (t.derived.value.id != t.sourceRef && t.derived.value.id != t.derivedRef)
        || (t.derivedRef != "" && t.derived.value.id != t.derivedRef))
  }

  /** The Decision is not cited by the action, or not listed by the derived object. */
  predicate NotProven(a: Action, t: Treatment) {
    && t.derived.Some? && t.decisionRef != ""
    && (|| t.decisionRef !in a.decisionRefs
        || "decision_ids" !in t.derived.value.lists
        || t.decisionRef !in t.derived.value.lists["decision_ids"])
  }

  predicate TreatmentCauses(a: Action, t: Treatment, c: string) {
    || (c == "RT-LINEAGE-008" && t.treatment !in TREATMENTS)
    || (t.treatment == "RECONFIRM"
        && (|| (c == "RT-LINEAGE-013" && (t.derived.None? || t.decisionRef == ""))
            || (c == "RT-LINEAGE-014" && NotProven(a, t))
            || (c == "RT-LINEAGE-015" && NamedWrongly(t))))
  }

  predicate PlanCauses(v: View, req: Request, a: Action, p: Plan, c: string) {
    || (c == "RT-LINEAGE-003" && p.lineageKind !in LINEAGE_KINDS)
    || (c == "RT-LINEAGE-004" && (p.baseline.ref != req.head.ref || p.baseline.digest != req.head.digest))
    || (c == "RT-LINEAGE-005" && p.targetLineage in v.lineages)
    || (c == "RT-LINEAGE-007" && LeavesOut(p, v.snapshot.members))
    || (c == "RT-LINEAGE-009" && p.lineageKind == "corrective_recovery" && p.replayPlanRef == "")
    || exists t :: t in p.treatments && TreatmentCauses(a, t, c)
  }

  predicate ActionCauses(v: View, req: Request, a: Action, c: string) {
    || (a.kind == ApplyLineagePlan
        && match a.plan case None => c == "RT-LINEAGE-002" case Some(p) => PlanCauses(v, req, a, p, c))
    || (a.kind == SwitchActiveLineage && c == "RT-LINEAGE-010" && a.switchTarget !in v.lineages)
  }

  lemma TreatmentExactly(a: Action, t: Treatment, c: string)
    ensures c in TreatmentCodes(a, t) <==> TreatmentCauses(a, t, c)
  {
    assert TreatmentKindValid(t) <==> t.treatment in TREATMENTS;
  }

  lemma TreatedExactly(p: Plan, m: Ref)
    ensures Treats(p.treatments, m) <==> exists t :: t in p.treatments && AboutMember(t, m)
  {
    if t :| t in p.treatments && AboutMember(t, m) {
      var i :| 0 <= i < |p.treatments| && p.treatments[i] == t;
    }
    if i :| 0 <= i < |p.treatments| && Ref(p.treatments[i].objectKind, p.treatments[i].sourceRef) == m {
      assert AboutMember(p.treatments[i], m);
    }
  }

  lemma LeftOutExactly(p: Plan, members: map<Ref, Row>)
    ensures (exists m :: m in members && !Treats(p.treatments, m)) <==> LeavesOut(p, members)
  {
    forall m ensures Treats(p.treatments, m) <==> exists t :: t in p.treatments && AboutMember(t, m) {
      TreatedExactly(p, m);
    }
  }

  lemma TreatmentsExactly(a: Action, p: Plan, c: string)
    ensures (exists j :: 0 <= j < |p.treatments| && c in TreatmentCodes(a, p.treatments[j]))
       <==> exists t :: t in p.treatments && TreatmentCauses(a, t, c)
  {
    forall t ensures c in TreatmentCodes(a, t) <==> TreatmentCauses(a, t, c) { TreatmentExactly(a, t, c); }
    if t :| t in p.treatments && TreatmentCauses(a, t, c) {
      var j :| 0 <= j < |p.treatments| && p.treatments[j] == t;
    }
  }

  lemma PlanParts(v: View, req: Request, a: Action, p: Plan, c: string)
    ensures c in PlanCodes(v, req, a, p) <==>
              || (c == "RT-LINEAGE-003"
                  && p.lineageKind != "exploratory_fork" && p.lineageKind != "corrective_recovery")
              || (c == "RT-LINEAGE-004" && p.baseline != req.head)
              || (c == "RT-LINEAGE-005" && p.targetLineage in v.lineages)
              || (c == "RT-LINEAGE-007" && exists m :: m in v.snapshot.members && !Treats(p.treatments, m))
              || (c == "RT-LINEAGE-009" && p.lineageKind == "corrective_recovery" && p.replayPlanRef == "")
              || exists j :: 0 <= j < |p.treatments| && c in TreatmentCodes(a, p.treatments[j])
  {
  }

  lemma PlanExactly(v: View, req: Request, a: Action, p: Plan, c: string)
    ensures c in PlanCodes(v, req, a, p) <==> PlanCauses(v, req, a, p, c)
  {
    PlanParts(v, req, a, p, c);
    LeftOutExactly(p, v.snapshot.members);
    TreatmentsExactly(a, p, c);
  }

  lemma ActionExactly(v: View, req: Request, a: Action, c: string)
    ensures c in ActionLineageCodes(v, req, a) <==> ActionCauses(v, req, a, c)
  {
    if a.kind.ApplyLineagePlan? && a.plan.Some? { PlanExactly(v, req, a, a.plan.value, c); }
  }

  /** The lineage check raises a code exactly when the lineage is unknown or an action gives cause for it. */
  lemma LineageCodesExactly(v: View, req: Request, c: string)
    ensures c in LineageCodes(v, req) <==>
              || (c == "RT-LINEAGE-001" && req.lineage !in v.lineages)
              || exists i :: 0 <= i < |req.actions| && ActionCauses(v, req, req.actions[i], c)
  {
    forall i | 0 <= i < |req.actions|
      ensures c in ActionLineageCodes(v, req, req.actions[i]) <==> ActionCauses(v, req, req.actions[i], c)
    {
      ActionExactly(v, req, req.actions[i], c);
    }
  }
}
