/** Which human Decisions an action needs, and which checks on Decisions and lineage
    plans run before reduction (core/runtime/authority_validation.py). */
module Authority {
  import opened Common
  import opened Records

  datatype Requirement = Requirement(decisionKind: string, choice: string, subject: Ref)

  predicate Protected(kind: string) {
    kind == "research_question" || kind == "method" || kind == "finding" || kind == "recommendation"
  }

  function TextOf(obj: Option<Object>, field: string): Option<string> {
    match obj
    case None => None
    case Some(o) => o.Text(field)
  }

  /** The content a revision decision is about: everything but bookkeeping fields. */
  function Material(obj: Object): Object {
    obj.(revision := 0, text := obj.text - {"adoption_state"}, lists := obj.lists - {"decision_ids"})
  }

  predicate MaterialResearchChange(prior: Object, proposed: Object) {
    CanonicalDigest(Material(prior)) != CanonicalDigest(Material(proposed))
  }

  function AdoptionRequirement(prior: Option<Object>, obj: Object): seq<Requirement> {
    var was := TextOf(prior, "adoption_state");
    var becomes := obj.Text("adoption_state");
    if becomes == was then []
    else if becomes == Some("approved") then
      [Requirement("research_adoption", "approve", obj.Identity())]
    else if becomes == Some("rejected") || becomes == Some("closed") || becomes == Some("out_of_scope") then
      [Requirement("research_adoption", "reject", obj.Identity())]
    else []
  }

  function RevisionRequirement(prior: Option<Object>, obj: Object): seq<Requirement> {
    if prior.Some? && MaterialResearchChange(prior.value, obj) then
      [Requirement("research_revision", "revise", obj.Identity())]
    else []
  }

  function EvidenceRequirements(prior: Option<Object>, obj: Object): seq<Requirement> {
    (if obj.Says("verification_status", "verified") && TextOf(prior, "verification_status") != Some("verified")
     then [Requirement("evidence_qualification", "verify", obj.Identity())] else [])
    + (if prior.Some? && obj.Text("evidence_kind") != prior.value.Text("evidence_kind")
       then [Requirement("evidence_reclassification", "reclassify", obj.Identity())] else [])
  }

  function ObjectRequirements(prior: Option<Object>, obj: Object): seq<Requirement> {
    (if Protected(obj.kind) then AdoptionRequirement(prior, obj) + RevisionRequirement(prior, obj) else [])
    + (if obj.kind == "evidence" then EvidenceRequirements(prior, obj) else [])
  }

  predicate Reconfirms(t: Treatment) {
    t.treatment == "RECONFIRM" && t.derived.Some?
  }

  function ReconfirmRequirements(treatments: seq<Treatment>): (rs: seq<Requirement>)
    ensures forall q :: q in rs <==>
              exists t :: t in treatments && Reconfirms(t)
                          && q == Requirement("lineage_reconfirmation", "reconfirm", t.derived.value.Identity())
  {
    if treatments == [] then []
    else
      var t := treatments[0];
      (if Reconfirms(t)
       then [Requirement("lineage_reconfirmation", "reconfirm", t.derived.value.Identity())] else [])
      + ReconfirmRequirements(treatments[1..])
  }

  function PlanRequirements(plan: Option<Plan>): seq<Requirement> {
    match plan
    case None => [Requirement("lineage_plan", "apply", Ref("lineage_plan", ""))]
    case Some(p) =>
      [Requirement("lineage_plan", "apply", Ref("lineage_plan", p.planRef))] + ReconfirmRequirements(p.treatments)
  }

  /** Every Decision the action needs, each once. */
  function Required(v: View, a: Action): seq<Requirement> {
    Distinct(
      (if a.payload.Some?
       then ObjectRequirements(v.Latest(a.payload.value.kind, a.payload.value.id), a.payload.value) else [])
      + (if a.kind.ApplyLineagePlan? then PlanRequirements(a.plan) else [])
      + (if a.kind.SwitchActiveLineage?
         then [Requirement("active_lineage_selection", "switch", Ref("research_lineage", a.switchTarget))] else []))
  }

  lemma ReconfirmationRequired(v: View, a: Action, t: Treatment)
    requires a.kind.ApplyLineagePlan? && a.plan.Some? && t in a.plan.value.treatments && Reconfirms(t)
    ensures Requirement("lineage_reconfirmation", "reconfirm", t.derived.value.Identity()) in Required(v, a)
  {
    assert Requirement("lineage_reconfirmation", "reconfirm", t.derived.value.Identity()) in PlanRequirements(a.plan);
  }

  /** The Decisions a request consumes: the references of every action that needs one. */
  function Resolving(v: View, actions: seq<Action>): seq<string> {
    Distinct(ResolvingRefs(v, actions))
  }

  function ResolvingRefs(v: View, actions: seq<Action>): (refs: seq<string>)
    ensures forall r :: r in refs <==> exists a :: a in actions && Required(v, a) != [] && r in a.decisionRefs
  {
    if actions == [] then []
    else (if Required(v, actions[0]) != [] then actions[0].decisionRefs else []) + ResolvingRefs(v, actions[1..])
  }

  /** Decisions a request may cite: those stored, overlaid by those it records itself. */
  function Pool(stored: map<string, Object>, actions: seq<Action>): map<string, Object> {
    if actions == [] then map id | id in stored && id != "" :: stored[id]
    else
      var front := Pool(stored, actions[..|actions| - 1]);
      var last := actions[|actions| - 1];
      if last.kind.RecordDecision? && last.payload.Some? && last.payload.value.id != ""
      then front[last.payload.value.id := last.payload.value] else front
  }

  /** Decision `ref` is a usable human answer to `q` for action `a`. */
  predicate Answers(pool: map<string, Object>, v: View, project: string, a: Action, q: Requirement, ref: string) {
    && ref in pool && ref !in v.used
    && pool[ref].Says("actor_type", "human")
    && pool[ref].Says("project_id", project)
    && pool[ref].Says("decision_kind", q.decisionKind)
    && pool[ref].Says("choice", q.choice)
    && pool[ref].Names(q.subject.kind, q.subject.id)
    && (a.payload.Some? ==> ref in a.payload.value.List("decision_ids"))
  }

  predicate Unanswered(pool: map<string, Object>, v: View, project: string, a: Action, q: Requirement) {
    forall i :: 0 <= i < |a.decisionRefs| ==> !Answers(pool, v, project, a, q, a.decisionRefs[i])
  }

  function Flag(raised: bool, code: string): set<string> {
    if raised then {code} else {}
  }

  /** Codes one reference of one action raises on its own. */
  function ReferenceCodes(pool: map<string, Object>, v: View, a: Action, ref: string): set<string> {
    if ref !in pool then {"RT-DECISION-002"}
    else
      var target := a.TargetRef();
      Flag(ref in v.used, "RT-DECISION-005")
      + Flag(!pool[ref].Says("actor_type", "human"), "RT-DECISION-003")
      + Flag(target.Some? && !pool[ref].Names(target.value.kind, target.value.id) && !a.IsSpecial(), "RT-DECISION-004")
  }

  predicate SomeUnanswered(pool: map<string, Object>, v: View, project: string, a: Action, qs: seq<Requirement>) {
    exists j :: 0 <= j < |qs| && Unanswered(pool, v, project, a, qs[j])
  }

  function ReferencesCodes(pool: map<string, Object>, v: View, a: Action, refs: seq<string>): set<string> {
    set j, c | 0 <= j < |refs| && c in ReferenceCodes(pool, v, a, refs[j]) :: c
  }

  /** Codes one action raises: 001 exactly when one of its requirements has no answer. */
  function ActionDecisionCodes(pool: map<string, Object>, v: View, project: string, a: Action): set<string> {
    Flag(SomeUnanswered(pool, v, project, a, Required(v, a)), "RT-DECISION-001")
    + ReferencesCodes(pool, v, a, a.decisionRefs)
  }

  /** An action whose needs are all answered, by references that are fine one by one, is clean. */
  lemma CleanByParts(pool: map<string, Object>, v: View, project: string, b: Action)
    requires forall q :: q in Required(v, b) ==> !Unanswered(pool, v, project, b, q)
    requires forall ref :: ref in b.decisionRefs ==> ReferenceCodes(pool, v, b, ref) == {}
    ensures ActionDecisionCodes(pool, v, project, b) == {}
  {
    var needs := Required(v, b);
    forall j | 0 <= j < |needs| ensures !Unanswered(pool, v, project, b, needs[j]) {
      assert needs[j] in needs;
    }
  }

  function HumanDecisionCodes(v: View, req: Request): set<string> {
    var pool := Pool(v.decisions, req.actions);
    set i, c | 0 <= i < |req.actions| && c in ActionDecisionCodes(pool, v, req.project, req.actions[i]) :: c
  }

  predicate TreatmentKindValid(t: Treatment) {
    t.treatment == "PRESERVE" || t.treatment == "RECONFIRM" || t.treatment == "INVALIDATE"
  }

  predicate Unbound(t: Treatment) {
    t.treatment == "RECONFIRM" && (t.derived.None? || t.decisionRef == "")
  }

  predicate Misnamed(t: Treatment)
    requires t.derived.Some?
  {
    var id := t.derived.value.id;
    (id != t.sourceRef && t.derivedRef != id) || (t.derivedRef != "" && t.derivedRef != id)
  }

  predicate Unprovenanced(a: Action, t: Treatment)
    requires t.derived.Some?
  {
    t.decisionRef !in a.decisionRefs || t.decisionRef !in t.derived.value.List("decision_ids")
  }

  function TreatmentCodes(a: Action, t: Treatment): set<string> {
    if !TreatmentKindValid(t) then {"RT-LINEAGE-008"}
    else if t.treatment != "RECONFIRM" then {}
    else if Unbound(t) then {"RT-LINEAGE-013"}
    else Flag(Misnamed(t), "RT-LINEAGE-015") + Flag(Unprovenanced(a, t), "RT-LINEAGE-014")
  }

  predicate Treats(treatments: seq<Treatment>, m: Ref) {
    exists i :: 0 <= i < |treatments| && Ref(treatments[i].objectKind, treatments[i].sourceRef) == m
  }

  function PlanCodes(v: View, req: Request, a: Action, p: Plan): set<string> {
    Flag(p.lineageKind != "exploratory_fork" && p.lineageKind != "corrective_recovery", "RT-LINEAGE-003")
    + Flag(p.baseline != req.head, "RT-LINEAGE-004")
    + Flag(p.targetLineage in v.lineages, "RT-LINEAGE-005")
    + Flag(exists m :: m in v.snapshot.members && !Treats(p.treatments, m), "RT-LINEAGE-007")
    + (set j, c | 0 <= j < |p.treatments| && c in TreatmentCodes(a, p.treatments[j]) :: c)
    + Flag(p.lineageKind == "corrective_recovery" && p.replayPlanRef == "", "RT-LINEAGE-009")
  }

  function ActionLineageCodes(v: View, req: Request, a: Action): set<string> {
    match a.kind
    case ApplyLineagePlan =>
      (match a.plan case None => {"RT-LINEAGE-002"} case Some(p) => PlanCodes(v, req, a, p))
    case SwitchActiveLineage => Flag(a.switchTarget !in v.lineages, "RT-LINEAGE-010")
    case _ => {}
  }

  function LineageCodes(v: View, req: Request): set<string> {
    Flag(req.lineage !in v.lineages, "RT-LINEAGE-001")
    + (set i, c | 0 <= i < |req.actions| && c in ActionLineageCodes(v, req, req.actions[i]) :: c)
  }

  /** The loop that looks for one usable reference (lines 124-146). */
  method FindAnswer(pool: map<string, Object>, v: View, project: string, a: Action, q: Requirement)
    returns (matched: bool)
    ensures matched <==> !Unanswered(pool, v, project, a, q)
  {
    for i := 0 to |a.decisionRefs|
      invariant forall k :: 0 <= k < i ==> !Answers(pool, v, project, a, q, a.decisionRefs[k])
    {
      if Answers(pool, v, project, a, q, a.decisionRefs[i]) { return true; }
    }
    return false;
  }

  method FindUnanswered(pool: map<string, Object>, v: View, project: string, a: Action, qs: seq<Requirement>)
    returns (missing: bool)
    ensures missing <==> SomeUnanswered(pool, v, project, a, qs)
  {
    for j := 0 to |qs|
      invariant forall k :: 0 <= k < j ==> !Unanswered(pool, v, project, a, qs[k])
    {
      var matched := FindAnswer(pool, v, project, a, qs[j]);
      if !matched { return true; }
    }
    return false;
  }

  method CheckReferences(pool: map<string, Object>, v: View, a: Action) returns (issues: set<string>)
    ensures issues == ReferencesCodes(pool, v, a, a.decisionRefs)
  {
    issues := {};
    for j := 0 to |a.decisionRefs|
      invariant forall k :: 0 <= k < j ==> ReferenceCodes(pool, v, a, a.decisionRefs[k]) <= issues
      invariant forall c :: c in issues ==>
                  exists k :: 0 <= k < j && c in ReferenceCodes(pool, v, a, a.decisionRefs[k])
    {
      issues := issues + ReferenceCodes(pool, v, a, a.decisionRefs[j]);
    }
  }

  method CheckAction(pool: map<string, Object>, v: View, project: string, a: Action) returns (issues: set<string>)
    ensures issues == ActionDecisionCodes(pool, v, project, a)
  {
    var missing := FindUnanswered(pool, v, project, a, Required(v, a));
    var broken := CheckReferences(pool, v, a);
    issues := Flag(missing, "RT-DECISION-001") + broken;
  }

  /** `raised` lists, action by action, the codes each one raises. */
  ghost predicate RaisedInTurn(raised: seq<set<string>>, pool: map<string, Object>, v: View, project: string,
                               actions: seq<Action>) {
    |raised| <= |actions| && forall k :: 0 <= k < |raised| ==>
        raised[k] == ActionDecisionCodes(pool, v, project, actions[k])
  }

  lemma AllRaised(raised: seq<set<string>>, v: View, req: Request)
    requires RaisedInTurn(raised, Pool(v.decisions, req.actions), v, req.project, req.actions)
             && |raised| == |req.actions|
    ensures Union(raised) == HumanDecisionCodes(v, req)
  {
    forall c ensures c in Union(raised) <==> c in HumanDecisionCodes(v, req) { InUnion(raised, c); }
  }

  lemma RaisedMore(raised: seq<set<string>>, pool: map<string, Object>, v: View, project: string, actions: seq<Action>,
                   next: set<string>)
    requires |raised| < |actions| && RaisedInTurn(raised, pool, v, project, actions)
    requires next == ActionDecisionCodes(pool, v, project, actions[|raised|])
    ensures RaisedInTurn(raised + [next], pool, v, project, actions)
  {
    var more := raised + [next];
    assert forall k :: 0 <= k < |raised| ==> more[k] == raised[k];
  }

  /** The body of the loop over actions. */
  method CheckNext(pool: map<string, Object>, v: View, project: string, actions: seq<Action>, i: nat,
                   issues: set<string>, ghost all: seq<set<string>>)
    returns (now: set<string>, ghost more: seq<set<string>>)
    requires i < |actions| && |all| == i && RaisedInTurn(all, pool, v, project, actions) && issues == Union(all)
    ensures |more| == i + 1 && RaisedInTurn(more, pool, v, project, actions) && now == Union(more)
  {
    var raised := CheckAction(pool, v, project, actions[i]);
    UnionMore(all, raised);
    RaisedMore(all, pool, v, project, actions, raised);
    now, more := issues + raised, all + [raised];
  }

  /** The Decision check as the source runs it, action by action. */
  method ValidateHumanDecisions(v: View, req: Request) returns (issues: set<string>)
    ensures issues == HumanDecisionCodes(v, req)
  {
    var pool := Pool(v.decisions, req.actions);
    issues := {};
    ghost var all: seq<set<string>> := [];
    for i := 0 to |req.actions|
      invariant |all| == i && RaisedInTurn(all, pool, v, req.project, req.actions) && issues == Union(all)
    {
      issues, all := CheckNext(pool, v, req.project, req.actions, i, issues, all);
    }
    AllRaised(all, v, req);
  }
}
