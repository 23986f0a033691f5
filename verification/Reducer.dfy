/** The pure reducer (core/runtime/state_reducer.py): the next state proposed by a request. */
module Reducer {
  import opened Common
  import opened Records
  import opened Authority

  // ---------------------------------------------------------------- action semantics

  predicate ActionSemantics(kind: ActionKind, obj: Object) {
    match kind
    case AdoptObject => obj.Says("adoption_state", "approved")
    case RejectObject => obj.Says("adoption_state", "rejected")
    case VerifyEvidence => obj.Says("verification_status", "verified")
    case ReclassifyEvidence => obj.kind == "evidence"
    case RecordDecision => obj.kind == "decision"
    case RegisterWritingFeedbackAction => obj.kind == "next_action"
    case _ => true
  }

  predicate RevisionSemantics(kind: ActionKind, obj: Object, prior: Option<Object>) {
    if kind.CreateObject? || kind.RecordDecision? then prior.None? && obj.revision == 0
    else if kind.RegisterWritingFeedbackAction? && prior.None? then obj.revision == 0
    else prior.Some? && obj.revision == prior.value.revision + 1
  }

  predicate ObjectAccepted(v: View, kind: ActionKind, obj: Object) {
    ActionSemantics(kind, obj) && RevisionSemantics(kind, obj, v.Latest(obj.kind, obj.id))
  }

  predicate ActionAccepted(v: View, a: Action) {
    if a.kind.RecordRunResultAdoption? then a.adoptionRefs != []
    else a.payload.Some? && ObjectAccepted(v, a.kind, a.payload.value)
  }

  /** The objects the actions carry, in action order. */
  function ObjectsOf(actions: seq<Action>): seq<Object> {
    if actions == [] then []
    else
      var last := actions[|actions| - 1];
      ObjectsOf(actions[..|actions| - 1])
      + (if last.kind.RecordRunResultAdoption? || last.payload.None? then [] else [last.payload.value])
  }

  function DecisionsOf(actions: seq<Action>): seq<Object> {
    if actions == [] then []
    else
      var last := actions[|actions| - 1];
      DecisionsOf(actions[..|actions| - 1])
      + (if last.kind.RecordDecision? && last.payload.Some? then [last.payload.value] else [])
  }

  function AdoptionsOf(actions: seq<Action>): seq<string> {
    if actions == [] then []
    else
      var last := actions[|actions| - 1];
      AdoptionsOf(actions[..|actions| - 1]) + (if last.kind.RecordRunResultAdoption? then last.adoptionRefs else [])
  }

  predicate DistinctIds(objs: seq<Object>) {
    forall i, j :: 0 <= i < j < |objs| ==> objs[i].id != objs[j].id
  }

  // ---------------------------------------------------------------- stable sort

  predicate SlotLess(a: Key, b: Key) {
    RefLess(Ref(a.kind, a.id), Ref(b.kind, b.id))
    || (a.kind == b.kind && a.id == b.id && a.revision < b.revision)
  }

  function Insert(x: Object, sorted: seq<Object>): seq<Object> {
    if sorted != [] && SlotLess(sorted[0].Slot(), x.Slot()) then [sorted[0]] + Insert(x, sorted[1..])
    else [x] + sorted
  }

  /** `stable_sorted_objects`: by kind, id, revision; equal keys keep their order. */
  function StableSorted(objs: seq<Object>): seq<Object> {
    if objs == [] then [] else Insert(objs[0], StableSorted(objs[1..]))
  }

  // ---------------------------------------------------------------- snapshots and audit

  function Rows(members: map<Ref, Object>): map<Ref, Row> {
    map r | r in members :: Row(members[r].revision, CanonicalDigest(members[r]))
  }

  function Sealed(obj: Object): Object {
    obj.(seal := CanonicalDigest(obj.(seal := Unsealed)))
  }

  function BuildSnapshot(v: View, req: Request, members: map<Ref, Object>, mode: string): Object {
    Sealed(Object("snapshot", req.snapshotId, 0,
                  map["schema_version" := "0.1.0", "project_id" := req.project, "snapshot_type" := "research",
                      "created_at" := req.submittedAt, "mode" := mode, "prior_snapshot_id" := v.snapshot.id],
                  map[], map[], Rows(members), Unsealed))
  }

  function SubjectOf(req: Request, a: Action): Ref {
    match a.TargetRef()
    case Some(target) => target
    case None =>
      match a.kind
      case ApplyLineagePlan =>
        Ref("research_lineage", if a.plan.Some? then a.plan.value.targetLineage else req.lineage)
      case SwitchActiveLineage => Ref("research_lineage", a.switchTarget)
      case _ => Ref("research_transition", req.transitionId)
  }

  function AuditEvent(req: Request): Object {
    Object("audit_event", req.auditId, 0,
           map["schema_version" := "0.1.0", "project_id" := req.project, "occurred_at" := req.submittedAt,
               "actor_type" := if req.actor.actorType == "human" then "human" else "system",
               "actor_id" := req.actor.id],
           map[],
           map["subjects" := Distinct(seq(|req.actions|,
               i requires 0 <= i < |req.actions| => SubjectOf(req, req.actions[i])))],
           map[], req.digest)
  }

  function Mode(v: View): string {
    if "mode" in v.snapshot.text then v.snapshot.text["mode"] else "real"
  }

  // ---------------------------------------------------------------- ordinary transitions

  /** Later revisions replace earlier ones under the same identity. */
  function Fold(base: map<Ref, Object>, objs: seq<Object>): map<Ref, Object> {
    if objs == [] then base
    else Fold(base, objs[..|objs| - 1])[objs[|objs| - 1].Identity() := objs[|objs| - 1]]
  }

  predicate OrdinaryAccepted(v: View, req: Request) {
    && req.actions != []
    && (forall i :: 0 <= i < |req.actions| ==> ActionAccepted(v, req.actions[i]))
    && DistinctIds(DecisionsOf(req.actions))
    && req.lineage in v.lineages
  }

  function OrdinarySnapshot(v: View, req: Request): Object {
    BuildSnapshot(v, req, Fold(v.Effective(), ObjectsOf(req.actions)), Mode(v))
  }

  function ReduceOrdinary(v: View, req: Request): Option<Reduction> {
    if !OrdinaryAccepted(v, req) then None
    else
      var snapshot := OrdinarySnapshot(v, req);
      Some(Reduction(
        StableSorted(ObjectsOf(req.actions)),
        StableSorted(DecisionsOf(req.actions)),
        Some(snapshot),
        Some(v.lineages[req.lineage].(head := Pin(snapshot.id, snapshot.seal))),
        None, None,
        Distinct(AdoptionsOf(req.actions)),
        Resolving(v, req.actions),
        AuditEvent(req)))
  }

  // ---------------------------------------------------------------- lineage plans

  function TreatmentOf(treatments: seq<Treatment>, m: Ref): Option<Treatment> {
    if treatments == [] then None
    else if Ref(treatments[0].objectKind, treatments[0].sourceRef) == m then Some(treatments[0])
    else TreatmentOf(treatments[1..], m)
  }

  predicate TreatmentsDistinct(treatments: seq<Treatment>) {
    forall i, j :: 0 <= i < j < |treatments| ==>
      Ref(treatments[i].objectKind, treatments[i].sourceRef) != Ref(treatments[j].objectKind, treatments[j].sourceRef)
  }

  predicate DerivedAccepted(v: View, m: Ref, t: Treatment, derived: Object) {
    && derived.kind == m.kind
    && derived.id != ""
    && (derived.id == m.id || t.derivedRef == derived.id)
    && (t.derivedRef == "" || t.derivedRef == derived.id)
    && derived.revision >= 0
    && (match v.Latest(derived.kind, derived.id)
        case Some(existing) => derived.revision == existing.revision + 1
        case None => derived.revision == 0)
  }

  /** The treatment of baseline member `m` can be carried out. */
  predicate MemberAccepted(v: View, p: Plan, m: Ref)
    requires m in v.snapshot.members
  {
    match TreatmentOf(p.treatments, m)
    case None => false
    case Some(t) =>
      v.Exact(m.kind, m.id, v.snapshot.members[m].revision).Some?
      && (if t.treatment == "PRESERVE" || t.treatment == "INVALIDATE" then true
          else t.treatment == "RECONFIRM" && t.derived.Some? && DerivedAccepted(v, m, t, t.derived.value))
  }

  predicate PlanAccepted(v: View, p: Plan) {
    && p.targetLineage != "" && p.lineageKind != ""
    && (forall i :: 0 <= i < |p.treatments| ==> p.treatments[i].objectKind != "" && p.treatments[i].sourceRef != "")
    && TreatmentsDistinct(p.treatments)
    && (forall m :: m in v.snapshot.members ==> MemberAccepted(v, p, m))
    && (forall i :: 0 <= i < |p.treatments| ==>
          Ref(p.treatments[i].objectKind, p.treatments[i].sourceRef) in v.snapshot.members)
  }

  /** What one baseline member leaves in the child: the preserved source, the derived object, or nothing. */
  function Survivor(v: View, p: Plan, m: Ref): Option<Object>
    requires m in v.snapshot.members
  {
    match TreatmentOf(p.treatments, m)
    case None => None
    case Some(t) =>
      if t.treatment == "PRESERVE" then v.Exact(m.kind, m.id, v.snapshot.members[m].revision)
      else if t.treatment == "RECONFIRM" then t.derived
      else None
  }

  predicate Derives(p: Plan, m: Ref) {
    var t := TreatmentOf(p.treatments, m);
    t.Some? && t.value.treatment == "RECONFIRM"
  }

  function ChildMembers(v: View, p: Plan, order: seq<Ref>): map<Ref, Object>
    requires forall i :: 0 <= i < |order| ==> order[i] in v.snapshot.members
  {
    if order == [] then map[]
    else
      var front := ChildMembers(v, p, order[..|order| - 1]);
      match Survivor(v, p, order[|order| - 1])
      case None => front
      case Some(obj) => front[obj.Identity() := obj]
  }

  function DerivedObjects(v: View, p: Plan, order: seq<Ref>): seq<Object>
    requires forall i :: 0 <= i < |order| ==> order[i] in v.snapshot.members
  {
    if order == [] then []
    else
      var m := order[|order| - 1];
      DerivedObjects(v, p, order[..|order| - 1])
      + (if Derives(p, m) && Survivor(v, p, m).Some? then [Survivor(v, p, m).value] else [])
  }

  function Baseline(v: View): (order: seq<Ref>)
    ensures forall i :: 0 <= i < |order| ==> order[i] in v.snapshot.members
  {
    Ordered(v.snapshot.members.Keys)
  }

  function NonEmpty(refs: seq<string>): seq<string> {
    if refs == [] then [] else (if refs[0] != "" then [refs[0]] else []) + NonEmpty(refs[1..])
  }

  predicate RecordedAccepted(v: View, actions: seq<Action>) {
    && (forall i :: 0 <= i < |actions| && actions[i].kind.RecordDecision? ==>
          actions[i].payload.Some? && ObjectAccepted(v, RecordDecision, actions[i].payload.value))
    && DistinctIds(DecisionsOf(actions))
  }

  function PlanSnapshot(v: View, req: Request, p: Plan): Object {
    BuildSnapshot(v, req, ChildMembers(v, p, Baseline(v)), p.executionMode.GetOr(Mode(v)))
  }

  function ReducePlan(v: View, req: Request, p: Plan): Option<Reduction> {
    if !PlanAccepted(v, p) || req.lineage !in v.lineages || !RecordedAccepted(v, req.actions) then None
    else
      var snapshot := PlanSnapshot(v, req, p);
      var decisions := DecisionsOf(req.actions);
      Some(Reduction(
        StableSorted(StableSorted(DerivedObjects(v, p, Baseline(v))) + decisions),
        StableSorted(decisions),
        Some(snapshot),
        None,
        Some(Lineage(p.targetLineage, p.lineageKind, Pin(snapshot.id, snapshot.seal),
                     Some(req.lineage), Some(v.snapshot.id))),
        None,
        NonEmpty([p.replayPlanRef] + p.replayPlanRefs),
        Resolving(v, req.actions),
        AuditEvent(req)))
  }

  function ReduceSwitch(v: View, req: Request, target: string): Option<Reduction> {
    if target == "" || !RecordedAccepted(v, req.actions) then None
    else
      var decisions := StableSorted(DecisionsOf(req.actions));
      Some(Reduction(decisions, decisions, None, None, None, Some(target), [], Resolving(v, req.actions),
          AuditEvent(req)))
  }

  // ---------------------------------------------------------------- dispatch

  function Semantic(actions: seq<Action>): seq<Action> {
    if actions == [] then []
    else (if actions[0].kind.RecordDecision? then [] else [actions[0]]) + Semantic(actions[1..])
  }

  predicate HasPlan(actions: seq<Action>) {
    exists i :: 0 <= i < |actions| && actions[i].kind.ApplyLineagePlan?
  }

  predicate HasSwitch(actions: seq<Action>) {
    exists i :: 0 <= i < |actions| && actions[i].kind.SwitchActiveLineage?
  }

  /** `reduce_state`; None stands for ReductionError. */
  function Reduce(v: View, req: Request): Option<Reduction> {
    var semantic := Semantic(req.actions);
    if HasPlan(req.actions) then
      if |semantic| != 1 || semantic[0].plan.None? then None else ReducePlan(v, req, semantic[0].plan.value)
    else if HasSwitch(req.actions) then
      if |semantic| != 1 then None else ReduceSwitch(v, req, semantic[0].switchTarget)
    else ReduceOrdinary(v, req)
  }
}
