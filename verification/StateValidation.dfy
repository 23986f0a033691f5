/** Checks on the proposed next state (core/runtime/state_validation.py). */
module StateValidation {
  import opened Common
  import opened Records
  import opened Authority
  import opened Reducer

  // ---------------------------------------------------------------- references

  function Ids(kind: string, ids: seq<string>): seq<Ref> {
    seq(|ids|, i requires 0 <= i < |ids| => Ref(kind, ids[i]))
  }

  /** A reference held in a text field; absent and empty text yield none. */
  function Link(kind: string, text: Option<string>): seq<Ref> {
    if text.Some? && text.value != "" then [Ref(kind, text.value)] else []
  }

  function Complete(refs: seq<Ref>): seq<Ref> {
    if refs == [] then []
    else (if refs[0].kind != "" && refs[0].id != "" then [refs[0]] else []) + Complete(refs[1..])
  }

  const SUBJECT_KINDS := {"project", "research_question", "claim", "method", "source", "evidence", "analysis",
      "finding",
                          "counter_review", "argument", "contribution", "recommendation", "next_action", "artifact",
                          "snapshot", "decision"}

  function KnownSubjects(refs: seq<Ref>): seq<Ref> {
    if refs == [] then []
    else (if refs[0].kind in SUBJECT_KINDS then [refs[0]] else []) + KnownSubjects(refs[1..])
  }

  function KindReferences(o: Object): seq<Ref> {
    match o.kind
    case "research_question" =>
      Link("research_question", o.Text("parent_question_id")) + Complete(o.Refs("downstream_review_required_refs"))
    case "claim" =>
      Link("research_question", o.Text("question_id"))
      + Ids("evidence", o.List("supporting_evidence_ids")) + Ids("evidence", o.List("challenging_evidence_ids"))
    case "method" => Ids("research_question", o.List("question_ids"))
    case "evidence" => Link("source", o.Text("source_id"))
    case "analysis" =>
      Ids("research_question", o.List("question_ids")) + Link("method", o.Text("method_id"))
      + Ids("evidence", o.List("evidence_ids"))
    case "finding" =>
      Ids("research_question", o.List("question_ids")) + Ids("evidence", o.List("evidence_ids"))
      + Ids("analysis", o.List("analysis_ids")) + Ids("evidence", o.List("counter_evidence_ids"))
    case "counter_review" => Complete(o.Refs("target")) + Ids("evidence", o.List("evidence_ids"))
    case "argument" =>
      Ids("research_question", o.List("question_ids")) + Link("claim", o.Text("conclusion_claim_id"))
      + Ids("claim", o.List("premise_claim_ids")) + Ids("finding", o.List("finding_ids"))
      + Ids("evidence", o.List("evidence_ids")) + Ids("counter_review", o.List("counter_review_ids"))
    case "contribution" => Ids("finding", o.List("finding_ids"))
    case "recommendation" => Ids("finding", o.List("finding_ids"))
    case "next_action" => Complete(o.Refs("target")) + Ids("*", o.List("blocked_by"))
    case "decision" => KnownSubjects(Complete(o.Refs("subjects")))
    case "artifact" => Link("snapshot", o.Text("source_snapshot_id"))
    case _ => []
  }

  /** `_references_from_object`: every object an object points at. */
  function References(o: Object): seq<Ref> {
    Link("project", o.Text("project_id")) + KindReferences(o)
  }

  predicate Resolves(members: map<Ref, Object>, project: string, r: Ref) {
    if r.kind == "*" then exists m :: m in members && m.id == r.id
    else r == Ref("project", project) || r in members
  }

  /** Every reference of every member resolves among the members. */
  predicate Closed(members: map<Ref, Object>, project: string) {
    forall m :: m in members ==>
      forall i :: 0 <= i < |References(members[m])| ==> Resolves(members, project, References(members[m])[i])
  }

  // ---------------------------------------------------------------- evidence

  predicate LosesLimitation(prior: Object, obj: Object) {
    exists i :: 0 <= i < |prior.List("limitations")| && prior.List("limitations")[i] !in obj.List("limitations")
  }

  predicate RevisionDecision(pool: map<string, Object>, ref: string, id: string) {
    && ref in pool
    && pool[ref].Says("actor_type", "human")
    && pool[ref].Says("decision_kind", "research_revision")
    && pool[ref].Says("choice", "revise")
    && pool[ref].Names("evidence", id)
  }

  /** Some action aimed at this evidence cites a human decision to revise it. */
  predicate RevisionCited(pool: map<string, Object>, actions: seq<Action>, id: string) {
    exists i, j :: 0 <= i < |actions| && actions[i].TargetRef() == Some(Ref("evidence", id))
                   && 0 <= j < |actions[i].decisionRefs| && RevisionDecision(pool, actions[i].decisionRefs[j], id)
  }

  function EvidenceCodes(v: View, req: Request, obj: Object): set<string> {
    if obj.kind != "evidence" then {}
    else
      match v.Latest("evidence", obj.id)
      case None => {}
      case Some(prior) =>
        Flag(prior.Says("evidence_mode", "synthetic") && !obj.Says("evidence_mode", "synthetic"), "RT-EPI-005")
        + Flag(LosesLimitation(prior, obj)
            && !RevisionCited(Pool(v.decisions, req.actions), req.actions, obj.id), "RT-EPI-006")
  }

  // ---------------------------------------------------------------- next state

  /** `_object_revision_map`: stored revisions overlaid by the proposed ones. */
  function Overlay(objects: map<Key, Object>, objs: seq<Object>): map<Key, Object> {
    if objs == [] then objects
    else Overlay(objects, objs[..|objs| - 1])[objs[|objs| - 1].Slot() := objs[|objs| - 1]]
  }

  predicate MemberUnresolved(exact: map<Key, Object>, m: Ref, row: Row) {
    Key(m.kind, m.id, row.revision) !in exact
  }

  predicate MemberMismatched(exact: map<Key, Object>, m: Ref, row: Row) {
    Key(m.kind, m.id, row.revision) in exact
    && row.digest != CanonicalDigest(exact[Key(m.kind, m.id, row.revision)])
  }

  function SnapshotCodes(v: View, revisions: seq<Object>, s: Object): set<string> {
    var exact := Overlay(v.objects, revisions);
    Flag(v.Latest("snapshot", s.id).Some? || s.id == v.snapshot.id, "RT-STATE-001")
    + Flag(exists m :: m in s.members && MemberUnresolved(exact, m, s.members[m]), "RT-STATE-003")
    + Flag(exists m :: m in s.members && MemberMismatched(exact, m, s.members[m]), "RT-STATE-004")
    + Flag(s.seal != CanonicalDigest(s.(seal := Unsealed)), "RT-STATE-005")
  }

  predicate Replaces(v: View, obj: Object) {
    v.Exact(obj.kind, obj.id, obj.revision).Some?
    && CanonicalDigest(v.Exact(obj.kind, obj.id, obj.revision).value) != CanonicalDigest(obj)
  }

  function LineageEffectCodes(v: View, req: Request, red: Reduction, a: Action): set<string> {
    if !a.kind.ApplyLineagePlan? then {}
    else
      Flag(red.moved.Some? && red.moved.value.id == req.lineage && req.lineage in v.lineages
           && red.moved.value.head != v.lineages[req.lineage].head, "RT-LINEAGE-011")
      + Flag(!(red.child.Some? && a.plan.Some? && red.child.value.id == a.plan.value.targetLineage), "RT-LINEAGE-012")
  }

  /** Codes raised by the checks after reduction. */
  function PostCodes(v: View, req: Request, red: Reduction): set<string> {
    Flag(!Closed(Fold(v.Effective(), red.revisions), v.project), "RT-REF-001")
    + Flag(exists i :: 0 <= i < |red.revisions| && Replaces(v, red.revisions[i]), "RT-CORE-PROV-002")
    + (set i, c | 0 <= i < |req.actions| && c in LineageEffectCodes(v, req, red, req.actions[i]) :: c)
    + (set i, c | 0 <= i < |red.revisions| && c in EvidenceCodes(v, req, red.revisions[i]) :: c)
    + (if red.snapshot.None? then {} else SnapshotCodes(v, red.revisions, red.snapshot.value))
  }
}
