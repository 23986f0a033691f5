/** What an object refers to, kind by kind and field by field (core/runtime/state_validation.py:407-491),
    and that the heads of every reachable repository resolve it. */
module ReferenceFields {
  import opened Common
  import opened Records
  import opened Reducer
  import opened StateValidation
  import opened Repository
  import opened Service
  import opened History
  import opened Integrity

  // ---------------------------------------------------------------- one field

  /** The reference names a member, the project itself, or, of any kind, the id of a member. */
  predicate Found(members: map<Ref, Object>, project: string, r: Ref) {
    || (r.kind != "*" && r in members)
    || (r.kind == "project" && r.id == project)
    || (r.kind == "*" && exists m :: m in members && m.id == r.id)
  }

  /** Every id the list holds is that of a member of this kind. */
  predicate ListsMembers(members: map<Ref, Object>, o: Object, field: string, kind: string) {
    field in o.lists ==> forall id :: id in o.lists[field] ==> Ref(kind, id) in members
  }

  /** The id in the field, if there is one, is that of a member of this kind. */
  predicate NamesMember(members: map<Ref, Object>, o: Object, field: string, kind: string) {
    field in o.text && o.text[field] != "" ==> Ref(kind, o.text[field]) in members
  }

  /** Every reference with a kind and an id that the field holds is found. */
  predicate PointsWithin(members: map<Ref, Object>, project: string, o: Object, field: string) {
    field in o.refs ==> forall r :: r in o.refs[field] && r.kind != "" && r.id != "" ==> Found(members, project, r)
  }

  /** Every id the list holds is that of a member of some kind. */
  predicate ListsSome(members: map<Ref, Object>, o: Object, field: string) {
    field in o.lists ==> forall id :: id in o.lists[field] ==> exists m :: m in members && m.id == id
  }

  predicate ResearchKind(kind: string) {
    kind in {"project", "research_question", "claim", "method", "source", "evidence", "analysis", "finding",
             "counter_review", "argument", "contribution", "recommendation", "next_action", "artifact", "snapshot",
             "decision"}
  }

  predicate SubjectsWithin(members: map<Ref, Object>, project: string, o: Object) {
    "subjects" in o.refs ==>
      forall r :: r in o.refs["subjects"] && ResearchKind(r.kind) && r.id != "" ==> Found(members, project, r)
  }

  predicate ProjectKnown(members: map<Ref, Object>, project: string, o: Object) {
    "project_id" in o.text && o.text["project_id"] != "" ==>
      o.text["project_id"] == project || Ref("project", o.text["project_id"]) in members
  }

  // ---------------------------------------------------------------- one object

  predicate QuestionResolves(members: map<Ref, Object>, project: string, o: Object) {
    NamesMember(members, o, "parent_question_id", "research_question")
    && PointsWithin(members, project, o, "downstream_review_required_refs")
  }

  predicate ClaimResolves(members: map<Ref, Object>, o: Object) {
    NamesMember(members, o, "question_id", "research_question")
    && ListsMembers(members, o, "supporting_evidence_ids", "evidence")
    && ListsMembers(members, o, "challenging_evidence_ids", "evidence")
  }

  predicate AnalysisResolves(members: map<Ref, Object>, o: Object) {
    ListsMembers(members, o, "question_ids", "research_question")
    && NamesMember(members, o, "method_id", "method")
    && ListsMembers(members, o, "evidence_ids", "evidence")
  }

  predicate FindingResolves(members: map<Ref, Object>, o: Object) {
    ListsMembers(members, o, "question_ids", "research_question")
    && ListsMembers(members, o, "evidence_ids", "evidence")
    && ListsMembers(members, o, "analysis_ids", "analysis")
    && ListsMembers(members, o, "counter_evidence_ids", "evidence")
  }

  predicate ArgumentResolves(members: map<Ref, Object>, o: Object) {
    ListsMembers(members, o, "question_ids", "research_question")
    && NamesMember(members, o, "conclusion_claim_id", "claim")
    && ListsMembers(members, o, "premise_claim_ids", "claim")
    && ListsMembers(members, o, "finding_ids", "finding")
    && ListsMembers(members, o, "evidence_ids", "evidence")
    && ListsMembers(members, o, "counter_review_ids", "counter_review")
  }

  /** Everything the object names is there. */
  predicate FieldsResolve(members: map<Ref, Object>, project: string, o: Object) {
    && ProjectKnown(members, project, o)
    && (o.kind == "research_question" ==> QuestionResolves(members, project, o))
    && (o.kind == "claim" ==> ClaimResolves(members, o))
    && (o.kind == "method" ==> ListsMembers(members, o, "question_ids", "research_question"))
    && (o.kind == "evidence" ==> NamesMember(members, o, "source_id", "source"))
    && (o.kind == "analysis" ==> AnalysisResolves(members, o))
    && (o.kind == "finding" ==> FindingResolves(members, o))
    && (o.kind == "counter_review" ==>
          PointsWithin(members, project, o, "target") && ListsMembers(members, o, "evidence_ids", "evidence"))
    && (o.kind == "argument" ==> ArgumentResolves(members, o))
    && (o.kind == "contribution" ==> ListsMembers(members, o, "finding_ids", "finding"))
    && (o.kind == "recommendation" ==> ListsMembers(members, o, "finding_ids", "finding"))
    && (o.kind == "next_action" ==>
          PointsWithin(members, project, o, "target") && ListsSome(members, o, "blocked_by"))
    && (o.kind == "decision" ==> SubjectsWithin(members, project, o))
    && (o.kind == "artifact" ==> NamesMember(members, o, "source_snapshot_id", "snapshot"))
  }

  // ---------------------------------------------------------------- the references of an object

  predicate AllResolve(members: map<Ref, Object>, project: string, refs: seq<Ref>) {
    forall r :: r in refs ==> Resolves(members, project, r)
  }

  lemma AppendResolves(members: map<Ref, Object>, project: string, a: seq<Ref>, b: seq<Ref>)
    ensures AllResolve(members, project, a + b) <==> AllResolve(members, project, a) && AllResolve(members, project, b)
  {
  }

  lemma IdMembers(kind: string, ids: seq<string>, r: Ref)
    ensures r in Ids(kind, ids) <==> r.kind == kind && r.id in ids
  {
    if r.kind == kind && r.id in ids {
      var i :| 0 <= i < |ids| && ids[i] == r.id;
      assert Ids(kind, ids)[i] == r;
    }
  }

  lemma IdsResolve(members: map<Ref, Object>, project: string, o: Object, field: string, kind: string)
    requires kind != "*" && kind != "project"
    ensures AllResolve(members, project, Ids(kind, o.List(field))) <==> ListsMembers(members, o, field, kind)
  {
    forall r ensures r in Ids(kind, o.List(field)) <==> r.kind == kind && r.id in o.List(field) {
      IdMembers(kind, o.List(field), r);
    }
    if AllResolve(members, project, Ids(kind, o.List(field))) {
      forall id | id in o.List(field) ensures Ref(kind, id) in members {
        assert Resolves(members, project, Ref(kind, id));
      }
    }
  }

  lemma AnyResolves(members: map<Ref, Object>, project: string, o: Object, field: string)
    ensures AllResolve(members, project, Ids("*", o.List(field))) <==> ListsSome(members, o, field)
  {
    forall r ensures r in Ids("*", o.List(field)) <==> r.kind == "*" && r.id in o.List(field) {
      IdMembers("*", o.List(field), r);
    }
    if AllResolve(members, project, Ids("*", o.List(field))) {
      forall id | id in o.List(field) ensures exists m :: m in members && m.id == id {
        assert Resolves(members, project, Ref("*", id));
      }
    }
  }

  lemma LinkMembers(kind: string, text: Option<string>, r: Ref)
    ensures r in Link(kind, text) <==> text.Some? && text.value != "" && r == Ref(kind, text.value)
  {
  }

  lemma LinkResolves(members: map<Ref, Object>, project: string, o: Object, field: string, kind: string)
    requires kind != "*" && kind != "project"
    ensures AllResolve(members, project, Link(kind, o.Text(field))) <==> NamesMember(members, o, field, kind)
  {
    if field in o.text { LinkMembers(kind, o.Text(field), Ref(kind, o.text[field])); }
  }

  lemma ProjectResolves(members: map<Ref, Object>, project: string, o: Object)
    ensures AllResolve(members, project, Link("project", o.Text("project_id"))) <==> ProjectKnown(members, project, o)
  {
    if "project_id" in o.text { LinkMembers("project", o.Text("project_id"), Ref("project", o.text["project_id"])); }
  }

  lemma FoundResolves(members: map<Ref, Object>, project: string, r: Ref)
    ensures Resolves(members, project, r) <==> Found(members, project, r)
  {
  }

  lemma {:induction false} CompleteMembers(refs: seq<Ref>, r: Ref)
    ensures r in Complete(refs) <==> r in refs && r.kind != "" && r.id != ""
  {
    if refs != [] { CompleteMembers(refs[1..], r); }
  }

  lemma {:induction false} KnownMembers(refs: seq<Ref>, r: Ref)
    ensures r in KnownSubjects(refs) <==> r in refs && ResearchKind(r.kind)
  {
    if refs != [] { KnownMembers(refs[1..], r); }
  }

  lemma PointsResolve(members: map<Ref, Object>, project: string, o: Object, field: string)
    ensures AllResolve(members, project, Complete(o.Refs(field))) <==> PointsWithin(members, project, o, field)
  {
    forall r ensures r in Complete(o.Refs(field)) <==> r in o.Refs(field) && r.kind != "" && r.id != ""
             ensures Resolves(members, project, r) <==> Found(members, project, r)
    {
      CompleteMembers(o.Refs(field), r);
      FoundResolves(members, project, r);
    }
  }

  lemma SubjectsResolve(members: map<Ref, Object>, project: string, o: Object)
    ensures AllResolve(members, project, KnownSubjects(Complete(o.Refs("subjects")))) <==>
              SubjectsWithin(members, project, o)
  {
    forall r ensures r in KnownSubjects(Complete(o.Refs("subjects"))) <==>
                       r in o.Refs("subjects") && ResearchKind(r.kind) && r.id != ""
             ensures Resolves(members, project, r) <==> Found(members, project, r)
    {
      KnownMembers(Complete(o.Refs("subjects")), r);
      CompleteMembers(o.Refs("subjects"), r);
      FoundResolves(members, project, r);
    }
  }

  lemma TwoResolve(members: map<Ref, Object>, project: string, a: seq<Ref>, b: seq<Ref>, p: bool, q: bool)
    requires (AllResolve(members, project, a) <==> p) && (AllResolve(members, project, b) <==> q)
    ensures AllResolve(members, project, a + b) <==> p && q
  {
    AppendResolves(members, project, a, b);
  }

  lemma QuestionExactly(members: map<Ref, Object>, project: string, o: Object)
    requires o.kind == "research_question"
    ensures AllResolve(members, project, KindReferences(o)) <==> QuestionResolves(members, project, o)
  {
    LinkResolves(members, project, o, "parent_question_id", "research_question");
    PointsResolve(members, project, o, "downstream_review_required_refs");
    AppendResolves(members, project, Link("research_question", o.Text("parent_question_id")),
                   Complete(o.Refs("downstream_review_required_refs")));
  }

  lemma ClaimExactly(members: map<Ref, Object>, project: string, o: Object)
    requires o.kind == "claim"
    ensures AllResolve(members, project, KindReferences(o)) <==> ClaimResolves(members, o)
  {
    LinkResolves(members, project, o, "question_id", "research_question");
    IdsResolve(members, project, o, "supporting_evidence_ids", "evidence");
    IdsResolve(members, project, o, "challenging_evidence_ids", "evidence");
    var a, b := Link("research_question", o.Text("question_id")), Ids("evidence", o.List("supporting_evidence_ids"));
    AppendResolves(members, project, a, b);
    AppendResolves(members, project, a + b, Ids("evidence", o.List("challenging_evidence_ids")));
  }

  lemma AnalysisExactly(members: map<Ref, Object>, project: string, o: Object)
    requires o.kind == "analysis"
    ensures AllResolve(members, project, KindReferences(o)) <==> AnalysisResolves(members, o)
  {
    IdsResolve(members, project, o, "question_ids", "research_question");
    LinkResolves(members, project, o, "method_id", "method");
    IdsResolve(members, project, o, "evidence_ids", "evidence");
    var a, b := Ids("research_question", o.List("question_ids")), Link("method", o.Text("method_id"));
    AppendResolves(members, project, a, b);
    AppendResolves(members, project, a + b, Ids("evidence", o.List("evidence_ids")));
  }

  lemma FindingExactly(members: map<Ref, Object>, project: string, o: Object)
    requires o.kind == "finding"
    ensures AllResolve(members, project, KindReferences(o)) <==> FindingResolves(members, o)
  {
    IdsResolve(members, project, o, "question_ids", "research_question");
    IdsResolve(members, project, o, "evidence_ids", "evidence");
    IdsResolve(members, project, o, "analysis_ids", "analysis");
    IdsResolve(members, project, o, "counter_evidence_ids", "evidence");
    var a, b := Ids("research_question", o.List("question_ids")), Ids("evidence", o.List("evidence_ids"));
    var c := Ids("analysis", o.List("analysis_ids"));
    AppendResolves(members, project, a, b);
    AppendResolves(members, project, a + b, c);
    AppendResolves(members, project, a + b + c, Ids("evidence", o.List("counter_evidence_ids")));
  }

  lemma ReviewExactly(members: map<Ref, Object>, project: string, o: Object)
    requires o.kind == "counter_review"
    ensures AllResolve(members, project, KindReferences(o)) <==>
              PointsWithin(members, project, o, "target") && ListsMembers(members, o, "evidence_ids", "evidence")
  {
    PointsResolve(members, project, o, "target");
    IdsResolve(members, project, o, "evidence_ids", "evidence");
    AppendResolves(members, project, Complete(o.Refs("target")), Ids("evidence", o.List("evidence_ids")));
  }

  lemma ArgumentExactly(members: map<Ref, Object>, project: string, o: Object)
    requires o.kind == "argument"
    ensures AllResolve(members, project, KindReferences(o)) <==> ArgumentResolves(members, o)
  {
    IdsResolve(members, project, o, "question_ids", "research_question");
    LinkResolves(members, project, o, "conclusion_claim_id", "claim");
    IdsResolve(members, project, o, "premise_claim_ids", "claim");
    IdsResolve(members, project, o, "finding_ids", "finding");
    IdsResolve(members, project, o, "evidence_ids", "evidence");
    IdsResolve(members, project, o, "counter_review_ids", "counter_review");
    var a, b := Ids("research_question", o.List("question_ids")), Link("claim", o.Text("conclusion_claim_id"));
    var c, d := Ids("claim", o.List("premise_claim_ids")), Ids("finding", o.List("finding_ids"));
    var e := Ids("evidence", o.List("evidence_ids"));
    AppendResolves(members, project, a, b);
    AppendResolves(members, project, a + b, c);
    AppendResolves(members, project, a + b + c, d);
    AppendResolves(members, project, a + b + c + d, e);
    AppendResolves(members, project, a + b + c + d + e, Ids("counter_review", o.List("counter_review_ids")));
  }

  lemma NextActionExactly(members: map<Ref, Object>, project: string, o: Object)
    requires o.kind == "next_action"
    ensures AllResolve(members, project, KindReferences(o)) <==>
              PointsWithin(members, project, o, "target") && ListsSome(members, o, "blocked_by")
  {
    PointsResolve(members, project, o, "target");
    AnyResolves(members, project, o, "blocked_by");
    AppendResolves(members, project, Complete(o.Refs("target")), Ids("*", o.List("blocked_by")));
  }

  lemma SimpleExactly(members: map<Ref, Object>, project: string, o: Object)
    ensures o.kind == "method" ==>
              (AllResolve(members, project, KindReferences(o)) <==>
               ListsMembers(members, o, "question_ids", "research_question"))
    ensures o.kind == "evidence" ==>
              (AllResolve(members, project, KindReferences(o)) <==> NamesMember(members, o, "source_id", "source"))
    ensures o.kind == "contribution" || o.kind == "recommendation" ==>
              (AllResolve(members, project, KindReferences(o)) <==> ListsMembers(members, o, "finding_ids", "finding"))
    ensures o.kind == "decision" ==>
              (AllResolve(members, project, KindReferences(o)) <==> SubjectsWithin(members, project, o))
    ensures o.kind == "artifact" ==>
              (AllResolve(members, project, KindReferences(o)) <==>
               NamesMember(members, o, "source_snapshot_id", "snapshot"))
  {
    match o.kind
    case "method" => IdsResolve(members, project, o, "question_ids", "research_question");
    case "evidence" => LinkResolves(members, project, o, "source_id", "source");
    case "contribution" => IdsResolve(members, project, o, "finding_ids", "finding");
    case "recommendation" => IdsResolve(members, project, o, "finding_ids", "finding");
    case "decision" => SubjectsResolve(members, project, o);
    case "artifact" => LinkResolves(members, project, o, "source_snapshot_id", "snapshot");
    case _ =>
  }

  lemma KindExactly(members: map<Ref, Object>, project: string, o: Object)
    ensures AllResolve(members, project, KindReferences(o)) && ProjectKnown(members, project, o) <==>
              FieldsResolve(members, project, o)
  {
    SimpleExactly(members, project, o);
    match o.kind
    case "research_question" => QuestionExactly(members, project, o);
    case "claim" => ClaimExactly(members, project, o);
    case "analysis" => AnalysisExactly(members, project, o);
    case "finding" => FindingExactly(members, project, o);
    case "counter_review" => ReviewExactly(members, project, o);
    case "argument" => ArgumentExactly(members, project, o);
    case "next_action" => NextActionExactly(members, project, o);
    case _ =>
  }

  /** The references of an object all resolve exactly when everything it names is there. */
  lemma ReferencesExactly(members: map<Ref, Object>, project: string, o: Object)
    ensures AllResolve(members, project, References(o)) <==> FieldsResolve(members, project, o)
  {
    ProjectResolves(members, project, o);
    AppendResolves(members, project, Link("project", o.Text("project_id")), KindReferences(o));
    KindExactly(members, project, o);
  }

  // ---------------------------------------------------------------- member maps

  predicate MembersHaveAll(members: map<Ref, Object>, project: string) {
    forall m :: m in members ==> FieldsResolve(members, project, members[m])
  }

  /** The reference check passes a member map exactly when every member has all that it names. */
  lemma ClosedExactly(members: map<Ref, Object>, project: string)
    ensures Closed(members, project) <==> MembersHaveAll(members, project)
  {
    forall m | m in members
      ensures (forall i :: 0 <= i < |References(members[m])| ==> Resolves(members, project, References(members[m])[i]))
              <==> FieldsResolve(members, project, members[m])
    {
      ReferencesExactly(members, project, members[m]);
      EachResolves(members, project, References(members[m]));
    }
  }

  lemma EachResolves(members: map<Ref, Object>, project: string, refs: seq<Ref>)
    ensures AllResolve(members, project, refs) <==> forall i :: 0 <= i < |refs| ==> Resolves(members, project, refs[i])
  {
    if forall i :: 0 <= i < |refs| ==> Resolves(members, project, refs[i]) {
      forall r | r in refs ensures Resolves(members, project, r) {
        var i :| 0 <= i < |refs| && refs[i] == r;
      }
    }
  }

  lemma OnlyReferenceCode(v: View, req: Request, red: Reduction)
    ensures "RT-REF-001" in PostCodes(v, req, red) <==> !Closed(Fold(v.Effective(), red.revisions), v.project)
  {
    forall i | 0 <= i < |req.actions| ensures "RT-REF-001" !in LineageEffectCodes(v, req, red, req.actions[i]) {}
    forall i | 0 <= i < |red.revisions| ensures "RT-REF-001" !in EvidenceCodes(v, req, red.revisions[i]) {}
  }

  /** A reduction raises RT-REF-001 exactly when some effective object names what is not there. */
  lemma ReferenceCodeExactly(v: View, req: Request, red: Reduction)
    ensures "RT-REF-001" in PostCodes(v, req, red) <==>
              !MembersHaveAll(Fold(v.Effective(), red.revisions), v.project)
  {
    OnlyReferenceCode(v, req, red);
    ClosedExactly(Fold(v.Effective(), red.revisions), v.project);
  }

  // ---------------------------------------------------------------- every run

  /** The snapshot has what its members name, at the revisions it records. */
  ghost predicate HeadHasAll(r: Repo, id: string) {
    id in r.snapshots && MembersHaveAll(Resolved(r.objects, r.snapshots[id]), r.project)
  }

  /** Over every run each snapshot that an ordinary request stored has all that its members name. */
  lemma RunHeadsHaveAll(seed: Repo, p: Policy, events: seq<Event>, n: nat)
    requires SoundSeed(seed) && CleanEvents(events)
    requires n < |Run(seed, p, events).log| && Ordinary(Run(seed, p, events).log[n].req)
    ensures HeadHasAll(Run(seed, p, events).repo, Run(seed, p, events).log[n].req.snapshotId)
  {
    RunIntegral(seed, p, events);
    var r, id := Run(seed, p, events).repo, Run(seed, p, events).log[n].req.snapshotId;
    assert ClosedHead(r, Run(seed, p, events).log[n].req);
    ClosedExactly(Resolved(r.objects, r.snapshots[id]), r.project);
  }
}
