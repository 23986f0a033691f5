/** The Decision check on the fields of the objects: which human Decision each change needs
    (core/runtime/authority_validation.py:36-97), and what every reachable repository holds for it. */
module DecisionRules {
  import opened Common
  import opened Records
  import opened Authority
  import opened Reducer
  import opened ReducerFacts
  import opened Repository
  import opened Service
  import opened CommitFacts
  import opened History
  import opened SingleUse
  import opened Provenance

  // ---------------------------------------------------------------- which Decisions an action needs

  const RESEARCH_KINDS: set<string> := {"research_question", "method", "finding", "recommendation"}

  function Field<V>(fields: map<string, V>, f: string): Option<V> {
    if f in fields then Some(fields[f]) else None
  }

  /** The revisions differ in a field other than revision, `adoption_state` and `decision_ids`. */
  ghost predicate Differs(a: Object, b: Object) {
    || (exists f :: f != "adoption_state" && Field(a.text, f) != Field(b.text, f))
    || (exists f :: f != "decision_ids" && Field(a.lists, f) != Field(b.lists, f))
    || a.refs != b.refs || a.members != b.members || a.seal != b.seal
  }

  /** The field has this value now and had another one, or none, before. */
  predicate Becomes(prior: Option<Object>, o: Object, field: string, value: string) {
    Field(o.text, field) == Some(value) && (prior.None? || Field(prior.value.text, field) != Some(value))
  }

  ghost predicate ResearchNeeds(prior: Option<Object>, o: Object, q: Requirement) {
    && o.kind in RESEARCH_KINDS && q.subject == Ref(o.kind, o.id)
    && (|| (q.decisionKind == "research_adoption" && q.choice == "approve"
            && Becomes(prior, o, "adoption_state", "approved"))
        || (q.decisionKind == "research_adoption" && q.choice == "reject"
            && (|| Becomes(prior, o, "adoption_state", "rejected")
                || Becomes(prior, o, "adoption_state", "closed")
                || Becomes(prior, o, "adoption_state", "out_of_scope")))
        || (q.decisionKind == "research_revision" && q.choice == "revise"
            && prior.Some? && Differs(prior.value, o)))
  }

  predicate EvidenceNeeds(prior: Option<Object>, o: Object, q: Requirement) {
    && o.kind == "evidence" && q.subject == Ref(o.kind, o.id)
    && (|| (q.decisionKind == "evidence_qualification" && q.choice == "verify"
            && Becomes(prior, o, "verification_status", "verified"))
        || (q.decisionKind == "evidence_reclassification" && q.choice == "reclassify"
            && prior.Some? && Field(prior.value.text, "evidence_kind") != Field(o.text, "evidence_kind")))
  }

  /** A plan needs a Decision of its own and one for each object it reconfirms; a switch needs one. */
  predicate LineageNeeds(a: Action, q: Requirement) {
    || (a.kind.ApplyLineagePlan? && q.decisionKind == "lineage_plan" && q.choice == "apply"
        && q.subject == Ref("lineage_plan", if a.plan.Some? then a.plan.value.planRef else ""))
    || (a.kind.ApplyLineagePlan? && a.plan.Some?
        && q.decisionKind == "lineage_reconfirmation" && q.choice == "reconfirm"
        && exists j :: 0 <= j < |a.plan.value.treatments| && DerivesAs(a.plan.value.treatments[j], q.subject))
    || (a.kind.SwitchActiveLineage? && q.decisionKind == "active_lineage_selection" && q.choice == "switch"
        && q.subject == Ref("research_lineage", a.switchTarget))
  }

  predicate DerivesAs(t: Treatment, subject: Ref) {
    t.treatment == "RECONFIRM" && t.derived.Some? && Ref(t.derived.value.kind, t.derived.value.id) == subject
  }

  ghost predicate Needs(v: View, a: Action, q: Requirement) {
    || (a.payload.Some?
        && var o := a.payload.value;
           ResearchNeeds(v.Latest(o.kind, o.id), o, q) || EvidenceNeeds(v.Latest(o.kind, o.id), o, q))
    || LineageNeeds(a, q)
  }

  lemma SameFields<V>(a: map<string, V>, b: map<string, V>, but: string)
    ensures a - {but} == b - {but} <==> forall f :: f != but ==> Field(a, f) == Field(b, f)
  {
    var x, y := a - {but}, b - {but};
    if x == y {
      forall f | f != but ensures Field(a, f) == Field(b, f) { assert Field(x, f) == Field(y, f); }
    } else if forall f :: f != but ==> Field(a, f) == Field(b, f) {
      forall f ensures f in x <==> f in y
               ensures f in x ==> x[f] == y[f]
      {
        if f != but { assert Field(a, f) == Field(b, f); }
      }
    }
  }

  lemma MaterialDiffers(prior: Object, o: Object)
    requires prior.kind == o.kind && prior.id == o.id
    ensures MaterialResearchChange(prior, o) <==> Differs(prior, o)
  {
    SameFields(prior.text, o.text, "adoption_state");
    SameFields(prior.lists, o.lists, "decision_ids");
  }

  lemma AdoptionExactly(prior: Option<Object>, o: Object, q: Requirement)
    ensures q in AdoptionRequirement(prior, o) <==>
              && q.decisionKind == "research_adoption" && q.subject == Ref(o.kind, o.id)
              && (|| (q.choice == "approve" && Becomes(prior, o, "adoption_state", "approved"))
                  || (q.choice == "reject"
                      && (|| Becomes(prior, o, "adoption_state", "rejected")
                          || Becomes(prior, o, "adoption_state", "closed")
                          || Becomes(prior, o, "adoption_state", "out_of_scope"))))
  {
  }

  lemma ResearchExactly(prior: Option<Object>, o: Object, q: Requirement)
    requires prior.Some? ==> prior.value.kind == o.kind && prior.value.id == o.id
    ensures Protected(o.kind) && q in AdoptionRequirement(prior, o) + RevisionRequirement(prior, o)
            <==> ResearchNeeds(prior, o, q)
  {
    AdoptionExactly(prior, o, q);
    if prior.Some? { MaterialDiffers(prior.value, o); }
    assert Protected(o.kind) <==> o.kind in RESEARCH_KINDS;
  }

  lemma EvidenceExactly(prior: Option<Object>, o: Object, q: Requirement)
    ensures o.kind == "evidence" && q in EvidenceRequirements(prior, o) <==> EvidenceNeeds(prior, o, q)
  {
  }

  lemma LineageExactly(a: Action, q: Requirement)
    ensures (a.kind.ApplyLineagePlan? && q in PlanRequirements(a.plan))
            || (a.kind.SwitchActiveLineage?
                && q == Requirement("active_lineage_selection", "switch", Ref("research_lineage", a.switchTarget)))
            <==> LineageNeeds(a, q)
  {
    if a.kind.ApplyLineagePlan? && a.plan.Some? {
      var ts := a.plan.value.treatments;
      if t :| t in ts && Reconfirms(t)
              && q == Requirement("lineage_reconfirmation", "reconfirm", t.derived.value.Identity()) {
        var j :| 0 <= j < |ts| && ts[j] == t;
        assert DerivesAs(ts[j], q.subject);
      }
    }
  }

  lemma LatestOfIdentity(v: View, kind: string, id: string)
    requires forall k :: k in v.objects ==> v.objects[k].Slot() == k
    ensures v.Latest(kind, id).Some? ==> v.Latest(kind, id).value.kind == kind && v.Latest(kind, id).value.id == id
  {
  }

  lemma RequiredParts(v: View, a: Action, q: Requirement)
    ensures q in Required(v, a) <==>
              || (a.payload.Some?
                  && q in ObjectRequirements(v.Latest(a.payload.value.kind, a.payload.value.id), a.payload.value))
              || (a.kind.ApplyLineagePlan? && q in PlanRequirements(a.plan))
              || (a.kind.SwitchActiveLineage?
                  && q == Requirement("active_lineage_selection", "switch", Ref("research_lineage", a.switchTarget)))
  {
  }

  /** The Decisions an action needs, read off the fields of its object and of the revision before. */
  lemma RequiredExactly(v: View, a: Action, q: Requirement)
    requires forall k :: k in v.objects ==> v.objects[k].Slot() == k
    ensures q in Required(v, a) <==> Needs(v, a, q)
  {
    RequiredParts(v, a, q);
    LineageExactly(a, q);
    if a.payload.Some? {
      var o := a.payload.value;
      var prior := v.Latest(o.kind, o.id);
      LatestOfIdentity(v, o.kind, o.id);
      ResearchExactly(prior, o, q);
      EvidenceExactly(prior, o, q);
    }
  }

  // ---------------------------------------------------------------- the codes

  /** Decision `d` of the pool answers `q`: human, unused, of this project, about this subject,
      and listed by the object when there is one. */
  predicate Usable(pool: map<string, Object>, v: View, project: string, a: Action, q: Requirement, d: string) {
    && d in pool && d !in v.used && d in a.decisionRefs
    && Field(pool[d].text, "actor_type") == Some("human") && Field(pool[d].text, "project_id") == Some(project)
    && Field(pool[d].text, "decision_kind") == Some(q.decisionKind)
    && Field(pool[d].text, "choice") == Some(q.choice)
    && "subjects" in pool[d].refs && q.subject in pool[d].refs["subjects"]
    && (a.payload.Some? ==>
          "decision_ids" in a.payload.value.lists && d in a.payload.value.lists["decision_ids"])
  }

  lemma UsableIsAnswer(pool: map<string, Object>, v: View, project: string, a: Action, q: Requirement, d: string)
    ensures Usable(pool, v, project, a, q, d) <==> d in a.decisionRefs && Answers(pool, v, project, a, q, d)
  {
  }

  /** The Decisions a request may cite: the stored ones, and those it records itself. */
  lemma {:induction false} PoolExactly(stored: map<string, Object>, actions: seq<Action>, d: string)
    ensures d in Pool(stored, actions) <==>
              d != "" && (d in stored || exists o :: o in DecisionsOf(actions) && o.id == d)
  {
    if actions != [] {
      var front, last := actions[..|actions| - 1], actions[|actions| - 1];
      PoolExactly(stored, front, d);
      assert forall o :: o in DecisionsOf(actions) <==>
          o in DecisionsOf(front) || (last.kind.RecordDecision? && last.payload == Some(o));
    }
  }

  lemma UnansweredExactly(v: View, req: Request, a: Action)
    requires forall k :: k in v.objects ==> v.objects[k].Slot() == k
    ensures var pool := Pool(v.decisions, req.actions);
            SomeUnanswered(pool, v, req.project, a, Required(v, a)) <==>
              exists q :: Needs(v, a, q) && forall d :: !Usable(pool, v, req.project, a, q, d)
  {
    var pool, needs := Pool(v.decisions, req.actions), Required(v, a);
    forall q ensures q in needs <==> Needs(v, a, q)
             ensures Unanswered(pool, v, req.project, a, q) <==>
                       forall d :: !Usable(pool, v, req.project, a, q, d)
    {
      RequiredExactly(v, a, q);
      UnansweredOne(pool, v, req.project, a, q);
    }
    if SomeUnanswered(pool, v, req.project, a, needs) {
      var j :| 0 <= j < |needs| && Unanswered(pool, v, req.project, a, needs[j]);
      assert needs[j] in needs;
    }
    if q :| Needs(v, a, q) && forall d :: !Usable(pool, v, req.project, a, q, d) {
      assert q in needs;
      var j :| 0 <= j < |needs| && needs[j] == q;
      assert Unanswered(pool, v, req.project, a, needs[j]);
    }
  }

  lemma UnansweredOne(pool: map<string, Object>, v: View, project: string, a: Action, q: Requirement)
    ensures Unanswered(pool, v, project, a, q) <==> forall d :: !Usable(pool, v, project, a, q, d)
  {
    forall d ensures Usable(pool, v, project, a, q, d) <==> d in a.decisionRefs && Answers(pool, v, project, a, q, d) {
      UsableIsAnswer(pool, v, project, a, q, d);
    }
    if Unanswered(pool, v, project, a, q) {
      forall d ensures !Usable(pool, v, project, a, q, d) {
        if d in a.decisionRefs { var i :| 0 <= i < |a.decisionRefs| && a.decisionRefs[i] == d; }
      }
    } else {
      var i :| 0 <= i < |a.decisionRefs| && Answers(pool, v, project, a, q, a.decisionRefs[i]);
      assert Usable(pool, v, project, a, q, a.decisionRefs[i]);
    }
  }

  /** What makes a cited Decision wrong by itself. */
  predicate CitesUnknown(pool: map<string, Object>, d: string) { d !in pool }

  predicate CitesMachine(pool: map<string, Object>, d: string) {
    d in pool && Field(pool[d].text, "actor_type") != Some("human")
  }

  predicate CitesOther(pool: map<string, Object>, a: Action, d: string) {
    && d in pool && a.kind != ApplyLineagePlan && a.kind != SwitchActiveLineage
    && match a.TargetRef()
       case None => false
       case Some(target) => !("subjects" in pool[d].refs && target in pool[d].refs["subjects"])
  }

  predicate CitesUsed(pool: map<string, Object>, v: View, d: string) { d in pool && d in v.used }

  lemma CodeOfAction(v: View, req: Request, c: string)
    ensures c in HumanDecisionCodes(v, req) <==>
              exists i :: 0 <= i < |req.actions|
                          && c in ActionDecisionCodes(Pool(v.decisions, req.actions), v, req.project, req.actions[i])
  {
  }

  lemma ReferenceExactly(pool: map<string, Object>, v: View, a: Action, d: string, c: string)
    ensures c in ReferenceCodes(pool, v, a, d) <==>
              || (c == "RT-DECISION-002" && CitesUnknown(pool, d))
              || (c == "RT-DECISION-003" && CitesMachine(pool, d))
              || (c == "RT-DECISION-004" && CitesOther(pool, a, d))
              || (c == "RT-DECISION-005" && CitesUsed(pool, v, d))
  {
  }

  lemma CitedExactly(pool: map<string, Object>, v: View, a: Action, c: string)
    ensures c in ReferencesCodes(pool, v, a, a.decisionRefs) <==>
              exists d :: d in a.decisionRefs && c in ReferenceCodes(pool, v, a, d)
  {
    if d :| d in a.decisionRefs && c in ReferenceCodes(pool, v, a, d) {
      var j :| 0 <= j < |a.decisionRefs| && a.decisionRefs[j] == d;
    }
  }

  /** Action `a` of the request gives cause for code `c`. */
  ghost predicate Causes(v: View, req: Request, a: Action, c: string) {
    var pool := Pool(v.decisions, req.actions);
    || (c == "RT-DECISION-001" && exists q :: Needs(v, a, q) && forall d :: !Usable(pool, v, req.project, a, q, d))
    || (exists d :: d in a.decisionRefs
          && (|| (c == "RT-DECISION-002" && CitesUnknown(pool, d)) || (c == "RT-DECISION-003" && CitesMachine(pool, d))
              || (c == "RT-DECISION-004" && CitesOther(pool, a, d))
              || (c == "RT-DECISION-005" && CitesUsed(pool, v, d))))
  }

  lemma ActionCodesExactly(v: View, req: Request, a: Action, c: string)
    requires forall k :: k in v.objects ==> v.objects[k].Slot() == k
    ensures c in ActionDecisionCodes(Pool(v.decisions, req.actions), v, req.project, a) <==> Causes(v, req, a, c)
  {
    var pool := Pool(v.decisions, req.actions);
    UnansweredExactly(v, req, a);
    CitedExactly(pool, v, a, c);
    forall d ensures c in ReferenceCodes(pool, v, a, d) <==>
                       || (c == "RT-DECISION-002" && CitesUnknown(pool, d))
                       || (c == "RT-DECISION-003" && CitesMachine(pool, d))
                       || (c == "RT-DECISION-004" && CitesOther(pool, a, d))
                       || (c == "RT-DECISION-005" && CitesUsed(pool, v, d))
    {
      ReferenceExactly(pool, v, a, d, c);
    }
  }

  /** The Decision check raises a code exactly when an action gives cause for it. */
  lemma DecisionCodesExactly(v: View, req: Request, c: string)
    requires forall k :: k in v.objects ==> v.objects[k].Slot() == k
    ensures c in HumanDecisionCodes(v, req) <==> exists i :: 0 <= i < |req.actions| && Causes(v, req, req.actions[i], c)
  {
    CodeOfAction(v, req, c);
    forall i | 0 <= i < |req.actions|
      ensures c in ActionDecisionCodes(Pool(v.decisions, req.actions), v, req.project, req.actions[i])
              <==> Causes(v, req, req.actions[i], c)
    {
      ActionCodesExactly(v, req, req.actions[i], c);
    }
  }

  // ---------------------------------------------------------------- what a stored request leaves behind

  /** Stored Decision `d` is a consumed answer of a human that says this about this subject. */
  predicate HumanSaid(r: Repo, d: string, q: Requirement) {
    && d in r.used && d in r.decisions
    && Field(r.decisions[d].text, "actor_type") == Some("human")
    && Field(r.decisions[d].text, "project_id") == Some(r.project)
    && Field(r.decisions[d].text, "decision_kind") == Some(q.decisionKind)
    && Field(r.decisions[d].text, "choice") == Some(q.choice)
    && "subjects" in r.decisions[d].refs && q.subject in r.decisions[d].refs["subjects"]
  }

  ghost predicate ListedAnswer(r: Repo, o: Object, q: Requirement) {
    exists d :: HumanSaid(r, d, q) && "decision_ids" in o.lists && d in o.lists["decision_ids"]
  }

  ghost predicate CitedAnswer(r: Repo, a: Action, q: Requirement) {
    exists d :: HumanSaid(r, d, q) && d in a.decisionRefs
  }

  /** The object is stored, and each change it makes to the stored revision before it is backed by
      a Decision it lists. */
  ghost predicate ChangesBacked(r: Repo, o: Object) {
    && o.Slot() in r.objects && r.objects[o.Slot()] == o
    && var prior := Lookup(r.objects, Before(o.Slot()));
       forall q :: ResearchNeeds(prior, o, q) || EvidenceNeeds(prior, o, q) ==> ListedAnswer(r, o, q)
  }

  /** Every Decision the action cites is stored, a human's, and about what the action is about. */
  predicate CitesWell(r: Repo, a: Action, d: string) {
    && d in r.decisions && Field(r.decisions[d].text, "actor_type") == Some("human")
    && (a.kind == ApplyLineagePlan || a.kind == SwitchActiveLineage || a.TargetRef().None?
        || ("subjects" in r.decisions[d].refs && a.TargetRef().value in r.decisions[d].refs["subjects"]))
  }

  /** Kinds of action whose payload becomes an object revision. */
  predicate WritesPayload(a: Action) {
    a.payload.Some? && a.kind != ApplyLineagePlan && a.kind != SwitchActiveLineage && a.kind != RecordRunResultAdoption
  }

  ghost predicate ActionBacked(r: Repo, a: Action) {
    && (WritesPayload(a) ==> ChangesBacked(r, a.payload.value))
    && (forall q :: LineageNeeds(a, q) ==> CitedAnswer(r, a, q))
    && (forall d :: d in a.decisionRefs ==> CitesWell(r, a, d))
  }

  ghost predicate LogBacked(r: Repo, log: seq<Pending>) {
    forall n, i :: 0 <= n < |log| && 0 <= i < |log[n].req.actions| ==> ActionBacked(r, log[n].req.actions[i])
  }

  lemma ChangesKept(a: Repo, b: Repo, o: Object)
    requires Grows(a, b) && GapFree(a.objects) && GapFree(b.objects) && ChangesBacked(a, o)
    ensures ChangesBacked(b, o)
  {
    if Before(o.Slot()) in b.objects { BeforeStored(a.objects, b.objects, o.Slot()); }
    var prior := Lookup(b.objects, Before(o.Slot()));
    assert prior == Lookup(a.objects, Before(o.Slot()));
    forall q | ResearchNeeds(prior, o, q) || EvidenceNeeds(prior, o, q) ensures ListedAnswer(b, o, q) {
      var d :| HumanSaid(a, d, q) && "decision_ids" in o.lists && d in o.lists["decision_ids"];
      assert HumanSaid(b, d, q);
    }
  }

  lemma ActionKept(a: Repo, b: Repo, act: Action)
    requires Grows(a, b) && GapFree(a.objects) && GapFree(b.objects) && ActionBacked(a, act)
    ensures ActionBacked(b, act)
  {
    if WritesPayload(act) { ChangesKept(a, b, act.payload.value); }
    forall q | LineageNeeds(act, q) ensures CitedAnswer(b, act, q) {
      var d :| HumanSaid(a, d, q) && d in act.decisionRefs;
      assert HumanSaid(b, d, q);
    }
    forall d | d in act.decisionRefs ensures CitesWell(b, act, d) { assert CitesWell(a, act, d); }
  }

  lemma OneSemantic(v: View, req: Request, red: Reduction)
    requires Reduce(v, req) == Some(red) && (HasPlan(req.actions) || HasSwitch(req.actions))
    ensures |Semantic(req.actions)| == 1
  {
  }

  lemma SoleSemantic(actions: seq<Action>, i: nat, k: nat)
    requires |Semantic(actions)| == 1 && i < |actions| && k < |actions|
    requires !actions[i].kind.RecordDecision? && !actions[k].kind.RecordDecision?
    ensures actions[i] == actions[k]
  {
    SemanticKeeps(actions, i);
    SemanticKeeps(actions, k);
  }

  /** Beside a plan or a switch there are only recorded Decisions. */
  lemma OnlyDecisionsBeside(actions: seq<Action>, i: nat)
    requires (HasPlan(actions) || HasSwitch(actions)) && |Semantic(actions)| == 1 && i < |actions|
    ensures actions[i].kind.ApplyLineagePlan? || actions[i].kind.SwitchActiveLineage? || actions[i].kind.RecordDecision?
  {
    if !actions[i].kind.RecordDecision? {
      if HasPlan(actions) {
        var k :| 0 <= k < |actions| && actions[k].kind.ApplyLineagePlan?;
        SoleSemantic(actions, i, k);
      } else {
        var k :| 0 <= k < |actions| && actions[k].kind.SwitchActiveLineage?;
        SoleSemantic(actions, i, k);
      }
    }
  }

  /** Every payload an action writes is one of the revisions. */
  lemma WrittenIsRevision(v: View, req: Request, red: Reduction, i: nat)
    requires Reduce(v, req) == Some(red) && i < |req.actions| && WritesPayload(req.actions[i])
    ensures req.actions[i].payload.value in red.revisions
  {
    var o := req.actions[i].payload.value;
    if HasPlan(req.actions) || HasSwitch(req.actions) {
      OneSemantic(v, req, red);
      OnlyDecisionsBeside(req.actions, i);
      DecisionsOrigin(req.actions, o);
      RecordedDecisions(v, req, red, o);
    } else {
      SortMembers(ObjectsOf(req.actions), o);
      ObjectsOrigin(req.actions, o);
    }
  }

  lemma RevisionFiled(r: Repo, b: Bundle, o: Object)
    requires Staged(r, b).Some? && Tidy(b.reduction) && o in b.reduction.revisions && Unreserved(o.kind)
    ensures o.Slot() in Staged(r, b).value.objects && Staged(r, b).value.objects[o.Slot()] == o
  {
    StagedObjects(r.objects, b.reduction.revisions);
  }

  lemma PriorFiled(v: View, r: Repo, next: Repo, o: Object)
    requires WellFormed(next) && Grows(r, next) && Extends(v.objects, r.objects) && Follows(v, o)
    requires forall k :: k in v.objects ==> v.objects[k].Slot() == k
    ensures Lookup(next.objects, Before(o.Slot())) == v.Latest(o.kind, o.id)
  {
    FollowsBefore(v, r.objects, next.objects, o);
  }

  lemma WrittenIsStored(base: Repo, r: Repo, req: Request, v: View, red: Reduction, b: Bundle, o: Object)
    requires WellFormed(base) && WellFormed(r) && Grows(base, r) && Clean(req)
    requires LoadView(base, req.project, req.lineage) == Some(v) && Reduce(v, req) == Some(red)
    requires b.reduction == red && b.key !in r.commits && Staged(r, b).Some? && o in red.revisions
    ensures var next := Staged(r, b).value;
            o.Slot() in next.objects && next.objects[o.Slot()] == o
            && Lookup(next.objects, Before(o.Slot())) == v.Latest(o.kind, o.id)
  {
    ReducedTidy(v, req, red);
    RevisionsUnreserved(v, req, red, o);
    RevisionFiled(r, b, o);
    RevisionOrigin(v, req, red, o);
    StoredIsWellFormed(base, r, req, v, red, b);
    ViewOfBase(base, req.project, req.lineage);
    PriorFiled(v, r, Staged(r, b).value, o);
  }

  lemma ConsumedSaid(v: View, req: Request, red: Reduction, r: Repo, b: Bundle, i: nat, q: Requirement)
    requires HumanDecisionCodes(v, req) == {} && Reduce(v, req) == Some(red) && req.project == r.project
    requires b.reduction == red && Staged(r, b).Some? && Extends(v.decisions, r.decisions)
    requires i < |req.actions| && q in Required(v, req.actions[i])
    ensures CitedAnswer(Staged(r, b).value, req.actions[i], q)
    ensures req.actions[i].payload.Some? ==> ListedAnswer(Staged(r, b).value, req.actions[i].payload.value, q)
  {
    var d := RequirementAnswered(v, req, i, q);
    CitedIsStored(v, req, red, r, b, d);
    StagedKeepsSetup(r, b);
    CitedIsUsed(v, req, red, r, b, i, d);
    AnswerSaid(Staged(r, b).value, Pool(v.decisions, req.actions), v, req.actions[i], q, d);
  }

  lemma CitedIsUsed(v: View, req: Request, red: Reduction, r: Repo, b: Bundle, i: nat, d: string)
    requires Reduce(v, req) == Some(red) && b.reduction == red && Staged(r, b).Some?
    requires i < |req.actions| && Required(v, req.actions[i]) != [] && d in req.actions[i].decisionRefs
    ensures d in Staged(r, b).value.used
  {
    ReducedUsed(v, req, red);
    assert req.actions[i] in req.actions;
  }

  lemma AnswerSaid(r: Repo, pool: map<string, Object>, v: View, a: Action, q: Requirement, d: string)
    requires Answers(pool, v, r.project, a, q, d) && d in a.decisionRefs && d in r.used
    requires d in r.decisions && r.decisions[d] == pool[d]
    ensures CitedAnswer(r, a, q) && (a.payload.Some? ==> ListedAnswer(r, a.payload.value, q))
  {
    assert HumanSaid(r, d, q);
  }

  lemma WrittenBacked(base: Repo, r: Repo, req: Request, v: View, red: Reduction, b: Bundle, i: nat)
    requires WellFormed(base) && WellFormed(r) && Grows(base, r) && Clean(req)
    requires LoadView(base, req.project, req.lineage) == Some(v) && Reduce(v, req) == Some(red)
    requires HumanDecisionCodes(v, req) == {} && req.project == r.project
    requires b.reduction == red && b.key !in r.commits && Staged(r, b).Some?
    requires i < |req.actions| && WritesPayload(req.actions[i])
    ensures ChangesBacked(Staged(r, b).value, req.actions[i].payload.value)
  {
    var next, o := Staged(r, b).value, req.actions[i].payload.value;
    WrittenIsRevision(v, req, red, i);
    WrittenIsStored(base, r, req, v, red, b, o);
    ViewOfBase(base, req.project, req.lineage);
    forall q | ResearchNeeds(v.Latest(o.kind, o.id), o, q) || EvidenceNeeds(v.Latest(o.kind, o.id), o, q)
      ensures ListedAnswer(next, o, q)
    {
      RequiredExactly(v, req.actions[i], q);
      ConsumedSaid(v, req, red, r, b, i, q);
    }
  }

  lemma CitedWell(v: View, req: Request, red: Reduction, r: Repo, b: Bundle, i: nat, d: string)
    requires HumanDecisionCodes(v, req) == {} && Reduce(v, req) == Some(red)
    requires b.reduction == red && Staged(r, b).Some? && Extends(v.decisions, r.decisions)
    requires forall k :: k in v.objects ==> v.objects[k].Slot() == k
    requires i < |req.actions| && d in req.actions[i].decisionRefs
    ensures CitesWell(Staged(r, b).value, req.actions[i], d)
  {
    var a := req.actions[i];
    DecisionCodesExactly(v, req, "RT-DECISION-002");
    DecisionCodesExactly(v, req, "RT-DECISION-003");
    DecisionCodesExactly(v, req, "RT-DECISION-004");
    assert !Causes(v, req, a, "RT-DECISION-002") && !Causes(v, req, a, "RT-DECISION-003");
    assert !Causes(v, req, a, "RT-DECISION-004");
    CitedIsStored(v, req, red, r, b, d);
  }

  lemma StoredActionBacked(base: Repo, r: Repo, req: Request, v: View, red: Reduction, b: Bundle, i: nat)
    requires WellFormed(base) && WellFormed(r) && Grows(base, r) && Clean(req)
    requires LoadView(base, req.project, req.lineage) == Some(v) && Reduce(v, req) == Some(red)
    requires HumanDecisionCodes(v, req) == {}
    requires b.reduction == red && b.key !in r.commits && Staged(r, b).Some? && i < |req.actions|
    ensures ActionBacked(Staged(r, b).value, req.actions[i])
  {
    var next, a := Staged(r, b).value, req.actions[i];
    ViewOfBase(base, req.project, req.lineage);
    if WritesPayload(a) { WrittenBacked(base, r, req, v, red, b, i); }
    forall q | LineageNeeds(a, q) ensures CitedAnswer(next, a, q) {
      RequiredExactly(v, a, q);
      ConsumedSaid(v, req, red, r, b, i, q);
    }
    forall d | d in a.decisionRefs ensures CitesWell(next, a, d) { CitedWell(v, req, red, r, b, i, d); }
  }

  lemma LogMoreBacked(a: Repo, b: Repo, log: seq<Pending>, one: Pending)
    requires Grows(a, b) && GapFree(a.objects) && GapFree(b.objects) && LogBacked(a, log)
    requires forall i :: 0 <= i < |one.req.actions| ==> ActionBacked(b, one.req.actions[i])
    ensures LogBacked(b, log + [one])
  {
    forall n, i | 0 <= n < |log + [one]| && 0 <= i < |(log + [one])[n].req.actions|
      ensures ActionBacked(b, (log + [one])[n].req.actions[i])
    {
      if n < |log| { ActionKept(a, b, log[n].req.actions[i]); }
    }
  }

  lemma StoreBacked(s: System, p: Policy, one: Pending)
    requires Safe(s) && SafePending(s.repo, one) && LogBacked(s.repo, s.log) && Persists(s, p, one)
    ensures LogBacked(Next(s, p, one), s.log + [one])
  {
    var v, red, b := StoredBundle(s, p, one);
    PreClean(v, one.req);
    StoredIsWellFormed(one.base, s.repo, one.req, v, red, b);
    forall i | 0 <= i < |one.req.actions| ensures ActionBacked(Staged(s.repo, b).value, one.req.actions[i]) {
      StoredActionBacked(one.base, s.repo, one.req, v, red, b, i);
    }
    LogMoreBacked(s.repo, Staged(s.repo, b).value, s.log, one);
  }

  /** Over every run and for every stored request: each object revision an action wrote lists a stored,
      consumed human Decision for each change it made; each plan, reconfirmation and switch cites one. */
  lemma {:induction false} RunBacked(seed: Repo, p: Policy, events: seq<Event>)
    requires WellFormed(seed) && CleanEvents(events)
    ensures LogBacked(Run(seed, p, events).repo, Run(seed, p, events).log)
  {
    if events != [] {
      var front, e := events[..|events| - 1], events[|events| - 1];
      var s := Run(seed, p, front);
      RunSafe(seed, p, front);
      RunBacked(seed, p, front);
      StepRepo(s, p, e);
      if StoresAt(s, p, e) {
        assert SafePending(s.repo, s.pending[e.slot]);
        StoreBacked(s, p, s.pending[e.slot]);
      }
    }
  }

  /** A material change of a protected object, without a listed human Decision to revise it. */
  ghost predicate RevisedWithout(r: Repo, o: Object) {
    && o.kind in RESEARCH_KINDS && Before(o.Slot()) in r.objects && Differs(r.objects[Before(o.Slot())], o)
    && !ListedAnswer(r, o, Requirement("research_revision", "revise", Ref(o.kind, o.id)))
  }

  lemma BackedIsRevised(r: Repo, o: Object)
    requires ChangesBacked(r, o)
    ensures !RevisedWithout(r, o)
  {
    if o.kind in RESEARCH_KINDS && Before(o.Slot()) in r.objects && Differs(r.objects[Before(o.Slot())], o) {
      assert ResearchNeeds(Lookup(r.objects, Before(o.Slot())), o,
                           Requirement("research_revision", "revise", Ref(o.kind, o.id)));
    }
  }

  /** In particular no action of a stored request wrote a later revision of a protected object that
      differs in a field but revision, `adoption_state` and `decision_ids` and lists no human Decision
      to revise it. */
  lemma RevisionsBacked(seed: Repo, p: Policy, events: seq<Event>, n: nat, i: nat)
    requires WellFormed(seed) && CleanEvents(events)
    requires n < |Run(seed, p, events).log| && i < |Run(seed, p, events).log[n].req.actions|
    requires WritesPayload(Run(seed, p, events).log[n].req.actions[i])
    ensures !RevisedWithout(Run(seed, p, events).repo, Run(seed, p, events).log[n].req.actions[i].payload.value)
  {
    RunBacked(seed, p, events);
    var r, a := Run(seed, p, events).repo, Run(seed, p, events).log[n].req.actions[i];
    assert ActionBacked(r, a);
    BackedIsRevised(r, a.payload.value);
  }
}
