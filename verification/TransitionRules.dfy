/** The checks around the reduction read off the fields of a request and its reduction, and what `apply`
    answers (core/runtime/state_transition.py, core/runtime/validation.py, core/runtime/state_validation.py). */
module TransitionRules {
  import opened Common
  import opened Records
  import opened Authority
  import opened Reducer
  import opened StateValidation
  import opened Repository
  import opened Service
  import opened ReductionRules
  import opened CommitRules

  // ---------------------------------------------------------------- before the reduction

  predicate Malformed(a: Action, c: string) {
    && a.kind != ApplyLineagePlan && a.kind != SwitchActiveLineage && a.kind != RecordRunResultAdoption
    && match a.payload
       case None => c == "RT-SCHEMA-006"
       case Some(o) =>
         || (c == "RT-SCHEMA-009" && a.kind == RecordDecision && o.kind != "decision")
         || (c == "RT-SCHEMA-010" && a.kind == RegisterWritingFeedbackAction && o.kind != "next_action")
         || (c == "RT-SCHEMA-011" && (a.kind == VerifyEvidence || a.kind == ReclassifyEvidence) && o.kind != "evidence")
  }

  predicate Unpinned(v: View, req: Request, c: string) {
    || (c == "RT-PIN-002" && (req.config.ref != v.config.ref || req.config.digest != v.config.digest))
    || (c == "RT-PIN-003" && (req.profile.ref != v.profile.ref || req.profile.digest != v.profile.digest))
    || (c == "RT-PIN-004" && (req.project != v.project || req.lineage != v.lineage))
    || (c == "RT-HEAD-001" && (req.head.ref != v.snapshot.id || req.head.digest != v.snapshot.seal))
  }

  predicate Unauthorized(req: Request, c: string) {
    || (c == "RT-AUTH-001" && req.actor.actorType !in {"human", "service", "adapter", "system"})
    || (c == "RT-AUTH-002" && req.actor.actorType in {"service", "adapter", "system"} && req.authorization == [])
  }

  lemma SchemaExactly(req: Request, c: string)
    ensures c in SchemaCodes(req) <==>
              || (c == "RT-SCHEMA-003" && req.actions == [])
              || exists i :: 0 <= i < |req.actions| && Malformed(req.actions[i], c)
  {
    forall i | 0 <= i < |req.actions|
      ensures c in ActionSchemaCodes(req.actions[i]) <==> Malformed(req.actions[i], c)
    {}
  }

  lemma PinsExactly(v: View, req: Request, c: string)
    ensures c in PinCodes(v, req) <==> Unpinned(v, req, c)
  {
  }

  lemma AuthorizationExactly(req: Request, c: string)
    ensures c in AuthorizationCodes(req) <==> Unauthorized(req, c)
  {
  }

  /** The checks before the reduction raise these codes and those of Decisions and lineages, no others. */
  lemma PreExactly(v: View, req: Request, c: string)
    ensures c in PreCodes(v, req) <==>
              || (c == "RT-SCHEMA-003" && req.actions == [])
              || (exists i :: 0 <= i < |req.actions| && Malformed(req.actions[i], c))
              || Unpinned(v, req, c) || Unauthorized(req, c)
              || c in HumanDecisionCodes(v, req) || c in LineageCodes(v, req)
  {
    SchemaExactly(req, c);
    PinsExactly(v, req, c);
    AuthorizationExactly(req, c);
  }

  // ---------------------------------------------------------------- after the reduction

  /** A revision changes what is stored in its slot. */
  predicate Overwrites(v: View, o: Object) {
    var slot := Key(o.kind, o.id, o.revision);
    slot in v.objects && v.objects[slot] != o
  }

  predicate HeadMisses(v: View, req: Request, red: Reduction, a: Action, c: string) {
    && a.kind == ApplyLineagePlan
    && (|| (c == "RT-LINEAGE-011" && red.moved.Some? && red.moved.value.id == req.lineage
            && req.lineage in v.lineages && red.moved.value.head != v.lineages[req.lineage].head)
        || (c == "RT-LINEAGE-012"
            && (red.child.None? || a.plan.None? || red.child.value.id != a.plan.value.targetLineage)))
  }

  /** A human Decision to revise this evidence, cited by an action that is about it. */
  predicate MayRevise(pool: map<string, Object>, a: Action, id: string, d: string) {
    && a.TargetRef() == Some(Ref("evidence", id)) && d in a.decisionRefs && d in pool
    && FieldOf(pool[d], "actor_type") == Some("human")
    && FieldOf(pool[d], "decision_kind") == Some("research_revision") && FieldOf(pool[d], "choice") == Some("revise")
    && "subjects" in pool[d].refs && Ref("evidence", id) in pool[d].refs["subjects"]
  }

  ghost predicate RevisionAllowed(v: View, req: Request, id: string) {
    exists a, d :: a in req.actions && MayRevise(Pool(v.decisions, req.actions), a, id, d)
  }

  predicate DropsLimitation(prior: Object, o: Object) {
    && "limitations" in prior.lists
    && exists x :: x in prior.lists["limitations"] && ("limitations" in o.lists ==> x !in o.lists["limitations"])
  }

  ghost predicate EvidenceMisfits(v: View, req: Request, o: Object, c: string) {
    && o.kind == "evidence"
    && match v.Latest("evidence", o.id)
       case None => false
       case Some(prior) =>
         || (c == "RT-EPI-005" && FieldOf(prior, "evidence_mode") == Some("synthetic")
             && FieldOf(o, "evidence_mode") != Some("synthetic"))
         || (c == "RT-EPI-006" && DropsLimitation(prior, o) && !RevisionAllowed(v, req, o.id))
  }

  /** What slot `k` holds after the revisions. */
  function HeldAfter(v: View, revisions: seq<Object>, k: Key): Option<Object> {
    if revisions == [] then (if k in v.objects then Some(v.objects[k]) else None)
    else
      var last := revisions[|revisions| - 1];
      if Key(last.kind, last.id, last.revision) == k then Some(last) else HeldAfter(v, revisions[..|revisions| - 1], k)
  }

  predicate SnapshotMisfits(v: View, red: Reduction, s: Object, c: string) {
    || (c == "RT-STATE-001" && (v.Latest("snapshot", s.id).Some? || s.id == v.snapshot.id))
    || (c == "RT-STATE-003"
        && exists m :: m in s.members && HeldAfter(v, red.revisions, Key(m.kind, m.id, s.members[m].revision)).None?)
    || (c == "RT-STATE-004"
        && exists m :: m in s.members
                       && RowDiffers(HeldAfter(v, red.revisions, Key(m.kind, m.id, s.members[m].revision)),
                                     s.members[m]))
    || (c == "RT-STATE-005" && s.seal != CanonicalDigest(s.(seal := Unsealed)))
  }

  predicate RowDiffers(held: Option<Object>, row: Row) { held.Some? && row.digest != CanonicalDigest(held.value) }

  lemma {:induction false} HeldExactly(v: View, revisions: seq<Object>, k: Key)
    ensures Lookup(Overlay(v.objects, revisions), k) == HeldAfter(v, revisions, k)
  {
    if revisions != [] { HeldExactly(v, revisions[..|revisions| - 1], k); }
  }

  lemma SnapshotExactly(v: View, red: Reduction, s: Object, c: string)
    ensures c in SnapshotCodes(v, red.revisions, s) <==> SnapshotMisfits(v, red, s, c)
  {
    forall m | m in s.members
      ensures MemberUnresolved(Overlay(v.objects, red.revisions), m, s.members[m]) <==>
                HeldAfter(v, red.revisions, Key(m.kind, m.id, s.members[m].revision)).None?
      ensures MemberMismatched(Overlay(v.objects, red.revisions), m, s.members[m]) <==>
                RowDiffers(HeldAfter(v, red.revisions, Key(m.kind, m.id, s.members[m].revision)), s.members[m])
    {
      HeldExactly(v, red.revisions, Key(m.kind, m.id, s.members[m].revision));
    }
  }

  lemma AllowedExactly(v: View, req: Request, id: string)
    ensures RevisionCited(Pool(v.decisions, req.actions), req.actions, id) <==> RevisionAllowed(v, req, id)
  {
    var pool := Pool(v.decisions, req.actions);
    if RevisionCited(pool, req.actions, id) {
      var i, j :| 0 <= i < |req.actions| && req.actions[i].TargetRef() == Some(Ref("evidence", id))
                  && 0 <= j < |req.actions[i].decisionRefs|
                  && RevisionDecision(pool, req.actions[i].decisionRefs[j], id);
      assert req.actions[i] in req.actions && MayRevise(pool, req.actions[i], id, req.actions[i].decisionRefs[j]);
    }
    if RevisionAllowed(v, req, id) {
      var a, d :| a in req.actions && MayRevise(pool, a, id, d);
      var i :| 0 <= i < |req.actions| && req.actions[i] == a;
      var j :| 0 <= j < |a.decisionRefs| && a.decisionRefs[j] == d;
      assert RevisionDecision(pool, req.actions[i].decisionRefs[j], id);
    }
  }

  lemma LimitationExactly(prior: Object, o: Object)
    ensures LosesLimitation(prior, o) <==> DropsLimitation(prior, o)
  {
    if i :| 0 <= i < |prior.List("limitations")| && prior.List("limitations")[i] !in o.List("limitations") {
      assert prior.lists["limitations"][i] in prior.lists["limitations"];
    }
    if DropsLimitation(prior, o) {
      var x :| x in prior.lists["limitations"] && ("limitations" in o.lists ==> x !in o.lists["limitations"]);
      var i :| 0 <= i < |prior.List("limitations")| && prior.List("limitations")[i] == x;
    }
  }

  lemma EvidenceExactly(v: View, req: Request, o: Object, c: string)
    ensures c in EvidenceCodes(v, req, o) <==> EvidenceMisfits(v, req, o, c)
  {
    if v.Latest("evidence", o.id).Some? { LimitationExactly(v.Latest("evidence", o.id).value, o); }
    AllowedExactly(v, req, o.id);
  }

  predicate SomeOverwrites(v: View, red: Reduction) {
    exists i :: 0 <= i < |red.revisions| && Overwrites(v, red.revisions[i])
  }

  predicate SomeHeadMisses(v: View, req: Request, red: Reduction, c: string) {
    exists i :: 0 <= i < |req.actions| && HeadMisses(v, req, red, req.actions[i], c)
  }

  ghost predicate SomeEvidenceMisfits(v: View, req: Request, red: Reduction, c: string) {
    exists i :: 0 <= i < |red.revisions| && EvidenceMisfits(v, req, red.revisions[i], c)
  }

  lemma OverwritesExactly(v: View, red: Reduction)
    ensures (exists i :: 0 <= i < |red.revisions| && Replaces(v, red.revisions[i])) <==> SomeOverwrites(v, red)
  {
    forall i | 0 <= i < |red.revisions| ensures Replaces(v, red.revisions[i]) <==> Overwrites(v, red.revisions[i]) {}
  }

  lemma MissesExactly(v: View, req: Request, red: Reduction, c: string)
    ensures c in (set i, d | 0 <= i < |req.actions| && d in LineageEffectCodes(v, req, red, req.actions[i]) :: d)
       <==> SomeHeadMisses(v, req, red, c)
  {
    forall i | 0 <= i < |req.actions|
      ensures c in LineageEffectCodes(v, req, red, req.actions[i]) <==> HeadMisses(v, req, red, req.actions[i], c)
    {}
  }

  lemma EvidencesExactly(v: View, req: Request, red: Reduction, c: string)
    ensures c in (set i, d | 0 <= i < |red.revisions| && d in EvidenceCodes(v, req, red.revisions[i]) :: d)
       <==> SomeEvidenceMisfits(v, req, red, c)
  {
    forall i | 0 <= i < |red.revisions|
      ensures c in EvidenceCodes(v, req, red.revisions[i]) <==> EvidenceMisfits(v, req, red.revisions[i], c)
    {
      EvidenceExactly(v, req, red.revisions[i], c);
    }
  }

  lemma InFive(c: string, a: set<string>, b: set<string>, d: set<string>, e: set<string>, f: set<string>)
    ensures c in a + b + d + e + f <==> c in a || c in b || c in d || c in e || c in f
  {
  }

  /** The checks after the reduction raise a code exactly for these reasons. */
  lemma PostExactly(v: View, req: Request, red: Reduction, c: string)
    ensures c in PostCodes(v, req, red) <==>
              || (c == "RT-REF-001" && !Closed(Fold(v.Effective(), red.revisions), v.project))
              || (c == "RT-CORE-PROV-002" && SomeOverwrites(v, red))
              || SomeHeadMisses(v, req, red, c) || SomeEvidenceMisfits(v, req, red, c)
              || (red.snapshot.Some? && SnapshotMisfits(v, red, red.snapshot.value, c))
  {
    OverwritesExactly(v, red);
    MissesExactly(v, req, red, c);
    EvidencesExactly(v, req, red, c);
    if red.snapshot.Some? { SnapshotExactly(v, red, red.snapshot.value, c); }
    InFive(c, Flag(!Closed(Fold(v.Effective(), red.revisions), v.project), "RT-REF-001"),
           Flag(exists i :: 0 <= i < |red.revisions| && Replaces(v, red.revisions[i]), "RT-CORE-PROV-002"),
           set i, d | 0 <= i < |req.actions| && d in LineageEffectCodes(v, req, red, req.actions[i]) :: d,
           set i, d | 0 <= i < |red.revisions| && d in EvidenceCodes(v, req, red.revisions[i]) :: d,
           if red.snapshot.None? then {} else SnapshotCodes(v, red.revisions, red.snapshot.value));
  }

  // ---------------------------------------------------------------- what `apply` answers

  /** The request's digest is that of its content. */
  predicate Intact(req: Request) { req.digest == OfRequest(req.(digest := Unsealed)) }

  predicate Objected(p: Policy, v: View, req: Request, c: string) { c in PreCodes(v, req) || c in p.guards(v, req) }

  predicate Faulted(p: Policy, v: View, req: Request, red: Reduction, c: string) {
    c in PostCodes(v, req, red) || c in p.rules(v, req, red)
  }

  /** A refusal that lists just these codes, with the head of the view. */
  ghost predicate RefusedWith(outcome: Outcome, v: View, codes: string -> bool) {
    && outcome.Rejected? && outcome.head == Some(Pin(v.snapshot.id, v.snapshot.seal))
    && forall c :: c in outcome.codes <==> codes(c)
  }

  /** The answer without any commit: to a request that is not intact or not well-formed, to a key in use, and to
      one about an unknown project or lineage. */
  lemma AnsweredFirst(base: Repo, p: Policy, req: Request)
    ensures var prepared := Prepare(base, p, req);
            && (!Intact(req) ==> prepared == Answered(Rejected({"RT-PIN-001"}, None)))
            && (Intact(req) && p.schema(req) != {} ==> prepared == Answered(Rejected(p.schema(req), None)))
            && (Intact(req) && p.schema(req) == {} && req.key in base.commits ==>
                  prepared == Answered(if base.commits[req.key].digest == req.digest
                                       then Committed(base.commits[req.key].receipt)
                                       else Rejected({"RT-IDEMPOTENCY-001"}, None)))
            && (&& Intact(req) && p.schema(req) == {} && req.key !in base.commits
                && LoadView(base, req.project, req.lineage).None?
                ==> prepared == Answered(Missing))
  {
  }

  /** The answer of the checks: every objection at once, then a failed reduction, then every fault at once; a
      bundle only when there is none. */
  lemma JudgedNext(base: Repo, p: Policy, req: Request, v: View)
    requires Intact(req) && p.schema(req) == {} && req.key !in base.commits
    requires LoadView(base, req.project, req.lineage) == Some(v)
    ensures var prepared := Prepare(base, p, req);
            var red := Reduce(v, req);
            if exists c :: Objected(p, v, req, c) then
              prepared.Answered? && RefusedWith(prepared.outcome, v, c => Objected(p, v, req, c))
            else if !Reducible(v, req) then
              prepared.Answered? && RefusedWith(prepared.outcome, v, c => c == "RT-REDUCE-001")
            else
              && red.Some?
              && if exists c :: Faulted(p, v, req, red.value, c) then
                   prepared.Answered? && RefusedWith(prepared.outcome, v, c => Faulted(p, v, req, red.value, c))
                 else prepared == Ready(BundleOf(v, req, red.value))
  {
    ReducesExactly(v, req);
    JudgeObjects(p, v, req);
    if (forall c :: !Objected(p, v, req, c)) && Reducible(v, req) { JudgeFaults(p, v, req, Reduce(v, req).value); }
  }

  lemma JudgeObjects(p: Policy, v: View, req: Request)
    ensures PreCodes(v, req) + p.guards(v, req) == {} <==> forall c :: !Objected(p, v, req, c)
  {
    var all := PreCodes(v, req) + p.guards(v, req);
    forall c ensures c in all <==> Objected(p, v, req, c) {}
  }

  lemma JudgeFaults(p: Policy, v: View, req: Request, red: Reduction)
    ensures PostCodes(v, req, red) + p.rules(v, req, red) == {} <==> forall c :: !Faulted(p, v, req, red, c)
  {
    var all := PostCodes(v, req, red) + p.rules(v, req, red);
    forall c ensures c in all <==> Faulted(p, v, req, red, c) {}
  }

  /** The answer of the commit half, against the repository as it then is. */
  lemma FinishTells(r: Repo, req: Request, b: Bundle)
    requires b.key == req.key && b.lineage == req.lineage
    ensures var (next, outcome) := Finish(r, req, Ready(b));
            if b.key in r.commits then
              next == r && outcome == (if r.commits[b.key].digest == b.digest then Committed(r.commits[b.key].receipt)
                                       else Rejected({"RT-IDEMPOTENCY-002"}, Some(b.previous)))
            else if b.lineage !in r.lineages then
              next == r && outcome == Rejected({"RT-PERSIST-001"}, Some(b.previous))
            else if HeadMoved(r, b, req.head.digest) then
              next == r && outcome.Rejected? && outcome.codes == {"RT-HEAD-002"}
              && outcome.head == match LoadView(r, req.project, req.lineage)
                                 case None => None
                                 case Some(v) => Some(Pin(v.snapshot.id, v.snapshot.seal))
            else if RevisionsClash(r, b.reduction.revisions) || DecisionsClash(r, b.reduction.decisions)
                    || IdentityMisfits(r, b.reduction)
            then next == r && outcome == Rejected({"RT-PERSIST-001"}, Some(b.previous))
            else outcome == Committed(b.receipt)
  {
    PersistTells(r, b, req.head.digest);
  }

  /** What the receipt of a new commit says, and what its bundle expects. */
  lemma BundleTells(v: View, req: Request, red: Reduction)
    ensures var b := BundleOf(v, req, red);
            && b.lineage == req.lineage && b.key == req.key && b.digest == req.digest && b.reduction == red
            && b.previous == Pin(v.snapshot.id, v.snapshot.seal)
            && b.receipt.transitionId == req.transitionId && b.receipt.commitId == req.commitId
            && b.receipt.prior == b.previous && b.receipt.lineage == req.lineage
            && |b.receipt.applied| == |req.actions|
            && (forall i :: 0 <= i < |req.actions| ==> b.receipt.applied[i] == req.actions[i].kind)
            && b.receipt.resolving == red.used && b.receipt.timestamp == req.submittedAt
            && b.receipt.actor == req.actor && b.receipt.key == req.key
  {
  }
}
