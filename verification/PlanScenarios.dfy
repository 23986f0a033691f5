/** Lineage plans from request to stored child: when a plan is accepted and stored, and two plans
    that are, one losing a preserved member and one leaving its head open. */
module PlanScenarios {
  import opened Common
  import opened Records
  import opened Authority
  import opened Reducer
  import opened ReducerFacts
  import opened StateValidation
  import opened Repository
  import opened Service
  import opened CommitFacts
  import opened History
  import opened SingleUse
  import opened Integrity
  import opened LineagePlan
  import opened ChildHeads

  // ---------------------------------------------------------------- a plan that passes every check

  /** The request applies this plan, records nothing beside it, and fits the view. */
  ghost predicate Applies(v: View, t: Request, a: Action, p: Plan) {
    && t.actions == [a] && a.kind.ApplyLineagePlan? && a.plan == Some(p) && a.payload.None?
    && t.project == v.project && t.lineage == v.lineage && t.lineage in v.lineages && t.head == v.Head()
    && t.config == v.config && t.profile == v.profile && t.actor.actorType == "human"
    && t.digest == t.CalculatedDigest()
    && p.baseline == v.Head() && p.lineageKind == "exploratory_fork" && p.targetLineage !in v.lineages
  }

  /** Derived objects that share a slot are equal, and none is evidence. */
  predicate DerivesApart(p: Plan) {
    && (forall i, j :: 0 <= i < |p.treatments| && 0 <= j < |p.treatments| && SameDerivedSlot(p, i, j) ==>
          p.treatments[i].derived == p.treatments[j].derived)
    && forall i :: 0 <= i < |p.treatments| && Reconfirms(p.treatments[i]) ==>
         p.treatments[i].derived.value.kind != "evidence"
  }

  predicate SameDerivedSlot(p: Plan, i: int, j: int)
    requires 0 <= i < |p.treatments| && 0 <= j < |p.treatments|
  {
    Reconfirms(p.treatments[i]) && Reconfirms(p.treatments[j])
    && p.treatments[i].derived.value.Slot() == p.treatments[j].derived.value.Slot()
  }

  /** Everything the object refers to is among the members. */
  predicate RefersWithin(members: map<Ref, Object>, project: string, o: Object) {
    forall i :: 0 <= i < |References(o)| ==> Resolves(members, project, References(o)[i])
  }

  /** The baseline is closed, and so are the derived objects on it. */
  predicate BaselineClosed(v: View, p: Plan) {
    && Closed(v.Effective(), v.project)
    && forall i :: 0 <= i < |p.treatments| && Reconfirms(p.treatments[i]) ==>
         RefersWithin(v.Effective(), v.project, p.treatments[i].derived.value)
  }

  lemma NoDecisions(a: Action)
    requires a.kind.ApplyLineagePlan?
    ensures DecisionsOf([a]) == [] && HasPlan([a]) && Semantic([a]) == [a]
  {
    assert [a][..0] == [] && [a][1..] == [] && [a][0] == a;
  }

  /** What the reduction of such a request is made of. */
  ghost predicate PlanReduction(v: View, t: Request, p: Plan, red: Reduction) {
    && ReducePlan(v, t, p) == Some(red) && Reduce(v, t) == Some(red)
    && red.decisions == [] && red.snapshot.Some? && red.moved.None? && red.activate.None? && red.child.Some?
    && red.child.value.id == p.targetLineage && red.audit == AuditEvent(t)
    && red.snapshot.value.id == t.snapshotId && red.snapshot.value.members == Rows(Child(v, p))
    && red.snapshot.value == Sealed(red.snapshot.value.(seal := Unsealed))
    && red.child.value.head.ref == t.snapshotId
  }

  lemma PlanReduces(v: View, t: Request, a: Action, p: Plan) returns (red: Reduction)
    requires Applies(v, t, a, p) && PlanAccepted(v, p)
    ensures PlanReduction(v, t, p, red)
  {
    NoDecisions(a);
    red := SolePlanReduces(v, t, a, p);
    PlanRows(v, t, p, red);
    PlanChild(v, t, p, red);
  }

  lemma SolePlanReduces(v: View, t: Request, a: Action, p: Plan) returns (red: Reduction)
    requires Applies(v, t, a, p) && PlanAccepted(v, p)
    requires DecisionsOf(t.actions) == [] && HasPlan(t.actions) && Semantic(t.actions) == [a]
    ensures ReducePlan(v, t, p) == Some(red) && Reduce(v, t) == Some(red) && red.decisions == []
    ensures red.audit == AuditEvent(t) && red.snapshot.Some?
    ensures red.snapshot.value == Sealed(red.snapshot.value.(seal := Unsealed))
  {
    assert RecordedAccepted(v, t.actions);
    red := ReducePlan(v, t, p).value;
    BuiltSealedSnapshot(v, t, ChildMembers(v, p, Baseline(v)), p.executionMode.GetOr(Mode(v)));
  }

  lemma BuiltSealedSnapshot(v: View, t: Request, members: map<Ref, Object>, mode: string)
    ensures var s := BuildSnapshot(v, t, members, mode); s == Sealed(s.(seal := Unsealed))
  {
  }

  /** A treatment derives `o`, and `o` is the next revision of its identity. */
  ghost predicate IsDerived(v: View, p: Plan, o: Object) {
    Follows(v, o)
    && exists i :: 0 <= i < |p.treatments| && Reconfirms(p.treatments[i]) && p.treatments[i].derived == Some(o)
  }

  ghost predicate AllDerived(v: View, p: Plan, revisions: seq<Object>) {
    forall o :: o in revisions ==> IsDerived(v, p, o)
  }

  lemma ProposedIsDerived(v: View, t: Request, p: Plan, revisions: seq<Object>, o: Object)
    requires Proposes(v, t, p, revisions) && DecisionsOf(t.actions) == [] && o in revisions && Follows(v, o)
    ensures IsDerived(v, p, o)
  {
    var m :| m in v.snapshot.members && Derives(p, m) && Survivor(v, p, m) == Some(o);
    var i := TreatedAt(v, p, m);
  }

  lemma RevisionsDerived(v: View, t: Request, a: Action, p: Plan, red: Reduction)
    requires t.actions == [a] && a.kind.ApplyLineagePlan? && PlanReduction(v, t, p, red)
    ensures AllDerived(v, p, red.revisions) && Proposes(v, t, p, red.revisions) && DecisionsOf(t.actions) == []
  {
    NoDecisions(a);
    ReducedProposes(v, t, p, red);
    forall o | o in red.revisions ensures IsDerived(v, p, o) {
      RevisionOrigin(v, t, red, o);
      ProposedIsDerived(v, t, p, red.revisions, o);
    }
  }

  /** A revision that follows the latest one takes a free slot. */
  lemma FollowsFree(v: View, o: Object)
    requires Filed(v) && Follows(v, o)
    ensures o.Slot() !in v.objects
  {
  }

  lemma DerivedApart(v: View, p: Plan, x: Object, y: Object)
    requires DerivesApart(p) && IsDerived(v, p, x) && IsDerived(v, p, y) && x.Slot() == y.Slot()
    ensures x == y
  {
    var i :| 0 <= i < |p.treatments| && Reconfirms(p.treatments[i]) && p.treatments[i].derived == Some(x);
    var j :| 0 <= j < |p.treatments| && Reconfirms(p.treatments[j]) && p.treatments[j].derived == Some(y);
    assert SameDerivedSlot(p, i, j);
  }

  lemma FreshStages(store: map<Key, Object>, objs: seq<Object>)
    requires forall o :: o in objs ==> o.Slot() !in store
    requires forall x, y :: x in objs && y in objs && x.Slot() == y.Slot() ==> x == y
    ensures StageObjects(store, objs).Some?
  {
    ObjectsAreStaged(store, objs);
    StagingFails(store, Slots(objs), objs);
    forall i | 0 <= i < |objs| ensures !Clashes(store, Slots(objs), objs, i) {
      assert objs[i] in objs;
      forall j | 0 <= j < i ensures !Rewrites(Slots(objs), objs, j, i) { assert objs[j] in objs; }
    }
  }

  // ---------------------------------------------------------------- checks before reduction

  lemma PlanCodesClean(v: View, t: Request, a: Action, p: Plan)
    requires Applies(v, t, a, p) && PlanAccepted(v, p)
    requires forall j :: 0 <= j < |p.treatments| ==> TreatmentCodes(a, p.treatments[j]) == {}
    ensures PlanCodes(v, t, a, p) == {}
  {
    TreatsEachOnce(v, p);
  }

  lemma PlanPreClean(v: View, t: Request, a: Action, p: Plan)
    requires Applies(v, t, a, p) && PlanCodes(v, t, a, p) == {}
    requires ActionDecisionCodes(Pool(v.decisions, [a]), v, t.project, a) == {}
    ensures PreCodes(v, t) == {}
  {
    OneActionClean(v, t, a);
    assert ActionSchemaCodes(a) == {} && ActionLineageCodes(v, t, a) == {};
    assert SchemaCodes(t) == {} && PinCodes(v, t) == {} && AuthorizationCodes(t) == {} && LineageCodes(v, t) == {};
  }

  // ---------------------------------------------------------------- checks after reduction

  lemma FoldOrigin(base: map<Ref, Object>, revisions: seq<Object>, m: Ref)
    requires m in Fold(base, revisions)
    ensures Fold(base, revisions)[m] in revisions || (m in base && Fold(base, revisions)[m] == base[m])
  {
    FoldAt(base, revisions, m);
    var own := OfIdentity(revisions, m);
    if own != [] {
      assert own[|own| - 1] in own;
      OfIdentityMembers(revisions, m, own[|own| - 1]);
    }
  }

  lemma DerivedWithin(v: View, p: Plan, o: Object)
    requires IsDerived(v, p, o) && BaselineClosed(v, p)
    ensures RefersWithin(v.Effective(), v.project, o)
  {
    var i :| 0 <= i < |p.treatments| && Reconfirms(p.treatments[i]) && p.treatments[i].derived == Some(o);
    assert p.treatments[i].derived.value == o;
  }

  lemma MemberWithin(members: map<Ref, Object>, project: string, m: Ref)
    requires Closed(members, project) && m in members
    ensures RefersWithin(members, project, members[m])
  {
  }

  lemma FoldedWithin(v: View, p: Plan, revisions: seq<Object>, m: Ref)
    requires AllDerived(v, p, revisions) && BaselineClosed(v, p) && m in Fold(v.Effective(), revisions)
    ensures RefersWithin(v.Effective(), v.project, Fold(v.Effective(), revisions)[m])
  {
    FoldOrigin(v.Effective(), revisions, m);
    var o := Fold(v.Effective(), revisions)[m];
    if o in revisions { DerivedWithin(v, p, o); } else { MemberWithin(v.Effective(), v.project, m); }
  }

  lemma FoldClosed(v: View, p: Plan, revisions: seq<Object>)
    requires AllDerived(v, p, revisions) && BaselineClosed(v, p)
    ensures Closed(Fold(v.Effective(), revisions), v.project)
  {
    var all := Fold(v.Effective(), revisions);
    forall m, i | m in all && 0 <= i < |References(all[m])| ensures Resolves(all, v.project, References(all[m])[i]) {
      FoldedWithin(v, p, revisions, m);
      StillResolves(v.Effective(), revisions, v.project, References(all[m])[i]);
    }
  }

  lemma {:induction false} OverlayHas(objects: map<Key, Object>, objs: seq<Object>, k: Key)
    ensures k in Overlay(objects, objs) <==> k in objects || exists o :: o in objs && o.Slot() == k
  {
    if objs != [] {
      OverlayHas(objects, objs[..|objs| - 1], k);
      assert forall o :: o in objs <==> o in objs[..|objs| - 1] || o == objs[|objs| - 1];
    }
  }

  ghost predicate InOverlay(v: View, p: Plan, revisions: seq<Object>, m: Ref)
    requires m in Child(v, p)
  {
    var k, exact := Key(m.kind, m.id, Child(v, p)[m].revision), Overlay(v.objects, revisions);
    k in exact && exact[k] == Child(v, p)[m]
  }

  lemma OverlayOf(v: View, revisions: seq<Object>, kept: Object)
    requires kept in revisions || (kept.Slot() in v.objects && v.objects[kept.Slot()] == kept)
    requires forall x :: x in revisions && x.Slot() == kept.Slot() ==> x == kept
    requires kept in revisions ==> kept.Slot() !in v.objects
    ensures kept.Slot() in Overlay(v.objects, revisions) && Overlay(v.objects, revisions)[kept.Slot()] == kept
  {
    OverlayHas(v.objects, revisions, kept.Slot());
    OverlayAt(v.objects, revisions, kept.Slot());
  }

  /** Each member of the child is in the overlay, as the child holds it. */
  lemma ChildInOverlay(v: View, t: Request, p: Plan, revisions: seq<Object>, m: Ref)
    requires Proposes(v, t, p, revisions) && AllDerived(v, p, revisions) && DerivesApart(p) && Filed(v)
    requires m in Child(v, p)
    ensures InOverlay(v, p, revisions, m)
  {
    var n := ChildOrigin(v, p, m);
    var kept := Child(v, p)[m];
    if Derives(p, n) {
      assert kept in revisions && IsDerived(v, p, kept);
      FollowsFree(v, kept);
      forall x | x in revisions && x.Slot() == kept.Slot() ensures x == kept { DerivedApart(v, p, x, kept); }
    } else {
      PreservedInPlace(v, p, n, kept);
      forall x | x in revisions ensures x.Slot() != kept.Slot() {
        assert IsDerived(v, p, x);
        FollowsFree(v, x);
      }
    }
    OverlayOf(v, revisions, kept);
  }

  lemma PlanSnapshotClean(v: View, t: Request, p: Plan, revisions: seq<Object>, s: Object)
    requires Proposes(v, t, p, revisions) && AllDerived(v, p, revisions) && DerivesApart(p) && Filed(v)
    requires s.members == Rows(Child(v, p)) && s == Sealed(s.(seal := Unsealed))
    requires v.Latest("snapshot", s.id).None? && s.id != v.snapshot.id
    ensures SnapshotCodes(v, revisions, s) == {}
  {
    forall m | m in Child(v, p) ensures InOverlay(v, p, revisions, m) { ChildInOverlay(v, t, p, revisions, m); }
    MembersInOverlay(v, p, revisions, s);
  }

  lemma MembersInOverlay(v: View, p: Plan, revisions: seq<Object>, s: Object)
    requires s.members == Rows(Child(v, p)) && s == Sealed(s.(seal := Unsealed))
    requires forall m :: m in Child(v, p) ==> InOverlay(v, p, revisions, m)
    requires v.Latest("snapshot", s.id).None? && s.id != v.snapshot.id
    ensures SnapshotCodes(v, revisions, s) == {}
  {
    var exact := Overlay(v.objects, revisions);
    forall m | m in s.members
      ensures !MemberUnresolved(exact, m, s.members[m]) && !MemberMismatched(exact, m, s.members[m])
    {
      assert InOverlay(v, p, revisions, m);
    }
  }

  lemma RevisionsClean(v: View, t: Request, p: Plan, revisions: seq<Object>)
    requires AllDerived(v, p, revisions) && DerivesApart(p) && Filed(v)
    ensures forall i :: 0 <= i < |revisions| ==>
              !Replaces(v, revisions[i]) && EvidenceCodes(v, t, revisions[i]) == {}
  {
    forall i | 0 <= i < |revisions| ensures !Replaces(v, revisions[i]) && EvidenceCodes(v, t, revisions[i]) == {} {
      assert IsDerived(v, p, revisions[i]);
      FollowsFree(v, revisions[i]);
    }
  }

  lemma PlanPostClean(v: View, t: Request, a: Action, p: Plan, red: Reduction)
    requires Applies(v, t, a, p) && PlanReduction(v, t, p, red) && DerivesApart(p) && BaselineClosed(v, p) && Filed(v)
    requires v.Latest("snapshot", t.snapshotId).None? && t.snapshotId != v.snapshot.id
    ensures PostCodes(v, t, red) == {}
  {
    RevisionsDerived(v, t, a, p, red);
    FoldClosed(v, p, red.revisions);
    PlanSnapshotClean(v, t, p, red.revisions, red.snapshot.value);
    RevisionsClean(v, t, p, red.revisions);
    assert LineageEffectCodes(v, t, red, a) == {};
    NothingRaised(v, t, red, a);
  }

  lemma NothingRaised(v: View, t: Request, red: Reduction, a: Action)
    requires Closed(Fold(v.Effective(), red.revisions), v.project) && t.actions == [a]
    requires forall i :: 0 <= i < |red.revisions| ==>
               !Replaces(v, red.revisions[i]) && EvidenceCodes(v, t, red.revisions[i]) == {}
    requires LineageEffectCodes(v, t, red, a) == {} && red.snapshot.Some?
    requires SnapshotCodes(v, red.revisions, red.snapshot.value) == {}
    ensures PostCodes(v, t, red) == {}
  {
  }

  // ---------------------------------------------------------------- the core trace checks

  /** The policy adds no code for this request. */
  ghost predicate Passes(q: Policy, v: View, t: Request) {
    && q.schema(t) == {} && q.guards(v, t) == {}
    && forall red :: Reduce(v, t) == Some(red) ==> q.rules(v, t, red) == {}
  }

  /** What the core checks demand of one effective object (core/runtime/state_validation.py:65-138). */
  function TraceCodes(o: Object): set<string> {
    match o.kind
    case "evidence" =>
      Flag(o.Text("source_id").GetOr("") == "" || o.Text("locator").GetOr("") == "", "RT-CORE-TRACE-001")
    case "finding" => Flag(o.List("question_ids") == [], "RT-CORE-TRACE-002")
    case "argument" => Flag(o.List("finding_ids") == [] && o.List("evidence_ids") == [], "RT-CORE-TRACE-003")
    case "recommendation" => Flag(o.List("finding_ids") == [], "RT-CORE-TRACE-004")
    case "artifact" =>
      Flag((o.Says("artifact_class", "generated") || o.Says("artifact_class", "published"))
           && o.Text("source_snapshot_id").GetOr("") == "", "RT-CORE-PROV-001")
      + Flag(o.Says("lane", "publication") && !o.Says("evidence_eligible", "false"), "RT-CORE-FW-001")
    case _ => {}
  }

  /** The policy that makes these checks on every effective object, and no others. */
  const TRACED := Policy((t: Request) => {}, (v: View, t: Request) => {},
    (v: View, t: Request, red: Reduction) =>
      var effective := Fold(v.Effective(), red.revisions);
      set m, c | m in effective && c in TraceCodes(effective[m]) :: c)

  /** The baseline and the derived objects pass them. */
  predicate TracedBaseline(v: View, p: Plan) {
    && (forall m :: m in v.Effective() ==> TraceCodes(v.Effective()[m]) == {})
    && forall i :: 0 <= i < |p.treatments| && Reconfirms(p.treatments[i]) ==>
         TraceCodes(p.treatments[i].derived.value) == {}
  }

  lemma DerivedTraced(v: View, p: Plan, o: Object)
    requires TracedBaseline(v, p) && IsDerived(v, p, o)
    ensures TraceCodes(o) == {}
  {
    var i :| 0 <= i < |p.treatments| && Reconfirms(p.treatments[i]) && p.treatments[i].derived == Some(o);
    assert p.treatments[i].derived.value == o;
  }

  lemma FoldTraced(v: View, p: Plan, revisions: seq<Object>, m: Ref)
    requires TracedBaseline(v, p) && AllDerived(v, p, revisions) && m in Fold(v.Effective(), revisions)
    ensures TraceCodes(Fold(v.Effective(), revisions)[m]) == {}
  {
    FoldOrigin(v.Effective(), revisions, m);
    var o := Fold(v.Effective(), revisions)[m];
    if o in revisions { DerivedTraced(v, p, o); }
  }

  lemma TracedRules(v: View, t: Request, p: Plan, red: Reduction)
    requires TracedBaseline(v, p) && AllDerived(v, p, red.revisions)
    ensures TRACED.rules(v, t, red) == {}
  {
    forall m | m in Fold(v.Effective(), red.revisions)
      ensures TraceCodes(Fold(v.Effective(), red.revisions)[m]) == {}
    {
      FoldTraced(v, p, red.revisions, m);
    }
  }

  lemma PlanTraced(v: View, t: Request, a: Action, p: Plan)
    requires Applies(v, t, a, p) && PlanAccepted(v, p) && TracedBaseline(v, p)
    ensures Passes(TRACED, v, t)
  {
    var red := PlanReduces(v, t, a, p);
    RevisionsDerived(v, t, a, p, red);
    TracedRules(v, t, p, red);
  }

  // ---------------------------------------------------------------- the commit

  /** Identities and keys the request names are new to the repository. */
  ghost predicate AllNew(r: Repo, t: Request) {
    t.key !in r.commits && t.snapshotId !in r.snapshots && t.auditId !in r.audits
  }

  lemma PlanStages(r: Repo, v: View, t: Request, a: Action, p: Plan, red: Reduction)
    requires Applies(v, t, a, p) && PlanReduction(v, t, p, red) && DerivesApart(p) && Filed(v) && AllNew(r, t)
    requires LoadView(r, t.project, t.lineage) == Some(v) && Keyed(r) && r.lineages[t.lineage].head == v.Head()
    ensures Stores(r, BundleOf(v, t, red), t.head.digest)
  {
    ViewOfBase(r, t.project, t.lineage);
    RevisionsDerived(v, t, a, p, red);
    DerivedStages(v, p, red.revisions);
    PlanApplicable(r, v, t, p, red);
  }

  lemma DerivedStages(v: View, p: Plan, revisions: seq<Object>)
    requires AllDerived(v, p, revisions) && DerivesApart(p) && Filed(v)
    ensures StageObjects(v.objects, revisions).Some?
  {
    forall o | o in revisions ensures o.Slot() !in v.objects {
      assert IsDerived(v, p, o);
      FollowsFree(v, o);
    }
    forall x, y | x in revisions && y in revisions && x.Slot() == y.Slot() ensures x == y {
      DerivedApart(v, p, x, y);
    }
    FreshStages(v.objects, revisions);
  }

  lemma PlanApplicable(r: Repo, v: View, t: Request, p: Plan, red: Reduction)
    requires PlanReduction(v, t, p, red) && AllNew(r, t) && p.targetLineage !in r.lineages
    requires StageObjects(r.objects, red.revisions).Some?
    ensures Staged(r, BundleOf(v, t, red)).Some?
  {
  }

  /** Under every policy that adds no code, a plan that passes its checks is stored: its request is
      the run's one logged request. */
  lemma PlanIsStored(seed: Repo, q: Policy, v: View, t: Request, a: Action, p: Plan)
    requires LoadView(seed, t.project, t.lineage) == Some(v) && WellFormed(seed) && AllNew(seed, t)
    requires seed.lineages[t.lineage].head == v.Head()
    requires Applies(v, t, a, p) && PlanAccepted(v, p) && DerivesApart(p) && BaselineClosed(v, p) && Passes(q, v, t)
    requires v.Latest("snapshot", t.snapshotId).None? && t.snapshotId != v.snapshot.id
    requires forall j :: 0 <= j < |p.treatments| ==> TreatmentCodes(a, p.treatments[j]) == {}
    requires ActionDecisionCodes(Pool(v.decisions, [a]), v, t.project, a) == {}
    ensures Run(seed, q, [Load(0, t), Event.Finish(0, false)]).log == [Pending(seed, t)]
  {
    ViewOfBase(seed, t.project, t.lineage);
    var red := PlanReduces(v, t, a, p);
    PlanCodesClean(v, t, a, p);
    PlanPreClean(v, t, a, p);
    PlanPostClean(v, t, a, p, red);
    ReadyWhenClean(seed, q, t, v, red);
    PlanStages(seed, v, t, a, p, red);
    LoadThenFinish(seed, q, t);
  }

  lemma LoadThenFinish(seed: Repo, p: Policy, t: Request)
    requires Persists(System(seed, map[], []), p, Pending(seed, t))
    ensures Run(seed, p, [Load(0, t), Event.Finish(0, false)]).log == [Pending(seed, t)]
  {
    var events := [Load(0, t), Event.Finish(0, false)];
    assert events[..1] == [Load(0, t)] && [Load(0, t)][..0] == [];
    var one := Step(System(seed, map[], []), p, Load(0, t));
    assert one.repo == seed && one.log == [] && one.pending == map[0 := Pending(seed, t)];
    assert Run(seed, p, [Load(0, t)]) == one;
    StepRepo(one, p, Event.Finish(0, false));
  }

  // ---------------------------------------------------------------- Decisions that back a plan

  /** Stored Decision `ref` is an unused human answer to `q`. */
  predicate Backs(v: View, q: Requirement, ref: string) {
    && ref != "" && ref in v.decisions && ref !in v.used
    && v.decisions[ref].Says("actor_type", "human") && v.decisions[ref].Says("project_id", v.project)
    && v.decisions[ref].Says("decision_kind", q.decisionKind) && v.decisions[ref].Says("choice", q.choice)
    && v.decisions[ref].Names(q.subject.kind, q.subject.id)
  }

  lemma PlainPool(v: View, a: Action, ref: string)
    requires a.kind.ApplyLineagePlan? && ref != "" && ref in v.decisions
    ensures ref in Pool(v.decisions, [a]) && Pool(v.decisions, [a])[ref] == v.decisions[ref]
  {
    assert [a][..0] == [];
  }

  lemma BackedReference(v: View, a: Action, q: Requirement, ref: string)
    requires a.kind.ApplyLineagePlan? && a.payload.None? && Backs(v, q, ref)
    ensures ReferenceCodes(Pool(v.decisions, [a]), v, a, ref) == {}
    ensures ref in a.decisionRefs ==> !Unanswered(Pool(v.decisions, [a]), v, v.project, a, q)
  {
    PlainPool(v, a, ref);
    if ref in a.decisionRefs {
      var k :| 0 <= k < |a.decisionRefs| && a.decisionRefs[k] == ref;
      assert Answers(Pool(v.decisions, [a]), v, v.project, a, q, a.decisionRefs[k]);
    }
  }

  lemma PlanNeeds(v: View, a: Action, q: Requirement)
    requires a.kind.ApplyLineagePlan? && a.payload.None? && q in Required(v, a)
    ensures q in PlanRequirements(a.plan)
  {
  }

  /** An action whose requirements are each backed, by references that each back something, is clean. */
  lemma PlanBacked(v: View, a: Action)
    requires a.kind.ApplyLineagePlan? && a.payload.None?
    requires forall q :: q in PlanRequirements(a.plan) ==> exists ref :: ref in a.decisionRefs && Backs(v, q, ref)
    requires forall ref :: ref in a.decisionRefs ==> exists q :: Backs(v, q, ref)
    ensures ActionDecisionCodes(Pool(v.decisions, [a]), v, v.project, a) == {}
  {
    forall q | q in Required(v, a) ensures !Unanswered(Pool(v.decisions, [a]), v, v.project, a, q) {
      PlanNeeds(v, a, q);
      var ref :| ref in a.decisionRefs && Backs(v, q, ref);
      BackedReference(v, a, q, ref);
    }
    forall ref | ref in a.decisionRefs ensures ReferenceCodes(Pool(v.decisions, [a]), v, a, ref) == {} {
      var q :| Backs(v, q, ref);
      BackedReference(v, a, q, ref);
    }
    CleanByParts(Pool(v.decisions, [a]), v, v.project, a);
  }

  // ---------------------------------------------------------------- two objects in the baseline

  function Thing(kind: string, id: string, revision: int, lists: map<string, seq<string>>): Object {
    Object(kind, id, revision, map["schema_version" := "0.1.0"], lists, map[], map[], Unsealed)
  }

  function Answering(id: string, kind: string, choice: string, subject: Ref): Object {
    Object("decision", id, 0,
           map["schema_version" := "0.1.0", "project_id" := "P", "actor_type" := "human", "decision_kind" := kind,
               "choice" := choice],
           map[], map["subjects" := [subject]], map[], Unsealed)
  }

  function BaseOf(x: Object, y: Object): Object {
    Object("snapshot", "S", 0, map[], map[], map[], Rows(map[x.Identity() := x, y.Identity() := y]), Named("base"))
  }

  /** A repository of one lineage whose head has these two members, and two stored Decisions. */
  function SeedOf(x: Object, y: Object, d: Object, e: Object): Repo {
    Repo("P", Pin("C", Named("c")), Pin("E", Named("e")), map[x.Slot() := x, y.Slot() := y],
         map["S" := BaseOf(x, y)], map["D" := d, "E" := e],
         map["L" := Lineage("L", "main", Pin("S", Named("base")), None, None)], "L", {}, {}, map[], map[])
  }

  function PlanRequest(a: Action): Request {
    Request("T", "P", "L", Pin("S", Named("base")), Actor("h", "human"), [a],
            Pin("C", Named("c")), Pin("E", Named("e")), [], "KEY", "now", "CHILD-S", "COMMIT", "AUDIT", Unsealed)
      .WithCalculatedDigest()
  }

  /** The two members differ, and the two Decisions are filed under their ids. */
  predicate TwoThings(x: Object, y: Object, d: Object, e: Object) {
    x.Identity() != y.Identity() && x.revision == y.revision == 0 && d.id == "D" && e.id == "E"
    && Unreserved(x.kind) && Unreserved(y.kind)
  }

  lemma SeedIsSound(x: Object, y: Object, d: Object, e: Object)
    requires TwoThings(x, y, d, e)
    ensures SoundSeed(SeedOf(x, y, d, e))
  {
    var r := SeedOf(x, y, d, e);
    forall k | k in r.objects ensures FollowedIn(r.objects, k) {}
    SeedKeyed(x, y, d, e);
    BaseResolves(r.objects, x, y);
  }

  lemma SeedKeyed(x: Object, y: Object, d: Object, e: Object)
    requires TwoThings(x, y, d, e)
    ensures var r := SeedOf(x, y, d, e); Keyed(r) && ReservedFiled(r) && HeadsResolve(r)
  {
  }

  lemma BaseResolves(objects: map<Key, Object>, x: Object, y: Object)
    requires x.Identity() != y.Identity() && objects == map[x.Slot() := x, y.Slot() := y]
    ensures MembersResolve(objects, BaseOf(x, y))
  {
  }

  /** What a view of such a repository holds. */
  ghost predicate TwoView(v: View, x: Object, y: Object, d: Object, e: Object) {
    && v.Effective() == map[x.Identity() := x, y.Identity() := y] && Filed(v)
    && v.snapshot.members.Keys == {x.Identity(), y.Identity()} && v.objects == map[x.Slot() := x, y.Slot() := y]
    && v.snapshot.members[x.Identity()].revision == 0 && v.snapshot.members[y.Identity()].revision == 0
    && v.decisions == map["D" := d, "E" := e] && v.used == {} && v.project == "P" && v.lineage == "L"
    && v.lineages.Keys == {"L"} && v.Head() == Pin("S", Named("base")) && v.snapshot.id == "S"
    && v.config == Pin("C", Named("c")) && v.profile == Pin("E", Named("e"))
  }

  lemma EffectiveOfTwo(v: View, x: Object, y: Object)
    requires v.objects == map[x.Slot() := x, y.Slot() := y] && v.snapshot.members.Keys == {x.Identity(), y.Identity()}
    requires v.snapshot.members[x.Identity()].revision == x.revision
    requires v.snapshot.members[y.Identity()].revision == y.revision && x.Identity() != y.Identity()
    ensures v.Effective() == map[x.Identity() := x, y.Identity() := y]
  {
  }

  /** Such a repository has a view. */
  lemma SeedLoads(x: Object, y: Object, d: Object, e: Object) returns (v: View)
    requires TwoThings(x, y, d, e)
    ensures LoadView(SeedOf(x, y, d, e), "P", "L") == Some(v)
  {
    v := LoadView(SeedOf(x, y, d, e), "P", "L").value;
  }

  lemma SeedView(x: Object, y: Object, d: Object, e: Object, v: View)
    requires TwoThings(x, y, d, e) && LoadView(SeedOf(x, y, d, e), "P", "L") == Some(v)
    ensures TwoView(v, x, y, d, e)
  {
    var r := SeedOf(x, y, d, e);
    assert v == View("P", "L", BaseOf(x, y), r.objects, r.decisions, r.used, r.lineages, r.config, r.profile);
    EffectiveOfTwo(v, x, y);
  }

  lemma LatestOf(v: View, o: Object)
    requires o.Slot() in v.objects && v.objects[o.Slot()] == o
    requires forall k :: k in v.objects && k.kind == o.kind && k.id == o.id ==> k.revision == o.revision
    ensures v.Latest(o.kind, o.id) == Some(o)
  {
    var latest := LatestIn(v.objects, o.kind, o.id);
    var k :| k in v.objects && k.kind == o.kind && k.id == o.id && v.objects[k] == latest.value;
    assert k == o.Slot();
  }

  /** The plan's request fits the seed, and the plan is stored there. */
  lemma PlanOnSeed(x: Object, y: Object, d: Object, e: Object, v: View, a: Action, p: Plan)
    requires TwoThings(x, y, d, e) && LoadView(SeedOf(x, y, d, e), "P", "L") == Some(v)
    requires a.kind.ApplyLineagePlan? && a.plan == Some(p) && a.payload.None?
    requires p.baseline == Pin("S", Named("base")) && p.lineageKind == "exploratory_fork" && p.targetLineage == "CHILD"
    requires PlanAccepted(v, p) && DerivesApart(p) && BaselineClosed(v, p) && TracedBaseline(v, p)
    requires forall j :: 0 <= j < |p.treatments| ==> TreatmentCodes(a, p.treatments[j]) == {}
    requires ActionDecisionCodes(Pool(v.decisions, [a]), v, "P", a) == {}
    ensures Run(SeedOf(x, y, d, e), TRACED, [Load(0, PlanRequest(a)), Event.Finish(0, false)]).log
         == [Pending(SeedOf(x, y, d, e), PlanRequest(a))]
  {
    SeedView(x, y, d, e, v);
    SeedIsSound(x, y, d, e);
    RequestFits(v, a, p);
    NoSnapshotYet(v, x, y);
    PlanTraced(v, PlanRequest(a), a, p);
    PlanIsStored(SeedOf(x, y, d, e), TRACED, v, PlanRequest(a), a, p);
  }

  lemma RequestFits(v: View, a: Action, p: Plan)
    requires a.kind.ApplyLineagePlan? && a.plan == Some(p) && a.payload.None?
    requires p.baseline == Pin("S", Named("base")) && p.lineageKind == "exploratory_fork" && p.targetLineage == "CHILD"
    requires v.project == "P" && v.lineage == "L" && v.lineages.Keys == {"L"} && v.Head() == Pin("S", Named("base"))
    requires v.config == Pin("C", Named("c")) && v.profile == Pin("E", Named("e"))
    ensures Applies(v, PlanRequest(a), a, p)
  {
  }

  lemma NoSnapshotYet(v: View, x: Object, y: Object)
    requires v.objects == map[x.Slot() := x, y.Slot() := y] && Unreserved(x.kind) && Unreserved(y.kind)
    ensures v.Latest("snapshot", "CHILD-S").None?
  {
  }

  lemma PreserveAccepted(v: View, p: Plan, m: Ref)
    requires m in v.snapshot.members && TreatmentOf(p.treatments, m).Some?
    requires TreatmentOf(p.treatments, m).value.treatment in {"PRESERVE", "INVALIDATE"}
    requires v.Exact(m.kind, m.id, v.snapshot.members[m].revision).Some?
    ensures MemberAccepted(v, p, m)
  {
  }

  lemma TwoTreatments(p: Plan)
    requires |p.treatments| == 2 && Source(p.treatments[0]) != Source(p.treatments[1])
    ensures TreatmentOf(p.treatments, Source(p.treatments[0])) == Some(p.treatments[0])
    ensures TreatmentOf(p.treatments, Source(p.treatments[1])) == Some(p.treatments[1])
  {
    var ts := p.treatments;
    assert ts[1..] == [ts[1]];
    assert TreatmentOf(ts, Source(ts[1])) == TreatmentOf(ts[1..], Source(ts[1]));
  }

  /** A plan of two treatments, one for each member. */
  lemma TwoAccepted(v: View, p: Plan, x: Ref, y: Ref)
    requires |p.treatments| == 2 && Source(p.treatments[0]) == x && Source(p.treatments[1]) == y && x != y
    requires x.kind != "" && x.id != "" && y.kind != "" && y.id != "" && v.snapshot.members.Keys == {x, y}
    requires p.targetLineage != "" && p.lineageKind != "" && MemberAccepted(v, p, x) && MemberAccepted(v, p, y)
    ensures PlanAccepted(v, p)
  {
  }

  // ---------------------------------------------------------------- a preserved member lost

  const M_0 := Thing("method", "M", 0, map[])
  const M_1 := Thing("method", "M", 1, map["decision_ids" := ["D"]])
  const N_0 := Thing("method", "N", 0, map[])

  const RECONFIRMS_M := Answering("D", "lineage_reconfirmation", "reconfirm", Ref("method", "M"))
  const APPLIES_PLAN := Answering("E", "lineage_plan", "apply", Ref("lineage_plan", "PLAN"))

  const OVERLAP := Plan("PLAN", "CHILD", "exploratory_fork", Pin("S", Named("base")),
    [Treatment("method", "M", "PRESERVE", None, "", ""),
     Treatment("method", "N", "RECONFIRM", Some(M_1), "M", "D")], "", [], None)

  const OVERLAPPING := Action(ApplyLineagePlan, None, None, Some(OVERLAP), "", [], ["D", "E"])

  const METHODS := SeedOf(M_0, N_0, RECONFIRMS_M, APPLIES_PLAN)

  lemma MethodsRefer(o: Object)
    requires o.kind == "method" && "project_id" !in o.text && "question_ids" !in o.lists
    ensures References(o) == []
  {
  }

  lemma OverlapAccepted(v: View)
    requires LoadView(METHODS, "P", "L") == Some(v)
    ensures PlanAccepted(v, OVERLAP)
  {
    SeedView(M_0, N_0, RECONFIRMS_M, APPLIES_PLAN, v);
    TwoTreatments(OVERLAP);
    LatestOf(v, M_0);
    PreserveAccepted(v, OVERLAP, Ref("method", "M"));
    assert DerivedAccepted(v, Ref("method", "N"), OVERLAP.treatments[1], M_1);
    assert v.Exact("method", "N", 0) == Some(N_0);
    assert MemberAccepted(v, OVERLAP, Ref("method", "N"));
    TwoAccepted(v, OVERLAP, Ref("method", "M"), Ref("method", "N"));
  }

  lemma AnsweringBacks(v: View, ref: string, q: Requirement)
    requires ref != "" && ref in v.decisions && ref !in v.used && v.project == "P"
    requires v.decisions[ref] == Answering(ref, q.decisionKind, q.choice, q.subject)
    ensures Backs(v, q, ref)
  {
  }

  lemma OverlapDecided(v: View)
    requires TwoView(v, M_0, N_0, RECONFIRMS_M, APPLIES_PLAN)
    ensures ActionDecisionCodes(Pool(v.decisions, [OVERLAPPING]), v, "P", OVERLAPPING) == {}
  {
    var plan := Requirement("lineage_plan", "apply", Ref("lineage_plan", "PLAN"));
    var again := Requirement("lineage_reconfirmation", "reconfirm", Ref("method", "M"));
    AnsweringBacks(v, "D", again);
    AnsweringBacks(v, "E", plan);
    OverlapNeeds(plan, again);
    TwoBacked(v, OVERLAPPING, plan, again);
  }

  lemma OverlapNeeds(plan: Requirement, again: Requirement)
    requires plan == Requirement("lineage_plan", "apply", Ref("lineage_plan", "PLAN"))
    requires again == Requirement("lineage_reconfirmation", "reconfirm", Ref("method", "M"))
    ensures forall q :: q in PlanRequirements(Some(OVERLAP)) ==> q == plan || q == again
  {
    forall t | t in OVERLAP.treatments && Reconfirms(t) ensures t == OVERLAP.treatments[1] {}
  }

  lemma TwoBacked(v: View, a: Action, plan: Requirement, again: Requirement)
    requires a.kind.ApplyLineagePlan? && a.payload.None? && a.decisionRefs == ["D", "E"]
    requires Backs(v, again, "D") && Backs(v, plan, "E")
    requires forall q :: q in PlanRequirements(a.plan) ==> q == plan || q == again
    ensures ActionDecisionCodes(Pool(v.decisions, [a]), v, v.project, a) == {}
  {
    assert "D" in a.decisionRefs && "E" in a.decisionRefs;
    PlanBacked(v, a);
  }

  /** A baseline of two objects that refer to nothing is closed, and so is what `d` adds to it. */
  lemma LooseClosed(v: View, p: Plan, x: Object, y: Object, d: Object)
    requires v.Effective() == map[x.Identity() := x, y.Identity() := y]
    requires References(x) == [] && References(y) == [] && References(d) == []
    requires forall i :: 0 <= i < |p.treatments| && Reconfirms(p.treatments[i]) ==> p.treatments[i].derived == Some(d)
    ensures BaselineClosed(v, p)
  {
    NoReference(v.Effective(), v.project, x);
    NoReference(v.Effective(), v.project, y);
    NoReference(v.Effective(), v.project, d);
    TwoClosed(v.Effective(), v.project, x, y);
    DerivesOnly(v, p, d);
  }

  lemma NoReference(members: map<Ref, Object>, project: string, o: Object)
    requires References(o) == []
    ensures RefersWithin(members, project, o)
  {
  }

  lemma DerivesOnly(v: View, p: Plan, d: Object)
    requires Closed(v.Effective(), v.project) && RefersWithin(v.Effective(), v.project, d)
    requires forall i :: 0 <= i < |p.treatments| && Reconfirms(p.treatments[i]) ==> p.treatments[i].derived == Some(d)
    ensures BaselineClosed(v, p)
  {
  }

  lemma OverlapDerives()
    ensures var ts := OVERLAP.treatments;
      forall i :: 0 <= i < |ts| && Reconfirms(ts[i]) ==> ts[i].derived == Some(M_1)
  {
  }

  lemma OverlapClosed(v: View)
    requires v.Effective() == map[M_0.Identity() := M_0, N_0.Identity() := N_0]
    ensures BaselineClosed(v, OVERLAP)
  {
    MethodsRefer(M_0);
    MethodsRefer(N_0);
    MethodsRefer(M_1);
    OverlapDerives();
    LooseClosed(v, OVERLAP, M_0, N_0, M_1);
  }

  lemma TwoClosed(members: map<Ref, Object>, project: string, x: Object, y: Object)
    requires members == map[x.Identity() := x, y.Identity() := y]
    requires RefersWithin(members, project, x) && RefersWithin(members, project, y)
    ensures Closed(members, project)
  {
  }

  lemma OverlapApart()
    ensures DerivesApart(OVERLAP)
  {
  }

  lemma OverlapTreatments()
    ensures forall j :: 0 <= j < |OVERLAP.treatments| ==> TreatmentCodes(OVERLAPPING, OVERLAP.treatments[j]) == {}
  {
    assert TreatmentCodes(OVERLAPPING, OVERLAP.treatments[0]) == {};
    Provenanced(OVERLAPPING, OVERLAP.treatments[1]);
  }

  lemma Provenanced(a: Action, t: Treatment)
    requires Reconfirms(t) && t.decisionRef != "" && t.derivedRef == t.derived.value.id
    requires t.decisionRef in a.decisionRefs && t.decisionRef in t.derived.value.List("decision_ids")
    ensures TreatmentCodes(a, t) == {}
  {
  }

  /** The core checks demand nothing of these two kinds. */
  lemma MethodUntraced(o: Object)
    requires o.kind == "method"
    ensures TraceCodes(o) == {}
  {
  }

  lemma QuestionUntraced(o: Object)
    requires o.kind == "research_question"
    ensures TraceCodes(o) == {}
  {
  }

  lemma TwoTraced(v: View, p: Plan, x: Object, y: Object)
    requires v.Effective() == map[x.Identity() := x, y.Identity() := y]
    requires TraceCodes(x) == {} && TraceCodes(y) == {}
    requires forall i :: 0 <= i < |p.treatments| && Reconfirms(p.treatments[i]) ==>
               TraceCodes(p.treatments[i].derived.value) == {}
    ensures TracedBaseline(v, p)
  {
  }

  lemma OverlapTraced(v: View)
    requires v.Effective() == map[M_0.Identity() := M_0, N_0.Identity() := N_0]
    ensures TracedBaseline(v, OVERLAP)
  {
    OverlapDerives();
    MethodUntraced(M_0);
    MethodUntraced(N_0);
    MethodUntraced(M_1);
    TwoTraced(v, OVERLAP, M_0, N_0);
  }

  lemma OverlapStored(v: View)
    requires LoadView(METHODS, "P", "L") == Some(v)
    ensures Run(METHODS, TRACED, [Load(0, PlanRequest(OVERLAPPING)), Event.Finish(0, false)]).log
         == [Pending(METHODS, PlanRequest(OVERLAPPING))]
  {
    SeedView(M_0, N_0, RECONFIRMS_M, APPLIES_PLAN, v);
    OverlapAccepted(v);
    OverlapDecided(v);
    OverlapClosed(v);
    OverlapApart();
    OverlapTreatments();
    OverlapTraced(v);
    PlanOnSeed(M_0, N_0, RECONFIRMS_M, APPLIES_PLAN, v, OVERLAPPING, OVERLAP);
  }

  /** Preserving M and reconfirming N as the next revision of M passes the core trace checks with
      the others and is stored; the child cannot hold both. */
  lemma PreservedMemberLost() returns (v: View)
    ensures SoundSeed(METHODS) && LoadView(METHODS, "P", "L") == Some(v)
    ensures Run(METHODS, TRACED, [Load(0, PlanRequest(OVERLAPPING)), Event.Finish(0, false)]).log
         == [Pending(METHODS, PlanRequest(OVERLAPPING))]
    ensures Overlapping(OVERLAP) && !AllKept(v, OVERLAP)
  {
    v := SeedLoads(M_0, N_0, RECONFIRMS_M, APPLIES_PLAN);
    SeedIsSound(M_0, N_0, RECONFIRMS_M, APPLIES_PLAN);
    OverlapStored(v);
    OverlapLoses(v);
  }

  lemma OverlapLoses(v: View)
    requires LoadView(METHODS, "P", "L") == Some(v)
    ensures Overlapping(OVERLAP) && !AllKept(v, OVERLAP)
  {
    SeedView(M_0, N_0, RECONFIRMS_M, APPLIES_PLAN, v);
    OverlapAccepted(v);
    assert Overlaps(OVERLAP, 1, 0);
    ContestedLoses(v, OVERLAP);
  }

  // ---------------------------------------------------------------- an open head

  const METHOD := Thing("method", "M", 0, map["question_ids" := ["Q"]])
  const QUESTION := Thing("research_question", "Q", 0, map[])

  const DROPPING := Plan("PLAN", "CHILD", "exploratory_fork", Pin("S", Named("base")),
    [Treatment("method", "M", "PRESERVE", None, "", ""),
     Treatment("research_question", "Q", "INVALIDATE", None, "", "")], "", [], None)

  const DROPS := Action(ApplyLineagePlan, None, None, Some(DROPPING), "", [], ["E"])

  const QUESTIONS := SeedOf(METHOD, QUESTION, RECONFIRMS_M, APPLIES_PLAN)

  lemma MethodRefers(o: Object)
    requires o.kind == "method" && "project_id" !in o.text && o.lists == map["question_ids" := ["Q"]]
    ensures References(o) == [Ref("research_question", "Q")]
  {
  }

  lemma QuestionRefers(o: Object)
    requires o.kind == "research_question" && "project_id" !in o.text && "parent_question_id" !in o.text
    requires o.refs == map[]
    ensures References(o) == []
  {
  }

  lemma DropAccepted(v: View)
    requires TwoView(v, METHOD, QUESTION, RECONFIRMS_M, APPLIES_PLAN)
    ensures PlanAccepted(v, DROPPING)
  {
    TwoTreatments(DROPPING);
    assert v.Exact("method", "M", 0) == Some(METHOD) && v.Exact("research_question", "Q", 0) == Some(QUESTION);
    PreserveAccepted(v, DROPPING, Ref("method", "M"));
    PreserveAccepted(v, DROPPING, Ref("research_question", "Q"));
    TwoAccepted(v, DROPPING, Ref("method", "M"), Ref("research_question", "Q"));
  }

  lemma DropDecided(v: View)
    requires TwoView(v, METHOD, QUESTION, RECONFIRMS_M, APPLIES_PLAN)
    ensures ActionDecisionCodes(Pool(v.decisions, [DROPS]), v, "P", DROPS) == {}
  {
    var plan := Requirement("lineage_plan", "apply", Ref("lineage_plan", "PLAN"));
    AnsweringBacks(v, "E", plan);
    DropNeeds(plan);
    assert "E" in DROPS.decisionRefs;
    PlanBacked(v, DROPS);
  }

  lemma DropNeeds(plan: Requirement)
    requires plan == Requirement("lineage_plan", "apply", Ref("lineage_plan", "PLAN"))
    ensures forall q :: q in PlanRequirements(Some(DROPPING)) ==> q == plan
  {
    assert forall t :: t in DROPPING.treatments ==> !Reconfirms(t);
  }

  lemma DropPasses(v: View)
    requires v.Effective() == map[METHOD.Identity() := METHOD, QUESTION.Identity() := QUESTION]
    ensures DerivesApart(DROPPING) && BaselineClosed(v, DROPPING)
    ensures forall j :: 0 <= j < |DROPPING.treatments| ==> TreatmentCodes(DROPS, DROPPING.treatments[j]) == {}
  {
    MethodRefers(METHOD);
    QuestionRefers(QUESTION);
    OneReference(v.Effective(), v.project, METHOD, Ref("research_question", "Q"));
    TwoClosed(v.Effective(), v.project, METHOD, QUESTION);
    NothingDerived(v, DROPPING, DROPS);
  }

  lemma DropDerives()
    ensures forall i :: 0 <= i < |DROPPING.treatments| ==> !Reconfirms(DROPPING.treatments[i])
  {
  }

  lemma DropTraced(v: View)
    requires v.Effective() == map[METHOD.Identity() := METHOD, QUESTION.Identity() := QUESTION]
    ensures TracedBaseline(v, DROPPING)
  {
    DropDerives();
    MethodUntraced(METHOD);
    QuestionUntraced(QUESTION);
    TwoTraced(v, DROPPING, METHOD, QUESTION);
  }

  lemma OneReference(members: map<Ref, Object>, project: string, o: Object, r: Ref)
    requires References(o) == [r] && r in members && r.kind != "*"
    ensures RefersWithin(members, project, o)
  {
  }

  lemma NothingDerived(v: View, p: Plan, a: Action)
    requires forall i :: 0 <= i < |p.treatments| ==> p.treatments[i].treatment in {"PRESERVE", "INVALIDATE"}
    requires Closed(v.Effective(), v.project)
    ensures DerivesApart(p) && BaselineClosed(v, p)
    ensures forall j :: 0 <= j < |p.treatments| ==> TreatmentCodes(a, p.treatments[j]) == {}
  {
  }

  lemma DropStored(v: View)
    requires LoadView(QUESTIONS, "P", "L") == Some(v)
    ensures Run(QUESTIONS, TRACED, [Load(0, PlanRequest(DROPS)), Event.Finish(0, false)]).log
         == [Pending(QUESTIONS, PlanRequest(DROPS))]
  {
    SeedView(METHOD, QUESTION, RECONFIRMS_M, APPLIES_PLAN, v);
    DropAccepted(v);
    DropDecided(v);
    DropPasses(v);
    DropTraced(v);
    PlanOnSeed(METHOD, QUESTION, RECONFIRMS_M, APPLIES_PLAN, v, DROPS, DROPPING);
  }

  lemma QuestionLeftOut()
    ensures LeftOut(DROPPING, PlanRequest(DROPS).actions, Ref("research_question", "Q"))
    ensures SurvivesAs(DROPPING, Ref("method", "M"))
  {
    assert GivesUp(DROPPING, 1, Ref("research_question", "Q"));
    assert LeavesAs(DROPPING, 0, Ref("method", "M"));
  }

  lemma MethodStranded(v: View)
    requires TwoView(v, METHOD, QUESTION, RECONFIRMS_M, APPLIES_PLAN)
    ensures !NothingStranded(v, PlanRequest(DROPS), DROPPING)
  {
    DropAccepted(v);
    QuestionLeftOut();
    MethodKept(v);
    MethodRefers(METHOD);
    OneStranded(v, PlanRequest(DROPS), DROPPING, Ref("method", "M"), Ref("research_question", "Q"));
  }

  lemma MethodKept(v: View)
    requires TwoView(v, METHOD, QUESTION, RECONFIRMS_M, APPLIES_PLAN) && PlanAccepted(v, DROPPING)
    requires SurvivesAs(DROPPING, Ref("method", "M"))
    ensures var m := Ref("method", "M"); m in Child(v, DROPPING) && Child(v, DROPPING)[m] == METHOD
  {
    var r := Ref("method", "M");
    ChildKeys(v, DROPPING, r);
    var m := ChildOrigin(v, DROPPING, r);
    TwoTreatments(DROPPING);
    assert v.Exact("method", "M", 0) == Some(METHOD);
  }

  lemma OneStranded(v: View, t: Request, p: Plan, r: Ref, x: Ref)
    requires r in Child(v, p) && References(Child(v, p)[r]) == [x]
    requires LeftOut(p, t.actions, x) && x.kind != "*" && x.kind != "project"
    ensures !NothingStranded(v, t, p)
  {
    assert Stranded(p, t.actions, v.project, References(Child(v, p)[r])[0]);
  }

  lemma OneRequestClean(t: Request, a: Action)
    requires t.actions == [a] && CleanAction(a)
    ensures CleanEvents([Load(0, t), Event.Finish(0, false)])
  {
  }

  /** A run of one request leaves the head of its child open when a survivor's reference is stranded. */
  lemma SoleHead(seed: Repo, p: Policy, events: seq<Event>, end: System, v: View, t: Request, a: Action, plan: Plan)
    requires SoundSeed(seed) && CleanEvents(events) && end == Run(seed, p, events) && end.log == [Pending(seed, t)]
    requires t.actions == [a] && a.kind.ApplyLineagePlan? && a.plan == Some(plan)
    requires LoadView(seed, t.project, t.lineage) == Some(v) && !NothingStranded(v, t, plan)
    ensures !HeadClosed(end.repo, t, v.project)
  {
    NoDecisions(a);
    var w, same := RunChildHeads(seed, p, events, 0);
    assert end.log[0] == Pending(seed, t) && w == v;
    OnlyPlan(t.actions, a, plan, same);
  }

  lemma OnlyPlan(actions: seq<Action>, a: Action, plan: Plan, same: Plan)
    requires actions == [a] && a.plan == Some(plan)
    requires exists k :: 0 <= k < |actions| && actions[k].plan == Some(same)
    ensures same == plan
  {
  }

  /** Preserving a method and invalidating its research question passes the core trace checks with
      the others and is stored; the head of the child then refers to a question it does not have. */
  lemma OpenHead() returns (v: View)
    ensures SoundSeed(QUESTIONS) && LoadView(QUESTIONS, "P", "L") == Some(v)
    ensures var end := Run(QUESTIONS, TRACED, [Load(0, PlanRequest(DROPS)), Event.Finish(0, false)]);
            && end.log == [Pending(QUESTIONS, PlanRequest(DROPS))]
            && !HeadClosed(end.repo, PlanRequest(DROPS), v.project)
  {
    v := SeedLoads(METHOD, QUESTION, RECONFIRMS_M, APPLIES_PLAN);
    SeedIsSound(METHOD, QUESTION, RECONFIRMS_M, APPLIES_PLAN);
    SeedView(METHOD, QUESTION, RECONFIRMS_M, APPLIES_PLAN, v);
    DropStored(v);
    DropsOpen(v);
    OneRequestOpen(QUESTIONS, v, PlanRequest(DROPS), DROPS, DROPPING);
  }

  lemma DerivesNothingClean(a: Action)
    requires a.payload.None? && a.plan.Some?
    requires forall i :: 0 <= i < |a.plan.value.treatments| ==> a.plan.value.treatments[i].derived.None?
    ensures CleanAction(a)
  {
  }

  lemma DropsOpen(v: View)
    requires TwoView(v, METHOD, QUESTION, RECONFIRMS_M, APPLIES_PLAN)
    ensures var t := PlanRequest(DROPS); t.actions == [DROPS] && t.project == "P" && t.lineage == "L"
    ensures DROPS.kind.ApplyLineagePlan? && DROPS.plan == Some(DROPPING) && CleanAction(DROPS)
    ensures !NothingStranded(v, PlanRequest(DROPS), DROPPING)
  {
    DerivesNothingClean(DROPS);
    MethodStranded(v);
  }

  lemma OneRequestOpen(seed: Repo, v: View, t: Request, a: Action, plan: Plan)
    requires SoundSeed(seed) && LoadView(seed, t.project, t.lineage) == Some(v)
    requires t.actions == [a] && a.kind.ApplyLineagePlan? && a.plan == Some(plan) && CleanAction(a)
    requires !NothingStranded(v, t, plan)
    requires Run(seed, TRACED, [Load(0, t), Event.Finish(0, false)]).log == [Pending(seed, t)]
    ensures !HeadClosed(Run(seed, TRACED, [Load(0, t), Event.Finish(0, false)]).repo, t, v.project)
  {
    var events := [Load(0, t), Event.Finish(0, false)];
    OneRequestClean(t, a);
    SoleHead(seed, TRACED, events, Run(seed, TRACED, events), v, t, a, plan);
  }
}
