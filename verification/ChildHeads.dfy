/** The references of a child lineage's head: the reference check passes on a map that keeps what
    the plan gives up, so the child can refer to members it no longer has. */
module ChildHeads {
  import opened Common
  import opened Records
  import opened Authority
  import opened Reducer
  import opened ReducerFacts
  import opened StateValidation
  import opened Repository
  import opened Service
  import opened CommitFacts
  import opened ApplyOutcomes
  import opened History
  import opened Integrity
  import opened LineagePlan

  // ---------------------------------------------------------------- what the treatments leave

  /** Treatment `i` leaves an object of identity `r`: it preserves `r`, or derives it. */
  predicate LeavesAs(p: Plan, i: int, r: Ref)
    requires 0 <= i < |p.treatments|
  {
    var t := p.treatments[i];
    (t.treatment == "PRESERVE" && Source(t) == r) || (Reconfirms(t) && t.derived.value.Identity() == r)
  }

  predicate SurvivesAs(p: Plan, r: Ref) { exists i :: 0 <= i < |p.treatments| && LeavesAs(p, i, r) }

  /** Treatment `i` gives up member `r`: it invalidates it, or reconfirms it under another identity. */
  predicate GivesUp(p: Plan, i: int, r: Ref)
    requires 0 <= i < |p.treatments|
  {
    var t := p.treatments[i];
    Source(t) == r && (t.treatment == "INVALIDATE" || (Reconfirms(t) && t.derived.value.Identity() != r))
  }

  /** The reference check still sees `r`, which no treatment leaves: a member that is given up, or
      a Decision recorded beside the plan. */
  predicate LeftOut(p: Plan, actions: seq<Action>, r: Ref) {
    !SurvivesAs(p, r)
    && ((exists i :: 0 <= i < |p.treatments| && GivesUp(p, i, r))
        || exists k :: 0 <= k < |DecisionsOf(actions)| && DecisionsOf(actions)[k].Identity() == r)
  }

  /** A reference that only something left out resolves. */
  ghost predicate Stranded(p: Plan, actions: seq<Action>, project: string, r: Ref) {
    if r.kind == "*" then
      (exists m :: LeftOut(p, actions, m) && m.id == r.id) && !exists m :: SurvivesAs(p, m) && m.id == r.id
    else LeftOut(p, actions, r) && r != Ref("project", project)
  }

  /** A reference to nothing that survives or is left out. */
  ghost predicate Dangles(p: Plan, actions: seq<Action>, project: string, r: Ref) {
    if r.kind == "*" then !exists m :: (SurvivesAs(p, m) || LeftOut(p, actions, m)) && m.id == r.id
    else r != Ref("project", project) && !SurvivesAs(p, r) && !LeftOut(p, actions, r)
  }

  lemma LeavesAt(v: View, p: Plan, i: nat, r: Ref)
    requires PlanAccepted(v, p) && Filed(v) && i < |p.treatments|
    ensures LeavesAs(p, i, r) <==>
              var m := Source(p.treatments[i]);
              m in v.snapshot.members && Survivor(v, p, m).Some? && Survivor(v, p, m).value.Identity() == r
  {
    SurvivorOf(v, p, i);
    assert MemberAccepted(v, p, Source(p.treatments[i]));
  }

  /** The child's identities, read off the treatments. */
  lemma ChildKeys(v: View, p: Plan, r: Ref)
    requires PlanAccepted(v, p) && Filed(v)
    ensures r in Child(v, p) <==> SurvivesAs(p, r)
  {
    if r in Child(v, p) {
      var m := ChildOrigin(v, p, r);
      var i := TreatedAt(v, p, m);
      LeavesAt(v, p, i, r);
    }
    if i :| 0 <= i < |p.treatments| && LeavesAs(p, i, r) {
      LeavesAt(v, p, i, r);
      var m := Source(p.treatments[i]);
      assert m in Baseline(v);
      var k :| 0 <= k < |Baseline(v)| && Baseline(v)[k] == m;
      assert Leaves(v, p, Baseline(v), k, r);
      ChildHoldsLast(v, p, Baseline(v), r);
    }
  }

  lemma MemberLeftOrKept(v: View, p: Plan, actions: seq<Action>, r: Ref)
    requires PlanAccepted(v, p) && r in v.snapshot.members
    ensures SurvivesAs(p, r) || LeftOut(p, actions, r)
  {
    var i := TreatedAt(v, p, r);
    assert MemberAccepted(v, p, r);
    assert LeavesAs(p, i, r) || GivesUp(p, i, r);
  }

  // ---------------------------------------------------------------- what the reference check sees

  lemma {:induction false} OfIdentityMembers(s: seq<Object>, r: Ref, o: Object)
    ensures o in OfIdentity(s, r) <==> o in s && o.Identity() == r
  {
    if s != [] { OfIdentityMembers(s[1..], r, o); }
  }

  lemma EffectiveBaseline(v: View, p: Plan)
    requires PlanAccepted(v, p)
    ensures v.Effective().Keys == v.snapshot.members.Keys
    ensures forall m :: m in v.snapshot.members ==>
              v.Exact(m.kind, m.id, v.snapshot.members[m].revision) == Some(v.Effective()[m])
  {
    forall m | m in v.snapshot.members ensures v.Exact(m.kind, m.id, v.snapshot.members[m].revision).Some? {
      assert MemberAccepted(v, p, m);
    }
  }

  /** The revisions an accepted plan proposes: derived objects and recorded decisions. */
  ghost predicate Proposes(v: View, req: Request, p: Plan, revisions: seq<Object>) {
    && PlanAccepted(v, p)
    && (forall o :: o in DecisionsOf(req.actions) ==> v.Latest(o.kind, o.id).None?)
    && (forall o :: o in revisions <==>
          || o in DecisionsOf(req.actions)
          || exists m :: m in v.snapshot.members && Derives(p, m) && Survivor(v, p, m) == Some(o))
  }

  lemma DerivedExactly(v: View, p: Plan, o: Object)
    ensures o in DerivedObjects(v, p, Baseline(v)) <==>
              exists m :: m in v.snapshot.members && Derives(p, m) && Survivor(v, p, m) == Some(o)
  {
    DerivedOrigin(v, p, Baseline(v), o);
    if m :| m in v.snapshot.members && Derives(p, m) && Survivor(v, p, m) == Some(o) {
      assert m in Baseline(v);
      var i :| 0 <= i < |Baseline(v)| && Baseline(v)[i] == m;
      assert Derives(p, Baseline(v)[i]);
    }
  }

  lemma SortedTwice(a: seq<Object>, b: seq<Object>, o: Object)
    ensures o in StableSorted(StableSorted(a) + b) <==> o in a || o in b
  {
    SortMembers(StableSorted(a) + b, o);
    SortMembers(a, o);
  }

  lemma DecisionIsNew(v: View, actions: seq<Action>, o: Object)
    requires RecordedAccepted(v, actions) && o in DecisionsOf(actions)
    ensures v.Latest(o.kind, o.id).None?
  {
    DecisionsOrigin(actions, o);
    var i :| 0 <= i < |actions| && actions[i].kind.RecordDecision? && actions[i].payload == Some(o);
    assert ObjectAccepted(v, RecordDecision, o);
  }

  lemma ReducedProposes(v: View, req: Request, p: Plan, red: Reduction)
    requires ReducePlan(v, req, p) == Some(red)
    ensures Proposes(v, req, p, red.revisions)
  {
    var derived, decisions := DerivedObjects(v, p, Baseline(v)), DecisionsOf(req.actions);
    assert red.revisions == StableSorted(StableSorted(derived) + decisions);
    forall o ensures o in red.revisions <==>
                       || o in decisions
                       || exists m :: m in v.snapshot.members && Derives(p, m) && Survivor(v, p, m) == Some(o)
    {
      SortedTwice(derived, decisions, o);
      DerivedExactly(v, p, o);
    }
    forall o | o in decisions ensures v.Latest(o.kind, o.id).None? { DecisionIsNew(v, req.actions, o); }
  }

  lemma FoldHolds(base: map<Ref, Object>, s: seq<Object>, r: Ref, o: Object)
    requires (o in s && o.Identity() == r) || (r in base && base[r] == o)
    requires forall x :: x in OfIdentity(s, r) ==> x == o
    ensures r in Fold(base, s) && Fold(base, s)[r] == o
  {
    FoldAt(base, s, r);
    OfIdentityMembers(s, r, o);
    var own := OfIdentity(s, r);
    if own != [] { assert own[|own| - 1] in own; }
  }

  /** Two staged revisions of one identity are one object. */
  lemma SameRevision(store: map<Key, Object>, v: View, revisions: seq<Object>, a: Object, b: Object)
    requires StageObjects(store, revisions).Some? && a in revisions && b in revisions
    requires Follows(v, a) && Follows(v, b) && a.Identity() == b.Identity()
    ensures a == b
  {
    StagedObjects(store, revisions);
    assert a.Slot() == b.Slot();
  }

  /** Whatever the check folds under an identity, the child has it or it is left out. */
  lemma FoldedOrLeftOut(v: View, req: Request, p: Plan, revisions: seq<Object>, r: Ref)
    requires Proposes(v, req, p, revisions) && Filed(v) && r in Fold(v.Effective(), revisions)
    ensures SurvivesAs(p, r) || LeftOut(p, req.actions, r)
  {
    FoldAt(v.Effective(), revisions, r);
    EffectiveBaseline(v, p);
    if r in v.snapshot.members {
      MemberLeftOrKept(v, p, req.actions, r);
    } else {
      var own := OfIdentity(revisions, r);
      OfIdentityMembers(revisions, r, own[0]);
      ProposedOrLeftOut(v, req, p, revisions, own[0]);
    }
  }

  lemma ProposedOrLeftOut(v: View, req: Request, p: Plan, revisions: seq<Object>, o: Object)
    requires Proposes(v, req, p, revisions) && Filed(v) && o in revisions
    ensures SurvivesAs(p, o.Identity()) || LeftOut(p, req.actions, o.Identity())
  {
    if o in DecisionsOf(req.actions) {
      var k :| 0 <= k < |DecisionsOf(req.actions)| && DecisionsOf(req.actions)[k] == o;
    } else {
      var m :| m in v.snapshot.members && Derives(p, m) && Survivor(v, p, m) == Some(o);
      var i := TreatedAt(v, p, m);
      LeavesAt(v, p, i, o.Identity());
    }
  }

  /** The child resolves a reference unless it is stranded or dangles. */
  lemma ResolvesExactly(v: View, req: Request, p: Plan, r: Ref)
    requires PlanAccepted(v, p) && Filed(v)
    ensures Resolves(Child(v, p), v.project, r) <==>
              !Stranded(p, req.actions, v.project, r) && !Dangles(p, req.actions, v.project, r)
  {
    if r.kind == "*" {
      WildcardResolves(v, p, r);
      WildcardSurvives(p, req.actions, v.project, r);
    } else {
      ChildKeys(v, p, r);
    }
  }

  lemma WildcardSurvives(p: Plan, actions: seq<Action>, project: string, r: Ref)
    requires r.kind == "*"
    ensures (exists m :: SurvivesAs(p, m) && m.id == r.id) <==>
              !Stranded(p, actions, project, r) && !Dangles(p, actions, project, r)
  {
  }

  /** A reference the check resolved does not dangle. */
  lemma CheckedHolds(v: View, req: Request, p: Plan, revisions: seq<Object>, r: Ref)
    requires Proposes(v, req, p, revisions) && Filed(v) && Resolves(Fold(v.Effective(), revisions), v.project, r)
    ensures !Dangles(p, req.actions, v.project, r)
  {
    if r.kind == "*" {
      var m :| m in Fold(v.Effective(), revisions) && m.id == r.id;
      FoldedOrLeftOut(v, req, p, revisions, m);
    } else if r in Fold(v.Effective(), revisions) {
      FoldedOrLeftOut(v, req, p, revisions, r);
    }
  }

  lemma WildcardResolves(v: View, p: Plan, r: Ref)
    requires PlanAccepted(v, p) && Filed(v) && r.kind == "*"
    ensures Resolves(Child(v, p), v.project, r) <==> exists m :: SurvivesAs(p, m) && m.id == r.id
  {
    if m :| m in Child(v, p) && m.id == r.id { ChildKeys(v, p, m); }
    if m :| SurvivesAs(p, m) && m.id == r.id { ChildKeys(v, p, m); }
  }

  // ---------------------------------------------------------------- the child's own objects

  /** What the child holds is what the check folded, or a preserved object that an overlapping
      reconfirmation replaced there. */
  lemma ChildSeen(store: map<Key, Object>, v: View, req: Request, p: Plan, revisions: seq<Object>, r: Ref)
    requires Proposes(v, req, p, revisions) && Filed(v) && StageObjects(store, revisions).Some?
    requires (forall o :: o in revisions ==> Follows(v, o)) && r in Child(v, p)
    ensures (r in Fold(v.Effective(), revisions) && Fold(v.Effective(), revisions)[r] == Child(v, p)[r])
            || (Overlapping(p) && r in v.Effective() && v.Effective()[r] == Child(v, p)[r])
  {
    var m := ChildOrigin(v, p, r);
    var kept := Child(v, p)[r];
    if o :| o in OfIdentity(revisions, r) && o != kept {
      OfIdentityMembers(revisions, r, o);
      if Derives(p, m) {
        SameRevision(store, v, revisions, o, kept);
      } else {
        EffectiveBaseline(v, p);
        PreservedInPlace(v, p, m, kept);
        ReplacedOverlaps(v, req, p, revisions, m, o);
      }
    } else {
      if !Derives(p, m) {
        EffectiveBaseline(v, p);
        PreservedInPlace(v, p, m, kept);
      }
      FoldHolds(v.Effective(), revisions, r, kept);
    }
  }

  lemma PreservedInPlace(v: View, p: Plan, m: Ref, kept: Object)
    requires PlanAccepted(v, p) && Filed(v) && m in v.snapshot.members && !Derives(p, m)
    requires Survivor(v, p, m) == Some(kept)
    ensures v.Exact(m.kind, m.id, v.snapshot.members[m].revision) == Some(kept) && kept.Identity() == m
    ensures Preserves(p, m)
  {
    assert MemberAccepted(v, p, m);
  }

  lemma ReplacedOverlaps(v: View, req: Request, p: Plan, revisions: seq<Object>, m: Ref, o: Object)
    requires Proposes(v, req, p, revisions) && Filed(v) && m in v.snapshot.members && Preserves(p, m)
    requires o in revisions && o.Identity() == m
    ensures Overlapping(p)
  {
    EffectiveBaseline(v, p);
    assert Key(m.kind, m.id, v.snapshot.members[m].revision) in v.objects;
    assert v.Latest(m.kind, m.id).Some?;
    var n :| n in v.snapshot.members && Derives(p, n) && Survivor(v, p, n) == Some(o);
    var i := TreatedAt(v, p, n);
    var j := TreatedAt(v, p, m);
    assert Overlaps(p, i, j);
  }

  lemma ChildChecked(store: map<Key, Object>, v: View, req: Request, p: Plan, revisions: seq<Object>, r: Ref, i: int)
    requires Proposes(v, req, p, revisions) && Filed(v) && StageObjects(store, revisions).Some?
    requires (forall o :: o in revisions ==> Follows(v, o)) && r in Child(v, p)
    requires Closed(Fold(v.Effective(), revisions), v.project)
    requires Overlapping(p) ==> Closed(v.Effective(), v.project)
    requires 0 <= i < |References(Child(v, p)[r])|
    ensures Resolves(Fold(v.Effective(), revisions), v.project, References(Child(v, p)[r])[i])
  {
    ChildSeen(store, v, req, p, revisions, r);
    var x := References(Child(v, p)[r])[i];
    if r in Fold(v.Effective(), revisions) && Fold(v.Effective(), revisions)[r] == Child(v, p)[r] {
    } else {
      assert Resolves(v.Effective(), v.project, x);
      StillResolves(v.Effective(), revisions, v.project, x);
    }
  }

  lemma StillResolves(base: map<Ref, Object>, revisions: seq<Object>, project: string, x: Ref)
    requires Resolves(base, project, x)
    ensures Resolves(Fold(base, revisions), project, x)
  {
    FoldAt(base, revisions, x);
    if x.kind == "*" {
      var m :| m in base && m.id == x.id;
      FoldAt(base, revisions, m);
    }
  }

  /** No survivor refers to something the plan leaves out. */
  ghost predicate NothingStranded(v: View, req: Request, p: Plan) {
    forall r :: r in Child(v, p) ==>
      forall i :: 0 <= i < |References(Child(v, p)[r])| ==>
        !Stranded(p, req.actions, v.project, References(Child(v, p)[r])[i])
  }

  /** No survivor refers to something that neither survives nor is left out. */
  ghost predicate NothingDangles(v: View, req: Request, p: Plan) {
    forall r :: r in Child(v, p) ==>
      forall i :: 0 <= i < |References(Child(v, p)[r])| ==>
        !Dangles(p, req.actions, v.project, References(Child(v, p)[r])[i])
  }

  lemma ClosedByReferences(v: View, req: Request, p: Plan)
    requires PlanAccepted(v, p) && Filed(v)
    ensures Closed(Child(v, p), v.project) <==> NothingStranded(v, req, p) && NothingDangles(v, req, p)
  {
    forall r, i | r in Child(v, p) && 0 <= i < |References(Child(v, p)[r])|
      ensures Resolves(Child(v, p), v.project, References(Child(v, p)[r])[i]) <==>
                !Stranded(p, req.actions, v.project, References(Child(v, p)[r])[i])
                && !Dangles(p, req.actions, v.project, References(Child(v, p)[r])[i])
    {
      ResolvesExactly(v, req, p, References(Child(v, p)[r])[i]);
    }
  }

  /** The child head of a plan that passed the reference check and can be stored is closed exactly
      when no survivor refers to something the plan leaves out, and none dangles. Only a preserved
      object that an overlapping reconfirmation hid from the check can dangle, on an open baseline. */
  lemma ChildClosed(store: map<Key, Object>, v: View, req: Request, p: Plan, red: Reduction)
    requires ReducePlan(v, req, p) == Some(red) && Filed(v) && StageObjects(store, red.revisions).Some?
    requires forall o :: o in red.revisions ==> Follows(v, o)
    requires Closed(Fold(v.Effective(), red.revisions), v.project)
    ensures Closed(Child(v, p), v.project) <==> NothingStranded(v, req, p) && NothingDangles(v, req, p)
    ensures (Overlapping(p) ==> Closed(v.Effective(), v.project)) ==> NothingDangles(v, req, p)
  {
    ReducedProposes(v, req, p, red);
    ClosedByReferences(v, req, p);
    if Overlapping(p) ==> Closed(v.Effective(), v.project) {
      forall r, i | r in Child(v, p) && 0 <= i < |References(Child(v, p)[r])|
        ensures !Dangles(p, req.actions, v.project, References(Child(v, p)[r])[i])
      {
        ChildChecked(store, v, req, p, red.revisions, r, i);
        CheckedHolds(v, req, p, red.revisions, References(Child(v, p)[r])[i]);
      }
    }
  }

  // ---------------------------------------------------------------- every run

  /** The head of the child a stored plan made, as the repository holds it. */
  ghost predicate HeadClosed(r: Repo, req: Request, project: string) {
    req.snapshotId in r.snapshots && Closed(Resolved(r.objects, r.snapshots[req.snapshotId]), project)
  }

  lemma StoredPlanHead(s: System, p: Policy, one: Pending, v: View, red: Reduction, plan: Plan)
    requires Accepted(one.base, v, one.req, red) && ReducePlan(v, one.req, plan) == Some(red) && Filed(v)
    requires StageObjects(s.repo.objects, red.revisions).Some?
    ensures Closed(Child(v, plan), v.project) <==>
              NothingStranded(v, one.req, plan) && NothingDangles(v, one.req, plan)
    ensures (Overlapping(plan) ==> Closed(v.Effective(), v.project)) ==> NothingDangles(v, one.req, plan)
  {
    CleanPost(v, one.req, red);
    forall o | o in red.revisions ensures Follows(v, o) { RevisionOrigin(v, one.req, red, o); }
    ChildClosed(s.repo.objects, v, one.req, plan, red);
  }

  lemma HeadOfChild(seed: Repo, p: Policy, events: seq<Event>, v: View, req: Request, plan: Plan)
    requires SoundSeed(seed) && CleanEvents(events) && PlanStands(Run(seed, p, events).repo, v, req, plan)
    ensures HeadClosed(Run(seed, p, events).repo, req, v.project) <==> Closed(Child(v, plan), v.project)
  {
    RunIntegral(seed, p, events);
    var r := Run(seed, p, events).repo;
    assert MembersResolve(r.objects, r.snapshots[req.snapshotId]);
    ResolvedRows(r.objects, Child(v, plan), r.snapshots[req.snapshotId]);
  }

  /** Over every run: the head of a child that a stored plan made is closed exactly when no
      survivor refers to something the plan left out, or to nothing at all. */
  lemma RunChildHeads(seed: Repo, p: Policy, events: seq<Event>, i: nat) returns (v: View, plan: Plan)
    requires SoundSeed(seed) && CleanEvents(events) && i < |Run(seed, p, events).log|
    requires HasPlan(Run(seed, p, events).log[i].req.actions)
    ensures var end := Run(seed, p, events);
            var one := end.log[i];
            && LoadView(one.base, one.req.project, one.req.lineage) == Some(v)
            && (exists k :: 0 <= k < |one.req.actions| && one.req.actions[k].plan == Some(plan))
            && PlanStands(end.repo, v, one.req, plan)
            && (HeadClosed(end.repo, one.req, v.project) <==>
                  NothingStranded(v, one.req, plan) && NothingDangles(v, one.req, plan))
            && ((Overlapping(plan) ==> Closed(v.Effective(), v.project)) ==> NothingDangles(v, one.req, plan))
  {
    var one := Run(seed, p, events).log[i];
    LoggedWasStored(seed, p, events, i);
    var n, slot :| 0 <= n < |events|
                   && StoredThen(Run(seed, p, events[..n]), p, slot, one, Run(seed, p, events).repo);
    RunSafe(seed, p, events[..n]);
    assert SafePending(Run(seed, p, events[..n]).repo, one);
    v, plan := PlanHeadAt(Run(seed, p, events[..n]), p, one, Run(seed, p, events).repo);
    HeadOfChild(seed, p, events, v, one.req, plan);
  }

  lemma PlanHeadAt(s: System, p: Policy, one: Pending, r: Repo) returns (v: View, plan: Plan)
    requires Safe(s) && SafePending(s.repo, one) && Persists(s, p, one) && HasPlan(one.req.actions)
    requires Grows(Next(s, p, one), r)
    ensures LoadView(one.base, one.req.project, one.req.lineage) == Some(v)
    ensures exists k :: 0 <= k < |one.req.actions| && one.req.actions[k].plan == Some(plan)
    ensures PlanStands(r, v, one.req, plan)
    ensures Closed(Child(v, plan), v.project) <==>
              NothingStranded(v, one.req, plan) && NothingDangles(v, one.req, plan)
    ensures (Overlapping(plan) ==> Closed(v.Effective(), v.project)) ==> NothingDangles(v, one.req, plan)
  {
    var red: Reduction;
    v, red, plan := PlanStoredAs(s, p, one);
    StandsKept(Next(s, p, one), r, v, one.req, plan);
    StoredPlanHead(s, p, one, v, red, plan);
  }
}
