/** What an accepted lineage plan does: every baseline member treated once, nothing existing
    moved, and the child snapshot made of exactly what the treatments leave over. */
module LineagePlan {
  import opened Common
  import opened Records
  import opened Authority
  import opened Reducer
  import opened ReducerFacts
  import opened Repository
  import opened Service
  import opened CommitFacts
  import opened ApplyOutcomes
  import opened History

  function Source(t: Treatment): Ref { Ref(t.objectKind, t.sourceRef) }

  // ---------------------------------------------------------------- one treatment per member

  lemma {:induction false} DistinctSourcesCount(ts: seq<Treatment>, keys: set<Ref>)
    requires TreatmentsDistinct(ts)
    requires forall i :: 0 <= i < |ts| ==> Source(ts[i]) in keys
    requires forall m :: m in keys ==> Treats(ts, m)
    ensures |ts| == |keys|
  {
    if ts == [] {
      if keys != {} { var m := Pick(keys); }
    } else {
      var last := |ts| - 1;
      var front, rest := ts[..last], keys - {Source(ts[last])};
      forall i | 0 <= i < last ensures Source(front[i]) in rest {
        assert Ref(ts[i].objectKind, ts[i].sourceRef) != Ref(ts[last].objectKind, ts[last].sourceRef);
      }
      forall m | m in rest ensures Treats(front, m) {
        var i :| 0 <= i < |ts| && Ref(ts[i].objectKind, ts[i].sourceRef) == m;
        assert front[i] == ts[i];
      }
      DistinctSourcesCount(front, rest);
    }
  }

  /** An accepted plan has exactly one treatment for each baseline member and no other. */
  lemma TreatsEachOnce(v: View, p: Plan)
    requires PlanAccepted(v, p)
    ensures |p.treatments| == |v.snapshot.members|
    ensures forall m :: m in v.snapshot.members <==> Treats(p.treatments, m)
    ensures forall i, j :: 0 <= i < j < |p.treatments| ==> Source(p.treatments[i]) != Source(p.treatments[j])
  {
    forall m | m in v.snapshot.members ensures Treats(p.treatments, m) {
      TreatmentFound(p.treatments, m);
      assert MemberAccepted(v, p, m);
    }
    DistinctSourcesCount(p.treatments, v.snapshot.members.Keys);
  }

  // ---------------------------------------------------------------- nothing existing moves

  /** A stored plan leaves every existing lineage (heads included) and the active pointer as
      they were; it adds one child, whose parent and baseline are those of the request. */
  lemma PlanMovesNothing(r: Repo, v: View, req: Request, red: Reduction)
    requires HasPlan(req.actions) && Reduce(v, req) == Some(red)
    requires Staged(r, BundleOf(v, req, red)).Some?
    ensures var next := Staged(r, BundleOf(v, req, red)).value;
            red.child.Some? && red.child.value.id !in r.lineages
            && next.lineages == r.lineages[red.child.value.id := red.child.value]
            && next.active == r.active
            && red.child.value.parent == Some(req.lineage) && red.child.value.baseline == Some(v.snapshot.id)
            && red.child.value.head.ref in next.snapshots && red.child.value.head.ref !in r.snapshots
  {
    var i := PlanAction(v, req, red);
    PlanChild(v, req, req.actions[i].plan.value, red);
    StagedChild(r, BundleOf(v, req, red));
  }

  // ---------------------------------------------------------------- the child's members

  /** Position `i` of the baseline leaves an object of identity `r`. */
  predicate Leaves(v: View, p: Plan, order: seq<Ref>, i: int, r: Ref)
    requires forall k :: 0 <= k < |order| ==> order[k] in v.snapshot.members
    requires 0 <= i < |order|
  {
    Survivor(v, p, order[i]).Some? && Survivor(v, p, order[i]).value.Identity() == r
  }

  /** Position `i` is the last one of `order` that leaves an object of identity `r`. */
  ghost predicate LeavesLast(v: View, p: Plan, order: seq<Ref>, i: int, r: Ref)
    requires forall k :: 0 <= k < |order| ==> order[k] in v.snapshot.members
  {
    0 <= i < |order| && Leaves(v, p, order, i, r) && forall j :: i < j < |order| ==> !Leaves(v, p, order, j, r)
  }

  lemma LeavesBefore(v: View, p: Plan, order: seq<Ref>, n: nat, i: int, r: Ref)
    requires (forall k :: 0 <= k < |order| ==> order[k] in v.snapshot.members) && 0 <= i < n <= |order|
    ensures Leaves(v, p, order[..n], i, r) <==> Leaves(v, p, order, i, r)
  {
  }

  lemma LastStays(v: View, p: Plan, order: seq<Ref>, i: int, r: Ref)
    requires (forall k :: 0 <= k < |order| ==> order[k] in v.snapshot.members) && order != []
    requires LeavesLast(v, p, order[..|order| - 1], i, r) && !Leaves(v, p, order, |order| - 1, r)
    ensures LeavesLast(v, p, order, i, r)
  {
    var last := |order| - 1;
    forall j | 0 <= j < last ensures Leaves(v, p, order[..last], j, r) <==> Leaves(v, p, order, j, r) {
      LeavesBefore(v, p, order, last, j, r);
    }
  }

  /** The child holds an identity exactly when some member leaves it, and then holds what the
      last such member in identity order leaves. */
  lemma {:induction false} ChildHoldsLast(v: View, p: Plan, order: seq<Ref>, r: Ref)
    requires forall k :: 0 <= k < |order| ==> order[k] in v.snapshot.members
    ensures r in ChildMembers(v, p, order) <==> exists i :: 0 <= i < |order| && Leaves(v, p, order, i, r)
    ensures r in ChildMembers(v, p, order) ==>
              exists i :: LeavesLast(v, p, order, i, r)
                  && ChildMembers(v, p, order)[r] == Survivor(v, p, order[i]).value
  {
    if order != [] {
      var last := |order| - 1;
      var front := order[..last];
      ChildHoldsLast(v, p, front, r);
      if Leaves(v, p, order, last, r) {
        assert LeavesLast(v, p, order, last, r);
      } else {
        ChildUnchanged(v, p, order, r);
        forall i | 0 <= i < last ensures Leaves(v, p, front, i, r) <==> Leaves(v, p, order, i, r) {
          LeavesBefore(v, p, order, last, i, r);
        }
        if r in ChildMembers(v, p, front) {
          var i :| LeavesLast(v, p, front, i, r) && ChildMembers(v, p, front)[r] == Survivor(v, p, front[i]).value;
          LastStays(v, p, order, i, r);
        }
      }
    }
  }

  lemma ChildUnchanged(v: View, p: Plan, order: seq<Ref>, r: Ref)
    requires (forall k :: 0 <= k < |order| ==> order[k] in v.snapshot.members) && order != []
    requires !Leaves(v, p, order, |order| - 1, r)
    ensures var front := ChildMembers(v, p, order[..|order| - 1]);
            (r in ChildMembers(v, p, order) <==> r in front)
            && (r in front ==> ChildMembers(v, p, order)[r] == front[r])
  {
  }

  function Child(v: View, p: Plan): map<Ref, Object> { ChildMembers(v, p, Baseline(v)) }

  lemma ChildOrigin(v: View, p: Plan, r: Ref) returns (m: Ref)
    requires r in Child(v, p)
    ensures m in v.snapshot.members && Survivor(v, p, m) == Some(Child(v, p)[r]) && Child(v, p)[r].Identity() == r
  {
    ChildHoldsLast(v, p, Baseline(v), r);
    var i :| LeavesLast(v, p, Baseline(v), i, r) && Child(v, p)[r] == Survivor(v, p, Baseline(v)[i]).value;
    m := Baseline(v)[i];
  }

  /** Nothing the treatments leave over is lost: the child is exactly the survivors. */
  predicate AllKept(v: View, p: Plan) {
    forall m :: m in v.snapshot.members && Survivor(v, p, m).Some? ==>
      var o := Survivor(v, p, m).value;
      o.Identity() in Child(v, p) && Child(v, p)[o.Identity()] == o
  }

  /** A reconfirmation derives an object under the identity of a preserved member. */
  predicate Overlaps(p: Plan, i: int, j: int)
    requires 0 <= i < |p.treatments| && 0 <= j < |p.treatments|
  {
    var s, t := p.treatments[i], p.treatments[j];
    Reconfirms(s) && t.treatment == "PRESERVE" && s.derived.value.Identity() == Source(t)
  }

  /** Two reconfirmations derive different objects under one identity. */
  predicate Splits(p: Plan, i: int, j: int)
    requires 0 <= i < |p.treatments| && 0 <= j < |p.treatments|
  {
    var s, t := p.treatments[i], p.treatments[j];
    Reconfirms(s) && Reconfirms(t) && s.derived.value.Identity() == t.derived.value.Identity() && s.derived != t.derived
  }

  predicate Contested(p: Plan) {
    exists i, j :: 0 <= i < |p.treatments| && 0 <= j < |p.treatments| && (Overlaps(p, i, j) || Splits(p, i, j))
  }

  predicate Filed(v: View) { forall k :: k in v.objects ==> v.objects[k].Slot() == k }

  lemma TreatedAt(v: View, p: Plan, m: Ref) returns (i: nat)
    requires PlanAccepted(v, p) && m in v.snapshot.members
    ensures i < |p.treatments| && TreatmentOf(p.treatments, m) == Some(p.treatments[i]) && Source(p.treatments[i]) == m
  {
    assert MemberAccepted(v, p, m);
    TreatmentFound(p.treatments, m);
    i :| 0 <= i < |p.treatments| && p.treatments[i] == TreatmentOf(p.treatments, m).value;
  }

  lemma SurvivorOf(v: View, p: Plan, i: nat)
    requires PlanAccepted(v, p) && i < |p.treatments|
    ensures Source(p.treatments[i]) in v.snapshot.members
    ensures TreatmentOf(p.treatments, Source(p.treatments[i])) == Some(p.treatments[i])
    ensures MemberAccepted(v, p, Source(p.treatments[i]))
  {
    var m := Source(p.treatments[i]);
    assert Ref(p.treatments[i].objectKind, p.treatments[i].sourceRef) in v.snapshot.members;
    var k := TreatedAt(v, p, m);
    assert k == i;
  }

  /** Survivors of different members under one identity make the plan contested, unless equal. */
  lemma ClashContests(v: View, p: Plan, m: Ref, n: Ref)
    requires PlanAccepted(v, p) && Filed(v) && m in v.snapshot.members && n in v.snapshot.members
    requires Survivor(v, p, m).Some? && Survivor(v, p, n).Some? && Survivor(v, p, m) != Survivor(v, p, n)
    requires Survivor(v, p, m).value.Identity() == Survivor(v, p, n).value.Identity()
    ensures Contested(p)
  {
    var i := TreatedAt(v, p, m);
    var j := TreatedAt(v, p, n);
    assert MemberAccepted(v, p, m) && MemberAccepted(v, p, n);
    if p.treatments[i].treatment == "PRESERVE" {
      assert Overlaps(p, j, i);
    } else if p.treatments[j].treatment == "PRESERVE" {
      assert Overlaps(p, i, j);
    } else {
      assert Splits(p, i, j);
    }
  }

  lemma ContestedLoses(v: View, p: Plan)
    requires PlanAccepted(v, p) && Filed(v) && Contested(p)
    ensures !AllKept(v, p)
  {
    var i, j :| 0 <= i < |p.treatments| && 0 <= j < |p.treatments| && (Overlaps(p, i, j) || Splits(p, i, j));
    SurvivorOf(v, p, i);
    SurvivorOf(v, p, j);
    var m, n := Source(p.treatments[i]), Source(p.treatments[j]);
    if Overlaps(p, i, j) {
      OverlapDiffers(v, p, i, j);
    }
    assert Survivor(v, p, m).Some? && Survivor(v, p, n).Some? && Survivor(v, p, m) != Survivor(v, p, n);
  }

  /** A derived object is a new revision, so it never equals a preserved one. */
  lemma OverlapDiffers(v: View, p: Plan, i: nat, j: nat)
    requires PlanAccepted(v, p) && Filed(v) && i < |p.treatments| && j < |p.treatments| && Overlaps(p, i, j)
    ensures var m, n := Source(p.treatments[i]), Source(p.treatments[j]);
            m in v.snapshot.members && n in v.snapshot.members
            && Survivor(v, p, m).Some? && Survivor(v, p, n).Some?
            && Survivor(v, p, m).value.Identity() == Survivor(v, p, n).value.Identity()
            && Survivor(v, p, m) != Survivor(v, p, n)
  {
    SurvivorOf(v, p, i);
    SurvivorOf(v, p, j);
    var n := Source(p.treatments[j]);
    var kept := v.Exact(n.kind, n.id, v.snapshot.members[n].revision).value;
    var prior := v.Latest(n.kind, n.id);
    assert Key(n.kind, n.id, kept.revision) in v.objects;
    if prior.Some? { LatestStored(v, n.kind, n.id); }
  }

  /** Plan exactness: the child is exactly the preserved members at their exact revisions and
      the derived objects, if and only if no derived identity is contested. */
  lemma ChildExact(v: View, p: Plan)
    requires PlanAccepted(v, p) && Filed(v)
    ensures AllKept(v, p) <==> !Contested(p)
    ensures forall r :: r in Child(v, p) ==>
              exists m :: m in v.snapshot.members && Survivor(v, p, m) == Some(Child(v, p)[r])
                  && Child(v, p)[r].Identity() == r
  {
    forall r | r in Child(v, p)
      ensures exists m ::
                m in v.snapshot.members && Survivor(v, p, m) == Some(Child(v, p)[r]) && Child(v, p)[r].Identity() == r
    {
      var m := ChildOrigin(v, p, r);
    }
    if Contested(p) { ContestedLoses(v, p); } else { UncontestedKeeps(v, p); }
  }

  lemma UncontestedKeeps(v: View, p: Plan)
    requires PlanAccepted(v, p) && Filed(v) && !Contested(p)
    ensures AllKept(v, p)
  {
    forall m | m in v.snapshot.members && Survivor(v, p, m).Some?
      ensures var o := Survivor(v, p, m).value; o.Identity() in Child(v, p) && Child(v, p)[o.Identity()] == o
    {
      var r := Survivor(v, p, m).value.Identity();
      ChildHoldsLast(v, p, Baseline(v), r);
      assert m in Baseline(v);
      var k :| 0 <= k < |Baseline(v)| && Baseline(v)[k] == m;
      assert Leaves(v, p, Baseline(v), k, r);
      var n := ChildOrigin(v, p, r);
      if Survivor(v, p, n) != Survivor(v, p, m) { ClashContests(v, p, m, n); }
    }
  }

  predicate Preserves(p: Plan, m: Ref) {
    var t := TreatmentOf(p.treatments, m);
    t.Some? && t.value.treatment == "PRESERVE"
  }

  lemma PreservedKept(v: View, p: Plan, m: Ref)
    requires PlanAccepted(v, p) && Filed(v) && AllKept(v, p) && m in v.snapshot.members && Preserves(p, m)
    ensures m in Child(v, p) && Child(v, p)[m].revision == v.snapshot.members[m].revision
  {
    assert MemberAccepted(v, p, m);
    assert Survivor(v, p, m).value.Identity() == m;
  }

  /** The child snapshot records exactly the child members, and in an uncontested plan every
      preserved member at its recorded revision. */
  lemma ChildRows(v: View, req: Request, red: Reduction) returns (p: Plan)
    requires HasPlan(req.actions) && Reduce(v, req) == Some(red) && Filed(v)
    ensures PlanAccepted(v, p) && exists i :: 0 <= i < |req.actions| && req.actions[i].plan == Some(p)
    ensures red.snapshot.Some? && red.snapshot.value.members == Rows(Child(v, p))
    ensures !Contested(p) ==>
              forall m :: m in v.snapshot.members && Preserves(p, m) ==>
                m in red.snapshot.value.members
                    && red.snapshot.value.members[m].revision == v.snapshot.members[m].revision
  {
    var i := PlanAction(v, req, red);
    p := req.actions[i].plan.value;
    PlanRows(v, req, p, red);
    if !Contested(p) { PreservedRows(v, p); }
  }

  lemma PlanRows(v: View, req: Request, p: Plan, red: Reduction)
    requires ReducePlan(v, req, p) == Some(red)
    ensures PlanAccepted(v, p) && red.snapshot.Some? && red.snapshot.value.members == Rows(Child(v, p))
  {
  }

  lemma PreservedRows(v: View, p: Plan)
    requires PlanAccepted(v, p) && Filed(v) && !Contested(p)
    ensures forall m :: m in v.snapshot.members && Preserves(p, m) ==>
              m in Rows(Child(v, p)) && Rows(Child(v, p))[m].revision == v.snapshot.members[m].revision
  {
    UncontestedKeeps(v, p);
    forall m | m in v.snapshot.members && Preserves(p, m)
      ensures m in Child(v, p) && Child(v, p)[m].revision == v.snapshot.members[m].revision
    {
      PreservedKept(v, p, m);
    }
  }

  // ---------------------------------------------------------------- what the commit rules out

  /** Two derived objects that differ under one identity cannot both be staged: the second
      would change the revision the first one wrote. */
  lemma StagedNeverSplits(store: map<Key, Object>, v: View, req: Request, p: Plan, red: Reduction, j: nat, k: nat)
    requires ReducePlan(v, req, p) == Some(red) && StageObjects(store, red.revisions).Some?
    requires j < |p.treatments| && k < |p.treatments|
    ensures !Splits(p, j, k)
  {
    if Splits(p, j, k) {
      DerivedIsRevision(v, req, p, red, j);
      DerivedIsRevision(v, req, p, red, k);
      SameSlot(v, p, j, k);
      StagedObjects(store, red.revisions);
    }
  }

  lemma SameSlot(v: View, p: Plan, j: nat, k: nat)
    requires j < |p.treatments| && k < |p.treatments| && Splits(p, j, k)
    requires DerivedAccepted(v, Source(p.treatments[j]), p.treatments[j], p.treatments[j].derived.value)
    requires DerivedAccepted(v, Source(p.treatments[k]), p.treatments[k], p.treatments[k].derived.value)
    ensures p.treatments[j].derived.value.Slot() == p.treatments[k].derived.value.Slot()
    ensures p.treatments[j].derived.value != p.treatments[k].derived.value
  {
  }

  lemma DerivedIsRevision(v: View, req: Request, p: Plan, red: Reduction, j: nat)
    requires ReducePlan(v, req, p) == Some(red) && j < |p.treatments| && Reconfirms(p.treatments[j])
    ensures p.treatments[j].derived.value in red.revisions
    ensures DerivedAccepted(v, Source(p.treatments[j]), p.treatments[j], p.treatments[j].derived.value)
  {
    SurvivorOf(v, p, j);
    var m, o := Source(p.treatments[j]), p.treatments[j].derived.value;
    assert m in Baseline(v);
    var k :| 0 <= k < |Baseline(v)| && Baseline(v)[k] == m;
    assert Derives(p, Baseline(v)[k]) && Survivor(v, p, Baseline(v)[k]) == Some(o);
    DerivedOrigin(v, p, Baseline(v), o);
    var derived := DerivedObjects(v, p, Baseline(v));
    SortMembers(derived, o);
    SortMembers(StableSorted(derived) + DecisionsOf(req.actions), o);
  }

  /** So a stored plan loses a survivor exactly when a derived identity is that of a preserved
      member: no check of the commit path rejects that overlap. */
  lemma StoredPlanExact(r: Repo, v: View, req: Request, red: Reduction, b: Bundle) returns (p: Plan)
    requires HasPlan(req.actions) && Reduce(v, req) == Some(red) && Filed(v)
    requires b.reduction == red && Staged(r, b).Some?
    ensures red.snapshot.Some? && red.snapshot.value.members == Rows(Child(v, p))
    ensures exists i :: 0 <= i < |req.actions| && req.actions[i].plan == Some(p)
    ensures !AllKept(v, p) <==> Overlapping(p)
  {
    var i := PlanAction(v, req, red);
    p := req.actions[i].plan.value;
    PlanRows(v, req, p, red);
    StagedKeptOrOverlaps(r.objects, v, req, p, red);
  }

  predicate Overlapping(p: Plan) {
    exists i, j :: 0 <= i < |p.treatments| && 0 <= j < |p.treatments| && Overlaps(p, i, j)
  }

  lemma ContestedByOverlap(p: Plan)
    requires forall j, k :: 0 <= j < |p.treatments| && 0 <= k < |p.treatments| ==> !Splits(p, j, k)
    ensures Contested(p) <==> Overlapping(p)
  {
  }

  lemma StagedKeptOrOverlaps(store: map<Key, Object>, v: View, req: Request, p: Plan, red: Reduction)
    requires ReducePlan(v, req, p) == Some(red) && StageObjects(store, red.revisions).Some? && Filed(v)
    ensures !AllKept(v, p) <==> Overlapping(p)
  {
    forall j, k | 0 <= j < |p.treatments| && 0 <= k < |p.treatments| ensures !Splits(p, j, k) {
      StagedNeverSplits(store, v, req, p, red, j, k);
    }
    ContestedByOverlap(p);
    KeptUnlessContested(v, p);
  }

  lemma KeptUnlessContested(v: View, p: Plan)
    requires PlanAccepted(v, p) && Filed(v)
    ensures AllKept(v, p) <==> !Contested(p)
  {
    if Contested(p) { ContestedLoses(v, p); } else { UncontestedKeeps(v, p); }
  }

  // ---------------------------------------------------------------- every run

  /** What a stored plan leaves in the repository for good: the child snapshot holds exactly the
      child members, which are all survivors unless identities overlap, and the child lineage
      is there with its parent and baseline. */
  ghost predicate PlanStands(r: Repo, v: View, req: Request, p: Plan) {
    && PlanAccepted(v, p)
    && req.snapshotId in r.snapshots && r.snapshots[req.snapshotId].members == Rows(Child(v, p))
    && (AllKept(v, p) <==> !Overlapping(p))
    && p.targetLineage in r.lineages
    && r.lineages[p.targetLineage].parent == Some(req.lineage)
    && r.lineages[p.targetLineage].baseline == Some(v.snapshot.id)
  }

  ghost predicate PlanRecorded(r: Repo, one: Pending) {
    HasPlan(one.req.actions) ==>
      var v := LoadView(one.base, one.req.project, one.req.lineage);
      v.Some? && exists i :: 0 <= i < |one.req.actions| && one.req.actions[i].plan.Some?
                             && PlanStands(r, v.value, one.req, one.req.actions[i].plan.value)
  }

  /** Nothing that existed moves: one child lineage is added, headed by the new snapshot. */
  ghost predicate OnlyAddsChild(a: Repo, b: Repo, snapshotId: string, child: Lineage) {
    && child.id !in a.lineages && b.lineages == a.lineages[child.id := child] && b.active == a.active
    && snapshotId !in a.snapshots && snapshotId in b.snapshots
    && child.head == Pin(snapshotId, b.snapshots[snapshotId].seal)
  }

  lemma PlanChild(v: View, req: Request, p: Plan, red: Reduction)
    requires ReducePlan(v, req, p) == Some(red)
    ensures red.child.Some? && red.child.value.id == p.targetLineage && red.moved.None? && red.activate.None?
    ensures red.child.value.parent == Some(req.lineage) && red.child.value.baseline == Some(v.snapshot.id)
    ensures red.snapshot.Some? && red.snapshot.value.id == req.snapshotId
    ensures red.child.value.head == Pin(req.snapshotId, red.snapshot.value.seal)
  {
  }

  lemma StagedChild(r: Repo, b: Bundle)
    requires Staged(r, b).Some? && b.reduction.child.Some? && b.reduction.moved.None? && b.reduction.activate.None?
    requires b.reduction.snapshot.Some?
    requires b.reduction.child.value.head == Pin(b.reduction.snapshot.value.id, b.reduction.snapshot.value.seal)
    ensures var next, s := Staged(r, b).value, b.reduction.snapshot.value;
            OnlyAddsChild(r, next, s.id, b.reduction.child.value) && next.snapshots[s.id] == s
  {
  }

  /** The commit of a plan, from any state a run can reach. */
  lemma PlanStoredAs(s: System, p: Policy, one: Pending) returns (v: View, red: Reduction, plan: Plan)
    requires Safe(s) && SafePending(s.repo, one) && Persists(s, p, one) && HasPlan(one.req.actions)
    ensures Accepted(one.base, v, one.req, red) && ReducePlan(v, one.req, plan) == Some(red) && Filed(v)
    ensures StageObjects(s.repo.objects, red.revisions).Some? && red.child.Some?
    ensures exists i :: 0 <= i < |one.req.actions| && one.req.actions[i].plan == Some(plan)
    ensures OnlyAddsChild(s.repo, Next(s, p, one), one.req.snapshotId, red.child.value)
    ensures PlanStands(Next(s, p, one), v, one.req, plan)
  {
    var b: Bundle;
    v, red, b := StoredBundle(s, p, one);
    ViewOfBase(one.base, one.req.project, one.req.lineage);
    var i := PlanAction(v, one.req, red);
    plan := one.req.actions[i].plan.value;
    PlanChild(v, one.req, plan, red);
    StagedChild(s.repo, b);
    PlanRows(v, one.req, plan, red);
    StagedKeptOrOverlaps(s.repo.objects, v, one.req, plan, red);
  }

  lemma PlanStored(s: System, p: Policy, one: Pending) returns (child: Lineage)
    requires Safe(s) && SafePending(s.repo, one) && Persists(s, p, one) && HasPlan(one.req.actions)
    ensures OnlyAddsChild(s.repo, Next(s, p, one), one.req.snapshotId, child)
    ensures PlanRecorded(Next(s, p, one), one)
  {
    var v, red, plan := PlanStoredAs(s, p, one);
    child := red.child.value;
    var i :| 0 <= i < |one.req.actions| && one.req.actions[i].plan == Some(plan);
    assert one.req.actions[i].plan.value == plan;
  }

  lemma PlanKept(a: Repo, b: Repo, one: Pending)
    requires Grows(a, b) && PlanRecorded(a, one)
    ensures PlanRecorded(b, one)
  {
    if HasPlan(one.req.actions) {
      var v := LoadView(one.base, one.req.project, one.req.lineage).value;
      var i :| 0 <= i < |one.req.actions| && one.req.actions[i].plan.Some?
               && PlanStands(a, v, one.req, one.req.actions[i].plan.value);
      StandsKept(a, b, v, one.req, one.req.actions[i].plan.value);
    }
  }

  lemma StandsKept(a: Repo, b: Repo, v: View, req: Request, p: Plan)
    requires Grows(a, b) && PlanStands(a, v, req, p)
    ensures PlanStands(b, v, req, p)
  {
    assert Fixed(b.lineages[p.targetLineage]) == Fixed(a.lineages[p.targetLineage]);
  }

  ghost predicate PlansRecorded(r: Repo, log: seq<Pending>) {
    forall i :: 0 <= i < |log| ==> PlanRecorded(r, log[i])
  }

  lemma PlansKept(a: Repo, b: Repo, log: seq<Pending>)
    requires Grows(a, b) && PlansRecorded(a, log)
    ensures PlansRecorded(b, log)
  {
    forall i | 0 <= i < |log| ensures PlanRecorded(b, log[i]) { PlanKept(a, b, log[i]); }
  }

  lemma StepPlans(s: System, p: Policy, e: Event)
    requires Safe(s) && PlansRecorded(s.repo, s.log) && (e.Load? ==> Clean(e.req))
    ensures PlansRecorded(Step(s, p, e).repo, Step(s, p, e).log)
  {
    StepSafe(s, p, e);
    StepRepo(s, p, e);
    PlansKept(s.repo, Step(s, p, e).repo, s.log);
    if StoresAt(s, p, e) { PlanAdded(s, p, s.pending[e.slot]); }
  }

  lemma PlanAdded(s: System, p: Policy, one: Pending)
    requires Safe(s) && SafePending(s.repo, one) && Persists(s, p, one) && PlansRecorded(Next(s, p, one), s.log)
    ensures PlansRecorded(Next(s, p, one), s.log + [one])
  {
    if HasPlan(one.req.actions) { var child := PlanStored(s, p, one); }
  }

  /** Over every run, each stored plan stands as it was committed. */
  lemma {:induction false} RunPlans(seed: Repo, p: Policy, events: seq<Event>)
    requires WellFormed(seed) && CleanEvents(events)
    ensures PlansRecorded(Run(seed, p, events).repo, Run(seed, p, events).log)
  {
    if events != [] {
      var front := events[..|events| - 1];
      RunSafe(seed, p, front);
      RunPlans(seed, p, front);
      StepPlans(Run(seed, p, front), p, events[|events| - 1]);
    }
  }

  /** Over every run, the commit of a plan adds its child and moves nothing. */
  lemma RunPlanMovesNothing(seed: Repo, p: Policy, events: seq<Event>, slot: nat) returns (child: Lineage)
    requires WellFormed(seed) && CleanEvents(events)
    requires var s := Run(seed, p, events);
             slot in s.pending && Persists(s, p, s.pending[slot]) && HasPlan(s.pending[slot].req.actions)
    ensures var s := Run(seed, p, events);
            OnlyAddsChild(s.repo, Step(s, p, Event.Finish(slot, false)).repo, s.pending[slot].req.snapshotId, child)
  {
    RunSafe(seed, p, events);
    var s := Run(seed, p, events);
    assert SafePending(s.repo, s.pending[slot]);
    child := PlanStored(s, p, s.pending[slot]);
  }
}
