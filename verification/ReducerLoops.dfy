/** The reducer as the source runs it: loops that fill dictionaries and lists and stop at
    the first error (core/runtime/state_reducer.py). Each loop is proved against the
    functions of `Reducer`. */
module ReducerLoops {
  import opened Common
  import opened Records
  import opened Authority
  import opened Reducer
  import opened ReducerFacts

  lemma {:induction false} DecisionsPrefix(actions: seq<Action>, i: nat)
    requires i <= |actions|
    ensures DecisionsOf(actions[..i]) <= DecisionsOf(actions)
  {
    if i == |actions| {
      assert actions[..i] == actions;
    } else {
      DecisionsPrefix(actions[..|actions| - 1], i);
      assert actions[..|actions| - 1][..i] == actions[..i];
    }
  }

  lemma RepeatsDecision(actions: seq<Action>, i: nat, id: string)
    requires i < |actions| && actions[i].kind.RecordDecision? && actions[i].payload.Some?
    requires actions[i].payload.value.id == id
    requires exists k :: 0 <= k < |DecisionsOf(actions[..i])| && DecisionsOf(actions[..i])[k].id == id
    ensures !DistinctIds(DecisionsOf(actions))
  {
    var next := actions[..i + 1];
    assert next[..i] == actions[..i];
    DecisionsPrefix(actions, i + 1);
    var front, all := DecisionsOf(actions[..i]), DecisionsOf(actions);
    var k :| 0 <= k < |front| && front[k].id == id;
    assert DecisionsOf(next) == front + [actions[i].payload.value];
    assert all[k] == front[k] && all[|front|] == actions[i].payload.value;
  }

  ghost predicate Known(seen: set<string>, decisions: seq<Object>) {
    && (forall id :: id in seen <==> exists k :: 0 <= k < |decisions| && decisions[k].id == id)
    && DistinctIds(decisions)
  }

  lemma KnownMore(seen: set<string>, decisions: seq<Object>, obj: Object)
    requires Known(seen, decisions) && obj.id !in seen
    ensures Known(seen + {obj.id}, decisions + [obj])
  {
    var more := decisions + [obj];
    forall id ensures id in seen + {obj.id} <==> exists k :: 0 <= k < |more| && more[k].id == id {
      if id in seen {
        var k :| 0 <= k < |decisions| && decisions[k].id == id;
        assert more[k].id == id;
      }
      if id == obj.id { assert more[|decisions|].id == id; }
    }
  }

  lemma PrefixStep(actions: seq<Action>, i: nat)
    requires i < |actions|
    ensures var a := actions[i];
            && ObjectsOf(actions[..i + 1])
               == ObjectsOf(actions[..i])
                  + (if a.kind.RecordRunResultAdoption? || a.payload.None? then [] else [a.payload.value])
            && DecisionsOf(actions[..i + 1])
               == DecisionsOf(actions[..i]) + (if a.kind.RecordDecision? && a.payload.Some? then [a.payload.value]
                   else [])
            && AdoptionsOf(actions[..i + 1])
               == AdoptionsOf(actions[..i]) + (if a.kind.RecordRunResultAdoption? then a.adoptionRefs else [])
  {
    assert actions[..i + 1][..i] == actions[..i];
  }

  lemma FoldStep(base: map<Ref, Object>, objs: seq<Object>, obj: Object)
    ensures Fold(base, objs + [obj]) == Fold(base, objs)[obj.Identity() := obj]
  {
    assert (objs + [obj])[..|objs|] == objs;
  }

  /** What the loop over actions has gathered. */
  datatype Gathered = Gathered(effective: map<Ref, Object>, revisions: seq<Object>, decisions: seq<Object>,
                               adoptions: seq<string>)

  ghost predicate Gathers(base: map<Ref, Object>, actions: seq<Action>, g: Gathered, seen: set<string>) {
    && g.revisions == ObjectsOf(actions) && g.decisions == DecisionsOf(actions) && g.adoptions == AdoptionsOf(actions)
    && g.effective == Fold(base, g.revisions)
    && Known(seen, g.decisions)
  }

  /** The body of the loop, for an accepted action; None for a repeated decision identity. */
  method GatherAction(ghost base: map<Ref, Object>, ghost actions: seq<Action>, ghost i: nat,
                      a: Action, g: Gathered, seen: set<string>)
    returns (r: Option<Gathered>, now: set<string>)
    requires i < |actions| && a == actions[i] && Gathers(base, actions[..i], g, seen)
    requires a.kind.RecordRunResultAdoption? || a.payload.Some?
    ensures r.Some? ==> Gathers(base, actions[..i + 1], r.value, now)
    ensures r.None? ==> !DistinctIds(DecisionsOf(actions))
  {
    PrefixStep(actions, i);
    if a.kind.RecordRunResultAdoption? {
      return Some(g.(adoptions := g.adoptions + a.adoptionRefs)), seen;
    }
    var obj := a.payload.value;
    FoldStep(base, g.revisions, obj);
    var effective, revisions := g.effective[obj.Identity() := obj], g.revisions + [obj];
    if !a.kind.RecordDecision? {
      return Some(g.(effective := effective, revisions := revisions)), seen;
    }
    if obj.id in seen {
      RepeatsDecision(actions, i, obj.id);
      return None, seen;
    }
    KnownMore(seen, g.decisions, obj);
    return Some(g.(effective := effective, revisions := revisions, decisions := g.decisions + [obj])), seen + {obj.id};
  }

  /** The loop over ordinary actions. */
  method ApplyActions(v: View, actions: seq<Action>) returns (r: Option<Gathered>)
    ensures r.Some? <==>
              (forall i :: 0 <= i < |actions| ==> ActionAccepted(v, actions[i])) && DistinctIds(DecisionsOf(actions))
    ensures r.Some? ==> exists seen :: Gathers(v.Effective(), actions, r.value, seen)
  {
    var g := Gathered(v.Effective(), [], [], []);
    var seen: set<string> := {};
    assert actions[..0] == [];
    for i := 0 to |actions|
      invariant forall k :: 0 <= k < i ==> ActionAccepted(v, actions[k])
      invariant Gathers(v.Effective(), actions[..i], g, seen)
    {
      if !ActionAccepted(v, actions[i]) { return None; }
      var more, now := GatherAction(v.Effective(), actions, i, actions[i], g, seen);
      if more.None? { return None; }
      g, seen := more.value, now;
    }
    assert actions[..|actions|] == actions;
    return Some(g);
  }

  method ReduceActions(v: View, req: Request) returns (r: Option<Reduction>)
    ensures r == ReduceOrdinary(v, req)
  {
    var gathered := ApplyActions(v, req.actions);
    if gathered.None? || req.actions == [] || req.lineage !in v.lineages { return None; }
    var g := gathered.value;
    var snapshot := BuildSnapshot(v, req, g.effective, Mode(v));
    return Some(Reduction(
      StableSorted(g.revisions), StableSorted(g.decisions), Some(snapshot),
      Some(v.lineages[req.lineage].(head := Pin(snapshot.id, snapshot.seal))),
      None, None, Distinct(g.adoptions), Resolving(v, req.actions), AuditEvent(req)));
  }

  /** The decisions that may accompany a plan or a switch. */
  method ValidatedDecisions(v: View, actions: seq<Action>) returns (r: Option<seq<Object>>)
    ensures r == if RecordedAccepted(v, actions) then Some(DecisionsOf(actions)) else None
  {
    var decisions: seq<Object> := [];
    var seen: set<string> := {};
    for i := 0 to |actions|
      invariant forall k :: 0 <= k < i && actions[k].kind.RecordDecision? ==>
                  actions[k].payload.Some? && ObjectAccepted(v, RecordDecision, actions[k].payload.value)
      invariant decisions == DecisionsOf(actions[..i])
      invariant Known(seen, decisions)
    {
      PrefixStep(actions, i);
      var a := actions[i];
      if a.kind.RecordDecision? {
        if a.payload.None? || !ObjectAccepted(v, RecordDecision, a.payload.value) { return None; }
        var obj := a.payload.value;
        if obj.id in seen {
          RepeatsDecision(actions, i, obj.id);
          return None;
        }
        KnownMore(seen, decisions, obj);
        seen := seen + {obj.id};
        decisions := decisions + [obj];
      }
    }
    assert actions[..|actions|] == actions;
    return Some(decisions);
  }

  function SourceOf(t: Treatment): Ref { Ref(t.objectKind, t.sourceRef) }

  ghost predicate Indexes(byRef: map<Ref, Treatment>, ts: seq<Treatment>) {
    && (forall k :: 0 <= k < |ts| ==> SourceOf(ts[k]) in byRef && byRef[SourceOf(ts[k])] == ts[k])
    && (forall m :: m in byRef ==> byRef[m] in ts && SourceOf(byRef[m]) == m)
  }

  lemma IndexFinds(byRef: map<Ref, Treatment>, ts: seq<Treatment>, m: Ref)
    requires Indexes(byRef, ts)
    ensures TreatmentOf(ts, m) == if m in byRef then Some(byRef[m]) else None
  {
    TreatmentFound(ts, m);
  }

  predicate Named(ts: seq<Treatment>) {
    forall k :: 0 <= k < |ts| ==> ts[k].objectKind != "" && ts[k].sourceRef != ""
  }

  lemma IndexMore(byRef: map<Ref, Treatment>, ts: seq<Treatment>, t: Treatment)
    requires Indexes(byRef, ts) && TreatmentsDistinct(ts) && SourceOf(t) !in byRef
    ensures Indexes(byRef[SourceOf(t) := t], ts + [t]) && TreatmentsDistinct(ts + [t])
  {
    var more := ts + [t];
    assert more[|ts|] == t;
    forall k | 0 <= k < |ts| ensures SourceOf(ts[k]) != SourceOf(t) && more[k] == ts[k] {}
  }

  /** `by_ref`: treatments by source, None for an unnamed or repeated source. */
  method IndexTreatments(ts: seq<Treatment>) returns (r: Option<map<Ref, Treatment>>)
    ensures r.Some? <==> Named(ts) && TreatmentsDistinct(ts)
    ensures r.Some? ==> Indexes(r.value, ts)
  {
    var byRef: map<Ref, Treatment> := map[];
    for i := 0 to |ts|
      invariant Named(ts[..i]) && TreatmentsDistinct(ts[..i]) && Indexes(byRef, ts[..i])
    {
      var t := ts[i];
      if t.objectKind == "" || t.sourceRef == "" { return None; }
      if SourceOf(t) in byRef {
        ghost var k :| 0 <= k < i && ts[k] == byRef[SourceOf(t)];
        assert Ref(ts[k].objectKind, ts[k].sourceRef) == Ref(ts[i].objectKind, ts[i].sourceRef);
        return None;
      }
      IndexMore(byRef, ts[..i], t);
      assert ts[..i + 1] == ts[..i] + [t];
      byRef := byRef[SourceOf(t) := t];
    }
    assert ts[..|ts|] == ts;
    return Some(byRef);
  }

  lemma MemberStep(v: View, p: Plan, order: seq<Ref>, i: nat)
    requires i < |order| && forall k :: 0 <= k < |order| ==> order[k] in v.snapshot.members
    ensures var m := order[i];
            var left := Survivor(v, p, m);
            && ChildMembers(v, p, order[..i + 1])
               == (if left.Some? then ChildMembers(v, p, order[..i])[left.value.Identity() := left.value]
                   else ChildMembers(v, p, order[..i]))
            && DerivedObjects(v, p, order[..i + 1])
               == DerivedObjects(v, p, order[..i]) + (if Derives(p, m) && left.Some? then [left.value] else [])
  {
    assert order[..i + 1][..i] == order[..i];
  }

  /** The treatment of one baseline member: whether it can be carried out, and what it leaves. */
  method TreatMember(v: View, p: Plan, byRef: map<Ref, Treatment>, m: Ref)
    returns (ok: bool, left: Option<Object>, derives: bool)
    requires Indexes(byRef, p.treatments) && m in v.snapshot.members
    ensures ok <==> MemberAccepted(v, p, m)
    ensures ok ==> left == Survivor(v, p, m) && (derives <==> Derives(p, m))
  {
    ok, left, derives := false, None, false;
    IndexFinds(byRef, p.treatments, m);
    if m !in byRef { return; }
    var source := v.Exact(m.kind, m.id, v.snapshot.members[m].revision);
    if source.None? { return; }
    var t := byRef[m];
    if t.treatment == "PRESERVE" {
      ok, left := true, source;
    } else if t.treatment == "INVALIDATE" {
      ok := true;
    } else if t.treatment == "RECONFIRM" {
      ok, left, derives := t.derived.Some? && DerivedAccepted(v, m, t, t.derived.value), t.derived, true;
    }
  }

  /** The members treated so far and what they leave. */
  ghost predicate Treated(v: View, p: Plan, order: seq<Ref>, child: map<Ref, Object>, derived: seq<Object>) {
    && (forall k :: 0 <= k < |order| ==> order[k] in v.snapshot.members && MemberAccepted(v, p, order[k]))
    && child == ChildMembers(v, p, order) && derived == DerivedObjects(v, p, order)
  }

  lemma TreatedMore(v: View, p: Plan, order: seq<Ref>, child: map<Ref, Object>, derived: seq<Object>, m: Ref)
    requires Treated(v, p, order, child, derived) && m in v.snapshot.members && MemberAccepted(v, p, m)
    ensures var left := Survivor(v, p, m);
            Treated(v, p, order + [m],
                    if left.Some? then child[left.value.Identity() := left.value] else child,
                    if left.Some? && Derives(p, m) then derived + [left.value] else derived)
  {
    var next := order + [m];
    forall k | 0 <= k < |next| ensures next[k] in v.snapshot.members && MemberAccepted(v, p, next[k]) {
      assert next[k] == if k < |order| then order[k] else m;
    }
    MemberStep(v, p, next, |order|);
    assert next[..|order|] == order && next[..|order| + 1] == next;
  }

  /** The body of the loop over the baseline's members. */
  method TreatNext(v: View, p: Plan, byRef: map<Ref, Treatment>, m: Ref, ghost order: seq<Ref>,
                   child: map<Ref, Object>, derived: seq<Object>)
    returns (ok: bool, nextChild: map<Ref, Object>, nextDerived: seq<Object>)
    requires Indexes(byRef, p.treatments) && m in v.snapshot.members && Treated(v, p, order, child, derived)
    ensures ok <==> MemberAccepted(v, p, m)
    ensures ok ==> Treated(v, p, order + [m], nextChild, nextDerived)
  {
    var accepted, left, derives := TreatMember(v, p, byRef, m);
    ok, nextChild, nextDerived := accepted, child, derived;
    if accepted {
      TreatedMore(v, p, order, child, derived, m);
      if left.Some? {
        nextChild := child[left.value.Identity() := left.value];
        if derives { nextDerived := derived + [left.value]; }
      }
    }
  }

  /** The loop over the baseline's members, in their listed order. */
  method TreatInOrder(v: View, p: Plan, byRef: map<Ref, Treatment>, order: seq<Ref>)
    returns (ok: bool, child: map<Ref, Object>, derived: seq<Object>)
    requires Indexes(byRef, p.treatments) && forall k :: 0 <= k < |order| ==> order[k] in v.snapshot.members
    ensures ok ==> Treated(v, p, order, child, derived)
    ensures !ok ==> exists m :: m in v.snapshot.members && !MemberAccepted(v, p, m)
  {
    child, derived := map[], [];
    for i := 0 to |order|
      invariant Treated(v, p, order[..i], child, derived)
    {
      assert order[..i] + [order[i]] == order[..i + 1];
      ok, child, derived := TreatNext(v, p, byRef, order[i], order[..i], child, derived);
      if !ok { return; }
    }
    assert order[..|order|] == order;
    ok := true;
  }

  method TreatMembers(v: View, p: Plan, byRef: map<Ref, Treatment>)
    returns (ok: bool, child: map<Ref, Object>, derived: seq<Object>)
    requires Indexes(byRef, p.treatments)
    ensures ok <==> forall m :: m in v.snapshot.members ==> MemberAccepted(v, p, m)
    ensures ok ==> child == ChildMembers(v, p, Baseline(v)) && derived == DerivedObjects(v, p, Baseline(v))
  {
    ok, child, derived := TreatInOrder(v, p, byRef, Baseline(v));
    if ok { AllTreated(v, p, child, derived); }
  }

  lemma AllTreated(v: View, p: Plan, child: map<Ref, Object>, derived: seq<Object>)
    requires Treated(v, p, Baseline(v), child, derived)
    ensures forall m :: m in v.snapshot.members ==> MemberAccepted(v, p, m)
  {
    forall m | m in v.snapshot.members ensures MemberAccepted(v, p, m) { assert m in Baseline(v); }
  }

  predicate SourcesKnown(v: View, ts: seq<Treatment>) {
    forall i :: 0 <= i < |ts| ==> Ref(ts[i].objectKind, ts[i].sourceRef) in v.snapshot.members
  }

  /** The check for treatments of objects outside the baseline. */
  method FindExtras(v: View, ts: seq<Treatment>, byRef: map<Ref, Treatment>) returns (found: bool)
    requires Indexes(byRef, ts)
    ensures found <==> !SourcesKnown(v, ts)
  {
    var extras := byRef.Keys - v.snapshot.members.Keys;
    found := extras != {};
    if found {
      ghost var m := Pick(extras);
      ghost var k :| 0 <= k < |ts| && ts[k] == byRef[m];
    } else {
      assert forall i :: 0 <= i < |ts| ==> SourceOf(ts[i]) in byRef.Keys - extras;
    }
  }

  lemma PlanAcceptedWhen(v: View, p: Plan)
    ensures PlanAccepted(v, p) <==>
              && p.targetLineage != "" && p.lineageKind != "" && Named(p.treatments) && TreatmentsDistinct(p.treatments)
              && (forall m :: m in v.snapshot.members ==> MemberAccepted(v, p, m))
              && SourcesKnown(v, p.treatments)
  {
  }

  /** The checks and dictionaries of a plan; None when the plan is refused. */
  method CarryOut(v: View, p: Plan) returns (r: Option<(map<Ref, Object>, seq<Object>)>)
    ensures r == if PlanAccepted(v, p) then Some((ChildMembers(v, p, Baseline(v)), DerivedObjects(v, p, Baseline(v))))
                 else None
  {
    PlanAcceptedWhen(v, p);
    if p.targetLineage == "" || p.lineageKind == "" { return None; }
    var byRef := IndexTreatments(p.treatments);
    if byRef.None? { return None; }
    var ok, child, derived := TreatMembers(v, p, byRef.value);
    if !ok { return None; }
    var extras := FindExtras(v, p.treatments, byRef.value);
    if extras { return None; }
    return Some((child, derived));
  }

  method ReduceLineagePlan(v: View, req: Request, p: Plan) returns (r: Option<Reduction>)
    ensures r == ReducePlan(v, req, p)
  {
    var carried := CarryOut(v, p);
    if carried.None? || req.lineage !in v.lineages { return None; }
    var snapshot := BuildSnapshot(v, req, carried.value.0, p.executionMode.GetOr(Mode(v)));
    var decisions := ValidatedDecisions(v, req.actions);
    if decisions.None? { return None; }
    return Some(Reduction(
      StableSorted(StableSorted(carried.value.1) + decisions.value), StableSorted(decisions.value), Some(snapshot),
          None,
      Some(Lineage(p.targetLineage, p.lineageKind, Pin(snapshot.id, snapshot.seal), Some(req.lineage),
          Some(v.snapshot.id))),
      None, NonEmpty([p.replayPlanRef] + p.replayPlanRefs), Resolving(v, req.actions), AuditEvent(req)));
  }

  /** `reduce_state`: the dispatch on the kinds of action in the request. */
  method ReduceState(v: View, req: Request) returns (r: Option<Reduction>)
    ensures r == Reduce(v, req)
  {
    var semantic := Semantic(req.actions);
    if HasPlan(req.actions) {
      if |semantic| != 1 || semantic[0].plan.None? { return None; }
      r := ReduceLineagePlan(v, req, semantic[0].plan.value);
    } else if HasSwitch(req.actions) {
      if |semantic| != 1 || semantic[0].switchTarget == "" { return None; }
      var decisions := ValidatedDecisions(v, req.actions);
      if decisions.None? { return None; }
      var sorted := StableSorted(decisions.value);
      return Some(Reduction(sorted, sorted, None, None, None, Some(semantic[0].switchTarget), [],
                            Resolving(v, req.actions), AuditEvent(req)));
    } else {
      r := ReduceActions(v, req);
    }
  }
}
