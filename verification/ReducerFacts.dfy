/** Where every proposed revision comes from, and that sorting the revisions changes neither
    their content nor the state they fold into. */
module ReducerFacts {
  import opened Common
  import opened Records
  import opened Authority
  import opened Reducer

  // ---------------------------------------------------------------- sorting

  lemma {:induction false} InsertElements(x: Object, s: seq<Object>)
    ensures multiset(Insert(x, s)) == multiset(s) + multiset{x}
  {
    if s != [] && SlotLess(s[0].Slot(), x.Slot()) {
      InsertElements(x, s[1..]);
      assert s == [s[0]] + s[1..];
    } else {
      assert Insert(x, s) == [x] + s;
    }
  }

  /** The sort permutes: same objects, same multiplicities. */
  lemma {:induction false} SortElements(s: seq<Object>)
    ensures multiset(StableSorted(s)) == multiset(s)
  {
    if s != [] {
      SortElements(s[1..]);
      InsertElements(s[0], StableSorted(s[1..]));
      assert s == [s[0]] + s[1..];
    }
  }

  lemma SortMembers(s: seq<Object>, o: Object)
    ensures o in StableSorted(s) <==> o in s
  {
    SortElements(s);
    assert o in multiset(StableSorted(s)) <==> o in multiset(s);
  }

  predicate SlotSorted(s: seq<Object>) {
    forall i, j :: 0 <= i < j < |s| ==> !SlotLess(s[j].Slot(), s[i].Slot())
  }

  lemma SlotLessTransitive(a: Key, b: Key, c: Key)
    requires SlotLess(a, b) && !SlotLess(c, b)
    ensures SlotLess(a, c)
  {
    var x, y, z := Ref(a.kind, a.id), Ref(b.kind, b.id), Ref(c.kind, c.id);
    RefLessTotal(y, z);
    if RefLess(x, y) && RefLess(y, z) { RefLessTransitive(x, y, z); }
  }

  lemma SlotLessAsymmetric(a: Key, b: Key)
    ensures !(SlotLess(a, b) && SlotLess(b, a))
  {
    RefLessAsymmetric(Ref(a.kind, a.id), Ref(b.kind, b.id));
  }

  lemma {:induction false} InsertSorted(x: Object, s: seq<Object>)
    requires SlotSorted(s)
    ensures SlotSorted(Insert(x, s))
  {
    if s != [] && SlotLess(s[0].Slot(), x.Slot()) {
      InsertSorted(x, s[1..]);
      var rest := Insert(x, s[1..]);
      InsertElements(x, s[1..]);
      forall j | 0 <= j < |rest| ensures !SlotLess(rest[j].Slot(), s[0].Slot()) {
        assert rest[j] in multiset(rest);
        SlotLessAsymmetric(s[0].Slot(), x.Slot());
        if rest[j] != x {
          assert rest[j] in s[1..];
        }
      }
    } else if s != [] {
      forall j | 0 <= j < |s| ensures !SlotLess(s[j].Slot(), x.Slot()) {
        if j > 0 && SlotLess(s[j].Slot(), x.Slot()) {
          SlotLessTransitive(s[j].Slot(), x.Slot(), s[0].Slot());
        }
      }
    }
  }

  lemma {:induction false} SortSorts(s: seq<Object>)
    ensures SlotSorted(StableSorted(s))
  {
    if s != [] {
      SortSorts(s[1..]);
      InsertSorted(s[0], StableSorted(s[1..]));
    }
  }

  function OfSlot(s: seq<Object>, k: Key): seq<Object> {
    if s == [] then [] else (if s[0].Slot() == k then [s[0]] else []) + OfSlot(s[1..], k)
  }

  lemma {:induction false} InsertOfSlot(x: Object, s: seq<Object>, k: Key)
    ensures OfSlot(Insert(x, s), k) == (if x.Slot() == k then [x] else []) + OfSlot(s, k)
  {
    if s != [] && SlotLess(s[0].Slot(), x.Slot()) {
      InsertOfSlot(x, s[1..], k);
      SlotLessAsymmetric(s[0].Slot(), s[0].Slot());
      assert s[0].Slot() != x.Slot();
    } else {
      assert ([x] + s)[1..] == s;
    }
  }

  lemma {:induction false} SortOfSlot(s: seq<Object>, k: Key)
    ensures OfSlot(StableSorted(s), k) == OfSlot(s, k)
  {
    if s != [] {
      SortOfSlot(s[1..], k);
      InsertOfSlot(s[0], StableSorted(s[1..]), k);
    }
  }

  lemma {:induction false} InOfSlot(s: seq<Object>, k: Key)
    ensures OfSlot(s, k) != [] <==> exists i :: 0 <= i < |s| && s[i].Slot() == k
  {
    if s != [] {
      InOfSlot(s[1..], k);
      if i :| 0 <= i < |s| && s[i].Slot() == k {
        if i > 0 { assert s[1..][i - 1].Slot() == k; }
      }
      if i :| 0 <= i < |s[1..]| && s[1..][i].Slot() == k { assert s[i + 1].Slot() == k; }
    }
  }

  lemma SlotLessTotal(a: Key, b: Key)
    ensures SlotLess(a, b) || SlotLess(b, a) || a == b
  {
    RefLessTotal(Ref(a.kind, a.id), Ref(b.kind, b.id));
  }

  /** In a sorted list whose slots include `k`, the first object's slot is not after `k`. */
  lemma FirstNotAfter(s: seq<Object>, k: Key)
    requires SlotSorted(s) && OfSlot(s, k) != []
    ensures s != [] && !SlotLess(k, s[0].Slot())
  {
    InOfSlot(s, k);
    var i :| 0 <= i < |s| && s[i].Slot() == k;
    SlotLessAsymmetric(k, k);
  }

  lemma SameFirst(a: seq<Object>, b: seq<Object>)
    requires SlotSorted(a) && SlotSorted(b) && a != [] && b != []
    requires OfSlot(a, a[0].Slot()) == OfSlot(b, a[0].Slot()) && OfSlot(a, b[0].Slot()) == OfSlot(b, b[0].Slot())
    ensures a[0] == b[0]
  {
    var k := a[0].Slot();
    OfSlotRest(a, k);
    OfSlotRest(b, b[0].Slot());
    FirstNotAfter(b, k);
    FirstNotAfter(a, b[0].Slot());
    SlotLessTotal(k, b[0].Slot());
    assert a[0] == OfSlot(a, k)[0] == OfSlot(b, k)[0] == b[0];
  }

  /** A sorted list is determined by the objects it has in each slot. */
  lemma {:induction false} SortedOnce(a: seq<Object>, b: seq<Object>)
    requires SlotSorted(a) && SlotSorted(b) && KeepsSlots(a, b)
    ensures a == b
  {
    if a == [] {
      NothingOfSlot(b);
    } else if b == [] {
      NothingOfSlot(a);
    } else {
      SameFirst(a, b);
      RestKeepsSlots(a, b);
      SortedOnce(a[1..], b[1..]);
      assert a == [a[0]] + a[1..] && b == [b[0]] + b[1..];
    }
  }

  lemma RestKeepsSlots(a: seq<Object>, b: seq<Object>)
    requires a != [] && b != [] && a[0] == b[0] && KeepsSlots(a, b)
    ensures KeepsSlots(a[1..], b[1..])
  {
    forall k ensures OfSlot(b[1..], k) == OfSlot(a[1..], k) { RestOfSlot(a, b, k); }
  }

  lemma RestOfSlot(a: seq<Object>, b: seq<Object>, k: Key)
    requires a != [] && b != [] && a[0] == b[0] && OfSlot(a, k) == OfSlot(b, k)
    ensures OfSlot(a[1..], k) == OfSlot(b[1..], k)
  {
    OfSlotRest(a, k);
    OfSlotRest(b, k);
  }

  lemma OfSlotRest(s: seq<Object>, k: Key)
    requires s != []
    ensures OfSlot(s, k) == (if s[0].Slot() == k then [s[0]] else []) + OfSlot(s[1..], k)
    ensures OfSlot(s[1..], k) == if s[0].Slot() == k then OfSlot(s, k)[1..] else OfSlot(s, k)
  {
    if s[0].Slot() == k { assert OfSlot(s, k)[1..] == OfSlot(s[1..], k); }
  }

  lemma NothingOfSlot(s: seq<Object>)
    requires forall k :: OfSlot(s, k) == []
    ensures s == []
  {
    if s != [] { InOfSlot(s, s[0].Slot()); }
  }

  ghost predicate KeepsSlots(s: seq<Object>, t: seq<Object>) {
    forall k :: OfSlot(t, k) == OfSlot(s, k)
  }

  /** What `stable_sorted_objects` returns, without its algorithm: the one list that is ordered
      by kind, id and revision and keeps the objects of each slot as they were listed. */
  lemma StableSortContract(s: seq<Object>, t: seq<Object>)
    ensures t == StableSorted(s) <==> SlotSorted(t) && KeepsSlots(s, t)
  {
    SortSorts(s);
    forall k ensures OfSlot(StableSorted(s), k) == OfSlot(s, k) { SortOfSlot(s, k); }
    if SlotSorted(t) && KeepsSlots(s, t) { SortedOnce(t, StableSorted(s)); }
  }

  function OfIdentity(s: seq<Object>, r: Ref): seq<Object> {
    if s == [] then [] else (if s[0].Identity() == r then [s[0]] else []) + OfIdentity(s[1..], r)
  }

  /** Objects of one identity all carry the same revision. */
  predicate OneRevisionEach(s: seq<Object>) {
    forall i, j :: 0 <= i < j < |s| && s[i].Identity() == s[j].Identity() ==> s[i].revision == s[j].revision
  }

  lemma {:induction false} InsertStable(x: Object, s: seq<Object>, r: Ref)
    requires forall i :: 0 <= i < |s| && s[i].Identity() == x.Identity() ==> s[i].revision == x.revision
    ensures OfIdentity(Insert(x, s), r) == (if x.Identity() == r then [x] else []) + OfIdentity(s, r)
  {
    if s != [] && SlotLess(s[0].Slot(), x.Slot()) {
      InsertStable(x, s[1..], r);
      RefLessAsymmetric(s[0].Identity(), s[0].Identity());
      assert s[0].Identity() != x.Identity();
    } else {
      assert ([x] + s)[1..] == s;
    }
  }

  /** Stability: revisions that share an identity keep their order. */
  lemma {:induction false} SortStable(s: seq<Object>, r: Ref)
    requires OneRevisionEach(s)
    ensures OfIdentity(StableSorted(s), r) == OfIdentity(s, r)
  {
    if s != [] {
      SortStable(s[1..], r);
      var sorted := StableSorted(s[1..]);
      forall i | 0 <= i < |sorted| && sorted[i].Identity() == s[0].Identity()
        ensures sorted[i].revision == s[0].revision
      {
        SortMembers(s[1..], sorted[i]);
        var k :| 0 <= k < |s[1..]| && s[1..][k] == sorted[i];
        assert s[k + 1] == sorted[i];
      }
      InsertStable(s[0], sorted, r);
    }
  }

  // ---------------------------------------------------------------- folding

  lemma {:induction false} FoldAt(base: map<Ref, Object>, s: seq<Object>, r: Ref)
    ensures var own := OfIdentity(s, r);
            (r in Fold(base, s) <==> r in base || own != [])
            && (r in Fold(base, s) ==> Fold(base, s)[r] == if own != [] then own[|own| - 1] else base[r])
  {
    if s != [] {
      var front, last := s[..|s| - 1], s[|s| - 1];
      FoldAt(base, front, r);
      OfIdentityAppend(front, last, r);
      assert s == front + [last];
    }
  }

  lemma {:induction false} OfIdentityAppend(s: seq<Object>, x: Object, r: Ref)
    ensures OfIdentity(s + [x], r) == OfIdentity(s, r) + (if x.Identity() == r then [x] else [])
  {
    if s == [] {
      assert ([] + [x])[1..] == [];
    } else {
      OfIdentityAppend(s[1..], x, r);
      assert (s + [x])[1..] == s[1..] + [x];
    }
  }

  /** The reducer folds in action order, the validator in sorted order: same map. */
  lemma FoldOrderIrrelevant(base: map<Ref, Object>, s: seq<Object>)
    requires OneRevisionEach(s)
    ensures Fold(base, StableSorted(s)) == Fold(base, s)
  {
    forall r ensures r in Fold(base, s) <==> r in Fold(base, StableSorted(s))
             ensures r in Fold(base, s) ==> Fold(base, s)[r] == Fold(base, StableSorted(s))[r]
    {
      SortStable(s, r);
      FoldAt(base, s, r);
      FoldAt(base, StableSorted(s), r);
    }
  }

  // ---------------------------------------------------------------- origin of revisions

  lemma {:induction false} ObjectsOrigin(actions: seq<Action>, o: Object)
    ensures o in ObjectsOf(actions) <==>
              exists i :: 0 <= i < |actions| && !actions[i].kind.RecordRunResultAdoption?
                  && actions[i].payload == Some(o)
  {
    if actions != [] {
      var front := actions[..|actions| - 1];
      ObjectsOrigin(front, o);
      if o in ObjectsOf(front) {
        var i :| 0 <= i < |front| && !front[i].kind.RecordRunResultAdoption? && front[i].payload == Some(o);
        assert actions[i] == front[i];
      }
      if i :| 0 <= i < |actions| && !actions[i].kind.RecordRunResultAdoption? && actions[i].payload == Some(o) {
        if i < |front| { assert front[i] == actions[i]; }
      }
    }
  }

  lemma {:induction false} DecisionsOrigin(actions: seq<Action>, o: Object)
    ensures o in DecisionsOf(actions) <==>
              exists i :: 0 <= i < |actions| && actions[i].kind.RecordDecision? && actions[i].payload == Some(o)
  {
    if actions != [] {
      var front := actions[..|actions| - 1];
      DecisionsOrigin(front, o);
      if o in DecisionsOf(front) {
        var i :| 0 <= i < |front| && front[i].kind.RecordDecision? && front[i].payload == Some(o);
        assert actions[i] == front[i];
      }
      if i :| 0 <= i < |actions| && actions[i].kind.RecordDecision? && actions[i].payload == Some(o) {
        if i < |front| { assert front[i] == actions[i]; }
      }
    }
  }

  lemma {:induction false} TreatmentFound(ts: seq<Treatment>, m: Ref)
    ensures TreatmentOf(ts, m).Some? ==>
              var t := TreatmentOf(ts, m).value; t in ts && Ref(t.objectKind, t.sourceRef) == m
    ensures TreatmentOf(ts, m).Some? <==> Treats(ts, m)
  {
    if ts != [] {
      TreatmentFound(ts[1..], m);
      if Treats(ts, m) {
        var i :| 0 <= i < |ts| && Ref(ts[i].objectKind, ts[i].sourceRef) == m;
        if i > 0 { assert ts[1..][i - 1] == ts[i]; }
      }
      if Treats(ts[1..], m) {
        var i :| 0 <= i < |ts[1..]| && Ref(ts[1..][i].objectKind, ts[1..][i].sourceRef) == m;
        assert ts[i + 1] == ts[1..][i];
      }
    }
  }

  lemma {:induction false} DerivedOrigin(v: View, p: Plan, order: seq<Ref>, o: Object)
    requires forall i :: 0 <= i < |order| ==> order[i] in v.snapshot.members
    ensures o in DerivedObjects(v, p, order) <==>
              exists i :: 0 <= i < |order| && Derives(p, order[i]) && Survivor(v, p, order[i]) == Some(o)
  {
    if order != [] {
      var front := order[..|order| - 1];
      DerivedOrigin(v, p, front, o);
      if o in DerivedObjects(v, p, front) {
        var i :| 0 <= i < |front| && Derives(p, front[i]) && Survivor(v, p, front[i]) == Some(o);
        assert order[i] == front[i];
      }
      if i :| 0 <= i < |order| && Derives(p, order[i]) && Survivor(v, p, order[i]) == Some(o) {
        if i < |front| { assert front[i] == order[i]; }
      }
    }
  }

  /** An action of the request carries `o` and the reducer accepted it. */
  ghost predicate Carried(v: View, req: Request, o: Object) {
    exists i :: 0 <= i < |req.actions| && req.actions[i].payload == Some(o)
                && !req.actions[i].kind.RecordRunResultAdoption? && ObjectAccepted(v, req.actions[i].kind, o)
  }

  /** `o` is the derived object of a RECONFIRM treatment of the request's plan. */
  ghost predicate Reconfirmed(v: View, req: Request, o: Object) {
    exists i, j :: 0 <= i < |req.actions| && req.actions[i].kind.ApplyLineagePlan? && req.actions[i].plan.Some?
                   && 0 <= j < |req.actions[i].plan.value.treatments|
                   && Reconfirms(req.actions[i].plan.value.treatments[j])
                   && req.actions[i].plan.value.treatments[j].derived == Some(o)
  }

  /** `o` starts its identity at revision 0 or is the successor of the latest revision. */
  predicate Follows(v: View, o: Object) {
    match v.Latest(o.kind, o.id)
    case None => o.revision == 0
    case Some(prior) => o.revision == prior.revision + 1
  }

  lemma {:induction false} SemanticKeeps(actions: seq<Action>, i: nat)
    requires i < |actions| && !actions[i].kind.RecordDecision?
    ensures actions[i] in Semantic(actions)
  {
    if i > 0 { SemanticKeeps(actions[1..], i - 1); }
  }

  lemma SolePlan(actions: seq<Action>) returns (i: nat)
    requires HasPlan(actions) && |Semantic(actions)| == 1
    ensures i < |actions| && actions[i].kind.ApplyLineagePlan? && Semantic(actions)[0] == actions[i]
  {
    i :| 0 <= i < |actions| && actions[i].kind.ApplyLineagePlan?;
    SemanticKeeps(actions, i);
  }

  /** A reduced plan request has exactly one plan action, and it is the only semantic one. */
  lemma PlanAction(v: View, req: Request, red: Reduction) returns (i: nat)
    requires HasPlan(req.actions) && Reduce(v, req) == Some(red)
    ensures i < |req.actions| && req.actions[i].kind.ApplyLineagePlan? && req.actions[i].plan.Some?
    ensures ReducePlan(v, req, req.actions[i].plan.value) == Some(red)
  {
    i := SolePlan(req.actions);
  }

  lemma DecisionCarried(v: View, req: Request, o: Object)
    requires RecordedAccepted(v, req.actions) && o in DecisionsOf(req.actions)
    ensures Carried(v, req, o)
  {
    DecisionsOrigin(req.actions, o);
    var i :| 0 <= i < |req.actions| && req.actions[i].kind.RecordDecision? && req.actions[i].payload == Some(o);
    assert ObjectAccepted(v, req.actions[i].kind, o);
  }

  lemma OrdinaryOrigin(v: View, req: Request, o: Object)
    requires OrdinaryAccepted(v, req) && o in StableSorted(ObjectsOf(req.actions))
    ensures Carried(v, req, o)
  {
    SortMembers(ObjectsOf(req.actions), o);
    ObjectsOrigin(req.actions, o);
    var i :| 0 <= i < |req.actions| && !req.actions[i].kind.RecordRunResultAdoption?
        && req.actions[i].payload == Some(o);
    assert ActionAccepted(v, req.actions[i]);
  }

  lemma SurvivorDerived(v: View, p: Plan, m: Ref, o: Object) returns (j: nat)
    requires m in v.snapshot.members && MemberAccepted(v, p, m)
    requires Derives(p, m) && Survivor(v, p, m) == Some(o)
    ensures j < |p.treatments| && Reconfirms(p.treatments[j]) && p.treatments[j].derived == Some(o)
    ensures p.treatments[j] == TreatmentOf(p.treatments, m).value && DerivedAccepted(v, m, p.treatments[j], o)
  {
    TreatmentFound(p.treatments, m);
    var t := TreatmentOf(p.treatments, m).value;
    j :| 0 <= j < |p.treatments| && p.treatments[j] == t;
  }

  lemma PlanOrigin(v: View, req: Request, i: nat, o: Object)
    requires i < |req.actions| && req.actions[i].kind.ApplyLineagePlan? && req.actions[i].plan.Some?
    requires var p := req.actions[i].plan.value; PlanAccepted(v, p) && o in DerivedObjects(v, p, Baseline(v))
    ensures Reconfirmed(v, req, o) && Follows(v, o)
  {
    var p := req.actions[i].plan.value;
    DerivedOrigin(v, p, Baseline(v), o);
    var k :| 0 <= k < |Baseline(v)| && Derives(p, Baseline(v)[k]) && Survivor(v, p, Baseline(v)[k]) == Some(o);
    var j := SurvivorDerived(v, p, Baseline(v)[k], o);
  }

  /** Every proposed revision is carried by an action or derived by the plan, and it
      starts its identity or directly follows the latest revision in view. */
  lemma RevisionOrigin(v: View, req: Request, red: Reduction, o: Object)
    requires Reduce(v, req) == Some(red) && o in red.revisions
    ensures Carried(v, req, o) || Reconfirmed(v, req, o)
    ensures Follows(v, o)
  {
    if HasPlan(req.actions) {
      var i := PlanAction(v, req, red);
      var p := req.actions[i].plan.value;
      var derived := DerivedObjects(v, p, Baseline(v));
      SortMembers(StableSorted(derived) + DecisionsOf(req.actions), o);
      SortMembers(derived, o);
      if o in derived { PlanOrigin(v, req, i, o); } else { DecisionCarried(v, req, o); CarriedFollows(v, req, o); }
    } else if HasSwitch(req.actions) {
      SortMembers(DecisionsOf(req.actions), o);
      DecisionCarried(v, req, o);
      CarriedFollows(v, req, o);
    } else {
      OrdinaryOrigin(v, req, o);
      CarriedFollows(v, req, o);
    }
  }

  lemma CarriedFollows(v: View, req: Request, o: Object)
    requires Carried(v, req, o)
    ensures Follows(v, o)
  {
  }

  /** Recorded decisions are exactly the reduction's decision records, and among its revisions. */
  lemma RecordedDecisions(v: View, req: Request, red: Reduction, o: Object)
    requires Reduce(v, req) == Some(red)
    ensures o in red.decisions <==> o in DecisionsOf(req.actions)
    ensures o in red.decisions ==> o in red.revisions
  {
    SortMembers(DecisionsOf(req.actions), o);
    if HasPlan(req.actions) {
      var i := PlanAction(v, req, red);
      var derived := DerivedObjects(v, req.actions[i].plan.value, Baseline(v));
      SortMembers(StableSorted(derived) + DecisionsOf(req.actions), o);
    } else if !HasSwitch(req.actions) {
      SortMembers(ObjectsOf(req.actions), o);
      ObjectsOrigin(req.actions, o);
      DecisionsOrigin(req.actions, o);
      if o in DecisionsOf(req.actions) {
        var k :| 0 <= k < |req.actions| && req.actions[k].kind.RecordDecision? && req.actions[k].payload == Some(o);
        assert !req.actions[k].kind.RecordRunResultAdoption?;
      }
    }
  }
}
