/** Gate completeness: what the gate asks for is exactly what the approved transition needs. */
module GateFacts {
  import opened Common
  import opened Records
  import opened Authority
  import opened DecisionGate

  // ---------------------------------------------------------------- distinct Decision ids

  predicate Plain(s: string) { SEPARATOR !in s }

  lemma {:induction false} SplitUnique(a: string, b: string, c: string, d: string)
    requires Plain(a) && Plain(c) && a + [SEPARATOR] + b == c + [SEPARATOR] + d
    ensures a == c && b == d
  {
    var left, right := a + [SEPARATOR] + b, c + [SEPARATOR] + d;
    assert left[0] == if a == "" then SEPARATOR else a[0];
    assert right[0] == if c == "" then SEPARATOR else c[0];
    if a == "" || c == "" {
      assert left[1..] == b && right[1..] == d;
    } else {
      assert a[0] == left[0] == right[0] == c[0];
      assert left[1..] == a[1..] + [SEPARATOR] + b && right[1..] == c[1..] + [SEPARATOR] + d;
      SplitUnique(a[1..], b, c[1..], d);
      assert a == [a[0]] + a[1..] && c == [c[0]] + c[1..];
    }
  }

  lemma JoinedThree(a: string, b: string, c: string)
    ensures Joined([a, b, c]) == a + [SEPARATOR] + (b + [SEPARATOR] + c)
  {
    assert [a, b, c][1..] == [b, c] && [b, c][1..] == [c];
    assert Joined([c]) == c;
    assert Joined([b, c]) == b + [SEPARATOR] + c;
  }

  lemma SamePrefix(p: string, a: string, b: string)
    requires p + a == p + b
    ensures a == b
  {
    assert (p + a)[|p|..] == a && (p + b)[|p|..] == b;
  }

  /** Within one request, Decisions of different groups get different ids. */
  lemma DecisionIdsDiffer(request: string, g: Ref, h: Ref)
    requires Plain(g.kind) && Plain(h.kind)
    ensures DecisionId(request, g) == DecisionId(request, h) <==> g == h
  {
    if DecisionId(request, g) == DecisionId(request, h) {
      SamePrefix("DEC-", Joined([request, g.kind, g.id]), Joined([request, h.kind, h.id]));
      JoinedThree(request, g.kind, g.id);
      JoinedThree(request, h.kind, h.id);
      var left, right := g.kind + [SEPARATOR] + g.id, h.kind + [SEPARATOR] + h.id;
      assert request + [SEPARATOR] + left == (request + [SEPARATOR]) + left;
      assert request + [SEPARATOR] + right == (request + [SEPARATOR]) + right;
      SamePrefix(request + [SEPARATOR], left, right);
      SplitUnique(g.kind, g.id, h.kind, h.id);
    }
  }

  predicate KnownKind(kind: string) {
    kind == "research_adoption" || kind == "research_revision" || kind == "evidence_qualification"
    || kind == "evidence_reclassification" || kind == "lineage_plan" || kind == "lineage_reconfirmation"
    || kind == "active_lineage_selection"
  }

  lemma KnownPlain(kind: string)
    requires KnownKind(kind)
    ensures Plain(kind)
  {
  }

  predicate KnownRequirement(q: Requirement) {
    KnownKind(q.decisionKind) && (q.decisionKind == "lineage_reconfirmation" ==> q.choice == "reconfirm")
  }

  lemma ObjectKinds(prior: Option<Object>, obj: Object, q: Requirement)
    requires q in ObjectRequirements(prior, obj)
    ensures KnownRequirement(q) && q.subject == obj.Identity()
  {
    assert q in AdoptionRequirement(prior, obj) || q in RevisionRequirement(prior, obj)
        || q in EvidenceRequirements(prior, obj);
  }

  lemma RequiredKinds(v: View, a: Action, q: Requirement)
    requires q in Required(v, a)
    ensures KnownRequirement(q)
    ensures !a.IsSpecial() ==> a.payload.Some? && q.subject == a.payload.value.Identity()
  {
    if a.payload.Some? {
      var prior := v.Latest(a.payload.value.kind, a.payload.value.id);
      if q in ObjectRequirements(prior, a.payload.value) { ObjectKinds(prior, a.payload.value, q); }
    }
  }

  lemma NeedsKnown(v: View, a: Action)
    ensures forall q :: q in Required(v, a) ==> KnownRequirement(q)
    ensures forall i, j :: 0 <= i < j < |Required(v, a)| ==> Required(v, a)[i] != Required(v, a)[j]
  {
    forall q | q in Required(v, a) ensures KnownRequirement(q) { RequiredKinds(v, a, q); }
  }

  // ---------------------------------------------------------------- units

  /** The units of one action: its needs, in order. */
  ghost predicate UnitsFor(needs: seq<Requirement>, a: Action, index: nat, own: seq<Unit>) {
    |own| == |needs| && forall i :: 0 <= i < |needs| ==> own[i] == Unit(index, a, needs[i])
  }

  lemma UnitsSplit(v: View, actions: seq<Action>) returns (own: seq<Unit>)
    requires actions != []
    ensures var last := |actions| - 1;
            UnitsOf(v, actions) == UnitsOf(v, actions[..last]) + own
            && UnitsFor(Required(v, actions[last]), actions[last], last, own)
  {
    var last := |actions| - 1;
    var needs := Required(v, actions[last]);
    own := seq(|needs|, i requires 0 <= i < |needs| => Unit(last, actions[last], needs[i]));
  }

  lemma InUnitsFor(needs: seq<Requirement>, a: Action, index: nat, own: seq<Unit>, u: Unit)
    requires UnitsFor(needs, a, index, own)
    ensures u in own <==> u.index == index && u.action == a && u.requirement in needs
  {
    if u.index == index && u.action == a && u.requirement in needs {
      var i :| 0 <= i < |needs| && needs[i] == u.requirement;
      assert own[i] == u;
    }
  }

  lemma {:induction false} UnitsAt(v: View, actions: seq<Action>, u: Unit)
    ensures u in UnitsOf(v, actions) <==>
              u.index < |actions| && u.action == actions[u.index] && u.requirement in Required(v, u.action)
  {
    if actions != [] {
      var last := |actions| - 1;
      UnitsAt(v, actions[..last], u);
      var own := UnitsSplit(v, actions);
      InUnitsFor(Required(v, actions[last]), actions[last], last, own, u);
    }
  }

  lemma {:induction false} MatchingAppend(request: string, a: seq<Unit>, b: seq<Unit>, index: nat, subject: Ref)
    ensures Matching(request, a + b, index, subject)
         == Matching(request, a, index, subject) + Matching(request, b, index, subject)
  {
    if b == [] {
      assert a + b == a;
    } else {
      MatchingAppend(request, a, b[..|b| - 1], index, subject);
      assert (a + b)[..|a + b| - 1] == a + b[..|b| - 1];
    }
  }

  lemma {:induction false} MatchingNone(request: string, units: seq<Unit>, index: nat, subject: Ref)
    requires forall u :: u in units ==> !Reconfirmation(u, index, subject)
    ensures Matching(request, units, index, subject) == []
  {
    if units != [] { MatchingNone(request, units[..|units| - 1], index, subject); }
  }

  const RECONFIRM := Ref("lineage_reconfirmation", "reconfirm")

  /** A reconfirmation requirement occurs once, so it matches exactly one Decision. */
  lemma MatchingOne(request: string, units: seq<Unit>, index: nat, subject: Ref, i: nat)
    requires i < |units| && Reconfirmation(units[i], index, subject) && GroupOf(units[i]) == RECONFIRM
    requires forall j :: 0 <= j < |units| && j != i ==> !Reconfirmation(units[j], index, subject)
    ensures Matching(request, units, index, subject) == [DecisionId(request, RECONFIRM)]
  {
    var before, own, after := units[..i], [units[i]], units[i + 1..];
    assert units == before + own + after;
    forall u | u in before ensures !Reconfirmation(u, index, subject) {
      var j :| 0 <= j < |before| && before[j] == u;
      assert units[j] == u;
    }
    forall u | u in after ensures !Reconfirmation(u, index, subject) {
      var j :| 0 <= j < |after| && after[j] == u;
      assert units[i + 1 + j] == u;
    }
    MatchingNone(request, before, index, subject);
    MatchingNone(request, after, index, subject);
    MatchingAppend(request, before + own, after, index, subject);
    MatchingAppend(request, before, own, index, subject);
    assert own[..0] == [];
    assert Matching(request, own, index, subject) == [DecisionId(request, RECONFIRM)];
  }

  lemma {:induction false} MatchingUnits(v: View, actions: seq<Action>, request: string, index: nat, subject: Ref)
    requires index < |actions|
    requires Requirement("lineage_reconfirmation", "reconfirm", subject) in Required(v, actions[index])
    ensures Matching(request, UnitsOf(v, actions), index, subject) == [DecisionId(request, RECONFIRM)]
  {
    var last := |actions| - 1;
    var front := UnitsOf(v, actions[..last]);
    var own := UnitsSplit(v, actions);
    MatchingAppend(request, front, own, index, subject);
    if index < last {
      MatchingUnits(v, actions[..last], request, index, subject);
      MatchingElsewhere(request, own, Required(v, actions[last]), actions[last], last, index, subject);
    } else {
      MatchingLater(v, actions[..last], request, index, subject);
      MatchingOwn(v, actions[last], last, request, subject, own);
    }
  }

  lemma MatchingOwn(v: View, a: Action, index: nat, request: string, subject: Ref, own: seq<Unit>)
    requires UnitsFor(Required(v, a), a, index, own)
    requires Requirement("lineage_reconfirmation", "reconfirm", subject) in Required(v, a)
    ensures Matching(request, own, index, subject) == [DecisionId(request, RECONFIRM)]
  {
    NeedsKnown(v, a);
    OwnMatchingOne(Required(v, a), a, index, request, subject, own);
  }

  lemma MatchingElsewhere(request: string, own: seq<Unit>, needs: seq<Requirement>, a: Action, at: nat, index: nat,
                          subject: Ref)
    requires UnitsFor(needs, a, at, own) && index != at
    ensures Matching(request, own, index, subject) == []
  {
    MatchingNone(request, own, index, subject);
  }

  lemma MatchingLater(v: View, actions: seq<Action>, request: string, index: nat, subject: Ref)
    requires |actions| <= index
    ensures Matching(request, UnitsOf(v, actions), index, subject) == []
  {
    forall u | u in UnitsOf(v, actions) ensures !Reconfirmation(u, index, subject) { UnitsAt(v, actions, u); }
    MatchingNone(request, UnitsOf(v, actions), index, subject);
  }

  lemma OwnMatchingOne(needs: seq<Requirement>, a: Action, index: nat, request: string, subject: Ref, own: seq<Unit>)
    requires UnitsFor(needs, a, index, own) && forall q :: q in needs ==> KnownRequirement(q)
    requires Requirement("lineage_reconfirmation", "reconfirm", subject) in needs
    requires forall i, j :: 0 <= i < j < |needs| ==> needs[i] != needs[j]
    ensures Matching(request, own, index, subject) == [DecisionId(request, RECONFIRM)]
  {
    var q := Requirement("lineage_reconfirmation", "reconfirm", subject);
    var i :| 0 <= i < |needs| && needs[i] == q;
    forall j | 0 <= j < |own| && j != i ensures !Reconfirmation(own[j], index, subject) {
      assert needs[j] in needs && needs[j] != q;
    }
    MatchingOne(request, own, index, subject, i);
  }

  // ---------------------------------------------------------------- binding is transparent

  /** What two actions share when they differ only in Decision provenance. */
  function Unstamped(obj: Object): Object { obj.(lists := obj.lists - {"decision_ids"}) }

  ghost predicate SameTreatment(a: Treatment, b: Treatment) {
    && b == a.(derived := b.derived, decisionRef := b.decisionRef)
    && (a.derived.Some? <==> b.derived.Some?)
    && (a.derived.Some? ==> Unstamped(a.derived.value) == Unstamped(b.derived.value))
  }

  ghost predicate SamePlan(a: Option<Plan>, b: Option<Plan>) {
    && (a.Some? <==> b.Some?)
    && (a.Some? ==>
          && b.value == a.value.(treatments := b.value.treatments)
          && |a.value.treatments| == |b.value.treatments|
          && forall i :: 0 <= i < |a.value.treatments| ==> SameTreatment(a.value.treatments[i], b.value.treatments[i]))
  }

  ghost predicate SameEffect(a: Action, b: Action) {
    && b == a.(payload := b.payload, plan := b.plan, decisionRefs := b.decisionRefs)
    && (a.payload.Some? <==> b.payload.Some?)
    && (a.payload.Some? ==> Unstamped(a.payload.value) == Unstamped(b.payload.value))
    && SamePlan(a.plan, b.plan)
  }

  lemma StampUnstamped(obj: Object, refs: seq<string>)
    ensures Unstamped(Stamp(obj, refs)) == Unstamped(obj)
  {
    assert Stamp(obj, refs).lists - {"decision_ids"} == obj.lists - {"decision_ids"};
  }

  lemma {:induction false} BoundTreatments(r: DecisionRequest, index: nat, ts: seq<Treatment>)
    requires BindTreatments(r, index, ts).Some?
    ensures |BindTreatments(r, index, ts).value| == |ts|
    ensures forall i :: 0 <= i < |ts| ==> BindTreatment(r, index, ts[i]) == Some(BindTreatments(r, index, ts).value[i])
  {
    if ts != [] {
      BoundTreatments(r, index, ts[..|ts| - 1]);
    }
  }

  lemma {:induction false} BoundActions(r: DecisionRequest, actions: seq<Action>)
    requires BindActions(r, actions).Some?
    ensures |BindActions(r, actions).value| == |actions|
    ensures forall i :: 0 <= i < |actions| ==> BindAction(r, i, actions[i]) == Some(BindActions(r, actions).value[i])
  {
    if actions != [] {
      BoundActions(r, actions[..|actions| - 1]);
    }
  }

  lemma TreatmentTransparent(r: DecisionRequest, index: nat, t: Treatment)
    requires BindTreatment(r, index, t).Some?
    ensures SameTreatment(t, BindTreatment(r, index, t).value)
  {
    if Reconfirms(t) {
      StampUnstamped(t.derived.value, Matching(r.id, r.units, index, t.derived.value.Identity()));
    }
  }

  /** Approving commits the reviewed actions: binding adds Decision provenance and nothing else. */
  lemma BindingTransparent(r: DecisionRequest, index: nat, a: Action)
    requires BindAction(r, index, a).Some?
    ensures SameEffect(a, BindAction(r, index, a).value)
  {
    if a.payload.Some? { StampUnstamped(a.payload.value, RefsAt(r, index)); }
    if a.kind.ApplyLineagePlan? && a.plan.Some? {
      var ts := a.plan.value.treatments;
      BoundTreatments(r, index, ts);
      forall i | 0 <= i < |ts| ensures SameTreatment(ts[i], BindTreatments(r, index, ts).value[i]) {
        TreatmentTransparent(r, index, ts[i]);
      }
    }
  }

  lemma SameMaterial(a: Object, b: Object)
    requires Unstamped(a) == Unstamped(b)
    ensures Material(a) == Material(b) && a.text == b.text && a.Identity() == b.Identity()
  {
    assert Unstamped(a).lists == Unstamped(b).lists;
  }

  lemma SameReconfirmations(a: seq<Treatment>, b: seq<Treatment>)
    requires |a| == |b| && forall i :: 0 <= i < |a| ==> SameTreatment(a[i], b[i])
    ensures ReconfirmRequirements(a) == ReconfirmRequirements(b)
  {
    if a != [] {
      assert SameTreatment(a[0], b[0]);
      if a[0].derived.Some? { SameMaterial(a[0].derived.value, b[0].derived.value); }
      SameReconfirmations(a[1..], b[1..]);
    }
  }

  lemma SameObjectRequirements(prior: Option<Object>, a: Object, b: Object)
    requires Unstamped(a) == Unstamped(b)
    ensures ObjectRequirements(prior, a) == ObjectRequirements(prior, b)
  {
    SameMaterial(a, b);
    assert a.kind == b.kind && a.id == b.id;
    assert AdoptionRequirement(prior, a) == AdoptionRequirement(prior, b);
    assert RevisionRequirement(prior, a) == RevisionRequirement(prior, b);
    assert EvidenceRequirements(prior, a) == EvidenceRequirements(prior, b);
  }

  lemma SamePlanRequirements(a: Option<Plan>, b: Option<Plan>)
    requires SamePlan(a, b)
    ensures PlanRequirements(a) == PlanRequirements(b)
  {
    if a.Some? { SameReconfirmations(a.value.treatments, b.value.treatments); }
  }

  /** Binding Decisions never changes which Decisions are required. */
  lemma RequirementsUnchanged(v: View, a: Action, b: Action)
    requires SameEffect(a, b)
    ensures Required(v, a) == Required(v, b)
  {
    SamePlanRequirements(a.plan, b.plan);
    if a.payload.Some? {
      var x, y := a.payload.value, b.payload.value;
      SameObjectRequirements(v.Latest(x.kind, x.id), x, y);
      assert x.kind == y.kind && x.id == y.id;
    }
  }
}
