/** What the gate asks and what an approval commits, read off the candidate's fields
    (core/decision/service.py:60-147, 445-693). */
module GateRules {
  import opened Common
  import opened Records
  import opened Authority
  import opened DecisionGate
  import opened GateFacts
  import opened DecisionRules

  // ---------------------------------------------------------------- what a candidate may carry

  predicate Lists(o: Object, d: string) { "decision_ids" in o.lists && d in o.lists["decision_ids"] }

  /** The payload lists a Decision that the latest revision of its object does not. */
  ghost predicate PayloadClaims(v: View, a: Action) {
    && a.payload.Some?
    && exists d :: Lists(a.payload.value, d)
                   && match v.Latest(a.payload.value.kind, a.payload.value.id)
                      case None => true
                      case Some(prior) => !Lists(prior, d)
  }

  /** The member the treatment is of, at the revision the head records. */
  function SourceOf(v: View, t: Treatment): Option<Object> {
    var m := Ref(t.objectKind, t.sourceRef);
    if m !in v.snapshot.members then None
    else
      var k := Key(m.kind, m.id, v.snapshot.members[m].revision);
      if k in v.objects then Some(v.objects[k]) else None
  }

  /** The derived object lists a Decision that its source does not. */
  ghost predicate TreatmentClaims(v: View, t: Treatment) {
    && t.derived.Some?
    && exists d :: Lists(t.derived.value, d)
                   && match SourceOf(v, t) case None => true case Some(source) => !Lists(source, d)
  }

  /** The action claims a Decision by itself. */
  ghost predicate Claims(v: View, a: Action) {
    || (exists d :: d in a.decisionRefs)
    || PayloadClaims(v, a)
    || (a.kind == ApplyLineagePlan && a.plan.Some? && exists t :: t in a.plan.value.treatments && TreatmentClaims(v, t))
  }

  lemma WithinExactly(o: Object, prior: Option<Object>)
    ensures !Within(o.List("decision_ids"), if prior.Some? then prior.value.List("decision_ids") else []) <==>
              exists d :: Lists(o, d) && match prior case None => true case Some(p) => !Lists(p, d)
  {
    var ids := o.List("decision_ids");
    var known := if prior.Some? then prior.value.List("decision_ids") else [];
    if i :| 0 <= i < |ids| && ids[i] !in known { assert Lists(o, ids[i]); }
    if d :| Lists(o, d) && match prior case None => true case Some(p) => !Lists(p, d) {
      var i :| 0 <= i < |ids| && ids[i] == d;
      assert ids[i] !in known;
    }
  }

  lemma PayloadExactly(v: View, a: Action)
    ensures !PayloadInherits(v, a) <==> PayloadClaims(v, a)
  {
    if a.payload.Some? {
      WithinExactly(a.payload.value, v.Latest(a.payload.value.kind, a.payload.value.id));
    }
  }

  lemma TreatmentExactly(v: View, t: Treatment)
    ensures !TreatmentInherits(v, t) <==> TreatmentClaims(v, t)
  {
    if t.derived.Some? { WithinExactly(t.derived.value, SourceOf(v, t)); }
  }

  lemma HonestExactly(v: View, a: Action)
    ensures !Honest(v, a) <==> Claims(v, a)
  {
    PayloadExactly(v, a);
    if a.decisionRefs != [] { assert a.decisionRefs[0] in a.decisionRefs; }
    if a.kind.ApplyLineagePlan? && a.plan.Some? {
      var ts := a.plan.value.treatments;
      forall t ensures !TreatmentInherits(v, t) <==> TreatmentClaims(v, t) { TreatmentExactly(v, t); }
      if t :| t in ts && TreatmentClaims(v, t) {
        var i :| 0 <= i < |ts| && ts[i] == t;
        assert !TreatmentInherits(v, ts[i]);
      }
    }
  }

  // ---------------------------------------------------------------- what the gate asks

  /** Unit `u` is a Decision that action `u.index` of the candidate needs. */
  ghost predicate NeededUnit(v: View, actions: seq<Action>, u: Unit) {
    u.index < |actions| && u.action == actions[u.index] && Needs(v, u.action, u.requirement)
  }

  lemma UnitExactly(v: View, actions: seq<Action>, u: Unit)
    requires forall k :: k in v.objects ==> v.objects[k].Slot() == k
    ensures u in UnitsOf(v, actions) <==> NeededUnit(v, actions, u)
  {
    UnitsAt(v, actions, u);
    RequiredExactly(v, u.action, u.requirement);
  }

  lemma {:induction false} UnitsDiffer(v: View, actions: seq<Action>)
    ensures forall i, j :: 0 <= i < j < |UnitsOf(v, actions)| ==> UnitsOf(v, actions)[i] != UnitsOf(v, actions)[j]
  {
    if actions != [] {
      var last := |actions| - 1;
      var front := UnitsOf(v, actions[..last]);
      UnitsDiffer(v, actions[..last]);
      var own := UnitsSplit(v, actions);
      forall i | 0 <= i < |front| ensures front[i].index < last {
        assert front[i] in front;
        UnitsAt(v, actions[..last], front[i]);
      }
      NeedsKnown(v, actions[last]);
      OwnDiffer(Required(v, actions[last]), actions[last], last, own);
      BothDiffer(front, own, last);
    }
  }

  lemma OwnDiffer(needs: seq<Requirement>, a: Action, index: nat, own: seq<Unit>)
    requires UnitsFor(needs, a, index, own) && forall i, j :: 0 <= i < j < |needs| ==> needs[i] != needs[j]
    ensures forall i, j :: 0 <= i < j < |own| ==> own[i] != own[j]
    ensures forall i :: 0 <= i < |own| ==> own[i].index == index
  {
  }

  lemma BothDiffer(front: seq<Unit>, own: seq<Unit>, index: nat)
    requires (forall i :: 0 <= i < |front| ==> front[i].index < index)
             && forall i :: 0 <= i < |own| ==> own[i].index == index
    requires (forall i, j :: 0 <= i < j < |front| ==> front[i] != front[j])
             && forall i, j :: 0 <= i < j < |own| ==> own[i] != own[j]
    ensures forall i, j :: 0 <= i < j < |front + own| ==> (front + own)[i] != (front + own)[j]
  {
  }

  /** The request asks its human for every Decision the candidate needs, each once, on the view's pins. */
  ghost predicate AsksAll(r: DecisionRequest, v: View, c: Candidate, human: string, id: string) {
    && r.id == id && r.project == v.project && r.lineage == v.lineage && r.human == human
    && r.snapshot == Pin(v.snapshot.id, v.snapshot.seal) && r.config == v.config && r.profile == v.profile
    && r.actions == c.actions && r.requirementSet == r.units
    && (forall u :: u in r.units <==> NeededUnit(v, c.actions, u))
    && forall i, j :: 0 <= i < j < |r.units| ==> r.units[i] != r.units[j]
  }

  /** The transition that commits the actions as they are, on these pins, under ids made from the basis. */
  predicate Commits(t: Request, project: string, lineage: string, head: Pin, config: Pin, profile: Pin, actor: Actor,
                    actions: seq<Action>, authorization: seq<string>, basis: string, at: string)
  {
    && t.project == project && t.lineage == lineage && t.head == head && t.config == config && t.profile == profile
    && t.actor == actor && t.actions == actions && t.authorization == authorization && t.submittedAt == at
    && t.transitionId == "TR-" + basis && t.key == "IDEMP-HD-" + basis && t.snapshotId == "SNP-HD-" + basis
    && t.commitId == "COM-HD-" + basis && t.auditId == "AUD-HD-" + basis
    && t.digest == OfRequest(t.(digest := Unsealed))
  }

  lemma TransitionTells(project: string, lineage: string, head: Pin, config: Pin, profile: Pin, actor: Actor,
                        actions: seq<Action>, authorization: seq<string>, basis: string, at: string)
    ensures Commits(TransitionFrom(project, lineage, head, config, profile, actor, actions, authorization, basis, at),
                    project, lineage, head, config, profile, actor, actions, authorization, basis, at)
  {
  }

  lemma AsksExactly(v: View, c: Candidate, human: string, id: string)
    requires forall k :: k in v.objects ==> v.objects[k].Slot() == k
    ensures UnitsOf(v, c.actions) != [] <==> exists u :: NeededUnit(v, c.actions, u)
    ensures AsksAll(RequestFor(v, c, human, id), v, c, human, id)
  {
    var units := UnitsOf(v, c.actions);
    forall u ensures u in units <==> NeededUnit(v, c.actions, u) { UnitExactly(v, c.actions, u); }
    UnitsDiffer(v, c.actions);
    if units != [] { assert units[0] in units; }
  }

  lemma ForgedExactly(v: View, actions: seq<Action>)
    ensures !AllHonest(v, actions) <==> exists i :: 0 <= i < |actions| && Claims(v, actions[i])
  {
    forall i | 0 <= i < |actions| ensures !Honest(v, actions[i]) <==> Claims(v, actions[i]) {
      HonestExactly(v, actions[i]);
    }
  }

  /** What the gate answers for any candidate. */
  lemma GateTells(v: View, c: Candidate, actor: Actor, authorization: seq<string>, id: string, at: string)
    requires forall k :: k in v.objects ==> v.objects[k].Slot() == k
    ensures var answer := Gate(v, c, actor, authorization, id, at);
            var head := Pin(v.snapshot.id, v.snapshot.seal);
            if c.project != v.project || c.lineage != v.lineage || c.snapshot != head then
              answer == Refused("DECISION-STALE-001")
            else if exists i :: 0 <= i < |c.actions| && Claims(v, c.actions[i]) then
              answer == Refused("DECISION-FORGED-REF-001")
            else if c.actions == [] then answer == Refused("DECISION-CANDIDATE-001")
            else if exists u :: NeededUnit(v, c.actions, u) then
              answer.DecisionRequired? && AsksAll(answer.request, v, c, actor.id, id)
            else
              answer.ReadyToCommit?
              && Commits(answer.transition, v.project, v.lineage, head, v.config, v.profile, actor, c.actions,
                         authorization, c.id, at)
  {
    ForgedExactly(v, c.actions);
    AsksExactly(v, c, actor.id, id);
    TransitionTells(v.project, v.lineage, v.Head(), v.config, v.profile, actor, c.actions, authorization, c.id, at);
  }

  // ---------------------------------------------------------------- what an approval commits

  /** The units of the request ask for this choice about these subjects. */
  ghost predicate AskedOf(r: DecisionRequest, kind: string, choice: string, subject: Ref) {
    exists u :: u in r.units && u.requirement == Requirement(kind, choice, subject)
  }

  /** A Decision the approval records: what the human says about every subject the request asks of this choice. */
  ghost predicate Says(r: DecisionRequest, human: string, at: string, o: Object) {
    && o.kind == "decision" && o.revision == 0
    && Field(o.text, "actor_type") == Some("human") && Field(o.text, "decided_by") == Some(human)
    && Field(o.text, "decided_at") == Some(at) && Field(o.text, "project_id") == Some(r.project)
    && "decision_kind" in o.text && "choice" in o.text && "subjects" in o.refs
    && o.id == "DEC-" + Joined([r.id, o.text["decision_kind"], o.text["choice"]])
    && (exists s :: AskedOf(r, o.text["decision_kind"], o.text["choice"], s))
    && forall s :: s in o.refs["subjects"] <==> AskedOf(r, o.text["decision_kind"], o.text["choice"], s)
  }

  predicate Recorded(a: Action) { a.kind == RecordDecision && a.payload.Some? && a.decisionRefs == [] }

  lemma GroupAsked(r: DecisionRequest, g: Ref, s: Ref)
    ensures s in Subjects(r.units, g) <==> AskedOf(r, g.kind, g.id, s)
  {
    if u :| u in r.units && u.requirement == Requirement(g.kind, g.id, s) { assert GroupOf(u) == g; }
    if s in Subjects(r.units, g) {
      var u :| u in r.units && GroupOf(u) == g && u.requirement.subject == s;
      assert u.requirement == Requirement(g.kind, g.id, s);
    }
  }

  lemma DecisionSays(r: DecisionRequest, human: string, at: string, g: Ref)
    requires g in Groups(r.units)
    ensures Says(r, human, at, DecisionFor(r, human, at, g, Ordered(Subjects(r.units, g))))
  {
    forall s ensures s in Ordered(Subjects(r.units, g)) <==> AskedOf(r, g.kind, g.id, s) { GroupAsked(r, g, s); }
    var u :| u in r.units && GroupOf(u) == g;
    assert AskedOf(r, g.kind, g.id, u.requirement.subject);
  }

  /** What the approval records before the candidate's own actions: one Decision for each choice asked. */
  ghost predicate RecordsAll(r: DecisionRequest, human: string, at: string, records: seq<Action>) {
    && (forall i :: 0 <= i < |records| ==> Recorded(records[i]) && Says(r, human, at, records[i].payload.value))
    && (forall u :: u in r.units ==> exists i :: RecordedAs(records, i, u.requirement))
    && forall i, j :: 0 <= i < j < |records| ==> !SameChoice(records[i].payload, records[j].payload)
  }

  predicate RecordedAs(records: seq<Action>, i: int, q: Requirement) {
    && 0 <= i < |records| && records[i].payload.Some?
    && Field(records[i].payload.value.text, "decision_kind") == Some(q.decisionKind)
    && Field(records[i].payload.value.text, "choice") == Some(q.choice)
  }

  predicate SameChoice(a: Option<Object>, b: Option<Object>) {
    && a.Some? && b.Some?
    && Field(a.value.text, "decision_kind") == Field(b.value.text, "decision_kind")
    && Field(a.value.text, "choice") == Field(b.value.text, "choice")
  }

  lemma RecordOf(r: DecisionRequest, human: string, at: string, i: nat)
    requires i < |DecisionActions(r, human, at)|
    ensures i < |Ordered(Groups(r.units))|
    ensures var g := Ordered(Groups(r.units))[i];
            g in Groups(r.units)
            && DecisionActions(r, human, at)[i] == Record(DecisionFor(r, human, at, g, Ordered(Subjects(r.units, g))))
  {
    assert Ordered(Groups(r.units))[i] in Ordered(Groups(r.units));
  }

  lemma RecordSays(r: DecisionRequest, human: string, at: string, i: nat)
    requires i < |DecisionActions(r, human, at)|
    ensures var a := DecisionActions(r, human, at)[i];
            var g := Ordered(Groups(r.units))[i];
            && Recorded(a) && Says(r, human, at, a.payload.value)
            && Field(a.payload.value.text, "decision_kind") == Some(g.kind)
            && Field(a.payload.value.text, "choice") == Some(g.id)
  {
    RecordOf(r, human, at, i);
    DecisionSays(r, human, at, Ordered(Groups(r.units))[i]);
  }

  lemma ChoicesDiffer(r: DecisionRequest, human: string, at: string, i: nat, j: nat)
    requires i < j < |DecisionActions(r, human, at)|
    ensures !SameChoice(DecisionActions(r, human, at)[i].payload, DecisionActions(r, human, at)[j].payload)
  {
    RecordSays(r, human, at, i);
    RecordSays(r, human, at, j);
    assert Ordered(Groups(r.units))[i] != Ordered(Groups(r.units))[j];
  }

  lemma UnitRecorded(r: DecisionRequest, human: string, at: string, u: Unit) returns (i: nat)
    requires u in r.units
    ensures RecordedAs(DecisionActions(r, human, at), i, u.requirement)
  {
    var groups := Ordered(Groups(r.units));
    assert GroupOf(u) in groups;
    var k :| 0 <= k < |groups| && groups[k] == GroupOf(u);
    i := k;
    assert |DecisionActions(r, human, at)| == |groups|;
    RecordSays(r, human, at, i);
  }

  lemma DecisionsRecorded(r: DecisionRequest, human: string, at: string)
    ensures RecordsAll(r, human, at, DecisionActions(r, human, at))
  {
    var records := DecisionActions(r, human, at);
    forall i | 0 <= i < |records| ensures Recorded(records[i]) && Says(r, human, at, records[i].payload.value) {
      RecordSays(r, human, at, i);
    }
    forall u | u in r.units ensures exists i :: RecordedAs(records, i, u.requirement) {
      var i := UnitRecorded(r, human, at, u);
    }
    forall i, j | 0 <= i < j < |records| ensures !SameChoice(records[i].payload, records[j].payload) {
      ChoicesDiffer(r, human, at, i, j);
    }
  }

  // ---------------------------------------------------------------- binding

  /** The Decisions of the units of action `index`. */
  ghost predicate BoundTo(r: DecisionRequest, index: nat, d: string) {
    exists u :: u in r.units && u.index == index
                && d == "DEC-" + Joined([r.id, u.requirement.decisionKind, u.requirement.choice])
  }

  /** The list is the earlier one with further ids after it, each id once. */
  ghost predicate Lengthens(was: seq<string>, now: seq<string>, more: string -> bool) {
    && (forall d :: d in now <==> d in was || more(d))
    && (forall i, j :: 0 <= i < j < |now| ==> now[i] != now[j])
    && forall i, j :: 0 <= i < j < |now| && now[j] in was ==> now[i] in was
  }

  ghost predicate Leads(was: seq<string>, now: seq<string>) {
    (forall d :: d in was ==> d in now) && forall i, j :: 0 <= i < j < |now| && now[j] in was ==> now[i] in was
  }

  lemma LeadsOn(was: seq<string>, now: seq<string>, d: string)
    requires Leads(was, now) && d !in now
    ensures Leads(was, now + [d])
  {
    assert d !in was;
  }

  lemma {:induction false} OldFirst(was: seq<string>, refs: seq<string>)
    ensures Leads(was, Distinct(was + refs))
  {
    var all := was + refs;
    if refs == [] {
      assert all == was;
    } else {
      var last := |refs| - 1;
      assert all[..|all| - 1] == was + refs[..last];
      OldFirst(was, refs[..last]);
      var front := Distinct(was + refs[..last]);
      if refs[last] !in front { LeadsOn(was, front, refs[last]); }
    }
  }

  lemma StampTells(o: Object, refs: seq<string>, more: string -> bool)
    requires forall d :: d in refs <==> more(d)
    ensures "decision_ids" in Stamp(o, refs).lists
    ensures Lengthens(o.List("decision_ids"), Stamp(o, refs).lists["decision_ids"], more)
  {
    OldFirst(o.List("decision_ids"), refs);
    assert Stamp(o, refs).lists["decision_ids"] == Distinct(o.List("decision_ids") + refs);
  }

  /** Treatment `u` is treatment `t`, with the Decision to reconfirm its object when it reconfirms one: the
      treatment names it, and the object lists it after those it had. */
  ghost predicate TreatmentBound(r: DecisionRequest, index: nat, t: Treatment, u: Treatment) {
    if t.treatment == "RECONFIRM" && t.derived.Some? then
      && u.derived.Some? && "decision_ids" in u.derived.value.lists
      && (exists w :: w in r.units && ConfirmedBy(r, index, t.derived.value, w, u.decisionRef))
      && Lengthens(t.derived.value.List("decision_ids"), u.derived.value.lists["decision_ids"],
                   d => d == u.decisionRef)
    else u == t
  }

  predicate ConfirmedBy(r: DecisionRequest, index: nat, o: Object, w: Unit, d: string) {
    && w.index == index && w.requirement.decisionKind == "lineage_reconfirmation"
    && w.requirement.subject == Ref(o.kind, o.id)
    && d == "DEC-" + Joined([r.id, "lineage_reconfirmation", w.requirement.choice])
  }

  lemma {:induction false} MatchingFrom(request: string, units: seq<Unit>, index: nat, subject: Ref)
    ensures forall d :: d in Matching(request, units, index, subject) ==>
              exists w :: w in units && Reconfirmation(w, index, subject) && d == DecisionId(request, GroupOf(w))
  {
    if units != [] {
      var front, last := units[..|units| - 1], units[|units| - 1];
      MatchingFrom(request, front, index, subject);
      forall d | d in Matching(request, units, index, subject)
        ensures exists w :: w in units && Reconfirmation(w, index, subject) && d == DecisionId(request, GroupOf(w))
      {
        if d !in Matching(request, front, index, subject) {
          assert Reconfirmation(last, index, subject) && d == DecisionId(request, GroupOf(last));
        }
      }
    }
  }

  lemma TreatmentIsBound(r: DecisionRequest, index: nat, t: Treatment)
    requires BindTreatment(r, index, t).Some?
    ensures TreatmentBound(r, index, t, BindTreatment(r, index, t).value)
  {
    if Reconfirms(t) {
      var o := t.derived.value;
      var matching := Matching(r.id, r.units, index, o.Identity());
      MatchingFrom(r.id, r.units, index, o.Identity());
      assert matching[0] in matching;
      var w :| w in r.units && Reconfirmation(w, index, o.Identity()) && matching[0] == DecisionId(r.id, GroupOf(w));
      assert ConfirmedBy(r, index, o, w, matching[0]);
      assert matching == [matching[0]];
      StampTells(o, matching, d => d == matching[0]);
    }
  }

  ghost predicate PlanBound(r: DecisionRequest, index: nat, a: Plan, b: Plan) {
    |b.treatments| == |a.treatments|
    && forall j :: 0 <= j < |a.treatments| ==> TreatmentBound(r, index, a.treatments[j], b.treatments[j])
  }

  lemma PlanIsBound(r: DecisionRequest, index: nat, p: Plan)
    requires BindTreatments(r, index, p.treatments).Some?
    ensures PlanBound(r, index, p, p.(treatments := BindTreatments(r, index, p.treatments).value))
  {
    var ts := p.treatments;
    BoundTreatments(r, index, ts);
    forall j | 0 <= j < |ts| ensures TreatmentBound(r, index, ts[j], BindTreatments(r, index, ts).value[j]) {
      TreatmentIsBound(r, index, ts[j]);
    }
  }

  /** Action `b` is action `a` with its Decisions: it cites those of its units, its payload lists them after those
      it had, unless there are none, its plan binds each reconfirmation, and the rest of it is as it was. */
  ghost predicate BoundAs(r: DecisionRequest, index: nat, a: Action, b: Action) {
    && SameEffect(a, b)
    && (forall d :: d in b.decisionRefs <==> BoundTo(r, index, d))
    && (forall i, j :: 0 <= i < j < |b.decisionRefs| ==> b.decisionRefs[i] != b.decisionRefs[j])
    && (a.payload.Some? ==>
          if b.decisionRefs == [] then b.payload == a.payload
          else "decision_ids" in b.payload.value.lists
               && Lengthens(a.payload.value.List("decision_ids"), b.payload.value.lists["decision_ids"],
                            d => BoundTo(r, index, d)))
    && if a.kind == ApplyLineagePlan && a.plan.Some?
       then b.plan.Some? && PlanBound(r, index, a.plan.value, b.plan.value)
       else b.plan == a.plan
  }

  lemma RefsExactly(r: DecisionRequest, index: nat, d: string)
    ensures d in RefsAt(r, index) <==> BoundTo(r, index, d)
  {
    if u :| u in r.units && u.index == index && d == DecisionId(r.id, GroupOf(u)) { assert BoundTo(r, index, d); }
    if BoundTo(r, index, d) {
      var u :| u in r.units && u.index == index
               && d == "DEC-" + Joined([r.id, u.requirement.decisionKind, u.requirement.choice]);
      assert d == DecisionId(r.id, GroupOf(u));
    }
  }

  lemma ActionBound(r: DecisionRequest, index: nat, a: Action)
    requires BindAction(r, index, a).Some?
    ensures BoundAs(r, index, a, BindAction(r, index, a).value)
  {
    var b := BindAction(r, index, a).value;
    BindingTransparent(r, index, a);
    forall d ensures d in RefsAt(r, index) <==> BoundTo(r, index, d) { RefsExactly(r, index, d); }
    if a.payload.Some? && RefsAt(r, index) != [] {
      StampTells(a.payload.value, RefsAt(r, index), d => BoundTo(r, index, d));
    }
    if a.kind.ApplyLineagePlan? && a.plan.Some? { PlanIsBound(r, index, a.plan.value); }
  }

  /** The approval's parts: what it records, the bound actions, and the transition around them. */
  lemma ApprovalParts(r: DecisionRequest, actor: Actor, at: string)
    requires Approval(r, actor, at).Some?
    ensures BindActions(r, r.actions).Some? && UnitsCurrent(r)
    ensures Approval(r, actor, at).value
         == TransitionFrom(r.project, r.lineage, r.snapshot, r.config, r.profile, actor,
                           DecisionActions(r, actor.id, at) + BindActions(r, r.actions).value, [], r.id, at)
  {
  }

  lemma UnitsStand(r: DecisionRequest, u: Unit)
    requires UnitsCurrent(r) && u in r.units
    ensures u.index < |r.actions| && r.actions[u.index] == u.action
  {
    var i :| 0 <= i < |r.units| && r.units[i] == u;
    assert UnitCurrent(r.actions, r.units[i]);
  }

  lemma AllBound(r: DecisionRequest, i: nat)
    requires BindActions(r, r.actions).Some? && i < |r.actions|
    ensures |BindActions(r, r.actions).value| == |r.actions|
    ensures BoundAs(r, i, r.actions[i], BindActions(r, r.actions).value[i])
  {
    BoundActions(r, r.actions);
    ActionBound(r, i, r.actions[i]);
  }

  /** An approval commits the Decisions it records and then the reviewed actions, bound to them. */
  lemma ApprovalTells(r: DecisionRequest, actor: Actor, at: string) returns (records: seq<Action>, bound: seq<Action>)
    requires Approval(r, actor, at).Some?
    ensures Commits(Approval(r, actor, at).value, r.project, r.lineage, r.snapshot, r.config, r.profile, actor,
                    records + bound, [], r.id, at)
    ensures RecordsAll(r, actor.id, at, records) && |bound| == |r.actions|
    ensures forall i :: 0 <= i < |r.actions| ==> BoundAs(r, i, r.actions[i], bound[i])
    ensures forall u :: u in r.units ==> u.index < |r.actions| && r.actions[u.index] == u.action
  {
    ApprovalParts(r, actor, at);
    records, bound := DecisionActions(r, actor.id, at), BindActions(r, r.actions).value;
    BoundActions(r, r.actions);
    DecisionsRecorded(r, actor.id, at);
    forall i | 0 <= i < |r.actions| ensures BoundAs(r, i, r.actions[i], bound[i]) { AllBound(r, i); }
    forall u | u in r.units ensures u.index < |r.actions| && r.actions[u.index] == u.action { UnitsStand(r, u); }
    TransitionTells(r.project, r.lineage, r.snapshot, r.config, r.profile, actor, records + bound, [], r.id, at);
  }

  // ---------------------------------------------------------------- when there is no approval

  /** The units of action `index` that ask to reconfirm this object. */
  function Confirming(units: seq<Unit>, index: nat, subject: Ref): set<int> {
    set k | 0 <= k < |units| && units[k].index == index
            && units[k].requirement.decisionKind == "lineage_reconfirmation" && units[k].requirement.subject == subject
  }

  lemma {:induction false} MatchingCount(request: string, units: seq<Unit>, index: nat, subject: Ref)
    ensures |Matching(request, units, index, subject)| == |Confirming(units, index, subject)|
  {
    if units == [] {
      assert Confirming(units, index, subject) == {};
    } else {
      var last := |units| - 1;
      MatchingCount(request, units[..last], index, subject);
      var front := Confirming(units[..last], index, subject);
      assert Confirming(units, index, subject)
          == front + (if Reconfirmation(units[last], index, subject) then {last} else {});
    }
  }

  /** A reconfirmed object for which the request has no Decision, or more than one. */
  predicate Unconfirmed(r: DecisionRequest, index: nat, t: Treatment) {
    t.treatment == "RECONFIRM" && t.derived.Some?
    && |Confirming(r.units, index, Ref(t.derived.value.kind, t.derived.value.id))| != 1
  }

  predicate PlanUnconfirmed(r: DecisionRequest, index: nat, a: Action) {
    a.kind == ApplyLineagePlan && a.plan.Some? && exists t :: t in a.plan.value.treatments && Unconfirmed(r, index, t)
  }

  lemma {:induction false} TreatmentsUnbound(r: DecisionRequest, index: nat, ts: seq<Treatment>)
    ensures BindTreatments(r, index, ts).None? <==> exists t :: t in ts && Unconfirmed(r, index, t)
  {
    if ts != [] {
      var front, last := ts[..|ts| - 1], ts[|ts| - 1];
      TreatmentsUnbound(r, index, front);
      if Reconfirms(last) { MatchingCount(r.id, r.units, index, last.derived.value.Identity()); }
      assert BindTreatment(r, index, last).None? <==> Unconfirmed(r, index, last);
      forall t ensures t in ts <==> t in front || t == last { assert ts == front + [last]; }
    }
  }

  lemma ActionUnbound(r: DecisionRequest, index: nat, a: Action)
    ensures BindAction(r, index, a).None? <==> PlanUnconfirmed(r, index, a)
  {
    if a.kind.ApplyLineagePlan? && a.plan.Some? { TreatmentsUnbound(r, index, a.plan.value.treatments); }
  }

  predicate SomeUnconfirmed(r: DecisionRequest, actions: seq<Action>) {
    exists i :: 0 <= i < |actions| && PlanUnconfirmed(r, i, actions[i])
  }

  lemma UnconfirmedMore(r: DecisionRequest, actions: seq<Action>)
    requires actions != []
    ensures var last := |actions| - 1;
            SomeUnconfirmed(r, actions) <==>
              SomeUnconfirmed(r, actions[..last]) || PlanUnconfirmed(r, last, actions[last])
  {
    var front := actions[..|actions| - 1];
    forall i | 0 <= i < |front| ensures PlanUnconfirmed(r, i, front[i]) <==> PlanUnconfirmed(r, i, actions[i]) {
      assert front[i] == actions[i];
    }
  }

  lemma {:induction false} ActionsUnbound(r: DecisionRequest, actions: seq<Action>)
    ensures BindActions(r, actions).None? <==> SomeUnconfirmed(r, actions)
  {
    if actions != [] {
      var last := |actions| - 1;
      ActionsUnbound(r, actions[..last]);
      ActionUnbound(r, last, actions[last]);
      UnconfirmedMore(r, actions);
    }
  }

  /** There is no approval exactly when an action is no longer the one a Decision was asked for, or an object is
      reconfirmed without exactly one Decision asked for it. */
  lemma ApprovalExactly(r: DecisionRequest, actor: Actor, at: string)
    ensures Approval(r, actor, at).None? <==>
              || (exists u :: u in r.units && !(u.index < |r.actions| && r.actions[u.index] == u.action))
              || SomeUnconfirmed(r, r.actions)
  {
    ActionsUnbound(r, r.actions);
    if u :| u in r.units && !(u.index < |r.actions| && r.actions[u.index] == u.action) {
      var i :| 0 <= i < |r.units| && r.units[i] == u;
      assert !UnitCurrent(r.actions, r.units[i]);
    }
  }
}
