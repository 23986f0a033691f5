/** The Human Decision gate (core/decision/service.py): which Decisions a candidate needs,
    and how an approval is turned into Decision objects bound into the candidate's actions. */
module DecisionGate {
  import opened Common
  import opened Records
  import opened Authority

  // ---------------------------------------------------------------- requests

  /** One required Decision for one action. The stored action digest is the action itself. */
  datatype Unit = Unit(index: nat, action: Action, requirement: Requirement)

  datatype DecisionRequest = DecisionRequest(
    id: string,
    project: string,
    lineage: string,
    human: string,
    snapshot: Pin,
    config: Pin,
    profile: Pin,
    units: seq<Unit>,
    requirementSet: seq<Unit>,
    actions: seq<Action>)

  /** A candidate whose own digest has been checked. */
  datatype Candidate = Candidate(id: string, project: string, lineage: string, snapshot: Pin, actions: seq<Action>)

  datatype Gated =
    | Refused(code: string)
    | ReadyToCommit(transition: Request)
    | DecisionRequired(request: DecisionRequest)

  const SEPARATOR := '\U{1F}'

  function Joined(parts: seq<string>): string {
    if parts == [] then "" else if |parts| == 1 then parts[0] else parts[0] + [SEPARATOR] + Joined(parts[1..])
  }

  /** `_stable_id`: a prefix and the joined parts, which stand for their own hash. */
  function StableId(prefix: string, parts: seq<string>): string { prefix + Joined(parts) }

  function UnitsOf(v: View, actions: seq<Action>): seq<Unit> {
    if actions == [] then []
    else
      var index := |actions| - 1;
      var needs := Required(v, actions[index]);
      UnitsOf(v, actions[..index]) + seq(|needs|, i requires 0 <= i < |needs| => Unit(index, actions[index], needs[i]))
  }

  function TransitionFrom(project: string, lineage: string, head: Pin, config: Pin, profile: Pin, actor: Actor,
                          actions: seq<Action>, authorization: seq<string>, basis: string, at: string): Request {
    Request(StableId("TR-", [basis]), project, lineage, head, actor, actions, config, profile, authorization,
            StableId("IDEMP-HD-", [basis]), at, StableId("SNP-HD-", [basis]), StableId("COM-HD-", [basis]),
            StableId("AUD-HD-", [basis]), Unsealed).WithCalculatedDigest()
  }

  // ---------------------------------------------------------------- candidates

  predicate Within(ids: seq<string>, known: seq<string>) {
    forall i :: 0 <= i < |ids| ==> ids[i] in known
  }

  predicate PayloadInherits(v: View, a: Action) {
    a.payload.Some? ==>
      var prior := v.Latest(a.payload.value.kind, a.payload.value.id);
      Within(a.payload.value.List("decision_ids"), if prior.Some? then prior.value.List("decision_ids") else [])
  }

  function BaselineObject(v: View, m: Ref): Option<Object> {
    if m in v.snapshot.members then v.Exact(m.kind, m.id, v.snapshot.members[m].revision) else None
  }

  predicate TreatmentInherits(v: View, t: Treatment) {
    t.derived.Some? ==>
      var source := BaselineObject(v, Ref(t.objectKind, t.sourceRef));
      Within(t.derived.value.List("decision_ids"), if source.Some? then source.value.List("decision_ids") else [])
  }

  /** The action cites no Decision and carries only provenance the current state already has. */
  predicate Honest(v: View, a: Action) {
    && a.decisionRefs == []
    && PayloadInherits(v, a)
    && (a.kind.ApplyLineagePlan? && a.plan.Some? ==>
          forall i :: 0 <= i < |a.plan.value.treatments| ==> TreatmentInherits(v, a.plan.value.treatments[i]))
  }

  predicate AllHonest(v: View, actions: seq<Action>) {
    forall i :: 0 <= i < |actions| ==> Honest(v, actions[i])
  }

  predicate Bound(v: View, c: Candidate) {
    c.project == v.project && c.lineage == v.lineage && c.snapshot == v.Head()
  }

  function RequestFor(v: View, c: Candidate, human: string, id: string): DecisionRequest {
    DecisionRequest(id, v.project, v.lineage, human, v.Head(), v.config, v.profile,
                    UnitsOf(v, c.actions), UnitsOf(v, c.actions), c.actions)
  }

  /** `gate_candidate`; `id` is the request id the service would mint. */
  function Gate(v: View, c: Candidate, actor: Actor, authorization: seq<string>, id: string, at: string): Gated {
    if !Bound(v, c) then Refused("DECISION-STALE-001")
    else if !AllHonest(v, c.actions) then Refused("DECISION-FORGED-REF-001")
    else if c.actions == [] then Refused("DECISION-CANDIDATE-001")
    else if UnitsOf(v, c.actions) == [] then
      ReadyToCommit(TransitionFrom(v.project, v.lineage, v.Head(), v.config, v.profile, actor, c.actions, authorization,
                                   c.id, at))
    else DecisionRequired(RequestFor(v, c, actor.id, id))
  }

  /** The requirements, gathered action by action. */
  method GatherUnits(v: View, actions: seq<Action>) returns (units: seq<Unit>)
    ensures units == UnitsOf(v, actions)
  {
    units := [];
    for i := 0 to |actions|
      invariant units == UnitsOf(v, actions[..i])
    {
      assert actions[..i + 1][..i] == actions[..i];
      var needs := Required(v, actions[i]);
      units := units + seq(|needs|, k requires 0 <= k < |needs| => Unit(i, actions[i], needs[k]));
    }
    assert actions[..|actions|] == actions;
  }

  // ---------------------------------------------------------------- materialized Decisions

  /** Units are grouped by decision kind and choice: a `Ref` read as (kind, choice). */
  function GroupOf(u: Unit): Ref { Ref(u.requirement.decisionKind, u.requirement.choice) }

  function Groups(units: seq<Unit>): set<Ref> { set u | u in units :: GroupOf(u) }

  function Subjects(units: seq<Unit>, g: Ref): set<Ref> {
    set u | u in units && GroupOf(u) == g :: u.requirement.subject
  }

  function DecisionId(request: string, g: Ref): string { StableId("DEC-", [request, g.kind, g.id]) }

  function DecisionFor(r: DecisionRequest, human: string, at: string, g: Ref, subjects: seq<Ref>): Object {
    Object("decision", DecisionId(r.id, g), 0,
           map["schema_version" := "0.1.0", "project_id" := r.project, "decision_kind" := g.kind, "choice" := g.id,
               "actor_type" := "human", "decided_by" := human, "decided_at" := at],
           map[], map["subjects" := subjects], map[], Unsealed)
  }

  function Record(decision: Object): Action { Action(RecordDecision, Some(decision), None, None, "", [], []) }

  function RecordAll(r: DecisionRequest, human: string, at: string, groups: seq<Ref>): seq<Action> {
    seq(|groups|, i requires 0 <= i < |groups| =>
      Record(DecisionFor(r, human, at, groups[i], Ordered(Subjects(r.units, groups[i])))))
  }

  /** One RECORD_DECISION per group, in group order. */
  function DecisionActions(r: DecisionRequest, human: string, at: string): seq<Action> {
    RecordAll(r, human, at, Ordered(Groups(r.units)))
  }

  // ---------------------------------------------------------------- binding

  function IdsAt(request: string, units: seq<Unit>, index: nat): (ids: seq<string>)
    ensures forall d :: d in ids <==> exists u :: u in units && u.index == index && d == DecisionId(request, GroupOf(u))
  {
    if units == [] then []
    else
      var last := units[|units| - 1];
      IdsAt(request, units[..|units| - 1], index)
      + (if last.index == index then [DecisionId(request, GroupOf(last))] else [])
  }

  /** The Decisions action `index` is bound to. */
  function RefsAt(r: DecisionRequest, index: nat): seq<string> { Distinct(IdsAt(r.id, r.units, index)) }

  /** The object with Decision provenance added after what it already has. */
  function Stamp(obj: Object, refs: seq<string>): Object {
    obj.(lists := obj.lists["decision_ids" := Distinct(obj.List("decision_ids") + refs)])
  }

  predicate Reconfirmation(u: Unit, index: nat, subject: Ref) {
    u.index == index && u.requirement.decisionKind == "lineage_reconfirmation" && u.requirement.subject == subject
  }

  function Matching(request: string, units: seq<Unit>, index: nat, subject: Ref): seq<string> {
    if units == [] then []
    else
      var last := units[|units| - 1];
      Matching(request, units[..|units| - 1], index, subject)
      + (if Reconfirmation(last, index, subject) then [DecisionId(request, GroupOf(last))] else [])
  }

  /** None when a reconfirmation has no Decision of its own, or several. */
  function BindTreatment(r: DecisionRequest, index: nat, t: Treatment): Option<Treatment> {
    if !Reconfirms(t) then Some(t)
    else
      var matching := Matching(r.id, r.units, index, t.derived.value.Identity());
      if |matching| != 1 then None
      else Some(t.(decisionRef := matching[0], derived := Some(Stamp(t.derived.value, matching))))
  }

  function BindTreatments(r: DecisionRequest, index: nat, ts: seq<Treatment>): Option<seq<Treatment>> {
    if ts == [] then Some([])
    else
      var front := BindTreatments(r, index, ts[..|ts| - 1]);
      var last := BindTreatment(r, index, ts[|ts| - 1]);
      if front.None? || last.None? then None else Some(front.value + [last.value])
  }

  function BindPlan(r: DecisionRequest, index: nat, plan: Option<Plan>): Option<Option<Plan>> {
    match plan
    case None => Some(None)
    case Some(p) =>
      match BindTreatments(r, index, p.treatments)
      case None => None
      case Some(ts) => Some(Some(p.(treatments := ts)))
  }

  function BindPayload(refs: seq<string>, payload: Option<Object>): Option<Object> {
    match payload
    case None => None
    case Some(obj) => if refs == [] then payload else Some(Stamp(obj, refs))
  }

  function BindAction(r: DecisionRequest, index: nat, a: Action): Option<Action> {
    var refs := RefsAt(r, index);
    match (if a.kind.ApplyLineagePlan? then BindPlan(r, index, a.plan) else Some(a.plan))
    case None => None
    case Some(plan) => Some(a.(payload := BindPayload(refs, a.payload), plan := plan, decisionRefs := refs))
  }

  function BindActions(r: DecisionRequest, actions: seq<Action>): Option<seq<Action>> {
    if actions == [] then Some([])
    else
      var index := |actions| - 1;
      var front := BindActions(r, actions[..index]);
      var last := BindAction(r, index, actions[index]);
      if front.None? || last.None? then None else Some(front.value + [last.value])
  }

  predicate UnitCurrent(actions: seq<Action>, u: Unit) {
    u.index < |actions| && actions[u.index] == u.action
  }

  /** `_request_actions`: the target actions, unless a unit's action digest no longer fits. */
  predicate UnitsCurrent(r: DecisionRequest) {
    forall i :: 0 <= i < |r.units| ==> UnitCurrent(r.actions, r.units[i])
  }

  /** `_approval_transition`; None stands for HumanDecisionError. */
  function Approval(r: DecisionRequest, actor: Actor, at: string): Option<Request> {
    if !UnitsCurrent(r) then None
    else
      match BindActions(r, r.actions)
      case None => None
      case Some(bound) =>
        Some(TransitionFrom(r.project, r.lineage, r.snapshot, r.config, r.profile, actor,
                            DecisionActions(r, actor.id, at) + bound, [], r.id, at))
  }

  // ---------------------------------------------------------------- the loops of the source

  /** Subjects collected so far under each group, each once. */
  ghost predicate Grouped(units: seq<Unit>, grouped: map<Ref, seq<Ref>>) {
    && grouped.Keys == Groups(units)
    && forall g :: g in grouped ==> (set s | s in grouped[g]) == Subjects(units, g)
  }

  /** Decision references collected so far under each action. */
  ghost predicate Filed(request: string, units: seq<Unit>, byAction: map<nat, seq<string>>) {
    forall index: nat :: IdsAt(request, units, index) == if index in byAction then byAction[index] else []
  }

  lemma GroupedMore(units: seq<Unit>, grouped: map<Ref, seq<Ref>>, u: Unit, subjects: seq<Ref>)
    requires Grouped(units, grouped)
    requires forall s :: s in subjects <==>
               s == u.requirement.subject || (GroupOf(u) in grouped && s in grouped[GroupOf(u)])
    ensures Grouped(units + [u], grouped[GroupOf(u) := subjects])
  {
    var more, g := grouped[GroupOf(u) := subjects], GroupOf(u);
    assert Groups(units + [u]) == Groups(units) + {g};
    forall h | h in more ensures (set s | s in more[h]) == Subjects(units + [u], h) {
      assert Subjects(units + [u], h) == Subjects(units, h) + if h == g then {u.requirement.subject} else {};
      if h == g {
        if g !in grouped { assert Subjects(units, g) == {}; }
        assert (set s | s in subjects) == Subjects(units, g) + {u.requirement.subject};
      }
    }
  }

  lemma FiledMore(request: string, units: seq<Unit>, byAction: map<nat, seq<string>>, u: Unit)
    requires Filed(request, units, byAction)
    ensures var ids := if u.index in byAction then byAction[u.index] else [];
            Filed(request, units + [u], byAction[u.index := ids + [DecisionId(request, GroupOf(u))]])
  {
    assert (units + [u])[..|units|] == units;
    forall index: nat
      ensures IdsAt(request, units + [u], index)
           == IdsAt(request, units, index) + (if u.index == index then [DecisionId(request, GroupOf(u))] else [])
    {}
  }

  /** The first loop: subjects by group and Decision references by action. */
  method GroupUnits(r: DecisionRequest) returns (grouped: map<Ref, seq<Ref>>, byAction: map<nat, seq<string>>)
    ensures Grouped(r.units, grouped) && Filed(r.id, r.units, byAction)
  {
    grouped, byAction := map[], map[];
    for i := 0 to |r.units|
      invariant Grouped(r.units[..i], grouped) && Filed(r.id, r.units[..i], byAction)
    {
      var u := r.units[i];
      var g := GroupOf(u);
      var subjects := if g in grouped then grouped[g] else [];
      if u.requirement.subject !in subjects { subjects := subjects + [u.requirement.subject]; }
      var ids := if u.index in byAction then byAction[u.index] else [];
      GroupedMore(r.units[..i], grouped, u, subjects);
      FiledMore(r.id, r.units[..i], byAction, u);
      assert r.units[..i + 1] == r.units[..i] + [u];
      grouped := grouped[g := subjects];
      byAction := byAction[u.index := ids + [DecisionId(r.id, g)]];
    }
    assert r.units[..|r.units|] == r.units;
  }

  method RecordGroups(r: DecisionRequest, human: string, at: string,
                      grouped: map<Ref, seq<Ref>>) returns (actions: seq<Action>)
    requires Grouped(r.units, grouped)
    ensures actions == DecisionActions(r, human, at)
  {
    var groups := Ordered(grouped.Keys);
    actions := [];
    for i := 0 to |groups|
      invariant actions == RecordAll(r, human, at, groups[..i])
    {
      var g := groups[i];
      var subjects := Ordered(set s | s in grouped[g]);
      assert groups[..i + 1] == groups[..i] + [g];
      actions := actions + [Record(DecisionFor(r, human, at, g, subjects))];
    }
    assert groups[..|groups|] == groups;
  }

  method BindPlanTreatments(r: DecisionRequest, index: nat, ts: seq<Treatment>) returns (bound: Option<seq<Treatment>>)
    ensures bound == BindTreatments(r, index, ts)
  {
    var done: seq<Treatment> := [];
    for i := 0 to |ts|
      invariant BindTreatments(r, index, ts[..i]) == Some(done)
    {
      assert ts[..i + 1][..i] == ts[..i];
      var one := BindTreatment(r, index, ts[i]);
      if one.None? {
        Unbindable(r, index, ts, i + 1);
        return None;
      }
      done := done + [one.value];
    }
    assert ts[..|ts|] == ts;
    return Some(done);
  }

  lemma {:induction false} Unbindable(r: DecisionRequest, index: nat, ts: seq<Treatment>, i: nat)
    requires i <= |ts| && BindTreatments(r, index, ts[..i]).None?
    ensures BindTreatments(r, index, ts).None?
  {
    if i == |ts| {
      assert ts[..i] == ts;
    } else {
      assert ts[..|ts| - 1][..i] == ts[..i];
      Unbindable(r, index, ts[..|ts| - 1], i);
    }
  }

  lemma {:induction false} UnbindableActions(r: DecisionRequest, actions: seq<Action>, i: nat)
    requires i <= |actions| && BindActions(r, actions[..i]).None?
    ensures BindActions(r, actions).None?
  {
    if i == |actions| {
      assert actions[..i] == actions;
    } else {
      assert actions[..|actions| - 1][..i] == actions[..i];
      UnbindableActions(r, actions[..|actions| - 1], i);
    }
  }

  method BindOne(r: DecisionRequest, index: nat, a: Action, refs: seq<string>) returns (bound: Option<Action>)
    requires refs == RefsAt(r, index)
    ensures bound == BindAction(r, index, a)
  {
    var payload := BindPayload(refs, a.payload);
    var plan := a.plan;
    if a.kind.ApplyLineagePlan? && plan.Some? {
      var ts := BindPlanTreatments(r, index, plan.value.treatments);
      if ts.None? { return None; }
      plan := Some(plan.value.(treatments := ts.value));
    }
    return Some(a.(payload := payload, plan := plan, decisionRefs := refs));
  }

  lemma BoundOneMore(r: DecisionRequest, actions: seq<Action>, i: nat, done: seq<Action>, one: Action)
    requires i < |actions| && BindActions(r, actions[..i]) == Some(done) && BindAction(r, i, actions[i]) == Some(one)
    ensures BindActions(r, actions[..i + 1]) == Some(done + [one])
  {
    assert actions[..i + 1][..i] == actions[..i];
  }

  lemma NotBoundAt(r: DecisionRequest, actions: seq<Action>, i: nat)
    requires i < |actions| && BindAction(r, i, actions[i]).None?
    ensures BindActions(r, actions).None?
  {
    assert actions[..i + 1][..i] == actions[..i];
    UnbindableActions(r, actions, i + 1);
  }

  method BindAll(r: DecisionRequest, byAction: map<nat, seq<string>>) returns (bound: Option<seq<Action>>)
    requires Filed(r.id, r.units, byAction)
    ensures bound == BindActions(r, r.actions)
  {
    var done: seq<Action> := [];
    for i := 0 to |r.actions|
      invariant BindActions(r, r.actions[..i]) == Some(done)
    {
      var refs := Distinct(if i in byAction then byAction[i] else []);
      var one := BindOne(r, i, r.actions[i], refs);
      if one.None? {
        NotBoundAt(r, r.actions, i);
        return None;
      }
      BoundOneMore(r, r.actions, i, done, one.value);
      done := done + [one.value];
    }
    assert r.actions[..|r.actions|] == r.actions;
    return Some(done);
  }

  /** `_materialize_decisions_and_bind`. */
  method MaterializeAndBind(r: DecisionRequest, human: string, at: string)
    returns (decisions: seq<Action>, bound: Option<seq<Action>>)
    ensures decisions == DecisionActions(r, human, at)
    ensures bound == BindActions(r, r.actions)
  {
    var grouped, byAction := GroupUnits(r);
    decisions := RecordGroups(r, human, at, grouped);
    bound := BindAll(r, byAction);
  }
}
