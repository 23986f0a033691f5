/** A world in which staleness is forgotten: the gate asks for a Decision to switch the active
    lineage, the source documents go missing, the call that notices it stops, and the retry commits. */
module StaleSwitch {
  import opened Common
  import opened Records
  import opened Authority
  import opened Reducer
  import opened StateValidation
  import opened Repository
  import opened Service
  import opened CommitFacts
  import opened History
  import opened SingleUse
  import opened DecisionGate
  import opened GateFacts
  import opened GateCompleteness
  import opened DecisionResolution
  import opened Recovery
  import opened Staleness

  function Switching(target: string): Action { Action(SwitchActiveLineage, None, None, None, target, [], []) }

  function SwitchNeed(target: string): Requirement {
    Requirement("active_lineage_selection", "switch", Ref("research_lineage", target))
  }

  const SWITCH_GROUP := Ref("active_lineage_selection", "switch")

  /** A request the gate issued for a candidate that only switches to `target`. */
  ghost predicate SwitchGate(v: View, q: DecisionRequest, target: string) {
    && Issued(v, q) && q.actions == [Switching(target)] && target != ""
    && target in v.lineages && v.lineage in v.lineages
    && q.project == v.project && q.lineage == v.lineage && q.snapshot == v.Head()
    && q.config == v.config && q.profile == v.profile
  }

  lemma NeedsSwitch(v: View, target: string)
    ensures Required(v, Switching(target)) == [SwitchNeed(target)]
  {
    DistinctOne(SwitchNeed(target));
  }

  lemma GroupsOfOne(units: seq<Unit>, unit: Unit)
    requires forall u :: u in units <==> u == unit
    ensures Groups(units) == {GroupOf(unit)} && Subjects(units, GroupOf(unit)) == {unit.requirement.subject}
  {
    assert unit in units;
  }

  lemma OneUnit(v: View, q: DecisionRequest, target: string, u: Unit)
    requires SwitchGate(v, q, target)
    ensures u in q.units <==> u == Unit(0, Switching(target), SwitchNeed(target))
  {
    NeedsSwitch(v, target);
    UnitsAt(v, q.actions, u);
  }

  lemma OneGroup(v: View, q: DecisionRequest, target: string)
    requires SwitchGate(v, q, target)
    ensures Groups(q.units) == {SWITCH_GROUP} && Subjects(q.units, SWITCH_GROUP) == {Ref("research_lineage", target)}
  {
    var unit := Unit(0, Switching(target), SwitchNeed(target));
    forall u ensures u in q.units <==> u == unit { OneUnit(v, q, target, u); }
    GroupsOfOne(q.units, unit);
  }

  lemma OrderedOne(r: Ref)
    ensures Ordered({r}) == [r]
  {
    OrderedLength({r});
    assert Ordered({r})[0] in Ordered({r});
  }

  /** The one Decision an approval records, and what it is about. */
  ghost predicate SwitchDecision(q: DecisionRequest, target: string, d: Object) {
    && d.kind == "decision" && d.revision == 0 && d.id == DecisionId(q.id, SWITCH_GROUP) && d.id != ""
    && d.Text("project_id") == Some(q.project) && d.Refs("subjects") == [Ref("research_lineage", target)]
  }

  lemma OneDecision(v: View, q: DecisionRequest, target: string, human: string, at: string) returns (d: Object)
    requires SwitchGate(v, q, target)
    ensures DecisionActions(q, human, at) == [Record(d)] && SwitchDecision(q, target, d)
  {
    OneGroup(v, q, target);
    OrderedOne(SWITCH_GROUP);
    OrderedOne(Ref("research_lineage", target));
    d := DecisionFor(q, human, at, SWITCH_GROUP, [Ref("research_lineage", target)]);
    GroupsKnown(v, q, SWITCH_GROUP);
    DecisionSays(q, human, at, SWITCH_GROUP, [Ref("research_lineage", target)]);
    OneRecord(q, human, at, SWITCH_GROUP);
  }

  lemma DecisionSays(q: DecisionRequest, human: string, at: string, g: Ref, subjects: seq<Ref>)
    ensures var d := DecisionFor(q, human, at, g, subjects);
            d.kind == "decision" && d.revision == 0 && d.id == DecisionId(q.id, g)
            && d.Text("project_id") == Some(q.project) && d.Refs("subjects") == subjects
  {
  }

  lemma OneRecord(q: DecisionRequest, human: string, at: string, g: Ref)
    ensures RecordAll(q, human, at, [g]) == [Record(DecisionFor(q, human, at, g, Ordered(Subjects(q.units, g))))]
  {
  }

  lemma OneBound(v: View, q: DecisionRequest, target: string) returns (b: Action)
    requires SwitchGate(v, q, target) && BindActions(q, q.actions).Some?
    ensures BindActions(q, q.actions) == Some([b])
    ensures b.kind.SwitchActiveLineage? && b.switchTarget == target && b.payload.None? && b.plan.None?
  {
    BoundActions(q, q.actions);
    var bound := BindActions(q, q.actions).value;
    b := bound[0];
    BindingTransparent(q, 0, q.actions[0]);
    assert bound == [b];
  }

  // ---------------------------------------------------------------- the transition it becomes

  /** A request that records one Decision and switches the active lineage. */
  ghost predicate RecordsAndSwitches(t: Request, d: Object, target: string) {
    && |t.actions| == 2 && t.actions[0] == Record(d)
    && t.actions[1].kind.SwitchActiveLineage? && t.actions[1].switchTarget == target && target != ""
    && t.actions[1].payload.None? && t.actions[1].plan.None?
  }

  lemma ApprovalForm(v: View, q: DecisionRequest, target: string, actor: Actor, at: string)
    returns (t: Request, d: Object)
    requires SwitchGate(v, q, target)
    ensures Approval(q, actor, at) == Some(t) && SwitchDecision(q, target, d) && RecordsAndSwitches(t, d, target)
    ensures t.project == q.project && t.lineage == q.lineage && t.head == q.snapshot && t.config == q.config
    ensures t.profile == q.profile && t.actor == actor && t.digest == t.CalculatedDigest()
  {
    ApprovalExists(v, q, actor, at);
    t := Approval(q, actor, at).value;
    ApprovalPins(q, actor, at);
    var bound := ApprovalActions(q, actor, at);
    d := OneDecision(v, q, target, actor.id, at);
    var b := OneBound(v, q, target);
    TwoActions(t, d, b, target);
  }

  lemma ApprovalPins(q: DecisionRequest, actor: Actor, at: string)
    requires Approval(q, actor, at).Some?
    ensures var t := Approval(q, actor, at).value;
            && t.project == q.project && t.lineage == q.lineage && t.head == q.snapshot && t.config == q.config
            && t.profile == q.profile && t.actor == actor && t.digest == t.CalculatedDigest()
  {
  }

  lemma TwoActions(t: Request, d: Object, b: Action, target: string)
    requires t.actions == [Record(d)] + [b] && target != ""
    requires b.kind.SwitchActiveLineage? && b.switchTarget == target && b.payload.None? && b.plan.None?
    ensures RecordsAndSwitches(t, d, target)
  {
    assert t.actions == [Record(d), b];
  }

  lemma PairParts(t: Request, d: Object, target: string)
    requires RecordsAndSwitches(t, d, target)
    ensures Semantic(t.actions) == [t.actions[1]] && DecisionsOf(t.actions) == [d]
    ensures HasSwitch(t.actions) && !HasPlan(t.actions)
  {
    var a, b := t.actions[0], t.actions[1];
    assert t.actions == [a, b];
    OneSemantic(a, b);
    OneRecorded(d, b);
  }

  lemma OneSemantic(a: Action, b: Action)
    requires a.kind.RecordDecision? && b.kind.SwitchActiveLineage?
    ensures Semantic([a, b]) == [b] && HasSwitch([a, b]) && !HasPlan([a, b])
  {
    assert [a, b][1..] == [b] && [b][1..] == [] && [a, b][1] == b;
    assert Semantic([b]) == [b];
  }

  lemma OneRecorded(d: Object, b: Action)
    requires b.kind.SwitchActiveLineage?
    ensures DecisionsOf([Record(d), b]) == [d]
  {
    assert [Record(d), b][..1] == [Record(d)] && [Record(d)][..0] == [];
    assert DecisionsOf([Record(d)]) == [d];
  }

  lemma OneSorted(d: Object)
    ensures StableSorted([d]) == [d]
  {
    assert [d][1..] == [];
  }

  lemma PairReduces(v: View, t: Request, d: Object, target: string) returns (red: Reduction)
    requires RecordsAndSwitches(t, d, target) && d.kind == "decision" && d.revision == 0
    requires v.Latest(d.kind, d.id).None?
    ensures Reduce(v, t) == Some(red)
    ensures red.revisions == [d] && red.decisions == [d] && red.snapshot.None? && red.moved.None? && red.child.None?
    ensures red.activate == Some(target) && red.audit == AuditEvent(t)
  {
    PairParts(t, d, target);
    OneSorted(d);
    assert ObjectAccepted(v, RecordDecision, d);
    assert RecordedAccepted(v, t.actions);
    red := Reduction([d], [d], None, None, None, Some(target), [], Authority.Resolving(v, t.actions), AuditEvent(t));
  }

  lemma PairSchemaClean(t: Request, d: Object, target: string)
    requires RecordsAndSwitches(t, d, target) && d.kind == "decision"
    ensures SchemaCodes(t) == {}
  {
    assert ActionSchemaCodes(t.actions[0]) == {} && ActionSchemaCodes(t.actions[1]) == {};
  }

  lemma PairLineageClean(v: View, t: Request, d: Object, target: string)
    requires RecordsAndSwitches(t, d, target) && target in v.lineages && t.lineage in v.lineages
    ensures LineageCodes(v, t) == {}
  {
    assert ActionLineageCodes(v, t, t.actions[0]) == {} && ActionLineageCodes(v, t, t.actions[1]) == {};
  }

  lemma DecisionRefers(d: Object, project: string, target: string)
    requires d.kind == "decision" && d.Text("project_id") == Some(project)
    requires d.Refs("subjects") == [Ref("research_lineage", target)]
    ensures References(d) == Link("project", Some(project))
  {
    var subjects := [Ref("research_lineage", target)];
    assert subjects[1..] == [];
    assert KnownSubjects(Complete(subjects)) == [] by {
      if target == "" { assert Complete(subjects) == []; } else { assert Complete(subjects) == subjects; }
    }
  }

  lemma DecisionClosed(v: View, d: Object)
    requires v.objects == map[] && v.snapshot.members == map[]
    requires References(d) == Link("project", Some(v.project))
    ensures Closed(Fold(v.Effective(), [d]), v.project)
  {
    assert v.Effective() == map[];
    FoldOne(v.Effective(), d);
    ProjectOnly(d, v.project);
  }

  lemma FoldOne(base: map<Ref, Object>, d: Object)
    ensures Fold(base, [d]) == base[d.Identity() := d]
  {
    assert [d][..0] == [];
  }

  lemma ProjectOnly(d: Object, project: string)
    requires References(d) == Link("project", Some(project))
    ensures Closed(map[d.Identity() := d], project)
  {
  }

  lemma PairPostClean(v: View, t: Request, d: Object, target: string, red: Reduction)
    requires RecordsAndSwitches(t, d, target) && v.objects == map[] && v.snapshot.members == map[]
    requires d.kind == "decision" && References(d) == Link("project", Some(v.project))
    requires red.revisions == [d] && red.snapshot.None?
    ensures PostCodes(v, t, red) == {}
  {
    DecisionClosed(v, d);
    NoPlanIn(t, d, target);
    OneRevisionPosts(v, t, red, d);
  }

  lemma NoPlanIn(t: Request, d: Object, target: string)
    requires RecordsAndSwitches(t, d, target)
    ensures forall i :: 0 <= i < |t.actions| ==> !t.actions[i].kind.ApplyLineagePlan?
  {
  }

  lemma OneRevisionPosts(v: View, t: Request, red: Reduction, d: Object)
    requires Closed(Fold(v.Effective(), [d]), v.project) && v.objects == map[] && d.kind != "evidence"
    requires red.revisions == [d] && red.snapshot.None?
    requires forall i :: 0 <= i < |t.actions| ==> !t.actions[i].kind.ApplyLineagePlan?
    ensures PostCodes(v, t, red) == {}
  {
  }

  lemma SwitchPrepares(r: Repo, v: View, q: DecisionRequest, target: string, actor: Actor, at: string,
                       t: Request, d: Object)
    returns (red: Reduction)
    requires SwitchGate(v, q, target) && FreshIds(v, q) && v.objects == map[] && v.snapshot.members == map[]
    requires LoadView(r, v.project, v.lineage) == Some(v) && actor.actorType == "human" && t.key !in r.commits
    requires Approval(q, actor, at) == Some(t) && SwitchDecision(q, target, d) && RecordsAndSwitches(t, d, target)
    requires t.project == q.project && t.lineage == q.lineage && t.head == q.snapshot && t.config == q.config
    requires t.profile == q.profile && t.actor == actor && t.digest == t.CalculatedDigest()
    ensures Prepare(r, LENIENT, t) == Ready(BundleOf(v, t, red))
    ensures red.revisions == [d] && red.decisions == [d] && red.snapshot.None? && red.moved.None? && red.child.None?
    ensures red.activate == Some(target) && red.audit == AuditEvent(t)
  {
    ApprovalDecisionsComplete(v, q, actor, at);
    red := PairPrepares(r, v, t, d, target);
  }

  lemma PairPrepares(r: Repo, v: View, t: Request, d: Object, target: string) returns (red: Reduction)
    requires v.objects == map[] && v.snapshot.members == map[] && target in v.lineages && v.lineage in v.lineages
    requires LoadView(r, v.project, v.lineage) == Some(v) && t.key !in r.commits && RecordsAndSwitches(t, d, target)
    requires d.kind == "decision" && d.revision == 0 && d.Text("project_id") == Some(v.project)
    requires d.Refs("subjects") == [Ref("research_lineage", target)] && HumanDecisionCodes(v, t) == {}
    requires t.project == v.project && t.lineage == v.lineage && t.head == v.Head() && t.config == v.config
    requires t.profile == v.profile && t.actor.actorType == "human" && t.digest == t.CalculatedDigest()
    ensures Prepare(r, LENIENT, t) == Ready(BundleOf(v, t, red))
    ensures red.revisions == [d] && red.decisions == [d] && red.snapshot.None? && red.moved.None? && red.child.None?
    ensures red.activate == Some(target) && red.audit == AuditEvent(t)
  {
    PairSchemaClean(t, d, target);
    PairLineageClean(v, t, d, target);
    assert v.Latest(d.kind, d.id).None?;
    red := PairReduces(v, t, d, target);
    DecisionRefers(d, v.project, target);
    PairPostClean(v, t, d, target, red);
    PreEmpty(v, t);
    ReadyWhenClean(r, LENIENT, t, v, red);
  }

  lemma PreEmpty(v: View, t: Request)
    requires SchemaCodes(t) == {} && HumanDecisionCodes(v, t) == {} && LineageCodes(v, t) == {}
    requires t.project == v.project && t.lineage == v.lineage && t.head == v.Head()
    requires t.config == v.config && t.profile == v.profile && t.actor.actorType == "human"
    ensures PreCodes(v, t) == {}
  {
  }

  lemma SwitchStores(r: Repo, b: Bundle, d: Object, target: string, expected: Digest)
    requires b.key !in r.commits && b.lineage in r.lineages && !HeadStale(r, b, expected)
    requires b.reduction.revisions == [d] && b.reduction.decisions == [d] && b.reduction.snapshot.None?
    requires b.reduction.moved.None? && b.reduction.child.None? && b.reduction.activate == Some(target)
    requires target in r.lineages && d.Slot() !in r.objects && d.id !in r.decisions && b.reduction.audit.id !in r.audits
    ensures Stores(r, b, expected)
  {
    assert [d][1..] == [];
    assert StageObjects(r.objects, [d]) == Some(r.objects[d.Slot() := d]);
    assert StageDecisions(r.decisions, [d]) == Some(r.decisions[d.id := d]);
  }

  /** The approval of a gated switch commits on any repository that holds no objects yet. */
  lemma GatedSwitchCommits(r: Repo, v: View, q: DecisionRequest, target: string, actor: Actor, at: string)
    returns (t: Request)
    requires SwitchGate(v, q, target) && FreshIds(v, q) && v.objects == map[] && v.snapshot.members == map[]
    requires LoadView(r, v.project, v.lineage) == Some(v) && actor.actorType == "human"
    requires r.lineages[v.lineage].head == v.Head() && r.commits == map[] && r.audits == map[]
    requires DecisionId(q.id, SWITCH_GROUP) !in r.decisions
    ensures Approval(q, actor, at) == Some(t) && Apply(r, LENIENT, t).1.Committed?
  {
    var d: Object;
    t, d := ApprovalForm(v, q, target, actor, at);
    var red := SwitchPrepares(r, v, q, target, actor, at, t, d);
    ViewOfBase(r, v.project, v.lineage);
    SwitchStores(r, BundleOf(v, t, red), d, target, t.head.digest);
    StoresIsPersist(r, BundleOf(v, t, red), t.head.digest);
  }

  // ---------------------------------------------------------------- the world

  const CANDIDATE := Candidate("C", "P", "L", Pin("S", Named("root")), [Switching("L")])

  function SwitchRequestOf(v: View): DecisionRequest { RequestFor(v, CANDIDATE, "h", "R") }

  function Approving(q: DecisionRequest): Response { Response("A", q, ApproveExact, Actor("h", "human"), "now") }

  function Waiting(q: DecisionRequest): World { World(map[q.id := Entry(q, Status.Pending, None, None)], SEED, Idle) }

  lemma IdIsLong(request: string, g: Ref)
    ensures |DecisionId(request, g)| >= 4
  {
    assert DecisionId(request, g) == "DEC-" + Joined([request, g.kind, g.id]);
  }

  lemma SwitchIsGated(v: View, q: DecisionRequest)
    requires LoadView(SEED, "P", "L") == Some(v) && q == SwitchRequestOf(v)
    ensures SwitchGate(v, q, "L") && FreshIds(v, q) && v.objects == map[] && v.snapshot.members == map[]
    ensures SEED.lineages["L"].head == v.Head() && DecisionId(q.id, SWITCH_GROUP) !in SEED.decisions
    ensures SEED.commits == map[] && SEED.audits == map[] && v.project == "P" && v.lineage == "L"
  {
    assert SEED.decisions.Keys == {"D"};
    IdIsLong(q.id, SWITCH_GROUP);
    SwitchIsHonest(v, "L");
    SwitchRecordsNothing(v, q, "L");
  }

  lemma SwitchIsHonest(v: View, target: string)
    ensures AllHonest(v, [Switching(target)])
  {
    assert Honest(v, Switching(target));
  }

  lemma SwitchRecordsNothing(v: View, q: DecisionRequest, target: string)
    requires v.used == {} && q.actions == [Switching(target)]
    ensures FreshIds(v, q)
  {
  }

  lemma WaitingIsFresh(q: DecisionRequest, target: string)
    requires q.actions == [Switching(target)]
    ensures Fresh(Waiting(q)) && Sound(Waiting(q), LENIENT)
  {
    SeedWellFormed();
    CourseSound(Waiting(q), LENIENT, []);
  }

  /** The source documents are missing when the response arrives. Closed by its next store call
      the request is never committed; stopped before it, a retry commits. */
  lemma StalenessForgotten() returns (v: View)
    ensures LoadView(SEED, "P", "L") == Some(v)
    ensures var q := SwitchRequestOf(v);
            var w := Waiting(q);
            var closing := After(After(w, LENIENT, Open(Approving(q), false)), LENIENT, Call(false));
            && Fresh(w) && closing.phase == Closing(Approving(q), Stale, None)
            && NeverCommits(After(closing, LENIENT, Call(false)), LENIENT, q.id)
            && !NeverCommits(After(closing, LENIENT, Crash), LENIENT, q.id)
  {
    v := LoadView(SEED, "P", "L").value;
    var q := SwitchRequestOf(v);
    var response, w := Approving(q), Waiting(q);
    WaitingIsFresh(q, "L");
    SwitchIsGated(v, q);
    OpensStaleExactly(w.desk, w.repo, response, false);
    StaleClaimed(w, LENIENT, response, false, false);
    var closing := After(After(w, LENIENT, Open(response, false)), LENIENT, Call(false));
    StaleNeverCommitsExactly(closing, LENIENT, response, Call(false));
    var t := GatedSwitchCommits(SEED, v, q, "L", response.actor, response.at);
    StoppedIsRetried(closing, response, t);
  }

  lemma StoppedIsRetried(closing: World, response: Response, t: Request)
    requires Sound(closing, LENIENT) && closing.phase == Closing(response, Stale, None)
    requires response.disposition.ApproveExact? && Approval(response.request, response.actor, response.at) == Some(t)
    requires Apply(closing.repo, LENIENT, t).1.Committed?
    ensures !NeverCommits(After(closing, LENIENT, Crash), LENIENT, response.request.id)
  {
    assert AcceptedAt(closing, LENIENT, response);
    StoppedThenRetried(closing, LENIENT, response);
  }
}
