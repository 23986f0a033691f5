/** Decisions are consumed once, idempotency keys commit once, and an accepted request can be
    replayed at any later time. Single use needs `apply` to run without another commit in
    between; the last section shows by an example that interleaving loses it. */
module SingleUse {
  import opened Common
  import opened Records
  import opened Authority
  import opened Reducer
  import opened ReducerFacts
  import opened StateValidation
  import opened Repository
  import opened Service
  import opened CommitFacts
  import opened ApplyOutcomes
  import opened History

  /** Requests applied one after the other. */
  function ApplyAll(seed: Repo, p: Policy, reqs: seq<Request>): Repo {
    if reqs == [] then seed else Apply(ApplyAll(seed, p, reqs[..|reqs| - 1]), p, reqs[|reqs| - 1]).0
  }

  ghost predicate Shares(a: Receipt, b: Receipt) {
    exists ref :: ref in a.resolving && ref in b.resolving
  }

  /** No Decision resolves two commits, and every resolving Decision counts as used. */
  ghost predicate UsedOnce(r: Repo) {
    && (forall k, j :: k in r.commits && j in r.commits && k != j ==>
        !Shares(r.commits[k].receipt, r.commits[j].receipt))
    && (forall k, ref :: k in r.commits && ref in r.commits[k].receipt.resolving ==> ref in r.used)
  }

  lemma FreshDecisions(v: View, req: Request, red: Reduction, ref: string)
    requires HumanDecisionCodes(v, req) == {} && Reduce(v, req) == Some(red) && ref in red.used
    ensures ref !in v.used
  {
    ReducedUsed(v, req, red);
    var a :| a in req.actions && Required(v, a) != [] && ref in a.decisionRefs;
    var i :| 0 <= i < |req.actions| && req.actions[i] == a;
    var j :| 0 <= j < |a.decisionRefs| && a.decisionRefs[j] == ref;
    ReferenceClean(v, req, i, j);
  }

  lemma ReducedUsed(v: View, req: Request, red: Reduction)
    requires Reduce(v, req) == Some(red)
    ensures red.used == Resolving(v, req.actions)
  {
    if HasPlan(req.actions) { var i := PlanAction(v, req, red); }
  }

  /** With no Decision issue, every cited Decision resolves, is human-owned and unused. */
  lemma ReferenceClean(v: View, req: Request, i: nat, j: nat)
    requires HumanDecisionCodes(v, req) == {} && i < |req.actions| && j < |req.actions[i].decisionRefs|
    ensures var ref, pool := req.actions[i].decisionRefs[j], Pool(v.decisions, req.actions);
            ref in pool && ref !in v.used && pool[ref].Says("actor_type", "human")
  {
    var a, pool := req.actions[i], Pool(v.decisions, req.actions);
    var ref := a.decisionRefs[j];
    forall c | c in ReferenceCodes(pool, v, a, ref) ensures c in HumanDecisionCodes(v, req) {
      assert c in ReferencesCodes(pool, v, a, a.decisionRefs);
      assert c in ActionDecisionCodes(pool, v, req.project, a);
    }
    assert "RT-DECISION-002" !in ReferenceCodes(pool, v, a, ref);
    assert "RT-DECISION-005" !in ReferenceCodes(pool, v, a, ref);
    assert "RT-DECISION-003" !in ReferenceCodes(pool, v, a, ref);
  }

  lemma PreClean(v: View, req: Request)
    requires PreCodes(v, req) == {}
    ensures HumanDecisionCodes(v, req) == {} && LineageCodes(v, req) == {} && SchemaCodes(req) == {}
    ensures req.head == v.Head() && req.project == v.project && req.lineage == v.lineage
  {
    assert HumanDecisionCodes(v, req) <= PreCodes(v, req);
    assert LineageCodes(v, req) <= PreCodes(v, req);
    assert SchemaCodes(req) <= PreCodes(v, req);
    assert PinCodes(v, req) <= PreCodes(v, req);
    assert "RT-HEAD-001" !in PinCodes(v, req) && "RT-PIN-004" !in PinCodes(v, req);
  }

  /** Exactly when a stored bundle keeps single use: it resolves nothing an earlier commit resolved. */
  lemma StoreUsedOnce(r: Repo, b: Bundle)
    requires UsedOnce(r) && b.key !in r.commits && Staged(r, b).Some?
    requires b.receipt.resolving == b.reduction.used
    ensures UsedOnce(Staged(r, b).value) <==> forall k :: k in r.commits ==> !Shares(b.receipt, r.commits[k].receipt)
  {
    var next := Staged(r, b).value;
    assert next.commits == r.commits[b.key := CommitRecord(b.digest, b.receipt)];
    if UsedOnce(next) {
      forall k | k in r.commits ensures !Shares(b.receipt, r.commits[k].receipt) {
        assert next.commits[k] == r.commits[k] && next.commits[b.key].receipt == b.receipt;
      }
    }
  }

  lemma ApplyUsedOnce(r: Repo, p: Policy, req: Request)
    requires UsedOnce(r)
    ensures UsedOnce(Apply(r, p, req).0)
  {
    var way := ApplyGoes(r, p, req);
    if way.Anew? { AcceptedUsedOnce(r, req, way.view, way.reduction); }
  }

  lemma AcceptedUsedOnce(r: Repo, req: Request, v: View, red: Reduction)
    requires UsedOnce(r) && Accepted(r, v, req, red) && req.key !in r.commits && Staged(r, BundleOf(v, req, red)).Some?
    ensures UsedOnce(Staged(r, BundleOf(v, req, red)).value)
  {
    PreClean(v, req);
    ViewOfBase(r, req.project, req.lineage);
    forall ref | ref in red.used ensures ref !in r.used { FreshDecisions(v, req, red, ref); }
    StoreUsedOnce(r, BundleOf(v, req, red));
  }

  /** Single use over every sequence of applied requests. */
  lemma {:induction false} DecisionsUsedOnce(seed: Repo, p: Policy, reqs: seq<Request>)
    requires UsedOnce(seed)
    ensures UsedOnce(ApplyAll(seed, p, reqs))
  {
    if reqs != [] {
      DecisionsUsedOnce(seed, p, reqs[..|reqs| - 1]);
      ApplyUsedOnce(ApplyAll(seed, p, reqs[..|reqs| - 1]), p, reqs[|reqs| - 1]);
    }
  }

  // ---------------------------------------------------------------- replay

  lemma StepKeepsCommits(s: System, p: Policy, e: Event)
    ensures Extends(s.repo.commits, Step(s, p, e).repo.commits)
  {
    if e.Finish? && e.slot in s.pending && !e.fails {
      var one := s.pending[e.slot];
      if Persists(s, p, one) { var v, red, b := StoredBundle(s, p, one); } else { NotStored(s, p, one); }
    }
  }

  /** No commit record is ever replaced, in any interleaving and for any requests. */
  lemma {:induction false} CommitsPermanent(seed: Repo, p: Policy, events: seq<Event>, n: nat)
    requires n <= |events|
    ensures Extends(Run(seed, p, events[..n]).repo.commits, Run(seed, p, events).repo.commits)
  {
    if n == |events| {
      assert events[..n] == events;
    } else {
      var front := events[..|events| - 1];
      CommitsPermanent(seed, p, front, n);
      StepKeepsCommits(Run(seed, p, front), p, events[|events| - 1]);
      assert front[..n] == events[..n];
    }
  }

  /** An applied request that was accepted leaves its receipt under its key. */
  lemma AcceptedIsRecorded(r: Repo, p: Policy, req: Request)
    requires Apply(r, p, req).1.Committed?
    ensures var (next, outcome) := Apply(r, p, req);
            req.key in next.commits && next.commits[req.key] == CommitRecord(req.digest, outcome.receipt)
    ensures req.digest == req.CalculatedDigest() && p.schema(req) == {}
  {
    var way := ApplyGoes(r, p, req);
  }

  /** Replay: once a request has been accepted, applying it again after any further events
      answers with its first receipt and changes nothing. */
  lemma ReplayIsIdempotent(seed: Repo, p: Policy, events: seq<Event>, n: nat, before: Repo, req: Request)
    requires n <= |events|
    requires Apply(before, p, req).1.Committed? && Run(seed, p, events[..n]).repo == Apply(before, p, req).0
    ensures var late := Run(seed, p, events).repo;
            Apply(late, p, req) == (late, Apply(before, p, req).1)
  {
    AcceptedIsRecorded(before, p, req);
    CommitsPermanent(seed, p, events, n);
  }

  /** Only the very request that was committed gets its receipt: any other request under the
      same key is refused and changes nothing. */
  lemma KeyIsBound(r: Repo, p: Policy, req: Request, first: Request, receipt: Receipt)
    requires first.digest == first.CalculatedDigest()
    requires req.key in r.commits && r.commits[req.key] == CommitRecord(first.digest, receipt)
    ensures Apply(r, p, req).0 == r
    ensures Apply(r, p, req).1 == Committed(receipt) <==> req == first && p.schema(req) == {}
  {
  }

  // ---------------------------------------------------------------- interleaving loses single use

  const DECISION := Object("decision", "D", 0,
    map["project_id" := "P", "actor_type" := "human", "decision_kind" := "active_lineage_selection",
        "choice" := "switch"],
    map[], map["subjects" := [Ref("research_lineage", "L")]], map[], Unsealed)

  const ROOT := Object("snapshot", "S", 0, map[], map[], map[], map[], Named("root"))

  const SEED := Repo("P", Pin("C", Named("c")), Pin("E", Named("e")), map[], map["S" := ROOT], map["D" := DECISION],
                     map["L" := Lineage("L", "main", Pin("S", Named("root")), None, None),
                         "K" := Lineage("K", "side", Pin("S", Named("root")), None, None)],
                     "L", {}, {}, map[], map[])

  const SWITCH := Action(SwitchActiveLineage, None, None, None, "L", [], ["D"])

  function SwitchRequest(name: string): Request {
    Request(name, "P", "L", Pin("S", Named("root")), Actor("h", "human"), [SWITCH], Pin("C", Named("c")),
            Pin("E", Named("e")), [], name, "now", name, name, name, Unsealed).WithCalculatedDigest()
  }

  const LENIENT := Policy((req: Request) => {}, (v: View, req: Request) => {},
      (v: View, req: Request, red: Reduction) => {})

  function SwitchReduction(req: Request): Reduction {
    Reduction([], [], None, None, None, Some("L"), [], ["D"], AuditEvent(req))
  }

  lemma SwitchRequired(v: View)
    ensures Required(v, SWITCH) == [Requirement("active_lineage_selection", "switch", Ref("research_lineage", "L"))]
  {
    var one := [Requirement("active_lineage_selection", "switch", Ref("research_lineage", "L"))];
    assert one[..0] == [];
    assert Distinct(one) == one;
  }

  lemma SwitchPool(v: View)
    requires v.decisions == map["D" := DECISION]
    ensures "D" in Pool(v.decisions, [SWITCH]) && Pool(v.decisions, [SWITCH])["D"] == DECISION
  {
    assert [SWITCH][..0] == [];
  }

  lemma OneAnswerClean(pool: map<string, Object>, v: View, project: string, a: Action, q: Requirement, ref: string)
    requires Required(v, a) == [q] && a.decisionRefs == [ref]
    requires Answers(pool, v, project, a, q, ref) && ReferenceCodes(pool, v, a, ref) == {}
    ensures ActionDecisionCodes(pool, v, project, a) == {}
  {
    assert Answers(pool, v, project, a, q, a.decisionRefs[0]);
    CleanByParts(pool, v, project, a);
  }

  lemma OneActionClean(v: View, req: Request, a: Action)
    requires req.actions == [a] && ActionDecisionCodes(Pool(v.decisions, [a]), v, req.project, a) == {}
    ensures HumanDecisionCodes(v, req) == {}
  {
  }

  lemma SwitchDecisionClean(v: View, req: Request)
    requires req.actions == [SWITCH] && v.decisions == map["D" := DECISION] && v.used == {} && req.project == "P"
    ensures HumanDecisionCodes(v, req) == {}
  {
    SwitchPool(v);
    SwitchRequired(v);
    var pool, q := Pool(v.decisions, [SWITCH]),
        Requirement("active_lineage_selection", "switch", Ref("research_lineage", "L"));
    SwitchAnswered(pool, v, q);
    OneAnswerClean(pool, v, "P", SWITCH, q, "D");
    OneActionClean(v, req, SWITCH);
  }

  lemma SwitchAnswered(pool: map<string, Object>, v: View, q: Requirement)
    requires "D" in pool && pool["D"] == DECISION && v.used == {}
    requires q == Requirement("active_lineage_selection", "switch", Ref("research_lineage", "L"))
    ensures Answers(pool, v, "P", SWITCH, q, "D") && ReferenceCodes(pool, v, SWITCH, "D") == {}
  {
  }

  lemma SwitchReduced(v: View, req: Request)
    requires req.actions == [SWITCH]
    ensures Reduce(v, req) == Some(SwitchReduction(req))
  {
    SwitchRequired(v);
    OneSwitch(SWITCH);
    OneResolving(v, SWITCH, "D");
    SwitchReduces(v, req, SWITCH, ["D"]);
  }

  lemma OneSwitch(a: Action)
    requires a.kind.SwitchActiveLineage?
    ensures Semantic([a]) == [a] && DecisionsOf([a]) == [] && HasSwitch([a]) && !HasPlan([a])
  {
    assert [a][1..] == [] && [a][..0] == [] && [a][0] == a;
  }

  lemma OneResolving(v: View, a: Action, ref: string)
    requires Required(v, a) != [] && a.decisionRefs == [ref]
    ensures Resolving(v, [a]) == [ref]
  {
    ResolvingOne(v, a, ResolvingRefs(v, [a][1..]));
    DistinctOne(ref);
  }

  lemma ResolvingOne(v: View, a: Action, rest: seq<string>)
    requires Required(v, a) != [] && rest == ResolvingRefs(v, [a][1..])
    ensures ResolvingRefs(v, [a]) == a.decisionRefs
  {
    assert [a][0] == a && [a][1..] == [];
    assert rest == [];
  }

  lemma SwitchReduces(v: View, req: Request, a: Action, refs: seq<string>)
    requires req.actions == [a] && a.kind.SwitchActiveLineage? && a.switchTarget != ""
    requires Semantic([a]) == [a] && DecisionsOf([a]) == [] && HasSwitch([a]) && !HasPlan([a])
             && Resolving(v, [a]) == refs
    ensures Reduce(v, req) == Some(Reduction([], [], None, None, None, Some(a.switchTarget), [], refs, AuditEvent(req)))
  {
  }

  const SEED_VIEW := View("P", "L", ROOT, map[], map["D" := DECISION], {}, SEED.lineages, SEED.config, SEED.profile)

  lemma SwitchPreClean(req: Request)
    requires req.actions == [SWITCH] && req.project == "P" && req.lineage == "L" && req.head == SEED_VIEW.Head()
    requires req.config == SEED.config && req.profile == SEED.profile && req.actor == Actor("h", "human")
    ensures PreCodes(SEED_VIEW, req) == {}
  {
    SwitchDecisionClean(SEED_VIEW, req);
    assert ActionSchemaCodes(SWITCH) == {} && ActionLineageCodes(SEED_VIEW, req, SWITCH) == {};
    assert SchemaCodes(req) == {};
    assert PinCodes(SEED_VIEW, req) == {} && AuthorizationCodes(req) == {};
    assert LineageCodes(SEED_VIEW, req) == {};
  }

  lemma NothingRevisedClean(v: View, req: Request, red: Reduction)
    requires v.Effective() == map[] && red.revisions == [] && red.snapshot.None?
    requires forall i :: 0 <= i < |req.actions| ==> !req.actions[i].kind.ApplyLineagePlan?
    ensures PostCodes(v, req, red) == {}
  {
    assert Fold(v.Effective(), red.revisions) == map[];
  }

  lemma SwitchPostClean(req: Request)
    requires req.actions == [SWITCH]
    ensures PostCodes(SEED_VIEW, req, SwitchReduction(req)) == {}
  {
    assert SEED_VIEW.Effective() == map[];
    NothingRevisedClean(SEED_VIEW, req, SwitchReduction(req));
  }

  function SwitchBundle(name: string): Bundle {
    BundleOf(SEED_VIEW, SwitchRequest(name), SwitchReduction(SwitchRequest(name)))
  }

  lemma ReadyWhenClean(r: Repo, p: Policy, req: Request, v: View, red: Reduction)
    requires req.digest == req.CalculatedDigest() && p.schema(req) == {} && req.key !in r.commits
    requires Accepted(r, v, req, red) && p.guards(v, req) == {} && p.rules(v, req, red) == {}
    ensures Prepare(r, p, req) == Ready(BundleOf(v, req, red))
  {
  }

  lemma SwitchPrepared(name: string)
    ensures Prepare(SEED, LENIENT, SwitchRequest(name)) == Ready(SwitchBundle(name))
  {
    var req := SwitchRequest(name);
    SwitchPreClean(req);
    SwitchReduced(SEED_VIEW, req);
    SwitchPostClean(req);
    assert LoadView(SEED, req.project, req.lineage) == Some(SEED_VIEW);
    ReadyWhenClean(SEED, LENIENT, req, SEED_VIEW, SwitchReduction(req));
  }

  lemma SwitchStored(r: Repo, name: string)
    requires name !in r.commits && name !in r.audits && "L" in r.lineages && r.lineages["L"] == SEED.lineages["L"]
    ensures Stores(r, SwitchBundle(name), Named("root"))
    ensures var next := Staged(r, SwitchBundle(name)).value;
            next.lineages == r.lineages && next.objects == r.objects[AuditEvent(SwitchRequest(name)).Slot()
                                                                     := AuditEvent(SwitchRequest(name))]
            && next.audits.Keys == r.audits.Keys + {name}
            && next.commits == r.commits[name := CommitRecord(SwitchRequest(name).digest, SwitchBundle(name).receipt)]
  {
  }

  lemma SwitchFinished(s: System, slot: nat, name: string)
    requires slot in s.pending && s.pending[slot] == Pending(SEED, SwitchRequest(name))
    requires name !in s.repo.commits && name !in s.repo.audits
    requires "L" in s.repo.lineages && s.repo.lineages["L"] == SEED.lineages["L"]
    ensures var next := Step(s, LENIENT, Event.Finish(slot, false));
            next.pending == s.pending - {slot} && next.repo.lineages == s.repo.lineages
            && next.repo.objects
               == s.repo.objects[AuditEvent(SwitchRequest(name)).Slot() := AuditEvent(SwitchRequest(name))]
            && next.repo.audits.Keys == s.repo.audits.Keys + {name}
            && next.repo.commits == s.repo.commits[name := CommitRecord(SwitchRequest(name).digest,
                SwitchBundle(name).receipt)]
  {
    SwitchPrepared(name);
    SwitchStored(s.repo, name);
    StoresIsPersist(s.repo, SwitchBundle(name), Named("root"));
  }

  lemma RunFour(seed: Repo, p: Policy, a: Event, b: Event, c: Event, d: Event)
    ensures Run(seed, p, [a, b, c, d])
         == Step(Step(Step(Step(System(seed, map[], []), p, a), p, b), p, c), p, d)
  {
    var all := [a, b, c, d];
    assert all[..3] == [a, b, c] && [a, b, c][..2] == [a, b] && [a, b][..1] == [a] && [a][..0] == [];
    assert Run(seed, p, [a]) == Step(System(seed, map[], []), p, a);
    assert Run(seed, p, [a, b]) == Step(Run(seed, p, [a]), p, b);
    assert Run(seed, p, [a, b, c]) == Step(Run(seed, p, [a, b]), p, c);
    assert Run(seed, p, all) == Step(Run(seed, p, [a, b, c]), p, d);
  }

  const RACE := [Load(1, SwitchRequest("1")), Load(2, SwitchRequest("2")), Event.Finish(1, false),
      Event.Finish(2, false)]

  lemma RaceEnds()
    ensures var end := Run(SEED, LENIENT, RACE).repo;
            "1" in end.commits && "2" in end.commits
            && end.commits["1"].receipt.resolving == ["D"] && end.commits["2"].receipt.resolving == ["D"]
  {
    RunFour(SEED, LENIENT, RACE[0], RACE[1], RACE[2], RACE[3]);
    var s2 := Step(Step(System(SEED, map[], []), LENIENT, RACE[0]), LENIENT, RACE[1]);
    assert s2.repo == SEED;
    assert s2.pending == map[1 := Pending(SEED, SwitchRequest("1")), 2 := Pending(SEED, SwitchRequest("2"))];
    SwitchFinished(s2, 1, "1");
    SwitchFinished(Step(s2, LENIENT, RACE[2]), 2, "2");
  }

  lemma UsedTwice(r: Repo, k: string, j: string, ref: string)
    requires k in r.commits && j in r.commits && k != j
    requires ref in r.commits[k].receipt.resolving && ref in r.commits[j].receipt.resolving
    ensures !UsedOnce(r)
  {
    assert Shares(r.commits[k].receipt, r.commits[j].receipt);
  }

  lemma SeedWellFormed()
    ensures WellFormed(SEED)
  {
  }

  lemma CleanSwitches(events: seq<Event>, one: string, two: string)
    requires forall i :: 0 <= i < |events| && events[i].Load? ==>
               events[i].req in {SwitchRequest(one), SwitchRequest(two)}
    ensures CleanEvents(events)
  {
    assert CleanAction(SWITCH);
  }

  /** Two requests loaded before either commits can both consume the same Decision: the
      commit compares the lineage head, and switching the active lineage moves no head. */
  lemma InterleavingReusesDecision()
    ensures WellFormed(SEED) && CleanEvents(RACE) && UsedOnce(SEED) && !UsedOnce(Run(SEED, LENIENT, RACE).repo)
  {
    SeedWellFormed();
    CleanSwitches(RACE, "1", "2");
    assert SEED.commits == map[];
    RaceEnds();
    UsedTwice(Run(SEED, LENIENT, RACE).repo, "1", "2", "D");
  }
}
