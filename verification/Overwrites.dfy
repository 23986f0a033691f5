/** When stored revisions survive: exactly when no commit writes its snapshot or its audit event
    over something else, and a run in which one does. */
module Overwrites {
  import opened Common
  import opened Records
  import opened Authority
  import opened Reducer
  import opened StateValidation
  import opened Repository
  import opened Service
  import opened CommitFacts
  import opened History
  import opened SingleUse

  predicate SlotFree(objects: map<Key, Object>, o: Object) {
    o.Slot() in objects ==> objects[o.Slot()] == o
  }

  /** The check `commit` does not make: the two objects it adds itself replace nothing. */
  predicate ReservedFree(r: Repo, red: Reduction) {
    SlotFree(r.objects, red.audit)
    && (red.snapshot.Some? && red.snapshot.value.Slot() != red.audit.Slot() ==> SlotFree(r.objects, red.snapshot.value))
  }

  ghost predicate StepFree(s: System, p: Policy, e: Event) {
    StoresAt(s, p, e) ==>
      var one := s.pending[e.slot];
      ReservedFree(s.repo, Prepare(one.base, p, one.req).bundle.reduction)
  }

  lemma StoreKeepsRevisions(r: Repo, b: Bundle)
    requires Staged(r, b).Some?
    ensures Extends(r.objects, Staged(r, b).value.objects) <==> ReservedFree(r, b.reduction)
  {
    KeepsRevisions(r, b);
  }

  /** One step keeps every stored revision exactly when it writes over none. */
  lemma StepKeepsRevisions(s: System, p: Policy, e: Event)
    ensures Extends(s.repo.objects, Step(s, p, e).repo.objects) <==> StepFree(s, p, e)
  {
    StepRepo(s, p, e);
    if StoresAt(s, p, e) {
      var one := s.pending[e.slot];
      var b := Prepare(one.base, p, one.req).bundle;
      StoresIsPersist(s.repo, b, one.req.head.digest);
      StoreKeepsRevisions(s.repo, b);
    }
  }

  ghost predicate EachKeeps(seed: Repo, p: Policy, events: seq<Event>) {
    events != [] ==>
      var front := events[..|events| - 1];
      EachKeeps(seed, p, front) && Extends(Run(seed, p, front).repo.objects, Run(seed, p, events).repo.objects)
  }

  ghost predicate EachFree(seed: Repo, p: Policy, events: seq<Event>) {
    events != [] ==>
      var front := events[..|events| - 1];
      EachFree(seed, p, front) && StepFree(Run(seed, p, front), p, events[|events| - 1])
  }

  /** Over every run, of any requests and from any seed: no step changes a stored revision if and
      only if no commit writes its snapshot or its audit event over something else. */
  lemma {:induction false} ImmutableExactly(seed: Repo, p: Policy, events: seq<Event>)
    ensures EachKeeps(seed, p, events) <==> EachFree(seed, p, events)
  {
    if events != [] {
      var front := events[..|events| - 1];
      ImmutableExactly(seed, p, front);
      StepKeepsRevisions(Run(seed, p, front), p, events[|events| - 1]);
    }
  }

  // ---------------------------------------------------------------- runs that overwrite

  function Create(o: Object): Action { Action(CreateObject, Some(o), None, None, "", [], []) }

  /** A revision 0 of kind audit_event with the schema version every payload must carry, and
      no reference. */
  predicate Forged(o: Object) {
    && o.kind == "audit_event" && o.revision == 0 && o.text == map["schema_version" := "0.1.0"]
    && o.lists == map[] && o.refs == map[]
  }

  /** A human's request, fit for this view, that creates such an object. */
  predicate Forges(v: View, f: Request, o: Object) {
    && Forged(o) && f.actions == [Create(o)] && f.actor.actorType == "human"
    && f.project == v.project && f.lineage == v.lineage && f.lineage in v.lineages && f.head == v.Head()
    && f.config == v.config && f.profile == v.profile && f.digest == f.CalculatedDigest()
    && f.snapshotId != v.snapshot.id
  }

  /** Nothing is stored but the snapshot and its lineages. */
  predicate Bare(v: View) { v.objects == map[] && v.snapshot.members == map[] }

  lemma CreationAccepted(v: View, o: Object)
    requires Bare(v) && Forged(o)
    ensures Required(v, Create(o)) == [] && ActionAccepted(v, Create(o)) && References(o) == []
  {
    assert v.Latest(o.kind, o.id).None?;
    assert ObjectRequirements(None, o) == [];
  }

  lemma OneCreation(o: Object)
    ensures var actions := [Create(o)];
            ObjectsOf(actions) == [o] && DecisionsOf(actions) == [] && !HasPlan(actions) && !HasSwitch(actions)
  {
    assert [Create(o)][..0] == [];
  }

  lemma OneRevision(base: map<Ref, Object>, o: Object)
    ensures Fold(base, [o]) == base[o.Identity() := o] && StableSorted([o]) == [o]
  {
    assert [o][..0] == [] && [o][1..] == [];
  }

  lemma BuiltSealed(v: View, req: Request, members: map<Ref, Object>, mode: string)
    ensures var s := BuildSnapshot(v, req, members, mode);
            s == Sealed(s.(seal := Unsealed)) && s.members == Rows(members)
            && s.kind == "snapshot" && s.id == req.snapshotId
  {
  }

  /** The reduction of a request that creates one object on a bare view. */
  ghost predicate Creates(v: View, f: Request, o: Object, red: Reduction) {
    && red.revisions == [o] && red.decisions == [] && red.child.None? && red.activate.None?
        && red.audit == AuditEvent(f)
    && red.snapshot.Some? && f.lineage in v.lineages
    && var s := red.snapshot.value;
       && s == Sealed(s.(seal := Unsealed)) && s.members == Rows(map[o.Identity() := o])
       && s.kind == "snapshot" && s.id == f.snapshotId
       && red.moved.Some? && red.moved.value.id == v.lineages[f.lineage].id
  }

  lemma ForgeryReduces(v: View, f: Request, o: Object) returns (red: Reduction)
    requires Bare(v) && Forges(v, f, o)
    ensures Reduce(v, f) == Some(red) && Creates(v, f, o, red)
  {
    CreationAccepted(v, o);
    OneCreation(o);
    OneRevision(map[], o);
    assert v.Effective() == map[];
    red := OrdinaryReduced(v, f, o);
  }

  lemma OrdinaryReduced(v: View, f: Request, o: Object) returns (red: Reduction)
    requires f.actions == [Create(o)] && ActionAccepted(v, Create(o)) && f.lineage in v.lineages
    requires ObjectsOf(f.actions) == [o] && DecisionsOf(f.actions) == [] && !HasPlan(f.actions) && !HasSwitch(f.actions)
    requires StableSorted([o]) == [o] && Fold(v.Effective(), [o]) == map[o.Identity() := o]
    ensures Reduce(v, f) == Some(red) && Creates(v, f, o, red)
  {
    var s := OrdinarySnapshot(v, f);
    BuiltSealed(v, f, map[o.Identity() := o], Mode(v));
    assert OrdinaryAccepted(v, f);
    red := Reduction([o], [], Some(s), Some(v.lineages[f.lineage].(head := Pin(s.id, s.seal))), None, None,
                     Distinct(AdoptionsOf(f.actions)), Resolving(v, f.actions), AuditEvent(f));
  }

  lemma ForgeryPreClean(v: View, f: Request, o: Object)
    requires Bare(v) && Forges(v, f, o)
    ensures PreCodes(v, f) == {}
  {
    var a := Create(o);
    CreationAccepted(v, o);
    assert ActionSchemaCodes(a) == {} && ActionLineageCodes(v, f, a) == {};
    CleanByParts(Pool(v.decisions, [a]), v, f.project, a);
    OneActionClean(v, f, a);
    assert SchemaCodes(f) == {} && PinCodes(v, f) == {} && AuthorizationCodes(f) == {} && LineageCodes(v, f) == {};
  }

  lemma OneObjectResolves(v: View, o: Object, s: Object)
    requires v.objects == map[] && s.members == Rows(map[o.Identity() := o]) && s == Sealed(s.(seal := Unsealed))
    requires s.id != v.snapshot.id
    ensures SnapshotCodes(v, [o], s) == {}
  {
    assert [o][..0] == [];
    assert Overlay(v.objects, [o]) == map[o.Slot() := o];
    assert v.Latest("snapshot", s.id).None?;
  }

  lemma OneObjectClosed(v: View, o: Object)
    requires Bare(v) && References(o) == []
    ensures Closed(Fold(v.Effective(), [o]), v.project)
  {
    assert v.Effective() == map[];
    OneRevision(v.Effective(), o);
  }

  lemma OneObjectClean(v: View, req: Request, red: Reduction, o: Object)
    requires v.objects == map[] && red.revisions == [o] && red.snapshot.Some? && o.kind != "evidence"
    requires Closed(Fold(v.Effective(), [o]), v.project) && SnapshotCodes(v, [o], red.snapshot.value) == {}
    requires forall i :: 0 <= i < |req.actions| ==> !req.actions[i].kind.ApplyLineagePlan?
    ensures PostCodes(v, req, red) == {}
  {
  }

  lemma ForgeryPrepared(r: Repo, v: View, f: Request, o: Object) returns (red: Reduction)
    requires LoadView(r, f.project, f.lineage) == Some(v) && f.key !in r.commits && Bare(v) && Forges(v, f, o)
    ensures Prepare(r, LENIENT, f) == Ready(BundleOf(v, f, red)) && Creates(v, f, o, red)
  {
    red := ForgeryReduces(v, f, o);
    ForgeryPreClean(v, f, o);
    ForgeryPostClean(v, f, o, red);
    ReadyWhenClean(r, LENIENT, f, v, red);
  }

  lemma ForgeryPostClean(v: View, f: Request, o: Object, red: Reduction)
    requires Bare(v) && Forges(v, f, o) && Creates(v, f, o, red)
    ensures PostCodes(v, f, red) == {}
  {
    CreationAccepted(v, o);
    OneObjectResolves(v, o, red.snapshot.value);
    OneObjectClosed(v, o);
    OneObjectClean(v, f, red, o);
  }

  lemma OneStaged(store: map<Key, Object>, o: Object)
    requires o.Slot() !in store
    ensures StageObjects(store, [o]) == Some(store[o.Slot() := o])
  {
    assert [o][1..] == [];
  }

  /** The commit of such a request on a repository where everything it names is new. */
  lemma CreationStored(r: Repo, v: View, f: Request, o: Object, red: Reduction)
    requires LoadView(r, f.project, f.lineage) == Some(v) && Keyed(r) && Bare(v) && Forges(v, f, o)
    requires Creates(v, f, o, red) && r.lineages[f.lineage].head == v.Head()
    requires f.key !in r.commits && f.snapshotId !in r.snapshots && f.auditId !in r.audits && f.auditId != o.id
    ensures Stores(r, BundleOf(v, f, red), f.head.digest)
    ensures var next := Staged(r, BundleOf(v, f, red)).value;
            && o.Slot() in next.objects && next.objects[o.Slot()] == o
            && next.lineages == r.lineages[f.lineage := red.moved.value]
            && next.commits.Keys == r.commits.Keys + {f.key} && next.audits.Keys == r.audits.Keys + {f.auditId}
  {
    ViewOfBase(r, f.project, f.lineage);
    OneStaged(r.objects, o);
    CreationStaged(r, BundleOf(v, f, red), o, f.lineage);
  }

  lemma CreationStaged(r: Repo, b: Bundle, o: Object, line: string)
    requires b.reduction.revisions == [o] && b.reduction.decisions == [] && b.reduction.child.None?
    requires b.reduction.activate.None? && b.reduction.audit.id !in r.audits
    requires b.reduction.snapshot.Some? && b.reduction.snapshot.value.id !in r.snapshots
    requires b.reduction.moved.Some? && b.reduction.moved.value.id == line && line in r.lineages
    requires StageObjects(r.objects, [o]) == Some(r.objects[o.Slot() := o])
    requires o.Slot() != b.reduction.audit.Slot() && o.Slot() != b.reduction.snapshot.value.Slot()
    ensures Staged(r, b).Some?
    ensures var next := Staged(r, b).value;
            && o.Slot() in next.objects && next.objects[o.Slot()] == o
            && next.lineages == r.lineages[line := b.reduction.moved.value]
            && next.commits.Keys == r.commits.Keys + {b.key}
                && next.audits.Keys == r.audits.Keys + {b.reduction.audit.id}
  {
  }

  lemma LastOfFour(seed: Repo, p: Policy, a: Event, b: Event, c: Event, d: Event)
    ensures Run(seed, p, [a, b, c, d]) == Step(Run(seed, p, [a, b, c]), p, d)
    ensures Run(seed, p, [a, b, c]) == Step(Step(Step(System(seed, map[], []), p, a), p, b), p, c)
  {
    assert [a, b, c, d][..3] == [a, b, c] && [a, b, c][..2] == [a, b] && [a, b][..1] == [a] && [a][..0] == [];
    assert Run(seed, p, [a]) == Step(System(seed, map[], []), p, a);
    assert Run(seed, p, [a, b]) == Step(Run(seed, p, [a]), p, b);
    assert Run(seed, p, [a, b, c]) == Step(Run(seed, p, [a, b]), p, c);
  }

  lemma StoredNext(s: System, p: Policy, slot: nat, one: Pending, b: Bundle)
    requires slot in s.pending && s.pending[slot] == one && Prepare(one.base, p, one.req) == Ready(b)
    requires Stores(s.repo, b, one.req.head.digest)
    ensures var next := Step(s, p, Event.Finish(slot, false));
            next.repo == Staged(s.repo, b).value && next.pending == s.pending - {slot}
  {
    StoresIsPersist(s.repo, b, one.req.head.digest);
  }

  /** The step that stores such a request on a repository that holds nothing else. */
  lemma ForgeryFinished(s: System, slot: nat, v: View, f: Request, o: Object)
    requires slot in s.pending && s.pending[slot] == Pending(s.repo, f) && Keyed(s.repo)
    requires LoadView(s.repo, f.project, f.lineage) == Some(v) && Bare(v) && Forges(v, f, o)
    requires s.repo.lineages[f.lineage].head == v.Head() && f.auditId != o.id
    requires f.key !in s.repo.commits && f.snapshotId !in s.repo.snapshots && f.auditId !in s.repo.audits
    ensures var next := Step(s, LENIENT, Event.Finish(slot, false));
            && next.pending == s.pending - {slot}
            && o.Slot() in next.repo.objects && next.repo.objects[o.Slot()] == o
            && next.repo.commits.Keys == s.repo.commits.Keys + {f.key}
            && next.repo.audits.Keys == s.repo.audits.Keys + {f.auditId}
            && (forall l :: l in s.repo.lineages && l != f.lineage ==>
                  l in next.repo.lineages && next.repo.lineages[l] == s.repo.lineages[l])
  {
    var red := ForgeryPrepared(s.repo, v, f, o);
    CreationStored(s.repo, v, f, o, red);
    StoredNext(s, LENIENT, slot, Pending(s.repo, f), BundleOf(v, f, red));
  }

  lemma ForgeryThen(seed: Repo, f: Request, o: Object, v: View, g: Request) returns (before: System)
    requires LoadView(seed, f.project, f.lineage) == Some(v) && Bare(v) && Forges(v, f, o) && Keyed(seed)
    requires seed.lineages[f.lineage].head == v.Head() && f.auditId != o.id
    requires f.key !in seed.commits && f.snapshotId !in seed.snapshots && f.auditId !in seed.audits
    ensures before == Run(seed, LENIENT, [Load(1, f), Load(2, g), Event.Finish(1, false)])
    ensures o.Slot() in before.repo.objects && before.repo.objects[o.Slot()] == o
    ensures 2 in before.pending && before.pending[2] == Pending(seed, g)
    ensures before.repo.commits.Keys == seed.commits.Keys + {f.key}
    ensures before.repo.audits.Keys == seed.audits.Keys + {f.auditId}
    ensures forall l :: l in seed.lineages && l != f.lineage ==>
              l in before.repo.lineages && before.repo.lineages[l] == seed.lineages[l]
  {
    var two := TwoLoaded(seed, f, g);
    ForgeryFinished(two, 1, v, f, o);
    before := Step(two, LENIENT, Event.Finish(1, false));
    LastOfFour(seed, LENIENT, Load(1, f), Load(2, g), Event.Finish(1, false), Event.Finish(2, false));
  }

  lemma TwoLoaded(seed: Repo, f: Request, g: Request) returns (two: System)
    ensures two == Step(Step(System(seed, map[], []), LENIENT, Load(1, f)), LENIENT, Load(2, g))
    ensures two.repo == seed && two.pending == map[1 := Pending(seed, f), 2 := Pending(seed, g)]
  {
    two := Step(Step(System(seed, map[], []), LENIENT, Load(1, f)), LENIENT, Load(2, g));
  }

  lemma SeedHolds(v: View)
    requires LoadView(SEED, "P", "K") == Some(v)
    ensures Keyed(SEED) && SEED.lineages["K"].head == v.Head() && v.snapshot.id == "S"
    ensures SEED.commits == map[] && SEED.audits == map[] && SEED.snapshots.Keys == {"S"}
    ensures "L" in SEED.lineages
  {
    SeedWellFormed();
  }

  /** Whatever request creates an object of kind audit_event, the audit event of a later request
      can replace that revision: here a switch of the other lineage, which has that audit id. */
  lemma AuditEventOverwrites(f: Request, o: Object, v: View)
    requires LoadView(SEED, "P", "K") == Some(v) && Bare(v) && Forges(v, f, o)
    requires o.id == "2" && f.auditId != "2" && f.key != "2"
    ensures WellFormed(SEED)
    ensures var events := [Load(1, f), Load(2, SwitchRequest("2")), Event.Finish(1, false)];
            var before := Run(SEED, LENIENT, events).repo.objects;
            var after := Run(SEED, LENIENT, events + [Event.Finish(2, false)]).repo.objects;
            && o.Slot() in before && before[o.Slot()] == o
            && o.Slot() in after && after[o.Slot()] == AuditEvent(SwitchRequest("2")) != o
  {
    SeedWellFormed();
    SeedHolds(v);
    var switch := SwitchRequest("2");
    var before := ForgeryThen(SEED, f, o, v, switch);
    SwitchFinished(before, 2, "2");
    var events := [Load(1, f), Load(2, switch), Event.Finish(1, false)];
    LastEvent(SEED, events, Event.Finish(2, false));
    AuditSlot(switch);
  }

  lemma LastEvent(seed: Repo, events: seq<Event>, e: Event)
    ensures Run(seed, LENIENT, events + [e]) == Step(Run(seed, LENIENT, events), LENIENT, e)
  {
    assert (events + [e])[..|events|] == events;
  }

  lemma AuditSlot(req: Request)
    ensures AuditEvent(req).Slot() == Key("audit_event", req.auditId, 0) && AuditEvent(req).refs != map[]
  {
    assert "subjects" in AuditEvent(req).refs;
  }
}
