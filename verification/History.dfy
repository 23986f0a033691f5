/** Runs of the commit machine in which loads and commits of different requests interleave,
    and what every reachable repository keeps of its history: immutable, gap-free revisions. */
module History {
  import opened Common
  import opened Records
  import opened Authority
  import opened Reducer
  import opened ReducerFacts
  import opened Repository
  import opened Service
  import opened CommitFacts
  import opened ApplyOutcomes

  // ---------------------------------------------------------------- runs

  /** A request whose view has been loaded from `base` and whose commit is still to come. */
  datatype Pending = Pending(base: Repo, req: Request)

  datatype System = System(repo: Repo, pending: map<nat, Pending>, log: seq<Pending>)

  datatype Event =
    | Load(slot: nat, req: Request)
    | Finish(slot: nat, fails: bool)

  predicate Persists(s: System, p: Policy, one: Pending) {
    var prepared := Prepare(one.base, p, one.req);
    prepared.Ready? && Stores(s.repo, prepared.bundle, one.req.head.digest)
  }

  function Next(s: System, p: Policy, one: Pending): Repo {
    Service.Finish(s.repo, one.req, Prepare(one.base, p, one.req)).0
  }

  /** One step: a service loads its view, or finishes with the commit of what it loaded.
      `fails` is an injected persistence failure. The log lists the stored requests. */
  function Step(s: System, p: Policy, e: Event): System {
    match e
    case Load(slot, req) => s.(pending := s.pending[slot := Pending(s.repo, req)])
    case Finish(slot, fails) =>
      if slot !in s.pending then s
      else
        var one := s.pending[slot];
        var rest := s.pending - {slot};
        if fails then s.(pending := rest)
        else System(Next(s, p, one), rest, if Persists(s, p, one) then s.log + [one] else s.log)
  }

  function Run(seed: Repo, p: Policy, events: seq<Event>): System {
    if events == [] then System(seed, map[], [])
    else Step(Run(seed, p, events[..|events| - 1]), p, events[|events| - 1])
  }

  /** Payloads that leave the two kinds the repository writes itself alone. */
  predicate Unreserved(kind: string) { kind != "snapshot" && kind != "audit_event" }

  predicate CleanAction(a: Action) {
    && (a.payload.Some? ==> Unreserved(a.payload.value.kind))
    && (a.plan.Some? ==> forall i :: 0 <= i < |a.plan.value.treatments| && a.plan.value.treatments[i].derived.Some? ==>
          Unreserved(a.plan.value.treatments[i].derived.value.kind))
  }

  predicate Clean(req: Request) {
    forall i :: 0 <= i < |req.actions| ==> CleanAction(req.actions[i])
  }

  predicate CleanEvents(events: seq<Event>) {
    forall i :: 0 <= i < |events| && events[i].Load? ==> Clean(events[i].req)
  }

  // ---------------------------------------------------------------- well-formed content

  /** Every entry is filed under its own identity. */
  ghost predicate Keyed(r: Repo) {
    && (forall k :: k in r.objects ==> r.objects[k].Slot() == k)
    && (forall id :: id in r.decisions ==> r.decisions[id].id == id)
    && (forall id :: id in r.lineages ==> r.lineages[id].id == id)
    && (forall id :: id in r.snapshots ==> r.snapshots[id].id == id && r.snapshots[id].kind == "snapshot")
  }

  /** The slot is a first revision, or the revision before it is stored. */
  ghost predicate FollowedIn(objects: map<Key, Object>, k: Key) {
    k.revision >= 0 && (k.revision > 0 ==> Key(k.kind, k.id, k.revision - 1) in objects)
  }

  /** Revision numbers of an identity leave no gap. */
  ghost predicate GapFree(objects: map<Key, Object>) {
    forall k {:trigger FollowedIn(objects, k)} :: k in objects ==> FollowedIn(objects, k)
  }

  /** Snapshot and audit entries among the objects are the recorded ones. */
  ghost predicate ReservedFiled(r: Repo) {
    && (forall k :: k in r.objects && k.kind == "snapshot" ==> k.id in r.snapshots)
    && (forall k :: k in r.objects && k.kind == "audit_event" ==> k.id in r.audits)
  }

  ghost predicate WellFormed(r: Repo) {
    Keyed(r) && GapFree(r.objects) && ReservedFiled(r)
  }

  /** The part of a lineage that never changes: everything but its head. */
  function Fixed(l: Lineage): Lineage { l.(head := Pin("", Unsealed)) }

  /** A later repository: nothing stored is lost or changed. */
  ghost predicate Grows(a: Repo, b: Repo) {
    && a.project == b.project && a.config == b.config && a.profile == b.profile
    && Extends(a.objects, b.objects)
    && Extends(a.snapshots, b.snapshots)
    && Extends(a.decisions, b.decisions)
    && Extends(a.audits, b.audits)
    && Extends(a.commits, b.commits)
    && (forall id :: id in a.lineages ==> id in b.lineages && Fixed(b.lineages[id]) == Fixed(a.lineages[id]))
    && a.used <= b.used
  }

  // ---------------------------------------------------------------- one commit

  lemma RevisionsUnreserved(v: View, req: Request, red: Reduction, o: Object)
    requires Clean(req) && Reduce(v, req) == Some(red) && o in red.revisions
    ensures Unreserved(o.kind)
  {
    RevisionOrigin(v, req, red, o);
    if Carried(v, req, o) {
      var i :| 0 <= i < |req.actions| && req.actions[i].payload == Some(o);
      assert CleanAction(req.actions[i]);
    } else {
      var i, j :| 0 <= i < |req.actions| && req.actions[i].kind.ApplyLineagePlan? && req.actions[i].plan.Some?
                  && 0 <= j < |req.actions[i].plan.value.treatments|
                  && Reconfirms(req.actions[i].plan.value.treatments[j])
                  && req.actions[i].plan.value.treatments[j].derived == Some(o);
      assert CleanAction(req.actions[i]);
    }
  }

  /** The reserved entries a reduction carries, and the decisions it files. */
  predicate Tidy(red: Reduction) {
    && red.audit.kind == "audit_event" && red.audit.revision == 0
    && (red.snapshot.Some? ==> red.snapshot.value.kind == "snapshot" && red.snapshot.value.revision == 0)
  }

  lemma ReducedTidy(v: View, req: Request, red: Reduction)
    requires Reduce(v, req) == Some(red)
    ensures Tidy(red) && red.audit.id == req.auditId
    ensures red.snapshot.Some? ==> red.snapshot.value.id == req.snapshotId
  {
    if HasPlan(req.actions) { var i := PlanAction(v, req, red); }
  }

  /** The lineages a reduction moves or creates, and the snapshot they then head. */
  ghost predicate Heads(v: View, req: Request, red: Reduction) {
    && (red.snapshot.Some? ==> red.snapshot.value.Text("prior_snapshot_id") == Some(v.snapshot.id))
    && (red.moved.Some? ==>
          && red.snapshot.Some? && red.child.None? && req.lineage in v.lineages
          && red.moved.value == v.lineages[req.lineage].(head := Pin(red.snapshot.value.id, red.snapshot.value.seal)))
    && (red.child.Some? ==>
          && red.snapshot.Some? && red.moved.None?
          && red.child.value.head == Pin(red.snapshot.value.id, red.snapshot.value.seal)
          && red.child.value.parent == Some(req.lineage) && red.child.value.baseline == Some(v.snapshot.id))
  }

  lemma ReducedHeads(v: View, req: Request, red: Reduction)
    requires Reduce(v, req) == Some(red)
    ensures Heads(v, req, red)
  {
    if HasPlan(req.actions) { var i := PlanAction(v, req, red); }
  }

  /** A stored bundle whose revisions avoid the reserved kinds only adds to the repository. */
  lemma StoreGrows(r: Repo, b: Bundle)
    requires WellFormed(r) && Staged(r, b).Some? && Tidy(b.reduction)
    requires b.key !in r.commits
    requires b.reduction.moved.Some? && b.reduction.moved.value.id in r.lineages ==>
               Fixed(b.reduction.moved.value) == Fixed(r.lineages[b.reduction.moved.value.id])
    ensures Grows(r, Staged(r, b).value)
  {
    KeepsRevisions(r, b);
    StagedDecisions(r.decisions, b.reduction.decisions);
  }

  lemma StoreKeyed(r: Repo, b: Bundle)
    requires Keyed(r) && Staged(r, b).Some? && Tidy(b.reduction)
    ensures Keyed(Staged(r, b).value)
  {
    StagedObjects(r.objects, b.reduction.revisions);
    StagedDecisions(r.decisions, b.reduction.decisions);
  }

  lemma LatestStored(v: View, kind: string, id: string)
    requires v.Latest(kind, id).Some?
    requires forall k :: k in v.objects ==> v.objects[k].Slot() == k
    ensures var prior := v.Latest(kind, id).value;
            prior.kind == kind && prior.id == id
            && Key(kind, id, prior.revision) in v.objects && v.objects[Key(kind, id, prior.revision)] == prior
  {
  }

  lemma FollowsGapFree(v: View, objects: map<Key, Object>, o: Object)
    requires forall k :: k in v.objects ==> v.objects[k].Slot() == k
    requires GapFree(v.objects) && Extends(v.objects, objects) && Follows(v, o)
    ensures FollowedIn(objects, o.Slot())
  {
    if v.Latest(o.kind, o.id).Some? {
      LatestStored(v, o.kind, o.id);
      assert FollowedIn(v.objects, v.Latest(o.kind, o.id).value.Slot());
    }
  }

  lemma StagedGapFree(v: View, objects: map<Key, Object>, revisions: seq<Object>)
    requires forall k :: k in v.objects ==> v.objects[k].Slot() == k
    requires GapFree(v.objects) && Extends(v.objects, objects) && GapFree(objects)
    requires forall o :: o in revisions ==> Follows(v, o)
    requires StageObjects(objects, revisions).Some?
    ensures GapFree(StageObjects(objects, revisions).value)
  {
    var staged := StageObjects(objects, revisions).value;
    StagedObjects(objects, revisions);
    forall k | k in staged && k !in objects ensures FollowedIn(objects, k) { FollowsGapFree(v, objects, staged[k]); }
    GrownGapFree(objects, staged);
  }

  lemma GrownGapFree(objects: map<Key, Object>, staged: map<Key, Object>)
    requires GapFree(objects) && Extends(objects, staged)
    requires forall k :: k in staged && k !in objects ==> FollowedIn(objects, k)
    ensures GapFree(staged)
  {
    forall k | k in staged ensures FollowedIn(staged, k) { assert FollowedIn(objects, k); }
  }

  lemma StoreGapFree(v: View, r: Repo, b: Bundle)
    requires forall k :: k in v.objects ==> v.objects[k].Slot() == k
    requires GapFree(v.objects) && Extends(v.objects, r.objects) && GapFree(r.objects)
    requires forall o :: o in b.reduction.revisions ==> Follows(v, o)
    requires Staged(r, b).Some? && Tidy(b.reduction)
    ensures GapFree(Staged(r, b).value.objects)
  {
    var staged, next := StageObjects(r.objects, b.reduction.revisions).value, Staged(r, b).value.objects;
    StagedGapFree(v, r.objects, b.reduction.revisions);
    forall k | k in next ensures FollowedIn(next, k) {
      if k in staged { assert FollowedIn(staged, k); }
    }
  }

  lemma StoreReserved(r: Repo, b: Bundle)
    requires ReservedFiled(r) && Staged(r, b).Some? && Tidy(b.reduction)
    requires forall o :: o in b.reduction.revisions ==> Unreserved(o.kind)
    ensures ReservedFiled(Staged(r, b).value)
  {
    StagedObjects(r.objects, b.reduction.revisions);
  }

  // ---------------------------------------------------------------- every run

  /** The system invariant: the repository is well formed, and so was every loaded base,
      which the repository has only added to since. */
  ghost predicate Safe(s: System) {
    && WellFormed(s.repo)
    && forall i :: i in s.pending ==> SafePending(s.repo, s.pending[i])
  }

  ghost predicate SafePending(r: Repo, one: Pending) {
    WellFormed(one.base) && Grows(one.base, r) && Clean(one.req)
  }

  /** What a stored request wrote, in terms of the view it was judged on. */
  lemma StoredBundle(s: System, p: Policy, one: Pending) returns (v: View, red: Reduction, b: Bundle)
    requires Persists(s, p, one)
    ensures Accepted(one.base, v, one.req, red)
    ensures b == BundleOf(v, one.req, red) && Stores(s.repo, b, one.req.head.digest)
    ensures Next(s, p, one) == Staged(s.repo, b).value
    ensures one.req.digest == one.req.CalculatedDigest() && one.req.key !in one.base.commits
  {
    v, red := ReadyMeansAccepted(one.base, p, one.req);
    b := BundleOf(v, one.req, red);
    StoresIsPersist(s.repo, b, one.req.head.digest);
  }

  lemma NotStored(s: System, p: Policy, one: Pending)
    requires !Persists(s, p, one)
    ensures Next(s, p, one) == s.repo
  {
    match Prepare(one.base, p, one.req) {
      case Answered(_) =>
      case Ready(b) => StoresIsPersist(s.repo, b, one.req.head.digest);
    }
  }

  /** The step stores a bundle. */
  ghost predicate StoresAt(s: System, p: Policy, e: Event) {
    e.Finish? && e.slot in s.pending && !e.fails && Persists(s, p, s.pending[e.slot])
  }

  lemma StepRepo(s: System, p: Policy, e: Event)
    ensures Step(s, p, e).repo == if StoresAt(s, p, e) then Next(s, p, s.pending[e.slot]) else s.repo
    ensures Step(s, p, e).log == if StoresAt(s, p, e) then s.log + [s.pending[e.slot]] else s.log
    ensures forall i :: i in Step(s, p, e).pending ==>
              (i in s.pending && Step(s, p, e).pending[i] == s.pending[i])
              || (e.Load? && Step(s, p, e).pending[i].base == s.repo)
  {
    if e.Finish? && e.slot in s.pending && !e.fails && !StoresAt(s, p, e) { NotStored(s, p, s.pending[e.slot]); }
  }

  lemma GrowsTransitive(a: Repo, b: Repo, c: Repo)
    requires Grows(a, b) && Grows(b, c)
    ensures Grows(a, c)
  {}

  lemma StoreSafe(s: System, p: Policy, one: Pending)
    requires Safe(s) && SafePending(s.repo, one) && Persists(s, p, one)
    ensures WellFormed(Next(s, p, one)) && Grows(s.repo, Next(s, p, one))
  {
    var v, red, b := StoredBundle(s, p, one);
    StoredIsWellFormed(one.base, s.repo, one.req, v, red, b);
  }

  lemma StoredIsWellFormed(base: Repo, r: Repo, req: Request, v: View, red: Reduction, b: Bundle)
    requires WellFormed(r) && WellFormed(base) && Grows(base, r) && Clean(req)
    requires LoadView(base, req.project, req.lineage) == Some(v) && Reduce(v, req) == Some(red)
    requires b.reduction == red && b.key !in r.commits && Staged(r, b).Some?
    ensures WellFormed(Staged(r, b).value) && Grows(r, Staged(r, b).value)
  {
    ReducedTidy(v, req, red);
    ReducedHeads(v, req, red);
    forall o | o in red.revisions ensures Follows(v, o) && Unreserved(o.kind) {
      RevisionOrigin(v, req, red, o);
      RevisionsUnreserved(v, req, red, o);
    }
    ViewOfBase(base, req.project, req.lineage);
    StoreGrows(r, b);
    StoreKeyed(r, b);
    StoreGapFree(v, r, b);
    StoreReserved(r, b);
  }

  lemma ViewOfBase(base: Repo, project: string, lineage: string)
    ensures LoadView(base, project, lineage).Some? ==>
              var v := LoadView(base, project, lineage).value;
              v.objects == base.objects && v.decisions == base.decisions && v.used == base.used
              && v.lineages == base.lineages && v.project == base.project == project && v.lineage == lineage
              && lineage in base.lineages && base.lineages[lineage].head.ref in base.snapshots
              && v.snapshot == base.snapshots[base.lineages[lineage].head.ref]
  {}

  lemma StepSafe(s: System, p: Policy, e: Event)
    requires Safe(s) && (e.Load? ==> Clean(e.req))
    ensures Safe(Step(s, p, e)) && Grows(s.repo, Step(s, p, e).repo)
  {
    if e.Finish? && e.slot in s.pending && !e.fails {
      var one := s.pending[e.slot];
      assert SafePending(s.repo, one);
      if Persists(s, p, one) { StoreSafe(s, p, one); } else { NotStored(s, p, one); }
      forall i | i in s.pending ensures SafePending(Next(s, p, one), s.pending[i]) {
        assert SafePending(s.repo, s.pending[i]);
        GrowsTransitive(s.pending[i].base, s.repo, Next(s, p, one));
      }
    }
  }

  lemma {:induction false} RunSafe(seed: Repo, p: Policy, events: seq<Event>)
    requires WellFormed(seed) && CleanEvents(events)
    ensures Safe(Run(seed, p, events))
  {
    if events != [] {
      RunSafe(seed, p, events[..|events| - 1]);
      StepSafe(Run(seed, p, events[..|events| - 1]), p, events[|events| - 1]);
    }
  }

  /** Logged request `one` is stored when `slot` of this state finishes, and the repository `r`
      has only grown since. */
  ghost predicate StoredThen(s: System, p: Policy, slot: nat, one: Pending, r: Repo) {
    slot in s.pending && s.pending[slot] == one && Persists(s, p, one) && Grows(Next(s, p, one), r)
  }

  lemma StoredNow(s: System, p: Policy, e: Event)
    requires StoresAt(s, p, e)
    ensures StoredThen(s, p, e.slot, s.pending[e.slot], Step(s, p, e).repo)
  {
    StepRepo(s, p, e);
    GrowsToItself(Step(s, p, e).repo);
  }

  lemma StoredBefore(s: System, p: Policy, slot: nat, one: Pending, a: Repo, b: Repo)
    requires StoredThen(s, p, slot, one, a) && Grows(a, b)
    ensures StoredThen(s, p, slot, one, b)
  {
    GrowsTransitive(Next(s, p, one), a, b);
  }

  ghost predicate StoredDuring(seed: Repo, p: Policy, events: seq<Event>, one: Pending, r: Repo) {
    exists n, slot :: 0 <= n < |events| && StoredThen(Run(seed, p, events[..n]), p, slot, one, r)
  }

  lemma DuringFront(seed: Repo, p: Policy, events: seq<Event>, one: Pending, a: Repo, b: Repo)
    requires events != [] && StoredDuring(seed, p, events[..|events| - 1], one, a) && Grows(a, b)
    ensures StoredDuring(seed, p, events, one, b)
  {
    var front := events[..|events| - 1];
    var n, slot :| 0 <= n < |front| && StoredThen(Run(seed, p, front[..n]), p, slot, one, a);
    assert front[..n] == events[..n];
    StoredBefore(Run(seed, p, events[..n]), p, slot, one, a, b);
  }

  lemma DuringLast(seed: Repo, p: Policy, events: seq<Event>)
    requires events != []
    requires StoresAt(Run(seed, p, events[..|events| - 1]), p, events[|events| - 1])
    ensures var s, e := Run(seed, p, events[..|events| - 1]), events[|events| - 1];
            StoredDuring(seed, p, events, s.pending[e.slot], Run(seed, p, events).repo)
  {
    StoredNow(Run(seed, p, events[..|events| - 1]), p, events[|events| - 1]);
  }

  lemma StepGrows(seed: Repo, p: Policy, events: seq<Event>)
    requires WellFormed(seed) && CleanEvents(events) && events != []
    ensures Grows(Run(seed, p, events[..|events| - 1]).repo, Run(seed, p, events).repo)
  {
    RunSafe(seed, p, events[..|events| - 1]);
    StepSafe(Run(seed, p, events[..|events| - 1]), p, events[|events| - 1]);
  }

  /** Each logged request was stored at one step of the run. */
  lemma {:induction false} LoggedWasStored(seed: Repo, p: Policy, events: seq<Event>, i: nat)
    requires WellFormed(seed) && CleanEvents(events) && i < |Run(seed, p, events).log|
    ensures StoredDuring(seed, p, events, Run(seed, p, events).log[i], Run(seed, p, events).repo)
  {
    var front := events[..|events| - 1];
    LogStep(seed, p, events, i);
    if i < |Run(seed, p, front).log| {
      LoggedWasStored(seed, p, front, i);
      StepGrows(seed, p, events);
      DuringFront(seed, p, events, Run(seed, p, front).log[i], Run(seed, p, front).repo, Run(seed, p, events).repo);
    } else {
      DuringLast(seed, p, events);
    }
  }

  lemma LogStep(seed: Repo, p: Policy, events: seq<Event>, i: nat)
    requires i < |Run(seed, p, events).log|
    ensures events != []
    ensures var s, e := Run(seed, p, events[..|events| - 1]), events[|events| - 1];
            if i < |s.log| then Run(seed, p, events).log[i] == s.log[i]
            else StoresAt(s, p, e) && Run(seed, p, events).log[i] == s.pending[e.slot]
  {
    StepRepo(Run(seed, p, events[..|events| - 1]), p, events[|events| - 1]);
  }

  lemma GrowsToItself(r: Repo)
    ensures Grows(r, r)
  {}

  /** Immutable history: whatever a run has stored after some prefix of its events is
      still stored, unchanged, at its end. */
  lemma {:induction false} HistoryImmutable(seed: Repo, p: Policy, events: seq<Event>, n: nat)
    requires WellFormed(seed) && CleanEvents(events) && n <= |events|
    ensures Grows(Run(seed, p, events[..n]).repo, Run(seed, p, events).repo)
  {
    if n == |events| {
      assert events[..n] == events;
    } else {
      var front := events[..|events| - 1];
      HistoryImmutable(seed, p, front, n);
      RunSafe(seed, p, front);
      StepSafe(Run(seed, p, front), p, events[|events| - 1]);
      assert front[..n] == events[..n];
      GrowsTransitive(Run(seed, p, events[..n]).repo, Run(seed, p, front).repo, Run(seed, p, events).repo);
    }
  }

  /** Gap-free history: the revisions of every identity are exactly 0..n-1 for some n. */
  lemma HistoryGapFree(seed: Repo, p: Policy, events: seq<Event>, kind: string, id: string) returns (n: nat)
    requires WellFormed(seed) && CleanEvents(events)
    ensures forall i :: Key(kind, id, i) in Run(seed, p, events).repo.objects <==> 0 <= i < n
  {
    RunSafe(seed, p, events);
    var objects := Run(seed, p, events).repo.objects;
    var revisions := Revisions(objects, kind, id);
    if revisions == {} {
      n := 0;
      assert forall i :: Key(kind, id, i) in objects ==> i in revisions;
    } else {
      var top := MaxOf(revisions);
      assert Key(kind, id, top) in objects && FollowedIn(objects, Key(kind, id, top));
      n := top + 1;
      forall i | Key(kind, id, i) in objects ensures 0 <= i < n {
        assert i in revisions && FollowedIn(objects, Key(kind, id, i));
      }
      forall i | 0 <= i < n ensures Key(kind, id, i) in objects { RevisionsBelow(objects, kind, id, top, i); }
    }
  }

  lemma {:induction false} RevisionsBelow(objects: map<Key, Object>, kind: string, id: string, top: int, i: int)
    requires GapFree(objects) && Key(kind, id, top) in objects && 0 <= i <= top
    ensures Key(kind, id, i) in objects
    decreases top
  {
    assert FollowedIn(objects, Key(kind, id, top));
    if i < top { RevisionsBelow(objects, kind, id, top - 1, i); }
  }
}
