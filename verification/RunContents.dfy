/** Every reachable repository is its seed and what the stored requests of the run wrote: nothing else
    is there, nothing is missing, and the pointers stand where the last request put them. */
module RunContents {
  import opened Common
  import opened Records
  import opened Repository
  import opened Service
  import opened History
  import opened SingleUse
  import opened CommitContents

  // ---------------------------------------------------------------- what is there

  datatype Item =
    | ObjectAt(slot: Key)
    | SnapshotOf(id: string)
    | DecisionOf(id: string)
    | UsedDecision(id: string)
    | Adoption(ref: string)
    | AuditOf(id: string)
    | CommitUnderKey(key: string)
    | LineageOf(id: string)

  predicate Holds(r: Repo, item: Item) {
    match item
    case ObjectAt(slot) => slot in r.objects
    case SnapshotOf(id) => id in r.snapshots
    case DecisionOf(id) => id in r.decisions
    case UsedDecision(id) => id in r.used
    case Adoption(ref) => ref in r.adoptions
    case AuditOf(id) => id in r.audits
    case CommitUnderKey(key) => key in r.commits
    case LineageOf(id) => id in r.lineages
  }

  /** The request, judged on this view, puts the item there. */
  ghost predicate Puts(v: View, req: Request, item: Item) {
    match item
    case ObjectAt(slot) => Files(req, slot)
    case SnapshotOf(id) => id == req.snapshotId && SwitchOf(req.actions).None?
    case DecisionOf(id) => RecordsDecision(req, id)
    case UsedDecision(id) => Consumes(v, req, id)
    case Adoption(ref) => Adopts(req, ref)
    case AuditOf(id) => id == req.auditId
    case CommitUnderKey(key) => key == req.key
    case LineageOf(id) => PlanOf(req.actions).Some? && PlanOf(req.actions).value.targetLineage == id
  }

  lemma WroteItem(r: Repo, next: Repo, v: View, req: Request, item: Item)
    requires Wrote(r, next, v, req)
    ensures Holds(next, item) <==> Holds(r, item) || Puts(v, req, item)
  {
    match item
    case LineageOf(id) =>
      assert LineagesWritten(r, next, req);
    case _ =>
  }

  /** A stored request of the run, on the view it loaded, put the item there. */
  ghost predicate PutBy(one: Pending, item: Item) {
    exists v :: LoadView(one.base, one.req.project, one.req.lineage) == Some(v) && Puts(v, one.req, item)
  }

  ghost predicate PutDuring(log: seq<Pending>, item: Item) {
    exists n :: 0 <= n < |log| && PutBy(log[n], item)
  }

  lemma DuringMore(log: seq<Pending>, one: Pending, item: Item)
    ensures PutDuring(log + [one], item) <==> PutDuring(log, item) || PutBy(one, item)
  {
    var longer := log + [one];
    if n :| 0 <= n < |log| && PutBy(log[n], item) { assert longer[n] == log[n]; }
    if PutBy(one, item) { assert longer[|log|] == one; }
  }

  // ---------------------------------------------------------------- where the pointers stand

  /** The target of the last stored switch. */
  function LastSwitch(log: seq<Pending>, active: string): string {
    if log == [] then active
    else SwitchOf(log[|log| - 1].req.actions).GetOr(LastSwitch(log[..|log| - 1], active))
  }

  /** The request moves the head of this lineage: an ordinary one on it, or the plan that creates it. */
  predicate MovesHead(req: Request, lineage: string) {
    match PlanOf(req.actions)
    case Some(p) => p.targetLineage == lineage
    case None => SwitchOf(req.actions).None? && req.lineage == lineage
  }

  /** The snapshot of the last stored request that moved the lineage's head. */
  function LastHead(log: seq<Pending>, lineage: string, head: string): string {
    if log == [] then head
    else if MovesHead(log[|log| - 1].req, lineage) then log[|log| - 1].req.snapshotId
    else LastHead(log[..|log| - 1], lineage, head)
  }

  function SeedHead(seed: Repo, lineage: string): string {
    if lineage in seed.lineages then seed.lineages[lineage].head.ref else ""
  }

  lemma SwitchMore(log: seq<Pending>, one: Pending, active: string)
    ensures LastSwitch(log + [one], active) == SwitchOf(one.req.actions).GetOr(LastSwitch(log, active))
  {
    assert (log + [one])[..|log|] == log;
  }

  lemma HeadMore(log: seq<Pending>, one: Pending, lineage: string, head: string)
    ensures LastHead(log + [one], lineage, head)
         == if MovesHead(one.req, lineage) then one.req.snapshotId else LastHead(log, lineage, head)
  {
    assert (log + [one])[..|log|] == log;
  }

  lemma WroteHead(r: Repo, next: Repo, v: View, req: Request, lineage: string)
    requires Wrote(r, next, v, req) && lineage in next.lineages
    ensures next.lineages[lineage].head.ref
         == if MovesHead(req, lineage) then req.snapshotId
            else if lineage in r.lineages then r.lineages[lineage].head.ref else next.lineages[lineage].head.ref
    ensures !MovesHead(req, lineage) ==> lineage in r.lineages
  {
    assert LineagesWritten(r, next, req);
  }

  // ---------------------------------------------------------------- every run

  ghost predicate ItemsAccounted(seed: Repo, r: Repo, log: seq<Pending>) {
    forall item :: Holds(r, item) <==> Holds(seed, item) || PutDuring(log, item)
  }

  ghost predicate PointersAccounted(seed: Repo, r: Repo, log: seq<Pending>) {
    && r.active == LastSwitch(log, seed.active)
    && forall l :: l in r.lineages ==> r.lineages[l].head.ref == LastHead(log, l, SeedHead(seed, l))
  }

  lemma ItemsMore(seed: Repo, r: Repo, next: Repo, log: seq<Pending>, one: Pending, v: View)
    requires ItemsAccounted(seed, r, log) && Wrote(r, next, v, one.req)
    requires LoadView(one.base, one.req.project, one.req.lineage) == Some(v)
    ensures ItemsAccounted(seed, next, log + [one])
  {
    forall item ensures Holds(next, item) <==> Holds(seed, item) || PutDuring(log + [one], item) {
      WroteItem(r, next, v, one.req, item);
      DuringMore(log, one, item);
      assert PutBy(one, item) <==> Puts(v, one.req, item);
    }
  }

  lemma PointersMore(seed: Repo, r: Repo, next: Repo, log: seq<Pending>, one: Pending, v: View)
    requires PointersAccounted(seed, r, log) && Wrote(r, next, v, one.req)
    ensures PointersAccounted(seed, next, log + [one])
  {
    SwitchMore(log, one, seed.active);
    forall l | l in next.lineages ensures next.lineages[l].head.ref == LastHead(log + [one], l, SeedHead(seed, l)) {
      WroteHead(r, next, v, one.req, l);
      HeadMore(log, one, l, SeedHead(seed, l));
    }
  }

  lemma StoreWrote(s: System, p: Policy, one: Pending) returns (v: View)
    requires Safe(s) && SafePending(s.repo, one) && Persists(s, p, one)
    ensures LoadView(one.base, one.req.project, one.req.lineage) == Some(v)
    ensures Wrote(s.repo, Next(s, p, one), v, one.req)
  {
    var red, b;
    v, red, b := StoredBundle(s, p, one);
    PreClean(v, one.req);
    StoredWrote(one.base, s.repo, v, one.req, red, Next(s, p, one));
  }

  /** Over every run, however loads and commits interleave: the repository holds exactly what the seed
      held and the stored requests put there, the active lineage is the target of the last stored
      switch, and each lineage's head is the snapshot of the last stored request that moved it. */
  lemma {:induction false} RunAccounted(seed: Repo, p: Policy, events: seq<Event>)
    requires WellFormed(seed) && CleanEvents(events)
    ensures ItemsAccounted(seed, Run(seed, p, events).repo, Run(seed, p, events).log)
    ensures PointersAccounted(seed, Run(seed, p, events).repo, Run(seed, p, events).log)
  {
    if events != [] {
      var front, e := events[..|events| - 1], events[|events| - 1];
      var s := Run(seed, p, front);
      RunSafe(seed, p, front);
      RunAccounted(seed, p, front);
      StepRepo(s, p, e);
      if StoresAt(s, p, e) {
        var one := s.pending[e.slot];
        assert SafePending(s.repo, one);
        var v := StoreWrote(s, p, one);
        ItemsMore(seed, s.repo, Next(s, p, one), s.log, one, v);
        PointersMore(seed, s.repo, Next(s, p, one), s.log, one, v);
      }
    }
  }
}
