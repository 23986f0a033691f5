/** Single use of Decisions when loads and commits of different requests interleave: the check
    the commit would have to make, exactly, and the runs that do without it. */
module Interleaving {
  import opened Common
  import opened Records
  import opened Authority
  import opened Reducer
  import opened Repository
  import opened Service
  import opened CommitFacts
  import opened History
  import opened SingleUse
  import opened Integrity

  /** The Decisions a loaded request will consume. */
  function Consumes(one: Pending): seq<string> {
    match LoadView(one.base, one.req.project, one.req.lineage)
    case None => []
    case Some(v) => Resolving(v, one.req.actions)
  }

  /** The check that `commit` does not make: nothing to be consumed has been used by now. */
  predicate Unspent(r: Repo, one: Pending) {
    forall i :: 0 <= i < |Consumes(one)| ==> Consumes(one)[i] !in r.used
  }

  ghost predicate Spent(r: Repo, ref: string) {
    exists k :: k in r.commits && ref in r.commits[k].receipt.resolving
  }

  /** Decisions are marked as used by commits only. */
  ghost predicate Accounted(seed: Repo, r: Repo) {
    && (forall ref :: ref in r.used ==> ref in seed.used || Spent(r, ref))
    && (forall ref :: Spent(r, ref) ==> ref in r.used)
  }

  // ---------------------------------------------------------------- one commit

  /** What a stored request does to the commits and the used Decisions. */
  lemma StoredUse(s: System, p: Policy, one: Pending) returns (record: CommitRecord)
    requires Persists(s, p, one)
    ensures var next := Next(s, p, one);
            && one.req.key !in s.repo.commits && next.commits == s.repo.commits[one.req.key := record]
            && record.receipt.resolving == Consumes(one)
            && next.used == s.repo.used + (set ref | ref in Consumes(one))
    ensures forall ref :: ref in Consumes(one) ==> ref !in one.base.used
  {
    var v, red, b := StoredBundle(s, p, one);
    record := CommitRecord(b.digest, b.receipt);
    ReducedUsed(v, one.req, red);
    ViewOfBase(one.base, one.req.project, one.req.lineage);
    PreClean(v, one.req);
    forall ref | ref in Consumes(one) ensures ref !in one.base.used { FreshDecisions(v, one.req, red, ref); }
  }

  lemma MoreRecorded(r: Repo, next: Repo, key: string, record: CommitRecord, ref: string)
    requires key !in r.commits && next.commits == r.commits[key := record]
    ensures Spent(next, ref) <==> Spent(r, ref) || ref in record.receipt.resolving
  {
    assert next.commits[key] == record;
    if k :| k in r.commits && ref in r.commits[k].receipt.resolving { assert next.commits[k] == r.commits[k]; }
  }

  lemma MoreUsedOnce(r: Repo, next: Repo, key: string, record: CommitRecord)
    requires UsedOnce(r) && key !in r.commits && next.commits == r.commits[key := record]
    requires forall ref :: Spent(next, ref) ==> ref in next.used
    ensures UsedOnce(next) <==> forall ref :: ref in record.receipt.resolving ==> !Spent(r, ref)
  {
    assert next.commits[key] == record;
    if UsedOnce(next) {
      forall ref | ref in record.receipt.resolving ensures !Spent(r, ref) {
        if k :| k in r.commits && ref in r.commits[k].receipt.resolving {
          assert next.commits[k] == r.commits[k] && Shares(next.commits[k].receipt, next.commits[key].receipt);
        }
      }
    } else {
      SharedIsRecorded(r, next, key, record);
    }
  }

  lemma SharedIsRecorded(r: Repo, next: Repo, key: string, record: CommitRecord)
    requires UsedOnce(r) && key !in r.commits && next.commits == r.commits[key := record]
    requires !UsedOnce(next) && forall ref :: Spent(next, ref) ==> ref in next.used
    ensures exists ref :: ref in record.receipt.resolving && Spent(r, ref)
  {
    forall k, ref | k in next.commits && ref in next.commits[k].receipt.resolving ensures ref in next.used {
      assert Spent(next, ref);
    }
    var i, j :| i in next.commits && j in next.commits && i != j
                && Shares(next.commits[i].receipt, next.commits[j].receipt);
    var k := if i == key then j else i;
    assert i == key || j == key;
    var ref :| ref in next.commits[i].receipt.resolving && ref in next.commits[j].receipt.resolving;
    assert k in r.commits && ref in r.commits[k].receipt.resolving && ref in record.receipt.resolving;
  }

  lemma StoreAccounted(seed: Repo, s: System, p: Policy, one: Pending)
    requires Accounted(seed, s.repo) && Persists(s, p, one)
    ensures Accounted(seed, Next(s, p, one))
  {
    var record := StoredUse(s, p, one);
    var next := Next(s, p, one);
    forall ref ensures Spent(next, ref) <==> Spent(s.repo, ref) || ref in Consumes(one) {
      MoreRecorded(s.repo, next, one.req.key, record, ref);
    }
  }

  /** One commit keeps single use exactly when everything it consumes is still unused when it
      is stored. Validation compared with the used Decisions at load time only. */
  lemma GuardIsExact(seed: Repo, s: System, p: Policy, one: Pending)
    requires UsedOnce(s.repo) && Accounted(seed, s.repo) && seed.used <= one.base.used && Persists(s, p, one)
    ensures UsedOnce(Next(s, p, one)) <==> Unspent(s.repo, one)
  {
    var record := StoredUse(s, p, one);
    StoreAccounted(seed, s, p, one);
    MoreUsedOnce(s.repo, Next(s, p, one), one.req.key, record);
    forall ref | ref in Consumes(one) ensures ref in s.repo.used <==> Spent(s.repo, ref) {
      assert ref !in seed.used;
    }
    forall i | 0 <= i < |Consumes(one)| ensures Consumes(one)[i] in Consumes(one) {}
  }

  // ---------------------------------------------------------------- every run

  ghost predicate Tracked(seed: Repo, s: System) {
    Accounted(seed, s.repo) && seed.used <= s.repo.used && forall i :: i in s.pending ==>
        seed.used <= s.pending[i].base.used
  }

  ghost predicate StepUnspent(s: System, p: Policy, e: Event) {
    StoresAt(s, p, e) ==> Unspent(s.repo, s.pending[e.slot])
  }

  /** Every commit of the run was stored while what it consumes was unused. */
  ghost predicate EachUnspent(seed: Repo, p: Policy, events: seq<Event>) {
    events != [] ==>
      var front := events[..|events| - 1];
      EachUnspent(seed, p, front) && StepUnspent(Run(seed, p, front), p, events[|events| - 1])
  }

  lemma StepTracked(seed: Repo, s: System, p: Policy, e: Event)
    requires Tracked(seed, s)
    ensures Tracked(seed, Step(s, p, e))
  {
    StepRepo(s, p, e);
    if StoresAt(s, p, e) {
      StoreAccounted(seed, s, p, s.pending[e.slot]);
      var record := StoredUse(s, p, s.pending[e.slot]);
    }
  }

  lemma SeedTracked(seed: Repo)
    requires UsedOnce(seed)
    ensures Tracked(seed, System(seed, map[], []))
  {
  }

  lemma {:induction false} RunTracked(seed: Repo, p: Policy, events: seq<Event>)
    requires UsedOnce(seed)
    ensures Tracked(seed, Run(seed, p, events))
  {
    if events == [] {
      SeedTracked(seed);
    } else {
      RunTracked(seed, p, events[..|events| - 1]);
      StepTracked(seed, Run(seed, p, events[..|events| - 1]), p, events[|events| - 1]);
    }
  }

  /** What two commits share they share for good. */
  lemma SharedForGood(a: Repo, b: Repo)
    requires Extends(a.commits, b.commits) && UsedOnce(b) && forall ref :: Spent(a, ref) ==> ref in a.used
    ensures UsedOnce(a)
  {
    forall k, ref | k in a.commits && ref in a.commits[k].receipt.resolving ensures ref in a.used {
      assert Spent(a, ref);
    }
    forall k, j | k in a.commits && j in a.commits && k != j
      ensures !Shares(a.commits[k].receipt, a.commits[j].receipt) {
      assert b.commits[k] == a.commits[k] && b.commits[j] == a.commits[j];
    }
  }

  lemma StepExactly(seed: Repo, s: System, p: Policy, e: Event)
    requires Tracked(seed, s)
    ensures UsedOnce(Step(s, p, e).repo) <==> UsedOnce(s.repo) && StepUnspent(s, p, e)
  {
    StepRepo(s, p, e);
    StepKeepsCommits(s, p, e);
    if UsedOnce(s.repo) {
      if StoresAt(s, p, e) { GuardIsExact(seed, s, p, s.pending[e.slot]); }
    } else if UsedOnce(Step(s, p, e).repo) {
      SharedForGood(s.repo, Step(s, p, e).repo);
    }
  }

  /** Over every interleaving: no Decision is consumed twice if and only if each commit was
      stored while what it consumes was unused. */
  lemma {:induction false} SingleUseExactly(seed: Repo, p: Policy, events: seq<Event>)
    requires UsedOnce(seed)
    ensures UsedOnce(Run(seed, p, events).repo) <==> EachUnspent(seed, p, events)
  {
    if events != [] {
      var front := events[..|events| - 1];
      SingleUseExactly(seed, p, front);
      RunTracked(seed, p, front);
      StepExactly(seed, Run(seed, p, front), p, events[|events| - 1]);
    }
  }

  // ---------------------------------------------------------------- runs that need no such check

  /** Every loaded request is ordinary and on this lineage. */
  predicate OrdinaryOn(lineage: string, req: Request) { Ordinary(req) && req.lineage == lineage }

  predicate AllOrdinaryOn(lineage: string, events: seq<Event>) {
    forall i :: 0 <= i < |events| && events[i].Load? ==> OrdinaryOn(lineage, events[i].req)
  }

  /** As long as the lineage has the head the base had, no Decision has been used since. */
  ghost predicate HeadTells(r: Repo, base: Repo, lineage: string) {
    (lineage in base.lineages && base.lineages[lineage].head.ref in base.snapshots
     && lineage in r.lineages && r.lineages[lineage].head.ref == base.lineages[lineage].head.ref)
    ==> base.used == r.used
  }

  ghost predicate HeadsTell(s: System, lineage: string) {
    forall i :: i in s.pending ==>
      OrdinaryOn(lineage, s.pending[i].req) && HeadTells(s.repo, s.pending[i].base, lineage)
  }

  /** A stored ordinary request gives its lineage a head that was not stored before. */
  lemma OrdinaryMovesHead(s: System, p: Policy, one: Pending, lineage: string)
    requires Safe(s) && SafePending(s.repo, one) && Persists(s, p, one) && OrdinaryOn(lineage, one.req)
    ensures lineage in s.repo.lineages && lineage in Next(s, p, one).lineages
    ensures Next(s, p, one).lineages[lineage].head.ref !in s.repo.snapshots
    ensures lineage in one.base.lineages && one.base.lineages[lineage].head.ref in one.base.snapshots
            && s.repo.lineages[lineage].head.ref == one.base.lineages[lineage].head.ref
  {
    var v, red, b := StoredBundle(s, p, one);
    ViewOfBase(one.base, one.req.project, one.req.lineage);
    OrdinaryMoves(v, one.req, red);
  }

  lemma OrdinaryMoves(v: View, req: Request, red: Reduction)
    requires Ordinary(req) && Reduce(v, req) == Some(red)
    ensures red.snapshot.Some? && red.moved.Some? && red.child.None? && req.lineage in v.lineages
    ensures red.moved.value == v.lineages[req.lineage].(head := Pin(red.snapshot.value.id, red.snapshot.value.seal))
  {
    ReducedHeads(v, req, red);
  }

  lemma OrdinaryUnspent(s: System, p: Policy, one: Pending, lineage: string)
    requires Safe(s) && SafePending(s.repo, one) && Persists(s, p, one) && OrdinaryOn(lineage, one.req)
    requires HeadTells(s.repo, one.base, lineage)
    ensures Unspent(s.repo, one)
  {
    OrdinaryMovesHead(s, p, one, lineage);
    var record := StoredUse(s, p, one);
    forall i | 0 <= i < |Consumes(one)| ensures Consumes(one)[i] !in s.repo.used {
      assert Consumes(one)[i] in Consumes(one);
    }
  }

  lemma StepHeadsTell(s: System, p: Policy, e: Event, lineage: string)
    requires Safe(s) && HeadsTell(s, lineage) && (e.Load? ==> OrdinaryOn(lineage, e.req))
    ensures HeadsTell(Step(s, p, e), lineage)
  {
    StepRepo(s, p, e);
    if StoresAt(s, p, e) {
      var one := s.pending[e.slot];
      OrdinaryMovesHead(s, p, one, lineage);
      forall i | i in s.pending ensures HeadTells(Next(s, p, one), s.pending[i].base, lineage) {
        assert SafePending(s.repo, s.pending[i]);
      }
    }
  }

  /** Single use without the check: when every request is ordinary and on one lineage, each
      commit moves the head the others compare, so every interleaving keeps it. */
  lemma {:induction false} OneLineageUsesOnce(seed: Repo, p: Policy, events: seq<Event>, lineage: string)
    requires WellFormed(seed) && UsedOnce(seed) && CleanEvents(events) && AllOrdinaryOn(lineage, events)
    ensures UsedOnce(Run(seed, p, events).repo) && HeadsTell(Run(seed, p, events), lineage)
  {
    if events != [] {
      var front, e := events[..|events| - 1], events[|events| - 1];
      var s := Run(seed, p, front);
      OneLineageUsesOnce(seed, p, front, lineage);
      RunSafe(seed, p, front);
      RunTracked(seed, p, front);
      StepHeadsTell(s, p, e, lineage);
      if StoresAt(s, p, e) {
        assert SafePending(s.repo, s.pending[e.slot]);
        OrdinaryUnspent(s, p, s.pending[e.slot], lineage);
      }
      StepExactly(seed, s, p, e);
    }
  }
}
