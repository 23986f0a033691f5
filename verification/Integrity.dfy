/** Snapshots of every reachable repository: members resolve to the recorded revisions, heads
    resolve, ancestry leads back to the seed, child lineages descend from their baseline, and
    ordinary heads are closed under references. */
module Integrity {
  import opened Common
  import opened Records
  import opened Reducer
  import opened ReducerFacts
  import opened StateValidation
  import opened Repository
  import opened Service
  import opened CommitFacts
  import opened History

  // ---------------------------------------------------------------- members

  ghost predicate MembersResolve(objects: map<Key, Object>, s: Object) {
    forall m :: m in s.members ==>
      Key(m.kind, m.id, s.members[m].revision) in objects
      && s.members[m].digest == CanonicalDigest(objects[Key(m.kind, m.id, s.members[m].revision)])
  }

  ghost predicate SnapshotsResolve(r: Repo) {
    forall id :: id in r.snapshots ==> MembersResolve(r.objects, r.snapshots[id])
  }

  ghost predicate HeadsResolve(r: Repo) {
    forall l :: l in r.lineages ==>
      r.lineages[l].head.ref in r.snapshots && r.snapshots[r.lineages[l].head.ref].seal == r.lineages[l].head.digest
  }

  lemma {:induction false} OverlayAt(objects: map<Key, Object>, objs: seq<Object>, k: Key)
    ensures k in Overlay(objects, objs) ==>
              (Overlay(objects, objs)[k] in objs && Overlay(objects, objs)[k].Slot() == k)
              || (k in objects && Overlay(objects, objs)[k] == objects[k])
  {
    if objs != [] { OverlayAt(objects, objs[..|objs| - 1], k); }
  }

  lemma CleanPost(v: View, req: Request, red: Reduction)
    requires PostCodes(v, req, red) == {}
    ensures Closed(Fold(v.Effective(), red.revisions), v.project)
    ensures red.snapshot.Some? ==> SnapshotCodes(v, red.revisions, red.snapshot.value) == {}
    ensures forall o :: o in red.revisions ==> EvidenceCodes(v, req, o) == {}
  {
    assert "RT-REF-001" !in PostCodes(v, req, red);
    forall o | o in red.revisions ensures EvidenceCodes(v, req, o) == {} {
      var i :| 0 <= i < |red.revisions| && red.revisions[i] == o;
      forall c | c in EvidenceCodes(v, req, o) ensures c in PostCodes(v, req, red) {}
    }
  }

  lemma NewSnapshotResolves(v: View, r: Repo, b: Bundle)
    requires Extends(v.objects, r.objects) && ReservedFiled(r) && Tidy(b.reduction)
    requires Staged(r, b).Some? && b.reduction.snapshot.Some?
    requires SnapshotCodes(v, b.reduction.revisions, b.reduction.snapshot.value) == {}
    requires forall o :: o in b.reduction.revisions ==> Unreserved(o.kind)
    ensures MembersResolve(Staged(r, b).value.objects, b.reduction.snapshot.value)
  {
    var red := b.reduction;
    var s := red.snapshot.value;
    var exact := Overlay(v.objects, red.revisions);
    StagedObjects(r.objects, red.revisions);
    var staged := StageObjects(r.objects, red.revisions).value;
    var codes := SnapshotCodes(v, red.revisions, s);
    assert "RT-STATE-003" !in codes && "RT-STATE-004" !in codes;
    forall m | m in s.members
      ensures var k := Key(m.kind, m.id, s.members[m].revision);
              k in Staged(r, b).value.objects && s.members[m].digest == CanonicalDigest(Staged(r, b).value.objects[k])
    {
      assert !MemberUnresolved(exact, m, s.members[m]) && !MemberMismatched(exact, m, s.members[m]);
      var k := Key(m.kind, m.id, s.members[m].revision);
      OverlayAt(v.objects, red.revisions, k);
      assert k in staged && staged[k] == exact[k];
      assert k != red.audit.Slot() && k != s.Slot();
    }
  }

  // ---------------------------------------------------------------- ancestry

  function Prior(s: Object): Option<string> { s.Text("prior_snapshot_id") }

  /** Following `prior_snapshot_id` n times from `id` arrives at a seed snapshot for the first time. */
  ghost predicate BackToSeed(snapshots: map<string, Object>, seeds: set<string>, id: string, n: nat)
    decreases n
  {
    && id in snapshots
    && if id in seeds then n == 0
       else n > 0 && Prior(snapshots[id]).Some? && BackToSeed(snapshots, seeds, Prior(snapshots[id]).value, n - 1)
  }

  /** Following `prior_snapshot_id` n times from `id`, through non-seed snapshots, arrives at `ancestor`. */
  ghost predicate Descends(snapshots: map<string, Object>, seeds: set<string>, id: string, ancestor: string, n: nat)
    decreases n
  {
    && id in snapshots
    && if n == 0 then id == ancestor
       else id !in seeds && Prior(snapshots[id]).Some?
            && Descends(snapshots, seeds, Prior(snapshots[id]).value, ancestor, n - 1)
  }

  ghost predicate Anchored(snapshots: map<string, Object>, seeds: set<string>) {
    forall id :: id in snapshots ==> exists n: nat :: BackToSeed(snapshots, seeds, id, n)
  }

  ghost predicate DescendsFromBaseline(snapshots: map<string, Object>, seeds: set<string>, l: Lineage) {
    l.baseline.Some? && exists n: nat :: Descends(snapshots, seeds, l.head.ref, l.baseline.value, n)
  }

  lemma {:induction false} BackToSeedKept(a: map<string, Object>, b: map<string, Object>, seeds: set<string>,
                                          id: string, n: nat)
    requires Extends(a, b) && BackToSeed(a, seeds, id, n)
    ensures BackToSeed(b, seeds, id, n)
    decreases n
  {
    if n > 0 { BackToSeedKept(a, b, seeds, Prior(a[id]).value, n - 1); }
  }

  lemma {:induction false} DescendsKept(a: map<string, Object>, b: map<string, Object>, seeds: set<string>,
                                       id: string, ancestor: string, n: nat)
    requires Extends(a, b) && Descends(a, seeds, id, ancestor, n)
    ensures Descends(b, seeds, id, ancestor, n)
    decreases n
  {
    if n > 0 { DescendsKept(a, b, seeds, Prior(a[id]).value, ancestor, n - 1); }
  }

  /** The distance to the seed shrinks along every ancestor link. */
  lemma {:induction false} AncestorsNearerSeed(snapshots: map<string, Object>, seeds: set<string>,
                                               id: string, ancestor: string, n: nat, k: nat)
    requires BackToSeed(snapshots, seeds, id, n) && Descends(snapshots, seeds, id, ancestor, k)
    ensures k <= n && BackToSeed(snapshots, seeds, ancestor, n - k)
    decreases k
  {
    if k > 0 { AncestorsNearerSeed(snapshots, seeds, Prior(snapshots[id]).value, ancestor, n - 1, k - 1); }
  }

  lemma {:induction false} DistanceUnique(snapshots: map<string, Object>, seeds: set<string>, id: string, n: nat,
                                          k: nat)
    requires BackToSeed(snapshots, seeds, id, n) && BackToSeed(snapshots, seeds, id, k)
    ensures n == k
    decreases n
  {
    if n > 0 { DistanceUnique(snapshots, seeds, Prior(snapshots[id]).value, n - 1, k - 1); }
  }

  /** Ancestry has no cycle: no snapshot is its own proper ancestor. */
  lemma Acyclic(snapshots: map<string, Object>, seeds: set<string>, id: string, k: nat)
    requires Anchored(snapshots, seeds) && Descends(snapshots, seeds, id, id, k)
    ensures k == 0
  {
    var n: nat :| BackToSeed(snapshots, seeds, id, n);
    AncestorsNearerSeed(snapshots, seeds, id, id, n, k);
    DistanceUnique(snapshots, seeds, id, n, n - k);
  }

  lemma AnchoredGrows(a: map<string, Object>, b: map<string, Object>, seeds: set<string>, s: Object)
    requires Anchored(a, seeds) && b == a[s.id := s] && s.id !in a
    requires seeds <= a.Keys && Prior(s).Some? && Prior(s).value in a
    ensures Anchored(b, seeds)
  {
    forall id | id in b ensures exists n: nat :: BackToSeed(b, seeds, id, n) {
      var start := if id == s.id then Prior(s).value else id;
      var n: nat :| BackToSeed(a, seeds, start, n);
      BackToSeedKept(a, b, seeds, start, n);
      if id == s.id { assert BackToSeed(b, seeds, id, n + 1); }
    }
  }

  // ---------------------------------------------------------------- reference closure

  predicate Ordinary(req: Request) { !HasPlan(req.actions) && !HasSwitch(req.actions) }

  /** The objects a snapshot's members stand for. */
  function Resolved(objects: map<Key, Object>, s: Object): map<Ref, Object> {
    map m | m in s.members && Key(m.kind, m.id, s.members[m].revision) in objects
      :: objects[Key(m.kind, m.id, s.members[m].revision)]
  }

  /** A stored ordinary request left its snapshot closed under references. */
  ghost predicate ClosedHead(r: Repo, req: Request) {
    req.snapshotId in r.snapshots && Closed(Resolved(r.objects, r.snapshots[req.snapshotId]), r.project)
  }

  lemma ObjectsOneRevision(v: View, req: Request)
    requires OrdinaryAccepted(v, req)
    ensures OneRevisionEach(ObjectsOf(req.actions))
  {
    var s := ObjectsOf(req.actions);
    forall i, j | 0 <= i < j < |s| && s[i].Identity() == s[j].Identity() ensures s[i].revision == s[j].revision {
      forall o | o in s ensures Follows(v, o) {
        SortMembers(s, o);
        OrdinaryOrigin(v, req, o);
        CarriedFollows(v, req, o);
      }
      assert Follows(v, s[i]) && Follows(v, s[j]);
    }
  }

  /** Reducer and reference validator agree: the members the reducer folds in action order
      are the map the validator folds over the sorted revisions. */
  lemma ReducerValidatorAgree(v: View, req: Request, red: Reduction)
    requires Ordinary(req) && Reduce(v, req) == Some(red)
    ensures red.snapshot.Some?
    ensures red.snapshot.value.members == Rows(Fold(v.Effective(), red.revisions))
  {
    ObjectsOneRevision(v, req);
    FoldOrderIrrelevant(v.Effective(), ObjectsOf(req.actions));
  }

  lemma ResolvedRows(objects: map<Key, Object>, members: map<Ref, Object>, s: Object)
    requires s.members == Rows(members) && MembersResolve(objects, s)
    ensures Resolved(objects, s) == members
  {
    forall m | m in members ensures m in Resolved(objects, s) && Resolved(objects, s)[m] == members[m] {
      assert m in s.members;
    }
  }

  lemma NewHeadClosed(v: View, req: Request, red: Reduction, objects: map<Key, Object>)
    requires Ordinary(req) && Reduce(v, req) == Some(red) && PostCodes(v, req, red) == {}
    requires red.snapshot.Some? && MembersResolve(objects, red.snapshot.value)
    ensures Closed(Resolved(objects, red.snapshot.value), v.project)
  {
    CleanPost(v, req, red);
    ReducerValidatorAgree(v, req, red);
    ResolvedRows(objects, Fold(v.Effective(), red.revisions), red.snapshot.value);
  }

  // ---------------------------------------------------------------- every run

  ghost predicate Integral(seed: Repo, s: System) {
    && SnapshotsResolve(s.repo) && HeadsResolve(s.repo)
    && seed.snapshots.Keys <= s.repo.snapshots.Keys
    && Anchored(s.repo.snapshots, seed.snapshots.Keys)
    && AllDescend(s.repo.snapshots, seed.snapshots.Keys, s.repo.lineages, seed.lineages.Keys)
    && (forall i :: 0 <= i < |s.log| && Ordinary(s.log[i].req) ==> ClosedHead(s.repo, s.log[i].req))
  }

  lemma ResolveKept(a: Repo, b: Repo)
    requires Grows(a, b) && SnapshotsResolve(a)
    requires forall id :: id in b.snapshots && id !in a.snapshots ==> MembersResolve(b.objects, b.snapshots[id])
    ensures SnapshotsResolve(b)
  {
    forall id | id in a.snapshots ensures MembersResolve(b.objects, b.snapshots[id]) {
      assert MembersResolve(a.objects, a.snapshots[id]);
    }
  }

  lemma StoreResolves(base: Repo, r: Repo, req: Request, v: View, red: Reduction, b: Bundle)
    requires WellFormed(r) && WellFormed(base) && Grows(base, r) && Clean(req)
    requires LoadView(base, req.project, req.lineage) == Some(v) && Reduce(v, req) == Some(red)
    requires red.snapshot.Some? ==> SnapshotCodes(v, red.revisions, red.snapshot.value) == {}
    requires b.reduction == red && b.key !in r.commits && Staged(r, b).Some?
    ensures red.snapshot.Some? ==> MembersResolve(Staged(r, b).value.objects, red.snapshot.value)
  {
    if red.snapshot.Some? {
      ReducedTidy(v, req, red);
      ViewOfBase(base, req.project, req.lineage);
      forall o | o in red.revisions ensures Unreserved(o.kind) { RevisionsUnreserved(v, req, red, o); }
      NewSnapshotResolves(v, r, b);
    }
  }

  lemma StoreHeads(r: Repo, v: View, req: Request, b: Bundle)
    requires Keyed(r) && HeadsResolve(r) && Heads(v, req, b.reduction) && Staged(r, b).Some?
    ensures HeadsResolve(Staged(r, b).value)
  {
  }

  /** Every lineage that is not part of the seed descends from its baseline. */
  ghost predicate AllDescend(snapshots: map<string, Object>, seeds: set<string>, lineages: map<string, Lineage>,
                             original: set<string>) {
    forall l :: l in lineages && l !in original ==> DescendsFromBaseline(snapshots, seeds, lineages[l])
  }

  lemma LineKept(a: map<string, Object>, b: map<string, Object>, seeds: set<string>, line: Lineage)
    requires Extends(a, b) && DescendsFromBaseline(a, seeds, line)
    ensures DescendsFromBaseline(b, seeds, line)
  {
    var n: nat :| Descends(a, seeds, line.head.ref, line.baseline.value, n);
    DescendsKept(a, b, seeds, line.head.ref, line.baseline.value, n);
  }

  /** A lineage whose head moves to a snapshot that follows its old head still descends. */
  lemma LineMoves(a: map<string, Object>, b: map<string, Object>, seeds: set<string>, line: Lineage, next: Lineage,
                  s: Object)
    requires Extends(a, b) && DescendsFromBaseline(a, seeds, line)
    requires s.id in b && b[s.id] == s && s.id !in seeds && Prior(s) == Some(line.head.ref)
    requires next.head.ref == s.id && next.baseline == line.baseline
    ensures DescendsFromBaseline(b, seeds, next)
  {
    var n: nat :| Descends(a, seeds, line.head.ref, line.baseline.value, n);
    DescendsKept(a, b, seeds, line.head.ref, line.baseline.value, n);
    assert Descends(b, seeds, s.id, line.baseline.value, n + 1);
  }

  lemma LineStarts(b: map<string, Object>, seeds: set<string>, next: Lineage, s: Object, baseline: string)
    requires s.id in b && b[s.id] == s && s.id !in seeds && Prior(s) == Some(baseline) && baseline in b
    requires next.head.ref == s.id && next.baseline == Some(baseline)
    ensures DescendsFromBaseline(b, seeds, next)
  {
    assert Descends(b, seeds, baseline, baseline, 0);
    assert Descends(b, seeds, s.id, baseline, 1);
  }

  /** What a stored bundle does to the snapshots and the lineages. */
  lemma StagedLines(r: Repo, v: View, req: Request, b: Bundle)
    requires Heads(v, req, b.reduction) && Staged(r, b).Some?
    ensures var red, next := b.reduction, Staged(r, b).value;
            && next.snapshots == StageSnapshot(r.snapshots, red.snapshot)
                && next.lineages == StageLineages(r.lineages, red)
            && (red.snapshot.Some? ==>
                 red.snapshot.value.id !in r.snapshots && Prior(red.snapshot.value) == Some(v.snapshot.id))
  {
  }

  lemma StagedAncestry(a: Repo, v: View, req: Request, red: Reduction, seeds: set<string>, original: set<string>)
    requires Heads(v, req, red) && v.snapshot.id in a.snapshots && seeds <= a.snapshots.Keys
    requires req.lineage in a.lineages && a.lineages[req.lineage].head.ref == v.snapshot.id
    requires red.snapshot.Some? ==> red.snapshot.value.id !in a.snapshots
    requires red.moved.Some? ==>
               red.moved.value.id == req.lineage && Fixed(red.moved.value) == Fixed(a.lineages[req.lineage])
    requires AllDescend(a.snapshots, seeds, a.lineages, original)
    ensures AllDescend(StageSnapshot(a.snapshots, red.snapshot), seeds, StageLineages(a.lineages, red), original)
  {
    var b, lines := StageSnapshot(a.snapshots, red.snapshot), StageLineages(a.lineages, red);
    forall l | l in lines && l !in original ensures DescendsFromBaseline(b, seeds, lines[l]) {
      if red.child.Some? && l == red.child.value.id {
        LineStarts(b, seeds, lines[l], red.snapshot.value, v.snapshot.id);
      } else if red.moved.Some? && l == red.moved.value.id {
        LineMoves(a.snapshots, b, seeds, a.lineages[l], lines[l], red.snapshot.value);
      } else {
        LineKept(a.snapshots, b, seeds, a.lineages[l]);
      }
    }
  }

  /** The head a stored ordinary bundle replaces is the snapshot its view was loaded from. */
  lemma StoreAncestry(seed: Repo, r: Repo, v: View, req: Request, b: Bundle)
    requires Heads(v, req, b.reduction) && Staged(r, b).Some?
    requires v.snapshot.id in r.snapshots && seed.snapshots.Keys <= r.snapshots.Keys
    requires req.lineage in r.lineages && r.lineages[req.lineage].head.ref == v.snapshot.id
    requires b.reduction.moved.Some? ==>
               b.reduction.moved.value.id == req.lineage
                   && Fixed(b.reduction.moved.value) == Fixed(r.lineages[req.lineage])
    requires Anchored(r.snapshots, seed.snapshots.Keys)
    requires AllDescend(r.snapshots, seed.snapshots.Keys, r.lineages, seed.lineages.Keys)
    ensures var next := Staged(r, b).value;
            Anchored(next.snapshots, seed.snapshots.Keys)
            && AllDescend(next.snapshots, seed.snapshots.Keys, next.lineages, seed.lineages.Keys)
  {
    var red, seeds := b.reduction, seed.snapshots.Keys;
    StagedLines(r, v, req, b);
    StagedAncestry(r, v, req, red, seeds, seed.lineages.Keys);
    if red.snapshot.Some? {
      AnchoredGrows(r.snapshots, StageSnapshot(r.snapshots, red.snapshot), seeds, red.snapshot.value);
    }
  }

  lemma ClosedHeadKept(a: Repo, b: Repo, req: Request)
    requires Grows(a, b) && SnapshotsResolve(a) && ClosedHead(a, req)
    ensures ClosedHead(b, req)
  {
    var s := a.snapshots[req.snapshotId];
    assert MembersResolve(a.objects, s);
    assert Resolved(b.objects, s) == Resolved(a.objects, s);
  }

  lemma NewSnapshotOnly(r: Repo, b: Bundle, id: string)
    requires Staged(r, b).Some? && id in Staged(r, b).value.snapshots && id !in r.snapshots
    ensures b.reduction.snapshot.Some? && b.reduction.snapshot.value.id == id
    ensures Staged(r, b).value.snapshots[id] == b.reduction.snapshot.value
  {}

  lemma StoreSnapshots(base: Repo, r: Repo, req: Request, v: View, red: Reduction, b: Bundle)
    requires WellFormed(r) && WellFormed(base) && Grows(base, r) && Clean(req) && SnapshotsResolve(r)
    requires LoadView(base, req.project, req.lineage) == Some(v) && Reduce(v, req) == Some(red)
    requires PostCodes(v, req, red) == {}
    requires b.reduction == red && b.key !in r.commits && Staged(r, b).Some?
    ensures SnapshotsResolve(Staged(r, b).value)
    ensures Ordinary(req) ==> ClosedHead(Staged(r, b).value, req)
  {
    var next := Staged(r, b).value;
    CleanPost(v, req, red);
    StoredIsWellFormed(base, r, req, v, red, b);
    StoreResolves(base, r, req, v, red, b);
    forall id | id in next.snapshots && id !in r.snapshots ensures MembersResolve(next.objects, next.snapshots[id]) {
      NewSnapshotOnly(r, b, id);
    }
    ResolveKept(r, next);
    if Ordinary(req) {
      ReducerValidatorAgree(v, req, red);
      ReducedTidy(v, req, red);
      NewHeadClosed(v, req, red, next.objects);
      NewSnapshotFiled(r, b);
      ViewOfBase(base, req.project, req.lineage);
    }
  }

  lemma NewSnapshotFiled(r: Repo, b: Bundle)
    requires Staged(r, b).Some? && b.reduction.snapshot.Some?
    ensures var s := b.reduction.snapshot.value;
            s.id in Staged(r, b).value.snapshots && Staged(r, b).value.snapshots[s.id] == s
    ensures Staged(r, b).value.project == r.project
  {}

  /** The lineage a bundle was judged on is still as it was when the bundle is stored. */
  lemma BaseLineage(base: Repo, r: Repo, req: Request, v: View, red: Reduction, b: Bundle)
    requires WellFormed(r) && WellFormed(base) && Grows(base, r)
    requires LoadView(base, req.project, req.lineage) == Some(v) && Heads(v, req, red)
    requires b == BundleOf(v, req, red) && Stores(r, b, req.head.digest)
    ensures v.snapshot.id in r.snapshots && req.lineage in r.lineages
            && r.lineages[req.lineage].head.ref == v.snapshot.id
    ensures red.moved.Some? ==>
              red.moved.value.id == req.lineage && Fixed(red.moved.value) == Fixed(r.lineages[req.lineage])
  {
    ViewOfBase(base, req.project, req.lineage);
  }

  lemma StoreLineages(seed: Repo, base: Repo, r: Repo, req: Request, v: View, red: Reduction, b: Bundle)
    requires WellFormed(r) && WellFormed(base) && Grows(base, r)
    requires LoadView(base, req.project, req.lineage) == Some(v) && Reduce(v, req) == Some(red)
    requires b == BundleOf(v, req, red) && Stores(r, b, req.head.digest)
    requires HeadsResolve(r) && seed.snapshots.Keys <= r.snapshots.Keys && Anchored(r.snapshots, seed.snapshots.Keys)
    requires AllDescend(r.snapshots, seed.snapshots.Keys, r.lineages, seed.lineages.Keys)
    ensures var next := Staged(r, b).value;
            HeadsResolve(next) && seed.snapshots.Keys <= next.snapshots.Keys
            && Anchored(next.snapshots, seed.snapshots.Keys)
            && AllDescend(next.snapshots, seed.snapshots.Keys, next.lineages, seed.lineages.Keys)
  {
    ReducedHeads(v, req, red);
    BaseLineage(base, r, req, v, red, b);
    StagedLines(r, v, req, b);
    StoreHeads(r, v, req, b);
    StoreAncestry(seed, r, v, req, b);
  }

  lemma LogClosed(a: Repo, b: Repo, log: seq<Pending>, one: Pending)
    requires Grows(a, b) && SnapshotsResolve(a)
    requires forall i :: 0 <= i < |log| && Ordinary(log[i].req) ==> ClosedHead(a, log[i].req)
    requires Ordinary(one.req) ==> ClosedHead(b, one.req)
    ensures var longer := log + [one];
            forall i :: 0 <= i < |longer| && Ordinary(longer[i].req) ==> ClosedHead(b, longer[i].req)
  {
    forall i | 0 <= i < |log| && Ordinary(log[i].req) ensures ClosedHead(b, log[i].req) {
      ClosedHeadKept(a, b, log[i].req);
    }
  }

  lemma StoredIntegral(seed: Repo, s: System, one: Pending, v: View, red: Reduction, b: Bundle)
    requires WellFormed(s.repo) && SafePending(s.repo, one) && Integral(seed, s)
    requires LoadView(one.base, one.req.project, one.req.lineage) == Some(v) && Reduce(v, one.req) == Some(red)
    requires PostCodes(v, one.req, red) == {}
    requires b == BundleOf(v, one.req, red) && Stores(s.repo, b, one.req.head.digest)
    ensures Integral(seed, System(Staged(s.repo, b).value, map[], s.log + [one]))
  {
    StoredIsWellFormed(one.base, s.repo, one.req, v, red, b);
    StoreSnapshots(one.base, s.repo, one.req, v, red, b);
    StoreLineages(seed, one.base, s.repo, one.req, v, red, b);
    LogClosed(s.repo, Staged(s.repo, b).value, s.log, one);
  }

  lemma StoreIntegral(seed: Repo, s: System, p: Policy, one: Pending)
    requires Safe(s) && SafePending(s.repo, one) && Integral(seed, s) && Persists(s, p, one)
    ensures Integral(seed, System(Next(s, p, one), map[], s.log + [one]))
  {
    var v, red, b := StoredBundle(s, p, one);
    StoredIntegral(seed, s, one, v, red, b);
  }

  lemma StepIntegral(seed: Repo, s: System, p: Policy, e: Event)
    requires Safe(s) && Integral(seed, s)
    ensures Integral(seed, Step(s, p, e))
  {
    if e.Finish? && e.slot in s.pending && !e.fails {
      var one := s.pending[e.slot];
      assert SafePending(s.repo, one);
      if Persists(s, p, one) { StoreIntegral(seed, s, p, one); } else { NotStored(s, p, one); }
    }
  }

  /** A well-formed seed: its snapshots' members and its lineages' heads resolve. */
  ghost predicate SoundSeed(seed: Repo) {
    WellFormed(seed) && SnapshotsResolve(seed) && HeadsResolve(seed)
  }

  /** Snapshot integrity over every run, however loads and commits interleave. */
  lemma {:induction false} RunIntegral(seed: Repo, p: Policy, events: seq<Event>)
    requires SoundSeed(seed) && CleanEvents(events)
    ensures Integral(seed, Run(seed, p, events))
  {
    if events == [] {
      forall id | id in seed.snapshots ensures exists n: nat :: BackToSeed(seed.snapshots, seed.snapshots.Keys, id, n) {
        assert BackToSeed(seed.snapshots, seed.snapshots.Keys, id, 0);
      }
    } else {
      var front := events[..|events| - 1];
      RunSafe(seed, p, front);
      RunIntegral(seed, p, front);
      StepIntegral(seed, Run(seed, p, front), p, events[|events| - 1]);
    }
  }
}
