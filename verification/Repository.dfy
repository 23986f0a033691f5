/** The transactional repository (core/runtime/testing.py): loading a view, and the
    all-or-nothing commit of a bundle. `Repo` is its content as a value; the class keeps
    the same content in fields that `Commit` replaces only when every check has passed. */
module Repository {
  import opened Common
  import opened Records

  datatype CommitRecord = CommitRecord(digest: Digest, receipt: Receipt)

  datatype Repo = Repo(
    project: string,
    config: Pin,
    profile: Pin,
    objects: map<Key, Object>,
    snapshots: map<string, Object>,
    decisions: map<string, Object>,
    lineages: map<string, Lineage>,
    active: string,
    used: set<string>,
    adoptions: set<string>,
    audits: map<string, Object>,
    commits: map<string, CommitRecord>)

  datatype Failure = AtomicCommitError | StaleHeadError | IdempotencyConflictError

  datatype Persisted =
    | Stored(receipt: Receipt)
    | Failed(failure: Failure)

  /** `find_commit`. */
  function CommitUnder(commits: map<string, CommitRecord>, key: string): Option<CommitRecord> {
    if key in commits then Some(commits[key]) else None
  }

  /** `load_state_view`; None stands for KeyError. */
  function LoadView(r: Repo, project: string, lineage: string): Option<View> {
    if project != r.project || lineage !in r.lineages || r.lineages[lineage].head.ref !in r.snapshots then None
    else
      Some(View(r.project, lineage, r.snapshots[r.lineages[lineage].head.ref], r.objects, r.decisions, r.used,
                r.lineages, r.config, r.profile))
  }

  predicate Collides<K>(store: map<K, Object>, k: K, obj: Object) {
    k in store && CanonicalDigest(store[k]) != CanonicalDigest(obj)
  }

  /** Object revisions staged one by one; None when one would change a stored revision. */
  function StageObjects(store: map<Key, Object>, objs: seq<Object>): Option<map<Key, Object>>
    decreases |objs|
  {
    if objs == [] then Some(store)
    else if Collides(store, objs[0].Slot(), objs[0]) then None
    else StageObjects(store[objs[0].Slot() := objs[0]], objs[1..])
  }

  function StageDecisions(store: map<string, Object>, objs: seq<Object>): Option<map<string, Object>>
    decreases |objs|
  {
    if objs == [] then Some(store)
    else if Collides(store, objs[0].id, objs[0]) then None
    else StageDecisions(store[objs[0].id := objs[0]], objs[1..])
  }

  predicate HeadStale(r: Repo, b: Bundle, expected: Digest)
    requires b.lineage in r.lineages
  {
    r.lineages[b.lineage].head.digest != expected || r.lineages[b.lineage].head != b.previous
  }

  function StageSnapshot(snapshots: map<string, Object>, s: Option<Object>): map<string, Object> {
    match s case None => snapshots case Some(o) => snapshots[o.id := o]
  }

  function StageLineages(lineages: map<string, Lineage>, red: Reduction): map<string, Lineage> {
    var moved := match red.moved case None => lineages case Some(l) => lineages[l.id := l];
    match red.child case None => moved case Some(l) => moved[l.id := l]
  }

  /** The reduction names only fresh identities and known lineages. */
  predicate Applicable(r: Repo, red: Reduction) {
    && (red.snapshot.Some? ==> red.snapshot.value.id !in r.snapshots)
    && (red.moved.Some? ==> red.moved.value.id in r.lineages)
    && (red.child.Some? ==> red.child.value.id !in r.lineages
                            && red.child.value.head.ref in StageSnapshot(r.snapshots, red.snapshot))
    && (red.activate.Some? ==> red.activate.value in StageLineages(r.lineages, red))
    && red.audit.id !in r.audits
  }

  function StoreSnapshot(objects: map<Key, Object>, s: Option<Object>): map<Key, Object> {
    match s case None => objects case Some(o) => objects[o.Slot() := o]
  }

  function Written(r: Repo, b: Bundle, objects: map<Key, Object>, decisions: map<string, Object>): Repo {
    var red := b.reduction;
    r.(objects := StoreSnapshot(objects, red.snapshot)[red.audit.Slot() := red.audit],
       snapshots := StageSnapshot(r.snapshots, red.snapshot),
       decisions := decisions,
       lineages := StageLineages(r.lineages, red),
       active := red.activate.GetOr(r.active),
       used := r.used + (set ref | ref in red.used),
       adoptions := r.adoptions + (set ref | ref in red.adoptions),
       audits := r.audits[red.audit.id := red.audit],
       commits := r.commits[b.key := CommitRecord(b.digest, b.receipt)])
  }

  /** The content after the bundle, or None when one of its parts cannot be stored. */
  function Staged(r: Repo, b: Bundle): Option<Repo> {
    match StageObjects(r.objects, b.reduction.revisions)
    case None => None
    case Some(objects) =>
      match StageDecisions(r.decisions, b.reduction.decisions)
      case None => None
      case Some(decisions) =>
        if Applicable(r, b.reduction) then Some(Written(r, b, objects, decisions)) else None
  }

  /** `commit` on values: the new content with the answer, or the old content with the error. */
  function Persist(r: Repo, b: Bundle, expected: Digest): (Repo, Persisted) {
    if b.key in r.commits then
      (r, if r.commits[b.key].digest == b.digest then Stored(r.commits[b.key].receipt)
          else Failed(IdempotencyConflictError))
    else if b.lineage !in r.lineages then (r, Failed(AtomicCommitError))
    else if HeadStale(r, b, expected) then (r, Failed(StaleHeadError))
    else
      match Staged(r, b)
      case None => (r, Failed(AtomicCommitError))
      case Some(next) => (next, Stored(b.receipt))
  }

  lemma StagedKeepsSetup(r: Repo, b: Bundle)
    ensures Staged(r, b).Some? ==>
              var next := Staged(r, b).value;
              next.project == r.project && next.config == r.config && next.profile == r.profile
  {}

  class ResearchStateRepository {
    var project: string
    var config: Pin
    var profile: Pin
    var objects: map<Key, Object>
    var snapshots: map<string, Object>
    var decisions: map<string, Object>
    var lineages: map<string, Lineage>
    var active: string
    var used: set<string>
    var adoptions: set<string>
    var audits: map<string, Object>
    var commits: map<string, CommitRecord>
    var failNextCommit: bool

    /** The repository's content as a value. */
    ghost function State(): Repo
      reads this
    {
      Repo(project, config, profile, objects, snapshots, decisions, lineages, active, used, adoptions, audits, commits)
    }

    constructor (seed: Repo)
      ensures State() == seed && !failNextCommit
    {
      project, config, profile := seed.project, seed.config, seed.profile;
      objects, snapshots, decisions := seed.objects, seed.snapshots, seed.decisions;
      lineages, active, used := seed.lineages, seed.active, seed.used;
      adoptions, audits, commits := seed.adoptions, seed.audits, seed.commits;
      failNextCommit := false;
    }

    method LoadStateView(projectRef: string, lineageRef: string) returns (v: Option<View>)
      ensures v == LoadView(State(), projectRef, lineageRef)
    {
      if projectRef != project || lineageRef !in lineages { return None; }
      var head := lineages[lineageRef].head.ref;
      if head !in snapshots { return None; }
      return Some(View(project, lineageRef, snapshots[head], objects, decisions, used, lineages, config, profile));
    }

    method FindCommit(key: string) returns (prior: Option<CommitRecord>)
      ensures prior == CommitUnder(State().commits, key)
    {
      prior := if key in commits then Some(commits[key]) else None;
    }

    method StageRevisions(revisions: seq<Object>) returns (staged: Option<map<Key, Object>>)
      ensures staged == StageObjects(objects, revisions)
    {
      var store := objects;
      var i := 0;
      while i < |revisions|
        invariant 0 <= i <= |revisions|
        invariant StageObjects(objects, revisions) == StageObjects(store, revisions[i..])
      {
        assert revisions[i..][0] == revisions[i] && revisions[i..][1..] == revisions[i + 1..];
        var obj := revisions[i];
        if Collides(store, obj.Slot(), obj) { return None; }
        store := store[obj.Slot() := obj];
        i := i + 1;
      }
      return Some(store);
    }

    method StageRecords(records: seq<Object>) returns (staged: Option<map<string, Object>>)
      ensures staged == StageDecisions(decisions, records)
    {
      var store := decisions;
      var i := 0;
      while i < |records|
        invariant 0 <= i <= |records|
        invariant StageDecisions(decisions, records) == StageDecisions(store, records[i..])
      {
        assert records[i..][0] == records[i] && records[i..][1..] == records[i + 1..];
        var obj := records[i];
        if Collides(store, obj.id, obj) { return None; }
        store := store[obj.id := obj];
        i := i + 1;
      }
      return Some(store);
    }

    /** Lineage heads, new lineages and the active pointer, on copies. */
    method StageLineageChanges(red: Reduction, snapshotIds: map<string, Object>)
      returns (staged: Option<map<string, Lineage>>)
      requires snapshotIds == StageSnapshot(snapshots, red.snapshot)
      ensures staged.Some? ==> staged.value == StageLineages(lineages, red)
      ensures staged.Some? <==>
                && (red.moved.Some? ==> red.moved.value.id in lineages)
                && (red.child.Some? ==> red.child.value.id !in lineages && red.child.value.head.ref in snapshotIds)
                && (red.activate.Some? ==> red.activate.value in StageLineages(lineages, red))
    {
      var store := lineages;
      if red.moved.Some? {
        if red.moved.value.id !in store { return None; }
        store := store[red.moved.value.id := red.moved.value];
      }
      if red.child.Some? {
        if red.child.value.id in store || red.child.value.head.ref !in snapshotIds { return None; }
        store := store[red.child.value.id := red.child.value];
      }
      if red.activate.Some? && red.activate.value !in store { return None; }
      return Some(store);
    }

    method StageBundle(b: Bundle) returns (staged: Option<Repo>)
      ensures staged == Staged(State(), b)
    {
      var red := b.reduction;
      var newObjects := StageRevisions(red.revisions);
      if newObjects.None? { return None; }
      var newDecisions := StageRecords(red.decisions);
      if newDecisions.None? { return None; }
      if red.snapshot.Some? && red.snapshot.value.id in snapshots { return None; }
      var newSnapshots := StageSnapshot(snapshots, red.snapshot);
      var newLineages := StageLineageChanges(red, newSnapshots);
      if newLineages.None? || red.audit.id in audits { return None; }
      return Some(Repo(
        project, config, profile,
        StoreSnapshot(newObjects.value, red.snapshot)[red.audit.Slot() := red.audit],
        newSnapshots, newDecisions.value, newLineages.value,
        red.activate.GetOr(active),
        used + (set ref | ref in red.used),
        adoptions + (set ref | ref in red.adoptions),
        audits[red.audit.id := red.audit],
        commits[b.key := CommitRecord(b.digest, b.receipt)]));
    }

    method Publish(next: Repo)
      requires next.project == project && next.config == config && next.profile == profile
      modifies this
      ensures State() == next && failNextCommit == old(failNextCommit)
    {
      objects, snapshots, decisions, lineages := next.objects, next.snapshots, next.decisions, next.lineages;
      active, used, adoptions := next.active, next.used, next.adoptions;
      audits, commits := next.audits, next.commits;
    }

    /** Either the whole bundle is stored or nothing changes. */
    method Commit(b: Bundle, expected: Digest) returns (outcome: Persisted)
      modifies this
      ensures !failNextCommit
      ensures old(failNextCommit) ==> State() == old(State()) && outcome == Failed(AtomicCommitError)
      ensures !old(failNextCommit) ==> (State(), outcome) == Persist(old(State()), b, expected)
    {
      if failNextCommit {
        failNextCommit := false;
        return Failed(AtomicCommitError);
      }
      if b.key in commits {
        return if commits[b.key].digest == b.digest then Stored(commits[b.key].receipt)
            else Failed(IdempotencyConflictError);
      }
      if b.lineage !in lineages { return Failed(AtomicCommitError); }
      var head := lineages[b.lineage].head;
      if head.digest != expected || head != b.previous { return Failed(StaleHeadError); }
      var staged := StageBundle(b);
      if staged.None? { return Failed(AtomicCommitError); }
      StagedKeepsSetup(State(), b);
      Publish(staged.value);
      return Stored(b.receipt);
    }
  }
}
