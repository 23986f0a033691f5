/** What a commit answers and when, read off the repository and the bundle
    (core/runtime/testing.py:63-204). */
module CommitRules {
  import opened Records
  import opened Repository
  import opened CommitFacts

  // ---------------------------------------------------------------- views

  /** The view shows the repository's content on its lineage, at the snapshot that heads it. */
  predicate Shows(r: Repo, lineage: string, v: View) {
    && v.project == r.project && v.lineage == lineage && v.objects == r.objects && v.decisions == r.decisions
    && v.used == r.used && v.lineages == r.lineages && v.config == r.config && v.profile == r.profile
    && lineage in r.lineages && r.lineages[lineage].head.ref in r.snapshots
    && v.snapshot == r.snapshots[r.lineages[lineage].head.ref]
  }

  lemma LoadTells(r: Repo, project: string, lineage: string)
    ensures var loaded := LoadView(r, project, lineage);
            && (loaded.None? <==>
                  || project != r.project || lineage !in r.lineages
                  || r.lineages[lineage].head.ref !in r.snapshots)
            && (loaded.Some? ==> Shows(r, lineage, loaded.value))
  {
  }

  // ---------------------------------------------------------------- what stops a commit

  /** Two objects of the list, or one of them and a stored one, share a slot and differ. */
  predicate RevisionsClash(r: Repo, objs: seq<Object>) {
    || (exists o :: o in objs && StoredOtherwise(r.objects, Key(o.kind, o.id, o.revision), o))
    || exists i, j :: 0 <= i < j < |objs|
                      && objs[i].kind == objs[j].kind && objs[i].id == objs[j].id
                      && objs[i].revision == objs[j].revision && objs[i] != objs[j]
  }

  predicate DecisionsClash(r: Repo, objs: seq<Object>) {
    || (exists o :: o in objs && StoredOtherwise(r.decisions, o.id, o))
    || exists i, j :: 0 <= i < j < |objs| && objs[i].id == objs[j].id && objs[i] != objs[j]
  }

  predicate StoredOtherwise<K>(store: map<K, Object>, k: K, o: Object) { k in store && store[k] != o }

  /** The lineage is there once the commit has moved one head and added one child. */
  predicate KnownAfter(r: Repo, red: Reduction, lineage: string) {
    || lineage in r.lineages || (red.moved.Some? && red.moved.value.id == lineage)
    || (red.child.Some? && red.child.value.id == lineage)
  }

  /** An identity that must be new is taken, or one that must be known is not. */
  predicate IdentityMisfits(r: Repo, red: Reduction) {
    || (red.snapshot.Some? && red.snapshot.value.id in r.snapshots)
    || (red.moved.Some? && red.moved.value.id !in r.lineages)
    || (red.child.Some? && red.child.value.id in r.lineages)
    || (red.child.Some? && red.child.value.head.ref !in r.snapshots
        && !(red.snapshot.Some? && red.snapshot.value.id == red.child.value.head.ref))
    || (red.activate.Some? && !KnownAfter(r, red, red.activate.value))
    || red.audit.id in r.audits
  }

  predicate HeadMoved(r: Repo, b: Bundle, expected: Digest)
    requires b.lineage in r.lineages
  {
    var head := r.lineages[b.lineage].head;
    head.digest != expected || head.digest != b.previous.digest || head.ref != b.previous.ref
  }

  lemma MisfitsExactly(r: Repo, red: Reduction)
    ensures !Applicable(r, red) <==> IdentityMisfits(r, red)
  {
  }

  lemma RevisionsExactly(r: Repo, objs: seq<Object>)
    ensures SomeClash(r.objects, Slots(objs), objs) <==> RevisionsClash(r, objs)
  {
    if i :| 0 <= i < |objs| && Clashes(r.objects, Slots(objs), objs, i) {
      if Collides(r.objects, Slots(objs)[i], objs[i]) {
        assert objs[i] in objs && StoredOtherwise(r.objects, Key(objs[i].kind, objs[i].id, objs[i].revision), objs[i]);
      } else {
        var j :| 0 <= j < i && Rewrites(Slots(objs), objs, j, i);
      }
    }
    if o :| o in objs && StoredOtherwise(r.objects, Key(o.kind, o.id, o.revision), o) {
      var i :| 0 <= i < |objs| && objs[i] == o;
      assert Clashes(r.objects, Slots(objs), objs, i);
    }
    if i, j :| 0 <= i < j < |objs| && objs[i].Slot() == objs[j].Slot() && objs[i] != objs[j] {
      assert Rewrites(Slots(objs), objs, i, j);
      assert Clashes(r.objects, Slots(objs), objs, j);
    }
  }

  lemma DecisionsExactly(r: Repo, objs: seq<Object>)
    ensures SomeClash(r.decisions, Ids(objs), objs) <==> DecisionsClash(r, objs)
  {
    if i :| 0 <= i < |objs| && Clashes(r.decisions, Ids(objs), objs, i) {
      if Collides(r.decisions, Ids(objs)[i], objs[i]) {
        assert objs[i] in objs && StoredOtherwise(r.decisions, objs[i].id, objs[i]);
      } else {
        var j :| 0 <= j < i && Rewrites(Ids(objs), objs, j, i);
      }
    }
    if o :| o in objs && StoredOtherwise(r.decisions, o.id, o) {
      var i :| 0 <= i < |objs| && objs[i] == o;
      assert Clashes(r.decisions, Ids(objs), objs, i);
    }
    if i, j :| 0 <= i < j < |objs| && objs[i].id == objs[j].id && objs[i] != objs[j] {
      assert Rewrites(Ids(objs), objs, i, j);
      assert Clashes(r.decisions, Ids(objs), objs, j);
    }
  }

  /** What a commit answers: under a known key the recorded receipt or a conflict; an atomic failure for
      an unknown lineage; a stale head; an atomic failure for a clash or an identity that misfits; and
      only otherwise is anything stored. */
  lemma PersistTells(r: Repo, b: Bundle, expected: Digest)
    ensures var (next, answer) := Persist(r, b, expected);
            && (answer != Stored(b.receipt) ==> next == r)
            && if b.key in r.commits then
                 next == r && answer == (if r.commits[b.key].digest == b.digest then Stored(r.commits[b.key].receipt)
                                         else Failed(IdempotencyConflictError))
               else if b.lineage !in r.lineages then answer == Failed(AtomicCommitError)
               else if HeadMoved(r, b, expected) then answer == Failed(StaleHeadError)
               else if RevisionsClash(r, b.reduction.revisions) || DecisionsClash(r, b.reduction.decisions)
                       || IdentityMisfits(r, b.reduction)
               then answer == Failed(AtomicCommitError)
               else answer == Stored(b.receipt)
                    && b.key in next.commits && next.commits[b.key] == CommitRecord(b.digest, b.receipt)
  {
    StagedUnlessClash(r, b);
    RevisionsExactly(r, b.reduction.revisions);
    DecisionsExactly(r, b.reduction.decisions);
    MisfitsExactly(r, b.reduction);
  }
}
