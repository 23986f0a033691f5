/** What one commit does to the stored content. */
module CommitFacts {
  import opened Common
  import opened Records
  import opened Repository

  ghost predicate Extends<K(!new), V>(small: map<K, V>, big: map<K, V>) {
    forall k :: k in small ==> k in big && big[k] == small[k]
  }

  lemma {:induction false} StagedObjects(store: map<Key, Object>, objs: seq<Object>)
    requires StageObjects(store, objs).Some?
    ensures var staged := StageObjects(store, objs).value;
            Extends(store, staged)
            && (forall o :: o in objs ==> o.Slot() in staged && staged[o.Slot()] == o)
            && (forall k :: k in staged ==> k in store || (staged[k] in objs && staged[k].Slot() == k))
    decreases |objs|
  {
    if objs != [] {
      StagedObjects(store[objs[0].Slot() := objs[0]], objs[1..]);
    }
  }

  lemma {:induction false} StagedDecisions(store: map<string, Object>, objs: seq<Object>)
    requires StageDecisions(store, objs).Some?
    ensures var staged := StageDecisions(store, objs).value;
            Extends(store, staged)
            && (forall o :: o in objs ==> o.id in staged && staged[o.id] == o)
            && (forall k :: k in staged ==> k in store || (staged[k] in objs && staged[k].id == k))
    decreases |objs|
  {
    if objs != [] {
      StagedDecisions(store[objs[0].id := objs[0]], objs[1..]);
    }
  }

  // ---------------------------------------------------------------- when a commit fails

  /** Objects staged one by one under given slots: what object revisions and Decisions share. */
  function Stage<K(==)>(store: map<K, Object>, slots: seq<K>, objs: seq<Object>): Option<map<K, Object>>
    requires |slots| == |objs|
    decreases |objs|
  {
    if objs == [] then Some(store)
    else if Collides(store, slots[0], objs[0]) then None
    else Stage(store[slots[0] := objs[0]], slots[1..], objs[1..])
  }

  function Slots(objs: seq<Object>): seq<Key> { seq(|objs|, i requires 0 <= i < |objs| => objs[i].Slot()) }

  function Ids(objs: seq<Object>): seq<string> { seq(|objs|, i requires 0 <= i < |objs| => objs[i].id) }

  lemma {:induction false} ObjectsAreStaged(store: map<Key, Object>, objs: seq<Object>)
    ensures StageObjects(store, objs) == Stage(store, Slots(objs), objs)
    decreases |objs|
  {
    if objs != [] {
      assert Slots(objs)[1..] == Slots(objs[1..]);
      ObjectsAreStaged(store[objs[0].Slot() := objs[0]], objs[1..]);
    }
  }

  lemma {:induction false} DecisionsAreStaged(store: map<string, Object>, objs: seq<Object>)
    ensures StageDecisions(store, objs) == Stage(store, Ids(objs), objs)
    decreases |objs|
  {
    if objs != [] {
      assert Ids(objs)[1..] == Ids(objs[1..]);
      DecisionsAreStaged(store[objs[0].id := objs[0]], objs[1..]);
    }
  }

  predicate Rewrites<K(==)>(slots: seq<K>, objs: seq<Object>, j: int, i: int)
    requires |slots| == |objs| && 0 <= j < |objs| && 0 <= i < |objs|
  {
    slots[j] == slots[i] && objs[j] != objs[i]
  }

  /** Object `i` would change what its slot holds in the store or got from an earlier object. */
  predicate Clashes<K(==)>(store: map<K, Object>, slots: seq<K>, objs: seq<Object>, i: int)
    requires |slots| == |objs| && 0 <= i < |objs|
  {
    Collides(store, slots[i], objs[i]) || exists j :: 0 <= j < i && Rewrites(slots, objs, j, i)
  }

  lemma ClashShift<K>(store: map<K, Object>, slots: seq<K>, objs: seq<Object>, i: int)
    requires |slots| == |objs| && 0 <= i < |objs| - 1 && !Collides(store, slots[0], objs[0])
    ensures Clashes(store[slots[0] := objs[0]], slots[1..], objs[1..], i) <==> Clashes(store, slots, objs, i + 1)
  {
    var rest, k := objs[1..], i + 1;
    if j :| 0 <= j < i && Rewrites(slots[1..], rest, j, i) { assert Rewrites(slots, objs, j + 1, k); }
    if slots[0] == slots[k] && objs[0] != objs[k] { assert Rewrites(slots, objs, 0, k); }
    if j :| 0 <= j < k && Rewrites(slots, objs, j, k) {
      if j > 0 { assert Rewrites(slots[1..], rest, j - 1, i); }
    }
  }

  predicate SomeClash<K(==)>(store: map<K, Object>, slots: seq<K>, objs: seq<Object>)
    requires |slots| == |objs|
  {
    exists i :: 0 <= i < |objs| && Clashes(store, slots, objs, i)
  }

  /** Staging fails exactly when some object clashes. */
  lemma {:induction false} StagingFails<K>(store: map<K, Object>, slots: seq<K>, objs: seq<Object>)
    requires |slots| == |objs|
    ensures Stage(store, slots, objs).None? <==> SomeClash(store, slots, objs)
    decreases |objs|
  {
    if objs == [] {
    } else if Collides(store, slots[0], objs[0]) {
      assert Clashes(store, slots, objs, 0);
    } else {
      var next, rest := store[slots[0] := objs[0]], objs[1..];
      StagingFails(next, slots[1..], rest);
      if i :| 0 <= i < |rest| && Clashes(next, slots[1..], rest, i) { ClashShift(store, slots, objs, i); }
      if i :| 0 <= i < |objs| && Clashes(store, slots, objs, i) { ClashShift(store, slots, objs, i - 1); }
    }
  }

  lemma StagedUnlessClash(r: Repo, b: Bundle)
    ensures Staged(r, b).None? <==>
              || SomeClash(r.objects, Slots(b.reduction.revisions), b.reduction.revisions)
              || SomeClash(r.decisions, Ids(b.reduction.decisions), b.reduction.decisions)
              || !Applicable(r, b.reduction)
  {
    var revisions, decisions := b.reduction.revisions, b.reduction.decisions;
    ObjectsAreStaged(r.objects, revisions);
    DecisionsAreStaged(r.decisions, decisions);
    StagingFails(r.objects, Slots(revisions), revisions);
    StagingFails(r.decisions, Ids(decisions), decisions);
  }

  /** A commit under a new key fails atomically exactly when its lineage is unknown, or, with the
      head as expected, a revision or Decision clashes, or an identity it names is taken or unknown. */
  lemma AtomicFailure(r: Repo, b: Bundle, expected: Digest)
    ensures Persist(r, b, expected).1 == Failed(AtomicCommitError) <==>
              && b.key !in r.commits
              && (b.lineage in r.lineages ==>
                    && !HeadStale(r, b, expected)
                    && (|| SomeClash(r.objects, Slots(b.reduction.revisions), b.reduction.revisions)
                        || SomeClash(r.decisions, Ids(b.reduction.decisions), b.reduction.decisions)
                        || !Applicable(r, b.reduction)))
  {
    StagedUnlessClash(r, b);
  }

  /** The bundle is new to the repository and passes every check of the commit. */
  predicate Stores(r: Repo, b: Bundle, expected: Digest) {
    b.key !in r.commits && b.lineage in r.lineages && !HeadStale(r, b, expected) && Staged(r, b).Some?
  }

  lemma StoresIsPersist(r: Repo, b: Bundle, expected: Digest)
    ensures Stores(r, b, expected) ==> Persist(r, b, expected) == (Staged(r, b).value, Stored(b.receipt))
    ensures !Stores(r, b, expected) ==> Persist(r, b, expected).0 == r
  {}

  /** A stored bundle keeps every stored revision exactly when neither the snapshot's nor the
      audit event's slot is already taken by something else: those two are written unchecked. */
  lemma KeepsRevisions(r: Repo, b: Bundle)
    requires Staged(r, b).Some?
    ensures Extends(r.objects, Staged(r, b).value.objects) <==>
              && (b.reduction.audit.Slot() in r.objects ==> r.objects[b.reduction.audit.Slot()] == b.reduction.audit)
              && (b.reduction.snapshot.Some? && b.reduction.snapshot.value.Slot() in r.objects
                  && b.reduction.snapshot.value.Slot() != b.reduction.audit.Slot() ==>
                    r.objects[b.reduction.snapshot.value.Slot()] == b.reduction.snapshot.value)
  {
    var red := b.reduction;
    StagedObjects(r.objects, red.revisions);
    var objects := StageObjects(r.objects, red.revisions).value;
    var next := Staged(r, b).value.objects;
    assert next == StoreSnapshot(objects, red.snapshot)[red.audit.Slot() := red.audit];
    if Extends(r.objects, next) {
      if red.audit.Slot() in r.objects { assert next[red.audit.Slot()] == red.audit; }
      if red.snapshot.Some? && red.snapshot.value.Slot() in r.objects {
        assert next[red.snapshot.value.Slot()] == r.objects[red.snapshot.value.Slot()];
      }
    }
  }
}
