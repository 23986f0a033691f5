/** Typed records of the Research State runtime (core/runtime/transition_models.py).

    The source stores research objects as dictionaries. Here an object keeps the three
    fields every lookup uses (kind, id, revision) and three dictionaries, one per shape
    of value the runtime reads: text, lists of identifiers, and lists of object
    references. Snapshots and audit events are objects too, exactly as in the source;
    they also use `members` and `seal`.

    A digest is a constructor applied to the digested content, so equal digests mean
    equal content without any axiom about hashing. */
module Records {
  import opened Common

  datatype Ref = Ref(kind: string, id: string)

  datatype Key = Key(kind: string, id: string, revision: int)

  datatype Row = Row(revision: int, digest: Digest)

  datatype Digest =
    | Unsealed
    | Named(name: string)
    | OfObject(obj: Object)
    | OfRequest(request: Request)

  datatype Object = Object(
    kind: string,
    id: string,
    revision: int,
    text: map<string, string>,
    lists: map<string, seq<string>>,
    refs: map<string, seq<Ref>>,
    members: map<Ref, Row>,
    seal: Digest)
  {
    function Slot(): Key { Key(kind, id, revision) }

    function Identity(): Ref { Ref(kind, id) }

    function Text(field: string): Option<string> {
      if field in text then Some(text[field]) else None
    }

    function List(field: string): seq<string> {
      if field in lists then lists[field] else []
    }

    function Refs(field: string): seq<Ref> {
      if field in refs then refs[field] else []
    }

    predicate Says(field: string, value: string) {
      field in text && text[field] == value
    }

    predicate Names(kind: string, id: string) {
      Ref(kind, id) in Refs("subjects")
    }
  }

  function CanonicalDigest(obj: Object): Digest { OfObject(obj) }

  datatype Pin = Pin(ref: string, digest: Digest)

  datatype Actor = Actor(id: string, actorType: string)

  datatype ActionKind =
    | CreateObject
    | ReviseObject
    | AdoptObject
    | RejectObject
    | VerifyEvidence
    | ReclassifyEvidence
    | RecordDecision
    | ApplyLineagePlan
    | SwitchActiveLineage
    | RecordRunResultAdoption
    | RegisterWritingFeedbackAction

  datatype Treatment = Treatment(
    objectKind: string,
    sourceRef: string,
    treatment: string,
    derived: Option<Object>,
    derivedRef: string,
    decisionRef: string)

  /** A lineage plan whose payload carries every required key. */
  datatype Plan = Plan(
    planRef: string,
    targetLineage: string,
    lineageKind: string,
    baseline: Pin,
    treatments: seq<Treatment>,
    replayPlanRef: string,
    replayPlanRefs: seq<string>,
    executionMode: Option<string>)

  datatype Action = Action(
    kind: ActionKind,
    payload: Option<Object>,
    target: Option<Ref>,
    plan: Option<Plan>,
    switchTarget: string,
    adoptionRefs: seq<string>,
    decisionRefs: seq<string>)
  {
    /** The object the action is about: its payload's object, else its payload's target. */
    function TargetRef(): Option<Ref> {
      match payload
      case Some(obj) => Some(obj.Identity())
      case None => target
    }

    predicate IsSpecial() { kind.ApplyLineagePlan? || kind.SwitchActiveLineage? }
  }

  datatype Request = Request(
    transitionId: string,
    project: string,
    lineage: string,
    head: Pin,
    actor: Actor,
    actions: seq<Action>,
    config: Pin,
    profile: Pin,
    authorization: seq<string>,
    key: string,
    submittedAt: string,
    snapshotId: string,
    commitId: string,
    auditId: string,
    digest: Digest)
  {
    function CalculatedDigest(): Digest { OfRequest(this.(digest := Unsealed)) }

    function WithCalculatedDigest(): Request { this.(digest := CalculatedDigest()) }
  }

  datatype Lineage = Lineage(
    id: string,
    kind: string,
    head: Pin,
    parent: Option<string>,
    baseline: Option<string>)

  /** What one transition sees: the repository's content at load time, on one lineage. */
  datatype View = View(
    project: string,
    lineage: string,
    snapshot: Object,
    objects: map<Key, Object>,
    decisions: map<string, Object>,
    used: set<string>,
    lineages: map<string, Lineage>,
    config: Pin,
    profile: Pin)
  {
    function Head(): Pin { Pin(snapshot.id, snapshot.seal) }

    function Exact(kind: string, id: string, revision: int): Option<Object> {
      Lookup(objects, Key(kind, id, revision))
    }

    function Latest(kind: string, id: string): Option<Object> {
      LatestIn(objects, kind, id)
    }

    /** The objects the snapshot's members resolve to, under their identity. */
    function Effective(): map<Ref, Object> {
      map m | m in snapshot.members && Key(m.kind, m.id, snapshot.members[m].revision) in objects
        :: objects[Key(m.kind, m.id, snapshot.members[m].revision)]
    }
  }

  function Lookup(objects: map<Key, Object>, slot: Key): Option<Object> {
    if slot in objects then Some(objects[slot]) else None
  }

  function Revisions(objects: map<Key, Object>, kind: string, id: string): set<int> {
    set k | k in objects.Keys && k.kind == kind && k.id == id :: k.revision
  }

  function LatestIn(objects: map<Key, Object>, kind: string, id: string): (latest: Option<Object>)
    ensures latest.None? <==> forall k :: k in objects ==> !(k.kind == kind && k.id == id)
    ensures latest.Some? ==>
              exists k :: k in objects && k.kind == kind && k.id == id && objects[k] == latest.value
                          && forall j :: j in objects && j.kind == kind && j.id == id ==> j.revision <= k.revision
  {
    var revisions := Revisions(objects, kind, id);
    if revisions == {} then
      assert forall k :: k in objects && k.kind == kind && k.id == id ==> k.revision in revisions;
      None
    else
      var top := MaxOf(revisions);
      assert Key(kind, id, top) in objects;
      assert forall j :: j in objects && j.kind == kind && j.id == id ==> j.revision in revisions;
      Some(objects[Key(kind, id, top)])
  }

  datatype Reduction = Reduction(
    revisions: seq<Object>,
    decisions: seq<Object>,
    snapshot: Option<Object>,
    moved: Option<Lineage>,
    child: Option<Lineage>,
    activate: Option<string>,
    adoptions: seq<string>,
    used: seq<string>,
    audit: Object)

  datatype Receipt = Receipt(
    transitionId: string,
    commitId: string,
    prior: Pin,
    snapshot: Option<Pin>,
    lineage: string,
    applied: seq<ActionKind>,
    resolving: seq<string>,
    timestamp: string,
    actor: Actor,
    key: string)

  datatype Bundle = Bundle(
    lineage: string,
    key: string,
    digest: Digest,
    previous: Pin,
    reduction: Reduction,
    receipt: Receipt)

  /** Identity order: by kind, then by id. */
  predicate RefLess(a: Ref, b: Ref) {
    Less(a.kind, b.kind) || (a.kind == b.kind && Less(a.id, b.id))
  }

  predicate IsFirst(s: set<Ref>, m: Ref) {
    m in s && forall x :: x in s && x != m ==> RefLess(m, x)
  }

  lemma {:induction false} FirstExists(s: set<Ref>)
    requires s != {}
    ensures exists m :: IsFirst(s, m)
    decreases |s|
  {
    var x := Pick(s);
    var rest := s - {x};
    if rest == {} {
      assert s == {x};
      assert IsFirst(s, x);
    } else {
      FirstExists(rest);
      var m :| IsFirst(rest, m);
      RefLessTotal(x, m);
      var first := if RefLess(x, m) then x else m;
      forall y | y in s && y != first ensures RefLess(first, y) {
        if y != x && first == x && y != m { RefLessTransitive(x, m, y); }
      }
      assert IsFirst(s, first);
    }
  }

  lemma RefLessTotal(a: Ref, b: Ref)
    ensures RefLess(a, b) || RefLess(b, a) || a == b
  {
    LessTotal(a.kind, b.kind);
    LessTotal(a.id, b.id);
  }

  lemma RefLessAsymmetric(a: Ref, b: Ref)
    ensures !(RefLess(a, b) && RefLess(b, a))
  {
    LessAsymmetric(a.kind, b.kind);
    LessAsymmetric(a.id, b.id);
  }

  lemma RefLessTransitive(a: Ref, b: Ref, c: Ref)
    requires RefLess(a, b) && RefLess(b, c)
    ensures RefLess(a, c)
  {
    if Less(a.kind, b.kind) && Less(b.kind, c.kind) {
      LessTransitive(a.kind, b.kind, c.kind);
    } else if a.kind == b.kind == c.kind {
      LessTransitive(a.id, b.id, c.id);
    }
  }

  /** `sorted(members)`: the order in which a snapshot lists its members. */
  function Ordered(s: set<Ref>): (refs: seq<Ref>)
    ensures forall r :: r in refs <==> r in s
    ensures forall i, j :: 0 <= i < j < |refs| ==> RefLess(refs[i], refs[j])
    ensures forall i, j :: 0 <= i < j < |refs| ==> refs[i] != refs[j]
    decreases |s|
  {
    if s == {} then []
    else
      FirstExists(s);
      FirstUnique(s);
      var m :| IsFirst(s, m);
      var rest := Ordered(s - {m});
      FirstLeads(s, m, rest);
      [m] + rest
  }

  lemma FirstLeads(s: set<Ref>, m: Ref, rest: seq<Ref>)
    requires IsFirst(s, m) && forall r :: r in rest <==> r in s - {m}
    ensures forall i :: 0 <= i < |rest| ==> rest[i] != m && RefLess(m, rest[i])
    ensures forall r :: r in [m] + rest <==> r in s
  {
    forall i | 0 <= i < |rest| ensures rest[i] != m && RefLess(m, rest[i]) { assert rest[i] in rest; }
  }

  lemma {:induction false} OrderedLength(s: set<Ref>)
    ensures |Ordered(s)| == |s|
  {
    var o := Ordered(s);
    SetOfDistinct(o);
    assert s == set x | x in o;
  }

  lemma {:induction false} SetOfDistinct(o: seq<Ref>)
    requires forall i, j :: 0 <= i < j < |o| ==> o[i] != o[j]
    ensures |set x | x in o| == |o|
  {
    if o != [] {
      var front, last := o[..|o| - 1], o[|o| - 1];
      SetOfDistinct(front);
      assert (set x | x in o) == (set x | x in front) + {last};
      forall i | 0 <= i < |front| ensures front[i] != last {}
    }
  }

  lemma FirstUnique(s: set<Ref>)
    ensures forall a, b :: IsFirst(s, a) && IsFirst(s, b) ==> a == b
  {
    forall a, b | IsFirst(s, a) && IsFirst(s, b) ensures a == b {
      RefLessAsymmetric(a, b);
    }
  }
}
