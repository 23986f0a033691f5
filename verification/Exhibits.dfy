/** The Research Exhibit registry and its metadata index (plugins/local_research_exhibit_store.py). */
module Exhibits {
  import opened Common
  import opened Records

  datatype Visual = Visual(visualClass: string, status: string)

  /** An immutable exhibit. `facts` stands for the descriptive fields copied as they are. */
  datatype Document = Document(id: string, project: string, capturedAt: string, digest: string, rqs: seq<string>,
                               facts: string, visual: Option<Visual>, representation: string, content: string)

  /** What the index keeps of a document: everything but its content. */
  datatype Metadata = Metadata(id: string, project: string, capturedAt: string, digest: string, rqs: seq<string>,
                               facts: string, visual: Option<Visual>, representation: string)

  /** `_metadata_from_document`. */
  function MetadataOf(d: Document): Metadata {
    Metadata(d.id, d.project, d.capturedAt, d.digest, d.rqs, d.facts, d.visual, d.representation)
  }

  datatype RqLink = RqLink(exhibit: string, rq: string)

  /** The tables; a store older than the index has no metadata table. */
  datatype Store = Store(documents: map<string, Document>, metadata: Option<map<string, Metadata>>, links: set<RqLink>)

  // ---------------------------------------------------------------- writing

  /** `_backfill_metadata` on the metadata table, which opening for writing creates if missing. */
  function Backfilled(s: Store): map<string, Metadata> {
    var present := s.metadata.GetOr(map[]);
    map id | id in s.documents.Keys + present.Keys ::
      if id in present then present[id] else MetadataOf(s.documents[id])
  }

  function OpenForWriting(s: Store): Store { s.(metadata := Some(Backfilled(s))) }

  predicate Repeats(rqs: seq<string>) { exists i, j :: 0 <= i < j < |rqs| && rqs[i] == rqs[j] }

  function Linked(s: Store, d: Document): set<RqLink> { s.links + set rq | rq in d.rqs :: RqLink(d.id, rq) }

  /** What a capture answers: the repeated question id and the identity that exists are errors. */
  datatype Outcome = Stored | RepeatedQuestion | Immutable

  function OutcomeOf(s: Store, d: Document): Outcome {
    if Repeats(d.rqs) then RepeatedQuestion
    else if d.id in s.documents || d.id in Backfilled(s) then Immutable
    else Stored
  }

  /** `capture`: a repeated question id is refused before the store is opened; an identity that
      exists leaves only the open behind. */
  function Capture(s: Store, d: Document): Store {
    if Repeats(d.rqs) then s
    else
      var ready := OpenForWriting(s);
      if d.id in ready.documents || d.id in ready.metadata.value then ready
      else Store(ready.documents[d.id := d], Some(ready.metadata.value[d.id := MetadataOf(d)]), Linked(s, d))
  }

  /** A capture by a program version that knows no metadata table. */
  function LegacyCapture(s: Store, d: Document): Store {
    if d.id in s.documents || Repeats(d.rqs) then s
    else s.(documents := s.documents[d.id := d], links := Linked(s, d))
  }

  datatype Write = Capturing(document: Document) | Opening | Legacy(document: Document)

  function Apply(s: Store, w: Write): Store {
    match w
    case Capturing(d) => Capture(s, d)
    case Opening => OpenForWriting(s)
    case Legacy(d) => LegacyCapture(s, d)
  }

  function ApplyAll(writes: seq<Write>): Store {
    if writes == [] then Store(map[], None, {}) else Apply(ApplyAll(writes[..|writes| - 1]), writes[|writes| - 1])
  }

  // ---------------------------------------------------------------- listing

  datatype Query = Query(project: string, rq: Option<string>, limit: nat, after: Option<Ref>)

  /** The keyset position of a row: a `Ref` read as (captured_at, exhibit_id). */
  function PositionOf(m: Metadata): Ref { Ref(m.capturedAt, m.id) }

  predicate Wanted(s: Store, q: Query, m: Metadata) {
    && m.project == q.project
    && (q.rq.Some? ==> RqLink(m.id, q.rq.value) in s.links)
    && (q.after.Some? ==> RefLess(PositionOf(m), q.after.value))
  }

  function Reversed(refs: seq<Ref>): (r: seq<Ref>)
    ensures forall x :: x in r <==> x in refs
    ensures |r| == |refs|
  {
    if refs == [] then [] else Reversed(refs[1..]) + [refs[0]]
  }

  /** ORDER BY captured_at DESC, exhibit_id DESC LIMIT n. */
  function Newest(positions: set<Ref>, limit: nat): (page: seq<Ref>)
    ensures forall x :: x in page ==> x in positions
    ensures |positions| <= limit ==> forall x :: x in positions ==> x in page
  {
    var all := Reversed(Ordered(positions));
    OrderedLength(positions);
    if |all| <= limit then all else all[..limit]
  }

  function Wants(s: Store, q: Query, table: map<string, Metadata>): set<Ref> {
    set id | id in table && Wanted(s, q, table[id]) :: PositionOf(table[id])
  }

  function Rows(s: Store, q: Query, table: map<string, Metadata>): seq<Metadata> {
    var page := Newest(Wants(s, q, table), q.limit);
    seq(|page|, i requires 0 <= i < |page| => if page[i].id in table then table[page[i].id] else RowNotFound(page[i]))
  }

  function RowNotFound(p: Ref): Metadata { Metadata(p.id, "", p.kind, "", [], "", None, "") }

  /** The documents read as metadata. */
  function Decoded(documents: map<string, Document>): map<string, Metadata> {
    map id | id in documents :: MetadataOf(documents[id])
  }

  /** `list_for_project`: through the metadata table when there is one, else by decoding documents. */
  function List(s: Store, q: Query): seq<Metadata> {
    match s.metadata
    case Some(table) => Rows(s, q, table)
    case None => ListDocuments(s, q)
  }

  function ListDocuments(s: Store, q: Query): seq<Metadata> { Rows(s, q, Decoded(s.documents)) }

  // ---------------------------------------------------------------- the index agrees

  /** Every document is filed under its id, and every index row is that of its document. */
  ghost predicate Sound(s: Store) {
    && (forall id :: id in s.documents ==> s.documents[id].id == id)
    && (s.metadata.Some? ==>
          forall id :: id in s.metadata.value ==>
              id in s.documents && s.metadata.value[id] == MetadataOf(s.documents[id]))
  }

  /** No document is missing from the index, if there is one. */
  predicate Complete(s: Store) {
    s.metadata.Some? ==> forall id :: id in s.documents ==> id in s.metadata.value
  }

  lemma OpenCompletes(s: Store)
    requires Sound(s)
    ensures Sound(OpenForWriting(s)) && Complete(OpenForWriting(s))
  {
  }

  lemma ApplySound(s: Store, w: Write)
    requires Sound(s)
    ensures Sound(Apply(s, w))
    ensures !w.Legacy? && Apply(s, w) != s ==> Complete(Apply(s, w))
    ensures w.Legacy? && s.metadata.None? ==> Apply(s, w).metadata.None?
  {
    OpenCompletes(s);
  }

  lemma {:induction false} StoresSound(writes: seq<Write>)
    ensures Sound(ApplyAll(writes))
  {
    if writes != [] {
      StoresSound(writes[..|writes| - 1]);
      ApplySound(ApplyAll(writes[..|writes| - 1]), writes[|writes| - 1]);
    }
  }

  lemma CompleteAgrees(s: Store, q: Query)
    requires Sound(s) && Complete(s)
    ensures List(s, q) == ListDocuments(s, q)
  {
    if s.metadata.Some? { assert s.metadata.value == Decoded(s.documents); }
  }

  /** A document the index misses shows in a listing of its project by documents only. */
  lemma MissingDiffers(s: Store, id: string) returns (q: Query)
    requires Sound(s) && s.metadata.Some? && id in s.documents && id !in s.metadata.value
    ensures List(s, q) != ListDocuments(s, q)
  {
    var d := s.documents[id];
    var table := Decoded(s.documents);
    var all := Query(d.project, None, 0, None);
    q := all.(limit := |Wants(s, all, table)|);
    assert Wants(s, q, table) == Wants(s, all, table);
    var position := PositionOf(table[id]);
    assert position in Wants(s, q, table);
    var page := Newest(Wants(s, q, table), q.limit);
    var i :| 0 <= i < |page| && page[i] == position;
    assert ListDocuments(s, q)[i] == table[id];
    var indexed := s.metadata.value;
    var rows := Newest(Wants(s, q, indexed), q.limit);
    forall k | 0 <= k < |rows| ensures List(s, q)[k].id != id {
      assert rows[k] in Wants(s, q, indexed);
    }
    assert |List(s, q)| == |rows| && |ListDocuments(s, q)| == |page|;
    assert |rows| == |page| ==> List(s, q)[i].id != ListDocuments(s, q)[i].id;
  }

  /** In every state that captures, legacy captures and writable opens can reach, the index
      returns what decoding the documents returns, for every project, question filter, limit
      and position, exactly when no document is missing from it. */
  lemma IndexAgrees(writes: seq<Write>)
    ensures var s := ApplyAll(writes);
            (forall q :: List(s, q) == ListDocuments(s, q)) <==> Complete(s)
  {
    var s := ApplyAll(writes);
    StoresSound(writes);
    if Complete(s) {
      forall q ensures List(s, q) == ListDocuments(s, q) { CompleteAgrees(s, q); }
    } else {
      var id :| id in s.documents && id !in s.metadata.value;
      var q := MissingDiffers(s, id);
    }
  }

  // ---------------------------------------------------------------- when a document is missing

  /** The write opens the store, which adds what the index misses. */
  predicate Opens(w: Write) { w.Opening? || (w.Capturing? && !Repeats(w.document.rqs)) }

  predicate OpenedBefore(writes: seq<Write>, n: int)
    requires 0 <= n <= |writes|
  {
    exists k :: 0 <= k < n && Opens(writes[k])
  }

  /** An older version stores a new document as write `i`. */
  predicate StoresLegacy(writes: seq<Write>, i: int)
    requires 0 <= i < |writes|
  {
    writes[i].Legacy? && writes[i].document.id !in ApplyAll(writes[..i]).documents && !Repeats(writes[i].document.rqs)
  }

  /** Write `i` stores a document behind the back of an index that is not opened again. */
  predicate Misses(writes: seq<Write>, i: int)
    requires 0 <= i < |writes|
  {
    StoresLegacy(writes, i) && OpenedBefore(writes, i) && forall j :: i < j < |writes| ==> !Opens(writes[j])
  }

  predicate SomeMissed(writes: seq<Write>) { exists i :: 0 <= i < |writes| && Misses(writes, i) }

  lemma {:induction false} IndexExists(writes: seq<Write>)
    ensures ApplyAll(writes).metadata.Some? <==> OpenedBefore(writes, |writes|)
  {
    if writes != [] {
      var last := |writes| - 1;
      IndexExists(writes[..last]);
      if k :| 0 <= k < last && Opens(writes[..last][k]) { assert Opens(writes[k]); }
      if k :| 0 <= k < |writes| && Opens(writes[k]) {
        if k < last { assert Opens(writes[..last][k]); }
      }
    }
  }

  lemma PrefixSame(writes: seq<Write>, i: nat)
    requires i < |writes| - 1
    ensures var front := writes[..|writes| - 1];
            StoresLegacy(front, i) == StoresLegacy(writes, i) && OpenedBefore(front, i) == OpenedBefore(writes, i)
  {
    var front := writes[..|writes| - 1];
    assert front[..i] == writes[..i];
    if k :| 0 <= k < i && Opens(writes[k]) { assert Opens(front[k]); }
    if k :| 0 <= k < i && Opens(front[k]) { assert Opens(writes[k]); }
  }

  /** What one more write does to the documents that are missed. */
  lemma MissedStep(writes: seq<Write>)
    requires writes != []
    ensures var front, last := writes[..|writes| - 1], |writes| - 1;
            SomeMissed(writes) <==> (SomeMissed(front) && !Opens(writes[last])) || Misses(writes, last)
  {
    var front, last := writes[..|writes| - 1], |writes| - 1;
    if i :| 0 <= i < |writes| && Misses(writes, i) {
      if i < last {
        PrefixSame(writes, i);
        assert Misses(front, i);
      }
    }
    if i :| 0 <= i < |front| && Misses(front, i) {
      PrefixSame(writes, i);
      if !Opens(writes[last]) { assert Misses(writes, i); }
    }
  }

  lemma LegacyMisses(s: Store, d: Document)
    requires Sound(s)
    ensures Complete(LegacyCapture(s, d)) <==>
              Complete(s) && !(s.metadata.Some? && d.id !in s.documents && !Repeats(d.rqs))
  {
    var next := LegacyCapture(s, d);
    if s.metadata.Some? && d.id !in s.documents && !Repeats(d.rqs) {
      assert d.id in next.documents && d.id !in next.metadata.value;
    } else if !Complete(s) {
      var id :| id in s.documents && id !in s.metadata.value;
      assert id in next.documents && id !in next.metadata.value;
    }
  }

  /** The index misses a document exactly when an older version stored one after the index
      existed and no write has opened it since. */
  lemma {:induction false} IncompleteExactly(writes: seq<Write>)
    ensures !Complete(ApplyAll(writes)) <==> SomeMissed(writes)
  {
    if writes != [] {
      var front, last := writes[..|writes| - 1], |writes| - 1;
      StoresSound(front);
      IncompleteExactly(front);
      MissedStep(writes);
      if writes[last].Legacy? {
        IndexExists(front);
        OpenedSame(writes);
        LegacyMisses(ApplyAll(front), writes[last].document);
      } else if Opens(writes[last]) {
        OpenCompletes(ApplyAll(front));
      }
    }
  }

  lemma OpenedSame(writes: seq<Write>)
    requires writes != []
    ensures OpenedBefore(writes[..|writes| - 1], |writes| - 1) == OpenedBefore(writes, |writes| - 1)
  {
    var front := writes[..|writes| - 1];
    if k :| 0 <= k < |front| && Opens(writes[k]) { assert Opens(front[k]); }
    if k :| 0 <= k < |front| && Opens(front[k]) { assert Opens(writes[k]); }
  }

  /** A writable open and then one capture by an older version: listings miss its document. */
  lemma LegacyAfterOpenIsMissed(d: Document)
    requires !Repeats(d.rqs)
    ensures var s := ApplyAll([Opening, Legacy(d)]);
            !Complete(s) && exists q :: List(s, q) != ListDocuments(s, q)
  {
    var writes := [Opening, Legacy(d)];
    assert writes[..1] == [Opening] && [Opening][..0] == [];
    assert Opens(writes[0]) && ApplyAll([Opening]) == OpenForWriting(ApplyAll([]));
    assert Misses(writes, 1);
    IncompleteExactly(writes);
    IndexAgrees(writes);
  }

  /** None is missing as long as older versions write only before the first writable open. */
  predicate LegacyFirst(writes: seq<Write>) {
    forall i, j :: 0 <= i < j < |writes| && writes[j].Legacy? ==> writes[i].Legacy?
  }

  lemma LegacyFirstComplete(writes: seq<Write>)
    requires LegacyFirst(writes)
    ensures Complete(ApplyAll(writes))
  {
    IncompleteExactly(writes);
  }

  // ---------------------------------------------------------------- the store as an object

  class LocalResearchExhibitStore {
    var documents: map<string, Document>
    var metadata: Option<map<string, Metadata>>
    var links: set<RqLink>

    ghost function State(): Store
      reads this
    {
      Store(documents, metadata, links)
    }

    constructor (seed: Store)
      ensures State() == seed
    {
      documents, metadata, links := seed.documents, seed.metadata, seed.links;
    }

    method ConnectWrite()
      modifies this
      ensures State() == OpenForWriting(old(State()))
    {
      metadata := Some(Backfilled(Store(documents, metadata, links)));
    }

    method CaptureDocument(d: Document) returns (outcome: Outcome)
      modifies this
      ensures State() == Capture(old(State()), d) && outcome == OutcomeOf(old(State()), d)
      ensures outcome.Stored? <==> d.id !in old(documents) && d.id in documents
      ensures !outcome.Stored? ==> documents == old(documents) && links == old(links)
    {
      if Repeats(d.rqs) { return RepeatedQuestion; }
      ConnectWrite();
      if d.id in documents || d.id in metadata.value { return Immutable; }
      documents := documents[d.id := d];
      metadata := Some(metadata.value[d.id := MetadataOf(d)]);
      links := links + set rq | rq in d.rqs :: RqLink(d.id, rq);
      return Stored;
    }

    method ListForProject(q: Query) returns (rows: seq<Metadata>)
      ensures rows == List(State(), q)
    {
      rows := List(Store(documents, metadata, links), q);
    }
  }
}
