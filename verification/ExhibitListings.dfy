/** What captures of Research Exhibits store and what listings show, read off the stored documents
    (plugins/local_research_exhibit_store.py:387-412, 601-700, 722-811). */
module ExhibitListings {
  import opened Common
  import opened Records
  import opened Exhibits

  /** Row `m` describes document `d`, field by field. */
  predicate Describes(m: Metadata, d: Document) {
    && m.id == d.id && m.project == d.project && m.capturedAt == d.capturedAt && m.digest == d.digest
    && m.rqs == d.rqs && m.facts == d.facts && m.visual == d.visual && m.representation == d.representation
  }

  /** The document is older than a position: captured before it, or with it under a lower id. */
  predicate OlderThan(d: Document, at: string, id: string) {
    Less(d.capturedAt, at) || (d.capturedAt == at && Less(d.id, id))
  }

  /** The query asks for this document. */
  predicate AsksFor(q: Query, d: Document) {
    && d.project == q.project
    && (q.rq.Some? ==> q.rq.value in d.rqs)
    && (q.after.Some? ==> OlderThan(d, q.after.value.kind, q.after.value.id))
  }

  ghost predicate Due(s: Store, q: Query, known: set<string>, id: string) {
    id in known && id in s.documents && AsksFor(q, s.documents[id])
  }

  ghost predicate Shown(rows: seq<Metadata>, id: string) { exists i :: 0 <= i < |rows| && rows[i].id == id }

  /** The rows describe the newest of the known documents asked for, newest first, `limit` of them or all. */
  ghost predicate ShowsNewest(s: Store, q: Query, known: set<string>, rows: seq<Metadata>) {
    && |rows| <= q.limit
    && (forall i :: 0 <= i < |rows| ==>
          Due(s, q, known, rows[i].id) && Describes(rows[i], s.documents[rows[i].id]))
    && (forall i, j :: 0 <= i < j < |rows| ==>
          rows[j].id in s.documents && OlderThan(s.documents[rows[j].id], rows[i].capturedAt, rows[i].id))
    && forall id :: Due(s, q, known, id) && !Shown(rows, id) ==> BelowAll(s, q, rows, id)
  }

  predicate BelowAll(s: Store, q: Query, rows: seq<Metadata>, id: string)
    requires id in s.documents
  {
    |rows| == q.limit
    && forall i :: 0 <= i < |rows| ==> OlderThan(s.documents[id], rows[i].capturedAt, rows[i].id)
  }

  /** Every document is filed under its id, and linked to the questions it names and no others. */
  ghost predicate Filed(s: Store) {
    && (forall id :: id in s.documents ==> s.documents[id].id == id)
    && forall id, rq :: RqLink(id, rq) in s.links <==> id in s.documents && rq in s.documents[id].rqs
  }

  // ---------------------------------------------------------------- what captures store

  lemma LinkedExactly(s: Store, d: Document, id: string, rq: string)
    requires Filed(s) && d.id !in s.documents
    ensures RqLink(id, rq) in Linked(s, d) <==>
              if id == d.id then rq in d.rqs else id in s.documents && rq in s.documents[id].rqs
  {
  }

  lemma StoredFiled(s: Store, next: Store, d: Document)
    requires Filed(s) && d.id !in s.documents
    requires next.documents == s.documents[d.id := d] && next.links == Linked(s, d)
    ensures Filed(next)
  {
    forall id, rq ensures RqLink(id, rq) in next.links <==> id in next.documents && rq in next.documents[id].rqs {
      LinkedExactly(s, d, id, rq);
    }
  }

  lemma ApplyFiled(s: Store, w: Write)
    requires Filed(s)
    ensures Filed(Apply(s, w))
  {
    var next := Apply(s, w);
    if !w.Opening? && next.documents != s.documents { StoredFiled(s, next, w.document); }
  }

  /** In every reachable store links and questions agree. */
  lemma {:induction false} StoresFiled(writes: seq<Write>)
    ensures Filed(ApplyAll(writes))
  {
    if writes != [] {
      StoresFiled(writes[..|writes| - 1]);
      ApplyFiled(ApplyAll(writes[..|writes| - 1]), writes[|writes| - 1]);
    }
  }

  predicate NamedTwice(rqs: seq<string>) { |set rq | rq in rqs| < |rqs| }

  lemma {:induction false} RepeatsExactly(rqs: seq<string>)
    ensures Repeats(rqs) <==> NamedTwice(rqs)
    ensures |set rq | rq in rqs| <= |rqs|
  {
    if rqs == [] {
      assert (set rq | rq in rqs) == {};
    } else {
      var last := |rqs| - 1;
      var front := rqs[..last];
      RepeatsExactly(front);
      assert (set rq | rq in rqs) == (set rq | rq in front) + {rqs[last]};
      if rqs[last] in front {
        var i :| 0 <= i < last && front[i] == rqs[last];
        assert rqs[i] == rqs[last];
        assert (set rq | rq in rqs) == (set rq | rq in front);
      } else {
        RepeatsBefore(rqs);
      }
    }
  }

  lemma RepeatsBefore(rqs: seq<string>)
    requires rqs != [] && rqs[|rqs| - 1] !in rqs[..|rqs| - 1]
    ensures Repeats(rqs) <==> Repeats(rqs[..|rqs| - 1])
  {
    var front := rqs[..|rqs| - 1];
    assert forall i :: 0 <= i < |front| ==> rqs[i] == front[i];
    if i, j :| 0 <= i < j < |front| && front[i] == front[j] { assert rqs[i] == rqs[j]; }
    if i, j :| 0 <= i < j < |rqs| && rqs[i] == rqs[j] { assert front[i] == front[j]; }
  }

  /** The index holds exactly one row per document, and it describes the document. */
  ghost predicate FullyIndexed(s: Store) {
    && s.metadata.Some? && s.metadata.value.Keys == s.documents.Keys
    && forall id :: id in s.documents ==> Describes(s.metadata.value[id], s.documents[id])
  }

  /** A capture in any reachable store: with a question named twice it changes nothing; otherwise it leaves
      every document indexed, and stores its own exactly when there is none under the id. */
  lemma CaptureTells(writes: seq<Write>, d: Document)
    ensures var s := ApplyAll(writes);
            var next := Capture(s, d);
            if NamedTwice(d.rqs) then next == s && OutcomeOf(s, d) == RepeatedQuestion
            else
              && FullyIndexed(next)
              && OutcomeOf(s, d) == (if d.id in s.documents then Immutable else Stored)
              && next.documents == (if d.id in s.documents then s.documents else s.documents[d.id := d])
  {
    StoresSound(writes);
    RepeatsExactly(d.rqs);
  }

  // ---------------------------------------------------------------- what listings show

  lemma {:induction false} ReversedAt(refs: seq<Ref>, k: int)
    requires 0 <= k < |refs|
    ensures Reversed(refs)[k] == refs[|refs| - 1 - k]
  {
    if k < |refs| - 1 { ReversedAt(refs[1..], k); }
  }

  lemma ReversedFalls(refs: seq<Ref>, i: int, j: int)
    requires 0 <= i < j < |refs| && forall a, b :: 0 <= a < b < |refs| ==> RefLess(refs[a], refs[b])
    ensures RefLess(Reversed(refs)[j], Reversed(refs)[i])
  {
    ReversedAt(refs, i);
    ReversedAt(refs, j);
  }

  ghost predicate FallingRefs(refs: seq<Ref>) {
    forall i, j :: 0 <= i < j < |refs| ==> RefLess(refs[j], refs[i])
  }

  lemma OrderedFalls(positions: set<Ref>)
    ensures FallingRefs(Reversed(Ordered(positions)))
  {
    var all := Reversed(Ordered(positions));
    forall i, j | 0 <= i < j < |all| ensures RefLess(all[j], all[i]) { ReversedFalls(Ordered(positions), i, j); }
  }

  /** Position `x` comes after all of a page. */
  predicate After(page: seq<Ref>, x: Ref) { forall i :: 0 <= i < |page| ==> RefLess(x, page[i]) }

  lemma CutAfter(all: seq<Ref>, limit: nat, x: Ref)
    requires FallingRefs(all) && limit < |all| && x in all && x !in all[..limit]
    ensures After(all[..limit], x)
  {
    assert forall i :: 0 <= i < limit ==> all[i] == all[..limit][i];
    var k :| 0 <= k < |all| && all[k] == x;
    assert k >= limit;
  }

  lemma NewestTells(positions: set<Ref>, limit: nat)
    ensures var page := Newest(positions, limit);
            && |page| <= limit && FallingRefs(page)
            && forall x :: x in positions && x !in page ==> |page| == limit && After(page, x)
  {
    var all := Reversed(Ordered(positions));
    OrderedFalls(positions);
    if |all| > limit {
      forall x | x in positions && x !in all[..limit] ensures After(all[..limit], x) { CutAfter(all, limit, x); }
    }
  }

  /** A table of rows that each describe the document they are filed under. */
  ghost predicate Describing(s: Store, table: map<string, Metadata>) {
    forall id :: id in table ==>
      id in s.documents && s.documents[id].id == id && table[id] == MetadataOf(s.documents[id])
  }

  lemma WantedExactly(s: Store, q: Query, d: Document)
    requires Filed(s) && d.id in s.documents && s.documents[d.id] == d
    ensures Wanted(s, q, MetadataOf(d)) <==> AsksFor(q, d)
  {
  }

  lemma WantsExactly(s: Store, q: Query, table: map<string, Metadata>, x: Ref)
    requires Filed(s) && Describing(s, table)
    ensures x in Wants(s, q, table) <==> Due(s, q, table.Keys, x.id) && x.kind == s.documents[x.id].capturedAt
  {
    if x.id in table { WantedExactly(s, q, s.documents[x.id]); }
    if x in Wants(s, q, table) {
      var id :| id in table && Wanted(s, q, table[id]) && PositionOf(table[id]) == x;
      assert id == x.id;
    }
    if Due(s, q, table.Keys, x.id) && x.kind == s.documents[x.id].capturedAt {
      assert PositionOf(table[x.id]) == x;
    }
  }

  lemma RowsTell(s: Store, q: Query, table: map<string, Metadata>)
    requires Filed(s) && Describing(s, table)
    ensures ShowsNewest(s, q, table.Keys, Rows(s, q, table))
  {
    var page := Newest(Wants(s, q, table), q.limit);
    var rows := Rows(s, q, table);
    NewestTells(Wants(s, q, table), q.limit);
    forall i | 0 <= i < |rows|
      ensures Due(s, q, table.Keys, rows[i].id) && Describes(rows[i], s.documents[rows[i].id])
      ensures page[i] == PositionOf(rows[i])
    {
      assert page[i] in page;
      WantsExactly(s, q, table, page[i]);
    }
    forall id | Due(s, q, table.Keys, id) && !Shown(rows, id) ensures BelowAll(s, q, rows, id) {
      var x := PositionOf(table[id]);
      WantsExactly(s, q, table, x);
      assert x !in page;
    }
  }

  /** The documents an index holds, or all where there is none. */
  function Known(s: Store): set<string> { if s.metadata.Some? then s.metadata.value.Keys else s.documents.Keys }

  /** A listing in any reachable store shows the newest documents the query asks for, of those the index
      holds; decoding documents shows the newest of all. */
  lemma ListTells(writes: seq<Write>, q: Query)
    ensures var s := ApplyAll(writes);
            && ShowsNewest(s, q, Known(s), List(s, q))
            && ShowsNewest(s, q, s.documents.Keys, ListDocuments(s, q))
  {
    var s := ApplyAll(writes);
    StoresSound(writes);
    StoresFiled(writes);
    RowsTell(s, q, Decoded(s.documents));
    assert Decoded(s.documents).Keys == s.documents.Keys;
    if s.metadata.Some? { RowsTell(s, q, s.metadata.value); }
  }
}
