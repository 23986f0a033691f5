/** What a listing of synthesis candidates answers, read off the rows of the table
    (plugins/local_conversation_store/synthesis.py:9-131). */
module CandidateListings {
  import opened Common
  import opened CandidatePages

  predicate KnownKind(kind: Option<string>) {
    kind.None? || kind.value == "recommendation" || kind.value == "argument"
  }

  /** Rows of this producer are of the kind; without a kind both producers' are. */
  predicate ProducedFor(producer: string, kind: Option<string>) {
    || (producer == "research.recommendation.propose@0.1.0" && (kind.None? || kind.value == "recommendation"))
    || (producer == "research.argument.propose@0.1.0" && (kind.None? || kind.value == "argument"))
  }

  predicate Offered(r: Row, project: string, kind: Option<string>) {
    r.valid && r.candidate && r.project == project && ProducedFor(r.producer, kind)
  }

  /** The cursor names a row that the listing itself offers. */
  ghost predicate Resolves(rows: seq<Row>, project: string, kind: Option<string>, cursor: string) {
    cursor != "" && exists r :: r in rows && r.proposal == cursor && Offered(r, project, kind)
  }

  ghost predicate Older(rows: seq<Row>, r: Row, cursor: Option<string>) {
    cursor.Some? ==> exists c :: c in rows && c.proposal == cursor.value && r.rowid < c.rowid
  }

  /** A row the listing has still to show after the cursor. */
  ghost predicate Due(rows: seq<Row>, project: string, kind: Option<string>, cursor: Option<string>, r: Row) {
    r in rows && Offered(r, project, kind) && Older(rows, r, cursor)
  }

  /** The page holds the newest rows due, newest first, `limit` of them or all. */
  ghost predicate ShowsNewest(rows: seq<Row>, project: string, kind: Option<string>, limit: int,
                              cursor: Option<string>, page: seq<Row>)
  {
    && |page| <= limit && (forall i, j :: 0 <= i < j < |page| ==> page[i].rowid > page[j].rowid)
    && (forall r :: r in page ==> Due(rows, project, kind, cursor, r))
    && forall r :: Due(rows, project, kind, cursor, r) && r !in page ==>
         |page| == limit && forall shown :: shown in page ==> shown.rowid > r.rowid
  }

  /** Rows are due that the page does not show. */
  ghost predicate MoreDue(rows: seq<Row>, project: string, kind: Option<string>, cursor: Option<string>,
                          page: seq<Row>)
  {
    exists r :: Due(rows, project, kind, cursor, r) && r !in page
  }

  lemma ListedIsOffered(r: Row, project: string, kind: Option<string>)
    requires KnownKind(kind)
    ensures ProducersOf(kind).Some?
    ensures Listed(r, project, ProducersOf(kind).value) <==> Offered(r, project, kind)
  {
  }

  lemma UnknownKind(kind: Option<string>)
    requires !KnownKind(kind)
    ensures ProducersOf(kind).None?
  {
  }

  lemma OneRow(rows: seq<Row>, a: Row, b: Row)
    requires Table(rows) && a in rows && b in rows && a.proposal == b.proposal
    ensures a == b
  {
    var i :| 0 <= i < |rows| && rows[i] == a;
    var j :| 0 <= j < |rows| && rows[j] == b;
    assert i == j;
  }

  /** A cursor resolves exactly to the place of the offered row it names. */
  lemma CursorExactly(rows: seq<Row>, project: string, kind: Option<string>, cursor: string)
    requires Table(rows) && KnownKind(kind)
    ensures var place := CursorPosition(rows, project, ProducersOf(kind).GetOr([]), Some(cursor));
            && (place.Some? <==> Resolves(rows, project, kind, cursor))
            && (place.Some? ==> place.value.Some?)
            && (place.Some? ==> forall r :: r in rows && r.proposal == cursor ==> place.value == Some(r.rowid))
  {
    var producers := ProducersOf(kind).value;
    if cursor != "" {
      forall r | r in rows && r.proposal == cursor ensures Find(rows, cursor) == Some(r) {
        OneRow(rows, r, Find(rows, cursor).value);
        ListedIsOffered(r, project, kind);
      }
      if Find(rows, cursor).Some? { ListedIsOffered(Find(rows, cursor).value, project, kind); }
    }
  }

  /** The rows the one query selects are those due. */
  lemma SelectedAreDue(rows: seq<Row>, project: string, kind: Option<string>, cursor: Option<string>,
                       before: Option<int>, r: Row)
    requires Table(rows) && KnownKind(kind)
    requires CursorPosition(rows, project, ProducersOf(kind).GetOr([]), cursor) == Some(before)
    ensures r in Select(rows, project, ProducersOf(kind).GetOr([]), before) <==> Due(rows, project, kind, cursor, r)
  {
    ListedIsOffered(r, project, kind);
    if cursor.Some? {
      CursorExactly(rows, project, kind, cursor.value);
      var c :| c in rows && c.proposal == cursor.value && Offered(c, project, kind);
      if Older(rows, r, cursor) {
        var d :| d in rows && d.proposal == cursor.value && r.rowid < d.rowid;
        OneRow(rows, c, d);
      }
    }
  }

  lemma NewestShown(rows: seq<Row>, project: string, kind: Option<string>, limit: int, cursor: Option<string>,
                    due: seq<Row>)
    requires 0 < limit && Falling(due)
    requires forall r :: r in due <==> Due(rows, project, kind, cursor, r)
    ensures var page := PageOf(Limited(due, limit + 1), limit, false);
            && ShowsNewest(rows, project, kind, limit, cursor, page.rows)
            && (page.truncated <==> MoreDue(rows, project, kind, cursor, page.rows))
            && (page.truncated ==> |page.rows| == limit)
            && page.next == (if page.truncated then Some(page.rows[limit - 1].proposal) else None)
  {
    var page := PageOf(Limited(due, limit + 1), limit, false);
    if |due| > limit {
      assert page.rows == due[..limit] && forall k :: 0 <= k < limit ==> due[k] == page.rows[k];
      forall r | r in due && r !in page.rows ensures forall shown :: shown in page.rows ==> shown.rowid > r.rowid {
        var k :| 0 <= k < |due| && due[k] == r;
        assert k >= limit;
      }
      NotShown(due, limit);
      assert due[limit] in due;
    } else {
      assert page.rows == due;
    }
  }

  lemma NotShown(due: seq<Row>, limit: int)
    requires Falling(due) && 0 <= limit < |due|
    ensures due[limit] !in due[..limit]
  {
  }

  /** What a listing answers for any table, kind, limit and cursor. */
  lemma ListingTells(rows: seq<Row>, project: string, kind: Option<string>, limit: int, cursor: Option<string>)
    requires Table(rows)
    ensures var answer := ListKind(rows, project, kind, limit, cursor);
            if limit < 1 || limit > 100 then answer == LimitError
            else if !KnownKind(kind) then answer == KindError
            else if cursor.Some? && !Resolves(rows, project, kind, cursor.value) then answer == CursorError
            else
              && answer.Page? && ShowsNewest(rows, project, kind, limit, cursor, answer.rows)
              && (answer.truncated <==> MoreDue(rows, project, kind, cursor, answer.rows))
              && (answer.truncated ==> |answer.rows| == limit)
              && answer.next == (if answer.truncated then Some(answer.rows[limit - 1].proposal) else None)
              && (answer.incomplete <==> exists r :: r in rows && !r.valid)
  {
    if LimitValid(limit) && !KnownKind(kind) { UnknownKind(kind); }
    if LimitValid(limit) && KnownKind(kind) {
      KindIsOneQuery(rows, project, kind, limit, cursor);
      if cursor.Some? { CursorExactly(rows, project, kind, cursor.value); }
      if cursor.None? || Resolves(rows, project, kind, cursor.value) { PageTells(rows, project, kind, limit, cursor); }
    }
  }

  lemma PageTells(rows: seq<Row>, project: string, kind: Option<string>, limit: int, cursor: Option<string>)
    requires Table(rows) && 1 <= limit <= 100 && KnownKind(kind)
    requires CursorPosition(rows, project, ProducersOf(kind).GetOr([]), cursor).Some?
    ensures var answer := OneQuery(rows, project, ProducersOf(kind).GetOr([]), limit, cursor);
            && answer.Page? && ShowsNewest(rows, project, kind, limit, cursor, answer.rows)
            && (answer.truncated <==> MoreDue(rows, project, kind, cursor, answer.rows))
            && (answer.truncated ==> |answer.rows| == limit)
            && answer.next == (if answer.truncated then Some(answer.rows[limit - 1].proposal) else None)
            && (answer.incomplete <==> exists r :: r in rows && !r.valid)
  {
    var producers := ProducersOf(kind).GetOr([]);
    var before := CursorPosition(rows, project, producers, cursor).value;
    var due := Select(rows, project, producers, before);
    SelectFalling(rows, project, producers, before);
    forall r ensures r in due <==> Due(rows, project, kind, cursor, r) {
      SelectedAreDue(rows, project, kind, cursor, before, r);
    }
    NewestShown(rows, project, kind, limit, cursor, due);
    assert Malformed(rows) <==> exists r :: r in rows && !r.valid;
  }
}
