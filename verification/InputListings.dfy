/** What a page of project inputs answers, read off the stored inputs
    (plugins/local_project_input_store.py:34-57, 507-567). */
module InputListings {
  import opened Common
  import opened CursorCodec
  import opened ProjectInputs

  /** Registered before the moment, or at it under a lower id. */
  predicate Earlier(at: string, id: string, r: Input) {
    Less(at, r.registeredAt) || (at == r.registeredAt && Less(id, r.id))
  }

  /** The cursor is text that carries a position with a moment and an id. */
  ghost predicate Says(json: Json, cursor: string, p: Position) {
    && cursor != "" && p.registeredAt != "" && p.id != ""
    && exists bytes :: DecodeText(cursor) == Some(bytes) && json.parse(bytes) == Some(p)
  }

  ghost predicate Due(rows: seq<Input>, project: string, after: Option<Position>, r: Input) {
    r in rows && r.project == project && (after.Some? ==> Earlier(after.value.registeredAt, after.value.id, r))
  }

  /** The page shows the first inputs due, in order, `limit` of them or all. */
  ghost predicate ShowsFirst(rows: seq<Input>, project: string, limit: int, after: Option<Position>,
                             items: seq<Input>)
  {
    && |items| <= limit
    && (forall i, j :: 0 <= i < j < |items| ==> Earlier(items[i].registeredAt, items[i].id, items[j]))
    && (forall r :: r in items ==> Due(rows, project, after, r))
    && forall r :: Due(rows, project, after, r) && r !in items ==>
         |items| == limit && forall shown :: shown in items ==> Earlier(shown.registeredAt, shown.id, r)
  }

  ghost predicate MoreDue(rows: seq<Input>, project: string, after: Option<Position>, items: seq<Input>) {
    exists r :: Due(rows, project, after, r) && r !in items
  }

  /** The cursor that stands for an input. */
  function CursorOf(json: Json, r: Input): string { EncodeText(json.dump(Position(r.registeredAt, r.id))) }

  lemma CursorExactly(json: Json, cursor: string, p: Position)
    ensures Says(json, cursor, p) <==> cursor != "" && DecodeCursor(json, cursor) == Some(p)
  {
  }

  lemma {:induction false} FollowingRises(sorted: seq<Input>, after: Option<Position>)
    requires Rising(sorted)
    ensures Rising(Following(sorted, after))
  {
    if sorted != [] {
      FollowingRises(sorted[1..], after);
      var rest := Following(sorted[1..], after);
      forall j | 0 <= j < |rest| ensures Before(PositionOf(sorted[0]), PositionOf(rest[j])) {
        assert rest[j] in rest;
        var k :| 0 <= k < |sorted[1..]| && sorted[1..][k] == rest[j];
        assert sorted[k + 1] == rest[j];
      }
    }
  }

  lemma FirstShown(rows: seq<Input>, json: Json, project: string, limit: int, after: Option<Position>, due: seq<Input>)
    requires 0 < limit && Rising(due) && forall r :: r in due <==> Due(rows, project, after, r)
    ensures var page := PageAfter(due, json, limit);
            && ShowsFirst(rows, project, limit, after, page.items)
            && (page.truncated <==> MoreDue(rows, project, after, page.items))
            && (page.truncated ==> |page.items| == limit)
            && page.next == (if page.truncated then Some(CursorOf(json, page.items[limit - 1])) else None)
  {
    var page := PageAfter(due, json, limit);
    if |due| > limit {
      assert page.items == due[..limit] && forall k :: 0 <= k < limit ==> due[k] == page.items[k];
      forall r | r in due && r !in page.items
        ensures forall shown :: shown in page.items ==> Earlier(shown.registeredAt, shown.id, r)
      {
        var k :| 0 <= k < |due| && due[k] == r;
        assert k >= limit;
      }
      NotShown(due, limit);
      assert due[limit] in due;
    } else {
      assert page.items == due;
    }
  }

  lemma NotShown(due: seq<Input>, limit: int)
    requires Rising(due) && 0 <= limit < |due|
    ensures due[limit] !in due[..limit]
  {
    forall k | 0 <= k < limit ensures due[k] != due[limit] {
      BeforeOrders(PositionOf(due[k]), PositionOf(due[limit]), PositionOf(due[k]));
    }
  }

  lemma DueListed(rows: seq<Input>, json: Json, project: string, limit: int, after: Option<Position>)
    requires IdsUnique(rows) && 0 < limit
    ensures var page := PageAfter(Following(Ordered(rows, project), after), json, limit);
            && ShowsFirst(rows, project, limit, after, page.items)
            && (page.truncated <==> MoreDue(rows, project, after, page.items))
            && (page.truncated ==> |page.items| == limit)
            && page.next == (if page.truncated then Some(CursorOf(json, page.items[limit - 1])) else None)
  {
    OrderedRises(rows, project);
    FollowingRises(Ordered(rows, project), after);
    FirstShown(rows, json, project, limit, after, Following(Ordered(rows, project), after));
  }

  /** What a page answers for any stored inputs, limit and cursor: an error for a limit outside 1 to 100,
      another for a cursor that says no position, and else the first inputs of the project after it. */
  lemma PageTells(rows: seq<Input>, json: Json, project: string, limit: int, cursor: Option<string>)
    requires IdsUnique(rows)
    ensures var answer := ListPage(rows, json, project, limit, cursor);
            && (limit < 1 || limit > 100 <==> answer == PageError)
            && (answer == CursorError <==>
                  1 <= limit <= 100 && cursor.Some? && forall p :: !Says(json, cursor.value, p))
            && (answer.Page? ==> exists after: Option<Position> ::
                  && (if cursor.None? then after.None? else after.Some? && Says(json, cursor.value, after.value))
                  && ShowsFirst(rows, project, limit, after, answer.items)
                  && (answer.truncated <==> MoreDue(rows, project, after, answer.items))
                  && (answer.truncated ==> |answer.items| == limit)
                  && answer.next == (if answer.truncated then Some(CursorOf(json, answer.items[limit - 1])) else None))
  {
    if 1 <= limit <= 100 {
      match cursor
      case None => DueListed(rows, json, project, limit, None);
      case Some(text) =>
        var position := if text == "" then None else DecodeCursor(json, text);
        forall p ensures Says(json, text, p) <==> position == Some(p) { CursorExactly(json, text, p); }
        if position.Some? {
          assert Says(json, text, position.value);
          DueListed(rows, json, project, limit, position);
        }
    }
  }
}
