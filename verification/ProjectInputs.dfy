/** Pages of project inputs by keyset cursor (plugins/local_project_input_store.py). */
module ProjectInputs {
  import opened Common
  import opened CursorCodec

  datatype Input = Input(id: string, project: string, registeredAt: string, content: string)

  datatype Position = Position(registeredAt: string, id: string)

  function PositionOf(r: Input): Position { Position(r.registeredAt, r.id) }

  predicate Before(a: Position, b: Position) {
    Less(a.registeredAt, b.registeredAt) || (a.registeredAt == b.registeredAt && Less(a.id, b.id))
  }

  lemma BeforeOrders(a: Position, b: Position, c: Position)
    ensures Before(a, b) || Before(b, a) || a == b
    ensures !(Before(a, b) && Before(b, a))
    ensures Before(a, b) && Before(b, c) ==> Before(a, c)
  {
    LessTotal(a.registeredAt, b.registeredAt);
    LessTotal(a.id, b.id);
    LessAsymmetric(a.registeredAt, b.registeredAt);
    LessAsymmetric(a.id, b.id);
    if Less(a.registeredAt, b.registeredAt) && Less(b.registeredAt, c.registeredAt) {
      LessTransitive(a.registeredAt, b.registeredAt, c.registeredAt);
    }
    if Less(a.id, b.id) && Less(b.id, c.id) { LessTransitive(a.id, b.id, c.id); }
  }

  // ---------------------------------------------------------------- the query

  function InsertInput(r: Input, sorted: seq<Input>): (s: seq<Input>)
    ensures multiset(s) == multiset(sorted) + multiset{r}
  {
    if sorted != [] && Before(PositionOf(sorted[0]), PositionOf(r)) then
      assert sorted == [sorted[0]] + sorted[1..];
      [sorted[0]] + InsertInput(r, sorted[1..])
    else [r] + sorted
  }

  lemma InsertedMembers(r: Input, sorted: seq<Input>)
    ensures forall x :: x in InsertInput(r, sorted) <==> x == r || x in sorted
  {
    var s := InsertInput(r, sorted);
    forall x ensures x in s <==> x == r || x in sorted {
      assert x in s <==> x in multiset(s);
      assert x in sorted <==> x in multiset(sorted);
    }
  }

  /** The rows of one project, ORDER BY registered_at, input_id. */
  function Ordered(rows: seq<Input>, project: string): (s: seq<Input>)
    ensures forall r :: r in s <==> r in rows && r.project == project
  {
    if rows == [] then []
    else
      var rest := Ordered(rows[1..], project);
      if rows[0].project == project then
        var s := InsertInput(rows[0], rest);
        InsertedMembers(rows[0], rest);
        s
      else rest
  }

  /** The rows after a cursor position, in the same order. */
  function Following(sorted: seq<Input>, after: Option<Position>): (s: seq<Input>)
    ensures forall r :: r in s <==> r in sorted && (after.None? || Before(after.value, PositionOf(r)))
  {
    if sorted == [] then []
    else
      var rest := Following(sorted[1..], after);
      if after.None? || Before(after.value, PositionOf(sorted[0])) then [sorted[0]] + rest else rest
  }

  /** JSON text of a position and back, which the codec carries as bytes. */
  datatype Json = Json(dump: Position -> seq<Byte>, parse: seq<Byte> -> Option<Position>)

  /** The library's own promise: what it writes it reads back. */
  ghost predicate Faithful(json: Json) {
    forall p :: json.parse(json.dump(p)) == Some(p)
  }

  function EncodeCursor(json: Json, p: Position): string { EncodeText(json.dump(p)) }

  /** `_decode_cursor`; None stands for the cursor error. */
  function DecodeCursor(json: Json, cursor: string): Option<Position> {
    match DecodeText(cursor)
    case None => None
    case Some(bytes) =>
      match json.parse(bytes)
      case None => None
      case Some(p) => if p.registeredAt == "" || p.id == "" then None else Some(p)
  }

  /** What the cursor decodes to is what was encoded, unless a part of it is empty. */
  lemma CursorRoundTrip(json: Json, p: Position)
    requires Faithful(json)
    ensures DecodeCursor(json, EncodeCursor(json, p)) == if p.registeredAt == "" || p.id == "" then None else Some(p)
  {
    TextRoundTrip(json.dump(p));
    assert json.parse(json.dump(p)) == Some(p);
  }

  datatype Listing =
    | Page(items: seq<Input>, truncated: bool, next: Option<string>)
    | PageError
    | CursorError

  const MAX_PAGE_SIZE := 100

  /** `list_page`. */
  function ListPage(rows: seq<Input>, json: Json, project: string, limit: int, cursor: Option<string>): Listing {
    if limit < 1 || limit > MAX_PAGE_SIZE then PageError
    else
      match cursor
      case None => PageAfter(Following(Ordered(rows, project), None), json, limit)
      case Some(text) =>
        var position := if text == "" then None else DecodeCursor(json, text);
        if position.None? then CursorError else PageAfter(Following(Ordered(rows, project), position), json, limit)
  }

  function PageAfter(found: seq<Input>, json: Json, limit: nat): Listing
    requires limit > 0
  {
    var read := if |found| <= limit + 1 then found else found[..limit + 1];
    var visible := if |read| <= limit then read else read[..limit];
    Page(visible, |read| > limit,
         if |read| > limit then Some(EncodeCursor(json, PositionOf(visible[limit - 1]))) else None)
  }

  // ---------------------------------------------------------------- order

  ghost predicate Rising(s: seq<Input>) {
    forall i, j :: 0 <= i < j < |s| ==> Before(PositionOf(s[i]), PositionOf(s[j]))
  }

  ghost predicate IdsUnique(rows: seq<Input>) {
    forall i, j :: 0 <= i < j < |rows| ==> rows[i].id != rows[j].id
  }

  lemma {:induction false} InsertRises(r: Input, s: seq<Input>)
    requires Rising(s) && forall x :: x in s ==> PositionOf(x) != PositionOf(r)
    ensures Rising(InsertInput(r, s))
  {
    if s != [] && Before(PositionOf(s[0]), PositionOf(r)) {
      InsertRises(r, s[1..]);
      var rest := InsertInput(r, s[1..]);
      forall j | 0 <= j < |rest| ensures Before(PositionOf(s[0]), PositionOf(rest[j])) {
        assert rest[j] in multiset(rest);
        if rest[j] != r { assert rest[j] in s[1..]; }
      }
    } else {
      forall j | 0 <= j < |s| ensures Before(PositionOf(r), PositionOf(s[j])) {
        assert s[0] in s;
        BeforeOrders(PositionOf(r), PositionOf(s[0]), PositionOf(s[j]));
      }
    }
  }

  lemma {:induction false} OrderedRises(rows: seq<Input>, project: string)
    requires IdsUnique(rows)
    ensures Rising(Ordered(rows, project))
  {
    if rows != [] {
      OrderedRises(rows[1..], project);
      var rest := Ordered(rows[1..], project);
      forall x | x in rest ensures PositionOf(x) != PositionOf(rows[0]) {
        var i :| 0 <= i < |rows[1..]| && rows[1..][i] == x;
        assert rows[i + 1] == x;
      }
      if rows[0].project == project { InsertRises(rows[0], rest); }
    }
  }

  lemma {:induction false} AllAfter(s: seq<Input>, p: Position)
    requires forall i :: 0 <= i < |s| ==> Before(p, PositionOf(s[i]))
    ensures Following(s, Some(p)) == s
  {
    if s != [] { AllAfter(s[1..], p); }
  }

  /** The rows after row `k`'s position are the rest of the list. */
  lemma {:induction false} FollowingIsRest(s: seq<Input>, k: nat)
    requires Rising(s) && k < |s|
    ensures Following(s, Some(PositionOf(s[k]))) == s[k + 1..]
  {
    var p := PositionOf(s[k]);
    FollowingSkips(s, p);
    if k == 0 {
      AllAfter(s[1..], p);
    } else {
      FollowingIsRest(s[1..], k - 1);
    }
  }

  lemma FollowingSkips(s: seq<Input>, p: Position)
    requires s != [] && (p == PositionOf(s[0]) || Before(PositionOf(s[0]), p))
    ensures Following(s, Some(p)) == Following(s[1..], Some(p))
  {
    BeforeOrders(p, PositionOf(s[0]), p);
  }

  lemma {:induction false} FollowingAll(s: seq<Input>)
    ensures Following(s, None) == s
  {
    if s != [] { FollowingAll(s[1..]); }
  }

  // ---------------------------------------------------------------- following the cursor

  /** Follows `next_cursor` from page to page. */
  function Follow(read: Option<string> -> Listing, cursor: Option<string>, fuel: nat): seq<Input>
    decreases fuel
  {
    match read(cursor)
    case Page(items, _, next) => if next.None? || fuel == 0 then items else items + Follow(read, next, fuel - 1)
    case _ => []
  }

  ghost predicate CursorFor(json: Json, all: seq<Input>, from: nat, cursor: Option<string>) {
    from <= |all| && if from == 0 then cursor.None? else cursor == Some(EncodeCursor(json, PositionOf(all[from - 1])))
  }

  function PageFrom(json: Json, all: seq<Input>, from: nat, limit: nat): Listing
    requires limit > 0 && from <= |all|
  {
    var high := if from + limit <= |all| then from + limit else |all|;
    Page(all[from..high], |all| - from > limit,
         if |all| - from > limit then Some(EncodeCursor(json, PositionOf(all[high - 1]))) else None)
  }

  /** Rows as the store holds them: unique ids, and nothing the cursor could not carry. */
  ghost predicate Stored(rows: seq<Input>) {
    IdsUnique(rows) && forall r :: r in rows ==> r.id != "" && r.registeredAt != ""
  }

  lemma CursorNotEmpty(json: Json, p: Position)
    requires Faithful(json) && EncodeCursor(json, p) == ""
    ensures json.dump(p) == []
  {
    TextRoundTrip(json.dump(p));
    assert Decoded(Padded("")) == Some([]) by { assert Padded("") == ""; }
  }

  lemma PageAt(rows: seq<Input>, json: Json, project: string, limit: int, cursor: Option<string>, from: nat)
    requires Stored(rows) && Faithful(json) && 1 <= limit <= MAX_PAGE_SIZE
             && CursorFor(json, Ordered(rows, project), from, cursor)
    requires forall p :: json.dump(p) != []
    ensures ListPage(rows, json, project, limit, cursor) == PageFrom(json, Ordered(rows, project), from, limit)
  {
    var all := Ordered(rows, project);
    OrderedRises(rows, project);
    PageOfRest(json, all, from, limit);
    if from == 0 {
      FollowingAll(all);
      ListReads(rows, json, project, limit, cursor, None);
    } else {
      StoredPosition(rows, project, all[from - 1]);
      PageAfterRow(rows, json, project, limit, cursor, from - 1);
    }
  }

  lemma StoredPosition(rows: seq<Input>, project: string, r: Input)
    requires Stored(rows) && r in Ordered(rows, project)
    ensures PositionOf(r).registeredAt != "" && PositionOf(r).id != ""
  {
  }

  lemma PageAfterRow(rows: seq<Input>, json: Json, project: string, limit: int, cursor: Option<string>, k: nat)
    requires Faithful(json) && 1 <= limit <= MAX_PAGE_SIZE
    requires var all := Ordered(rows, project);
             Rising(all) && k < |all|
             && var p := PositionOf(all[k]);
                json.dump(p) != [] && p.registeredAt != "" && p.id != "" && cursor == Some(EncodeCursor(json, p))
    ensures ListPage(rows, json, project, limit, cursor) == PageAfter(Ordered(rows, project)[k + 1..], json, limit)
  {
    var all := Ordered(rows, project);
    var p := PositionOf(all[k]);
    CursorReads(json, p);
    FollowingIsRest(all, k);
    ListReads(rows, json, project, limit, cursor, Some(p));
  }

  /** A cursor that can be read only says where the page starts. */
  lemma ListReads(rows: seq<Input>, json: Json, project: string, limit: int, cursor: Option<string>,
                  p: Option<Position>)
    requires 1 <= limit <= MAX_PAGE_SIZE
    requires if cursor.None? then p.None? else cursor.value != "" && p.Some? && DecodeCursor(json, cursor.value) == p
    ensures ListPage(rows, json, project, limit, cursor) == PageAfter(Following(Ordered(rows, project), p), json, limit)
  {
  }

  lemma CursorReads(json: Json, p: Position)
    requires Faithful(json) && json.dump(p) != [] && p.registeredAt != "" && p.id != ""
    ensures EncodeCursor(json, p) != "" && DecodeCursor(json, EncodeCursor(json, p)) == Some(p)
  {
    CursorRoundTrip(json, p);
    if EncodeCursor(json, p) == "" { CursorNotEmpty(json, p); }
  }

  lemma PageOfRest(json: Json, all: seq<Input>, from: nat, limit: nat)
    requires limit > 0 && from <= |all|
    ensures PageAfter(all[from..], json, limit) == PageFrom(json, all, from, limit)
  {
  }

  lemma {:induction false} FollowFrom(read: Option<string> -> Listing, json: Json, all: seq<Input>, limit: nat,
                                      cursor: Option<string>, from: nat, fuel: nat)
    requires limit > 0 && CursorFor(json, all, from, cursor) && |all| - from <= fuel
    requires forall k: nat, c :: CursorFor(json, all, k, c) ==> read(c) == PageFrom(json, all, k, limit)
    ensures Follow(read, cursor, fuel) == all[from..]
    decreases fuel
  {
    if |all| - from > limit {
      var high := from + limit;
      FollowFrom(read, json, all, limit, Some(EncodeCursor(json, PositionOf(all[high - 1]))), high, fuel - 1);
      assert all[from..high] + all[high..] == all[from..];
    }
  }

  /** Over an unchanged table, following next_cursor visits every input of the project exactly
      once, in order, and ends. */
  lemma FollowVisitsAll(rows: seq<Input>, json: Json, project: string, limit: int)
    requires Stored(rows) && Faithful(json) && 1 <= limit <= MAX_PAGE_SIZE && forall p :: json.dump(p) != []
    ensures var read := (c: Option<string>) => ListPage(rows, json, project, limit, c);
            Follow(read, None, |Ordered(rows, project)|) == Ordered(rows, project)
            && Rising(Ordered(rows, project))
  {
    var read := (c: Option<string>) => ListPage(rows, json, project, limit, c);
    var all := Ordered(rows, project);
    forall k: nat, c | CursorFor(json, all, k, c) ensures read(c) == PageFrom(json, all, k, limit) {
      PageAt(rows, json, project, limit, c, k);
    }
    FollowFrom(read, json, all, limit, None, 0, |all|);
    OrderedRises(rows, project);
  }
}
