/** Newest-first pages of synthesis candidates, merged from one query per producer
    (plugins/local_conversation_store/synthesis.py). */
module CandidatePages {
  import opened Common

  /** A row of `state_delta_proposals`, with the JSON fields the queries extract. */
  datatype Row = Row(rowid: int, proposal: string, valid: bool, project: string, candidate: bool, producer: string)

  /** The table, newest row first: rowids fall, and proposal ids are unique. */
  ghost predicate Table(rows: seq<Row>) {
    && (forall i, j :: 0 <= i < j < |rows| ==> rows[i].rowid > rows[j].rowid)
    && forall i, j :: 0 <= i < j < |rows| ==> rows[i].proposal != rows[j].proposal
  }

  predicate Listed(r: Row, project: string, producers: seq<string>) {
    r.valid && r.project == project && r.candidate && r.producer in producers
  }

  predicate Below(r: Row, before: Option<int>) { before.None? || r.rowid < before.value }

  /** `SELECT ... WHERE ... ORDER BY rowid DESC`. */
  function Select(rows: seq<Row>, project: string, producers: seq<string>, before: Option<int>): (found: seq<Row>)
    ensures forall r :: r in found <==> r in rows && Listed(r, project, producers) && Below(r, before)
  {
    if rows == [] then []
    else
      var rest := Select(rows[1..], project, producers, before);
      if Listed(rows[0], project, producers) && Below(rows[0], before) then [rows[0]] + rest else rest
  }

  function Limited(rows: seq<Row>, limit: nat): (page: seq<Row>) {
    if |rows| <= limit then rows else rows[..limit]
  }

  /** `rows.sort(key=rowid, reverse=True)`. */
  function InsertNewest(r: Row, sorted: seq<Row>): (s: seq<Row>)
    ensures multiset(s) == multiset(sorted) + multiset{r}
  {
    if sorted != [] && sorted[0].rowid > r.rowid then
      assert sorted == [sorted[0]] + sorted[1..];
      [sorted[0]] + InsertNewest(r, sorted[1..])
    else [r] + sorted
  }

  function NewestFirst(rows: seq<Row>): (s: seq<Row>)
    ensures multiset(s) == multiset(rows)
  {
    if rows == [] then []
    else
      assert rows == [rows[0]] + rows[1..];
      InsertNewest(rows[0], NewestFirst(rows[1..]))
  }

  /** The bounded query for one producer. */
  function Bunch(rows: seq<Row>, project: string, producer: string, before: Option<int>, limit: nat): seq<Row> {
    Limited(Select(rows, project, [producer], before), limit + 1)
  }

  /** One bounded query per producer, results one after another. */
  function PerProducer(rows: seq<Row>, project: string, producers: seq<string>, before: Option<int>,
                       limit: nat): seq<Row> {
    if producers == [] then []
    else
      var last := |producers| - 1;
      PerProducer(rows, project, producers[..last], before, limit)
          + Bunch(rows, project, producers[last], before, limit)
  }

  datatype Listing =
    | Page(rows: seq<Row>, truncated: bool, next: Option<string>, incomplete: bool)
    | CursorError
    | LimitError
    | KindError

  function PageOf(probe: seq<Row>, limit: nat, incomplete: bool): Listing
    requires limit > 0
  {
    var page := Limited(probe, limit);
    Page(page, |probe| > limit, if |probe| > limit then Some(page[limit - 1].proposal) else None, incomplete)
  }

  function Find(rows: seq<Row>, proposal: string): (found: Option<Row>)
    ensures found.None? <==> forall r :: r in rows ==> r.proposal != proposal
    ensures found.Some? ==> found.value in rows && found.value.proposal == proposal
  {
    if rows == [] then None
    else if rows[0].proposal == proposal then Some(rows[0])
    else Find(rows[1..], proposal)
  }

  /** `_cursor_rowid` and the empty-cursor check; None stands for the cursor error. */
  function CursorPosition(rows: seq<Row>, project: string, producers: seq<string>,
                          cursor: Option<string>): Option<Option<int>> {
    match cursor
    case None => Some(None)
    case Some(proposal) =>
      if proposal == "" then None
      else
        match Find(rows, proposal)
        case None => None
        case Some(r) => if Listed(r, project, producers) then Some(Some(r.rowid)) else None
  }

  predicate Malformed(rows: seq<Row>) { exists i :: 0 <= i < |rows| && !rows[i].valid }

  predicate LimitValid(limit: int) { 0 < limit <= 100 }

  /** `list_synthesis_candidate_rows`. */
  function List(rows: seq<Row>, project: string, producers: seq<string>, limit: int, cursor: Option<string>): Listing {
    if !LimitValid(limit) then LimitError
    else
      match CursorPosition(rows, project, producers, cursor)
      case None => CursorError
      case Some(before) =>
        PageOf(Limited(NewestFirst(PerProducer(rows, project, producers, before, limit)), limit + 1), limit,
            Malformed(rows))
  }

  /** The one query over all producers that the merge stands for. */
  function OneQuery(rows: seq<Row>, project: string, producers: seq<string>, limit: int,
                    cursor: Option<string>): Listing {
    if !LimitValid(limit) then LimitError
    else
      match CursorPosition(rows, project, producers, cursor)
      case None => CursorError
      case Some(before) =>
        PageOf(Limited(Select(rows, project, producers, before), limit + 1), limit, Malformed(rows))
  }

  // ---------------------------------------------------------------- newest first

  ghost predicate Falling(rows: seq<Row>) {
    forall i, j :: 0 <= i < j < |rows| ==> rows[i].rowid > rows[j].rowid
  }

  lemma {:induction false} SelectFalling(rows: seq<Row>, project: string, producers: seq<string>, before: Option<int>)
    requires Falling(rows)
    ensures Falling(Select(rows, project, producers, before))
  {
    if rows != [] {
      SelectFalling(rows[1..], project, producers, before);
      var rest := Select(rows[1..], project, producers, before);
      forall j | 0 <= j < |rest| ensures rows[0].rowid > rest[j].rowid {
        assert rest[j] in rows[1..];
      }
    }
  }

  ghost predicate RowidsDiffer(rows: seq<Row>) {
    forall i, j :: 0 <= i < j < |rows| ==> rows[i].rowid != rows[j].rowid
  }

  lemma {:induction false} InsertFalls(r: Row, sorted: seq<Row>)
    requires Falling(sorted) && forall x :: x in sorted ==> x.rowid != r.rowid
    ensures Falling(InsertNewest(r, sorted))
  {
    if sorted != [] && sorted[0].rowid > r.rowid {
      InsertFalls(r, sorted[1..]);
      var rest := InsertNewest(r, sorted[1..]);
      forall j | 0 <= j < |rest| ensures sorted[0].rowid > rest[j].rowid {
        assert rest[j] in multiset(rest);
        if rest[j] != r { assert rest[j] in sorted[1..]; }
      }
    }
  }

  lemma {:induction false} SortFalls(rows: seq<Row>)
    requires RowidsDiffer(rows)
    ensures Falling(NewestFirst(rows))
  {
    if rows != [] {
      SortFalls(rows[1..]);
      var rest := NewestFirst(rows[1..]);
      forall x | x in rest ensures x.rowid != rows[0].rowid {
        assert x in multiset(rest);
        assert x in rows[1..];
      }
      InsertFalls(rows[0], rest);
    }
  }

  // ---------------------------------------------------------------- the merge holds the newest rows

  lemma SameMembers(rows: seq<Row>, r: Row)
    ensures r in NewestFirst(rows) <==> r in rows
  {
    assert r in multiset(NewestFirst(rows)) <==> r in multiset(rows);
  }

  lemma {:induction false} SelectSplit(rows: seq<Row>, project: string, all: seq<string>, one: string,
                                       before: Option<int>, k: nat)
    returns (j: nat)
    requires one in all && k < |Select(rows, project, all, before)|
             && Select(rows, project, all, before)[k].producer == one
    ensures j <= k && j < |Select(rows, project, [one], before)|
    ensures Select(rows, project, [one], before)[j] == Select(rows, project, all, before)[k]
  {
    var every, own := Select(rows[1..], project, all, before), Select(rows[1..], project, [one], before);
    var r := rows[0];
    if Listed(r, project, all) && Below(r, before) {
      if k == 0 {
        j := 0;
      } else {
        var i := SelectSplit(rows[1..], project, all, one, before, k - 1);
        j := if r.producer == one then i + 1 else i;
      }
    } else {
      j := SelectSplit(rows[1..], project, all, one, before, k);
    }
  }

  predicate FromBunch(rows: seq<Row>, project: string, producers: seq<string>, before: Option<int>, limit: nat,
                      r: Row, p: int)
    requires 0 <= p < |producers|
  {
    r in Bunch(rows, project, producers[p], before, limit)
  }

  lemma {:induction false} GatheredFrom(rows: seq<Row>, project: string, producers: seq<string>, before: Option<int>,
                                        limit: nat, r: Row)
    ensures r in PerProducer(rows, project, producers, before, limit) <==>
              exists p :: 0 <= p < |producers| && FromBunch(rows, project, producers, before, limit, r, p)
  {
    if producers != [] {
      var last := |producers| - 1;
      var front := producers[..last];
      GatheredFrom(rows, project, front, before, limit, r);
      forall p | 0 <= p < last
        ensures FromBunch(rows, project, front, before, limit, r, p) <==>
                  FromBunch(rows, project, producers, before, limit, r, p)
      {}
      assert FromBunch(rows, project, producers, before, limit, r, last)
        <==> r in Bunch(rows, project, producers[last], before, limit);
    }
  }

  /** Every gathered row belongs to the whole collection. */
  lemma GatheredListed(rows: seq<Row>, project: string, producers: seq<string>, before: Option<int>, limit: nat, r: Row)
    requires r in PerProducer(rows, project, producers, before, limit)
    ensures r in Select(rows, project, producers, before)
  {
    GatheredFrom(rows, project, producers, before, limit, r);
    var p :| 0 <= p < |producers| && FromBunch(rows, project, producers, before, limit, r, p);
    assert r in Select(rows, project, [producers[p]], before);
  }

  /** The newest rows of the whole collection are all gathered. */
  lemma NewestGathered(rows: seq<Row>, project: string, producers: seq<string>, before: Option<int>, limit: nat, k: nat)
    requires k < |Select(rows, project, producers, before)| && k <= limit
    ensures Select(rows, project, producers, before)[k] in PerProducer(rows, project, producers, before, limit)
  {
    var all := Select(rows, project, producers, before);
    var one := all[k].producer;
    assert all[k] in all;
    var p :| 0 <= p < |producers| && producers[p] == one;
    var j := SelectSplit(rows, project, producers, one, before, k);
    assert Bunch(rows, project, one, before, limit)[j] == all[k];
    assert FromBunch(rows, project, producers, before, limit, all[k], p);
    GatheredFrom(rows, project, producers, before, limit, all[k]);
  }

  /** The next row of two falling lists that agree so far, one within the other. */
  lemma NextSame(s: seq<Row>, all: seq<Row>, k: nat)
    requires Falling(s) && Falling(all) && k < |all| && k <= |s|
    requires (forall i :: 0 <= i < |s| ==> s[i] in all) && all[k] in s
    requires forall i :: 0 <= i < k ==> s[i] == all[i]
    ensures k < |s| && s[k] == all[k]
  {
    var at :| 0 <= at < |s| && s[at] == all[k];
    assert at >= k;
    assert s[k] in all;
    var j :| 0 <= j < |all| && all[j] == s[k];
    assert j >= k;
  }

  /** Rows with falling rowids are determined by which rows they are, as far as they agree. */
  lemma {:induction false} SamePrefix(s: seq<Row>, all: seq<Row>, n: nat)
    requires Falling(s) && Falling(all) && n <= |all|
    requires forall i :: 0 <= i < |s| ==> s[i] in all
    requires forall k :: 0 <= k < n ==> all[k] in s
    ensures n <= |s| && forall i :: 0 <= i < n ==> s[i] == all[i]
  {
    if n > 0 {
      SamePrefix(s, all, n - 1);
      NextSame(s, all, n - 1);
    }
  }

  lemma NotLonger(s: seq<Row>, all: seq<Row>)
    requires Falling(s) && |all| <= |s|
    requires forall i :: 0 <= i < |s| ==> s[i] in all
    requires forall i :: 0 <= i < |all| ==> s[i] == all[i]
    ensures |s| == |all|
  {
    forall i | 0 <= i < |s| ensures i < |all| && s[i] == all[i] {
      var j :| 0 <= j < |all| && all[j] == s[i];
      assert s[j] == all[j];
    }
    var last := |s| - 1;
    assert |s| > 0 ==> s[last] in s;
  }

  lemma SameLimited(s: seq<Row>, all: seq<Row>, most: nat)
    requires Falling(s) && Falling(all)
    requires forall i :: 0 <= i < |s| ==> s[i] in all
    requires forall k :: 0 <= k < |all| && k < most ==> all[k] in s
    ensures Limited(s, most) == Limited(all, most)
  {
    if |all| <= most {
      SamePrefix(s, all, |all|);
      NotLonger(s, all);
      assert s == all;
    } else {
      SamePrefix(s, all, most);
    }
  }

  lemma BunchesDiffer(rows: seq<Row>, project: string, front: seq<string>, last: string, before: Option<int>,
                      limit: nat,
                      a: Row, b: Row)
    requires Falling(rows) && last !in front
    requires a in PerProducer(rows, project, front, before, limit) && b in Bunch(rows, project, last, before, limit)
    ensures a.rowid != b.rowid
  {
    GatheredFrom(rows, project, front, before, limit, a);
    var p :| 0 <= p < |front| && FromBunch(rows, project, front, before, limit, a, p);
    assert a in Select(rows, project, [front[p]], before) && b in Select(rows, project, [last], before);
    RowidIdentifies(rows, a, b);
  }

  lemma BothDiffer(a: seq<Row>, b: seq<Row>)
    requires RowidsDiffer(a) && Falling(b)
    requires forall i, j :: 0 <= i < |a| && 0 <= j < |b| ==> a[i].rowid != b[j].rowid
    ensures RowidsDiffer(a + b)
  {
  }

  lemma BunchFalling(rows: seq<Row>, project: string, producer: string, before: Option<int>, limit: nat)
    requires Falling(rows)
    ensures Falling(Bunch(rows, project, producer, before, limit))
  {
    SelectFalling(rows, project, [producer], before);
  }

  lemma {:induction false} GatheredDiffer(rows: seq<Row>, project: string, producers: seq<string>,
                                          before: Option<int>, limit: nat)
    requires Falling(rows) && forall i, j :: 0 <= i < j < |producers| ==> producers[i] != producers[j]
    ensures RowidsDiffer(PerProducer(rows, project, producers, before, limit))
  {
    if producers != [] {
      var last := |producers| - 1;
      var front := producers[..last];
      GatheredDiffer(rows, project, front, before, limit);
      BunchFalling(rows, project, producers[last], before, limit);
      var a, b := PerProducer(rows, project, front, before, limit),
          Bunch(rows, project, producers[last], before, limit);
      forall i, j | 0 <= i < |a| && 0 <= j < |b| ensures a[i].rowid != b[j].rowid {
        BunchesDiffer(rows, project, front, producers[last], before, limit, a[i], b[j]);
      }
      BothDiffer(a, b);
    }
  }

  lemma RowidIdentifies(rows: seq<Row>, a: Row, b: Row)
    requires Falling(rows) && a in rows && b in rows
    ensures a.rowid == b.rowid ==> a == b
  {
    var i :| 0 <= i < |rows| && rows[i] == a;
    var j :| 0 <= j < |rows| && rows[j] == b;
  }

  lemma MergedProbe(rows: seq<Row>, project: string, producers: seq<string>, before: Option<int>, limit: nat)
    requires Falling(rows) && forall i, j :: 0 <= i < j < |producers| ==> producers[i] != producers[j]
    ensures Limited(NewestFirst(PerProducer(rows, project, producers, before, limit)), limit + 1)
         == Limited(Select(rows, project, producers, before), limit + 1)
  {
    var got, all := PerProducer(rows, project, producers, before, limit), Select(rows, project, producers, before);
    var s := NewestFirst(got);
    GatheredDiffer(rows, project, producers, before, limit);
    SortFalls(got);
    SelectFalling(rows, project, producers, before);
    forall i | 0 <= i < |s| ensures s[i] in all {
      SameMembers(got, s[i]);
      GatheredListed(rows, project, producers, before, limit, s[i]);
    }
    forall k | 0 <= k < |all| && k < limit + 1 ensures all[k] in s {
      NewestGathered(rows, project, producers, before, limit, k);
      SameMembers(got, all[k]);
    }
    SameLimited(s, all, limit + 1);
  }

  /** The page merge equals one query: same rows, same truncation, same cursor. */
  lemma MergeIsOneQuery(rows: seq<Row>, project: string, producers: seq<string>, limit: int, cursor: Option<string>)
    requires Table(rows) && forall i, j :: 0 <= i < j < |producers| ==> producers[i] != producers[j]
    ensures List(rows, project, producers, limit, cursor) == OneQuery(rows, project, producers, limit, cursor)
  {
    if LimitValid(limit) && CursorPosition(rows, project, producers, cursor).Some? {
      MergedProbe(rows, project, producers, CursorPosition(rows, project, producers, cursor).value, limit);
    }
  }

  // ---------------------------------------------------------------- following the cursor

  lemma {:induction false} AllBelow(rows: seq<Row>, project: string, producers: seq<string>, limit: int)
    requires forall i :: 0 <= i < |rows| ==> rows[i].rowid < limit
    ensures Select(rows, project, producers, Some(limit)) == Select(rows, project, producers, None)
  {
    if rows != [] { AllBelow(rows[1..], project, producers, limit); }
  }

  lemma NewerThanListed(rows: seq<Row>, project: string, producers: seq<string>, k: nat)
    requires Falling(rows) && rows != [] && k < |Select(rows[1..], project, producers, None)|
    ensures rows[0].rowid > Select(rows[1..], project, producers, None)[k].rowid
  {
    var r := Select(rows[1..], project, producers, None)[k];
    assert r in Select(rows[1..], project, producers, None);
    var i :| 0 <= i < |rows[1..]| && rows[1..][i] == r;
    assert rows[i + 1] == r;
  }

  lemma Unlisted(rows: seq<Row>, project: string, producers: seq<string>, before: Option<int>)
    requires rows != [] && (!Listed(rows[0], project, producers) || !Below(rows[0], before))
    ensures Select(rows, project, producers, before) == Select(rows[1..], project, producers, before)
  {
  }

  lemma FirstListed(rows: seq<Row>, project: string, producers: seq<string>)
    requires rows != [] && Listed(rows[0], project, producers)
    ensures Select(rows, project, producers, None) == [rows[0]] + Select(rows[1..], project, producers, None)
  {
  }

  lemma AllOlder(rows: seq<Row>)
    requires Falling(rows) && rows != []
    ensures forall i :: 0 <= i < |rows[1..]| ==> rows[1..][i].rowid < rows[0].rowid
  {
  }

  /** The rows below one row of the collection are the rest of the collection. */
  lemma {:induction false} BelowIsRest(rows: seq<Row>, project: string, producers: seq<string>, k: nat)
    requires Falling(rows) && k < |Select(rows, project, producers, None)|
    ensures var all := Select(rows, project, producers, None);
            Select(rows, project, producers, Some(all[k].rowid)) == all[k + 1..]
    decreases |rows|, 1
  {
    var all := Select(rows, project, producers, None);
    if !Listed(rows[0], project, producers) {
      Unlisted(rows, project, producers, None);
      Unlisted(rows, project, producers, Some(all[k].rowid));
      BelowIsRest(rows[1..], project, producers, k);
    } else {
      FirstListed(rows, project, producers);
      BelowListed(rows, project, producers, k);
    }
  }

  lemma BelowListed(rows: seq<Row>, project: string, producers: seq<string>, k: nat)
    requires Falling(rows) && rows != [] && Listed(rows[0], project, producers)
    requires k <= |Select(rows[1..], project, producers, None)|
    requires Select(rows, project, producers, None) == [rows[0]] + Select(rows[1..], project, producers, None)
    ensures Select(rows, project, producers, Some(Select(rows, project, producers, None)[k].rowid))
         == Select(rows[1..], project, producers, None)[k..]
    decreases |rows|, 0
  {
    var rest := Select(rows[1..], project, producers, None);
    if k == 0 {
      Unlisted(rows, project, producers, Some(rows[0].rowid));
      AllOlder(rows);
      AllBelow(rows[1..], project, producers, rows[0].rowid);
    } else {
      NewerThanListed(rows, project, producers, k - 1);
      Unlisted(rows, project, producers, Some(rest[k - 1].rowid));
      BelowIsRest(rows[1..], project, producers, k - 1);
    }
  }

  lemma {:induction false} FindUnique(rows: seq<Row>, r: Row)
    requires Table(rows) && r in rows
    ensures Find(rows, r.proposal) == Some(r)
  {
    if rows[0] != r {
      var i :| 0 <= i < |rows| && rows[i] == r;
      assert rows[0].proposal != rows[i].proposal;
      assert rows[1..][i - 1] == r;
      FindUnique(rows[1..], r);
    }
  }

  /** Follows `next_cursor` from page to page. */
  function Follow(read: Option<string> -> Listing, cursor: Option<string>, fuel: nat): seq<Row>
    decreases fuel
  {
    match read(cursor)
    case Page(page, _, next, _) => if next.None? || fuel == 0 then page else page + Follow(read, next, fuel - 1)
    case _ => []
  }

  /** The cursor that stands for position `from` of the collection. */
  ghost predicate CursorFor(all: seq<Row>, from: nat, cursor: Option<string>) {
    from <= |all| && if from == 0 then cursor.None? else cursor == Some(all[from - 1].proposal)
  }

  ghost predicate Collection(rows: seq<Row>, producers: seq<string>) {
    && Table(rows) && (forall i, j :: 0 <= i < j < |producers| ==> producers[i] != producers[j])
    && forall r :: r in rows ==> r.proposal != ""
  }

  lemma CursorResolves(rows: seq<Row>, project: string, producers: seq<string>, cursor: Option<string>, from: nat)
    requires Collection(rows, producers) && CursorFor(Select(rows, project, producers, None), from, cursor)
    ensures CursorPosition(rows, project, producers, cursor).Some?
    ensures Select(rows, project, producers, CursorPosition(rows, project, producers, cursor).value)
         == Select(rows, project, producers, None)[from..]
  {
    var all := Select(rows, project, producers, None);
    if from > 0 {
      var last := all[from - 1];
      assert last in all;
      FindUnique(rows, last);
      BelowIsRest(rows, project, producers, from - 1);
    }
  }

  function PageFrom(all: seq<Row>, from: nat, limit: nat, incomplete: bool): Listing
    requires limit > 0 && from <= |all|
  {
    var high := if from + limit <= |all| then from + limit else |all|;
    Page(all[from..high], |all| - from > limit, if |all| - from > limit then Some(all[high - 1].proposal)
        else None, incomplete)
  }

  lemma PageOfRest(all: seq<Row>, from: nat, limit: nat, incomplete: bool)
    requires limit > 0 && from <= |all|
    ensures PageOf(Limited(all[from..], limit + 1), limit, incomplete) == PageFrom(all, from, limit, incomplete)
  {
  }

  /** The page after the first `from` rows of the collection, and the cursor it hands on. */
  lemma PageAfter(rows: seq<Row>, project: string, producers: seq<string>, limit: int, cursor: Option<string>,
                  from: nat)
    requires Collection(rows, producers) && LimitValid(limit)
    requires CursorFor(Select(rows, project, producers, None), from, cursor)
    ensures List(rows, project, producers, limit, cursor)
         == PageFrom(Select(rows, project, producers, None), from, limit, Malformed(rows))
  {
    MergeIsOneQuery(rows, project, producers, limit, cursor);
    CursorResolves(rows, project, producers, cursor, from);
    PageOfRest(Select(rows, project, producers, None), from, limit, Malformed(rows));
  }

  lemma {:induction false} FollowFrom(read: Option<string> -> Listing, all: seq<Row>, limit: nat, incomplete: bool,
                                      cursor: Option<string>, from: nat, fuel: nat)
    requires limit > 0 && CursorFor(all, from, cursor) && |all| - from <= fuel
    requires forall k: nat, c :: CursorFor(all, k, c) ==> read(c) == PageFrom(all, k, limit, incomplete)
    ensures Follow(read, cursor, fuel) == all[from..]
    decreases fuel
  {
    if |all| - from > limit {
      var high := from + limit;
      FollowFrom(read, all, limit, incomplete, Some(all[high - 1].proposal), high, fuel - 1);
      assert all[from..high] + all[high..] == all[from..];
    }
  }

  /** Over an unchanged table, following the cursor visits every row of the collection exactly
      once, newest first, and ends after at most as many pages as there are rows. */
  lemma FollowVisitsAll(rows: seq<Row>, project: string, producers: seq<string>, limit: int)
    requires Collection(rows, producers) && LimitValid(limit)
    ensures var read := (c: Option<string>) => List(rows, project, producers, limit, c);
            Follow(read, None, |rows|) == Select(rows, project, producers, None)
  {
    var read := (c: Option<string>) => List(rows, project, producers, limit, c);
    var all := Select(rows, project, producers, None);
    SelectLength(rows, project, producers, None);
    forall k: nat, c | CursorFor(all, k, c) ensures read(c) == PageFrom(all, k, limit, Malformed(rows)) {
      PageAfter(rows, project, producers, limit, c, k);
    }
    FollowFrom(read, all, limit, Malformed(rows), None, 0, |rows|);
  }

  lemma {:induction false} SelectLength(rows: seq<Row>, project: string, producers: seq<string>, before: Option<int>)
    ensures |Select(rows, project, producers, before)| <= |rows|
  {
    if rows != [] { SelectLength(rows[1..], project, producers, before); }
  }

  // ---------------------------------------------------------------- the listing as the source runs it

  const RECOMMENDATION := "research.recommendation.propose@0.1.0"
  const ARGUMENT := "research.argument.propose@0.1.0"

  /** `_producer_filter`; None stands for ValueError. */
  function ProducersOf(kind: Option<string>): (producers: Option<seq<string>>)
    ensures producers.Some? ==> forall i, j :: 0 <= i < j < |producers.value| ==>
              producers.value[i] != producers.value[j]
  {
    match kind
    case None => Some([RECOMMENDATION, ARGUMENT])
    case Some(k) =>
      if k == "recommendation" then Some([RECOMMENDATION])
      else if k == "argument" then Some([ARGUMENT])
      else None
  }

  /** `list_synthesis_candidate_rows` for one kind, or for all. */
  function ListKind(rows: seq<Row>, project: string, kind: Option<string>, limit: int,
                    cursor: Option<string>): Listing {
    if !LimitValid(limit) then LimitError
    else
      match ProducersOf(kind)
      case None => KindError
      case Some(producers) => List(rows, project, producers, limit, cursor)
  }

  /** For every kind the listing is one query over the producers of that kind. */
  lemma KindIsOneQuery(rows: seq<Row>, project: string, kind: Option<string>, limit: int, cursor: Option<string>)
    requires Table(rows)
    ensures ListKind(rows, project, kind, limit, cursor)
         == if LimitValid(limit) && ProducersOf(kind).None? then KindError
            else OneQuery(rows, project, ProducersOf(kind).GetOr([]), limit, cursor)
  {
    if ProducersOf(kind).Some? { MergeIsOneQuery(rows, project, ProducersOf(kind).value, limit, cursor); }
  }

  /** For every known kind, following the cursor visits every row of it exactly once. */
  lemma FollowKind(rows: seq<Row>, project: string, kind: Option<string>, limit: int)
    requires Table(rows) && (forall r :: r in rows ==> r.proposal != "") && LimitValid(limit) && ProducersOf(kind).Some?
    ensures var read := (c: Option<string>) => ListKind(rows, project, kind, limit, c);
            Follow(read, None, |rows|) == Select(rows, project, ProducersOf(kind).value, None)
  {
    var producers := ProducersOf(kind).value;
    var all, read := Select(rows, project, producers, None),
        (c: Option<string>) => ListKind(rows, project, kind, limit, c);
    SelectLength(rows, project, producers, None);
    forall k: nat, c | CursorFor(all, k, c) ensures read(c) == PageFrom(all, k, limit, Malformed(rows)) {
      PageAfter(rows, project, producers, limit, c, k);
    }
    FollowFrom(read, all, limit, Malformed(rows), None, 0, |rows|);
  }

  method ListRows(rows: seq<Row>, project: string, kind: Option<string>, limit: int, cursor: Option<string>)
    returns (listing: Listing)
    ensures listing == ListKind(rows, project, kind, limit, cursor)
  {
    if !LimitValid(limit) { return LimitError; }
    var known := ProducersOf(kind);
    if known.None? { return KindError; }
    var producers := known.value;
    var position := CursorPosition(rows, project, producers, cursor);
    if position.None? { return CursorError; }
    var gathered := GatherRows(rows, project, producers, position.value, limit);
    return PageOf(Limited(NewestFirst(gathered), limit + 1), limit, Malformed(rows));
  }

  /** The loop over producers. */
  method GatherRows(rows: seq<Row>, project: string, producers: seq<string>, before: Option<int>, limit: nat)
    returns (gathered: seq<Row>)
    ensures gathered == PerProducer(rows, project, producers, before, limit)
  {
    gathered := [];
    for p := 0 to |producers|
      invariant gathered == PerProducer(rows, project, producers[..p], before, limit)
    {
      assert producers[..p + 1][..p] == producers[..p];
      gathered := gathered + Bunch(rows, project, producers[p], before, limit);
    }
    assert producers[..|producers|] == producers;
  }
}
