/** What survey datasets hold and what reading and capturing them answers, read off the dataset's
    fields and the stored rows (plugins/local_survey_response_store.py:218-275, 397-555, 690-771). */
module SurveyReads {
  import opened Common
  import opened SurveyEntries

  // ---------------------------------------------------------------- counting

  function Places<T(==)>(s: seq<T>, x: T): set<int> { set i | 0 <= i < |s| && s[i] == x }

  lemma {:induction false} CountPlaces<T>(s: seq<T>, x: T)
    ensures multiset(s)[x] == |Places(s, x)|
  {
    if s == [] {
      assert Places(s, x) == {};
    } else {
      var last := |s| - 1;
      CountPlaces(s[..last], x);
      assert s == s[..last] + [s[last]];
      assert Places(s, x) == Places(s[..last], x) + (if s[last] == x then {last} else {});
    }
  }

  lemma SamePlaces(a: set<int>, b: set<int>)
    requires a == b
    ensures |a| == |b|
  {
  }

  // ---------------------------------------------------------------- the entries of a dataset

  /** Rejected input `k` is the last one recorded for this response. */
  predicate RejectedBy(inputs: seq<Rejected>, r: ResponseRef, k: int) {
    && 0 <= k < |inputs| && Names(inputs[k], r) && forall j :: k < j < |inputs| ==> !Names(inputs[j], r)
  }

  predicate Names(input: Rejected, r: ResponseRef) {
    input.canonical.Some? && input.canonical.value.namespace == r.namespace && input.canonical.value.id == r.id
  }

  ghost predicate Recorded(inputs: seq<Rejected>, r: ResponseRef) { exists k :: RejectedBy(inputs, r, k) }

  lemma {:induction false} RejectionExactly(inputs: seq<Rejected>, r: ResponseRef)
    ensures RejectionOf(inputs, r).Some? <==> Recorded(inputs, r)
    ensures RejectionOf(inputs, r).Some? ==>
              exists k :: RejectedBy(inputs, r, k) && inputs[k] == RejectionOf(inputs, r).value
  {
    if inputs != [] {
      var last := |inputs| - 1;
      RejectionExactly(inputs[..last], r);
      if Names(inputs[last], r) {
        assert RejectedBy(inputs, r, last);
      } else if RejectionOf(inputs[..last], r).Some? {
        var k :| RejectedBy(inputs[..last], r, k) && inputs[..last][k] == RejectionOf(inputs[..last], r).value;
        assert RejectedBy(inputs, r, k);
      } else {
        NotRecorded(inputs, r);
      }
    }
  }

  lemma NotRecorded(inputs: seq<Rejected>, r: ResponseRef)
    requires inputs != [] && !Names(inputs[|inputs| - 1], r) && !Recorded(inputs[..|inputs| - 1], r)
    ensures !Recorded(inputs, r)
  {
    var front := inputs[..|inputs| - 1];
    forall k ensures !RejectedBy(inputs, r, k) {
      if RejectedBy(inputs, r, k) && k < |front| { assert RejectedBy(front, r, k); }
    }
  }

  /** Entry `e` stands for rejected response `j`, with the issues of the input recorded last for it. */
  ghost predicate RejectedAs(d: Dataset, j: int, e: Entry) {
    && 0 <= j < |d.rejectedRefs|
    && exists k :: RejectedBy(d.rejectedInputs, d.rejectedRefs[j], k)
                   && e == RejectedResponse(d.rejectedRefs[j], d.rejectedInputs[k].issues)
  }

  predicate AcceptedAs(d: Dataset, i: int, e: Entry) {
    0 <= i < |d.accepted| && e == AcceptedResponse(d.accepted[i])
  }

  ghost predicate AllRecorded(inputs: seq<Rejected>, refs: seq<ResponseRef>) {
    forall j :: 0 <= j < |refs| ==> Recorded(inputs, refs[j])
  }

  lemma {:induction false} RejectedExactly(inputs: seq<Rejected>, refs: seq<ResponseRef>)
    ensures RejectedEntries(inputs, refs).Some? <==> AllRecorded(inputs, refs)
    ensures RejectedEntries(inputs, refs).Some? ==>
              var entries := RejectedEntries(inputs, refs).value;
              |entries| == |refs| && forall j :: 0 <= j < |refs| ==> RejectedEntryOf(inputs, refs[j], entries[j])
  {
    if refs != [] {
      var last := |refs| - 1;
      var front := refs[..last];
      RejectedExactly(inputs, front);
      RejectionExactly(inputs, refs[last]);
      assert AllRecorded(inputs, refs) <==> AllRecorded(inputs, front) && Recorded(inputs, refs[last]) by {
        assert forall j :: 0 <= j < last ==> front[j] == refs[j];
      }
      if RejectedEntries(inputs, refs).Some? { LastRejected(inputs, refs); }
    }
  }

  lemma LastRejected(inputs: seq<Rejected>, refs: seq<ResponseRef>)
    requires refs != [] && RejectedEntries(inputs, refs).Some?
    requires var front := refs[..|refs| - 1];
             var entries := RejectedEntries(inputs, front);
             entries.Some? && |entries.value| == |front|
             && forall j :: 0 <= j < |front| ==> RejectedEntryOf(inputs, front[j], entries.value[j])
    ensures var entries := RejectedEntries(inputs, refs).value;
            |entries| == |refs| && forall j :: 0 <= j < |refs| ==> RejectedEntryOf(inputs, refs[j], entries[j])
  {
    var last := |refs| - 1;
    var entries := RejectedEntries(inputs, refs).value;
    RejectionExactly(inputs, refs[last]);
    forall j | 0 <= j < |refs| ensures RejectedEntryOf(inputs, refs[j], entries[j]) {
      if j < last { assert refs[..last][j] == refs[j]; }
    }
  }

  ghost predicate RejectedEntryOf(inputs: seq<Rejected>, r: ResponseRef, e: Entry) {
    exists k :: RejectedBy(inputs, r, k) && e == RejectedResponse(r, inputs[k].issues)
  }

  predicate Unnamed(inputs: seq<Rejected>, k: int) { 0 <= k < |inputs| && inputs[k].canonical.None? }

  predicate RawAt(inputs: seq<Rejected>, k: int, e: Entry) {
    Unnamed(inputs, k) && e == RejectedRaw(inputs[k].rawDigest, inputs[k].raw, inputs[k].issues)
  }

  function RawPlaces(inputs: seq<Rejected>, e: Entry): set<int> {
    set k | 0 <= k < |inputs| && RawAt(inputs, k, e)
  }

  function UnnamedPlaces(inputs: seq<Rejected>): set<int> { set k | 0 <= k < |inputs| && Unnamed(inputs, k) }

  lemma OneMoreRaw(inputs: seq<Rejected>, e: Entry)
    requires inputs != []
    ensures |RawPlaces(inputs, e)|
         == |RawPlaces(inputs[..|inputs| - 1], e)| + (if RawAt(inputs, |inputs| - 1, e) then 1 else 0)
  {
    var last := |inputs| - 1;
    var front := RawPlaces(inputs[..last], e);
    forall k ensures k in RawPlaces(inputs, e) <==> k in front || (RawAt(inputs, last, e) && k == last) {
      if 0 <= k < last { assert inputs[..last][k] == inputs[k]; }
    }
    if RawAt(inputs, last, e) {
      assert RawPlaces(inputs, e) == front + {last};
    } else {
      assert RawPlaces(inputs, e) == front;
    }
  }

  lemma OneMoreUnnamed(inputs: seq<Rejected>)
    requires inputs != []
    ensures |UnnamedPlaces(inputs)|
         == |UnnamedPlaces(inputs[..|inputs| - 1])| + (if Unnamed(inputs, |inputs| - 1) then 1 else 0)
  {
    var last := |inputs| - 1;
    var front := UnnamedPlaces(inputs[..last]);
    if Unnamed(inputs, last) {
      assert UnnamedPlaces(inputs) == front + {last};
    } else {
      assert UnnamedPlaces(inputs) == front;
    }
  }

  lemma CountAppend(a: seq<Entry>, b: seq<Entry>, e: Entry)
    ensures multiset(a + b)[e] == multiset(a)[e] + multiset(b)[e]
  {
    assert multiset(a + b) == multiset(a) + multiset(b);
  }

  lemma {:induction false} RawExactly(inputs: seq<Rejected>, e: Entry)
    ensures multiset(RawEntries(inputs))[e] == |RawPlaces(inputs, e)|
    ensures |RawEntries(inputs)| == |UnnamedPlaces(inputs)|
  {
    if inputs == [] {
      assert RawPlaces(inputs, e) == {} && UnnamedPlaces(inputs) == {};
    } else {
      var last := |inputs| - 1;
      RawExactly(inputs[..last], e);
      OneMoreRaw(inputs, e);
      OneMoreUnnamed(inputs);
      CountAppend(RawEntries(inputs[..last]), RawOf(inputs[last]), e);
      RawOfCounts(inputs, last, e);
    }
  }

  function RawOf(input: Rejected): seq<Entry> {
    if input.canonical.Some? then [] else [RejectedRaw(input.rawDigest, input.raw, input.issues)]
  }

  lemma RawOfCounts(inputs: seq<Rejected>, k: int, e: Entry)
    requires 0 <= k < |inputs|
    ensures multiset(RawOf(inputs[k]))[e] == (if RawAt(inputs, k, e) then 1 else 0)
    ensures |RawOf(inputs[k])| == (if Unnamed(inputs, k) then 1 else 0)
  {
  }

  function AcceptedPlaces(d: Dataset, e: Entry): set<int> { set i | 0 <= i < |d.accepted| && AcceptedAs(d, i, e) }

  ghost function RejectedPlaces(d: Dataset, e: Entry): set<int> {
    set j | 0 <= j < |d.rejectedRefs| && RejectedAs(d, j, e)
  }

  lemma AcceptedCount(d: Dataset, e: Entry)
    ensures multiset(AcceptedEntries(d.accepted))[e] == |AcceptedPlaces(d, e)|
  {
    CountPlaces(AcceptedEntries(d.accepted), e);
    SamePlaces(Places(AcceptedEntries(d.accepted), e), AcceptedPlaces(d, e));
  }

  lemma OneRejection(inputs: seq<Rejected>, r: ResponseRef, a: Entry, b: Entry)
    requires RejectedEntryOf(inputs, r, a) && RejectedEntryOf(inputs, r, b)
    ensures a == b
  {
    var i :| RejectedBy(inputs, r, i) && a == RejectedResponse(r, inputs[i].issues);
    var j :| RejectedBy(inputs, r, j) && b == RejectedResponse(r, inputs[j].issues);
    assert i == j;
  }

  lemma RejectedCount(d: Dataset, entries: seq<Entry>, e: Entry)
    requires RejectedEntries(d.rejectedInputs, d.rejectedRefs) == Some(entries)
    ensures multiset(entries)[e] == |RejectedPlaces(d, e)|
  {
    RejectedExactly(d.rejectedInputs, d.rejectedRefs);
    CountPlaces(entries, e);
    forall j | 0 <= j < |d.rejectedRefs| ensures entries[j] == e <==> RejectedAs(d, j, e) {
      assert RejectedEntryOf(d.rejectedInputs, d.rejectedRefs[j], entries[j]);
      if RejectedAs(d, j, e) { OneRejection(d.rejectedInputs, d.rejectedRefs[j], entries[j], e); }
    }
    SamePlaces(Places(entries, e), RejectedPlaces(d, e));
  }

  lemma ThreeParts(a: seq<Entry>, b: seq<Entry>, c: seq<Entry>, e: Entry)
    ensures multiset(a + b + c)[e] == multiset(a)[e] + multiset(b)[e] + multiset(c)[e]
  {
    CountAppend(a + b, c, e);
    CountAppend(a, b, e);
  }

  lemma SortedCount(entries: seq<Entry>, e: Entry)
    ensures multiset(SortEntries(entries))[e] == multiset(entries)[e] && |SortEntries(entries)| == |entries|
  {
    assert |multiset(SortEntries(entries))| == |SortEntries(entries)|;
    assert |multiset(entries)| == |entries|;
  }

  lemma RawCount(d: Dataset, e: Entry)
    ensures multiset(RawEntries(d.rejectedInputs))[e] == |RawPlaces(d.rejectedInputs, e)|
    ensures |RawEntries(d.rejectedInputs)| == |UnnamedPlaces(d.rejectedInputs)|
  {
    RawExactly(d.rejectedInputs, e);
  }

  /** A dataset has an entry list exactly when an input is recorded for each rejected response and the
      entries are as many as it says; it lists each accepted and each rejected response and each input
      that names none, as often as the dataset does. */
  lemma EntriesTell(d: Dataset)
    ensures DatasetEntries(d).Some? <==>
              AllRecorded(d.rejectedInputs, d.rejectedRefs)
              && |d.accepted| + |d.rejectedRefs| + |UnnamedPlaces(d.rejectedInputs)| == d.responseCount
    ensures DatasetEntries(d).Some? ==>
              forall e :: multiset(DatasetEntries(d).value)[e]
                          == |AcceptedPlaces(d, e)| + |RejectedPlaces(d, e)| + |RawPlaces(d.rejectedInputs, e)|
  {
    RejectedExactly(d.rejectedInputs, d.rejectedRefs);
    RawCount(d, AcceptedResponse(ResponseRef("", "", "")));
    var rejected := RejectedEntries(d.rejectedInputs, d.rejectedRefs);
    if rejected.Some? {
      var all := AcceptedEntries(d.accepted) + rejected.value + RawEntries(d.rejectedInputs);
      forall e ensures multiset(SortEntries(all))[e]
                       == |AcceptedPlaces(d, e)| + |RejectedPlaces(d, e)| + |RawPlaces(d.rejectedInputs, e)|
      {
        SortedCount(all, e);
        ThreeParts(AcceptedEntries(d.accepted), rejected.value, RawEntries(d.rejectedInputs), e);
        AcceptedCount(d, e);
        RejectedCount(d, rejected.value, e);
        RawCount(d, e);
      }
    }
  }

  // ---------------------------------------------------------------- their order

  predicate AcceptedBefore(a: ResponseRef, b: ResponseRef) {
    Less(a.namespace, b.namespace)
    || (a.namespace == b.namespace
        && (Less(a.id, b.id) || (a.id == b.id && Less(a.digest, b.digest))))
  }

  /** The order of the list: accepted responses, then inputs that name none, then rejected responses;
      responses by namespace, id and digest, inputs by digest, equal ones by their remaining content. */
  predicate EntryBefore(a: Entry, b: Entry) {
    match a
    case AcceptedResponse(r) => !b.AcceptedResponse? || AcceptedBefore(r, b.response)
    case RejectedRaw(digest, raw, issues) =>
      b.RejectedResponse?
      || (b.RejectedRaw?
          && (Less(digest, b.rawDigest)
              || (digest == b.rawDigest && (Less(raw, b.raw) || (raw == b.raw && Less(issues, b.issues))))))
    case RejectedResponse(r, issues) =>
      b.RejectedResponse?
      && (AcceptedBefore(r, b.response) || (r == b.response && Less(issues, b.issues)))
  }

  lemma RestOne(a: string, b: string)
    ensures RestLess([a], [b]) <==> Less(a, b)
  {
    assert [a][1..] == [] && [b][1..] == [];
  }

  lemma RestTwo(a: string, b: string, c: string, d: string)
    ensures RestLess([a, b], [c, d]) <==> Less(a, c) || (a == c && Less(b, d))
  {
    assert [a, b][1..] == [b] && [c, d][1..] == [d];
    RestOne(b, d);
  }

  lemma EmptyLast(s: string)
    ensures !Less(s, "")
  {
  }

  lemma KeyTells(a: Entry, b: Entry)
    ensures KeyLess(KeyOf(a), KeyOf(b)) <==> EntryBefore(a, b)
  {
    EmptyLast("");
    if a.RejectedRaw? && b.RejectedRaw? { RestTwo(a.raw, a.issues, b.raw, b.issues); }
    if a.RejectedResponse? && b.RejectedResponse? { RestOne(a.issues, b.issues); }
  }

  /** The kinds are listed in the order of their stored names. */
  lemma KindsInNameOrder(a: Entry, b: Entry)
    ensures Rank(a) < Rank(b) <==> Less(KindOf(a), KindOf(b))
    ensures KindOf(a) == (if a.AcceptedResponse? then "accepted_response"
                          else if a.RejectedRaw? then "rejected_raw_input" else "rejected_response")
  {
    NamesOrdered();
    LessAsymmetric(KindOf(a), KindOf(b));
  }

  lemma NamesOrdered()
    ensures Less("accepted_response", "rejected_raw_input") && Less("rejected_raw_input", "rejected_response")
    ensures Less("accepted_response", "rejected_response")
  {
    FirstDecides("accepted_response", "rejected_raw_input");
    FirstDecides("accepted_response", "rejected_response");
    RawBeforeResponse();
  }

  lemma RawBeforeResponse()
    ensures Less("rejected_raw_input", "rejected_response")
  {
    var start := "rejected_r";
    FirstDecides("aw_input", "esponse");
    SharedStart(start, "aw_input", "esponse");
    assert "rejected_raw_input" == start + "aw_input" && "rejected_response" == start + "esponse";
  }

  lemma FirstDecides(a: string, b: string)
    requires a != "" && b != "" && a[0] < b[0]
    ensures Less(a, b)
  {
  }

  lemma {:induction false} SharedStart(start: string, a: string, b: string)
    ensures Less(start + a, start + b) <==> Less(a, b)
  {
    if start == "" {
      assert start + a == a && start + b == b;
    } else {
      SharedStart(start[1..], a, b);
      assert (start + a)[1..] == start[1..] + a && (start + b)[1..] == start[1..] + b;
    }
  }

  /** The entry list is in that order. */
  lemma EntriesInOrder(d: Dataset, i: int, j: int)
    requires DatasetEntries(d).Some? && 0 <= i < j < |DatasetEntries(d).value|
    ensures !EntryBefore(DatasetEntries(d).value[j], DatasetEntries(d).value[i])
  {
    var all := AcceptedEntries(d.accepted) + RejectedEntries(d.rejectedInputs, d.rejectedRefs).value
               + RawEntries(d.rejectedInputs);
    EntriesSorted(all);
    KeyTells(DatasetEntries(d).value[j], DatasetEntries(d).value[i]);
  }

  // ---------------------------------------------------------------- captures

  /** The counters of the dataset fit its lists. */
  predicate CountersFit(d: Dataset) {
    && d.acceptedCount == |d.accepted| && d.rejectedCount == |d.rejectedInputs|
    && d.responseCount == |d.accepted| + |d.rejectedInputs|
  }

  /** What a capture answers: a dataset whose counters or lists do not fit is refused; a known identity is
      stored already when the digest is the same, and refused otherwise; any other is stored, with
      one row per entry in list order. */
  lemma CaptureTells(s: Store, d: Dataset)
    ensures var (next, answer) := CaptureDataset(s, d);
            if !CountersFit(d) || DatasetEntries(d).None? then next == s && answer == Refused
            else if d.key in s.datasets then
              next == s && answer == (if s.datasets[d.key].digest == d.digest then AlreadyStored else Refused)
            else answer == Stored && d.key in next.datasets && next.datasets[d.key] == d
  {
    if CountersValid(d) && DatasetEntries(d).Some? && d.key !in s.datasets {
      DatasetsKept(Apply(s, InsertDataset(d)), d.key, DatasetEntries(d).value);
    }
  }

  lemma {:induction false} DatasetsKept(s: Store, key: DatasetKey, entries: seq<Entry>)
    ensures InsertEntries(s, key, entries).datasets == s.datasets
  {
    if entries != [] { DatasetsKept(s, key, entries[..|entries| - 1]); }
  }

  // ---------------------------------------------------------------- reading

  /** The stored counts are those of the dataset's own summary. */
  predicate CountsFit(s: Store, key: DatasetKey)
    requires key in s.datasets
  {
    && key in s.counts && s.counts[key].entries == s.datasets[key].responseCount
    && s.counts[key].accepted == s.datasets[key].acceptedCount
    && s.counts[key].entries - s.counts[key].accepted == s.datasets[key].rejectedCount
  }

  /** Row `i` is there, and its kind column is that of its entry. */
  predicate RowFits(s: Store, key: DatasetKey, i: int) {
    Slot(key, i) in s.rows && s.rows[Slot(key, i)].kind == KindOf(s.rows[Slot(key, i)].entry)
  }

  function Least(a: int, b: int): int { if a <= b then a else b }

  /** The number of entries the page must have. */
  function PageLength(total: int, limit: nat, offset: nat): nat {
    if total <= offset then 0 else Least(limit, total - offset)
  }

  lemma {:induction false} AscendingExactly(s: set<int>)
    ensures var a := Ascending(s);
            && |a| == |s| && (forall i :: 0 <= i < |a| ==> a[i] in s) && (forall x :: x in s ==> x in a)
            && forall i, j :: 0 <= i < j < |a| ==> a[i] < a[j]
    decreases |s|
  {
    if s != {} {
      MinExists(s);
      var low :| IsMin(s, low);
      OnlyMin(s, low);
      AscendingExactly(s - {low});
      LowFirst(s, low, Ascending(s - {low}));
    }
  }

  lemma LowFirst(s: set<int>, low: int, rest: seq<int>)
    requires IsMin(s, low) && |rest| == |s - {low}| && forall i :: 0 <= i < |rest| ==> rest[i] in s - {low}
    requires (forall x :: x in s - {low} ==> x in rest) && forall i, j :: 0 <= i < j < |rest| ==> rest[i] < rest[j]
    ensures var a := [low] + rest;
            && |a| == |s| && (forall i :: 0 <= i < |a| ==> a[i] in s) && (forall x :: x in s ==> x in a)
            && forall i, j :: 0 <= i < j < |a| ==> a[i] < a[j]
  {
    var a := [low] + rest;
    forall x | x in s ensures x in a {
      if x == low {
        assert a[0] == x;
      } else {
        assert x in s - {low} && x in rest;
        var i :| 0 <= i < |rest| && rest[i] == x;
        assert a[i + 1] == x;
      }
    }
  }

  lemma PastTheEnd(a: seq<int>, offset: int, n: nat)
    requires n < |a| && forall i, j :: 0 <= i < j < |a| ==> a[i] < a[j]
    requires (forall i :: 0 <= i < |a| ==> a[i] >= offset) && forall i :: 0 <= i < n ==> a[i] == offset + i
    ensures a[n] >= offset + n && a[n] in a
  {
    if n > 0 { assert a[n - 1] < a[n]; }
  }

  /** A rising list of integers from `offset` on starts `offset, offset + 1, ...` as long as these are in it. */
  lemma {:induction false} RunsFrom(a: seq<int>, offset: int, n: nat)
    requires forall i, j :: 0 <= i < j < |a| ==> a[i] < a[j]
    requires forall i :: 0 <= i < |a| ==> a[i] >= offset
    requires forall x :: offset <= x < offset + n ==> x in a
    ensures |a| >= n && forall i :: 0 <= i < n ==> a[i] == offset + i
  {
    if n > 0 {
      RunsFrom(a, offset, n - 1);
      assert offset + n - 1 in a;
      var k :| 0 <= k < |a| && a[k] == offset + n - 1;
      PastTheEnd(a, offset, n - 1);
      assert a[n - 1] <= a[k];
    }
  }

  lemma FoundExactly(s: Store, key: DatasetKey, limit: nat, offset: nat, n: nat)
    requires n <= limit
    ensures var found := Bounded(Ascending(From(Indexes(s, key), offset)), limit);
            |found| == n && RowsInPlace(s, key, found, offset) <==>
              && (forall i :: offset <= i < offset + n ==> RowFits(s, key, i))
              && (n < limit ==> forall i :: i >= offset + n ==> Slot(key, i) !in s.rows)
  {
    var all := Ascending(From(Indexes(s, key), offset));
    var found := Bounded(all, limit);
    AscendingExactly(From(Indexes(s, key), offset));
    forall i ensures i in all <==> i >= offset && Slot(key, i) in s.rows {
      InIndexes(s.rows, key, i);
      if i in all { var k :| 0 <= k < |all| && all[k] == i; }
    }
    if |found| == n && RowsInPlace(s, key, found, offset) {
      forall i | offset <= i < offset + n ensures RowFits(s, key, i) { assert found[i - offset] == i; }
      if n < limit {
        forall i | i >= offset + n ensures Slot(key, i) !in s.rows {
          assert forall k :: 0 <= k < |all| ==> all[k] == found[k] == offset + k;
          assert i !in all;
        }
      }
    }
    if (forall i :: offset <= i < offset + n ==> RowFits(s, key, i))
       && (n < limit ==> forall i :: i >= offset + n ==> Slot(key, i) !in s.rows) {
      RowsFound(s, key, limit, offset, n, all);
    }
  }

  lemma RowsFound(s: Store, key: DatasetKey, limit: nat, offset: nat, n: nat, all: seq<int>)
    requires n <= limit && forall i, j :: 0 <= i < j < |all| ==> all[i] < all[j]
    requires forall i :: i in all <==> i >= offset && Slot(key, i) in s.rows
    requires forall i :: offset <= i < offset + n ==> RowFits(s, key, i)
    requires n < limit ==> forall i :: i >= offset + n ==> Slot(key, i) !in s.rows
    ensures |Bounded(all, limit)| == n && RowsInPlace(s, key, Bounded(all, limit), offset)
  {
    forall i | 0 <= i < |all| ensures all[i] >= offset { assert all[i] in all; }
    forall x | offset <= x < offset + n ensures x in all { assert RowFits(s, key, x); }
    RunsFrom(all, offset, n);
    if n < limit && |all| > n {
      PastTheEnd(all, offset, n);
    }
    var found := Bounded(all, limit);
    forall i | 0 <= i < |found| ensures found[i] == offset + i && RowFits(s, key, found[i]) {}
  }

  /** The entries of the rows from the offset on. */
  predicate ListsRows(s: Store, key: DatasetKey, offset: nat, entries: seq<Entry>) {
    forall i :: 0 <= i < |entries| ==> ListsRow(s, key, offset + i, entries[i])
  }

  predicate ListsRow(s: Store, key: DatasetKey, i: int, e: Entry) {
    Slot(key, i) in s.rows && e == s.rows[Slot(key, i)].entry
  }

  lemma EntriesRead(s: Store, key: DatasetKey, found: seq<int>, offset: nat)
    requires RowsInPlace(s, key, found, offset)
    ensures ListsRows(s, key, offset, EntriesAt(s, key, found)) && |EntriesAt(s, key, found)| == |found|
  {
    var entries := EntriesAt(s, key, found);
    forall i | 0 <= i < |entries| ensures ListsRow(s, key, offset + i, entries[i]) {
      assert found[i] == offset + i;
    }
  }

  /** What reading a page answers, for any stored rows: nothing for an unknown dataset; an integrity error
      unless the counts are those of the summary and the rows from the offset on are there, without a
      gap, as many as the page needs, and of the kind of their entries; then their entries. */
  lemma LoadTells(s: Store, key: DatasetKey, limit: nat, offset: nat)
    ensures var page := LoadEntries(s, key, limit, offset);
            if key !in s.datasets then page == NoDataset
            else
              var total := s.datasets[key].responseCount;
              var n := PageLength(total, limit, offset);
              if && CountsFit(s, key)
                 && (forall i :: offset <= i < offset + n ==> RowFits(s, key, i))
                 && (n < limit ==> forall i :: i >= offset + n ==> Slot(key, i) !in s.rows)
              then page.Page? && page.total == total && |page.entries| == n && ListsRows(s, key, offset, page.entries)
              else page == Inconsistent
  {
    if key in s.datasets {
      FoundExactly(s, key, limit, offset, PageLength(s.datasets[key].responseCount, limit, offset));
      var found := Bounded(Ascending(From(Indexes(s, key), offset)), limit);
      if RowsInPlace(s, key, found, offset) { EntriesRead(s, key, found, offset); }
    }
  }
}
