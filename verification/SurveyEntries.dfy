/** Survey response datasets (plugins/local_survey_response_store.py and the triggers of
    plugins/local_store_schemas.py): entry rows, counters kept by triggers, and paging. */
module SurveyEntries {
  import opened Common

  datatype DatasetKey = DatasetKey(project: string, id: string)

  datatype ResponseRef = ResponseRef(namespace: string, id: string, digest: string)

  datatype Rejected = Rejected(canonical: Option<ResponseRef>, rawDigest: string, raw: string, issues: string)

  datatype Dataset = Dataset(
    key: DatasetKey,
    accepted: seq<ResponseRef>,
    rejectedRefs: seq<ResponseRef>,
    rejectedInputs: seq<Rejected>,
    responseCount: int,
    acceptedCount: int,
    rejectedCount: int,
    digest: string)

  datatype Entry =
    | AcceptedResponse(response: ResponseRef)
    | RejectedResponse(response: ResponseRef, issues: string)
    | RejectedRaw(rawDigest: string, raw: string, issues: string)

  const ACCEPTED := "accepted_response"

  function KindOf(e: Entry): string {
    match e
    case AcceptedResponse(_) => ACCEPTED
    case RejectedResponse(_, _) => "rejected_response"
    case RejectedRaw(_, _, _) => "rejected_raw_input"
  }

  /** A stored row: its kind column and the entry of its payload. */
  datatype Row = Row(kind: string, entry: Entry)

  datatype Counts = Counts(entries: int, accepted: int)

  datatype Slot = Slot(key: DatasetKey, index: int)

  datatype Store = Store(rows: map<Slot, Row>, counts: map<DatasetKey, Counts>, datasets: map<DatasetKey, Dataset>)

  // ---------------------------------------------------------------- triggers

  function One(kind: string): int { if kind == ACCEPTED then 1 else 0 }

  /** AFTER INSERT on entries: a new counter row, or one more in the existing one. */
  function Counted(counts: map<DatasetKey, Counts>, key: DatasetKey, kind: string): map<DatasetKey, Counts> {
    if key in counts
    then counts[key := Counts(counts[key].entries + 1, counts[key].accepted + One(kind))]
    else counts[key := Counts(1, One(kind))]
  }

  datatype Change =
    | InsertDataset(dataset: Dataset)
    | InsertRow(slot: Slot, row: Row)
    | DeleteRow(slot: Slot)
    | ChangeKind(slot: Slot, kind: string)

  /** One statement with its trigger; a statement that breaks a primary key changes nothing. */
  function Apply(s: Store, c: Change): Store {
    match c
    case InsertDataset(d) =>
      if d.key in s.datasets then s
      else s.(datasets := s.datasets[d.key := d],
              counts := if d.key in s.counts then s.counts else s.counts[d.key := Counts(0, 0)])
    case InsertRow(slot, row) =>
      if slot in s.rows then s
      else s.(rows := s.rows[slot := row], counts := Counted(s.counts, slot.key, row.kind))
    case DeleteRow(slot) =>
      if slot !in s.rows then s
      else s.(rows := s.rows - {slot},
              counts := if slot.key !in s.counts then s.counts
                        else var now := s.counts[slot.key];
                             s.counts[slot.key := Counts(now.entries - 1, now.accepted - One(s.rows[slot].kind))])
    case ChangeKind(slot, kind) =>
      if slot !in s.rows then s
      else s.(rows := s.rows[slot := s.rows[slot].(kind := kind)],
              counts := if slot.key !in s.counts then s.counts
                        else var now := s.counts[slot.key];
                             s.counts[slot.key := now.(accepted := now.accepted - One(s.rows[slot].kind) + One(kind))])
  }

  function ApplyAll(changes: seq<Change>): Store {
    if changes == [] then Store(map[], map[], map[])
    else Apply(ApplyAll(changes[..|changes| - 1]), changes[|changes| - 1])
  }

  function IndexesIn(rows: map<Slot, Row>, key: DatasetKey): set<int> {
    set slot | slot in rows.Keys && slot.key == key :: slot.index
  }

  function AcceptedIndexesIn(rows: map<Slot, Row>, key: DatasetKey): set<int> {
    set slot | slot in rows.Keys && slot.key == key && rows[slot].kind == ACCEPTED :: slot.index
  }

  function Indexes(s: Store, key: DatasetKey): set<int> { IndexesIn(s.rows, key) }

  function AcceptedIndexes(s: Store, key: DatasetKey): set<int> { AcceptedIndexesIn(s.rows, key) }

  lemma InIndexes(rows: map<Slot, Row>, key: DatasetKey, i: int)
    ensures i in IndexesIn(rows, key) <==> Slot(key, i) in rows
    ensures i in AcceptedIndexesIn(rows, key) <==> Slot(key, i) in rows && rows[Slot(key, i)].kind == ACCEPTED
  {
    if Slot(key, i) in rows { assert Slot(key, i) in rows.Keys; }
  }

  lemma WrittenIndexes(rows: map<Slot, Row>, slot: Slot, row: Row)
    ensures IndexesIn(rows[slot := row], slot.key) == IndexesIn(rows, slot.key) + {slot.index}
    ensures AcceptedIndexesIn(rows[slot := row], slot.key)
         == AcceptedIndexesIn(rows, slot.key) - {slot.index} + if row.kind == ACCEPTED then {slot.index} else {}
  {
    forall i ensures i in IndexesIn(rows[slot := row], slot.key) <==> i in IndexesIn(rows, slot.key) + {slot.index}
             ensures i in AcceptedIndexesIn(rows[slot := row], slot.key) <==>
                       i in AcceptedIndexesIn(rows, slot.key) - {slot.index} + if row.kind == ACCEPTED
                           then {slot.index} else {}
    {
      InIndexes(rows[slot := row], slot.key, i);
      InIndexes(rows, slot.key, i);
    }
  }

  lemma RemovedIndexes(rows: map<Slot, Row>, slot: Slot)
    ensures IndexesIn(rows - {slot}, slot.key) == IndexesIn(rows, slot.key) - {slot.index}
    ensures AcceptedIndexesIn(rows - {slot}, slot.key) == AcceptedIndexesIn(rows, slot.key) - {slot.index}
  {
    forall i ensures i in IndexesIn(rows - {slot}, slot.key) <==> i in IndexesIn(rows, slot.key) - {slot.index}
             ensures i in AcceptedIndexesIn(rows - {slot}, slot.key) <==>
                       i in AcceptedIndexesIn(rows, slot.key) - {slot.index}
    {
      InIndexes(rows - {slot}, slot.key, i);
      InIndexes(rows, slot.key, i);
    }
  }

  /** The counters are the real numbers of rows, and every dataset with rows has one. */
  ghost predicate CountsExact(s: Store) {
    forall key :: (Indexes(s, key) != {} ==> key in s.counts)
                  && (key in s.counts ==> s.counts[key] == Counts(|Indexes(s, key)|, |AcceptedIndexes(s, key)|))
  }

  lemma OtherDataset(s: Store, c: Change, key: DatasetKey)
    requires c.InsertDataset? || c.slot.key != key
    ensures Indexes(Apply(s, c), key) == Indexes(s, key) && AcceptedIndexes(Apply(s, c), key) == AcceptedIndexes(s, key)
  {
    var next := Apply(s, c);
    forall slot: Slot | slot.key == key
      ensures slot in next.rows.Keys <==> slot in s.rows.Keys
      ensures slot in s.rows.Keys ==> next.rows[slot] == s.rows[slot]
    {}
  }

  lemma InsertCounts(s: Store, slot: Slot, row: Row)
    requires slot !in s.rows
    ensures var next := Apply(s, InsertRow(slot, row));
            |Indexes(next, slot.key)| == |Indexes(s, slot.key)| + 1
            && |AcceptedIndexes(next, slot.key)| == |AcceptedIndexes(s, slot.key)| + One(row.kind)
  {
    WrittenIndexes(s.rows, slot, row);
    InIndexes(s.rows, slot.key, slot.index);
  }

  lemma DeleteCounts(s: Store, slot: Slot)
    requires slot in s.rows
    ensures var next := Apply(s, DeleteRow(slot));
            |Indexes(next, slot.key)| == |Indexes(s, slot.key)| - 1
            && |AcceptedIndexes(next, slot.key)| == |AcceptedIndexes(s, slot.key)| - One(s.rows[slot].kind)
  {
    RemovedIndexes(s.rows, slot);
    InIndexes(s.rows, slot.key, slot.index);
  }

  lemma ChangeCounts(s: Store, slot: Slot, kind: string)
    requires slot in s.rows
    ensures var next := Apply(s, ChangeKind(slot, kind));
            Indexes(next, slot.key) == Indexes(s, slot.key)
            && |AcceptedIndexes(next, slot.key)| == |AcceptedIndexes(s, slot.key)| - One(s.rows[slot].kind) + One(kind)
  {
    WrittenIndexes(s.rows, slot, s.rows[slot].(kind := kind));
    InIndexes(s.rows, slot.key, slot.index);
    MemberMoved(AcceptedIndexes(s, slot.key), slot.index, kind == ACCEPTED);
    AlreadyThere(Indexes(s, slot.key), slot.index);
  }

  lemma AlreadyThere(s: set<int>, i: int)
    requires i in s
    ensures s + {i} == s
  {
  }

  lemma MemberMoved(was: set<int>, i: int, present: bool)
    ensures |was - {i} + (if present then {i} else {})|
         == |was| - (if i in was then 1 else 0) + (if present then 1 else 0)
  {
    if i in was { assert was == (was - {i}) + {i}; } else { assert was - {i} == was; }
  }

  lemma ApplyExact(s: Store, c: Change)
    requires CountsExact(s)
    ensures CountsExact(Apply(s, c))
  {
    var next := Apply(s, c);
    forall key ensures (Indexes(next, key) != {} ==> key in next.counts)
                       && (key in next.counts ==>
                            next.counts[key] == Counts(|Indexes(next, key)|, |AcceptedIndexes(next, key)|))
    {
      if c.InsertDataset? || c.slot.key != key {
        OtherDataset(s, c, key);
        if key !in s.counts { NoRowsNoAccepted(s, key); }
      } else {
        OwnDataset(s, c, key);
      }
    }
  }

  lemma NoRowsNoAccepted(s: Store, key: DatasetKey)
    requires Indexes(s, key) == {}
    ensures AcceptedIndexes(s, key) == {}
  {
    forall i | i in AcceptedIndexes(s, key) ensures i in Indexes(s, key) {}
  }

  lemma OwnDataset(s: Store, c: Change, key: DatasetKey)
    requires CountsExact(s) && !c.InsertDataset? && c.slot.key == key
    ensures var next := Apply(s, c);
            (Indexes(next, key) != {} ==> key in next.counts)
            && (key in next.counts ==> next.counts[key] == Counts(|Indexes(next, key)|, |AcceptedIndexes(next, key)|))
  {
    if key !in s.counts { NoRowsNoAccepted(s, key); }
    match c
    case InsertRow(slot, row) => if slot !in s.rows { InsertCounts(s, slot, row); }
    case DeleteRow(slot) =>
      if slot in s.rows {
        DeleteCounts(s, slot);
        assert slot.index in Indexes(s, key);
      }
    case ChangeKind(slot, kind) =>
      if slot in s.rows {
        ChangeCounts(s, slot, kind);
        assert slot.index in Indexes(s, key);
      }
  }

  /** After any sequence of dataset and entry inserts, entry deletes and kind changes, the
      counters the triggers keep are the real counts. */
  lemma {:induction false} TriggersKeepCounts(changes: seq<Change>)
    ensures CountsExact(ApplyAll(changes))
  {
    if changes != [] {
      TriggersKeepCounts(changes[..|changes| - 1]);
      ApplyExact(ApplyAll(changes[..|changes| - 1]), changes[|changes| - 1]);
    }
  }

  // ---------------------------------------------------------------- the entries of a dataset

  function AcceptedEntries(refs: seq<ResponseRef>): seq<Entry> {
    seq(|refs|, i requires 0 <= i < |refs| => AcceptedResponse(refs[i]))
  }

  predicate SameResponse(a: ResponseRef, b: ResponseRef) { a.namespace == b.namespace && a.id == b.id }

  /** The rejected input recorded last for a response. */
  function RejectionOf(inputs: seq<Rejected>, r: ResponseRef): Option<Rejected> {
    if inputs == [] then None
    else
      var last := inputs[|inputs| - 1];
      if last.canonical.Some? && SameResponse(last.canonical.value, r) then Some(last)
      else RejectionOf(inputs[..|inputs| - 1], r)
  }

  function RejectedEntries(inputs: seq<Rejected>, refs: seq<ResponseRef>): Option<seq<Entry>> {
    if refs == [] then Some([])
    else
      var front := RejectedEntries(inputs, refs[..|refs| - 1]);
      var last := refs[|refs| - 1];
      var found := RejectionOf(inputs, last);
      if front.None? || found.None? then None else Some(front.value + [RejectedResponse(last, found.value.issues)])
  }

  function RawEntries(inputs: seq<Rejected>): seq<Entry> {
    if inputs == [] then []
    else
      var last := inputs[|inputs| - 1];
      RawEntries(inputs[..|inputs| - 1])
      + (if last.canonical.Some? then [] else [RejectedRaw(last.rawDigest, last.raw, last.issues)])
  }

  /** The sort key. Kinds are ranked in the order of their names; what remains of the content
      stands for the canonical digest at the end of the key. */
  datatype SortKey = SortKey(rank: int, namespace: string, id: string, digest: string, rawDigest: string,
      rest: seq<string>)

  function Rank(e: Entry): int {
    match e
    case AcceptedResponse(_) => 0
    case RejectedRaw(_, _, _) => 1
    case RejectedResponse(_, _) => 2
  }

  function KeyOf(e: Entry): SortKey {
    match e
    case AcceptedResponse(r) => SortKey(Rank(e), r.namespace, r.id, r.digest, "", [])
    case RejectedResponse(r, issues) => SortKey(Rank(e), r.namespace, r.id, r.digest, "", [issues])
    case RejectedRaw(d, raw, issues) => SortKey(Rank(e), "", "", "", d, [raw, issues])
  }

  predicate RestLess(a: seq<string>, b: seq<string>) {
    if b == [] then false
    else if a == [] then true
    else Less(a[0], b[0]) || (a[0] == b[0] && RestLess(a[1..], b[1..]))
  }

  predicate RawLess(a: SortKey, b: SortKey) {
    Less(a.rawDigest, b.rawDigest) || (a.rawDigest == b.rawDigest && RestLess(a.rest, b.rest))
  }

  predicate RefLess(a: SortKey, b: SortKey) {
    Less(a.id, b.id) || (a.id == b.id && (Less(a.digest, b.digest) || (a.digest == b.digest && RawLess(a, b))))
  }

  predicate KeyLess(a: SortKey, b: SortKey) {
    a.rank < b.rank
    || (a.rank == b.rank && (Less(a.namespace, b.namespace) || (a.namespace == b.namespace && RefLess(a, b))))
  }

  function InsertEntry(e: Entry, sorted: seq<Entry>): (s: seq<Entry>)
    ensures multiset(s) == multiset(sorted) + multiset{e}
  {
    if sorted != [] && KeyLess(KeyOf(sorted[0]), KeyOf(e)) then
      assert sorted == [sorted[0]] + sorted[1..];
      [sorted[0]] + InsertEntry(e, sorted[1..])
    else [e] + sorted
  }

  /** `entries.sort`: the entries, each as often as before. */
  function SortEntries(entries: seq<Entry>): (s: seq<Entry>)
    ensures multiset(s) == multiset(entries)
  {
    if entries == [] then []
    else
      assert entries == [entries[0]] + entries[1..];
      InsertEntry(entries[0], SortEntries(entries[1..]))
  }

  /** `_dataset_entries`; None stands for ValueError.  */
  function DatasetEntries(d: Dataset): Option<seq<Entry>> {
    match RejectedEntries(d.rejectedInputs, d.rejectedRefs)
    case None => None
    case Some(rejected) =>
      var all := AcceptedEntries(d.accepted) + rejected + RawEntries(d.rejectedInputs);
      if |all| != d.responseCount then None else Some(SortEntries(all))
  }

  /** The counter checks of `validate_dataset`. */
  predicate CountersValid(d: Dataset) {
    && d.responseCount == d.acceptedCount + d.rejectedCount
    && d.acceptedCount == |d.accepted| && d.rejectedCount == |d.rejectedInputs|
  }

  function AcceptedIn(entries: seq<Entry>): nat {
    if entries == [] then 0
    else AcceptedIn(entries[..|entries| - 1]) + if entries[|entries| - 1].AcceptedResponse? then 1 else 0
  }

  lemma {:induction false} AcceptedInAppend(a: seq<Entry>, b: seq<Entry>)
    ensures AcceptedIn(a + b) == AcceptedIn(a) + AcceptedIn(b)
  {
    if b == [] {
      assert a + b == a;
    } else {
      AcceptedInAppend(a, b[..|b| - 1]);
      assert (a + b)[..|a + b| - 1] == a + b[..|b| - 1];
    }
  }

  lemma {:induction false} AcceptedOfMultiset(a: seq<Entry>, b: seq<Entry>)
    requires multiset(a) == multiset(b)
    ensures |a| == |b| && AcceptedIn(a) == AcceptedIn(b)
    decreases |a|
  {
    assert |multiset(a)| == |a| && |multiset(b)| == |b|;
    if a != [] {
      var x, front := a[|a| - 1], a[..|a| - 1];
      assert x in multiset(b);
      var k :| 0 <= k < |b| && b[k] == x;
      var rest := b[..k] + b[k + 1..];
      SplitEntries(b, k);
      assert a == front + [x];
      SameWithout(multiset(front), multiset(rest), x);
      AcceptedOfMultiset(front, rest);
      AcceptedInAppend(front, [x]);
      AcceptedAround(b[..k], x, b[k + 1..]);
    }
  }

  lemma SplitEntries(b: seq<Entry>, k: nat)
    requires k < |b|
    ensures b == b[..k] + ([b[k]] + b[k + 1..])
    ensures multiset(b) == multiset(b[..k] + b[k + 1..]) + multiset{b[k]}
  {
    assert b == b[..k] + ([b[k]] + b[k + 1..]);
  }

  lemma SameWithout(a: multiset<Entry>, b: multiset<Entry>, x: Entry)
    requires a + multiset{x} == b + multiset{x}
    ensures a == b
  {
    forall e: Entry ensures a[e] == b[e] {
      assert (a + multiset{x})[e] == a[e] + multiset{x}[e] && (b + multiset{x})[e] == b[e] + multiset{x}[e];
    }
  }

  lemma AcceptedAround(a: seq<Entry>, x: Entry, b: seq<Entry>)
    ensures AcceptedIn(a + ([x] + b)) == AcceptedIn(a + b) + AcceptedIn([x])
  {
    AcceptedInAppend(a, [x] + b);
    AcceptedInAppend([x], b);
    AcceptedInAppend(a, b);
  }

  lemma {:induction false} RestLessTotal(a: seq<string>, b: seq<string>)
    ensures RestLess(a, b) || RestLess(b, a) || a == b
    ensures !(RestLess(a, b) && RestLess(b, a))
  {
    if a != [] && b != [] {
      LessTotal(a[0], b[0]);
      LessAsymmetric(a[0], b[0]);
      RestLessTotal(a[1..], b[1..]);
      if a[0] == b[0] && a[1..] == b[1..] { assert a == [a[0]] + a[1..] && b == [b[0]] + b[1..]; }
    }
  }

  lemma {:induction false} RestLessTransitive(a: seq<string>, b: seq<string>, c: seq<string>)
    requires RestLess(a, b) && RestLess(b, c)
    ensures RestLess(a, c)
  {
    if a != [] {
      LessAsymmetric(a[0], a[0]);
      if Less(a[0], b[0]) && Less(b[0], c[0]) { LessTransitive(a[0], b[0], c[0]); }
      if a[0] == b[0] == c[0] { RestLessTransitive(a[1..], b[1..], c[1..]); }
    }
  }

  lemma Orders(a: string, b: string, c: string)
    ensures Less(a, b) || Less(b, a) || a == b
    ensures !(Less(a, b) && Less(b, a))
    ensures Less(a, b) && Less(b, c) ==> Less(a, c)
  {
    LessTotal(a, b);
    LessAsymmetric(a, b);
    if Less(a, b) && Less(b, c) { LessTransitive(a, b, c); }
  }

  lemma RawOrders(a: SortKey, b: SortKey, c: SortKey)
    ensures RawLess(a, b) || RawLess(b, a) || (a.rawDigest == b.rawDigest && a.rest == b.rest)
    ensures !(RawLess(a, b) && RawLess(b, a))
    ensures RawLess(a, b) && RawLess(b, c) ==> RawLess(a, c)
  {
    Orders(a.rawDigest, b.rawDigest, c.rawDigest);
    RestLessTotal(a.rest, b.rest);
    if RestLess(a.rest, b.rest) && RestLess(b.rest, c.rest) { RestLessTransitive(a.rest, b.rest, c.rest); }
  }

  lemma RefOrders(a: SortKey, b: SortKey, c: SortKey)
    ensures RefLess(a, b) || RefLess(b, a)
            || (a.id == b.id && a.digest == b.digest && a.rawDigest == b.rawDigest && a.rest == b.rest)
    ensures !(RefLess(a, b) && RefLess(b, a))
    ensures RefLess(a, b) && RefLess(b, c) ==> RefLess(a, c)
  {
    Orders(a.id, b.id, c.id);
    Orders(a.digest, b.digest, c.digest);
    RawOrders(a, b, c);
  }

  lemma KeyOrders(a: SortKey, b: SortKey, c: SortKey)
    ensures KeyLess(a, b) || KeyLess(b, a) || a == b
    ensures !(KeyLess(a, b) && KeyLess(b, a))
    ensures KeyLess(a, b) && KeyLess(b, c) ==> KeyLess(a, c)
  {
    Orders(a.namespace, b.namespace, c.namespace);
    RefOrders(a, b, c);
  }

  ghost predicate KeySorted(s: seq<Entry>) {
    forall i, j :: 0 <= i < j < |s| ==> !KeyLess(KeyOf(s[j]), KeyOf(s[i]))
  }

  lemma NotBefore(s: seq<Entry>, e: Entry, j: nat)
    requires j < |s| && KeySorted(s) && !KeyLess(KeyOf(s[0]), KeyOf(e))
    ensures !KeyLess(KeyOf(s[j]), KeyOf(e))
  {
    KeyOrders(KeyOf(s[j]), KeyOf(e), KeyOf(s[0]));
    KeyOrders(KeyOf(e), KeyOf(s[0]), KeyOf(e));
  }

  lemma InsertedEntry(e: Entry, s: seq<Entry>, x: Entry)
    requires x in InsertEntry(e, s)
    ensures x == e || x in s
  {
    assert x in multiset(InsertEntry(e, s));
  }

  lemma NotAfter(s: seq<Entry>, e: Entry, x: Entry)
    requires s != [] && KeySorted(s) && KeyLess(KeyOf(s[0]), KeyOf(e)) && (x == e || x in s[1..])
    ensures !KeyLess(KeyOf(x), KeyOf(s[0]))
  {
    KeyOrders(KeyOf(s[0]), KeyOf(e), KeyOf(s[0]));
  }

  lemma {:induction false} InsertSorts(e: Entry, s: seq<Entry>)
    requires KeySorted(s)
    ensures KeySorted(InsertEntry(e, s))
  {
    if s != [] && KeyLess(KeyOf(s[0]), KeyOf(e)) {
      InsertSorts(e, s[1..]);
      var rest := InsertEntry(e, s[1..]);
      forall j | 0 <= j < |rest| ensures !KeyLess(KeyOf(rest[j]), KeyOf(s[0])) {
        InsertedEntry(e, s[1..], rest[j]);
        NotAfter(s, e, rest[j]);
      }
      SortedFront(s[0], rest);
    } else if s != [] {
      forall j | 0 <= j < |s| ensures !KeyLess(KeyOf(s[j]), KeyOf(e)) { NotBefore(s, e, j); }
      SortedFront(e, s);
    }
  }

  lemma SortedFront(e: Entry, s: seq<Entry>)
    requires KeySorted(s)
    requires forall j :: 0 <= j < |s| ==> !KeyLess(KeyOf(s[j]), KeyOf(e))
    ensures KeySorted([e] + s)
  {
  }

  /** The entry list is in key order, whatever order the dataset lists its references in. */
  lemma {:induction false} EntriesSorted(entries: seq<Entry>)
    ensures KeySorted(SortEntries(entries))
  {
    if entries != [] {
      EntriesSorted(entries[1..]);
      InsertSorts(entries[0], SortEntries(entries[1..]));
    }
  }

  lemma {:induction false} AllAccepted(entries: seq<Entry>)
    requires forall e :: e in entries ==> e.AcceptedResponse?
    ensures AcceptedIn(entries) == |entries|
  {
    if entries != [] { AllAccepted(entries[..|entries| - 1]); }
  }

  lemma {:induction false} NoneAccepted(entries: seq<Entry>)
    requires forall e :: e in entries ==> !e.AcceptedResponse?
    ensures AcceptedIn(entries) == 0
  {
    if entries != [] { NoneAccepted(entries[..|entries| - 1]); }
  }

  lemma {:induction false} RejectedNotAccepted(inputs: seq<Rejected>, refs: seq<ResponseRef>)
    ensures RejectedEntries(inputs, refs).Some? ==> forall e :: e in RejectedEntries(inputs, refs).value ==>
              !e.AcceptedResponse?
  {
    if refs != [] { RejectedNotAccepted(inputs, refs[..|refs| - 1]); }
  }

  lemma {:induction false} RawNotAccepted(inputs: seq<Rejected>)
    ensures forall e :: e in RawEntries(inputs) ==> !e.AcceptedResponse?
  {
    if inputs != [] { RawNotAccepted(inputs[..|inputs| - 1]); }
  }

  /** The projection has as many entries, and as many accepted ones, as the summary says. */
  lemma EntriesMatchSummary(d: Dataset)
    requires CountersValid(d) && DatasetEntries(d).Some?
    ensures var entries := DatasetEntries(d).value;
            |entries| == d.responseCount && AcceptedIn(entries) == d.acceptedCount
  {
    var rejected, raw := RejectedEntries(d.rejectedInputs, d.rejectedRefs).value, RawEntries(d.rejectedInputs);
    var accepted := AcceptedEntries(d.accepted);
    var all := accepted + rejected + raw;
    AcceptedOfMultiset(SortEntries(all), all);
    AcceptedInAppend(accepted + rejected, raw);
    AcceptedInAppend(accepted, rejected);
    AllAccepted(accepted);
    RejectedNotAccepted(d.rejectedInputs, d.rejectedRefs);
    NoneAccepted(rejected);
    RawNotAccepted(d.rejectedInputs);
    NoneAccepted(raw);
  }

  // ---------------------------------------------------------------- capture and paging

  function RowOf(e: Entry): Row { Row(KindOf(e), e) }

  function InsertEntries(s: Store, key: DatasetKey, entries: seq<Entry>): Store {
    if entries == [] then s
    else
      var last := |entries| - 1;
      Apply(InsertEntries(s, key, entries[..last]), InsertRow(Slot(key, last), RowOf(entries[last])))
  }

  datatype Captured = Stored | AlreadyStored | Refused

  /** `capture_dataset`, one transaction, for a dataset whose content checks have passed. */
  function CaptureDataset(s: Store, d: Dataset): (Store, Captured) {
    if !CountersValid(d) || DatasetEntries(d).None? then (s, Refused)
    else if d.key in s.datasets then (s, if s.datasets[d.key].digest == d.digest then AlreadyStored else Refused)
    else (InsertEntries(Apply(s, InsertDataset(d)), d.key, DatasetEntries(d).value), Stored)
  }

  /** The least element first: ORDER BY entry_index. */
  function Ascending(s: set<int>): (sorted: seq<int>)
    decreases |s|
  {
    if s == {} then []
    else
      MinExists(s);
      var m :| IsMin(s, m);
      [m] + Ascending(s - {m})
  }

  predicate IsMin(s: set<int>, m: int) { m in s && forall x :: x in s ==> m <= x }

  lemma MinExists(s: set<int>)
    requires s != {}
    ensures exists m :: IsMin(s, m)
  {
    var negated := set x | x in s :: -x;
    var some := Pick(s);
    assert -some in negated;
    var top := MaxOf(negated);
    assert IsMin(s, -top) by {
      forall x | x in s ensures -top <= x { assert -x in negated; }
    }
  }

  datatype Page = Page(entries: seq<Entry>, total: int) | NoDataset | Inconsistent

  function EntriesAt(s: Store, key: DatasetKey, indexes: seq<int>): seq<Entry>
    requires forall i :: 0 <= i < |indexes| ==> Slot(key, indexes[i]) in s.rows
  {
    seq(|indexes|, i requires 0 <= i < |indexes| => s.rows[Slot(key, indexes[i])].entry)
  }

  predicate RowsInPlace(s: Store, key: DatasetKey, indexes: seq<int>, offset: int) {
    forall i :: 0 <= i < |indexes| ==>
      indexes[i] == offset + i && Slot(key, indexes[i]) in s.rows
      && s.rows[Slot(key, indexes[i])].kind == KindOf(s.rows[Slot(key, indexes[i])].entry)
  }

  function Bounded(indexes: seq<int>, limit: nat): seq<int> {
    if |indexes| <= limit then indexes else indexes[..limit]
  }

  function From(s: set<int>, offset: int): set<int> { set i | i in s && i >= offset }

  /** `load_dataset_entries`. */
  function LoadEntries(s: Store, key: DatasetKey, limit: nat, offset: nat): Page {
    if key !in s.datasets then NoDataset
    else
      var summary := s.datasets[key];
      var total := summary.responseCount;
      if key !in s.counts || s.counts[key].entries != total || s.counts[key].accepted != summary.acceptedCount
         || s.counts[key].entries - s.counts[key].accepted != summary.rejectedCount then Inconsistent
      else
        var left := if total - offset > 0 then total - offset else 0;
        var expected := if limit <= left then limit else left;
        var found := Bounded(Ascending(From(Indexes(s, key), offset)), limit);
        if |found| != expected || !RowsInPlace(s, key, found, offset) then Inconsistent
        else Page(EntriesAt(s, key, found), total)
  }

  /** A dataset as its capture left it. */
  ghost predicate Intact(s: Store, d: Dataset, entries: seq<Entry>) {
    && d.key in s.datasets && s.datasets[d.key] == d
    && CountersValid(d) && |entries| == d.responseCount && AcceptedIn(entries) == d.acceptedCount
    && (forall i :: Slot(d.key, i) in s.rows <==> 0 <= i < |entries|)
    && (forall i :: 0 <= i < |entries| ==> s.rows[Slot(d.key, i)] == RowOf(entries[i]))
    && d.key in s.counts && s.counts[d.key] == Counts(|entries|, AcceptedIn(entries))
  }

  lemma {:induction false} InsertedRows(s: Store, key: DatasetKey, entries: seq<Entry>)
    requires key in s.counts && s.counts[key] == Counts(0, 0) && forall i :: Slot(key, i) !in s.rows
    ensures var next := InsertEntries(s, key, entries);
            && next.datasets == s.datasets
            && (forall i :: Slot(key, i) in next.rows <==> 0 <= i < |entries|)
            && (forall i :: 0 <= i < |entries| ==> next.rows[Slot(key, i)] == RowOf(entries[i]))
            && key in next.counts && next.counts[key] == Counts(|entries|, AcceptedIn(entries))
            && (forall slot: Slot :: slot.key != key ==> (slot in next.rows <==> slot in s.rows))
            && (forall slot: Slot :: slot.key != key && slot in s.rows ==> next.rows[slot] == s.rows[slot])
            && (forall k :: k != key ==> (k in next.counts <==> k in s.counts))
            && (forall k :: k != key && k in s.counts ==> next.counts[k] == s.counts[k])
  {
    if entries != [] {
      InsertedRows(s, key, entries[..|entries| - 1]);
    }
  }

  /** A store reached through captures: only captured datasets have rows, and each is intact. */
  ghost predicate AllIntact(s: Store) {
    && (forall slot :: slot in s.rows ==> slot.key in s.datasets)
    && (forall key :: key in s.counts <==> key in s.datasets)
    && forall key :: key in s.datasets ==>
         s.datasets[key].key == key && DatasetEntries(s.datasets[key]).Some?
         && Intact(s, s.datasets[key], DatasetEntries(s.datasets[key]).value)
  }

  /** What inserting the entries of one dataset leaves as it was. */
  ghost predicate OnlyTouches(a: Store, b: Store, key: DatasetKey) {
    && b.datasets.Keys == a.datasets.Keys + {key}
    && (forall k :: k != key && k in a.datasets ==> b.datasets[k] == a.datasets[k])
    && (forall slot: Slot :: slot.key != key ==> (slot in b.rows <==> slot in a.rows))
    && (forall slot: Slot :: slot.key != key && slot in a.rows ==> b.rows[slot] == a.rows[slot])
    && (forall k :: k != key ==> (k in b.counts <==> k in a.counts))
    && (forall k :: k != key && k in a.counts ==> b.counts[k] == a.counts[k])
  }

  lemma NoRowsYet(s: Store, d: Dataset)
    requires forall slot :: slot in s.rows ==> slot.key != d.key
    ensures forall i :: Slot(d.key, i) !in Apply(s, InsertDataset(d)).rows
  {
    forall i ensures Slot(d.key, i) !in s.rows { assert Slot(d.key, i).key == d.key; }
  }

  lemma InsertedIntact(s: Store, d: Dataset, entries: seq<Entry>)
    requires d.key !in s.datasets && d.key !in s.counts && forall slot :: slot in s.rows ==> slot.key != d.key
    requires CountersValid(d) && |entries| == d.responseCount && AcceptedIn(entries) == d.acceptedCount
    ensures var next := InsertEntries(Apply(s, InsertDataset(d)), d.key, entries);
            OnlyTouches(s, next, d.key) && Intact(next, d, entries)
  {
    NoRowsYet(s, d);
    InsertedRows(Apply(s, InsertDataset(d)), d.key, entries);
  }

  lemma CapturedIntact(s: Store, d: Dataset)
    requires AllIntact(s) && CaptureDataset(s, d).1.Stored?
    ensures var next := CaptureDataset(s, d).0;
            OnlyTouches(s, next, d.key) && Intact(next, d, DatasetEntries(d).value)
  {
    EntriesMatchSummary(d);
    InsertedIntact(s, d, DatasetEntries(d).value);
  }

  lemma OthersIntact(s: Store, next: Store, d: Dataset)
    requires AllIntact(s) && d.key !in s.datasets && OnlyTouches(s, next, d.key)
    requires DatasetEntries(d).Some? && Intact(next, d, DatasetEntries(d).value)
    ensures AllIntact(next)
  {
    forall key | key in next.datasets
      ensures next.datasets[key].key == key && DatasetEntries(next.datasets[key]).Some?
      ensures Intact(next, next.datasets[key], DatasetEntries(next.datasets[key]).value)
    {
      if key != d.key { IntactKept(s, next, s.datasets[key], DatasetEntries(s.datasets[key]).value, d.key); }
    }
  }

  lemma CaptureIntact(s: Store, d: Dataset)
    requires AllIntact(s)
    ensures AllIntact(CaptureDataset(s, d).0)
  {
    var (next, captured) := CaptureDataset(s, d);
    if captured.Stored? {
      CapturedIntact(s, d);
      OthersIntact(s, next, d);
    }
  }

  lemma IntactKept(a: Store, b: Store, d: Dataset, entries: seq<Entry>, other: DatasetKey)
    requires Intact(a, d, entries) && d.key != other && d.key in b.datasets && b.datasets[d.key] == d
    requires forall slot: Slot :: slot.key != other ==> (slot in b.rows <==> slot in a.rows)
    requires forall slot: Slot :: slot.key != other && slot in a.rows ==> b.rows[slot] == a.rows[slot]
    requires forall k :: k != other && k in a.counts ==> k in b.counts && b.counts[k] == a.counts[k]
    ensures Intact(b, d, entries)
  {
  }

  function CaptureAll(datasets: seq<Dataset>): Store {
    if datasets == [] then Store(map[], map[], map[])
    else CaptureDataset(CaptureAll(datasets[..|datasets| - 1]), datasets[|datasets| - 1]).0
  }

  lemma {:induction false} CapturesIntact(datasets: seq<Dataset>)
    ensures AllIntact(CaptureAll(datasets))
  {
    if datasets != [] {
      CapturesIntact(datasets[..|datasets| - 1]);
      CaptureIntact(CaptureAll(datasets[..|datasets| - 1]), datasets[|datasets| - 1]);
    }
  }

  lemma OnlyMin(s: set<int>, low: int)
    requires low in s && forall x :: x in s ==> low <= x
    ensures IsMin(s, low) && forall m :: IsMin(s, m) ==> m == low
  {
  }

  lemma NoMembers(s: set<int>)
    requires forall i :: i !in s
    ensures s == {}
  {
    if s != {} { var x := Pick(s); }
  }

  lemma {:induction false} AscendingRange(all: set<int>, low: int, high: int)
    requires low <= high && forall i :: i in all <==> low <= i < high
    ensures Ascending(all) == seq(high - low, i => low + i)
    decreases high - low
  {
    if low == high {
      NoMembers(all);
    } else {
      OnlyMin(all, low);
      AscendingRange(all - {low}, low + 1, high);
    }
  }

  function Clamp(i: int, n: nat): nat { if i <= 0 then 0 else if i <= n then i else n }

  /** The rows a page reads, when exactly 0..n-1 are stored. */
  lemma FoundIndexes(all: set<int>, n: nat, limit: nat, offset: nat)
    requires forall i :: i in all <==> 0 <= i < n
    ensures var low, high := Clamp(offset, n), Clamp(Clamp(offset, n) + limit, n);
            Bounded(Ascending(From(all, offset)), limit) == seq(high - low, i => low + i)
  {
    if offset <= n {
      AscendingRange(From(all, offset), offset, n);
    } else {
      assert From(all, offset) == {};
    }
  }

  lemma IntactIndexes(s: Store, d: Dataset, entries: seq<Entry>)
    requires Intact(s, d, entries)
    ensures forall i :: i in Indexes(s, d.key) <==> 0 <= i < |entries|
  {
    forall i ensures i in Indexes(s, d.key) <==> 0 <= i < |entries| { InIndexes(s.rows, d.key, i); }
  }

  /** On an intact dataset a page of any limit and offset is the slice of the entry list. */
  lemma PageIsSlice(s: Store, d: Dataset, entries: seq<Entry>, limit: nat, offset: nat)
    requires Intact(s, d, entries)
    ensures var low := Clamp(offset, |entries|);
            var high := Clamp(low + limit, |entries|);
            LoadEntries(s, d.key, limit, offset) == Page(entries[low..high], |entries|)
  {
    var low := Clamp(offset, |entries|);
    var high := Clamp(low + limit, |entries|);
    IntactIndexes(s, d, entries);
    FoundIndexes(Indexes(s, d.key), |entries|, limit, offset);
    var found := Bounded(Ascending(From(Indexes(s, d.key), offset)), limit);
    FoundEntries(s, d, entries, found, low, high, offset);
  }

  lemma FoundEntries(s: Store, d: Dataset, entries: seq<Entry>, found: seq<int>, low: nat, high: nat, offset: nat)
    requires Intact(s, d, entries) && low <= high <= |entries| && (low < high ==> low == offset)
    requires found == seq(high - low, i => low + i)
    ensures RowsInPlace(s, d.key, found, offset) && EntriesAt(s, d.key, found) == entries[low..high]
  {
    forall i | 0 <= i < |found|
      ensures Slot(d.key, found[i]) in s.rows && s.rows[Slot(d.key, found[i])] == RowOf(entries[low + i])
    {
      assert found[i] == low + i;
    }
  }

  /** Reads page after page, each at the next offset, until the total is reached. */
  function AllPages(read: nat -> Page, limit: nat, offset: nat, total: nat): Option<seq<Entry>>
    requires limit > 0
    decreases if total > offset then total - offset else 0
  {
    if offset >= total then Some([])
    else
      match read(offset)
      case Page(entries, _) =>
        (match AllPages(read, limit, offset + limit, total)
         case None => None
         case Some(rest) => Some(entries + rest))
      case _ => None
  }

  /** The page at offset `k` is the slice of the list that starts there. */
  ghost predicate ReadsAt(read: nat -> Page, entries: seq<Entry>, limit: nat, k: nat)
    requires k < |entries|
  {
    read(k) == Page(entries[k..Clamp(k + limit, |entries|)], |entries|)
  }

  lemma {:induction false} PagesFrom(read: nat -> Page, entries: seq<Entry>, limit: nat, offset: nat)
    requires limit > 0
    requires forall k: nat :: k < |entries| ==> ReadsAt(read, entries, limit, k)
    ensures AllPages(read, limit, offset, |entries|) == Some(entries[Clamp(offset, |entries|)..])
    decreases if |entries| > offset then |entries| - offset else 0
  {
    if offset < |entries| {
      assert ReadsAt(read, entries, limit, offset);
      PagesFrom(read, entries, limit, offset + limit);
      PageThenRest(entries, offset, limit);
    }
  }

  lemma PageThenRest(entries: seq<Entry>, offset: nat, limit: nat)
    requires offset < |entries|
    ensures entries[offset..Clamp(offset + limit, |entries|)] + entries[Clamp(offset + limit, |entries|)..]
            == entries[offset..]
  {
  }

  /** After any captures, paging a captured dataset with any positive limit returns exactly its
      sorted entry list and never an integrity error. */
  lemma CapturedDatasetPages(datasets: seq<Dataset>, key: DatasetKey, limit: nat)
    requires key in CaptureAll(datasets).datasets && limit > 0
    ensures var s := CaptureAll(datasets);
            var entries := DatasetEntries(s.datasets[key]);
            entries.Some? && s.datasets[key].responseCount == |entries.value|
            && AllPages(Reader(s, key, limit), limit, 0, |entries.value|) == entries
  {
    CapturesIntact(datasets);
    var s := CaptureAll(datasets);
    IntactPages(s, s.datasets[key], DatasetEntries(s.datasets[key]).value, limit);
  }

  /** Reading a dataset page by page with a given limit. */
  function Reader(s: Store, key: DatasetKey, limit: nat): nat -> Page {
    (offset: nat) => LoadEntries(s, key, limit, offset)
  }

  lemma ReadsSlice(s: Store, d: Dataset, entries: seq<Entry>, limit: nat, k: nat)
    requires Intact(s, d, entries) && k < |entries|
    ensures ReadsAt(Reader(s, d.key, limit), entries, limit, k)
  {
    PageIsSlice(s, d, entries, limit, k);
    assert Clamp(k, |entries|) == k;
  }

  lemma IntactPages(s: Store, d: Dataset, entries: seq<Entry>, limit: nat)
    requires Intact(s, d, entries) && limit > 0
    ensures AllPages(Reader(s, d.key, limit), limit, 0, |entries|) == Some(entries)
  {
    forall k: nat | k < |entries| ensures ReadsAt(Reader(s, d.key, limit), entries, limit, k) {
      ReadsSlice(s, d, entries, limit, k);
    }
    PagesFrom(Reader(s, d.key, limit), entries, limit, 0);
  }

  // ---------------------------------------------------------------- the store as an object

  class LocalSurveyResponseStore {
    var rows: map<Slot, Row>
    var counts: map<DatasetKey, Counts>
    var datasets: map<DatasetKey, Dataset>

    ghost function State(): Store
      reads this
    {
      Store(rows, counts, datasets)
    }

    constructor ()
      ensures State() == Store(map[], map[], map[])
    {
      rows, counts, datasets := map[], map[], map[];
    }

    /** INSERT INTO survey_response_dataset_entries, with its trigger. */
    method InsertEntryRow(slot: Slot, row: Row)
      modifies this
      ensures State() == Apply(old(State()), InsertRow(slot, row))
    {
      if slot in rows { return; }
      rows := rows[slot := row];
      counts := Counted(counts, slot.key, row.kind);
    }

    method Capture(d: Dataset) returns (captured: Captured)
      modifies this
      ensures (State(), captured) == CaptureDataset(old(State()), d)
    {
      var entries := DatasetEntries(d);
      if !CountersValid(d) || entries.None? { return Refused; }
      if d.key in datasets {
        return if datasets[d.key].digest == d.digest then AlreadyStored else Refused;
      }
      datasets := datasets[d.key := d];
      if d.key !in counts { counts := counts[d.key := Counts(0, 0)]; }
      ghost var begun := State();
      for index := 0 to |entries.value|
        invariant State() == InsertEntries(begun, d.key, entries.value[..index])
      {
        assert entries.value[..index + 1][..index] == entries.value[..index];
        InsertEntryRow(Slot(d.key, index), RowOf(entries.value[index]));
      }
      assert entries.value[..|entries.value|] == entries.value;
      return Stored;
    }
  }
}
