/** Delphi Round revisions (plugins/local_delphi_store.py): one transaction checks a Round
    result against the stored history and allocates its revision number. */
module DelphiRounds {
  import opened Common

  datatype Answer = Answer(responseId: string, participant: string, content: string)

  datatype Instrument = Instrument(id: string, version: string, contentDigest: string)

  /** The `recalculated_from` field: missing, JSON null, or a reference to a revision. */
  datatype Source = Absent | Null | From(identity: string, version: int, contentDigest: string)

  datatype Round = Round(
    project: string,
    identity: string,
    version: int,
    contentDigest: string,
    createdAt: string,
    instrument: Instrument,
    panel: string,
    sequence: int,
    expected: seq<string>,
    responses: seq<Answer>,
    source: Source)

  datatype Captured =
    | Existing(prior: Round)
    | Stored(result: Round)
    | Conflict
    | Integrity

  // ---------------------------------------------------------------- queries

  predicate SameRound(a: Round, b: Round) { a.project == b.project && a.identity == b.identity }

  /** The stored revisions of the document's Round, oldest first. */
  function Revisions(rows: seq<Round>, d: Round): (found: seq<Round>)
    ensures forall r :: r in found <==> r in rows && SameRound(r, d)
  {
    if rows == [] then []
    else
      var last := rows[|rows| - 1];
      Revisions(rows[..|rows| - 1], d) + (if SameRound(last, d) then [last] else [])
  }

  function WithDigest(rows: seq<Round>, digest: string): (found: seq<Round>)
    ensures forall r :: r in found <==> r in rows && r.contentDigest == digest
  {
    if rows == [] then []
    else
      var last := rows[|rows| - 1];
      WithDigest(rows[..|rows| - 1], digest) + (if last.contentDigest == digest then [last] else [])
  }

  function OfVersion(rows: seq<Round>, version: int): Option<Round> {
    if rows == [] then None
    else if rows[0].version == version then Some(rows[0])
    else OfVersion(rows[1..], version)
  }

  /** Counts for the check of late responses: the field is absent, not null, and the
      instrument digest is the document's. */
  predicate Precedes(r: Round, d: Round) {
    r.source.Absent? && r.instrument.contentDigest == d.instrument.contentDigest
  }

  /** The row of greatest version, the first of them when several share it. */
  function Newest(rows: seq<Round>): (newest: Option<Round>)
    ensures newest.None? <==> rows == []
    ensures newest.Some? ==> newest.value in rows && forall r :: r in rows ==> r.version <= newest.value.version
  {
    if rows == [] then None
    else
      var front := Newest(rows[..|rows| - 1]);
      var last := rows[|rows| - 1];
      if front.None? || front.value.version < last.version then Some(last) else front
  }

  function Preceding(rows: seq<Round>, d: Round): (found: seq<Round>)
    ensures forall r :: r in found <==> r in rows && Precedes(r, d)
  {
    if rows == [] then []
    else
      var last := rows[|rows| - 1];
      Preceding(rows[..|rows| - 1], d) + (if Precedes(last, d) then [last] else [])
  }

  // ---------------------------------------------------------------- checks

  /** The document apart from what a revision may differ in. */
  function Content(r: Round): Round { r.(createdAt := "", version := 0) }

  /** The response the document keeps under an id: the last one listed. */
  function Kept(responses: seq<Answer>, id: string): (kept: Option<Answer>)
    ensures kept.Some? ==> kept.value in responses && kept.value.responseId == id
  {
    if responses == [] then None
    else
      var last := responses[|responses| - 1];
      if last.responseId == id then Some(last) else Kept(responses[..|responses| - 1], id)
  }

  predicate KeepsAnswers(prior: Round, d: Round) {
    && prior.instrument == d.instrument
    && (set p | p in prior.expected) == (set p | p in d.expected)
    && forall i :: 0 <= i < |prior.responses| ==>
         Kept(d.responses, prior.responses[i].responseId) == Some(prior.responses[i])
  }

  predicate AnswerLess(a: Answer, b: Answer) {
    Less(a.participant, b.participant) || (a.participant == b.participant && Less(a.responseId, b.responseId))
  }

  function InsertAnswer(x: Answer, sorted: seq<Answer>): (s: seq<Answer>)
    ensures multiset(s) == multiset(sorted) + multiset{x}
  {
    if sorted != [] && AnswerLess(sorted[0], x) then
      assert sorted == [sorted[0]] + sorted[1..];
      [sorted[0]] + InsertAnswer(x, sorted[1..])
    else [x] + sorted
  }

  function SortedAnswers(s: seq<Answer>): (sorted: seq<Answer>)
    ensures multiset(sorted) == multiset(s)
  {
    if s == [] then []
    else
      assert s == [s[0]] + s[1..];
      InsertAnswer(s[0], SortedAnswers(s[1..]))
  }

  function InsertName(x: string, sorted: seq<string>): (s: seq<string>)
    ensures multiset(s) == multiset(sorted) + multiset{x}
  {
    if sorted != [] && Less(sorted[0], x) then
      assert sorted == [sorted[0]] + sorted[1..];
      [sorted[0]] + InsertName(x, sorted[1..])
    else [x] + sorted
  }

  function SortedNames(s: seq<string>): (sorted: seq<string>)
    ensures multiset(sorted) == multiset(s)
  {
    if s == [] then []
    else
      assert s == [s[0]] + s[1..];
      InsertName(s[0], SortedNames(s[1..]))
  }

  /** The recalculated document is about exactly the source's history. */
  predicate BindsSource(source: Round, d: Round) {
    && d.source.From? && source.contentDigest == d.source.contentDigest && source.identity == d.identity
    && source.instrument == d.instrument && source.panel == d.panel && source.sequence == d.sequence
    && SortedNames(source.expected) == d.expected && SortedAnswers(source.responses) == d.responses
  }

  function SourceRow(rows: seq<Round>, d: Round): Option<Round>
    requires d.source.From?
  {
    OfVersion(Revisions(rows, d.(identity := d.source.identity)), d.source.version)
  }

  predicate SourceRefused(rows: seq<Round>, d: Round) {
    d.source.From? && (SourceRow(rows, d).None? || !BindsSource(SourceRow(rows, d).value, d))
  }

  predicate AnswersLost(rows: seq<Round>, d: Round) {
    !d.source.From? &&
    var previous := Newest(Preceding(Revisions(rows, d), d));
    previous.Some? && !KeepsAnswers(previous.value, d)
  }

  /** `capture_round_revision`, one transaction: the rows after it and the answer. */
  function Capture(rows: seq<Round>, d: Round): (seq<Round>, Captured) {
    var stored := Revisions(rows, d);
    var exact := WithDigest(stored, d.contentDigest);
    if exact != [] then
      (rows, if |exact| != 1 || Content(exact[0]) != Content(d) then Conflict else Existing(exact[0]))
    else if SourceRefused(rows, d) then (rows, Integrity)
    else if AnswersLost(rows, d) then (rows, Conflict)
    else
      var latest := Newest(stored);
      if latest.Some? && latest.value.version < 1 then (rows, Integrity)
      else
        var result := d.(version := (if latest.None? then 0 else latest.value.version) + 1);
        (rows + [result], Stored(result))
  }

  function CaptureAll(documents: seq<Round>): seq<Round> {
    if documents == [] then []
    else Capture(CaptureAll(documents[..|documents| - 1]), documents[|documents| - 1]).0
  }

  class DelphiStore {
    var rows: seq<Round>

    constructor ()
      ensures rows == []
    {
      rows := [];
    }

    method KeepsEarlierAnswers(prior: Round, d: Round) returns (kept: bool)
      ensures kept <==> KeepsAnswers(prior, d)
    {
      if prior.instrument != d.instrument
          || (set p | p in prior.expected) != (set p | p in d.expected) { return false; }
      for i := 0 to |prior.responses|
        invariant forall k :: 0 <= k < i ==>
                    Kept(d.responses, prior.responses[k].responseId) == Some(prior.responses[k])
      {
        if Kept(d.responses, prior.responses[i].responseId) != Some(prior.responses[i]) { return false; }
      }
      return true;
    }

    method LosesAnswers(d: Round) returns (lost: bool)
      ensures lost <==> AnswersLost(rows, d)
    {
      var previous := Newest(Preceding(Revisions(rows, d), d));
      if previous.None? || d.source.From? { return false; }
      var kept := KeepsEarlierAnswers(previous.value, d);
      return !kept;
    }

    method CaptureRoundRevision(d: Round) returns (captured: Captured)
      modifies this
      ensures (rows, captured) == Capture(old(rows), d)
    {
      var stored := Revisions(rows, d);
      var exact := WithDigest(stored, d.contentDigest);
      if exact != [] {
        return if |exact| != 1 || Content(exact[0]) != Content(d) then Conflict else Existing(exact[0]);
      }
      if SourceRefused(rows, d) { return Integrity; }
      var lost := LosesAnswers(d);
      if lost { return Conflict; }
      var latest := Newest(stored);
      if latest.Some? && latest.value.version < 1 { return Integrity; }
      var result := d.(version := (if latest.None? then 0 else latest.value.version) + 1);
      rows := rows + [result];
      return Stored(result);
    }
  }

  // ---------------------------------------------------------------- what every history keeps

  ghost predicate Numbered(revisions: seq<Round>) {
    forall i :: 0 <= i < |revisions| ==> revisions[i].version == i + 1
  }

  ghost predicate DigestsDiffer(revisions: seq<Round>) {
    forall i, j :: 0 <= i < j < |revisions| ==> revisions[i].contentDigest != revisions[j].contentDigest
  }

  /** Participants stay fixed and every answer survives, unchanged. */
  ghost predicate Survives(a: Round, b: Round) {
    && a.instrument == b.instrument
    && (set p | p in a.expected) == (set p | p in b.expected)
    && forall x :: x in a.responses ==> x in b.responses
  }

  /** Every later revision of the instrument that is no recalculation keeps what an earlier one
      without the `recalculated_from` field had. */
  ghost predicate AnswersSurvive(revisions: seq<Round>) {
    forall i, j :: 0 <= i < j < |revisions| && Precedes(revisions[i], revisions[j]) && !revisions[j].source.From? ==>
      Survives(revisions[i], revisions[j])
  }

  /** A recalculation repeats the participants and answers of the revision it names. */
  ghost predicate SourcesBound(revisions: seq<Round>) {
    forall j :: 0 <= j < |revisions| && revisions[j].source.From? ==> SourceBound(revisions, j)
  }

  ghost predicate SourceBound(revisions: seq<Round>, j: int)
    requires 0 <= j < |revisions| && revisions[j].source.From?
  {
    exists i :: 0 <= i < j && revisions[i].version == revisions[j].source.version
                && BindsSource(revisions[i], revisions[j])
  }

  ghost predicate HistorySound(revisions: seq<Round>) {
    Numbered(revisions) && DigestsDiffer(revisions) && AnswersSurvive(revisions) && SourcesBound(revisions)
  }

  lemma {:induction false} NewestNumbered(revisions: seq<Round>)
    requires Numbered(revisions) && revisions != []
    ensures Newest(revisions) == Some(revisions[|revisions| - 1])
  {
    if |revisions| > 1 {
      NewestNumbered(revisions[..|revisions| - 1]);
    }
  }

  /** Among the rows that count for the check, the newest is the last one stored. */
  lemma {:induction false} NewestPreceding(revisions: seq<Round>, d: Round) returns (k: int)
    requires Numbered(revisions) && Preceding(revisions, d) != []
    ensures 0 <= k < |revisions| && Newest(Preceding(revisions, d)) == Some(revisions[k]) && Precedes(revisions[k], d)
    ensures forall i :: k < i < |revisions| ==> !Precedes(revisions[i], d)
  {
    var last := |revisions| - 1;
    var front := revisions[..last];
    if Precedes(revisions[last], d) {
      k := last;
      forall r | r in Preceding(front, d) ensures r.version < revisions[last].version {
        var i :| 0 <= i < |front| && front[i] == r;
      }
    } else {
      k := NewestPreceding(front, d);
      assert Preceding(revisions, d) == Preceding(front, d);
    }
  }

  lemma KeptSurvives(prior: Round, d: Round)
    requires KeepsAnswers(prior, d)
    ensures Survives(prior, d)
  {
    forall x | x in prior.responses ensures x in d.responses {
      var i :| 0 <= i < |prior.responses| && prior.responses[i] == x;
      assert Kept(d.responses, prior.responses[i].responseId) == Some(x);
    }
  }

  lemma SurvivesBoth(a: Round, b: Round, d: Round)
    requires Survives(a, b) && Survives(b, d)
    ensures Survives(a, d)
  {
  }

  /** A revision that is accepted keeps the answers of every earlier one that counts. */
  lemma EarlierSurvives(revisions: seq<Round>, i: int, k: int, d: Round)
    requires AnswersSurvive(revisions) && 0 <= i <= k < |revisions|
    requires Precedes(revisions[i], d) && Precedes(revisions[k], d) && Survives(revisions[k], d)
    ensures Survives(revisions[i], d)
  {
    if i < k {
      assert Precedes(revisions[i], revisions[k]);
      SurvivesBoth(revisions[i], revisions[k], d);
    }
  }

  lemma NewSurvives(revisions: seq<Round>, d: Round, i: int)
    requires Numbered(revisions) && AnswersSurvive(revisions) && 0 <= i < |revisions|
    requires Precedes(revisions[i], d)
    requires Newest(Preceding(revisions, d)).Some? ==> KeepsAnswers(Newest(Preceding(revisions, d)).value, d)
    ensures Survives(revisions[i], d)
  {
    assert revisions[i] in Preceding(revisions, d);
    var k := NewestPreceding(revisions, d);
    KeptSurvives(revisions[k], d);
    EarlierSurvives(revisions, i, k, d);
  }

  lemma {:induction false} FirstOfVersion(revisions: seq<Round>, version: int)
    ensures OfVersion(revisions, version).Some? ==>
              exists i :: 0 <= i < |revisions| && revisions[i] == OfVersion(revisions, version).value
                          && revisions[i].version == version
  {
    if revisions != [] && revisions[0].version != version {
      FirstOfVersion(revisions[1..], version);
      if OfVersion(revisions[1..], version).Some? {
        var i :| 0 <= i < |revisions[1..]| && revisions[1..][i] == OfVersion(revisions[1..], version).value
                 && revisions[1..][i].version == version;
        assert revisions[i + 1] == revisions[1..][i];
      }
    }
  }

  lemma {:induction false} RevisionsOf(rows: seq<Round>, a: Round, b: Round)
    requires SameRound(a, b)
    ensures Revisions(rows, a) == Revisions(rows, b)
  {
    if rows != [] { RevisionsOf(rows[..|rows| - 1], a, b); }
  }

  lemma AppendedSurvives(revisions: seq<Round>, d: Round, result: Round)
    requires Numbered(revisions) && AnswersSurvive(revisions)
    requires result == d.(version := result.version)
    requires d.source.From? || Newest(Preceding(revisions, d)).None?
             || KeepsAnswers(Newest(Preceding(revisions, d)).value, d)
    ensures AnswersSurvive(revisions + [result])
  {
    var all := revisions + [result];
    forall i, j | 0 <= i < j < |all| && Precedes(all[i], all[j]) && !all[j].source.From?
      ensures Survives(all[i], all[j])
    {
      if j < |revisions| {
        assert all[i] == revisions[i] && all[j] == revisions[j];
      } else {
        NewSurvives(revisions, d, i);
      }
    }
  }

  lemma AppendedBound(revisions: seq<Round>, d: Round, result: Round)
    requires SourcesBound(revisions) && result == d.(version := result.version)
    requires d.source.From? ==>
               OfVersion(revisions, d.source.version).Some?
                   && BindsSource(OfVersion(revisions, d.source.version).value, d)
    ensures SourcesBound(revisions + [result])
  {
    var all := revisions + [result];
    forall j | 0 <= j < |all| && all[j].source.From? ensures SourceBound(all, j) {
      if j < |revisions| {
        assert SourceBound(revisions, j);
        var i :| 0 <= i < j && revisions[i].version == revisions[j].source.version
            && BindsSource(revisions[i], revisions[j]);
        assert all[i] == revisions[i];
      } else {
        FirstOfVersion(revisions, d.source.version);
        var i :| 0 <= i < |revisions| && revisions[i] == OfVersion(revisions, d.source.version).value
                 && revisions[i].version == d.source.version;
        assert BindsSource(all[i], all[j]);
      }
    }
  }

  lemma Appended(revisions: seq<Round>, d: Round, result: Round)
    requires HistorySound(revisions)
    requires result == d.(version := |revisions| + 1) && WithDigest(revisions, d.contentDigest) == []
    requires d.source.From? || Newest(Preceding(revisions, d)).None?
             || KeepsAnswers(Newest(Preceding(revisions, d)).value, d)
    requires d.source.From? ==>
               OfVersion(revisions, d.source.version).Some?
                   && BindsSource(OfVersion(revisions, d.source.version).value, d)
    ensures HistorySound(revisions + [result])
  {
    AppendedSurvives(revisions, d, result);
    AppendedBound(revisions, d, result);
    forall i | 0 <= i < |revisions| ensures revisions[i].contentDigest != d.contentDigest {
      assert revisions[i] !in WithDigest(revisions, d.contentDigest);
    }
  }

  /** What a stored document has passed. */
  ghost predicate Passed(rows: seq<Round>, d: Round, result: Round) {
    && WithDigest(Revisions(rows, d), d.contentDigest) == []
    && !SourceRefused(rows, d) && !AnswersLost(rows, d)
    && result == d.(version := 1 + if Newest(Revisions(rows, d)).None? then 0
                                   else Newest(Revisions(rows, d)).value.version)
  }

  lemma CaptureCases(rows: seq<Round>, d: Round)
    ensures var (next, captured) := Capture(rows, d);
            if captured.Stored? then next == rows + [captured.result] && Passed(rows, d, captured.result)
                else next == rows
  {
  }

  lemma BoundHere(rows: seq<Round>, d: Round)
    requires d.source.From? && !SourceRefused(rows, d)
    ensures OfVersion(Revisions(rows, d), d.source.version).Some?
    ensures BindsSource(OfVersion(Revisions(rows, d), d.source.version).value, d)
  {
    var other := d.(identity := d.source.identity);
    FirstOfVersion(Revisions(rows, other), d.source.version);
    var source := SourceRow(rows, d).value;
    assert source in Revisions(rows, other);
    RevisionsOf(rows, d, other);
  }

  lemma PassedSound(rows: seq<Round>, d: Round, result: Round)
    requires HistorySound(Revisions(rows, d)) && Passed(rows, d, result)
    ensures HistorySound(Revisions(rows, d) + [result])
  {
    var stored := Revisions(rows, d);
    if stored != [] { NewestNumbered(stored); }
    if d.source.From? { BoundHere(rows, d); }
    Appended(stored, d, result);
  }

  lemma RevisionsAppend(rows: seq<Round>, result: Round, of: Round)
    ensures Revisions(rows + [result], of) == Revisions(rows, of) + if SameRound(result, of) then [result] else []
  {
    assert (rows + [result])[..|rows|] == rows;
  }

  /** A stored document adds one revision to its own Round and none to the others. */
  lemma StoredSound(rows: seq<Round>, d: Round, result: Round, of: Round)
    requires HistorySound(Revisions(rows, of)) && HistorySound(Revisions(rows, d)) && Passed(rows, d, result)
    ensures HistorySound(Revisions(rows + [result], of)) && Revisions(rows, of) <= Revisions(rows + [result], of)
  {
    RevisionsAppend(rows, result, of);
    assert SameRound(result, of) <==> SameRound(d, of);
    if SameRound(d, of) {
      RevisionsOf(rows, d, of);
      PassedSound(rows, d, result);
    } else {
      assert Revisions(rows + [result], of) == Revisions(rows, of);
    }
  }

  /** One more capture keeps the history of every Round sound, and every stored revision. */
  lemma CaptureSound(rows: seq<Round>, d: Round, of: Round)
    requires HistorySound(Revisions(rows, of)) && HistorySound(Revisions(rows, d))
    ensures HistorySound(Revisions(Capture(rows, d).0, of))
    ensures Revisions(rows, of) <= Revisions(Capture(rows, d).0, of)
  {
    var result := CaptureResult(rows, d);
    if result.Some? { StoredSound(rows, d, result.value, of); }
  }

  lemma CaptureResult(rows: seq<Round>, d: Round) returns (result: Option<Round>)
    ensures if result.Some? then Capture(rows, d).0 == rows + [result.value] && Passed(rows, d, result.value)
            else Capture(rows, d).0 == rows
  {
    CaptureCases(rows, d);
    var captured := Capture(rows, d).1;
    result := if captured.Stored? then Some(captured.result) else None;
  }

  /** Through captures alone, the revisions of every Round are numbered 1..n in the order they
      were stored, no content digest gets two of them, participants and answers survive along
      revisions without a `recalculated_from` field, and recalculations repeat their source. */
  lemma {:induction false} RoundHistory(documents: seq<Round>, of: Round)
    ensures HistorySound(Revisions(CaptureAll(documents), of))
  {
    if documents != [] {
      var front, d := documents[..|documents| - 1], documents[|documents| - 1];
      RoundHistory(front, of);
      RoundHistory(front, d);
      CaptureSound(CaptureAll(front), d, of);
    }
  }

  // ---------------------------------------------------------------- every revision that is no recalculation

  /** An earlier revision whose answers `d` should have: no recalculation, of the same
      instrument digest, whether its field is missing or null. */
  predicate Counts(r: Round, d: Round) {
    !r.source.From? && r.instrument.contentDigest == d.instrument.contentDigest
  }

  /** Along all revisions that are no recalculations, answers and participants are kept. */
  ghost predicate AllKept(revisions: seq<Round>) {
    forall i, j :: 0 <= i < j < |revisions| && Counts(revisions[i], revisions[j]) && !revisions[j].source.From? ==>
      KeepsAnswers(revisions[i], revisions[j])
  }

  predicate LastCounting(revisions: seq<Round>, d: Round, k: int) {
    0 <= k < |revisions| && Counts(revisions[k], d) && forall i :: k < i < |revisions| ==> !Counts(revisions[i], d)
  }

  /** The check the capture would make if its query also took rows whose field is null. */
  ghost predicate Checked(revisions: seq<Round>, d: Round) {
    d.source.From? || forall k :: LastCounting(revisions, d, k) ==> KeepsAnswers(revisions[k], d)
  }

  lemma KeepsTransitive(a: Round, b: Round, d: Round)
    requires KeepsAnswers(a, b) && KeepsAnswers(b, d)
    ensures KeepsAnswers(a, d)
  {
    forall i | 0 <= i < |a.responses|
      ensures Kept(d.responses, a.responses[i].responseId) == Some(a.responses[i])
    {
      var x := a.responses[i];
      assert Kept(b.responses, x.responseId) == Some(x);
      var j :| 0 <= j < |b.responses| && b.responses[j] == x;
      assert Kept(d.responses, b.responses[j].responseId) == Some(x);
    }
  }

  lemma {:induction false} LastOfCounting(revisions: seq<Round>, d: Round, i: nat) returns (k: nat)
    requires i < |revisions| && Counts(revisions[i], d)
    ensures i <= k && LastCounting(revisions, d, k)
    decreases |revisions|
  {
    var last := |revisions| - 1;
    if Counts(revisions[last], d) {
      k := last;
    } else {
      k := LastOfCounting(revisions[..last], d, i);
      assert forall n :: k < n < last ==> revisions[n] == revisions[..last][n];
    }
  }

  lemma CheckedKeeps(revisions: seq<Round>, d: Round, i: nat)
    requires AllKept(revisions) && Checked(revisions, d) && !d.source.From?
    requires i < |revisions| && Counts(revisions[i], d)
    ensures KeepsAnswers(revisions[i], d)
  {
    var k := LastOfCounting(revisions, d, i);
    if i < k {
      assert Counts(revisions[i], revisions[k]);
      KeepsTransitive(revisions[i], revisions[k], d);
    }
  }

  /** One more revision keeps the answers of all exactly when it passes that check. */
  lemma KeptExactly(revisions: seq<Round>, d: Round)
    requires AllKept(revisions)
    ensures AllKept(revisions + [d]) <==> Checked(revisions, d)
  {
    var all := revisions + [d];
    if Checked(revisions, d) {
      forall i, j | 0 <= i < j < |all| && Counts(all[i], all[j]) && !all[j].source.From?
        ensures KeepsAnswers(all[i], all[j])
      {
        if j == |revisions| { CheckedKeeps(revisions, d, i); }
      }
    } else {
      var k :| LastCounting(revisions, d, k) && !KeepsAnswers(revisions[k], d);
      assert all[k] == revisions[k] && all[|revisions|] == d;
    }
  }

  lemma KeptBefore(revisions: seq<Round>, d: Round)
    requires AllKept(revisions + [d])
    ensures AllKept(revisions)
  {
    var all := revisions + [d];
    forall i, j | 0 <= i < j < |revisions| && Counts(revisions[i], revisions[j]) && !revisions[j].source.From?
      ensures KeepsAnswers(revisions[i], revisions[j])
    {
      assert all[i] == revisions[i] && all[j] == revisions[j];
    }
  }

  /** If this capture adds a revision to the Round, that revision passes the check. */
  ghost predicate CaptureChecked(rows: seq<Round>, d: Round, of: Round) {
    Capture(rows, d).1.Stored? && SameRound(d, of) ==> Checked(Revisions(rows, of), d)
  }

  ghost predicate EachChecked(documents: seq<Round>, of: Round) {
    documents != [] ==>
      var front := documents[..|documents| - 1];
      EachChecked(front, of) && CaptureChecked(CaptureAll(front), documents[|documents| - 1], of)
  }

  /** What a check says about a document it says about the revision stored for it. */
  lemma CheckedStored(revisions: seq<Round>, d: Round, version: int)
    ensures Checked(revisions, d.(version := version)) <==> Checked(revisions, d)
  {
    var result := d.(version := version);
    forall k ensures LastCounting(revisions, result, k) <==> LastCounting(revisions, d, k) {
      if 0 <= k < |revisions| {
        assert forall i :: 0 <= i < |revisions| ==> (Counts(revisions[i], result) <==> Counts(revisions[i], d));
      }
    }
    forall k | 0 <= k < |revisions| ensures KeepsAnswers(revisions[k], result) <==> KeepsAnswers(revisions[k], d) {}
  }

  lemma CaptureExactly(rows: seq<Round>, d: Round, of: Round)
    ensures AllKept(Revisions(Capture(rows, d).0, of)) <==>
              AllKept(Revisions(rows, of)) && CaptureChecked(rows, d, of)
  {
    CaptureCases(rows, d);
    var (next, captured) := Capture(rows, d);
    if captured.Stored? && SameRound(d, of) {
      var result, revisions := captured.result, Revisions(rows, of);
      RevisionsAppend(rows, result, of);
      CheckedStored(revisions, d, result.version);
      if AllKept(revisions + [result]) { KeptBefore(revisions, result); }
      if AllKept(revisions) { KeptExactly(revisions, result); }
    } else if captured.Stored? {
      RevisionsAppend(rows, captured.result, of);
      assert Revisions(next, of) == Revisions(rows, of);
    }
  }

  /** Through captures alone: answers survive along all revisions that are no recalculations if
      and only if each stored revision passed the check with null rows included. */
  lemma {:induction false} AnswersSurviveExactly(documents: seq<Round>, of: Round)
    ensures AllKept(Revisions(CaptureAll(documents), of)) <==> EachChecked(documents, of)
  {
    if documents != [] {
      var front := documents[..|documents| - 1];
      AnswersSurviveExactly(front, of);
      CaptureExactly(CaptureAll(front), documents[|documents| - 1], of);
    }
  }

  // ---------------------------------------------------------------- the null field

  /** A late response that writes the `recalculated_from` field as null is checked itself, but
      is not what the next revision is checked against. */
  function Late(digest: string, responses: seq<Answer>, source: Source): Round {
    Round("P", "R", 0, digest, "", Instrument("I", "1", "i"), "panel", 1, ["p"], responses, source)
  }

  const A := Answer("a", "p", "yes")
  const B := Answer("b", "p", "no")
  const THREE := [Late("1", [A], Absent), Late("2", [A, B], Null), Late("3", [A], Absent)]

  lemma CaptureThree(a: Round, b: Round, c: Round)
    ensures CaptureAll([a, b, c]) == Capture(Capture(Capture([], a).0, b).0, c).0
  {
    var all := [a, b, c];
    assert all[..2] == [a, b] && [a, b][..1] == [a] && [a][..0] == [];
    assert CaptureAll([a]) == Capture([], a).0;
    assert CaptureAll([a, b]) == Capture(CaptureAll([a]), b).0;
  }

  lemma QueriesAppend(rows: seq<Round>, r: Round, d: Round)
    ensures Revisions(rows + [r], d) == Revisions(rows, d) + if SameRound(r, d) then [r] else []
    ensures WithDigest(rows + [r], d.contentDigest)
         == WithDigest(rows, d.contentDigest) + if r.contentDigest == d.contentDigest then [r] else []
    ensures Preceding(rows + [r], d) == Preceding(rows, d) + if Precedes(r, d) then [r] else []
    ensures Newest(rows + [r])
         == if Newest(rows).None? || Newest(rows).value.version < r.version then Some(r) else Newest(rows)
  {
    assert (rows + [r])[..|rows|] == rows;
  }

  const V1 := THREE[0].(version := 1)
  const V2 := THREE[1].(version := 2)
  const V3 := THREE[2].(version := 3)

  lemma FirstStored()
    ensures Capture([], THREE[0]).0 == [V1]
  {
  }

  lemma KeepsA(d: Round)
    requires d == THREE[1] || d == THREE[2]
    ensures KeepsAnswers(V1, d)
  {
    assert [A, B][..1] == [A] && [A][..0] == [];
    assert Kept([A], "a") == Some(A);
    assert Kept([A, B], "a") == Some(A);
  }

  lemma SecondStored()
    ensures Capture([V1], THREE[1]).0 == [V1, V2]
  {
    QueriesAppend([], V1, THREE[1]);
    assert [] + [V1] == [V1];
    KeepsA(THREE[1]);
  }

  lemma ThirdQueries(rows: seq<Round>, d: Round)
    requires rows == [V1, V2] && d == THREE[2]
    ensures Revisions(rows, d) == rows && WithDigest(rows, d.contentDigest) == []
    ensures Preceding(rows, d) == [V1] && Newest([V1]) == Some(V1) && Newest(rows) == Some(V2)
  {
    TwoQueries(V1, V2, d);
  }

  lemma TwoQueries(a: Round, b: Round, d: Round)
    requires SameRound(a, d) && SameRound(b, d) && a.contentDigest != d.contentDigest
             && b.contentDigest != d.contentDigest
    requires Precedes(a, d) && !Precedes(b, d) && a.version < b.version
    ensures Revisions([a, b], d) == [a, b] && WithDigest([a, b], d.contentDigest) == []
    ensures Preceding([a, b], d) == [a] && Newest([a]) == Some(a) && Newest([a, b]) == Some(b)
  {
    QueriesAppend([], a, d);
    QueriesAppend([a], b, d);
    assert [] + [a] == [a] && [a] + [b] == [a, b];
  }

  lemma StoresNext(rows: seq<Round>, d: Round)
    requires WithDigest(Revisions(rows, d), d.contentDigest) == []
    requires !SourceRefused(rows, d) && !AnswersLost(rows, d)
    requires Newest(Revisions(rows, d)).Some? && Newest(Revisions(rows, d)).value.version >= 1
    ensures Capture(rows, d).1.Stored?
  {
    var exact := WithDigest(Revisions(rows, d), d.contentDigest);
    assert exact == [];
  }

  lemma ThirdChecked(rows: seq<Round>, d: Round)
    requires rows == [V1, V2] && d == THREE[2]
    ensures !AnswersLost(rows, d) && !SourceRefused(rows, d)
  {
    ThirdQueries(rows, d);
    KeepsA(d);
  }

  lemma ThirdStored()
    ensures Capture([V1, V2], THREE[2]).0 == [V1, V2, V3]
  {
    var rows, d := [V1, V2], THREE[2];
    ThirdQueries(rows, d);
    ThirdChecked(rows, d);
    StoresNext(rows, d);
    CaptureCases(rows, d);
    assert rows + [V3] == [V1, V2, V3];
  }

  /** So answers do not survive a revision whose field is null: B is gone from the third. */
  lemma NullFieldForgets()
    ensures var rows := CaptureAll(THREE);
            |rows| == 3 && !rows[2].source.From? && rows[1].instrument == rows[2].instrument
            && rows[1].source.Null? && B in rows[1].responses && B !in rows[2].responses
  {
    CaptureThree(THREE[0], THREE[1], THREE[2]);
    FirstStored();
    SecondStored();
    ThirdStored();
  }
}
