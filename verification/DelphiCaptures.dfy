/** What a capture of a Delphi Round result answers, for any stored rows, read off the fields of the
    document and of the rows (plugins/local_delphi_store.py:317-404). */
module DelphiCaptures {
  import opened Common
  import opened DelphiRounds

  // ---------------------------------------------------------------- documents

  predicate OfRound(r: Round, project: string, identity: string) { r.project == project && r.identity == identity }

  /** The documents differ at most in version and creation time. */
  predicate SameDocument(a: Round, b: Round) {
    && a.project == b.project && a.identity == b.identity && a.contentDigest == b.contentDigest
    && a.instrument == b.instrument && a.panel == b.panel && a.sequence == b.sequence
    && a.expected == b.expected && a.responses == b.responses && a.source == b.source
  }

  /** The document has the answer, and lists nothing under its id after it. */
  ghost predicate HasAnswer(d: Round, a: Answer) {
    exists k :: LastUnderId(d.responses, a, k)
  }

  predicate LastUnderId(responses: seq<Answer>, a: Answer, k: int) {
    0 <= k < |responses| && responses[k] == a
    && forall j :: k < j < |responses| ==> responses[j].responseId != a.responseId
  }

  /** Instrument and participants are the same, and every earlier answer is still there. */
  ghost predicate KeepsAll(prior: Round, d: Round) {
    && prior.instrument == d.instrument
    && (forall p :: p in prior.expected <==> p in d.expected)
    && forall a :: a in prior.responses ==> HasAnswer(d, a)
  }

  lemma {:induction false} KeptExactlyOne(responses: seq<Answer>, a: Answer)
    ensures Kept(responses, a.responseId) == Some(a) <==> exists k :: LastUnderId(responses, a, k)
  {
    if responses != [] {
      var last := |responses| - 1;
      var front := responses[..last];
      if responses[last].responseId == a.responseId {
        if responses[last] == a { assert LastUnderId(responses, a, last); }
      } else {
        KeptExactlyOne(front, a);
        if k :| LastUnderId(front, a, k) { assert LastUnderId(responses, a, k); }
        if k :| LastUnderId(responses, a, k) { assert LastUnderId(front, a, k); }
      }
    }
  }

  lemma KeepsAnswersExactly(prior: Round, d: Round)
    ensures KeepsAnswers(prior, d) <==> KeepsAll(prior, d)
  {
    forall i | 0 <= i < |prior.responses|
      ensures Kept(d.responses, prior.responses[i].responseId) == Some(prior.responses[i])
              <==> HasAnswer(d, prior.responses[i])
    {
      KeptExactlyOne(d.responses, prior.responses[i]);
    }
    assert (set p | p in prior.expected) == (set p | p in d.expected) <==>
        forall p :: p in prior.expected <==> p in d.expected by {
      SameSets(prior.expected, d.expected);
    }
    if KeepsAnswers(prior, d) {
      forall a | a in prior.responses ensures HasAnswer(d, a) {
        var i :| 0 <= i < |prior.responses| && prior.responses[i] == a;
        assert HasAnswer(d, prior.responses[i]);
      }
    }
  }

  lemma SameSets(a: seq<string>, b: seq<string>)
    ensures (set p | p in a) == (set p | p in b) <==> forall p :: p in a <==> p in b
  {
    var x, y := (set p | p in a), (set p | p in b);
    forall p ensures p in x <==> p in a
             ensures p in y <==> p in b {}
  }

  // ---------------------------------------------------------------- recalculations

  predicate NamesInOrder(s: seq<string>) { forall i, j :: 0 <= i < j < |s| ==> !Less(s[j], s[i]) }

  /** By participant, then by response id. */
  predicate AnswerAfter(a: Answer, b: Answer) {
    Less(b.participant, a.participant) || (b.participant == a.participant && Less(b.responseId, a.responseId))
  }

  predicate AnswersInOrder(s: seq<Answer>) { forall i, j :: 0 <= i < j < |s| ==> !AnswerAfter(s[i], s[j]) }

  /** The recalculation names this revision and repeats its participants and answers, in order. */
  predicate Repeats(source: Round, d: Round) {
    && d.source.From? && source.contentDigest == d.source.contentDigest && source.identity == d.identity
    && source.instrument == d.instrument && source.panel == d.panel && source.sequence == d.sequence
    && multiset(source.expected) == multiset(d.expected) && NamesInOrder(d.expected)
    && multiset(source.responses) == multiset(d.responses) && AnswersInOrder(d.responses)
  }

  /** No two answers of the revision share participant and response id. */
  ghost predicate NoTwins(responses: seq<Answer>) {
    forall a, b :: a in responses && b in responses && SameKey(a, b) ==> a == b
  }

  predicate SameKey(a: Answer, b: Answer) {
    a.participant == b.participant && a.responseId == b.responseId
  }

  lemma {:induction false} NamesSorted(s: seq<string>)
    ensures NamesInOrder(SortedNames(s))
  {
    if s != [] {
      NamesSorted(s[1..]);
      InsertNameSorts(s[0], SortedNames(s[1..]));
    }
  }

  lemma {:induction false} InsertNameSorts(x: string, s: seq<string>)
    requires NamesInOrder(s)
    ensures NamesInOrder(InsertName(x, s))
  {
    if s != [] && Less(s[0], x) {
      InsertNameSorts(x, s[1..]);
      var rest := InsertName(x, s[1..]);
      forall j | 0 <= j < |rest| ensures !Less(rest[j], s[0]) {
        assert rest[j] in multiset(rest);
        LessAsymmetric(s[0], x);
        assert rest[j] == x || rest[j] in s[1..];
      }
    } else if s != [] {
      forall j | 0 <= j < |s| ensures !Less(s[j], x) {
        LessTotal(s[0], x);
        if j > 0 && s[0] != x && Less(s[j], x) { LessTransitive(s[j], x, s[0]); }
      }
    }
  }

  lemma AnswerOrder(a: Answer, b: Answer, c: Answer)
    ensures AnswerLess(a, b) <==> AnswerAfter(b, a)
    ensures !(AnswerAfter(a, b) && AnswerAfter(b, a))
    ensures AnswerAfter(a, b) && AnswerAfter(b, c) ==> AnswerAfter(a, c)
    ensures AnswerAfter(a, b) || AnswerAfter(b, a) || (a.participant == b.participant && a.responseId == b.responseId)
  {
    LessTotal(a.participant, b.participant);
    LessTotal(a.responseId, b.responseId);
    LessAsymmetric(a.participant, b.participant);
    LessAsymmetric(a.responseId, b.responseId);
    if Less(c.participant, b.participant) && Less(b.participant, a.participant) {
      LessTransitive(c.participant, b.participant, a.participant);
    }
    if Less(c.responseId, b.responseId) && Less(b.responseId, a.responseId) {
      LessTransitive(c.responseId, b.responseId, a.responseId);
    }
  }

  lemma {:induction false} AnswersSorted(s: seq<Answer>)
    ensures AnswersInOrder(SortedAnswers(s))
  {
    if s != [] {
      AnswersSorted(s[1..]);
      InsertAnswerSorts(s[0], SortedAnswers(s[1..]));
    }
  }

  lemma NotBeforeFirst(s: seq<Answer>, x: Answer, j: nat)
    requires AnswersInOrder(s) && j < |s| && !AnswerLess(s[0], x)
    ensures !AnswerAfter(x, s[j])
  {
    AnswerOrder(s[0], x, x);
    AnswerOrder(x, s[j], s[0]);
    AnswerOrder(s[0], s[j], x);
    if j > 0 && AnswerAfter(x, s[j]) { SameKeyAfter(s[0], x, s[j]); }
  }

  /** An answer after one with the key of `a`, or after `a` itself, is after `a`. */
  lemma SameKeyAfter(a: Answer, x: Answer, b: Answer)
    requires !AnswerAfter(x, a) && AnswerAfter(x, b)
    ensures AnswerAfter(a, b)
  {
    AnswerOrder(a, x, b);
    AnswerOrder(x, a, b);
  }

  lemma {:induction false} InsertAnswerSorts(x: Answer, s: seq<Answer>)
    requires AnswersInOrder(s)
    ensures AnswersInOrder(InsertAnswer(x, s))
  {
    if s != [] && AnswerLess(s[0], x) {
      InsertAnswerSorts(x, s[1..]);
      var rest := InsertAnswer(x, s[1..]);
      forall j | 0 <= j < |rest| ensures !AnswerAfter(s[0], rest[j]) {
        assert rest[j] in multiset(rest);
        AnswerOrder(s[0], x, x);
        assert rest[j] == x || rest[j] in s[1..];
      }
    } else if s != [] {
      forall j | 0 <= j < |s| ensures !AnswerAfter(x, s[j]) { NotBeforeFirst(s, x, j); }
    }
  }

  lemma FirstOf<T>(a: seq<T>, b: seq<T>)
    requires a != [] && b != [] && multiset(a) == multiset(b)
    ensures a[0] in b && b[0] in a && |a| == |b|
    ensures a[0] == b[0] ==> multiset(a[1..]) == multiset(b[1..])
  {
    assert a[0] in multiset(b) && b[0] in multiset(a);
    assert |multiset(a)| == |a| && |multiset(b)| == |b|;
    if a[0] == b[0] {
      assert a == [a[0]] + a[1..] && b == [b[0]] + b[1..];
      assert multiset(a[1..]) == multiset(a) - multiset{a[0]};
      assert multiset(b[1..]) == multiset(b) - multiset{b[0]};
    }
  }

  lemma NoneOf<T>(a: seq<T>, b: seq<T>)
    requires multiset(a) == multiset(b) && a == []
    ensures b == []
  {
    assert |multiset(a)| == |a| && |multiset(b)| == |b|;
  }

  lemma {:induction false} OneOrderOfNames(a: seq<string>, b: seq<string>)
    requires multiset(a) == multiset(b) && NamesInOrder(a) && NamesInOrder(b)
    ensures a == b
  {
    if a == [] {
      NoneOf(a, b);
    } else if b == [] {
      NoneOf(b, a);
    } else {
      FirstOf(a, b);
      LessTotal(a[0], b[0]);
      OneOrderOfNames(a[1..], b[1..]);
      assert a == [a[0]] + a[1..] && b == [b[0]] + b[1..];
    }
  }

  lemma FirstIsLeast(s: seq<Answer>, x: Answer)
    requires AnswersInOrder(s) && x in s
    ensures !AnswerAfter(s[0], x)
  {
    var k :| 0 <= k < |s| && s[k] == x;
    AnswerOrder(x, x, x);
  }

  lemma {:induction false} OneOrderOfAnswers(a: seq<Answer>, b: seq<Answer>)
    requires multiset(a) == multiset(b) && AnswersInOrder(a) && AnswersInOrder(b) && NoTwins(a)
    ensures a == b
  {
    if a == [] {
      NoneOf(a, b);
    } else if b == [] {
      NoneOf(b, a);
    } else {
      FirstOf(a, b);
      FirstIsLeast(a, b[0]);
      FirstIsLeast(b, a[0]);
      AnswerOrder(a[0], b[0], b[0]);
      assert SameKey(a[0], b[0]);
      OneOrderOfAnswers(a[1..], b[1..]);
      assert a == [a[0]] + a[1..] && b == [b[0]] + b[1..];
    }
  }

  lemma TwinsKept(a: seq<Answer>, b: seq<Answer>)
    requires multiset(a) == multiset(b) && NoTwins(a)
    ensures NoTwins(b)
  {
    forall x | x in b ensures x in a { assert x in multiset(a); }
  }

  /** A recalculation is bound to a revision exactly when it repeats it. Two different answers under one
      participant and id would be compared in the order in which the revision lists them. */
  lemma BindsExactly(source: Round, d: Round)
    ensures BindsSource(source, d) ==> Repeats(source, d)
    ensures Repeats(source, d) && NoTwins(source.responses) ==> BindsSource(source, d)
  {
    NamesSorted(source.expected);
    AnswersSorted(source.responses);
    if Repeats(source, d) && NoTwins(source.responses) {
      OneOrderOfNames(SortedNames(source.expected), d.expected);
      TwinsKept(source.responses, SortedAnswers(source.responses));
      OneOrderOfAnswers(SortedAnswers(source.responses), d.responses);
    }
  }

  // ---------------------------------------------------------------- which row each check looks at

  /** Row `i` is a revision of the document's Round with its content digest. */
  predicate SameDigest(rows: seq<Round>, d: Round, i: int)
    requires 0 <= i < |rows|
  {
    OfRound(rows[i], d.project, d.identity) && rows[i].contentDigest == d.contentDigest
  }

  predicate NoDigest(rows: seq<Round>, d: Round) { forall i :: 0 <= i < |rows| ==> !SameDigest(rows, d, i) }

  predicate OnlyDigest(rows: seq<Round>, d: Round, i: int) {
    0 <= i < |rows| && SameDigest(rows, d, i) && forall j :: 0 <= j < |rows| && j != i ==> !SameDigest(rows, d, j)
  }

  /** The rows found are those with the digest. */
  ghost predicate Found(rows: seq<Round>, d: Round, exact: seq<Round>) {
    && (exact == [] <==> NoDigest(rows, d))
    && (|exact| == 1 ==> exists i :: OnlyDigest(rows, d, i) && rows[i] == exact[0])
    && ((exists i :: OnlyDigest(rows, d, i)) ==> |exact| == 1)
  }

  lemma SameDigestLonger(rows: seq<Round>, r: Round, d: Round)
    ensures forall i :: 0 <= i < |rows| ==> (SameDigest(rows + [r], d, i) <==> SameDigest(rows, d, i))
  {
  }

  lemma FoundOther(rows: seq<Round>, r: Round, d: Round, exact: seq<Round>)
    requires Found(rows, d, exact) && !SameDigest(rows + [r], d, |rows|)
    ensures Found(rows + [r], d, exact)
  {
    SameDigestLonger(rows, r, d);
    if i :| OnlyDigest(rows, d, i) && rows[i] == exact[0] { assert OnlyDigest(rows + [r], d, i); }
    if i :| OnlyDigest(rows + [r], d, i) { assert OnlyDigest(rows, d, i); }
  }

  lemma FoundMore(rows: seq<Round>, r: Round, d: Round, exact: seq<Round>)
    requires Found(rows, d, exact) && SameDigest(rows + [r], d, |rows|)
    ensures Found(rows + [r], d, exact + [r])
  {
    SameDigestLonger(rows, r, d);
    if exact == [] {
      assert OnlyDigest(rows + [r], d, |rows|);
    } else {
      var i :| 0 <= i < |rows| && SameDigest(rows, d, i);
      assert SameDigest(rows + [r], d, i);
    }
  }

  lemma RevisionsMore(rows: seq<Round>, r: Round, d: Round)
    ensures Revisions(rows + [r], d) == Revisions(rows, d) + (if SameRound(r, d) then [r] else [])
  {
    assert (rows + [r])[..|rows|] == rows;
  }

  function ExactRows(rows: seq<Round>, d: Round): seq<Round> { WithDigest(Revisions(rows, d), d.contentDigest) }

  lemma WithDigestMore(rows: seq<Round>, r: Round, digest: string)
    ensures WithDigest(rows + [r], digest) == WithDigest(rows, digest) + (if r.contentDigest == digest then [r] else [])
  {
    assert (rows + [r])[..|rows|] == rows;
  }

  lemma ExactMore(rows: seq<Round>, r: Round, d: Round, exact: seq<Round>)
    requires exact == ExactRows(rows, d)
    ensures ExactRows(rows + [r], d)
         == if SameRound(r, d) && r.contentDigest == d.contentDigest then exact + [r] else exact
  {
    RevisionsMore(rows, r, d);
    if SameRound(r, d) {
      WithDigestMore(Revisions(rows, d), r, d.contentDigest);
      if r.contentDigest != d.contentDigest { assert exact + [] == exact; }
    } else {
      assert Revisions(rows, d) + [] == Revisions(rows, d);
    }
  }

  lemma SameDigestLast(rows: seq<Round>, r: Round, d: Round)
    ensures SameDigest(rows + [r], d, |rows|) <==> SameRound(r, d) && r.contentDigest == d.contentDigest
  {
  }

  lemma NoExact(d: Round)
    ensures ExactRows([], d) == []
  {
    assert Revisions([], d) == [];
  }

  lemma {:induction false} DigestRows(rows: seq<Round>, d: Round)
    ensures Found(rows, d, ExactRows(rows, d))
  {
    if rows == [] {
      NoExact(d);
    } else {
      var front, r := rows[..|rows| - 1], rows[|rows| - 1];
      DigestRows(front, d);
      DigestNext(front, r, d, ExactRows(front, d));
      assert rows == front + [r];
    }
  }

  lemma DigestNext(front: seq<Round>, r: Round, d: Round, exact: seq<Round>)
    requires Found(front, d, exact) && exact == ExactRows(front, d)
    ensures Found(front + [r], d, ExactRows(front + [r], d))
  {
    ExactMore(front, r, d, exact);
    SameDigestLast(front, r, d);
    if SameDigest(front + [r], d, |front|) { FoundMore(front, r, d, exact); } else { FoundOther(front, r, d, exact); }
  }

  /** Row `i` is the first one the document's `recalculated_from` names. */
  predicate FirstNamed(rows: seq<Round>, d: Round, i: int)
    requires d.source.From?
  {
    && 0 <= i < |rows| && Named(rows, d, i) && forall j :: 0 <= j < i ==> !Named(rows, d, j)
  }

  predicate Named(rows: seq<Round>, d: Round, i: int)
    requires 0 <= i < |rows| && d.source.From?
  {
    OfRound(rows[i], d.project, d.source.identity) && rows[i].version == d.source.version
  }

  lemma {:induction false} OfVersionMore(rows: seq<Round>, r: Round, version: int)
    ensures OfVersion(rows + [r], version)
         == if OfVersion(rows, version).Some? then OfVersion(rows, version)
            else if r.version == version then Some(r) else None
  {
    if rows == [] {
      assert ([] + [r])[1..] == [];
    } else {
      assert (rows + [r])[1..] == rows[1..] + [r];
      OfVersionMore(rows[1..], r, version);
    }
  }

  lemma {:induction false} NamedRow(rows: seq<Round>, d: Round)
    requires d.source.From?
    ensures SourceRow(rows, d).Some? ==> exists i :: FirstNamed(rows, d, i) && rows[i] == SourceRow(rows, d).value
    ensures SourceRow(rows, d).None? ==> forall i :: !FirstNamed(rows, d, i)
    ensures SourceRow(rows, d).None? ==> forall i :: 0 <= i < |rows| ==> !Named(rows, d, i)
  {
    if rows != [] {
      var last := |rows| - 1;
      var front := rows[..last];
      NamedRow(front, d);
      forall i | 0 <= i < last ensures Named(front, d, i) <==> Named(rows, d, i) {}
      NamedSplit(rows, d);
      if SourceRow(front, d).Some? {
        var i :| FirstNamed(front, d, i) && front[i] == SourceRow(front, d).value;
        assert FirstNamed(rows, d, i);
      } else if Named(rows, d, last) {
        assert FirstNamed(rows, d, last);
      }
    }
  }

  lemma NamedSplit(rows: seq<Round>, d: Round)
    requires rows != [] && d.source.From?
    ensures var last := |rows| - 1;
            SourceRow(rows, d) == if SourceRow(rows[..last], d).Some? then SourceRow(rows[..last], d)
                                  else if Named(rows, d, last) then Some(rows[last]) else None
  {
    var last, x := |rows| - 1, d.(identity := d.source.identity);
    var front := Revisions(rows[..last], x);
    if SameRound(rows[last], x) {
      assert Revisions(rows, x) == front + [rows[last]];
      OfVersionMore(front, rows[last], d.source.version);
    } else {
      assert Revisions(rows, x) == front + [] == front;
    }
  }

  /** Row `i` counts for the late-response check: same Round and instrument content, and no
      `recalculated_from` field at all. */
  predicate Comparable(rows: seq<Round>, d: Round, i: int)
    requires 0 <= i < |rows|
  {
    && OfRound(rows[i], d.project, d.identity) && rows[i].source == Absent
    && rows[i].instrument.contentDigest == d.instrument.contentDigest
  }

  /** The comparable row of greatest version, the first of them. */
  predicate LastComparable(rows: seq<Round>, d: Round, i: int) {
    && 0 <= i < |rows| && Comparable(rows, d, i)
    && forall j :: 0 <= j < |rows| && Comparable(rows, d, j) ==>
         rows[j].version < rows[i].version || (rows[j].version == rows[i].version && i <= j)
  }

  /** The newest comparable row, if there is one. */
  ghost predicate NewestComparable(rows: seq<Round>, d: Round, newest: Option<Round>) {
    && (newest.None? ==> forall i :: 0 <= i < |rows| ==> !Comparable(rows, d, i))
    && (newest.Some? ==> exists i :: LastComparable(rows, d, i) && rows[i] == newest.value)
  }

  lemma ComparableMore(rows: seq<Round>, r: Round, d: Round, newest: Option<Round>)
    requires NewestComparable(rows, d, newest)
    ensures NewestComparable(rows + [r], d,
              if Comparable(rows + [r], d, |rows|) && (newest.None? || newest.value.version < r.version)
              then Some(r) else newest)
  {
    var all, last := rows + [r], |rows|;
    forall i | 0 <= i < last ensures Comparable(all, d, i) <==> Comparable(rows, d, i) {}
    if newest.Some? {
      var i :| LastComparable(rows, d, i) && rows[i] == newest.value;
      if Comparable(all, d, last) && newest.value.version < r.version {
        assert LastComparable(all, d, last);
      } else {
        assert LastComparable(all, d, i);
      }
    } else if Comparable(all, d, last) {
      assert LastComparable(all, d, last);
    }
  }

  function NewestOf(rows: seq<Round>, d: Round): Option<Round> { Newest(Preceding(Revisions(rows, d), d)) }

  lemma PrecedingMore(rows: seq<Round>, r: Round, d: Round)
    ensures Preceding(rows + [r], d) == Preceding(rows, d) + (if Precedes(r, d) then [r] else [])
  {
    assert (rows + [r])[..|rows|] == rows;
  }

  lemma NewestMore(rows: seq<Round>, r: Round)
    ensures var newest := Newest(rows);
            Newest(rows + [r]) == if newest.None? || newest.value.version < r.version then Some(r) else newest
  {
    assert (rows + [r])[..|rows|] == rows;
  }

  lemma ComparableLast(rows: seq<Round>, r: Round, d: Round)
    ensures Comparable(rows + [r], d, |rows|) <==> SameRound(r, d) && Precedes(r, d)
  {
  }

  lemma NewestOfMore(rows: seq<Round>, r: Round, d: Round, newest: Option<Round>)
    requires newest == NewestOf(rows, d)
    ensures NewestOf(rows + [r], d)
         == if SameRound(r, d) && Precedes(r, d) && (newest.None? || newest.value.version < r.version)
            then Some(r) else newest
  {
    var stored := Revisions(rows, d);
    var found := Preceding(stored, d);
    RevisionsMore(rows, r, d);
    if SameRound(r, d) {
      PrecedingMore(stored, r, d);
      if Precedes(r, d) {
        NewestMore(found, r);
      } else {
        assert found + [] == found;
      }
    } else {
      assert stored + [] == stored;
    }
  }

  lemma NoRows(d: Round)
    ensures NewestOf([], d) == None
  {
    assert Revisions([], d) == [];
    assert Preceding([], d) == [];
  }

  lemma {:induction false} ComparableRow(rows: seq<Round>, d: Round)
    ensures ComparableFound(rows, d)
  {
    if rows == [] {
      NoRows(d);
    } else {
      var front, r := rows[..|rows| - 1], rows[|rows| - 1];
      assert rows == front + [r];
      ComparableRow(front, d);
      ComparableNext(front, r, d);
    }
  }

  ghost predicate ComparableFound(rows: seq<Round>, d: Round) { NewestComparable(rows, d, NewestOf(rows, d)) }

  lemma ComparableNext(front: seq<Round>, r: Round, d: Round)
    requires ComparableFound(front, d)
    ensures ComparableFound(front + [r], d)
  {
    var newest := NewestOf(front, d);
    NewestOfMore(front, r, d, newest);
    ComparableLast(front, r, d);
    ComparableMore(front, r, d, newest);
  }

  // ---------------------------------------------------------------- the answer

  /** The version after those stored for the Round, or none when the newest of them is no version. */
  ghost predicate NextVersion(rows: seq<Round>, d: Round, version: int) {
    if forall i :: 0 <= i < |rows| ==> !OfRound(rows[i], d.project, d.identity) then version == 1
    else exists i :: 0 <= i < |rows| && OfRound(rows[i], d.project, d.identity) && rows[i].version >= 1
                     && version == rows[i].version + 1
                     && forall j :: 0 <= j < |rows| && OfRound(rows[j], d.project, d.identity) ==>
                          rows[j].version <= rows[i].version
  }

  ghost predicate SourceBinds(rows: seq<Round>, d: Round)
    requires d.source.From?
  {
    exists i :: FirstNamed(rows, d, i) && BindsSource(rows[i], d)
  }

  ghost predicate Drops(rows: seq<Round>, d: Round) {
    !d.source.From? && exists i :: LastComparable(rows, d, i) && !KeepsAll(rows[i], d)
  }

  lemma RefusedExactly(rows: seq<Round>, d: Round)
    ensures SourceRefused(rows, d) <==> d.source.From? && !SourceBinds(rows, d)
  {
    if d.source.From? { NamedRow(rows, d); }
  }

  lemma LostExactly(rows: seq<Round>, d: Round)
    ensures AnswersLost(rows, d) <==> Drops(rows, d)
  {
    ComparableRow(rows, d);
    var newest := NewestOf(rows, d);
    if newest.Some? { KeepsAnswersExactly(newest.value, d); }
  }

  /** The Round's row of greatest version, if it has any. */
  ghost predicate LatestRow(rows: seq<Round>, d: Round, latest: Option<Round>) {
    match latest
    case None => forall i :: 0 <= i < |rows| ==> !OfRound(rows[i], d.project, d.identity)
    case Some(r) =>
      && (exists i :: 0 <= i < |rows| && rows[i] == r && OfRound(rows[i], d.project, d.identity))
      && forall j :: 0 <= j < |rows| && OfRound(rows[j], d.project, d.identity) ==> rows[j].version <= r.version
  }

  lemma LatestStored(rows: seq<Round>, d: Round)
    ensures LatestRow(rows, d, Newest(Revisions(rows, d)))
  {
    forall i | 0 <= i < |rows|
      ensures OfRound(rows[i], d.project, d.identity) ==> rows[i] in Revisions(rows, d) {}
  }

  lemma VersionExactly(rows: seq<Round>, d: Round, latest: Option<Round>, version: int)
    requires LatestRow(rows, d, latest)
    ensures NextVersion(rows, d, version) <==>
              if latest.None? then version == 1 else latest.value.version >= 1 && version == latest.value.version + 1
  {
    if latest.Some? {
      var i :| 0 <= i < |rows| && rows[i] == latest.value && OfRound(rows[i], d.project, d.identity);
    }
  }

  /** What a capture answers: a known digest is the stored document or a conflict; then a recalculation must
      repeat the revision it names, a late response must keep every answer of the last comparable
      revision, and the document is stored under the next version. */
  lemma CaptureTells(rows: seq<Round>, d: Round)
    ensures var (next, answer) := Capture(rows, d);
            if !NoDigest(rows, d) then
              && next == rows
              && if exists i :: OnlyDigest(rows, d, i) && SameDocument(rows[i], d)
                 then answer.Existing? && SameDocument(answer.prior, d) && answer.prior in rows
                 else answer == Conflict
            else if d.source.From? && !SourceBinds(rows, d) then next == rows && answer == Integrity
            else if Drops(rows, d) then next == rows && answer == Conflict
            else if forall v :: !NextVersion(rows, d, v) then next == rows && answer == Integrity
            else answer.Stored? && NextVersion(rows, d, answer.result.version)
                 && answer.result == d.(version := answer.result.version) && next == rows + [answer.result]
  {
    DigestRows(rows, d);
    RefusedExactly(rows, d);
    LostExactly(rows, d);
    var latest := Newest(Revisions(rows, d));
    LatestStored(rows, d);
    forall v ensures NextVersion(rows, d, v) <==>
                       if latest.None? then v == 1 else latest.value.version >= 1 && v == latest.value.version + 1
    {
      VersionExactly(rows, d, latest, v);
    }
    assert NextVersion(rows, d, 1 + if latest.None? then 0 else latest.value.version) <==>
        latest.None? || latest.value.version >= 1;
  }
}
