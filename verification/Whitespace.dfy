/** Fuzzy substring search over normalized whitespace (plugins/desktop_research/retention.py). */
module Whitespace {
  import opened Common

  predicate White(c: char) { c == ' ' || c == '\t' || c == '\r' || c == '\n' }

  function Shown(c: char): char { if White(c) then ' ' else c }

  /** The end of the maximal run of whitespace from `i` on. */
  function RunEnd(s: string, i: nat): (e: nat)
    requires i <= |s|
    ensures i <= e <= |s|
    ensures forall k :: i <= k < e ==> White(s[k])
    ensures e < |s| ==> !White(s[e])
    decreases |s| - i
  {
    if i < |s| && White(s[i]) then RunEnd(s, i + 1) else i
  }

  /** The end of the piece that starts at `i`: a maximal whitespace run or one other character. */
  function PieceEnd(s: string, i: nat): (e: nat)
    requires i < |s|
    ensures i < e <= |s|
  {
    if White(s[i]) then RunEnd(s, i) else i + 1
  }

  /** `re.sub("[ \t\r\n]+", " ", s)`: each maximal whitespace run becomes one space. */
  function Norm(s: string): string
    decreases |s|
  {
    if s == "" then "" else [Shown(s[0])] + Norm(s[PieceEnd(s, 0)..])
  }

  // ---------------------------------------------------------------- pieces

  /** `spans` cuts the text into its pieces, in order and without gaps. */
  ghost predicate Pieces(text: string, spans: seq<(nat, nat)>, upTo: nat) {
    && upTo <= |text|
    && (forall k :: 0 <= k < |spans| ==> spans[k].0 < |text| && spans[k].1 == PieceEnd(text, spans[k].0) <= upTo)
    && (forall k, n :: 0 <= k && n == k + 1 && n < |spans| ==> spans[n].0 == spans[k].1)
    && (if spans == [] then upTo == 0 else spans[0].0 == 0 && spans[|spans| - 1].1 == upTo)
  }

  lemma RunEndUnique(s: string, i: nat, e: nat)
    requires i <= e <= |s| && (forall k :: i <= k < e ==> White(s[k])) && (e < |s| ==> !White(s[e]))
    ensures RunEnd(s, i) == e
  {
    var r := RunEnd(s, i);
    assert r < |s| ==> !White(s[r]);
    assert e < |s| ==> !White(s[e]);
  }

  /** A slice that starts inside a piece sees the rest of that piece, as far as the slice goes. */
  lemma PieceOfSlice(text: string, a: nat, i: nat, j: nat)
    requires a <= i < j <= |text| && i < PieceEnd(text, a)
    ensures var b := PieceEnd(text, a);
            PieceEnd(text[i..j], 0) == (if b <= j then b else j) - i && Shown(text[i]) == Shown(text[a])
  {
    var b, slice := PieceEnd(text, a), text[i..j];
    if White(text[a]) {
      RunEndUnique(slice, 0, (if b <= j then b else j) - i);
    }
  }

  /** Normalizing a slice reads off the normalized characters of the pieces it touches. */
  lemma {:induction false} NormOfSlice(text: string, spans: seq<(nat, nat)>, shown: string, p: nat, q: nat, i: nat,
                                       j: nat)
    requires Pieces(text, spans, |text|) && |shown| == |spans|
    requires forall k :: 0 <= k < |spans| ==> shown[k] == Shown(text[spans[k].0])
    requires p <= q < |spans| && i < j <= |text|
    requires spans[p].0 <= i < spans[p].1 && spans[q].0 < j <= spans[q].1
    ensures Norm(text[i..j]) == shown[p..q + 1]
    decreases q - p
  {
    if p == q {
      SliceInPiece(text, spans[p].0, i, j);
      assert shown[p..q + 1] == [shown[p]];
    } else {
      SpansIncrease(text, spans, p, q);
      var b, n := spans[p].1, p + 1;
      assert spans[n].0 == b < j;
      NormOfSlice(text, spans, shown, n, q, b, j);
      SlicePastPiece(text, spans[p].0, i, j);
      assert shown[p..q + 1] == [shown[p]] + shown[n..q + 1];
    }
  }

  lemma SliceInPiece(text: string, a: nat, i: nat, j: nat)
    requires a <= i < j <= |text| && i < PieceEnd(text, a) && j <= PieceEnd(text, a)
    ensures Norm(text[i..j]) == [Shown(text[a])]
  {
    PieceOfSlice(text, a, i, j);
    assert text[i..j][j - i..] == "";
  }

  lemma SlicePastPiece(text: string, a: nat, i: nat, j: nat)
    requires a < |text| && a <= i < PieceEnd(text, a) < j <= |text|
    ensures Norm(text[i..j]) == [Shown(text[a])] + Norm(text[PieceEnd(text, a)..j])
  {
    PieceOfSlice(text, a, i, j);
    assert text[i..j][PieceEnd(text, a) - i..] == text[PieceEnd(text, a)..j];
  }

  lemma {:induction false} SpansIncrease(text: string, spans: seq<(nat, nat)>, p: nat, q: nat)
    requires Pieces(text, spans, |text|) && p < q < |spans|
    ensures spans[p].1 <= spans[q].0
    decreases q - p
  {
    var n := p + 1;
    assert spans[n].0 == spans[p].1;
    if n < q { SpansIncrease(text, spans, n, q); }
  }

  /** Every position lies in a piece: the first one, from `from` on, that ends after it. */
  lemma {:induction false} PieceFrom(text: string, spans: seq<(nat, nat)>, from: nat, i: nat) returns (k: nat)
    requires Pieces(text, spans, |text|) && i < |text| && from < |spans| && spans[from].0 <= i
    ensures k < |spans| && spans[k].0 <= i < spans[k].1
    decreases |spans| - from
  {
    if i < spans[from].1 {
      k := from;
    } else {
      var n := from + 1;
      assert n < |spans| ==> spans[n].0 == spans[from].1;
      k := PieceFrom(text, spans, n, i);
    }
  }

  lemma PieceAt(text: string, spans: seq<(nat, nat)>, i: nat) returns (k: nat)
    requires Pieces(text, spans, |text|) && i < |text|
    ensures k < |spans| && spans[k].0 <= i < spans[k].1
  {
    k := PieceFrom(text, spans, 0, i);
  }

  lemma PiecesShown(text: string, spans: seq<(nat, nat)>, shown: string)
    requires Pieces(text, spans, |text|) && |shown| == |spans|
    requires forall k :: 0 <= k < |spans| ==> shown[k] == Shown(text[spans[k].0])
    ensures Norm(text) == shown
  {
    if text == "" {
      assert spans == [];
    } else {
      var last := |spans| - 1;
      assert text[0..|text|] == text && shown[0..last + 1] == shown;
      assert spans[0].0 == 0 && spans[last].1 == |text|;
      NormOfSlice(text, spans, shown, 0, last, 0, |text|);
    }
  }

  // ---------------------------------------------------------------- the search

  predicate OccursAt(hay: string, needle: string, k: int) {
    0 <= k && k + |needle| <= |hay| && hay[k..k + |needle|] == needle
  }

  /** `str.find`. */
  method Find(hay: string, needle: string) returns (start: int)
    ensures start >= 0 ==> OccursAt(hay, needle, start) && forall k :: OccursAt(hay, needle, k) ==> start <= k
    ensures start < 0 ==> forall k :: !OccursAt(hay, needle, k)
  {
    start := 0;
    while start + |needle| <= |hay|
      invariant 0 <= start
      invariant forall k :: OccursAt(hay, needle, k) ==> start <= k
    {
      if hay[start..start + |needle|] == needle { return; }
      start := start + 1;
    }
    return -1;
  }

  /** The inner loop: the end of the whitespace that starts at `index`. */
  method SkipWhite(text: string, index: nat) returns (end: nat)
    requires index < |text| && White(text[index])
    ensures index < end == PieceEnd(text, index)
  {
    end := index + 1;
    while end < |text| && White(text[end])
      invariant index < end <= |text|
      invariant forall k :: index <= k < end ==> White(text[k])
    {
      end := end + 1;
    }
    RunEndUnique(text, index, end);
  }

  lemma PiecesMore(text: string, spans: seq<(nat, nat)>, index: nat, end: nat)
    requires Pieces(text, spans, index) && index < |text| && end == PieceEnd(text, index)
    ensures Pieces(text, spans + [(index, end)], end)
  {
  }

  /** The outer loop: normalized characters, and the span of text each stands for. */
  method Normalize(text: string) returns (normalized: string, spans: seq<(nat, nat)>)
    ensures normalized == Norm(text) && Pieces(text, spans, |text|) && |spans| == |normalized|
    ensures forall k :: 0 <= k < |spans| ==> normalized[k] == Shown(text[spans[k].0])
  {
    normalized, spans := "", [];
    var index := 0;
    while index < |text|
      invariant Pieces(text, spans, index) && |spans| == |normalized|
      invariant forall k :: 0 <= k < |spans| ==> normalized[k] == Shown(text[spans[k].0])
    {
      var character, end := text[index], index + 1;
      if White(character) {
        end := SkipWhite(text, index);
        character := ' ';
      }
      PiecesMore(text, spans, index, end);
      normalized := normalized + [character];
      spans := spans + [(index, end)];
      index := end;
    }
    PiecesShown(text, spans, normalized);
  }

  /** Positions `i..j` of the text are a match: only the allowed whitespace differs. */
  predicate Matches(text: string, excerpt: string, i: int, j: int) {
    0 <= i <= j <= |text| && Norm(text[i..j]) == Norm(excerpt)
  }

  /** A match at or before which no other starts, and no longer match starts there. */
  ghost predicate Leftmost(text: string, excerpt: string, lo: int, hi: int) {
    && Matches(text, excerpt, lo, hi)
    && (forall i, j :: Matches(text, excerpt, i, j) ==> lo <= i)
    && (forall j :: Matches(text, excerpt, lo, j) ==> j <= hi)
  }

  /** The normalized text with the span each of its characters stands for. */
  ghost predicate Normalized(text: string, spans: seq<(nat, nat)>, normalized: string) {
    && normalized == Norm(text) && Pieces(text, spans, |text|) && |spans| == |normalized|
    && forall k :: 0 <= k < |spans| ==> normalized[k] == Shown(text[spans[k].0])
  }

  lemma PiecesInOrder(text: string, spans: seq<(nat, nat)>, i: nat, j: nat) returns (p: nat, q: nat)
    requires Pieces(text, spans, |text|) && i < j <= |text|
    ensures p <= q < |spans| && spans[p].0 <= i < spans[p].1 && spans[q].0 < j <= spans[q].1
  {
    p := PieceAt(text, spans, i);
    q := PieceAt(text, spans, j - 1);
    if q < p { SpansIncrease(text, spans, q, p); }
  }

  lemma MatchNotEmpty(text: string, excerpt: string, i: int, j: int)
    requires Matches(text, excerpt, i, j) && Norm(excerpt) != ""
    ensures i < j
  {
    assert |text[i..j]| == j - i && Norm("") == "";
  }

  lemma MatchOccurs(text: string, spans: seq<(nat, nat)>, normalized: string, excerpt: string, i: int, j: int)
    returns (p: nat)
    requires Normalized(text, spans, normalized) && Matches(text, excerpt, i, j) && Norm(excerpt) != ""
    ensures p + |Norm(excerpt)| <= |spans| && OccursAt(normalized, Norm(excerpt), p)
    ensures spans[p].0 <= i < spans[p].1 && j <= spans[p + |Norm(excerpt)| - 1].1
  {
    MatchNotEmpty(text, excerpt, i, j);
    var q: nat;
    p, q := PiecesInOrder(text, spans, i, j);
    NormOfSlice(text, spans, normalized, p, q, i, j);
    assert |normalized[p..q + 1]| == q + 1 - p;
  }

  lemma NothingMatches(text: string, spans: seq<(nat, nat)>, normalized: string, excerpt: string)
    requires Normalized(text, spans, normalized) && Norm(excerpt) != ""
    requires forall k :: !OccursAt(normalized, Norm(excerpt), k)
    ensures forall i, j :: !Matches(text, excerpt, i, j)
  {
    forall i, j ensures !Matches(text, excerpt, i, j) {
      if Matches(text, excerpt, i, j) {
        var p := MatchOccurs(text, spans, normalized, excerpt, i, j);
      }
    }
  }

  lemma FoundMatches(text: string, spans: seq<(nat, nat)>, normalized: string, excerpt: string, start: nat, end: nat)
    requires Normalized(text, spans, normalized) && Norm(excerpt) != ""
    requires OccursAt(normalized, Norm(excerpt), start) && end == start + |Norm(excerpt)| - 1
    ensures Matches(text, excerpt, spans[start].0, spans[end].1)
  {
    if start < end { SpansIncrease(text, spans, start, end); }
    NormOfSlice(text, spans, normalized, start, end, spans[start].0, spans[end].1);
  }

  lemma FoundFirst(text: string, spans: seq<(nat, nat)>, normalized: string, excerpt: string, start: nat, end: nat,
                   i: int, j: int)
    requires Normalized(text, spans, normalized) && Norm(excerpt) != ""
    requires OccursAt(normalized, Norm(excerpt), start) && end == start + |Norm(excerpt)| - 1
    requires forall k :: OccursAt(normalized, Norm(excerpt), k) ==> start <= k
    requires Matches(text, excerpt, i, j)
    ensures spans[start].0 <= i && (i == spans[start].0 ==> j <= spans[end].1)
  {
    var p := MatchOccurs(text, spans, normalized, excerpt, i, j);
    assert start <= p;
    SpansOrdered(text, spans, start, p);
  }

  lemma SpansOrdered(text: string, spans: seq<(nat, nat)>, p: nat, q: nat)
    requires Pieces(text, spans, |text|) && p <= q < |spans|
    ensures p == q || spans[p].0 < spans[p].1 <= spans[q].0
  {
    if p < q { SpansIncrease(text, spans, p, q); }
  }

  lemma FoundLeftmost(text: string, spans: seq<(nat, nat)>, normalized: string, excerpt: string, start: nat, end: nat)
    requires Normalized(text, spans, normalized) && Norm(excerpt) != ""
    requires OccursAt(normalized, Norm(excerpt), start) && end == start + |Norm(excerpt)| - 1
    requires forall k :: OccursAt(normalized, Norm(excerpt), k) ==> start <= k
    ensures Leftmost(text, excerpt, spans[start].0, spans[end].1)
  {
    FoundMatches(text, spans, normalized, excerpt, start, end);
    forall i, j | Matches(text, excerpt, i, j)
      ensures spans[start].0 <= i && (i == spans[start].0 ==> j <= spans[end].1)
    {
      FoundFirst(text, spans, normalized, excerpt, start, end, i, j);
    }
  }

  /** Sound, complete and leftmost: the answer is the leftmost slice whose normalization is the
      excerpt's; there is none exactly when the excerpt is empty or no slice matches. */
  method MatchingWhitespaceSlice(text: string, excerpt: string) returns (slice: Option<string>)
    ensures slice.Some? ==> exists lo, hi :: Leftmost(text, excerpt, lo, hi) && slice.value == text[lo..hi]
    ensures slice.None? <==> excerpt == "" || forall i, j :: !Matches(text, excerpt, i, j)
  {
    var normalizedExcerpt := Norm(excerpt);
    if normalizedExcerpt == "" { return None; }
    var normalized, spans := Normalize(text);
    var start := Find(normalized, normalizedExcerpt);
    if start < 0 {
      NothingMatches(text, spans, normalized, excerpt);
      return None;
    }
    var end := start + |normalizedExcerpt| - 1;
    FoundLeftmost(text, spans, normalized, excerpt, start, end);
    return Some(text[spans[start].0..spans[end].1]);
  }
}
