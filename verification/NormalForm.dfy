/** What normalizing whitespace makes of a text: its normal form, which is the only one
    (plugins/desktop_research/retention.py:13, 57-58). */
module NormalForm {
  import opened Whitespace

  /** The four characters of the pattern. */
  predicate Blank(c: char) { c in {' ', '\t', '\r', '\n'} }

  /** The text without its blanks. */
  function Ink(s: string): string {
    if s == "" then "" else (if Blank(s[0]) then "" else [s[0]]) + Ink(s[1..])
  }

  /** Around each character of the ink: whether blanks stand there, from before the first to after the last. */
  function Gaps(s: string): (g: seq<bool>)
    ensures |g| == |Ink(s)| + 1
  {
    if s == "" then [false]
    else
      var rest := Gaps(s[1..]);
      if Blank(s[0]) then [true] + rest[1..] else [false] + rest
  }

  /** The only blanks are single spaces. */
  predicate SingleSpaced(s: string) {
    forall i :: 0 <= i < |s| && Blank(s[i]) ==> s[i] == ' ' && (i + 1 < |s| ==> !Blank(s[i + 1]))
  }

  lemma BlankIsWhite(c: char)
    ensures Blank(c) <==> White(c)
  {
  }

  lemma {:induction false} BlanksFirst(s: string, n: nat)
    requires n <= |s| && forall i :: 0 <= i < n ==> Blank(s[i])
    ensures Ink(s) == Ink(s[n..]) && Gaps(s)[1..] == Gaps(s[n..])[1..]
    ensures n > 0 ==> Gaps(s)[0]
  {
    if n > 0 {
      BlanksFirst(s[1..], n - 1);
      assert s[1..][n - 1..] == s[n..];
    } else {
      assert s[0..] == s;
    }
  }

  lemma FirstGap(s: string)
    requires s != "" && !Blank(s[0])
    ensures !Gaps(s)[0]
  {
  }

  lemma OneSpace(rest: string)
    ensures var s := [' '] + rest;
            Ink(s) == Ink(rest) && Gaps(s) == [true] + Gaps(rest)[1..]
  {
    assert ([' '] + rest)[1..] == rest;
  }

  lemma OneLetter(c: char, rest: string)
    requires !Blank(c)
    ensures var s := [c] + rest;
            Ink(s) == [c] + Ink(rest) && Gaps(s) == [false] + Gaps(rest)
  {
    assert ([c] + rest)[1..] == rest;
  }

  lemma SpacedFront(c: char, rest: string)
    requires SingleSpaced(rest) && (Blank(c) ==> c == ' ' && (rest != "" ==> !Blank(rest[0])))
    ensures SingleSpaced([c] + rest)
  {
    var s := [c] + rest;
    forall i | 0 <= i < |s| && Blank(s[i]) ensures s[i] == ' ' && (i + 1 < |s| ==> !Blank(s[i + 1])) {
      if i > 0 { assert s[i] == rest[i - 1]; }
    }
  }

  lemma NormFront(s: string)
    ensures Norm(s) == "" <==> s == ""
    ensures s != "" && !White(s[0]) ==> Norm(s)[0] == s[0]
  {
  }

  /** Normalizing keeps every other character and every place with blanks, and leaves single spaces there. */
  lemma {:induction false} NormTells(s: string)
    ensures SingleSpaced(Norm(s)) && Ink(Norm(s)) == Ink(s) && Gaps(Norm(s)) == Gaps(s)
    decreases |s|
  {
    if s != "" {
      var n := PieceEnd(s, 0);
      var rest := s[n..];
      NormTells(rest);
      NormFront(rest);
      BlankIsWhite(s[0]);
      if White(s[0]) {
        SpaceTells(s, n);
      } else {
        assert rest == s[1..];
        OneLetter(s[0], Norm(rest));
        SpacedFront(s[0], Norm(rest));
      }
    }
  }

  lemma SpaceTells(s: string, n: nat)
    requires s != "" && White(s[0]) && n == PieceEnd(s, 0)
    requires SingleSpaced(Norm(s[n..])) && Ink(Norm(s[n..])) == Ink(s[n..]) && Gaps(Norm(s[n..])) == Gaps(s[n..])
    ensures SingleSpaced(Norm(s)) && Ink(Norm(s)) == Ink(s) && Gaps(Norm(s)) == Gaps(s)
  {
    var rest := s[n..];
    forall i | 0 <= i < n ensures Blank(s[i]) { BlankIsWhite(s[i]); }
    BlanksFirst(s, n);
    OneSpace(Norm(rest));
    if rest != "" { BlankIsWhite(rest[0]); }
    NormFront(rest);
    SpacedFront(' ', Norm(rest));
    assert Gaps(s) == [true] + Gaps(s)[1..];
  }

  lemma NotEmpty(a: string)
    requires a != ""
    ensures Ink(a) != "" || Gaps(a)[0]
  {
  }

  /** A single space is followed by ink or by the end. */
  lemma AfterSpace(a: string)
    requires a != "" && SingleSpaced(a) && Blank(a[0])
    ensures !Gaps(a[1..])[0]
  {
    if |a| > 1 { FirstGap(a[1..]); }
  }

  lemma SpacedRest(a: string)
    requires a != "" && SingleSpaced(a)
    ensures SingleSpaced(a[1..])
  {
  }

  /** The first gap says what the first character is, and what is left. */
  lemma FirstCharacter(a: string)
    requires a != "" && SingleSpaced(a)
    ensures Gaps(a)[0] ==> a[0] == ' ' && Ink(a[1..]) == Ink(a) && Gaps(a[1..]) == [false] + Gaps(a)[1..]
    ensures !Gaps(a)[0] ==> Ink(a) == [a[0]] + Ink(a[1..]) && Gaps(a[1..]) == Gaps(a)[1..]
  {
    if Blank(a[0]) {
      AfterSpace(a);
      assert Gaps(a[1..]) == [false] + Gaps(a[1..])[1..];
    }
  }

  /** Ink and gaps determine a single-spaced text. */
  lemma {:induction false} NormalFormUnique(a: string, b: string)
    requires SingleSpaced(a) && SingleSpaced(b) && Ink(a) == Ink(b) && Gaps(a) == Gaps(b)
    ensures a == b
  {
    if a == "" || b == "" {
      if a != "" { NotEmpty(a); }
      if b != "" { NotEmpty(b); }
    } else {
      SpacedRest(a);
      SpacedRest(b);
      SameRest(a, b);
      NormalFormUnique(a[1..], b[1..]);
      assert a == [a[0]] + a[1..] && b == [b[0]] + b[1..];
    }
  }

  lemma SameRest(a: string, b: string)
    requires a != "" && b != "" && SingleSpaced(a) && SingleSpaced(b) && Ink(a) == Ink(b) && Gaps(a) == Gaps(b)
    ensures a[0] == b[0] && Ink(a[1..]) == Ink(b[1..]) && Gaps(a[1..]) == Gaps(b[1..])
  {
    FirstCharacter(a);
    FirstCharacter(b);
    if !Gaps(a)[0] {
      assert Ink(a)[0] == a[0] && Ink(b)[0] == b[0];
      assert Ink(a)[1..] == Ink(a[1..]) && Ink(b)[1..] == Ink(b[1..]);
    }
  }
}
