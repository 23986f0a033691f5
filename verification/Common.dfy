/** Small vocabulary shared by every component: optional values, first-occurrence
    deduplication and the lexicographic order Python uses on strings. */
module Common {

  datatype Option<+T> = None | Some(value: T) {
    function GetOr(default: T): T {
      match this case None => default case Some(v) => v
    }
  }

  /** `dict.fromkeys` read back as a list: each element once, at its first position. */
  function Distinct<T(==,!new)>(s: seq<T>): (d: seq<T>)
    ensures forall x :: x in d <==> x in s
    ensures forall i, j :: 0 <= i < j < |d| ==> d[i] != d[j]
  {
    if s == [] then []
    else
      var front := Distinct(s[..|s| - 1]);
      var last := s[|s| - 1];
      if last in front then front else front + [last]
  }

  lemma DistinctOne<T(!new)>(x: T)
    ensures Distinct([x]) == [x]
  {
    assert [x][..0] == [];
  }

  /** Code-point order on strings. */
  predicate Less(a: string, b: string)
  {
    if b == "" then false
    else if a == "" then true
    else a[0] < b[0] || (a[0] == b[0] && Less(a[1..], b[1..]))
  }

  lemma {:induction false} LessTotal(a: string, b: string)
    ensures Less(a, b) || Less(b, a) || a == b
  {
    if a != "" && b != "" && a[0] == b[0] {
      LessTotal(a[1..], b[1..]);
      assert a == [a[0]] + a[1..] && b == [b[0]] + b[1..];
    }
  }

  lemma {:induction false} LessAsymmetric(a: string, b: string)
    ensures !(Less(a, b) && Less(b, a))
  {
    if a != "" && b != "" {
      LessAsymmetric(a[1..], b[1..]);
    }
  }

  lemma {:induction false} LessTransitive(a: string, b: string, c: string)
    requires Less(a, b) && Less(b, c)
    ensures Less(a, c)
  {
    if a != "" && a[0] == b[0] == c[0] {
      LessTransitive(a[1..], b[1..], c[1..]);
    }
  }

  function Union(sets: seq<set<string>>): set<string> {
    if sets == [] then {} else Union(sets[..|sets| - 1]) + sets[|sets| - 1]
  }

  lemma {:induction false} InUnion(sets: seq<set<string>>, c: string)
    ensures c in Union(sets) <==> exists k :: 0 <= k < |sets| && c in sets[k]
  {
    if sets != [] { InUnion(sets[..|sets| - 1], c); }
  }

  lemma UnionMore(sets: seq<set<string>>, more: set<string>)
    ensures Union(sets + [more]) == Union(sets) + more
  {
    assert (sets + [more])[..|sets|] == sets;
  }

  predicate IsMax(s: set<int>, m: int) {
    m in s && forall x :: x in s ==> x <= m
  }

  function MaxOf(s: set<int>): (m: int)
    requires s != {}
    ensures IsMax(s, m)
  {
    MaxExists(s);
    var m :| IsMax(s, m);
    m
  }

  lemma Pick<T>(s: set<T>) returns (x: T)
    requires s != {}
    ensures x in s
  {
    x :| x in s;
  }

  lemma {:induction false} MaxExists(s: set<int>)
    requires s != {}
    ensures exists m :: IsMax(s, m)
    decreases |s|
  {
    var x := Pick(s);
    var rest := s - {x};
    if rest == {} {
      assert s == {x};
      assert IsMax(s, x);
    } else {
      MaxExists(rest);
      var m :| IsMax(rest, m);
      assert s == rest + {x};
      assert IsMax(s, if m < x then x else m);
    }
  }
}
