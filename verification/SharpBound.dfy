/** The packing bound cannot be improved for any number of shards: two modules of each cost from
    2m-1 down to m+1 and three of cost m (scripts/ci_test_shards.py). */
module SharpBound {
  import opened Common
  import opened Sharding

  /** The cost of module number `n`, longest first. */
  function Family(m: nat, n: nat): int {
    if n < 2 * m then 2 * m - 1 - n / 2 else m
  }

  predicate InFamily(c: Cost, order: seq<string>, m: nat) {
    m >= 1 && |order| == 2 * m + 1 && forall n :: 0 <= n < |order| ==> c(order[n]) == Family(m, n)
  }

  lemma FamilyPositive(m: nat, n: nat)
    requires m >= 1
    ensures Family(m, n) >= 1
  {
  }

  // ---------------------------------------------------------------- one module each

  function OneEach(order: seq<string>, n: nat, m: nat): (bins: seq<seq<string>>)
    requires n <= |order|
    ensures |bins| == m
  {
    seq(m, b requires 0 <= b < m => if b < n then [order[b]] else [])
  }

  lemma FirstEmpty(c: Cost, order: seq<string>, n: nat, m: nat)
    requires InFamily(c, order, m) && n < m
    ensures Least(c, OneEach(order, n, m)) == n
  {
    var bins := OneEach(order, n, m);
    var i := Least(c, bins);
    assert IsLeast(c, bins, i) && Load(c, bins[n]) == 0;
    if i < n {
      LoadOne(c, order[i]);
      FamilyPositive(m, i);
    }
  }

  lemma OneEachMore(order: seq<string>, n: nat, m: nat)
    requires n < |order| && n < m
    ensures OneEach(order, n, m)[n := OneEach(order, n, m)[n] + [order[n]]] == OneEach(order, n + 1, m)
  {
    assert OneEach(order, n, m)[n] + [order[n]] == [order[n]];
  }

  lemma PackNext(c: Cost, order: seq<string>, n: nat, m: nat)
    requires m > 0 && n < |order|
    ensures Pack(c, order[..n + 1], m) == Place(c, Pack(c, order[..n], m), order[n])
  {
    assert order[..n + 1] == order[..n] + [order[n]];
    PackSnoc(c, order[..n], order[n], m);
  }

  lemma PlacedAlone(c: Cost, order: seq<string>, n: nat, m: nat)
    requires InFamily(c, order, m) && n < m
    ensures Place(c, OneEach(order, n, m), order[n]) == OneEach(order, n + 1, m)
  {
    FirstEmpty(c, order, n, m);
    OneEachMore(order, n, m);
  }

  /** The first m modules go to different bins. */
  lemma {:induction false} FirstRound(c: Cost, order: seq<string>, n: nat, m: nat)
    requires InFamily(c, order, m) && n <= m
    ensures Pack(c, order[..n], m) == OneEach(order, n, m)
  {
    if n > 0 {
      FirstRound(c, order, n - 1, m);
      PackNext(c, order, n - 1, m);
      PlacedAlone(c, order, n - 1, m);
    }
  }

  // ---------------------------------------------------------------- two modules each

  /** Bin `b` still starts with module `b`, and no load exceeds 3m-1. */
  predicate SecondRound(c: Cost, order: seq<string>, m: nat, bins: seq<seq<string>>) {
    |bins| == m <= |order|
    && forall b :: 0 <= b < m ==> bins[b] != [] && bins[b][0] == order[b] && Load(c, bins[b]) <= 3 * m - 1
  }

  lemma {:induction false} AtLeast(bins: seq<seq<string>>, k: nat)
    requires k <= |bins| && forall b :: 0 <= b < |bins| ==> bins[b] != []
    requires forall b :: k <= b < |bins| ==> |bins[b]| >= 2
    ensures |Flat(bins)| >= |bins| + (|bins| - k)
  {
    if bins != [] {
      var last := |bins| - 1;
      AtLeast(bins[..last], if k <= last then k else last);
    }
  }

  lemma FlatLength(c: Cost, order: seq<string>, m: nat)
    requires m > 0
    ensures |Flat(Pack(c, order, m))| == |order|
  {
    PackElements(c, order, m);
    assert |multiset(Flat(Pack(c, order, m)))| == |multiset(order)|;
  }

  /** While module m+i is to be placed, one of the last i+1 bins holds a single module. */
  lemma SingleBin(c: Cost, order: seq<string>, m: nat, i: nat) returns (b: nat)
    requires m > 0 && i < m && m + i <= |order| && SecondRound(c, order, m, Pack(c, order[..m + i], m))
    ensures m - 1 - i <= b < m && Pack(c, order[..m + i], m)[b] == [order[b]]
  {
    var bins := Pack(c, order[..m + i], m);
    FlatLength(c, order[..m + i], m);
    if forall k :: m - 1 - i <= k < m ==> |bins[k]| >= 2 { AtLeast(bins, m - 1 - i); }
    b :| m - 1 - i <= b < m && |bins[b]| < 2;
    assert bins[b] == [bins[b][0]];
  }

  lemma Halves(m: nat, i: nat, b: nat)
    requires i < m && m - 1 - i <= b < m
    ensures Family(m, b) + Family(m, m + i) <= 3 * m - 1
  {
  }

  lemma SecondStarts(c: Cost, order: seq<string>, m: nat, bins: seq<seq<string>>)
    requires InFamily(c, order, m) && bins == OneEach(order, m, m)
    ensures SecondRound(c, order, m, bins)
  {
    forall b | 0 <= b < m ensures Load(c, [order[b]]) <= 3 * m - 1 { LoadOne(c, order[b]); }
  }

  lemma AddedOnce(c: Cost, order: seq<string>, m: nat, bins: seq<seq<string>>, k: nat, x: string)
    requires SecondRound(c, order, m, bins) && k < m && Load(c, bins[k]) + c(x) <= 3 * m - 1
    ensures SecondRound(c, order, m, bins[k := bins[k] + [x]])
  {
    LoadAppend(c, bins[k], [x]);
    LoadOne(c, x);
  }

  lemma LeastFits(c: Cost, bins: seq<seq<string>>, b: nat, x: string)
    requires b < |bins| && bins[b] == [x]
    ensures Load(c, bins[Least(c, bins)]) <= c(x)
  {
    LoadOne(c, x);
    assert IsLeast(c, bins, Least(c, bins));
  }

  lemma PairPlaced(c: Cost, order: seq<string>, m: nat, bins: seq<seq<string>>, b: nat, x: string)
    requires SecondRound(c, order, m, bins) && b < m && bins[b] == [order[b]] && c(order[b]) + c(x) <= 3 * m - 1
    ensures SecondRound(c, order, m, Place(c, bins, x))
  {
    LeastFits(c, bins, b, order[b]);
    AddedOnce(c, order, m, bins, Least(c, bins), x);
  }

  /** Some bin has a single module, short enough to share with module n. */
  lemma SharedBin(c: Cost, order: seq<string>, m: nat, n: nat, bins: seq<seq<string>>) returns (b: nat)
    requires InFamily(c, order, m) && m <= n < 2 * m && bins == Pack(c, order[..n], m) && SecondRound(c, order, m, bins)
    ensures b < m && bins[b] == [order[b]] && c(order[b]) + c(order[n]) <= 3 * m - 1
  {
    b := SingleBin(c, order, m, n - m);
    Halves(m, n - m, b);
  }

  lemma PairNext(c: Cost, order: seq<string>, m: nat, n: nat)
    requires InFamily(c, order, m) && m <= n < 2 * m && SecondRound(c, order, m, Pack(c, order[..n], m))
    ensures SecondRound(c, order, m, Pack(c, order[..n + 1], m))
  {
    var bins := Pack(c, order[..n], m);
    var b := SharedBin(c, order, m, n, bins);
    PairPlaced(c, order, m, bins, b, order[n]);
    PackNext(c, order, n, m);
  }

  lemma {:induction false} Pairing(c: Cost, order: seq<string>, m: nat, n: nat)
    requires InFamily(c, order, m) && m <= n <= 2 * m
    ensures SecondRound(c, order, m, Pack(c, order[..n], m))
  {
    if n == m {
      FirstRound(c, order, m, m);
      SecondStarts(c, order, m, OneEach(order, m, m));
    } else {
      Pairing(c, order, m, n - 1);
      PairNext(c, order, m, n - 1);
    }
  }

  // ---------------------------------------------------------------- all bins are full

  lemma Square(k: int, m: int)
    ensures (k - 1) * (4 * m - 1 - (k - 1)) + 2 * (2 * m - k) == k * (4 * m - 1 - k)
  {
  }

  lemma {:induction false} FamilyLoad(c: Cost, order: seq<string>, m: nat, k: nat)
    requires InFamily(c, order, m) && k <= m
    ensures Load(c, order[..2 * k]) == k * (4 * m - 1 - k)
  {
    if k > 0 {
      FamilyLoad(c, order, m, k - 1);
      StepLoad(c, order, 2 * k - 2);
      StepLoad(c, order, 2 * k - 1);
      Square(k, m);
    }
  }

  lemma {:induction false} AllFull(c: Cost, bins: seq<seq<string>>, cap: int)
    requires Within(c, bins, cap) && Load(c, Flat(bins)) == |bins| * cap
    ensures forall i :: 0 <= i < |bins| ==> Load(c, bins[i]) == cap
  {
    if bins != [] {
      var last := |bins| - 1;
      TotalAtMost(c, bins[..last], cap);
      FlatLoad(c, bins);
      OneMore(|bins|, cap);
      AllFull(c, bins[..last], cap);
    }
  }

  /** After 2m modules every bin carries 3m-1. */
  lemma FullBins(c: Cost, order: seq<string>, m: nat)
    requires InFamily(c, order, m)
    ensures forall b :: 0 <= b < m ==> Load(c, Pack(c, order[..2 * m], m)[b]) == 3 * m - 1
  {
    Pairing(c, order, m, 2 * m);
    FamilyLoad(c, order, m, m);
    assert 4 * m - 1 - m == 3 * m - 1;
    AllAtCap(c, order[..2 * m], m, 3 * m - 1);
  }

  lemma AllAtCap(c: Cost, order: seq<string>, m: nat, cap: int)
    requires m > 0 && Within(c, Pack(c, order, m), cap) && Load(c, order) == m * cap
    ensures forall b :: 0 <= b < m ==> Load(c, Pack(c, order, m)[b]) == cap
  {
    PackElements(c, order, m);
    LoadOfMultiset(c, Flat(Pack(c, order, m)), order);
    AllFull(c, Pack(c, order, m), cap);
  }

  /** The last module makes one bin 4m-1 long. */
  lemma LastModule(c: Cost, order: seq<string>, m: nat) returns (i: nat)
    requires InFamily(c, order, m)
    ensures i < m && Load(c, Pack(c, order, m)[i]) == 4 * m - 1
  {
    var bins, x := Pack(c, order[..2 * m], m), order[2 * m];
    i := Least(c, bins);
    FullBins(c, order, m);
    assert order == order[..2 * m] + [x];
    PackSnoc(c, order[..2 * m], x, m);
    LoadAppend(c, bins[i], [x]);
    LoadOne(c, x);
  }

  // ---------------------------------------------------------------- the best distribution

  /** The j-th longest of the one copy with the j-th shortest of the other. */
  function Pairs(order: seq<string>, n: nat, k: nat): (bins: seq<seq<string>>)
    requires k <= n && 2 * n <= |order|
    ensures |bins| == k
  {
    seq(k, j requires 0 <= j < k => [order[2 * j], order[2 * (n - 1 - j) + 1]])
  }

  function Evens(order: seq<string>, k: nat): multiset<string>
    requires 2 * k <= |order|
  {
    if k == 0 then multiset{} else Evens(order, k - 1) + multiset{order[2 * k - 2]}
  }

  function Odds(order: seq<string>, k: nat): multiset<string>
    requires 2 * k <= |order|
  {
    if k == 0 then multiset{} else Odds(order, k - 1) + multiset{order[2 * k - 1]}
  }

  lemma BothMore(e: multiset<string>, o: multiset<string>, x: string, y: string)
    ensures (e + multiset{x}) + (o + multiset{y}) == (e + o) + (multiset{x} + multiset{y})
  {
  }

  lemma TwoMore(s: seq<string>, x: string, y: string)
    ensures multiset(s + [x, y]) == multiset(s) + (multiset{x} + multiset{y})
  {
  }

  lemma {:induction false} EvensAndOdds(order: seq<string>, k: nat)
    requires 2 * k <= |order|
    ensures Evens(order, k) + Odds(order, k) == multiset(order[..2 * k])
  {
    if k > 0 {
      var x, y := order[2 * k - 2], order[2 * k - 1];
      EvensAndOdds(order, k - 1);
      BothMore(Evens(order, k - 1), Odds(order, k - 1), x, y);
      TwoMore(order[..2 * (k - 1)], x, y);
      assert order[..2 * k] == order[..2 * (k - 1)] + [x, y];
    }
  }

  lemma Exchanged(f: multiset<string>, o: multiset<string>, e: multiset<string>, q: multiset<string>,
                  x: string, y: string)
    requires f + (o + multiset{y}) == e + q
    ensures (f + (multiset{x} + multiset{y})) + o == (e + multiset{x}) + q
  {
    assert (f + (multiset{x} + multiset{y})) + o == (f + (o + multiset{y})) + multiset{x};
  }

  lemma PairAdded(flat: seq<string>, o: multiset<string>, e: multiset<string>, q: multiset<string>,
                  x: string, y: string)
    requires multiset(flat) + (o + multiset{y}) == e + q
    ensures multiset(flat + [x, y]) + o == (e + multiset{x}) + q
  {
    TwoMore(flat, x, y);
    Exchanged(multiset(flat), o, e, q, x, y);
  }

  lemma OnePairMore(order: seq<string>, n: nat, k: nat)
    requires 0 < k <= n && 2 * n <= |order|
    ensures Flat(Pairs(order, n, k)) == Flat(Pairs(order, n, k - 1)) + [order[2 * k - 2], order[2 * (n - k) + 1]]
  {
    assert Pairs(order, n, k)[..k - 1] == Pairs(order, n, k - 1);
  }

  lemma OneOddLess(order: seq<string>, n: nat, k: nat)
    requires 0 < k <= n && 2 * n <= |order|
    ensures Odds(order, n - (k - 1)) == Odds(order, n - k) + multiset{order[2 * (n - k) + 1]}
  {
  }

  lemma PairTaken(order: seq<string>, n: nat, k: nat, flat: seq<string>, odds: multiset<string>)
    requires 0 < k <= n && 2 * n <= |order| && flat == Flat(Pairs(order, n, k - 1))
    requires multiset(flat) + Odds(order, n - (k - 1)) == Evens(order, k - 1) + odds
    ensures multiset(Flat(Pairs(order, n, k))) + Odds(order, n - k) == Evens(order, k) + odds
  {
    OneOddLess(order, n, k);
    OnePairMore(order, n, k);
    PairAdded(flat, Odds(order, n - k), Evens(order, k - 1), odds, order[2 * k - 2], order[2 * (n - k) + 1]);
  }

  lemma NoPairs(order: seq<string>, n: nat)
    requires 2 * n <= |order|
    ensures multiset(Flat(Pairs(order, n, 0))) == multiset{} == Evens(order, 0)
  {
  }

  lemma {:induction false} PairsTake(order: seq<string>, n: nat, k: nat)
    requires k <= n && 2 * n <= |order|
    ensures multiset(Flat(Pairs(order, n, k))) + Odds(order, n - k) == Evens(order, k) + Odds(order, n)
  {
    if k == 0 {
      NoPairs(order, n);
    } else {
      PairsTake(order, n, k - 1);
      PairTaken(order, n, k, Flat(Pairs(order, n, k - 1)), Odds(order, n));
    }
  }

  function Best(order: seq<string>, m: nat): (bins: seq<seq<string>>)
    requires m >= 1 && |order| == 2 * m + 1
    ensures |bins| == m
  {
    Pairs(order, m - 1, m - 1) + [order[2 * m - 2..]]
  }

  lemma PairsDistribute(order: seq<string>, n: nat)
    requires 2 * n <= |order|
    ensures multiset(Flat(Pairs(order, n, n))) == multiset(order[..2 * n])
  {
    PairsTake(order, n, n);
    EvensAndOdds(order, n);
  }

  lemma BestDistributes(order: seq<string>, m: nat)
    requires m >= 1 && |order| == 2 * m + 1
    ensures Distributes(Best(order, m), order, m)
  {
    var bins := Best(order, m);
    assert bins[..m - 1] == Pairs(order, m - 1, m - 1);
    PairsDistribute(order, m - 1);
    assert order == order[..2 * m - 2] + order[2 * m - 2..];
  }

  lemma LoadThree(c: Cost, x: string, y: string, z: string)
    ensures Load(c, [x, y, z]) == c(x) + c(y) + c(z)
  {
    assert [x, y, z][..2] == [x, y];
    LoadTwo(c, x, y);
  }

  lemma BestWithin(c: Cost, order: seq<string>, m: nat)
    requires InFamily(c, order, m)
    ensures Within(c, Best(order, m), 3 * m)
  {
    var bins := Best(order, m);
    forall j | 0 <= j < m ensures Load(c, bins[j]) == 3 * m {
      if j < m - 1 {
        LoadTwo(c, order[2 * j], order[2 * (m - 2 - j) + 1]);
      } else {
        assert bins[j] == [order[2 * m - 2], order[2 * m - 1], order[2 * m]];
        LoadThree(c, order[2 * m - 2], order[2 * m - 1], order[2 * m]);
      }
    }
  }

  // ---------------------------------------------------------------- modules with these costs

  function Name(n: nat): (name: string)
    ensures |name| == n
  {
    seq(n, i => 'a')
  }

  function Names(m: nat): (names: seq<string>)
    ensures |names| == 2 * m + 1
  {
    seq(2 * m + 1, n requires 0 <= n => Name(n))
  }

  function FamilyCost(m: nat): Cost {
    (x: string) => Family(m, |x|)
  }

  lemma {:induction false} ShorterFirst(a: nat, b: nat)
    requires a < b
    ensures Less(Name(a), Name(b))
  {
    if a > 0 {
      ShorterFirst(a - 1, b - 1);
      assert Name(a)[1..] == Name(a - 1) && Name(b)[1..] == Name(b - 1);
    }
  }

  predicate InOrder(c: Cost, order: seq<string>) {
    forall a, b :: 0 <= a < b < |order| ==> Earlier(c, order[a], order[b])
  }

  /** Sorting keeps a list that is in order. */
  lemma {:induction false} AlreadySorted(c: Cost, order: seq<string>)
    requires InOrder(c, order)
    ensures ByCost(c, order) == order
  {
    if order != [] {
      AlreadySorted(c, order[1..]);
      if |order| > 1 {
        assert Earlier(c, order[0], order[1]);
        LessAsymmetric(order[0], order[1]);
      }
    }
  }

  lemma NamesInOrder(m: nat)
    requires m >= 1
    ensures InOrder(FamilyCost(m), Names(m)) && InFamily(FamilyCost(m), Names(m), m)
  {
    var c, order := FamilyCost(m), Names(m);
    forall a, b | 0 <= a < b < |order| ensures Earlier(c, order[a], order[b]) {
      ShorterFirst(a, b);
      assert Family(m, a) >= Family(m, b);
    }
  }

  lemma NamesDiffer(m: nat)
    requires m >= 1
    ensures forall x :: x in Names(m) ==> FamilyCost(m)(x) >= 1
    ensures forall a, b :: 0 <= a < b < |Names(m)| ==> Names(m)[a] != Names(m)[b]
  {
    forall a, b | 0 <= a < b < |Names(m)| ensures Names(m)[a] != Names(m)[b] {
      assert |Names(m)[a]| == a && |Names(m)[b]| == b;
    }
  }

  lemma LongestShard(c: Cost, modules: seq<string>, m: nat) returns (i: nat)
    requires InFamily(c, modules, m) && InOrder(c, modules)
    ensures i < m && Load(c, Sharded(c, modules, m)[i]) == 4 * m - 1
  {
    AlreadySorted(c, modules);
    i := LastModule(c, modules, m);
    ShardLoad(c, modules, m, i);
  }

  /** For every number of shards some modules reach the bound: the longest shard is 4m-1 long where
      another distribution needs 3m. */
  lemma BoundIsReached(m: nat) returns (c: Cost, modules: seq<string>, other: seq<seq<string>>, i: nat)
    requires m >= 1
    ensures forall x :: x in modules ==> c(x) >= 1
    ensures forall a, b :: 0 <= a < b < |modules| ==> modules[a] != modules[b]
    ensures Distributes(other, modules, m) && Within(c, other, 3 * m)
    ensures i < m && Load(c, Sharded(c, modules, m)[i]) == 4 * m - 1
    ensures 3 * m * Load(c, Sharded(c, modules, m)[i]) == (4 * m - 1) * (3 * m)
  {
    c, modules := FamilyCost(m), Names(m);
    NamesInOrder(m);
    NamesDiffer(m);
    BestDistributes(modules, m);
    BestWithin(c, modules, m);
    other := Best(modules, m);
    i := LongestShard(c, modules, m);
  }
}
