/** Longest-processing-time-first packing of test modules (scripts/ci_test_shards.py). Costs
    are scaled to whole numbers. */
module Sharding {
  import opened Common

  type Cost = string -> int

  /** The recorded duration, or the default for a module without one. */
  function CostOf(durations: map<string, int>, default: int, m: string): int {
    if m in durations then durations[m] else default
  }

  /** Total cost of the modules in a bin. */
  function Load(c: Cost, members: seq<string>): int {
    if members == [] then 0 else Load(c, members[..|members| - 1]) + c(members[|members| - 1])
  }

  // ---------------------------------------------------------------- the order

  /** Sort key: highest cost first, then name. */
  predicate Earlier(c: Cost, a: string, b: string) {
    c(a) > c(b) || (c(a) == c(b) && Less(a, b))
  }

  function InsertByCost(c: Cost, x: string, sorted: seq<string>): seq<string> {
    if sorted != [] && Earlier(c, sorted[0], x) then [sorted[0]] + InsertByCost(c, x, sorted[1..]) else [x] + sorted
  }

  function ByCost(c: Cost, modules: seq<string>): seq<string> {
    if modules == [] then [] else InsertByCost(c, modules[0], ByCost(c, modules[1..]))
  }

  function InsertByName(x: string, sorted: seq<string>): seq<string> {
    if sorted != [] && Less(sorted[0], x) then [sorted[0]] + InsertByName(x, sorted[1..]) else [x] + sorted
  }

  function ByName(members: seq<string>): seq<string> {
    if members == [] then [] else InsertByName(members[0], ByName(members[1..]))
  }

  // ---------------------------------------------------------------- packing

  predicate IsLeast(c: Cost, bins: seq<seq<string>>, i: int) {
    0 <= i < |bins|
    && (forall j :: 0 <= j < |bins| ==> Load(c, bins[i]) <= Load(c, bins[j]))
    && (forall j :: 0 <= j < i ==> Load(c, bins[i]) < Load(c, bins[j]))
  }

  /** The first least loaded bin. */
  function Least(c: Cost, bins: seq<seq<string>>): (i: nat)
    requires bins != []
    ensures IsLeast(c, bins, i)
  {
    if |bins| == 1 then 0
    else
      var last := |bins| - 1;
      var i := Least(c, bins[..last]);
      assert forall j :: 0 <= j < last ==> bins[..last][j] == bins[j];
      if Load(c, bins[last]) < Load(c, bins[i]) then last else i
  }

  function Place(c: Cost, bins: seq<seq<string>>, m: string): (next: seq<seq<string>>)
    requires bins != []
    ensures |next| == |bins|
  {
    var i := Least(c, bins);
    bins[i := bins[i] + [m]]
  }

  function Pack(c: Cost, order: seq<string>, count: nat): (bins: seq<seq<string>>)
    requires count > 0
    ensures |bins| == count
  {
    if order == [] then seq(count, i => [])
    else Place(c, Pack(c, order[..|order| - 1], count), order[|order| - 1])
  }

  // ---------------------------------------------------------------- what a distribution is

  function Flat(bins: seq<seq<string>>): seq<string> {
    if bins == [] then [] else Flat(bins[..|bins| - 1]) + bins[|bins| - 1]
  }

  /** Every module is in exactly one bin, as often as it is listed. */
  predicate Distributes(bins: seq<seq<string>>, modules: seq<string>, count: nat) {
    |bins| == count && multiset(Flat(bins)) == multiset(modules)
  }

  predicate Within(c: Cost, bins: seq<seq<string>>, cap: int) {
    forall i :: 0 <= i < |bins| ==> Load(c, bins[i]) <= cap
  }

  // ---------------------------------------------------------------- loads add up

  lemma {:induction false} LoadAppend(c: Cost, a: seq<string>, b: seq<string>)
    ensures Load(c, a + b) == Load(c, a) + Load(c, b)
  {
    if b == [] {
      assert a + b == a;
    } else {
      LoadAppend(c, a, b[..|b| - 1]);
      assert (a + b)[..|a + b| - 1] == a + b[..|b| - 1];
    }
  }

  lemma LoadOne(c: Cost, m: string)
    ensures Load(c, [m]) == c(m)
  {
    assert [m][..0] == [];
  }

  lemma Cancel(a: multiset<string>, b: multiset<string>, x: multiset<string>)
    requires a + x == b + x
    ensures a == b
  {
    forall e: string ensures a[e] == b[e] {
      assert (a + x)[e] == a[e] + x[e] && (b + x)[e] == b[e] + x[e];
    }
  }

  /** The load depends only on which modules there are, not on their order. */
  lemma {:induction false} LoadOfMultiset(c: Cost, a: seq<string>, b: seq<string>)
    requires multiset(a) == multiset(b)
    ensures Load(c, a) == Load(c, b)
    decreases |a|
  {
    if a == [] {
      assert |b| == |multiset(b)| == 0;
    } else {
      var last := |a| - 1;
      var x := a[last];
      assert x in multiset(b);
      var k :| 0 <= k < |b| && b[k] == x;
      assert a == a[..last] + [x] && b == b[..k] + [x] + b[k + 1..];
      assert multiset(a) == multiset(a[..last]) + multiset{x};
      assert multiset(b) == multiset(b[..k] + b[k + 1..]) + multiset{x};
      Cancel(multiset(a[..last]), multiset(b[..k] + b[k + 1..]), multiset{x});
      LoadOfMultiset(c, a[..last], b[..k] + b[k + 1..]);
      LoadAppend(c, b[..k] + [x], b[k + 1..]);
      LoadAppend(c, b[..k], [x]);
      LoadAppend(c, b[..k], b[k + 1..]);
      LoadOne(c, x);
    }
  }

  /** Replacing one bin's content adds exactly what the bin gained. */
  lemma {:induction false} FlatUpdate(bins: seq<seq<string>>, i: nat, members: seq<string>)
    requires i < |bins|
    ensures multiset(Flat(bins[i := members])) + multiset(bins[i]) == multiset(Flat(bins)) + multiset(members)
  {
    var last := |bins| - 1;
    var next := bins[i := members];
    assert bins == bins[..last] + [bins[last]];
    if i < last {
      assert next[..last] == bins[..last][i := members];
      FlatUpdate(bins[..last], i, members);
      var r, l, u := multiset(Flat(next[..last])), multiset(bins[last]), multiset(bins[i]);
      assert multiset(Flat(next)) == r + l;
      assert (r + l) + u == (r + u) + l;
      assert bins[..last][i] == bins[i];
    } else {
      assert next[..last] == bins[..last];
      assert multiset(Flat(next)) == multiset(Flat(bins[..last])) + multiset(members);
    }
    assert multiset(Flat(bins)) == multiset(Flat(bins[..last])) + multiset(bins[last]);
  }

  lemma {:induction false} EmptyFlat(count: nat)
    ensures Flat(seq(count, i => [])) == []
  {
    if count > 0 {
      var bins: seq<seq<string>> := seq(count, i => []);
      assert bins[..count - 1] == seq(count - 1, i => []);
      EmptyFlat(count - 1);
    }
  }

  lemma AddedModule(now: multiset<string>, was: multiset<string>, own: multiset<string>, m: string)
    requires now + own == was + (own + multiset{m})
    ensures now == was + multiset{m}
  {
    assert was + (own + multiset{m}) == (was + multiset{m}) + own;
    Cancel(now, was + multiset{m}, own);
  }

  lemma PlaceDistributes(c: Cost, bins: seq<seq<string>>, order: seq<string>, m: string)
    requires bins != [] && multiset(Flat(bins)) == multiset(order)
    ensures multiset(Flat(Place(c, bins, m))) == multiset(order) + multiset{m}
  {
    var i := Least(c, bins);
    FlatUpdate(bins, i, bins[i] + [m]);
    assert multiset(bins[i] + [m]) == multiset(bins[i]) + multiset{m};
    AddedModule(multiset(Flat(Place(c, bins, m))), multiset(Flat(bins)), multiset(bins[i]), m);
  }

  lemma PackSnoc(c: Cost, front: seq<string>, m: string, count: nat)
    requires count > 0
    ensures Pack(c, front + [m], count) == Place(c, Pack(c, front, count), m)
  {
    assert (front + [m])[..|front|] == front;
  }

  lemma {:induction false} PackElements(c: Cost, order: seq<string>, count: nat)
    requires count > 0
    ensures multiset(Flat(Pack(c, order, count))) == multiset(order)
  {
    if order == [] {
      EmptyFlat(count);
    } else {
      var front, m := order[..|order| - 1], order[|order| - 1];
      assert order == front + [m];
      PackElements(c, front, count);
      PackSnoc(c, front, m, count);
      PlaceDistributes(c, Pack(c, front, count), front, m);
    }
  }

  /** Packing distributes exactly the given modules. */
  lemma PackDistributes(c: Cost, order: seq<string>, count: nat)
    requires count > 0
    ensures Distributes(Pack(c, order, count), order, count)
  {
    PackElements(c, order, count);
  }

  // ---------------------------------------------------------------- sums over bins

  lemma OneMore(n: nat, x: int)
    requires n > 0
    ensures n * x == (n - 1) * x + x
  {
  }

  lemma FlatLoad(c: Cost, bins: seq<seq<string>>)
    requires bins != []
    ensures Load(c, Flat(bins)) == Load(c, Flat(bins[..|bins| - 1])) + Load(c, bins[|bins| - 1])
  {
    LoadAppend(c, Flat(bins[..|bins| - 1]), bins[|bins| - 1]);
  }

  lemma {:induction false} TotalAtLeast(c: Cost, bins: seq<seq<string>>, low: int)
    requires forall i :: 0 <= i < |bins| ==> Load(c, bins[i]) >= low
    ensures Load(c, Flat(bins)) >= |bins| * low
  {
    if bins != [] {
      TotalAtLeast(c, bins[..|bins| - 1], low);
      FlatLoad(c, bins);
      OneMore(|bins|, low);
    }
  }

  lemma {:induction false} TotalAtMost(c: Cost, bins: seq<seq<string>>, cap: int)
    requires Within(c, bins, cap)
    ensures Load(c, Flat(bins)) <= |bins| * cap
  {
    if bins != [] {
      TotalAtMost(c, bins[..|bins| - 1], cap);
      FlatLoad(c, bins);
      OneMore(|bins|, cap);
    }
  }

  // ---------------------------------------------------------------- the last module of a bin

  lemma PackStep(c: Cost, order: seq<string>, count: nat)
    requires count > 0 && order != []
    ensures var last := |order| - 1;
            var bins := Pack(c, order[..last], count);
            var k := Least(c, bins);
            Pack(c, order, count) == bins[k := bins[k] + [order[last]]]
  {
  }

  /** Module `n` was the last one placed in bin `i`. */
  ghost predicate PlacedLast(c: Cost, order: seq<string>, count: nat, i: nat, n: nat)
    requires count > 0 && i < count && n < |order|
  {
    Least(c, Pack(c, order[..n], count)) == i
    && Pack(c, order, count)[i] == Pack(c, order[..n], count)[i] + [order[n]]
  }

  /** A bin that holds something got its last module when it was least loaded. */
  lemma {:induction false} LastPlaced(c: Cost, order: seq<string>, count: nat, i: nat) returns (n: nat)
    requires count > 0 && i < count && Pack(c, order, count)[i] != []
    ensures n < |order| && PlacedLast(c, order, count, i, n)
  {
    var last := |order| - 1;
    PackStep(c, order, count);
    if Least(c, Pack(c, order[..last], count)) == i {
      n := last;
    } else {
      n := LastPlaced(c, order[..last], count, i);
      PlacedEarlier(c, order, count, i, n);
    }
  }

  /** Modules that go elsewhere do not change which one was last. */
  lemma PlacedEarlier(c: Cost, order: seq<string>, count: nat, i: nat, n: nat)
    requires count > 0 && i < count && n < |order| - 1 && PlacedLast(c, order[..|order| - 1], count, i, n)
    requires Least(c, Pack(c, order[..|order| - 1], count)) != i
    ensures PlacedLast(c, order, count, i, n)
  {
    PackStep(c, order, count);
    assert order[..|order| - 1][..n] == order[..n];
  }

  lemma LastAdds(c: Cost, order: seq<string>, count: nat, i: nat, n: nat)
    requires count > 0 && i < count && n < |order| && PlacedLast(c, order, count, i, n)
    ensures Load(c, Pack(c, order, count)[i]) == Load(c, Pack(c, order[..n], count)[i]) + c(order[n])
  {
    LoadAppend(c, Pack(c, order[..n], count)[i], [order[n]]);
    LoadOne(c, order[n]);
  }

  /** The least load times the number of bins is at most the total. */
  lemma LeastTotal(c: Cost, order: seq<string>, count: nat)
    requires count > 0
    ensures var bins := Pack(c, order, count);
            count * Load(c, bins[Least(c, bins)]) <= Load(c, order)
  {
    var bins := Pack(c, order, count);
    TotalAtLeast(c, bins, Load(c, bins[Least(c, bins)]));
    PackDistributes(c, order, count);
    LoadOfMultiset(c, Flat(bins), order);
  }

  /** When a bin got its last module, every bin carried at least what it then carried. */
  lemma AtPlacement(c: Cost, order: seq<string>, count: nat, i: nat, n: nat) returns (load: int, p: int, before: int)
    requires count > 0 && i < count && n < |order| && PlacedLast(c, order, count, i, n)
    ensures load == Load(c, Pack(c, order, count)[i]) && p == c(order[n]) && before == Load(c, order[..n])
    ensures load - p == Load(c, Pack(c, order[..n], count)[i])
    ensures before >= count * (load - p)
  {
    load, p, before := Load(c, Pack(c, order, count)[i]), c(order[n]), Load(c, order[..n]);
    LastAdds(c, order, count, i, n);
    LeastTotal(c, order[..n], count);
  }

  lemma {:induction false} PrefixLoad(c: Cost, order: seq<string>, n: nat)
    requires n <= |order| && forall k :: 0 <= k < |order| ==> c(order[k]) >= 0
    ensures Load(c, order[..n]) <= Load(c, order)
  {
    if n == |order| {
      assert order[..n] == order;
    } else {
      var last := |order| - 1;
      PrefixLoad(c, order[..last], n);
      assert order[..last][..n] == order[..n];
    }
  }

  lemma StepLoad(c: Cost, order: seq<string>, n: nat)
    requires n < |order|
    ensures Load(c, order[..n + 1]) == Load(c, order[..n]) + c(order[n])
  {
    assert order[..n + 1][..n] == order[..n];
  }

  /** m times any load is at most the total plus (m-1) times the largest cost. */
  lemma ListBound(c: Cost, order: seq<string>, count: nat, i: nat, largest: int)
    requires count > 0 && i < count
    requires largest >= 0 && forall k :: 0 <= k < |order| ==> 0 <= c(order[k]) <= largest
    ensures count * Load(c, Pack(c, order, count)[i]) <= Load(c, order) + (count - 1) * largest
  {
    PrefixLoad(c, order, 0);
    if Pack(c, order, count)[i] != [] {
      var n := LastPlaced(c, order, count, i);
      PlacedBound(c, order, count, i, n, largest);
    } else {
      assert count * 0 == 0;
      Product(count - 1, largest);
    }
  }

  lemma Product(m: int, x: int)
    requires m >= 0 && x >= 0
    ensures m * x >= 0
  {
  }

  lemma PlacedBound(c: Cost, order: seq<string>, count: nat, i: nat, n: nat, largest: int)
    requires count > 0 && i < count && n < |order| && PlacedLast(c, order, count, i, n)
    requires (forall k :: 0 <= k < |order| ==> c(order[k]) >= 0) && c(order[n]) <= largest
    ensures count * Load(c, Pack(c, order, count)[i]) <= Load(c, order) + (count - 1) * largest
  {
    var load, p, before := AtPlacement(c, order, count, i, n);
    StepLoad(c, order, n);
    PrefixLoad(c, order, n + 1);
    BoundArithmetic(count, load, p, largest, before, Load(c, order));
  }

  lemma BoundArithmetic(m: int, load: int, p: int, largest: int, before: int, total: int)
    requires m >= 1 && 0 <= p <= largest && before >= m * (load - p) && before + p <= total
    ensures m * load <= total + (m - 1) * p <= total + (m - 1) * largest
  {
    assert m * (load - p) == m * load - m * p;
    assert (m - 1) * p <= (m - 1) * largest;
  }

  // ---------------------------------------------------------------- against any other distribution

  lemma {:induction false} FindBin(bins: seq<seq<string>>, x: string) returns (b: nat, k: nat)
    requires x in Flat(bins)
    ensures b < |bins| && k < |bins[b]| && bins[b][k] == x
  {
    var last := |bins| - 1;
    if x in bins[last] {
      b := last;
      k :| 0 <= k < |bins[last]| && bins[last][k] == x;
    } else {
      b, k := FindBin(bins[..last], x);
    }
  }

  lemma SplitAt(members: seq<string>, k: nat)
    requires k < |members|
    ensures members == members[..k] + ([members[k]] + members[k + 1..])
  {
  }

  lemma LoadWithout(c: Cost, members: seq<string>, k: nat)
    requires k < |members|
    ensures Load(c, members[..k] + members[k + 1..]) == Load(c, members) - c(members[k])
  {
    SplitAt(members, k);
    LoadAround(c, members[..k], members[k], members[k + 1..]);
  }

  lemma LoadAround(c: Cost, a: seq<string>, m: string, b: seq<string>)
    ensures Load(c, a + ([m] + b)) == Load(c, a + b) + c(m)
  {
    LoadAppend(c, a, [m] + b);
    LoadAppend(c, [m], b);
    LoadAppend(c, a, b);
    LoadOne(c, m);
  }

  lemma RemovedModule(now: multiset<string>, was: multiset<string>, own: multiset<string>, less: multiset<string>,
                      front: multiset<string>, x: string)
    requires now + own == was + less && own == less + multiset{x} && was == front + multiset{x}
    ensures now == front
  {
    assert now + (less + multiset{x}) == (front + multiset{x}) + less;
    assert (front + multiset{x}) + less == front + (less + multiset{x});
    Cancel(now, front, less + multiset{x});
  }

  lemma SplitMultiset(members: seq<string>, k: nat)
    requires k < |members|
    ensures multiset(members) == multiset(members[..k] + members[k + 1..]) + multiset{members[k]}
  {
    assert members == members[..k] + [members[k]] + members[k + 1..];
  }

  /** A distribution without one of its modules. */
  lemma Without(c: Cost, bins: seq<seq<string>>, front: seq<string>, x: string, count: nat, cap: int)
    returns (rest: seq<seq<string>>)
    requires Distributes(bins, front + [x], count) && Within(c, bins, cap) && c(x) >= 0
    ensures Distributes(rest, front, count) && Within(c, rest, cap)
  {
    assert x in multiset(front + [x]);
    var b, k := FindBin(bins, x);
    var own := bins[b];
    var less := own[..k] + own[k + 1..];
    rest := bins[b := less];
    LoadWithout(c, own, k);
    FlatUpdate(bins, b, less);
    SplitMultiset(own, k);
    RemovedModule(multiset(Flat(rest)), multiset(Flat(bins)), multiset(own), multiset(less), multiset(front), x);
  }

  /** Any distribution restricts to the modules placed first, without raising a load. */
  lemma {:induction false} Restricted(c: Cost, bins: seq<seq<string>>, order: seq<string>, n: nat, count: nat, cap: int)
    returns (rest: seq<seq<string>>)
    requires Distributes(bins, order, count) && Within(c, bins, cap) && n <= |order|
    requires forall k :: 0 <= k < |order| ==> c(order[k]) >= 0
    ensures Distributes(rest, order[..n], count) && Within(c, rest, cap)
    decreases |order|
  {
    if n == |order| {
      rest := bins;
      assert order[..n] == order;
    } else {
      var last := |order| - 1;
      assert order == order[..last] + [order[last]];
      var fewer := Without(c, bins, order[..last], order[last], count, cap);
      rest := Restricted(c, fewer, order[..last], n, count, cap);
      assert order[..last][..n] == order[..n];
    }
  }

  lemma {:induction false} LoadAtLeast(c: Cost, members: seq<string>, low: int)
    requires forall x :: x in members ==> c(x) >= low
    ensures Load(c, members) >= |members| * low
  {
    if members != [] {
      LoadAtLeast(c, members[..|members| - 1], low);
      OneMore(|members|, low);
    }
  }

  /** A module is heavy when no module of cost `p` fits beside it under the cap. */
  function Weight(c: Cost, cap: int, p: int): Cost {
    (x: string) => if c(x) > cap - p then 2 else 1
  }

  lemma LoadTwo(c: Cost, a: string, b: string)
    ensures Load(c, [a, b]) == c(a) + c(b)
  {
    assert [a, b][..1] == [a];
    LoadOne(c, a);
  }

  lemma TripleFloor(n: nat, p: int)
    requires p >= 0
    ensures n >= 3 ==> n * p >= 3 * p
  {
    if n >= 3 { assert n * p == (n - 3) * p + 3 * p; }
  }

  /** Under the cap a bin holds two light modules or one heavy one at most. */
  lemma BinWeightAtMost(c: Cost, members: seq<string>, cap: int, p: int)
    requires p >= 0 && 3 * p > cap && Load(c, members) <= cap && forall x :: x in members ==> c(x) >= p
    ensures Load(Weight(c, cap, p), members) <= 2
  {
    LoadAtLeast(c, members, p);
    TripleFloor(|members|, p);
    if |members| == 2 {
      assert members == [members[0], members[1]];
      LoadTwo(c, members[0], members[1]);
      LoadTwo(Weight(c, cap, p), members[0], members[1]);
    } else if |members| == 1 {
      assert members == [members[0]];
      LoadOne(Weight(c, cap, p), members[0]);
    }
  }

  /** A bin that cannot take a module of cost `p` holds a heavy module or two modules. */
  lemma BinWeightAtLeast(c: Cost, members: seq<string>, cap: int, p: int)
    requires cap >= p && Load(c, members) > cap - p
    ensures Load(Weight(c, cap, p), members) >= 2
  {
    var w := Weight(c, cap, p);
    LoadAtLeast(w, members, 1);
    if |members| == 1 {
      assert members == [members[0]];
      LoadOne(c, members[0]);
      LoadOne(w, members[0]);
    }
  }

  lemma {:induction false} MemberFits(c: Cost, members: seq<string>, k: nat)
    requires k < |members| && forall x :: x in members ==> c(x) >= 0
    ensures c(members[k]) <= Load(c, members)
  {
    LoadWithout(c, members, k);
    LoadAtLeast(c, members[..k] + members[k + 1..], 0);
  }

  lemma InFlat(bins: seq<seq<string>>, modules: seq<string>, count: nat, x: string)
    requires Distributes(bins, modules, count)
    ensures x in Flat(bins) <==> x in modules
  {
    assert x in multiset(Flat(bins)) <==> x in multiset(modules);
  }

  lemma {:induction false} BinInFlat(bins: seq<seq<string>>, b: nat, x: string)
    requires b < |bins| && x in bins[b]
    ensures x in Flat(bins)
  {
    if b < |bins| - 1 { BinInFlat(bins[..|bins| - 1], b, x); }
  }

  /** When every module so far costs more than a third of the cap, the least loaded bin still
      takes the next one: otherwise the weights of the bins would not add up. */
  lemma LargeModulesFit(c: Cost, order: seq<string>, count: nat, n: nat, i: nat, other: seq<seq<string>>, cap: int)
    requires count > 0 && n < |order| && i == Least(c, Pack(c, order[..n], count))
    requires forall k :: 0 <= k <= n ==> c(order[k]) >= c(order[n]) >= 0
    requires 3 * c(order[n]) > cap
    requires Distributes(other, order[..n + 1], count) && Within(c, other, cap)
    ensures Load(c, Pack(c, order[..n], count)[i]) + c(order[n]) <= cap
  {
    var p, before := c(order[n]), Pack(c, order[..n], count);
    var w, now := Weight(c, cap, p), order[..n + 1];
    forall b, x | 0 <= b < count && x in other[b] ensures c(x) >= p {
      BinInFlat(other, b, x);
      InFlat(other, now, count, x);
      var k :| 0 <= k < |now| && now[k] == x;
    }
    assert p <= cap by {
      assert now[n] == order[n];
      InFlat(other, now, count, order[n]);
      var b, k := FindBin(other, order[n]);
      MemberFits(c, other[b], k);
    }
    forall b | 0 <= b < count ensures Load(w, other[b]) <= 2 { BinWeightAtMost(c, other[b], cap, p); }
    TotalAtMost(w, other, 2);
    LoadOfMultiset(w, Flat(other), now);
    StepLoad(w, order, n);
    PackDistributes(c, order[..n], count);
    LoadOfMultiset(w, Flat(before), order[..n]);
    if Load(c, before[i]) > cap - p {
      forall b | 0 <= b < count ensures Load(w, before[b]) >= 2 { BinWeightAtLeast(c, before[b], cap, p); }
      TotalAtLeast(w, before, 2);
      assert false;
    }
  }

  predicate Descending(c: Cost, order: seq<string>) {
    forall a, b :: 0 <= a < b < |order| ==> c(order[a]) >= c(order[b])
  }

  /** The last module of the bin is small: the list bound suffices. */
  lemma SmallLast(c: Cost, order: seq<string>, count: nat, i: nat, n: nat, cap: int)
    requires count > 0 && i < count && n < |order| && PlacedLast(c, order, count, i, n)
    requires forall k :: 0 <= k < |order| ==> c(order[k]) >= 0
    requires 3 * c(order[n]) <= cap && Load(c, order) <= count * cap
    ensures 3 * count * Load(c, Pack(c, order, count)[i]) <= (4 * count - 1) * cap
  {
    PlacedBound(c, order, count, i, n, c(order[n]));
    ThirdArithmetic(count, Load(c, Pack(c, order, count)[i]), c(order[n]), cap);
  }

  lemma LargeLast(c: Cost, order: seq<string>, count: nat, i: nat, n: nat, other: seq<seq<string>>, cap: int)
    requires count > 0 && i < count && n < |order| && PlacedLast(c, order, count, i, n)
    requires Descending(c, order) && forall k :: 0 <= k < |order| ==> c(order[k]) >= 0
    requires Distributes(other, order, count) && Within(c, other, cap) && 3 * c(order[n]) > cap
    ensures Load(c, Pack(c, order, count)[i]) <= cap
  {
    var load, p, before := AtPlacement(c, order, count, i, n);
    var rest := Restricted(c, other, order, n + 1, count, cap);
    LargeModulesFit(c, order, count, n, i, rest, cap);
  }

  /** The packing bound: no load exceeds 4/3 - 1/(3m) times the largest load of any other
      distribution of the same modules over m bins. */
  lemma PackingBound(c: Cost, order: seq<string>, count: nat, i: nat, other: seq<seq<string>>, cap: int)
    requires count > 0 && i < count && Descending(c, order)
    requires forall k :: 0 <= k < |order| ==> c(order[k]) >= 0
    requires Distributes(other, order, count) && Within(c, other, cap)
    ensures 3 * count * Load(c, Pack(c, order, count)[i]) <= (4 * count - 1) * cap
  {
    PrefixLoad(c, order, 0);
    TotalAtMost(c, other, cap);
    LoadOfMultiset(c, Flat(other), order);
    CapNonNegative(count, cap, Load(c, order));
    if Pack(c, order, count)[i] == [] {
      RatioArithmetic(count, 0, 0, cap);
    } else {
      var n := LastPlaced(c, order, count, i);
      if 3 * c(order[n]) > cap {
        LargeLast(c, order, count, i, n, other, cap);
        RatioArithmetic(count, Load(c, Pack(c, order, count)[i]), cap, cap);
      } else {
        SmallLast(c, order, count, i, n, cap);
      }
    }
  }

  lemma NegativeProduct(m: int, x: int)
    requires m >= 1
    ensures x < 0 ==> m * x <= x
  {
    if x < 0 { assert m * x == (m - 1) * x + x; }
  }

  lemma CapNonNegative(m: int, cap: int, total: int)
    requires m >= 1 && 0 <= total <= m * cap
    ensures cap >= 0
  {
    NegativeProduct(m, cap);
  }

  lemma Spread(m: int, x: int)
    ensures 3 * m * x == 3 * (m * x)
    ensures (4 * m - 1) * x == 3 * (m * x) + (m - 1) * x
  {
    assert (4 * m - 1) * x == 4 * m * x - x;
  }

  lemma Scaled(m: int, x: int, y: int)
    requires m >= 0 && x <= y
    ensures m * x <= m * y
  {
    Product(m, y - x);
    assert m * (y - x) == m * y - m * x;
  }

  lemma RatioArithmetic(m: int, load: int, high: int, cap: int)
    requires m >= 1 && load <= high <= cap && cap >= 0
    ensures 3 * m * load <= (4 * m - 1) * cap
  {
    Spread(m, load);
    Spread(m, cap);
    Scaled(m, load, cap);
    Product(m - 1, cap);
  }

  lemma ThirdArithmetic(m: int, load: int, p: int, cap: int)
    requires m >= 1 && 3 * p <= cap && m * load <= m * cap + (m - 1) * p
    ensures 3 * m * load <= (4 * m - 1) * cap
  {
    Spread(m, load);
    Spread(m, cap);
    Scaled(m - 1, 3 * p, cap);
    assert (m - 1) * (3 * p) == 3 * ((m - 1) * p);
  }

  // ---------------------------------------------------------------- sorting

  lemma {:induction false} InsertByCostElements(c: Cost, x: string, s: seq<string>)
    ensures multiset(InsertByCost(c, x, s)) == multiset(s) + multiset{x}
  {
    if s != [] && Earlier(c, s[0], x) {
      InsertByCostElements(c, x, s[1..]);
      assert s == [s[0]] + s[1..];
    }
  }

  lemma InsertedCost(c: Cost, x: string, s: seq<string>, y: string)
    requires y in InsertByCost(c, x, s)
    ensures y == x || y in s
  {
    InsertByCostElements(c, x, s);
    assert y in multiset(InsertByCost(c, x, s));
  }

  lemma {:induction false} InsertByCostSorts(c: Cost, x: string, s: seq<string>)
    requires Descending(c, s)
    ensures Descending(c, InsertByCost(c, x, s))
  {
    if s != [] && Earlier(c, s[0], x) {
      InsertByCostSorts(c, x, s[1..]);
      var rest := InsertByCost(c, x, s[1..]);
      forall b | 0 <= b < |rest| ensures c(s[0]) >= c(rest[b]) { InsertedCost(c, x, s[1..], rest[b]); }
    }
  }

  lemma {:induction false} ByCostSorts(c: Cost, modules: seq<string>)
    ensures Descending(c, ByCost(c, modules)) && multiset(ByCost(c, modules)) == multiset(modules)
  {
    if modules != [] {
      ByCostSorts(c, modules[1..]);
      InsertByCostSorts(c, modules[0], ByCost(c, modules[1..]));
      InsertByCostElements(c, modules[0], ByCost(c, modules[1..]));
      assert modules == [modules[0]] + modules[1..];
    }
  }

  predicate NameSorted(s: seq<string>) {
    forall a, b :: 0 <= a < b < |s| ==> !Less(s[b], s[a])
  }

  lemma {:induction false} InsertByNameElements(x: string, s: seq<string>)
    ensures multiset(InsertByName(x, s)) == multiset(s) + multiset{x}
  {
    if s != [] && Less(s[0], x) {
      InsertByNameElements(x, s[1..]);
      assert s == [s[0]] + s[1..];
    }
  }

  lemma InsertedName(x: string, s: seq<string>, y: string)
    requires y in InsertByName(x, s)
    ensures y == x || y in s
  {
    InsertByNameElements(x, s);
    assert y in multiset(InsertByName(x, s));
  }

  lemma NotAfter(s: seq<string>, x: string, y: string)
    requires s != [] && NameSorted(s) && Less(s[0], x) && (y == x || y in s[1..])
    ensures !Less(y, s[0])
  {
    LessAsymmetric(s[0], x);
  }

  lemma {:induction false} InsertByNameSorts(x: string, s: seq<string>)
    requires NameSorted(s)
    ensures NameSorted(InsertByName(x, s))
  {
    if s != [] && Less(s[0], x) {
      InsertByNameSorts(x, s[1..]);
      var rest := InsertByName(x, s[1..]);
      forall b | 0 <= b < |rest| ensures !Less(rest[b], s[0]) {
        InsertedName(x, s[1..], rest[b]);
        NotAfter(s, x, rest[b]);
      }
    } else if s != [] {
      forall b | 0 <= b < |s| ensures !Less(s[b], x) { NotBefore(s, x, b); }
    }
  }

  lemma NotBefore(s: seq<string>, x: string, b: nat)
    requires b < |s| && NameSorted(s) && !Less(s[0], x)
    ensures !Less(s[b], x)
  {
    LessTotal(s[0], x);
    if b > 0 && s[0] != x && Less(s[b], x) { LessTransitive(s[b], x, s[0]); }
  }

  lemma {:induction false} ByNameSorts(members: seq<string>)
    ensures NameSorted(ByName(members)) && multiset(ByName(members)) == multiset(members)
  {
    if members != [] {
      ByNameSorts(members[1..]);
      InsertByNameSorts(members[0], ByName(members[1..]));
      InsertByNameElements(members[0], ByName(members[1..]));
      assert members == [members[0]] + members[1..];
    }
  }

  // ---------------------------------------------------------------- the whole script function

  function CostsOf(durations: map<string, int>, default: int): Cost {
    (m: string) => CostOf(durations, default, m)
  }

  /** The recorded durations of the modules that have one. */
  function Recorded(durations: map<string, int>, members: seq<string>): int {
    if members == [] then 0
    else Recorded(durations, members[1..]) + if members[0] in durations then durations[members[0]] else 0
  }

  function Unrecorded(durations: map<string, int>, members: seq<string>): nat {
    if members == [] then 0
    else Unrecorded(durations, members[1..]) + if members[0] in durations then 0 else 1
  }

  /** What is balanced is recorded time, with the default for each module that has none. */
  lemma {:induction false} LoadIsRecorded(durations: map<string, int>, default: int, members: seq<string>)
    ensures Load(CostsOf(durations, default), members)
         == Recorded(durations, members) + default * Unrecorded(durations, members)
  {
    if members != [] {
      var last := |members| - 1;
      LoadIsRecorded(durations, default, members[..last]);
      RecordedLast(durations, default, members);
    }
  }

  lemma {:induction false} RecordedLast(durations: map<string, int>, default: int, members: seq<string>)
    requires members != []
    ensures var front, last := members[..|members| - 1], members[|members| - 1];
            && Recorded(durations, members)
            == Recorded(durations, front) + (if last in durations then durations[last] else 0)
            && Unrecorded(durations, members)
            == Unrecorded(durations, front) + (if last in durations then 0 else 1)
  {
    if |members| > 1 {
      RecordedLast(durations, default, members[1..]);
      assert members[1..][..|members| - 2] == members[..|members| - 1][1..];
    }
  }

  function Sharded(c: Cost, modules: seq<string>, count: nat): (shards: seq<seq<string>>)
    requires count > 0
    ensures |shards| == count
  {
    var bins := Pack(c, ByCost(c, modules), count);
    seq(count, i requires 0 <= i < count => ByName(bins[i]))
  }

  lemma {:induction false} FlatSorted(bins: seq<seq<string>>, sorted: seq<seq<string>>)
    requires |sorted| == |bins| && forall i :: 0 <= i < |bins| ==> multiset(sorted[i]) == multiset(bins[i])
    ensures multiset(Flat(sorted)) == multiset(Flat(bins))
  {
    if bins != [] {
      FlatSorted(bins[..|bins| - 1], sorted[..|bins| - 1]);
    }
  }

  /** The shards hold exactly the given modules, each in name order. */
  lemma ShardsDistribute(c: Cost, modules: seq<string>, count: nat)
    requires count > 0
    ensures Distributes(Sharded(c, modules, count), modules, count)
    ensures forall i :: 0 <= i < count ==> NameSorted(Sharded(c, modules, count)[i])
  {
    var order := ByCost(c, modules);
    var bins := Pack(c, order, count);
    ByCostSorts(c, modules);
    PackDistributes(c, order, count);
    forall i | 0 <= i < count
      ensures NameSorted(ByName(bins[i])) && multiset(ByName(bins[i])) == multiset(bins[i])
    {
      ByNameSorts(bins[i]);
    }
    FlatSorted(bins, Sharded(c, modules, count));
  }

  lemma ShardLoad(c: Cost, modules: seq<string>, count: nat, i: nat)
    requires i < count
    ensures Load(c, Sharded(c, modules, count)[i]) == Load(c, Pack(c, ByCost(c, modules), count)[i])
  {
    var members := Pack(c, ByCost(c, modules), count)[i];
    ByNameSorts(members);
    LoadOfMultiset(c, ByName(members), members);
  }

  lemma OrderCosts(c: Cost, modules: seq<string>, low: int, high: int)
    requires forall m :: m in modules ==> low <= c(m) <= high
    ensures forall k :: 0 <= k < |ByCost(c, modules)| ==> low <= c(ByCost(c, modules)[k]) <= high
  {
    ByCostSorts(c, modules);
    forall k | 0 <= k < |ByCost(c, modules)| ensures ByCost(c, modules)[k] in modules {
      assert ByCost(c, modules)[k] in multiset(modules);
    }
  }

  /** m times the largest load is at most the total plus (m-1) times the largest cost. */
  lemma ShardsBalanced(c: Cost, modules: seq<string>, count: nat, i: nat, largest: int)
    requires i < count && largest >= 0 && forall m :: m in modules ==> 0 <= c(m) <= largest
    ensures count * Load(c, Sharded(c, modules, count)[i]) <= Load(c, modules) + (count - 1) * largest
  {
    ByCostSorts(c, modules);
    OrderCosts(c, modules, 0, largest);
    LoadOfMultiset(c, ByCost(c, modules), modules);
    ListBound(c, ByCost(c, modules), count, i, largest);
    ShardLoad(c, modules, count, i);
  }

  lemma {:induction false} LargestCost(c: Cost, modules: seq<string>) returns (largest: int)
    ensures largest >= 0 && forall m :: m in modules ==> c(m) <= largest
  {
    if modules == [] {
      largest := 0;
    } else {
      largest := LargestCost(c, modules[1..]);
      if largest < c(modules[0]) { largest := c(modules[0]); }
      assert modules == [modules[0]] + modules[1..];
    }
  }

  /** No shard is more than 4/3 - 1/(3m) times as long as the longest shard of any other
      distribution of the same modules. */
  lemma ShardsNearOptimal(c: Cost, modules: seq<string>, count: nat, i: nat, other: seq<seq<string>>, longest: int)
    requires i < count && forall m :: m in modules ==> c(m) >= 0
    requires Distributes(other, modules, count) && Within(c, other, longest)
    ensures 3 * count * Load(c, Sharded(c, modules, count)[i]) <= (4 * count - 1) * longest
  {
    var order := ByCost(c, modules);
    ByCostSorts(c, modules);
    var largest := LargestCost(c, modules);
    OrderCosts(c, modules, 0, largest);
    PackingBound(c, order, count, i, other, longest);
    ShardLoad(c, modules, count, i);
  }

  datatype Bin = Bin(total: int, members: seq<string>)

  ghost predicate Holds(c: Cost, bins: seq<Bin>, packed: seq<seq<string>>) {
    |bins| == |packed| && forall i :: 0 <= i < |bins| ==> bins[i] == Bin(Load(c, packed[i]), packed[i])
  }

  /** `min(range(count), key=...)`: the first bin of least total. */
  method FirstLeast(c: Cost, bins: array<Bin>, ghost packed: seq<seq<string>>) returns (index: nat)
    requires bins.Length > 0 && Holds(c, bins[..], packed)
    ensures index == Least(c, packed)
  {
    index := 0;
    for j := 1 to bins.Length
      invariant 0 <= index < j
      invariant forall k :: 0 <= k < j ==> bins[index].total <= bins[k].total
      invariant forall k :: 0 <= k < index ==> bins[index].total < bins[k].total
    {
      if bins[j].total < bins[index].total { index := j; }
    }
    assert forall k :: 0 <= k < |packed| ==> bins[..][k].total == Load(c, packed[k]);
    assert IsLeast(c, packed, index) && IsLeast(c, packed, Least(c, packed));
  }

  lemma PlacedHolds(c: Cost, bins: seq<Bin>, packed: seq<seq<string>>, m: string)
    requires packed != [] && Holds(c, bins, packed)
    ensures var i := Least(c, packed);
            Holds(c, bins[i := Bin(bins[i].total + c(m), bins[i].members + [m])], Place(c, packed, m))
  {
    var i := Least(c, packed);
    LoadAppend(c, packed[i], [m]);
    LoadOne(c, m);
  }

  /** The body of the loop over the modules. */
  method PlaceModule(c: Cost, bins: array<Bin>, m: string, ghost packed: seq<seq<string>>)
    requires bins.Length > 0 && Holds(c, bins[..], packed)
    modifies bins
    ensures Holds(c, bins[..], Place(c, packed, m))
  {
    ghost var was := bins[..];
    var index := FirstLeast(c, bins, packed);
    PlacedHolds(c, was, packed, m);
    bins[index] := Bin(bins[index].total + c(m), bins[index].members + [m]);
    assert bins[..] == was[index := Bin(was[index].total + c(m), was[index].members + [m])];
  }

  /** The loop over the modules, costliest first. */
  method PackAll(c: Cost, order: seq<string>, count: nat) returns (bins: array<Bin>)
    requires count > 0
    ensures fresh(bins) && Holds(c, bins[..], Pack(c, order, count))
  {
    bins := new Bin[count](_ => Bin(0, []));
    for k := 0 to |order|
      invariant Holds(c, bins[..], Pack(c, order[..k], count))
    {
      assert order[..k + 1][..k] == order[..k];
      PlaceModule(c, bins, order[k], Pack(c, order[..k], count));
    }
    assert order[..|order|] == order;
  }

  /** `shards`; None is the error of choosing among no bins. */
  method Shards(modules: seq<string>, count: nat, durations: map<string, int>, default: int)
    returns (r: Option<seq<seq<string>>>)
    ensures r.None? <==> count == 0 && modules != []
    ensures count > 0 ==> r == Some(Sharded(CostsOf(durations, default), modules, count))
  {
    var c := CostsOf(durations, default);
    if count == 0 { return if modules == [] then Some([]) else None; }
    var bins := PackAll(c, ByCost(c, modules), count);
    var result: seq<seq<string>> := [];
    for i := 0 to bins.Length
      invariant |result| == i && forall k :: 0 <= k < i ==> result[k] == ByName(bins[k].members)
    {
      result := result + [ByName(bins[i].members)];
    }
    ghost var packed := Pack(c, ByCost(c, modules), count);
    assert bins.Length == count;
    forall i | 0 <= i < count ensures result[i] == ByName(packed[i]) {
      assert bins[..][i] == Bin(Load(c, packed[i]), packed[i]);
    }
    assert result == Sharded(c, modules, count);
    return Some(result);
  }
}
