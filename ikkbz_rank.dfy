/** The Ibaraki–Kameda functions of ikkbz_orderer.go over a rooted query
    tree: the rooted selectivity of a relation, the row factor T, the cost C
    and the rank R of a sequence of relations. */
module Ranks {
  import opened Ordering
  import opened RootedTrees

  /** `RootedSelectivity` once a root is set: 1 for the root, otherwise the
      selectivity of the edge to the parent. */
  function RootedSel(v: View, x: int): real
    requires Rooting(v) && 1 <= x <= v.t.n
  {
    if x == v.root then 1.0 else Sel(v.t, x, v.up[x])
  }

  /** What one relation contributes to the row count. */
  function Contribution(v: View, x: int): real
    requires Rooting(v) && 1 <= x <= v.t.n
  {
    RootedSel(v, x) * Card(v.t, x) as real
  }

  /** Every entry of s names a relation. */
  predicate Members(n: nat, s: seq<int>)
  {
    forall i :: 0 <= i < |s| ==> 1 <= s[i] <= n
  }

  /** The contributions of the relations of s, in order. */
  function Factors(v: View, s: seq<int>): seq<real>
    requires Rooting(v) && Members(v.t.n, s)
  {
    seq(|s|, i requires 0 <= i < |s| => Contribution(v, s[i]))
  }

  /** fs[0] * ... * fs[k - 1], multiplied in from the left. */
  function Product(fs: seq<real>, k: nat): real
    requires k <= |fs|
  {
    if k == 0 then 1.0 else Product(fs, k - 1) * fs[k - 1]
  }

  /** The sum of the products of the non-empty prefixes fs[..1], ..., fs[..k]:
      what the loop of `C` adds up, since each step adds `factor` times the
      contribution, which is the next prefix's product. */
  function Accumulated(fs: seq<real>, k: nat): real
    requires k <= |fs|
  {
    if k == 0 then 0.0 else Accumulated(fs, k - 1) + Product(fs, k)
  }

  /** T: the product of the contributions of the relations of s. */
  function T(v: View, s: seq<int>): real
    requires Rooting(v) && Members(v.t.n, s)
  {
    Total(Factors(v, s))
  }

  /** C: each relation adds its contribution scaled by the T of the relations
      before it. */
  function C(v: View, s: seq<int>): real
    requires Rooting(v) && Members(v.t.n, s)
  {
    Cost(Factors(v, s))
  }

  /** R: (T(s) - 1) / C(s), defined when the cost is not 0. */
  function Rank(v: View, s: seq<int>): real
    requires Rooting(v) && Members(v.t.n, s) && C(v, s) != 0.0
  {
    (T(v, s) - 1.0) / C(v, s)
  }

  /** One step of `Product`, with the shorter length named. */
  lemma ProductStep(fs: seq<real>, j: nat, m: nat)
    requires 0 < j <= |fs| && m == j - 1
    ensures Product(fs, j) == Product(fs, m) * fs[m]
  {
  }

  lemma AppendIndex(a: seq<real>, b: seq<real>, i: nat)
    requires i < |b|
    ensures (a + b)[|a| + i] == b[i]
  {
  }

  /** (x y) z = x (y z), with the products named. */
  lemma Regroup(x: real, y: real, z: real, xy: real, yz: real)
    requires xy == x * y && yz == y * z
    ensures xy * z == x * yz
  {
  }

  lemma Distribute(x: real, y: real, z: real, s: real)
    requires s == y + z
    ensures x * s == x * y + x * z
  {
  }

  lemma Times1(x: real, y: real)
    requires y == 1.0
    ensures x * y == x
  {
  }

  /** A prefix of a + b has the product of that prefix of a. */
  lemma {:induction false} ProductPrefix(a: seq<real>, b: seq<real>, k: nat)
    requires k <= |a|
    ensures Product(a + b, k) == Product(a, k)
  {
    if k > 0 {
      ProductPrefix(a, b, k - 1);
      assert (a + b)[k - 1] == a[k - 1];
    }
  }

  lemma {:induction false} AccumulatedPrefix(a: seq<real>, b: seq<real>, k: nat)
    requires k <= |a|
    ensures Accumulated(a + b, k) == Accumulated(a, k)
  {
    if k > 0 {
      AccumulatedPrefix(a, b, k - 1);
      ProductPrefix(a, b, k);
    }
  }

  /** The inductive step of `ProductConcat`, over c = a + b. */
  lemma ProductShift(c: seq<real>, j: nat, m: nat, b: seq<real>, k: nat, pa: real)
    requires 0 < j <= |c| && m == j - 1 && 0 < k <= |b| && c[m] == b[k - 1]
    requires Product(c, m) == pa * Product(b, k - 1)
    ensures Product(c, j) == pa * Product(b, k)
  {
    ProductStep(c, j, m);
    ProductStep(b, k, k - 1);
    Regroup(pa, Product(b, k - 1), b[k - 1], Product(c, m), Product(b, k));
  }

  /** The product over a followed by the first k factors of b, n in all. */
  lemma {:induction false} ProductConcat(a: seq<real>, b: seq<real>, k: nat, n: nat)
    requires k <= |b| && n == |a| + k
    ensures Product(a + b, n) == Product(a, |a|) * Product(b, k)
  {
    if k == 0 {
      ProductPrefix(a, b, |a|);
      Times1(Product(a, |a|), Product(b, 0));
    } else {
      ProductConcat(a, b, k - 1, n - 1);
      AppendIndex(a, b, k - 1);
      ProductShift(a + b, n, n - 1, b, k, Product(a, |a|));
    }
  }

  /** The inductive step of `AccumulatedConcat`, over c = a + b. */
  lemma AccumulatedShift(c: seq<real>, j: nat, m: nat, b: seq<real>, k: nat, aa: real, pa: real)
    requires 0 < j <= |c| && m == j - 1 && 0 < k <= |b|
    requires Product(c, j) == pa * Product(b, k)
    requires Accumulated(c, m) == aa + pa * Accumulated(b, k - 1)
    ensures Accumulated(c, j) == aa + pa * Accumulated(b, k)
  {
    Distribute(pa, Accumulated(b, k - 1), Product(b, k), Accumulated(b, k));
  }

  /** The accumulated cost over a followed by the first k factors of b: that
      of a, plus that of b scaled by the product of a. */
  lemma {:induction false} AccumulatedConcat(a: seq<real>, b: seq<real>, k: nat, n: nat)
    requires k <= |b| && n == |a| + k
    ensures Accumulated(a + b, n) == Accumulated(a, |a|) + Product(a, |a|) * Accumulated(b, k)
  {
    if k == 0 {
      AccumulatedPrefix(a, b, |a|);
      Times1(Product(a, |a|), Accumulated(b, 0) + 1.0);
    } else {
      AccumulatedConcat(a, b, k - 1, n - 1);
      ProductConcat(a, b, k, n);
      AccumulatedShift(a + b, n, n - 1, b, k, Accumulated(a, |a|), Product(a, |a|));
    }
  }

  /** The product of all of fs. */
  function Total(fs: seq<real>): real
  {
    Product(fs, |fs|)
  }

  /** The accumulated cost of all of fs. */
  function Cost(fs: seq<real>): real
  {
    Accumulated(fs, |fs|)
  }

  lemma TotalConcat(fa: seq<real>, fb: seq<real>)
    ensures Total(fa + fb) == Total(fa) * Total(fb)
  {
    ProductConcat(fa, fb, |fb|, |fa + fb|);
  }

  lemma CostConcat(fa: seq<real>, fb: seq<real>)
    ensures Cost(fa + fb) == Cost(fa) + Total(fa) * Cost(fb)
  {
    AccumulatedConcat(fa, fb, |fb|, |fa + fb|);
  }

  lemma FactorsConcat(v: View, a: seq<int>, b: seq<int>)
    requires Rooting(v) && Members(v.t.n, a) && Members(v.t.n, b)
    ensures Members(v.t.n, a + b)
    ensures Factors(v, a + b) == Factors(v, a) + Factors(v, b)
  {
  }

  /** T is multiplicative over concatenation. */
  lemma TConcat(v: View, a: seq<int>, b: seq<int>)
    requires Rooting(v) && Members(v.t.n, a) && Members(v.t.n, b)
    ensures Members(v.t.n, a + b)
    ensures T(v, a + b) == T(v, a) * T(v, b)
  {
    FactorsConcat(v, a, b);
    TotalConcat(Factors(v, a), Factors(v, b));
  }

  /** C(s1 s2) = C(s1) + T(s1) C(s2), the recurrence the cost function is
      documented by. */
  lemma CConcat(v: View, a: seq<int>, b: seq<int>)
    requires Rooting(v) && Members(v.t.n, a) && Members(v.t.n, b)
    ensures Members(v.t.n, a + b)
    ensures C(v, a + b) == C(v, a) + T(v, a) * C(v, b)
  {
    FactorsConcat(v, a, b);
    CostConcat(Factors(v, a), Factors(v, b));
  }

  /** With positive statistics every relation contributes a positive factor. */
  lemma ContributionPositive(v: View, x: int)
    requires Rooting(v) && 1 <= x <= v.t.n && Positive(v.t)
    ensures RootedSel(v, x) > 0.0 && Contribution(v, x) > 0.0
  {
    assert v.t.cards[x - 1] > 0;
    if x != v.root {
      var k := Slot(v.t, x, v.up[x]);
      assert v.t.sels[k] == -1.0 || v.t.sels[k] > 0.0;
    }
    MulPositiveInt(RootedSel(v, x), Card(v.t, x));
  }

  /** Positive factors have a positive product, and a positive accumulated
      cost once there is at least one. */
  lemma {:induction false} ProductPositive(fs: seq<real>, k: nat)
    requires k <= |fs| && forall i :: 0 <= i < |fs| ==> fs[i] > 0.0
    ensures Product(fs, k) > 0.0
    ensures k > 0 ==> Accumulated(fs, k) > 0.0
  {
    if k > 0 {
      ProductPositive(fs, k - 1);
      ProductStep(fs, k, k - 1);
      MulPositive(Product(fs, k - 1), fs[k - 1]);
    }
  }

  /** With positive statistics T is positive, and C is positive on every
      non-empty sequence, so its rank is defined. */
  lemma CostsPositive(v: View, s: seq<int>)
    requires Rooting(v) && Members(v.t.n, s) && Positive(v.t)
    ensures T(v, s) > 0.0
    ensures s != [] ==> C(v, s) > 0.0
  {
    var fs := Factors(v, s);
    forall i | 0 <= i < |fs| ensures fs[i] > 0.0 {
      ContributionPositive(v, s[i]);
    }
    ProductPositive(fs, |s|);
  }

  /** The query tree of the six-relation test schema rooted at relation 3:
      2 and 5 hang off 3, 1 and 4 off 2, and 6 off 5. */
  function TestView(): View
  {
    View(SixRelations(), [0, 2, 3, 0, 2, 3, 5], 3)
  }

  lemma TestViewRooted()
    ensures Rooting(TestView())
  {
  }

  /** Rooted selectivities the tests expect for root 3. */
  lemma RootedSelTest()
    ensures Rooting(TestView())
    ensures RootedSel(TestView(), 3) == 1.0
    ensures RootedSel(TestView(), 2) == 0.1
    ensures RootedSel(TestView(), 6) == 0.0001
  {
    TestViewRooted();
  }

  /** Row factors the tests expect for root 3. */
  lemma TTest()
    ensures Rooting(TestView()) && Members(6, [3]) && Members(6, [3, 5])
    ensures T(TestView(), [3]) == 100.0
    ensures T(TestView(), [3, 5]) == 50000.0
  {
    TestViewRooted();
    assert Factors(TestView(), [3]) == [100.0];
    assert Factors(TestView(), [3, 5]) == [100.0, 500.0];
  }

  /** The cost the tests expect for 3 then 5. */
  lemma CTest()
    ensures Rooting(TestView()) && Members(6, [3, 5])
    ensures C(TestView(), [3, 5]) == 50100.0
  {
    TestViewRooted();
    assert Factors(TestView(), [3, 5]) == [100.0, 500.0];
  }

  /** Ranks the tests expect: 0.99 for 3 alone, -1.5 for 4 alone and
      49999 / 50100 for 3 then 5. */
  lemma RTest()
    ensures Rooting(TestView()) && Members(6, [3]) && Members(6, [4]) && Members(6, [3, 5])
    ensures C(TestView(), [3]) != 0.0 && Rank(TestView(), [3]) == 0.99
    ensures C(TestView(), [4]) != 0.0 && Rank(TestView(), [4]) == -1.5
    ensures C(TestView(), [3, 5]) != 0.0 && Rank(TestView(), [3, 5]) == 49999.0 / 50100.0
  {
    TestViewRooted();
    assert Factors(TestView(), [3]) == [100.0];
    assert Factors(TestView(), [4]) == [0.4];
    assert Factors(TestView(), [3, 5]) == [100.0, 500.0];
  }

  /** Row factors and costs the tests expect for sequences with no row
      growth: 1 and 0 for the empty sequence, 1 and 1 for 1 alone and for 2
      alone. */
  lemma UnitTest()
    ensures Rooting(TestView()) && Members(6, []) && Members(6, [1]) && Members(6, [2])
    ensures T(TestView(), []) == 1.0 && C(TestView(), []) == 0.0
    ensures T(TestView(), [1]) == 1.0 && C(TestView(), [1]) == 1.0
    ensures T(TestView(), [2]) == 1.0 && C(TestView(), [2]) == 1.0
  {
    TestViewRooted();
    assert Factors(TestView(), []) == [];
    assert Factors(TestView(), [1]) == [1.0];
    assert Factors(TestView(), [2]) == [1.0];
  }

  /** Costs the tests expect for the two full orders 2 4 1 3 5 6 and
      2 1 4 3 5 6. */
  lemma CFullTest()
    ensures Rooting(TestView()) && Members(6, [2, 4, 1, 3, 5, 6]) && Members(6, [2, 1, 4, 3, 5, 6])
    ensures C(TestView(), [2, 4, 1, 3, 5, 6]) == 220041.8
    ensures C(TestView(), [2, 1, 4, 3, 5, 6]) == 220042.4
  {
    CFullFirst();
    CFullSecond();
  }

  /** The cost of 2 4 1 3 5 6. */
  lemma CFullFirst()
    ensures Rooting(TestView()) && Members(6, [2, 4, 1, 3, 5, 6])
    ensures C(TestView(), [2, 4, 1, 3, 5, 6]) == 220041.8
  {
    TestViewRooted();
    assert Factors(TestView(), [2, 4, 1, 3, 5, 6]) == [1.0, 0.4, 1.0, 100.0, 500.0, 10.0];
  }

  /** The cost of 2 1 4 3 5 6. */
  lemma CFullSecond()
    ensures Rooting(TestView()) && Members(6, [2, 1, 4, 3, 5, 6])
    ensures C(TestView(), [2, 1, 4, 3, 5, 6]) == 220042.4
  {
    TestViewRooted();
    assert Factors(TestView(), [2, 1, 4, 3, 5, 6]) == [1.0, 1.0, 0.4, 100.0, 500.0, 10.0];
  }

  /** Ranks the tests expect for single relations: 0 for 1 and for 2, 0.998
      for 5 and 0.9 for 6. */
  lemma RSingleTest()
    ensures Rooting(TestView()) && Members(6, [1]) && Members(6, [2]) && Members(6, [5]) && Members(6, [6])
    ensures C(TestView(), [1]) != 0.0 && Rank(TestView(), [1]) == 0.0
    ensures C(TestView(), [2]) != 0.0 && Rank(TestView(), [2]) == 0.0
    ensures C(TestView(), [5]) != 0.0 && Rank(TestView(), [5]) == 0.998
    ensures C(TestView(), [6]) != 0.0 && Rank(TestView(), [6]) == 0.9
  {
    TestViewRooted();
    assert Factors(TestView(), [1]) == [1.0];
    assert Factors(TestView(), [2]) == [1.0];
    assert Factors(TestView(), [5]) == [500.0];
    assert Factors(TestView(), [6]) == [10.0];
  }
}
