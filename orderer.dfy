/** The cost model of orderer.go: an orderer over relations 1..n keeps one
    cardinality per relation and a triangular pair table whose unset slots
    hold -1, read as selectivity 1 and "not adjacent". */
module Ordering {
  import opened Util
  import Schema
  import Permutations

  /** `indexPair`: slot of the unordered pair {a, b} of 1-based relation IDs
      (the 0-based `pair` of the two IDs minus one); fails on a self pair. */
  function IndexPair(a: int, b: int): (r: Option<int>)
    requires a >= 1 && b >= 1
    ensures r.None? <==> a == b
  {
    if a == b then None else Some(Schema.Pair(a - 1, b - 1))
  }

  /** The slot is symmetric, equals (hi-1)(hi-2)/2 + (lo-1) for lo < hi, and
      lies in a table of n(n-1)/2 slots. */
  lemma IndexPairSlot(a: int, b: int, n: nat)
    requires 1 <= a <= n && 1 <= b <= n && a != b
    ensures IndexPair(a, b) == IndexPair(b, a)
    ensures var lo := if a < b then a else b;
            var hi := if a < b then b else a;
            IndexPair(a, b).value == (hi - 1) * (hi - 2) / 2 + (lo - 1)
    ensures 0 <= IndexPair(a, b).value < Schema.Tri(n) == n * (n - 1) / 2
  {
    Schema.PairInRange(a - 1, b - 1, n);
    Schema.PairClosedForm(a - 1, b - 1);
  }

  lemma IndexPairInjective(a: int, b: int, c: int, d: int, n: nat)
    requires 1 <= a <= n && 1 <= b <= n && a != b
    requires 1 <= c <= n && 1 <= d <= n && c != d
    requires IndexPair(a, b) == IndexPair(c, d)
    ensures (a == c && b == d) || (a == d && b == c)
  {
    Schema.PairBelow(a - 1, b - 1, n);
    Schema.PairBelow(c - 1, d - 1, n);
    var lo1, hi1 := if a < b then a else b, if a < b then b else a;
    var lo2, hi2 := if c < d then c else d, if c < d then d else c;
    assert Schema.Pair(lo1 - 1, hi1 - 1) == Schema.Pair(a - 1, b - 1);
    assert Schema.Pair(lo2 - 1, hi2 - 1) == Schema.Pair(c - 1, d - 1);
    Schema.PairInjective(lo1 - 1, hi1 - 1, lo2 - 1, hi2 - 1);
  }

  /** The orderer's state as a value. */
  datatype Tables = Tables(n: nat, cards: seq<int>, sels: seq<real>)

  ghost predicate Wf(t: Tables)
  {
    |t.cards| == t.n && |t.sels| == Schema.Tri(t.n)
  }

  predicate ValidPair(t: Tables, a: int, b: int)
  {
    1 <= a <= t.n && 1 <= b <= t.n && a != b
  }

  function Slot(t: Tables, a: int, b: int): (k: nat)
    requires Wf(t) && ValidPair(t, a, b)
    ensures k < |t.sels|
  {
    Schema.PairBelow(a - 1, b - 1, t.n);
    IndexPair(a, b).value
  }

  /** `GetSelectivity`: the stored value, or 1 for the -1 sentinel. */
  function Sel(t: Tables, a: int, b: int): real
    requires Wf(t) && ValidPair(t, a, b)
  {
    var v := t.sels[Slot(t, a, b)];
    if v == -1.0 then 1.0 else v
  }

  /** `Adjacent`: a predicate was recorded for the pair. */
  predicate Adj(t: Tables, a: int, b: int)
    requires Wf(t) && ValidPair(t, a, b)
  {
    t.sels[Slot(t, a, b)] != -1.0
  }

  function Card(t: Tables, a: int): int
    requires Wf(t) && 1 <= a <= t.n
  {
    t.cards[a - 1]
  }

  /** `NewOrderer(n)`: zero cardinalities, every pair slot unset. */
  function Fresh(n: nat): (t: Tables)
    ensures Wf(t)
  {
    Tables(n, seq(n, _ => 0), seq(Schema.Tri(n), _ => -1.0))
  }

  /** `AddPredicate`: an unset slot starts from 1, then the slot is multiplied by `sel`. */
  function AddPred(t: Tables, a: int, b: int, sel: real): (t': Tables)
    requires Wf(t) && ValidPair(t, a, b)
    ensures Wf(t')
  {
    var k := Slot(t, a, b);
    t.(sels := t.sels[k := (if t.sels[k] == -1.0 then 1.0 else t.sels[k]) * sel])
  }

  /** `SetCardinality`: overwrites relation a's entry. */
  function SetCard(t: Tables, a: int, c: int): (t': Tables)
    requires Wf(t) && 1 <= a <= t.n
    ensures Wf(t')
  {
    t.(cards := t.cards[a - 1 := c])
  }

  /** A fresh orderer reads selectivity 1 and "not adjacent" for every pair. */
  lemma FreshDefaults(n: nat, a: int, b: int)
    requires ValidPair(Fresh(n), a, b)
    ensures Sel(Fresh(n), a, b) == 1.0 && !Adj(Fresh(n), a, b)
  {
  }

  /** Adding a predicate touches the pair's own slot only: every other pair
      reads the same selectivity and adjacency as before. */
  lemma AddPredOthersUnchanged(t: Tables, a: int, b: int, sel: real, c: int, d: int)
    requires Wf(t) && ValidPair(t, a, b) && ValidPair(t, c, d)
    requires !((a == c && b == d) || (a == d && b == c))
    ensures Sel(AddPred(t, a, b, sel), c, d) == Sel(t, c, d)
    ensures Adj(AddPred(t, a, b, sel), c, d) == Adj(t, c, d)
  {
    if Slot(t, a, b) == Slot(t, c, d) {
      IndexPairInjective(a, b, c, d, t.n);
    }
  }

  /** A recorded predicate on a pair of IDs. */
  datatype Pred = Pred(x: int, y: int, sel: real)

  predicate SamePair(p: Pred, a: int, b: int)
  {
    (p.x == a && p.y == b) || (p.x == b && p.y == a)
  }

  ghost predicate PredsValid(t: Tables, ps: seq<Pred>)
  {
    forall i :: 0 <= i < |ps| ==> ValidPair(t, ps[i].x, ps[i].y) && ps[i].sel > 0.0
  }

  /** The orderer after `AddPredicate` has been called with each of `ps` in turn. */
  function ApplyAll(t: Tables, ps: seq<Pred>): (t': Tables)
    requires Wf(t) && PredsValid(t, ps)
    ensures Wf(t') && t'.n == t.n
  {
    if ps == [] then t
    else
      var last := ps[|ps| - 1];
      AddPred(ApplyAll(t, ps[..|ps| - 1]), last.x, last.y, last.sel)
  }

  /** Product of the selectivities recorded for {a, b}. */
  function PairProduct(ps: seq<Pred>, a: int, b: int): real
  {
    if ps == [] then 1.0
    else
      var last := ps[|ps| - 1];
      PairProduct(ps[..|ps| - 1], a, b) * (if SamePair(last, a, b) then last.sel else 1.0)
  }

  lemma {:induction false} PairProductPositive(ps: seq<Pred>, a: int, b: int)
    requires forall i :: 0 <= i < |ps| ==> ps[i].sel > 0.0
    ensures PairProduct(ps, a, b) > 0.0
  {
    if ps != [] {
      var init := ps[..|ps| - 1];
      assert forall i :: 0 <= i < |init| ==> init[i] == ps[i];
      PairProductPositive(init, a, b);
      var f := if SamePair(ps[|ps| - 1], a, b) then ps[|ps| - 1].sel else 1.0;
      assert f > 0.0;
      assert PairProduct(init, a, b) * f > 0.0;
    }
  }

  /** Adding a positive selectivity to a pair whose selectivity is positive
      multiplies it and marks the pair adjacent. */
  lemma AddPredSame(t: Tables, a: int, b: int, sel: real, c: int, d: int)
    requires Wf(t) && ValidPair(t, a, b) && ValidPair(t, c, d)
    requires (a == c && b == d) || (a == d && b == c)
    requires Sel(t, c, d) > 0.0 && sel > 0.0
    ensures Sel(AddPred(t, a, b, sel), c, d) == Sel(t, c, d) * sel
    ensures Adj(AddPred(t, a, b, sel), c, d)
  {
    Schema.PairBelow(a - 1, b - 1, t.n);
    assert Slot(t, a, b) == Slot(t, c, d);
    MulPositive(Sel(t, c, d), sel);
  }

  lemma MulPositive(a: real, b: real)
    requires a > 0.0 && b > 0.0
    ensures a * b > 0.0
  {
  }

  /** Whether some predicate of `ps` names the pair {a, b}. */
  predicate Mentioned(ps: seq<Pred>, a: int, b: int)
  {
    exists i :: 0 <= i < |ps| && SamePair(ps[i], a, b)
  }

  lemma MentionedSplit(ps: seq<Pred>, a: int, b: int)
    requires ps != []
    ensures Mentioned(ps, a, b) <==> Mentioned(ps[..|ps| - 1], a, b) || SamePair(ps[|ps| - 1], a, b)
  {
    var init := ps[..|ps| - 1];
    if Mentioned(init, a, b) {
      var i :| 0 <= i < |init| && SamePair(init[i], a, b);
      assert ps[i] == init[i];
    }
    if Mentioned(ps, a, b) {
      var i :| 0 <= i < |ps| && SamePair(ps[i], a, b);
      if i < |init| {
        assert init[i] == ps[i];
      }
    }
  }

  lemma ApplyAllLast(t0: Tables, ps: seq<Pred>)
    requires Wf(t0) && PredsValid(t0, ps) && ps != []
    ensures PredsValid(t0, ps[..|ps| - 1])
    ensures ValidPair(ApplyAll(t0, ps[..|ps| - 1]), ps[|ps| - 1].x, ps[|ps| - 1].y)
    ensures ps[|ps| - 1].sel > 0.0
    ensures ApplyAll(t0, ps) ==
              AddPred(ApplyAll(t0, ps[..|ps| - 1]), ps[|ps| - 1].x, ps[|ps| - 1].y, ps[|ps| - 1].sel)
  {
    var init := ps[..|ps| - 1];
    assert forall i :: 0 <= i < |init| ==> init[i] == ps[i];
  }

  /** One more predicate: if the pair read the product of the earlier
      predicates, it reads the product of all of them afterwards. */
  lemma PredStep(t: Tables, ps: seq<Pred>, a: int, b: int)
    requires ps != [] && Wf(t) && ValidPair(t, a, b)
    requires ValidPair(t, ps[|ps| - 1].x, ps[|ps| - 1].y) && ps[|ps| - 1].sel > 0.0
    requires Sel(t, a, b) == PairProduct(ps[..|ps| - 1], a, b) > 0.0
    ensures Sel(AddPred(t, ps[|ps| - 1].x, ps[|ps| - 1].y, ps[|ps| - 1].sel), a, b) == PairProduct(ps, a, b)
  {
    var last := ps[|ps| - 1];
    if SamePair(last, a, b) {
      AddPredSame(t, last.x, last.y, last.sel, a, b);
    } else {
      AddPredOthersUnchanged(t, last.x, last.y, last.sel, a, b);
    }
  }

  /** Starting from a pair with no predicate yet, its selectivity after adding
      `ps` is the product of all predicates added for it. */
  lemma {:induction false} PredicatesMultiply(t0: Tables, ps: seq<Pred>, a: int, b: int)
    requires Wf(t0) && PredsValid(t0, ps) && ValidPair(t0, a, b) && !Adj(t0, a, b)
    ensures Sel(ApplyAll(t0, ps), a, b) == PairProduct(ps, a, b)
  {
    if ps != [] {
      var init := ps[..|ps| - 1];
      ApplyAllLast(t0, ps);
      PredicatesMultiply(t0, init, a, b);
      PairProductPositive(init, a, b);
      PredStep(ApplyAll(t0, init), ps, a, b);
    }
  }

  /** With positive selectivities, the pair is adjacent exactly when some
      predicate names it. */
  lemma {:induction false} PredicatesAdjacent(t0: Tables, ps: seq<Pred>, a: int, b: int)
    requires Wf(t0) && PredsValid(t0, ps) && ValidPair(t0, a, b) && !Adj(t0, a, b)
    ensures Adj(ApplyAll(t0, ps), a, b) <==> Mentioned(ps, a, b)
  {
    if ps != [] {
      var init := ps[..|ps| - 1];
      var last := ps[|ps| - 1];
      ApplyAllLast(t0, ps);
      PredicatesAdjacent(t0, init, a, b);
      MentionedSplit(ps, a, b);
      PredicatesMultiply(t0, init, a, b);
      PairProductPositive(init, a, b);
      if SamePair(last, a, b) {
        AddPredSame(ApplyAll(t0, init), last.x, last.y, last.sel, a, b);
      } else {
        AddPredOthersUnchanged(ApplyAll(t0, init), last.x, last.y, last.sel, a, b);
      }
    }
  }

  /** On a fresh orderer: every pair's selectivity is the product of the
      predicates added for it, and it is adjacent iff one was added. */
  lemma FreshPredicates(n: nat, ps: seq<Pred>, a: int, b: int)
    requires PredsValid(Fresh(n), ps) && ValidPair(Fresh(n), a, b)
    ensures Sel(ApplyAll(Fresh(n), ps), a, b) == PairProduct(ps, a, b)
    ensures Adj(ApplyAll(Fresh(n), ps), a, b) <==> Mentioned(ps, a, b)
  {
    FreshDefaults(n, a, b);
    PredicatesMultiply(Fresh(n), ps, a, b);
    PredicatesAdjacent(Fresh(n), ps, a, b);
  }

  /** `SetCardinality(a, c)` is what `Cardinality(a)` reads afterwards; every
      other relation keeps its value. */
  lemma CardinalityAfterSet(t: Tables, a: int, c: int, b: int)
    requires Wf(t) && 1 <= a <= t.n && 1 <= b <= t.n
    ensures Card(SetCard(t, a, c), b) == if a == b then c else Card(t, b)
  {
  }

  /** Cardinalities and selectivities of set pairs are positive. */
  ghost predicate Positive(t: Tables)
  {
    && (forall i :: 0 <= i < |t.cards| ==> t.cards[i] > 0)
    && (forall k :: 0 <= k < |t.sels| ==> t.sels[k] == -1.0 || t.sels[k] > 0.0)
  }

  /** A left-deep order `Cost` accepts: non-empty, IDs in range, no ID twice
      (a repeated ID reaches `indexPair`'s self-pair panic). */
  ghost predicate CostOk(t: Tables, ord: seq<int>)
  {
    && Wf(t) && |ord| >= 1
    && (forall i :: 0 <= i < |ord| ==> 1 <= ord[i] <= t.n)
    && (forall i, j :: 0 <= i < j < |ord| ==> ord[i] != ord[j])
  }

  /** `rows` multiplied, left to right, by the selectivity of ord[i] against
      ord[j], ..., ord[i - 1]: the inner loop of `Cost` from its j-th step on. */
  function Scale(t: Tables, rows: real, ord: seq<int>, i: nat, j: nat): real
    requires CostOk(t, ord) && j <= i < |ord|
    decreases i - j
  {
    if j == i then rows else Scale(t, Times(rows, Sel(t, ord[i], ord[j])), ord, i, j + 1)
  }

  function Times(a: real, b: real): real { a * b }

  /** Estimated rows after joining ord[0], ..., ord[i] left to right. */
  function Rows(t: Tables, ord: seq<int>, i: nat): real
    requires CostOk(t, ord) && i < |ord|
  {
    if i == 0 then Card(t, ord[0]) as real
    else Scale(t, Rows(t, ord, i - 1), ord, i, 0) * Card(t, ord[i]) as real
  }

  /** Sum of the row counts of the prefixes of `ord` up to ord[i]. */
  function CostUpTo(t: Tables, ord: seq<int>, i: nat): real
    requires CostOk(t, ord) && i < |ord|
  {
    if i == 0 then Rows(t, ord, 0) else CostUpTo(t, ord, i - 1) + Rows(t, ord, i)
  }

  /** Left-deep cost: the sum of the row counts of every prefix of `ord`. */
  function CostOf(t: Tables, ord: seq<int>): real
    requires CostOk(t, ord)
  {
    CostUpTo(t, ord, |ord| - 1)
  }

  lemma ScaleDef(t: Tables, rows: real, ord: seq<int>, i: nat, j: nat)
    requires CostOk(t, ord) && j < i < |ord|
    ensures Scale(t, rows, ord, i, j) == Scale(t, Times(rows, Sel(t, ord[i], ord[j])), ord, i, j + 1)
  {
  }

  /** One step of `Scale`, with the selectivity passed in as `s` so that the
      product appears in the caller's own terms. */
  lemma ScaleUnfold(t: Tables, rows: real, ord: seq<int>, i: nat, j: nat, s: real)
    requires CostOk(t, ord) && j < i < |ord| && s == Sel(t, ord[i], ord[j])
    ensures Scale(t, rows, ord, i, j) == Scale(t, rows * s, ord, i, j + 1)
  {
    ScaleDef(t, rows, ord, i, j);
  }

  /** One step of `Rows`, with the scaled row count and the cardinality
      passed in so that the product appears in the caller's own terms. */
  lemma RowsStep(t: Tables, ord: seq<int>, i: nat, scaled: real, card: int)
    requires CostOk(t, ord) && 1 <= i < |ord|
    requires scaled == Scale(t, Rows(t, ord, i - 1), ord, i, 0) && card == Card(t, ord[i])
    ensures Rows(t, ord, i) == scaled * card as real
    ensures CostUpTo(t, ord, i) == CostUpTo(t, ord, i - 1) + scaled * card as real
  {
  }

  lemma MulPositiveInt(a: real, b: int)
    requires a > 0.0 && b > 0
    ensures a * b as real > 0.0
  {
  }

  lemma {:induction false} ScalePositive(t: Tables, rows: real, ord: seq<int>, i: nat, j: nat)
    requires CostOk(t, ord) && j <= i < |ord| && Positive(t) && rows > 0.0
    ensures Scale(t, rows, ord, i, j) > 0.0
    decreases i - j
  {
    if j < i {
      var s := Sel(t, ord[i], ord[j]);
      assert s > 0.0;
      MulPositive(rows, s);
      ScaleUnfold(t, rows, ord, i, j, s);
      ScalePositive(t, rows * s, ord, i, j + 1);
    }
  }

  /** With positive statistics every prefix has positive rows, and the cost
      grows with every relation appended. */
  lemma {:induction false} CostPositive(t: Tables, ord: seq<int>, i: nat)
    requires CostOk(t, ord) && i < |ord| && Positive(t)
    ensures Rows(t, ord, i) > 0.0
    ensures CostUpTo(t, ord, i) >= Rows(t, ord, i)
    ensures i > 0 ==> CostUpTo(t, ord, i) > CostUpTo(t, ord, i - 1)
  {
    assert Card(t, ord[i]) > 0;
    if i > 0 {
      CostPositive(t, ord, i - 1);
      ScalePositive(t, Rows(t, ord, i - 1), ord, i, 0);
      MulPositiveInt(Scale(t, Rows(t, ord, i - 1), ord, i, 0), Card(t, ord[i]));
    }
  }

  /** The order's row count depends only on the prefix it covers. */
  lemma {:induction false} ScalePrefix(t: Tables, rows: real, ord: seq<int>, k: nat, i: nat, j: nat)
    requires CostOk(t, ord) && 1 <= k <= |ord| && j <= i < k
    ensures CostOk(t, ord[..k])
    ensures Scale(t, rows, ord[..k], i, j) == Scale(t, rows, ord, i, j)
    decreases i - j
  {
    if j < i {
      assert ord[..k][i] == ord[i] && ord[..k][j] == ord[j];
      var s := Sel(t, ord[i], ord[j]);
      ScaleUnfold(t, rows, ord, i, j, s);
      ScaleUnfold(t, rows, ord[..k], i, j, s);
      ScalePrefix(t, rows * s, ord, k, i, j + 1);
    }
  }

  lemma {:induction false} CostPrefix(t: Tables, ord: seq<int>, k: nat, i: nat)
    requires CostOk(t, ord) && 1 <= k <= |ord| && i < k
    ensures CostOk(t, ord[..k])
    ensures Rows(t, ord[..k], i) == Rows(t, ord, i)
    ensures CostUpTo(t, ord[..k], i) == CostUpTo(t, ord, i)
  {
    ScalePrefix(t, 0.0, ord, k, 0, 0);
    if i > 0 {
      CostPrefix(t, ord, k, i - 1);
      ScalePrefix(t, Rows(t, ord, i - 1), ord, k, i, 0);
    }
  }

  /** A single relation costs its cardinality. */
  lemma CostSingle(t: Tables, x: int)
    requires Wf(t) && 1 <= x <= t.n
    ensures CostOk(t, [x]) && CostOf(t, [x]) == Card(t, x) as real
  {
  }

  /** Appending relation x to a left-deep order: the new rows are the old
      rows times x's selectivity against every earlier relation times x's
      cardinality, and the cost grows by exactly the new rows. */
  lemma CostAppend(t: Tables, ord: seq<int>, x: int)
    requires CostOk(t, ord) && 1 <= x <= t.n && x !in ord
    ensures CostOk(t, ord + [x])
    ensures Rows(t, ord + [x], |ord|) ==
              Scale(t, Rows(t, ord, |ord| - 1), ord + [x], |ord|, 0) * Card(t, x) as real
    ensures CostOf(t, ord + [x]) == CostOf(t, ord) + Rows(t, ord + [x], |ord|)
  {
    var o := ord + [x];
    assert o[..|ord|] == ord;
    assert CostOk(t, o) by {
      forall i, j | 0 <= i < j < |o| ensures o[i] != o[j] {
        if j == |ord| {
          assert o[i] in ord;
        }
      }
    }
    CostPrefix(t, o, |ord|, |ord| - 1);
  }

  /** The relation IDs 1..n in order: the starting arrangement of `BruteForceOrder`. */
  function Iota(n: nat): seq<int>
  {
    seq(n, i => i + 1)
  }

  /** An ordering of all relations 1..n, each exactly once. */
  ghost predicate IsOrder(n: nat, q: seq<int>)
  {
    && |q| == n
    && (forall i :: 0 <= i < |q| ==> 1 <= q[i] <= n)
    && (forall i, j :: 0 <= i < j < |q| ==> q[i] != q[j])
  }

  ghost predicate Distinct(q: seq<int>)
  {
    forall i, j :: 0 <= i < j < |q| ==> q[i] != q[j]
  }

  lemma {:induction false} DistinctCounts(q: seq<int>, v: int)
    requires Distinct(q)
    ensures multiset(q)[v] == if v in q then 1 else 0
  {
    if q != [] {
      var init := q[..|q| - 1];
      assert q == init + [q[|q| - 1]];
      DistinctCounts(init, v);
      assert v in q <==> v in init || v == q[|q| - 1];
    }
  }

  /** A sequence with the same elements as a repetition-free one is itself free
      of repetitions. */
  lemma SameMultisetDistinct(p: seq<int>, q: seq<int>)
    requires multiset(p) == multiset(q) && Distinct(q)
    ensures Distinct(p)
  {
    forall i, j | 0 <= i < j < |p| ensures p[i] != p[j] {
      if p[i] == p[j] {
        var v := p[i];
        assert p == p[..j] + p[j..];
        assert v in p[..j] && v in p[j..];
        assert multiset(p)[v] == multiset(p[..j])[v] + multiset(p[j..])[v];
        DistinctCounts(q, v);
        assert false;
      }
    }
  }

  lemma {:induction false} DistinctSetSize(q: seq<int>)
    requires Distinct(q)
    ensures |set x | x in q| == |q|
  {
    if q != [] {
      var init := q[..|q| - 1];
      DistinctSetSize(init);
      assert (set x | x in q) == (set x | x in init) + {q[|q| - 1]};
    }
  }

  /** An ordering of 1..n has the same elements as 1..n itself. */
  lemma OrderIsPermutation(n: nat, q: seq<int>)
    requires IsOrder(n, q)
    ensures multiset(q) == multiset(Iota(n))
  {
    var s := set x | x in q;
    var r := set x | x in Iota(n);
    assert Distinct(Iota(n));
    DistinctSetSize(q);
    DistinctSetSize(Iota(n));
    forall x | x in s ensures x in r {
      assert Iota(n)[x - 1] == x;
    }
    assert s <= r;
    assert |r - s| == |r| - |s|;
    assert r - s == {};
    assert s == r;
    forall v ensures multiset(q)[v] == multiset(Iota(n))[v] {
      DistinctCounts(q, v);
      DistinctCounts(Iota(n), v);
      assert v in q <==> v in s;
      assert v in Iota(n) <==> v in r;
    }
  }

  /** Every arrangement `Perm` emits for 1..n is an ordering of 1..n, and every
      ordering of 1..n is emitted. */
  lemma PermsAreOrders(n: nat, q: seq<int>)
    ensures q in Permutations.Perms(Iota(n), 0) <==> IsOrder(n, q)
  {
    var a := Iota(n);
    if q in Permutations.Perms(a, 0) {
      Permutations.PermsShape(a, 0, q);
      assert Distinct(a);
      SameMultisetDistinct(q, a);
      forall i | 0 <= i < |q| ensures 1 <= q[i] <= n {
        assert q[i] in multiset(a);
      }
    }
    if IsOrder(n, q) {
      OrderIsPermutation(n, q);
      Permutations.PermsComplete(a, 0, q);
    }
  }

  /** Every arrangement in `perms` is an ordering of 1..n. */
  ghost predicate AllOrders(n: nat, perms: seq<seq<int>>)
  {
    forall m :: 0 <= m < |perms| ==> IsOrder(n, perms[m])
  }

  lemma AllPermsAreOrders(n: nat, perms: seq<seq<int>>)
    requires perms == Permutations.Perms(Iota(n), 0)
    ensures AllOrders(n, perms)
  {
    forall m | 0 <= m < |perms| ensures IsOrder(n, perms[m]) {
      PermsAreOrders(n, perms[m]);
    }
  }

  /** Among perms[..k], perms[at] has the least cost and everything before it
      costs strictly more. */
  ghost predicate BestOfPrefix(t: Tables, perms: seq<seq<int>>, k: nat, at: nat)
    requires Wf(t) && t.n >= 1 && AllOrders(t.n, perms) && at < k <= |perms|
  {
    && (forall m :: 0 <= m < k ==> CostOf(t, perms[at]) <= CostOf(t, perms[m]))
    && (forall m :: 0 <= m < at ==> CostOf(t, perms[m]) > CostOf(t, perms[at]))
  }

  /** `best` is the first arrangement of `perms` whose cost is minimal. */
  ghost predicate FirstMinimal(t: Tables, perms: seq<seq<int>>, best: seq<int>)
    requires Wf(t) && t.n >= 1 && AllOrders(t.n, perms)
  {
    exists at :: 0 <= at < |perms| && best == perms[at] && BestOfPrefix(t, perms, |perms|, at)
  }

  /** An ordering of 1..n is an order `Cost` accepts. */
  lemma OrderCostOk(t: Tables, q: seq<int>)
    requires Wf(t) && t.n >= 1 && IsOrder(t.n, q)
    ensures CostOk(t, q)
  {
  }

  /** One step of the search with positive statistics: the candidate has a
      positive cost; the first candidate is the best of a one-element prefix; a
      later one replaces the best exactly when it is strictly cheaper. */
  lemma SearchStep(t: Tables, perms: seq<seq<int>>, k: nat, at: nat)
    requires Wf(t) && t.n >= 1 && Positive(t) && AllOrders(t.n, perms) && k < |perms|
    requires k > 0 ==> at < k && BestOfPrefix(t, perms, k, at)
    ensures CostOk(t, perms[k]) && CostOf(t, perms[k]) > 0.0
    ensures k == 0 ==> BestOfPrefix(t, perms, 1, 0)
    ensures k > 0 && CostOf(t, perms[k]) < CostOf(t, perms[at]) ==> BestOfPrefix(t, perms, k + 1, k)
    ensures k > 0 && CostOf(t, perms[k]) >= CostOf(t, perms[at]) ==> BestOfPrefix(t, perms, k + 1, at)
  {
    OrderCostOk(t, perms[k]);
    CostPositive(t, perms[k], |perms[k]| - 1);
    if k > 0 && CostOf(t, perms[k]) < CostOf(t, perms[at]) {
      forall m | 0 <= m < k ensures CostOf(t, perms[m]) > CostOf(t, perms[k]) {
        assert CostOf(t, perms[at]) <= CostOf(t, perms[m]);
      }
    }
  }

  /** The first cheapest arrangement of all of `Perm`'s output is at least as
      cheap as every ordering of 1..n. */
  lemma BestOverAllOrders(t: Tables, perms: seq<seq<int>>, at: nat)
    requires Wf(t) && t.n >= 1 && perms == Permutations.Perms(Iota(t.n), 0)
    requires AllOrders(t.n, perms) && at < |perms| && BestOfPrefix(t, perms, |perms|, at)
    ensures forall q :: IsOrder(t.n, q) ==> CostOk(t, q) && CostOf(t, perms[at]) <= CostOf(t, q)
  {
    forall q | IsOrder(t.n, q) ensures CostOk(t, q) && CostOf(t, perms[at]) <= CostOf(t, q) {
      PermsAreOrders(t.n, q);
      var m :| 0 <= m < |perms| && perms[m] == q;
    }
  }

  class Orderer {
    const numRelations: nat
    const cardinalities: array<int>
    const selectivities: array<real>

    ghost predicate Valid()
      reads this
    {
      cardinalities.Length == numRelations
      && selectivities.Length == Schema.Tri(numRelations)
    }

    function Model(): (t: Tables)
      reads this, cardinalities, selectivities
      requires Valid()
      ensures Wf(t) && t.n == numRelations
    {
      Tables(numRelations, cardinalities[..], selectivities[..])
    }

    /** `NewOrderer`: every pair slot is filled with the sentinel. */
    constructor (numRelations: nat)
      ensures Valid() && Model() == Fresh(numRelations)
      ensures fresh(cardinalities) && fresh(selectivities)
    {
      this.numRelations := numRelations;
      var sels := new real[Schema.Tri(numRelations)];
      var i := 0;
      while i < sels.Length
        invariant 0 <= i <= sels.Length
        invariant forall k :: 0 <= k < i ==> sels[k] == -1.0
      {
        sels[i] := -1.0;
        i := i + 1;
      }
      selectivities := sels;
      cardinalities := new int[numRelations](_ => 0);
    }

    function GetSelectivity(a: int, b: int): (r: real)
      reads this, cardinalities, selectivities
      requires Valid() && ValidPair(Model(), a, b)
      ensures r == Sel(Model(), a, b)
    {
      var idx := Slot(Model(), a, b);
      var sel := selectivities[idx];
      if sel == -1.0 then 1.0 else sel
    }

    function Adjacent(a: int, b: int): (r: bool)
      reads this, cardinalities, selectivities
      requires Valid() && ValidPair(Model(), a, b)
      ensures r == Adj(Model(), a, b)
    {
      selectivities[Slot(Model(), a, b)] != -1.0
    }

    method AddPredicate(a: int, b: int, sel: real)
      requires Valid() && ValidPair(Model(), a, b)
      modifies selectivities
      ensures Model() == AddPred(old(Model()), a, b, sel)
    {
      var idx := Slot(Model(), a, b);
      ghost var t := Model();
      ghost var v := (if t.sels[idx] == -1.0 then 1.0 else t.sels[idx]) * sel;
      if selectivities[idx] == -1.0 {
        selectivities[idx] := 1.0;
      }
      assert selectivities[idx] * sel == v;
      selectivities[idx] := selectivities[idx] * sel;
      assert selectivities[..] == t.sels[idx := v];
      assert AddPred(t, a, b, sel).sels == t.sels[idx := v] by {
        assert forall j :: 0 <= j < |t.sels| ==> AddPred(t, a, b, sel).sels[j] == t.sels[idx := v][j];
      }
    }

    method SetCardinality(a: int, c: int)
      requires Valid() && 1 <= a <= numRelations
      modifies cardinalities
      ensures Model() == SetCard(old(Model()), a, c)
    {
      cardinalities[a - 1] := c;
    }

    function Cardinality(a: int): (r: int)
      reads this, cardinalities, selectivities
      requires Valid() && 1 <= a <= numRelations
      ensures r == Card(Model(), a)
    {
      cardinalities[a - 1]
    }

    /** The inner loop of `Cost`: multiplies `rows` by the selectivity of
        ord[i] against each earlier relation of `ord`, in order. */
    method ScaleRows(rows: real, ord: seq<int>, i: nat) returns (r: real)
      requires Valid() && CostOk(Model(), ord) && i < |ord|
      ensures r == Scale(Model(), rows, ord, i, 0)
    {
      ghost var t := Model();
      r := rows;
      var j := 0;
      while j < i
        invariant 0 <= j <= i
        invariant Scale(t, r, ord, i, j) == Scale(t, rows, ord, i, 0)
      {
        var sel := GetSelectivity(ord[i], ord[j]);
        ScaleUnfold(t, r, ord, i, j, sel);
        r := r * sel;
        j := j + 1;
      }
    }

    /** `Cost`: accumulates the rows of every prefix; for each new relation the
        running row count is multiplied by its selectivity against each earlier
        relation and by its cardinality. */
    method Cost(ord: seq<int>) returns (cost: real)
      requires Valid() && CostOk(Model(), ord)
      ensures cost == CostOf(Model(), ord)
    {
      ghost var t := Model();
      cost := Cardinality(ord[0]) as real;
      var numRows := Cardinality(ord[0]) as real;
      var i := 1;
      while i < |ord|
        invariant 1 <= i <= |ord|
        invariant numRows == Rows(t, ord, i - 1) && cost == CostUpTo(t, ord, i - 1)
      {
        var scaled := ScaleRows(numRows, ord, i);
        var card := Cardinality(ord[i]);
        RowsStep(t, ord, i, scaled, card);
        numRows := scaled * card as real;
        cost := cost + numRows;
        i := i + 1;
      }
    }

    /** `BruteForceOrder`: costs every arrangement `Perm` emits for 1..n and
        keeps the first one whose cost is strictly below the best so far (a
        best cost of 0 counts as "none yet"). */
    method BruteForceOrder() returns (best: seq<int>)
      requires Valid() && numRelations >= 1
      ensures IsOrder(numRelations, best)
      ensures best in Permutations.Perms(Iota(numRelations), 0)
      ensures AllOrders(numRelations, Permutations.Perms(Iota(numRelations), 0))
      ensures Positive(Model()) ==>
                forall q :: IsOrder(numRelations, q) ==> CostOf(Model(), best) <= CostOf(Model(), q)
      ensures Positive(Model()) ==>
                FirstMinimal(Model(), Permutations.Perms(Iota(numRelations), 0), best)
    {
      ghost var t := Model();
      var n := numRelations;
      var start := new int[n];
      for i := 0 to n
        invariant forall k :: 0 <= k < i ==> start[k] == k + 1
      {
        start[i] := i + 1;
      }
      assert start[..] == Iota(n);
      var perms := Permutations.Perm(start);
      AllPermsAreOrders(n, perms);
      Permutations.PermsCount(Iota(n), 0);
      best := [];
      var bestCost := 0.0;
      ghost var at := 0;
      for k := 0 to |perms|
        invariant k == 0 ==> bestCost == 0.0
        invariant k > 0 ==> at < k && best == perms[at] && bestCost == CostOf(t, best)
        invariant k > 0 && Positive(t) ==> bestCost > 0.0 && BestOfPrefix(t, perms, k, at)
      {
        OrderCostOk(t, perms[k]);
        if Positive(t) {
          SearchStep(t, perms, k, at);
        }
        var cost := Cost(perms[k]);
        if bestCost == 0.0 || cost < bestCost {
          best := perms[k];
          bestCost := cost;
          at := k;
        }
      }
      if Positive(t) {
        BestOverAllOrders(t, perms, at);
      }
    }
  }

  /** The three-relation schema of orderer_test.go's costing test:
      A(50), B(1000), C(50000) with A-B 0.01 and B-C 0.1. */
  function ThreeRelations(): (t: Tables)
    ensures Wf(t)
  {
    Tables(3, [50, 1000, 50000], [0.01, -1.0, 0.1])
  }

  /** The six-relation schema of orderer_test.go's bigger-join test, a tree
      1-2, 2-4, 2-3, 3-5, 5-6 with cardinalities 100, 10, 100, 1000, 10000,
      100000. */
  function SixRelations(): (t: Tables)
    ensures Wf(t)
  {
    Tables(6, [100, 10, 100, 1000, 10000, 100000],
           [0.01, -1.0, 0.1, -1.0, 0.0004, -1.0, -1.0, -1.0, 0.05, -1.0, -1.0, -1.0, -1.0, -1.0, 0.0001])
  }

  /** The three-relation schema is what a fresh orderer holds after the
      test's cardinalities and its two predicates. */
  lemma ThreeRelationsBuilt()
    ensures var t := SetCard(SetCard(SetCard(Fresh(3), 1, 50), 2, 1000), 3, 50000);
            PredsValid(t, [Pred(1, 2, 0.01), Pred(2, 3, 0.1)]) &&
            ThreeRelations() == ApplyAll(t, [Pred(1, 2, 0.01), Pred(2, 3, 0.1)])
  {
    var t := SetCard(SetCard(SetCard(Fresh(3), 1, 50), 2, 1000), 3, 50000);
    var ps := [Pred(1, 2, 0.01), Pred(2, 3, 0.1)];
    assert t == Tables(3, [50, 1000, 50000], [-1.0, -1.0, -1.0]);
    assert ps[..1] == [Pred(1, 2, 0.01)] && ps[..1][..0] == [];
    assert ApplyAll(t, ps[..1]) == Tables(3, [50, 1000, 50000], [0.01, -1.0, -1.0]);
  }

  /** The six-relation schema is what a fresh orderer holds after the
      test's cardinalities and its five predicates. */
  lemma SixRelationsBuilt()
    ensures var ps := [Pred(1, 2, 0.01), Pred(2, 4, 0.0004), Pred(2, 3, 0.1), Pred(3, 5, 0.05), Pred(5, 6, 0.0001)];
            PredsValid(SixCards(), ps) && SixRelations() == ApplyAll(SixCards(), ps)
  {
    SixCardsUnset();
    SixApplied(SixCards(), [Pred(1, 2, 0.01), Pred(2, 4, 0.0004), Pred(2, 3, 0.1), Pred(3, 5, 0.05), Pred(5, 6, 0.0001)]);
  }

  /** The bigger-join test's predicates, applied to its cardinalities and
      fifteen unset slots, give `SixRelations`. */
  lemma SixApplied(t: Tables, ps: seq<Pred>)
    requires t.n == 6 && t.cards == [100, 10, 100, 1000, 10000, 100000]
    requires |t.sels| == 15 && forall k :: 0 <= k < 15 ==> t.sels[k] == -1.0
    requires |ps| == 5 && ps[0] == Pred(1, 2, 0.01) && ps[1] == Pred(2, 4, 0.0004) && ps[2] == Pred(2, 3, 0.1)
    requires ps[3] == Pred(3, 5, 0.05) && ps[4] == Pred(5, 6, 0.0001)
    ensures PredsValid(t, ps) && SixRelations() == ApplyAll(t, ps)
  {
    SixPrefix(t, ps);
    var t3 := t.(sels := t.sels[0 := 0.01][4 := 0.0004][2 := 0.1]);
    var t4 := t3.(sels := t3.sels[8 := 0.05]);
    var t5 := t4.(sels := t4.sels[14 := 0.0001]);
    assert IndexPair(3, 5) == Some(8) && IndexPair(5, 6) == Some(14);
    ApplyUnset(t, ps, 3, 8, t3, t4);
    ApplyUnset(t, ps, 4, 14, t4, t5);
    assert ps[..5] == ps;
    assert t5 == SixRelations();
  }

  /** The first three of the bigger-join test's predicates fill slots 0, 4
      and 2. */
  lemma SixPrefix(t: Tables, ps: seq<Pred>)
    requires t.n == 6 && t.cards == [100, 10, 100, 1000, 10000, 100000]
    requires |t.sels| == 15 && forall k :: 0 <= k < 15 ==> t.sels[k] == -1.0
    requires |ps| == 5 && ps[0] == Pred(1, 2, 0.01) && ps[1] == Pred(2, 4, 0.0004) && ps[2] == Pred(2, 3, 0.1)
    requires ps[3] == Pred(3, 5, 0.05) && ps[4] == Pred(5, 6, 0.0001)
    ensures PredsValid(t, ps) && PredsValid(t, ps[..3])
    ensures ApplyAll(t, ps[..3]) == t.(sels := t.sels[0 := 0.01][4 := 0.0004][2 := 0.1])
  {
    var t1 := t.(sels := t.sels[0 := 0.01]);
    var t2 := t1.(sels := t1.sels[4 := 0.0004]);
    var t3 := t2.(sels := t2.sels[2 := 0.1]);
    assert PredsValid(t, ps);
    assert ps[..0] == [];
    assert IndexPair(1, 2) == Some(0) && IndexPair(2, 4) == Some(4) && IndexPair(2, 3) == Some(2);
    ApplyUnset(t, ps, 0, 0, t, t1);
    ApplyUnset(t, ps, 1, 4, t1, t2);
    ApplyUnset(t, ps, 2, 2, t2, t3);
  }

  /** Applying one more predicate of `ps`, on an unset pair whose slot is
      `k`, stores its selectivity at `k`. */
  lemma ApplyUnset(t: Tables, ps: seq<Pred>, i: nat, k: nat, prev: Tables, next: Tables)
    requires Wf(t) && PredsValid(t, ps) && i < |ps|
    requires PredsValid(t, ps[..i]) && ApplyAll(t, ps[..i]) == prev
    requires IndexPair(ps[i].x, ps[i].y) == Some(k) && k < |prev.sels| && prev.sels[k] == -1.0
    requires next == prev.(sels := prev.sels[k := ps[i].sel])
    ensures PredsValid(t, ps[..i + 1]) && ApplyAll(t, ps[..i + 1]) == next
  {
    ApplyStep(t, ps, i);
  }

  /** Applying one more predicate of `ps` is one more `AddPred`. */
  lemma ApplyStep(t: Tables, ps: seq<Pred>, k: nat)
    requires Wf(t) && PredsValid(t, ps) && k < |ps|
    ensures PredsValid(t, ps[..k]) && PredsValid(t, ps[..k + 1])
    ensures ApplyAll(t, ps[..k + 1]) == AddPred(ApplyAll(t, ps[..k]), ps[k].x, ps[k].y, ps[k].sel)
  {
    assert ps[..k + 1][..k] == ps[..k];
  }

  /** A fresh six-relation orderer with the bigger-join test's
      cardinalities. */
  function SixCards(): (t: Tables)
    ensures Wf(t)
  {
    SetCard(SetCard(SetCard(SetCard(SetCard(SetCard(Fresh(6), 1, 100), 2, 10), 3, 100), 4, 1000), 5, 10000), 6, 100000)
  }

  /** `SixCards` holds the cardinalities and fifteen unset slots. */
  lemma SixCardsUnset()
    ensures var u := -1.0;
            SixCards() == Tables(6, [100, 10, 100, 1000, 10000, 100000], [u, u, u, u, u, u, u, u, u, u, u, u, u, u, u])
  {
  }

  /** Cost([1, 2, 3]) on the three-relation schema, as the costing test expects. */
  lemma CostABC()
    ensures CostOk(ThreeRelations(), [1, 2, 3]) && CostOf(ThreeRelations(), [1, 2, 3]) == 2500550.0
  {
    var t := ThreeRelations();
    assert Rows(t, [1, 2, 3], 0) == 50.0;
    assert Scale(t, 50.0, [1, 2, 3], 1, 0) == 0.5;
    assert Rows(t, [1, 2, 3], 1) == 500.0;
    assert CostUpTo(t, [1, 2, 3], 1) == 550.0;
    assert Scale(t, 500.0, [1, 2, 3], 2, 1) == 50.0;
    assert Scale(t, 500.0, [1, 2, 3], 2, 0) == 50.0;
    assert Rows(t, [1, 2, 3], 2) == 2500000.0;
    assert CostUpTo(t, [1, 2, 3], 2) == 2500550.0;
  }

  /** Cost([2, 1, 3]) on the three-relation schema, as the costing test expects. */
  lemma CostBAC()
    ensures CostOk(ThreeRelations(), [2, 1, 3]) && CostOf(ThreeRelations(), [2, 1, 3]) == 2501500.0
  {
    var t := ThreeRelations();
    assert Rows(t, [2, 1, 3], 0) == 1000.0;
    assert Scale(t, 1000.0, [2, 1, 3], 1, 0) == 10.0;
    assert Rows(t, [2, 1, 3], 1) == 500.0;
    assert CostUpTo(t, [2, 1, 3], 1) == 1500.0;
    assert Scale(t, 50.0, [2, 1, 3], 2, 1) == 50.0;
    assert Scale(t, 500.0, [2, 1, 3], 2, 0) == 50.0;
    assert Rows(t, [2, 1, 3], 2) == 2500000.0;
    assert CostUpTo(t, [2, 1, 3], 2) == 2501500.0;
  }

  /** Cost([1, 3, 2]) on the three-relation schema, as the costing test expects. */
  lemma CostACB()
    ensures CostOk(ThreeRelations(), [1, 3, 2]) && CostOf(ThreeRelations(), [1, 3, 2]) == 5000050.0
  {
    var t := ThreeRelations();
    assert Rows(t, [1, 3, 2], 0) == 50.0;
    assert Scale(t, 50.0, [1, 3, 2], 1, 0) == 50.0;
    assert Rows(t, [1, 3, 2], 1) == 2500000.0;
    assert CostUpTo(t, [1, 3, 2], 1) == 2500050.0;
    assert Scale(t, 25000.0, [1, 3, 2], 2, 1) == 2500.0;
    assert Scale(t, 2500000.0, [1, 3, 2], 2, 0) == 2500.0;
    assert Rows(t, [1, 3, 2], 2) == 2500000.0;
    assert CostUpTo(t, [1, 3, 2], 2) == 5000050.0;
  }

  /** Cost([3, 1, 2]) on the three-relation schema, as the costing test expects. */
  lemma CostCAB()
    ensures CostOk(ThreeRelations(), [3, 1, 2]) && CostOf(ThreeRelations(), [3, 1, 2]) == 5050000.0
  {
    var t := ThreeRelations();
    assert Rows(t, [3, 1, 2], 0) == 50000.0;
    assert Scale(t, 50000.0, [3, 1, 2], 1, 0) == 50000.0;
    assert Rows(t, [3, 1, 2], 1) == 2500000.0;
    assert CostUpTo(t, [3, 1, 2], 1) == 2550000.0;
    assert Scale(t, 250000.0, [3, 1, 2], 2, 1) == 2500.0;
    assert Scale(t, 2500000.0, [3, 1, 2], 2, 0) == 2500.0;
    assert Rows(t, [3, 1, 2], 2) == 2500000.0;
    assert CostUpTo(t, [3, 1, 2], 2) == 5050000.0;
  }

  /** Cost([2, 3, 1]) on the three-relation schema, as the costing test expects. */
  lemma CostBCA()
    ensures CostOk(ThreeRelations(), [2, 3, 1]) && CostOf(ThreeRelations(), [2, 3, 1]) == 7501000.0
  {
    var t := ThreeRelations();
    assert Rows(t, [2, 3, 1], 0) == 1000.0;
    assert Scale(t, 1000.0, [2, 3, 1], 1, 0) == 100.0;
    assert Rows(t, [2, 3, 1], 1) == 5000000.0;
    assert CostUpTo(t, [2, 3, 1], 1) == 5001000.0;
    assert Scale(t, 50000.0, [2, 3, 1], 2, 1) == 50000.0;
    assert Scale(t, 5000000.0, [2, 3, 1], 2, 0) == 50000.0;
    assert Rows(t, [2, 3, 1], 2) == 2500000.0;
    assert CostUpTo(t, [2, 3, 1], 2) == 7501000.0;
  }

  /** Cost([3, 2, 1]) on the three-relation schema, as the costing test expects. */
  lemma CostCBA()
    ensures CostOk(ThreeRelations(), [3, 2, 1]) && CostOf(ThreeRelations(), [3, 2, 1]) == 7550000.0
  {
    var t := ThreeRelations();
    assert Rows(t, [3, 2, 1], 0) == 50000.0;
    assert Scale(t, 50000.0, [3, 2, 1], 1, 0) == 5000.0;
    assert Rows(t, [3, 2, 1], 1) == 5000000.0;
    assert CostUpTo(t, [3, 2, 1], 1) == 5050000.0;
    assert Scale(t, 5000000.0, [3, 2, 1], 2, 1) == 50000.0;
    assert Scale(t, 5000000.0, [3, 2, 1], 2, 0) == 50000.0;
    assert Rows(t, [3, 2, 1], 2) == 2500000.0;
    assert CostUpTo(t, [3, 2, 1], 2) == 7550000.0;
  }

  /** Rows and cost of the bigger-join order up to its relation at index 1. */
  lemma BiggerJoin1()
    ensures CostOk(SixRelations(), [2, 4, 1, 3, 5, 6])
    ensures Rows(SixRelations(), [2, 4, 1, 3, 5, 6], 1) == 4.0
    ensures CostUpTo(SixRelations(), [2, 4, 1, 3, 5, 6], 1) == 14.0
  {
    var t := SixRelations();
    assert Rows(t, [2, 4, 1, 3, 5, 6], 0) == 10.0;
    assert Scale(t, 10.0, [2, 4, 1, 3, 5, 6], 1, 0) == 0.004;
    assert Rows(t, [2, 4, 1, 3, 5, 6], 1) == 4.0;
    assert CostUpTo(t, [2, 4, 1, 3, 5, 6], 1) == 14.0;
  }

  /** Rows and cost of the bigger-join order up to its relation at index 2. */
  lemma BiggerJoin2()
    ensures CostOk(SixRelations(), [2, 4, 1, 3, 5, 6])
    ensures Rows(SixRelations(), [2, 4, 1, 3, 5, 6], 2) == 4.0
    ensures CostUpTo(SixRelations(), [2, 4, 1, 3, 5, 6], 2) == 18.0
  {
    var t := SixRelations();
    BiggerJoin1();
    assert Scale(t, 0.04, [2, 4, 1, 3, 5, 6], 2, 1) == 0.04;
    assert Scale(t, 4.0, [2, 4, 1, 3, 5, 6], 2, 0) == 0.04;
    assert Rows(t, [2, 4, 1, 3, 5, 6], 2) == 4.0;
    assert CostUpTo(t, [2, 4, 1, 3, 5, 6], 2) == 18.0;
  }

  /** Rows and cost of the bigger-join order up to its relation at index 3. */
  lemma BiggerJoin3()
    ensures CostOk(SixRelations(), [2, 4, 1, 3, 5, 6])
    ensures Rows(SixRelations(), [2, 4, 1, 3, 5, 6], 3) == 40.0
    ensures CostUpTo(SixRelations(), [2, 4, 1, 3, 5, 6], 3) == 58.0
  {
    var t := SixRelations();
    BiggerJoin2();
    assert Scale(t, 0.4, [2, 4, 1, 3, 5, 6], 3, 2) == 0.4;
    assert Scale(t, 0.4, [2, 4, 1, 3, 5, 6], 3, 1) == 0.4;
    assert Scale(t, 4.0, [2, 4, 1, 3, 5, 6], 3, 0) == 0.4;
    assert Rows(t, [2, 4, 1, 3, 5, 6], 3) == 40.0;
    assert CostUpTo(t, [2, 4, 1, 3, 5, 6], 3) == 58.0;
  }

  /** Rows and cost of the bigger-join order up to its relation at index 4. */
  lemma BiggerJoin4()
    ensures CostOk(SixRelations(), [2, 4, 1, 3, 5, 6])
    ensures Rows(SixRelations(), [2, 4, 1, 3, 5, 6], 4) == 20000.0
    ensures CostUpTo(SixRelations(), [2, 4, 1, 3, 5, 6], 4) == 20058.0
  {
    var t := SixRelations();
    BiggerJoin3();
    assert Scale(t, 40.0, [2, 4, 1, 3, 5, 6], 4, 3) == 2.0;
    assert Scale(t, 40.0, [2, 4, 1, 3, 5, 6], 4, 2) == 2.0;
    assert Scale(t, 40.0, [2, 4, 1, 3, 5, 6], 4, 1) == 2.0;
    assert Scale(t, 40.0, [2, 4, 1, 3, 5, 6], 4, 0) == 2.0;
    assert Rows(t, [2, 4, 1, 3, 5, 6], 4) == 20000.0;
    assert CostUpTo(t, [2, 4, 1, 3, 5, 6], 4) == 20058.0;
  }

  /** The order the bigger-join test expects, at cost 220058. */
  lemma CostBiggerJoin()
    ensures CostOk(SixRelations(), [2, 4, 1, 3, 5, 6]) && CostOf(SixRelations(), [2, 4, 1, 3, 5, 6]) == 220058.0
  {
    var t := SixRelations();
    BiggerJoin4();
    assert Scale(t, 20000.0, [2, 4, 1, 3, 5, 6], 5, 4) == 2.0;
    assert Scale(t, 20000.0, [2, 4, 1, 3, 5, 6], 5, 3) == 2.0;
    assert Scale(t, 20000.0, [2, 4, 1, 3, 5, 6], 5, 2) == 2.0;
    assert Scale(t, 20000.0, [2, 4, 1, 3, 5, 6], 5, 1) == 2.0;
    assert Scale(t, 20000.0, [2, 4, 1, 3, 5, 6], 5, 0) == 2.0;
    assert Rows(t, [2, 4, 1, 3, 5, 6], 5) == 200000.0;
    assert CostUpTo(t, [2, 4, 1, 3, 5, 6], 5) == 220058.0;
  }
}
