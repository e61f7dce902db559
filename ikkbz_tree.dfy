/** The rooted query tree the IKKBZ orderer of ikkbz_orderer.go works on: a
    parent array over relations 1..n, the depths that make it a tree, the
    subtree under each relation and the ascending child lists. */
module RootedTrees {
  import opened Ordering

  /** The orderer's statistics, a parent array (`parents`, indexed 0..n) and
      the root it was filled from. */
  datatype View = View(t: Tables, up: seq<int>, root: int)

  /** What `RootedSelectivity` needs: a root in range, with parent 0, and
      every other relation's parent a different relation in range. */
  ghost predicate Rooting(v: View)
  {
    && Wf(v.t) && |v.up| == v.t.n + 1
    && 1 <= v.root <= v.t.n && v.up[0] == 0 && v.up[v.root] == 0
    && forall x :: 1 <= x <= v.t.n && x != v.root ==> 1 <= v.up[x] <= v.t.n && v.up[x] != x
  }

  /** `up` roots the query graph at `root` and the graph is a tree: depths
      grow by one along every parent link, and two relations are adjacent
      exactly when one is the other's parent. */
  ghost predicate RootedTree(v: View, d: seq<nat>)
  {
    && Rooting(v) && |d| == |v.up| && d[v.root] == 0
    && (forall x :: 1 <= x <= v.t.n && x != v.root ==> d[x] == d[v.up[x]] + 1 && d[x] <= v.t.n)
    && (forall a, b {:trigger Adj(v.t, a, b)} :: ValidPair(v.t, a, b) ==> (Adj(v.t, a, b) <==> v.up[a] == b || v.up[b] == a))
  }

  /** The ancestor k links above x. */
  ghost function Anc(v: View, d: seq<nat>, x: int, k: nat): (a: int)
    requires RootedTree(v, d) && 1 <= x <= v.t.n && k <= d[x]
    ensures 1 <= a <= v.t.n && d[a] == d[x] - k
    decreases k
  {
    if k == 0 then x else Anc(v, d, v.up[x], k - 1)
  }

  /** a is x or one of x's ancestors. */
  ghost predicate Desc(v: View, d: seq<nat>, a: int, x: int)
    requires RootedTree(v, d)
  {
    1 <= a <= v.t.n && 1 <= x <= v.t.n && d[a] <= d[x] && Anc(v, d, x, d[x] - d[a]) == a
  }

  /** The relations in the subtree under a. */
  ghost function Subtree(v: View, d: seq<nat>, a: int): set<int>
    requires RootedTree(v, d)
  {
    set x | 1 <= x <= v.t.n && Desc(v, d, a, x)
  }

  /** a is an ancestor-or-self of a non-root x exactly when it is x or an
      ancestor-or-self of x's parent. */
  lemma DescStep(v: View, d: seq<nat>, a: int, x: int)
    requires RootedTree(v, d) && 1 <= a <= v.t.n && 1 <= x <= v.t.n && x != v.root
    ensures Desc(v, d, a, x) <==> a == x || Desc(v, d, a, v.up[x])
  {
    if d[a] < d[x] {
      assert Anc(v, d, x, d[x] - d[a]) == Anc(v, d, v.up[x], d[v.up[x]] - d[a]);
    }
  }

  /** Every relation lies in the root's subtree. */
  lemma {:induction false} UnderRoot(v: View, d: seq<nat>, x: int)
    requires RootedTree(v, d) && 1 <= x <= v.t.n
    ensures Desc(v, d, v.root, x)
    decreases d[x]
  {
    if x != v.root {
      UnderRoot(v, d, v.up[x]);
      DescStep(v, d, v.root, x);
    }
  }

  /** The relations 1 .. k-1 whose parent is a, in ascending order: the list
      `ChildrenOf` builds. */
  function ChildrenBelow(up: seq<int>, a: int, k: nat): (cs: seq<int>)
    requires k <= |up|
    ensures |cs| <= k
    ensures forall i :: 0 <= i < |cs| ==> 1 <= cs[i] < k && up[cs[i]] == a
    ensures forall i, j :: 0 <= i < j < |cs| ==> cs[i] < cs[j]
    ensures forall x :: 1 <= x < k && up[x] == a ==> x in cs
  {
    if k <= 1 then []
    else ChildrenBelow(up, a, k - 1) + (if up[k - 1] == a then [k - 1] else [])
  }

  function Children(up: seq<int>, a: int): (cs: seq<int>)
  {
    ChildrenBelow(up, a, |up|)
  }

  /** A child sits one level below its parent. */
  lemma ChildDepth(v: View, d: seq<nat>, a: int, c: int)
    requires RootedTree(v, d) && 1 <= a <= v.t.n && c in Children(v.up, a)
    ensures 1 <= c <= v.t.n && c != v.root && d[c] == d[a] + 1
  {
  }

  /** The union of the subtrees under the relations of cs. */
  ghost function UnionOf(v: View, d: seq<nat>, cs: seq<int>): set<int>
    requires RootedTree(v, d)
  {
    if cs == [] then {} else UnionOf(v, d, cs[..|cs| - 1]) + Subtree(v, d, cs[|cs| - 1])
  }

  /** Two different children have disjoint subtrees. */
  lemma ChildrenDisjoint(v: View, d: seq<nat>, a: int, c1: int, c2: int)
    requires RootedTree(v, d) && 1 <= a <= v.t.n
    requires c1 in Children(v.up, a) && c2 in Children(v.up, a) && c1 != c2
    ensures Subtree(v, d, c1) !! Subtree(v, d, c2)
  {
    ChildDepth(v, d, a, c1);
    ChildDepth(v, d, a, c2);
  }

  /** A subtree is its root plus the subtrees of its children, and the root
      is in none of those. */
  lemma SubtreeSplit(v: View, d: seq<nat>, a: int)
    requires RootedTree(v, d) && 1 <= a <= v.t.n
    ensures Subtree(v, d, a) == {a} + UnionOf(v, d, Children(v.up, a))
    ensures a !in UnionOf(v, d, Children(v.up, a))
  {
    var cs := Children(v.up, a);
    forall x | x in Subtree(v, d, a) && x != a
      ensures x in UnionOf(v, d, cs)
    {
      InChildSubtree(v, d, a, x);
    }
    forall x | x in UnionOf(v, d, cs)
      ensures x in Subtree(v, d, a) && x != a
    {
      var c := UnionWitness(v, d, cs, x);
      BelowChild(v, d, a, c, x);
    }
  }

  /** A proper descendant of a lies under one of a's children. */
  lemma InChildSubtree(v: View, d: seq<nat>, a: int, x: int)
    requires RootedTree(v, d) && 1 <= a <= v.t.n && x in Subtree(v, d, a) && x != a
    ensures x in UnionOf(v, d, Children(v.up, a))
  {
    var k := d[x] - d[a] - 1;
    var c := Anc(v, d, x, k);
    AncStep(v, d, x, k);
    assert v.up[c] == a;
    assert c in Children(v.up, a);
    assert Desc(v, d, c, x);
    UnionHas(v, d, Children(v.up, a), c, x);
  }

  /** Whatever lies under a child of a lies strictly under a. */
  lemma BelowChild(v: View, d: seq<nat>, a: int, c: int, x: int)
    requires RootedTree(v, d) && 1 <= a <= v.t.n && c in Children(v.up, a) && x in Subtree(v, d, c)
    ensures x in Subtree(v, d, a) && x != a
  {
    ChildDepth(v, d, a, c);
    AncStep(v, d, x, d[x] - d[c]);
  }

  /** One more link up from the ancestor k above x. */
  lemma {:induction false} AncStep(v: View, d: seq<nat>, x: int, k: nat)
    requires RootedTree(v, d) && 1 <= x <= v.t.n && k < d[x]
    ensures Anc(v, d, x, k) != v.root
    ensures Anc(v, d, x, k + 1) == v.up[Anc(v, d, x, k)]
    decreases k
  {
    if k > 0 {
      AncStep(v, d, v.up[x], k - 1);
    }
  }

  lemma {:induction false} UnionHas(v: View, d: seq<nat>, cs: seq<int>, c: int, x: int)
    requires RootedTree(v, d) && c in cs && x in Subtree(v, d, c)
    ensures x in UnionOf(v, d, cs)
    decreases |cs|
  {
    if cs[|cs| - 1] != c {
      assert c in cs[..|cs| - 1];
      UnionHas(v, d, cs[..|cs| - 1], c, x);
    }
  }

  lemma {:induction false} UnionWitness(v: View, d: seq<nat>, cs: seq<int>, x: int) returns (c: int)
    requires RootedTree(v, d) && x in UnionOf(v, d, cs)
    ensures c in cs && x in Subtree(v, d, c)
    decreases |cs|
  {
    if x in Subtree(v, d, cs[|cs| - 1]) {
      c := cs[|cs| - 1];
    } else {
      c := UnionWitness(v, d, cs[..|cs| - 1], x);
    }
  }

  /** The whole tree: every relation 1..n. */
  lemma RootSubtree(v: View, d: seq<nat>)
    requires RootedTree(v, d)
    ensures Subtree(v, d, v.root) == set x | x in Iota(v.t.n)
  {
    forall x | x in Iota(v.t.n)
      ensures x in Subtree(v, d, v.root)
    {
      UnderRoot(v, d, x);
    }
    forall x | x in Subtree(v, d, v.root)
      ensures x in Iota(v.t.n)
    {
      assert Iota(v.t.n)[x - 1] == x;
    }
  }
}
