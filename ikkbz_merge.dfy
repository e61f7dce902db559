/** The wedge solving of ikkbz_orderer.go as values: the rank-guided merge of
    the children's chain lists, the solved wedge of a relation, and the
    compression pass over a merged list. */
module Wedges {
  import opened Ordering
  import opened RootedTrees
  import opened Ranks

  /** A piece of a chain: a non-empty sequence of relations. */
  predicate Piece(n: nat, p: seq<int>)
  {
    p != [] && Members(n, p)
  }

  predicate Pieces(n: nat, ps: seq<seq<int>>)
  {
    forall i :: 0 <= i < |ps| ==> Piece(n, ps[i])
  }

  predicate Chains(n: nat, cs: seq<seq<seq<int>>>)
  {
    forall i :: 0 <= i < |cs| ==> Pieces(n, cs[i])
  }

  /** A rank function defined on every piece over relations 1..n. */
  ghost predicate RanksPieces(n: nat, rank: seq<int> --> real)
  {
    forall p :: Piece(n, p) ==> rank.requires(p)
  }

  /** Ranks are defined on every piece: a rooting and positive statistics. */
  ghost predicate Ranked(v: View)
  {
    Rooting(v) && Positive(v.t)
  }

  /** `R` over the pieces of a rooted view, whose costs are positive. */
  function RankOf(v: View): (rank: seq<int> --> real)
    requires Ranked(v)
    ensures RanksPieces(v.t.n, rank)
  {
    forall p | Piece(v.t.n, p) ensures C(v, p) > 0.0 {
      CostsPositive(v, p);
    }
    (p: seq<int>) requires Piece(v.t.n, p) => Rank(v, p)
  }

  /** On a piece, `RankOf` is `R`, whose cost is positive. */
  lemma RankOfPiece(v: View, p: seq<int>)
    requires Ranked(v) && Piece(v.t.n, p)
    ensures C(v, p) > 0.0 && RankOf(v)(p) == Rank(v, p)
  {
    CostsPositive(v, p);
  }

  /** The pieces of ps, concatenated left to right. */
  function Flatten(ps: seq<seq<int>>): seq<int>
  {
    if ps == [] then [] else Flatten(ps[..|ps| - 1]) + ps[|ps| - 1]
  }

  lemma {:induction false} FlattenConcat(a: seq<seq<int>>, b: seq<seq<int>>)
    ensures Flatten(a + b) == Flatten(a) + Flatten(b)
    decreases |b|
  {
    if b == [] {
      assert a + b == a;
    } else {
      var init := b[..|b| - 1];
      assert (a + b)[..|a + b| - 1] == a + init;
      assert (a + b)[|a + b| - 1] == b[|b| - 1];
      FlattenConcat(a, init);
    }
  }

  /** Flattening from the front: the first piece, then the rest. */
  lemma FlattenCons(ps: seq<seq<int>>)
    requires ps != []
    ensures Flatten(ps) == ps[0] + Flatten(ps[1..])
  {
    FlattenConcat([ps[0]], ps[1..]);
    assert ps == [ps[0]] + ps[1..];
    assert Flatten([ps[0]]) == ps[0] by {
      assert [ps[0]][..0] == [];
    }
  }

  /** The chains whose head-selection loop has looked at cs[..k]: the first
      non-empty one whose head has the least rank, or -1 when there is none.
      A later chain wins only with a strictly lower rank, so ties go to the
      lowest index. */
  function Lowest(n: nat, rank: seq<int> --> real, cs: seq<seq<seq<int>>>, k: nat): (j: int)
    requires RanksPieces(n, rank) && Chains(n, cs) && k <= |cs|
    ensures -1 <= j < k
    ensures j == -1 <==> forall i :: 0 <= i < k ==> cs[i] == []
    ensures j != -1 ==> cs[j] != []
  {
    if k == 0 then -1
    else
      var j := Lowest(n, rank, cs, k - 1);
      if cs[k - 1] != [] && (j == -1 || rank(cs[k - 1][0]) < rank(cs[j][0])) then k - 1
      else j
  }

  /** `Lowest` picks a head of least rank, and every non-empty chain before
      it has a strictly higher one. */
  lemma {:induction false} LowestIsFirstMinimal(n: nat, rank: seq<int> --> real, cs: seq<seq<seq<int>>>, k: nat)
    requires RanksPieces(n, rank) && Chains(n, cs) && k <= |cs|
    ensures var j := Lowest(n, rank, cs, k);
            j != -1 ==>
              && (forall i :: 0 <= i < k && cs[i] != [] ==> rank(cs[j][0]) <= rank(cs[i][0]))
              && (forall i :: 0 <= i < j && cs[i] != [] ==> rank(cs[j][0]) < rank(cs[i][0]))
  {
    if k > 0 {
      LowestIsFirstMinimal(n, rank, cs, k - 1);
    }
  }

  /** The number of pieces left in all the chains. */
  function Count(cs: seq<seq<seq<int>>>): nat
  {
    if cs == [] then 0 else Count(cs[..|cs| - 1]) + |cs[|cs| - 1]|
  }

  /** The chains after the head of chain j is taken. */
  function Advance(cs: seq<seq<seq<int>>>, j: nat): seq<seq<seq<int>>>
    requires j < |cs| && cs[j] != []
  {
    cs[j := cs[j][1..]]
  }

  /** Taking a head leaves one piece fewer. */
  lemma {:induction false} CountAdvance(cs: seq<seq<seq<int>>>, j: nat)
    requires j < |cs| && cs[j] != []
    ensures Count(Advance(cs, j)) + 1 == Count(cs)
    decreases |cs|
  {
    var a := Advance(cs, j);
    var k := |cs| - 1;
    if j < k {
      assert a[..k] == Advance(cs[..k], j);
      CountAdvance(cs[..k], j);
    } else {
      assert a[..k] == cs[..k];
    }
  }

  lemma AdvanceChains(n: nat, cs: seq<seq<seq<int>>>, j: nat)
    requires Chains(n, cs) && j < |cs| && cs[j] != []
    ensures Chains(n, Advance(cs, j))
  {
    var a := Advance(cs, j);
    forall i | 0 <= i < |a| ensures Pieces(n, a[i]) {
      if i == j {
        forall m | 0 <= m < |a[i]| ensures Piece(n, a[i][m]) {
          assert a[i][m] == cs[j][m + 1];
        }
      }
    }
  }

  /** The merge of `solveWedge`: repeatedly take the head of the chain
      `Lowest` selects, until every chain is used up. */
  function Merge(n: nat, rank: seq<int> --> real, cs: seq<seq<seq<int>>>): (r: seq<seq<int>>)
    requires RanksPieces(n, rank) && Chains(n, cs)
    ensures Pieces(n, r)
    decreases Count(cs)
  {
    var j := Lowest(n, rank, cs, |cs|);
    if j == -1 then []
    else
      CountAdvance(cs, j);
      AdvanceChains(n, cs, j);
      [cs[j][0]] + Merge(n, rank, Advance(cs, j))
  }

  /** r takes the pieces of the chains of cs one at a time, each chain's in
      their own order, until all are used. */
  ghost predicate Interleaving(r: seq<seq<int>>, cs: seq<seq<seq<int>>>)
    decreases |r|
  {
    if r == [] then forall i :: 0 <= i < |cs| ==> cs[i] == []
    else exists j :: 0 <= j < |cs| && cs[j] != [] && cs[j][0] == r[0] && Interleaving(r[1..], Advance(cs, j))
  }

  /** The merge interleaves the chains: it keeps every chain's order and
      drops nothing. */
  lemma {:induction false} MergeInterleaves(n: nat, rank: seq<int> --> real, cs: seq<seq<seq<int>>>)
    requires RanksPieces(n, rank) && Chains(n, cs)
    ensures Interleaving(Merge(n, rank, cs), cs)
    decreases Count(cs)
  {
    var j := Lowest(n, rank, cs, |cs|);
    if j != -1 {
      CountAdvance(cs, j);
      AdvanceChains(n, cs, j);
      MergeInterleaves(n, rank, Advance(cs, j));
      var r := Merge(n, rank, cs);
      assert r[1..] == Merge(n, rank, Advance(cs, j));
    }
  }

  /** Everything in the chains, counted with multiplicity. */
  function Contents(cs: seq<seq<seq<int>>>): multiset<int>
  {
    if cs == [] then multiset{} else Contents(cs[..|cs| - 1]) + multiset(Flatten(cs[|cs| - 1]))
  }

  /** Taking the head of chain j removes exactly that piece's relations. */
  lemma {:induction false} ContentsAdvance(cs: seq<seq<seq<int>>>, j: nat)
    requires j < |cs| && cs[j] != []
    ensures Contents(cs) == Contents(Advance(cs, j)) + multiset(cs[j][0])
    decreases |cs|
  {
    var a := Advance(cs, j);
    var k := |cs| - 1;
    if j < k {
      assert a[..k] == Advance(cs[..k], j);
      ContentsAdvance(cs[..k], j);
    } else {
      assert a[..k] == cs[..k];
      FlattenCons(cs[j]);
    }
  }

  lemma {:induction false} ContentsEmpty(cs: seq<seq<seq<int>>>)
    requires forall i :: 0 <= i < |cs| ==> cs[i] == []
    ensures Contents(cs) == multiset{}
    decreases |cs|
  {
    if cs != [] {
      ContentsEmpty(cs[..|cs| - 1]);
    }
  }

  /** An interleaving holds exactly the relations of the chains. */
  lemma {:induction false} InterleavingContents(r: seq<seq<int>>, cs: seq<seq<seq<int>>>)
    requires Interleaving(r, cs)
    ensures multiset(Flatten(r)) == Contents(cs)
    decreases |r|
  {
    if r == [] {
      ContentsEmpty(cs);
    } else {
      var j :| 0 <= j < |cs| && cs[j] != [] && cs[j][0] == r[0] && Interleaving(r[1..], Advance(cs, j));
      InterleavingContents(r[1..], Advance(cs, j));
      ContentsAdvance(cs, j);
      FlattenCons(r);
    }
  }

  /** The solved wedge of r: the piece [r], then the merge of the wedges of
      r's children, taken in ascending ID order. */
  function Wedge(v: View, d: seq<nat>, rank: seq<int> --> real, r: int): (w: seq<seq<int>>)
    requires RanksPieces(v.t.n, rank) && RootedTree(v, d) && 1 <= r <= v.t.n
    ensures w != [] && w[0] == [r] && Pieces(v.t.n, w)
    decreases v.t.n - d[r], 1, 0
  {
    assert Piece(v.t.n, [r]);
    [[r]] + Merge(v.t.n, rank, WedgesOf(v, d, rank, r, |Children(v.up, r)|))
  }

  /** The wedges of the first k children of r. */
  function WedgesOf(v: View, d: seq<nat>, rank: seq<int> --> real, r: int, k: nat): (ws: seq<seq<seq<int>>>)
    requires RanksPieces(v.t.n, rank) && RootedTree(v, d) && 1 <= r <= v.t.n && k <= |Children(v.up, r)|
    ensures |ws| == k && Chains(v.t.n, ws)
    decreases v.t.n - d[r], 0, k
  {
    if k == 0 then []
    else
      var c := Children(v.up, r)[k - 1];
      ChildDepth(v, d, r, c);
      WedgesOf(v, d, rank, r, k - 1) + [Wedge(v, d, rank, c)]
  }

  /** Two disjoint sets hold their elements once each. */
  lemma DisjointMultiset(a: set<int>, b: set<int>)
    requires a !! b
    ensures multiset(a + b) == multiset(a) + multiset(b)
  {
    forall x ensures multiset(a + b)[x] == (multiset(a) + multiset(b))[x] {
    }
  }

  /** The subtrees under the first k - 1 children do not meet the k-th
      child's. */
  lemma PrefixDisjoint(v: View, d: seq<nat>, r: int, k: nat)
    requires RootedTree(v, d) && 1 <= r <= v.t.n && 0 < k <= |Children(v.up, r)|
    ensures UnionOf(v, d, Children(v.up, r)[..k - 1]) !! Subtree(v, d, Children(v.up, r)[k - 1])
  {
    var cs := Children(v.up, r);
    var before := UnionOf(v, d, cs[..k - 1]);
    forall x | x in before
      ensures x !in Subtree(v, d, cs[k - 1])
    {
      var c := UnionWitness(v, d, cs[..k - 1], x);
      var i :| 0 <= i < k - 1 && cs[i] == c;
      ChildrenDisjoint(v, d, r, c, cs[k - 1]);
    }
  }

  /** A wedge holds r and whatever the children's wedges hold. */
  lemma WedgeContents(v: View, d: seq<nat>, rank: seq<int> --> real, r: int)
    requires RanksPieces(v.t.n, rank) && RootedTree(v, d) && 1 <= r <= v.t.n
    ensures multiset(Flatten(Wedge(v, d, rank, r))) == multiset{r} + Contents(WedgesOf(v, d, rank, r, |Children(v.up, r)|))
  {
    var chains := WedgesOf(v, d, rank, r, |Children(v.up, r)|);
    var m := Merge(v.t.n, rank, chains);
    MergeInterleaves(v.t.n, rank, chains);
    InterleavingContents(m, chains);
    FlattenConcat([[r]], m);
    assert Flatten([[r]]) == [r] by {
      assert [[r]][..0] == [];
    }
  }

  /** The subtree of r, counted: r once, and the children's subtrees. */
  lemma SubtreeContents(v: View, d: seq<nat>, r: int)
    requires RootedTree(v, d) && 1 <= r <= v.t.n
    ensures multiset(Subtree(v, d, r)) == multiset{r} + multiset(UnionOf(v, d, Children(v.up, r)))
  {
    SubtreeSplit(v, d, r);
    DisjointMultiset({r}, UnionOf(v, d, Children(v.up, r)));
  }

  /** Flattening a wedge lists every relation of r's subtree exactly once. */
  lemma {:induction false} WedgeCovers(v: View, d: seq<nat>, rank: seq<int> --> real, r: int)
    requires RanksPieces(v.t.n, rank) && RootedTree(v, d) && 1 <= r <= v.t.n
    ensures multiset(Flatten(Wedge(v, d, rank, r))) == multiset(Subtree(v, d, r))
    decreases v.t.n - d[r], 1, 0
  {
    var cs := Children(v.up, r);
    WedgesOfCover(v, d, rank, r, |cs|);
    assert cs[..|cs|] == cs;
    WedgeContents(v, d, rank, r);
    SubtreeContents(v, d, r);
  }

  /** One more child: its wedge's relations join the count. */
  lemma WedgesOfStep(v: View, d: seq<nat>, rank: seq<int> --> real, r: int, k: nat)
    requires RanksPieces(v.t.n, rank) && RootedTree(v, d) && 1 <= r <= v.t.n && 0 < k <= |Children(v.up, r)|
    ensures Contents(WedgesOf(v, d, rank, r, k))
            == Contents(WedgesOf(v, d, rank, r, k - 1)) + multiset(Flatten(Wedge(v, d, rank, Children(v.up, r)[k - 1])))
  {
    ChildDepth(v, d, r, Children(v.up, r)[k - 1]);
    var ws := WedgesOf(v, d, rank, r, k);
    assert ws[..k - 1] == WedgesOf(v, d, rank, r, k - 1);
  }

  /** One more child: its subtree joins the union, which it does not meet. */
  lemma UnionStep(v: View, d: seq<nat>, r: int, k: nat)
    requires RootedTree(v, d) && 1 <= r <= v.t.n && 0 < k <= |Children(v.up, r)|
    ensures multiset(UnionOf(v, d, Children(v.up, r)[..k]))
            == multiset(UnionOf(v, d, Children(v.up, r)[..k - 1])) + multiset(Subtree(v, d, Children(v.up, r)[k - 1]))
  {
    var cs := Children(v.up, r);
    assert cs[..k][..k - 1] == cs[..k - 1];
    PrefixDisjoint(v, d, r, k);
    DisjointMultiset(UnionOf(v, d, cs[..k - 1]), Subtree(v, d, cs[k - 1]));
  }

  /** The wedges of r's first k children hold exactly the relations under
      those children. */
  lemma {:induction false} WedgesOfCover(v: View, d: seq<nat>, rank: seq<int> --> real, r: int, k: nat)
    requires RanksPieces(v.t.n, rank) && RootedTree(v, d) && 1 <= r <= v.t.n && k <= |Children(v.up, r)|
    ensures Contents(WedgesOf(v, d, rank, r, k)) == multiset(UnionOf(v, d, Children(v.up, r)[..k]))
    decreases v.t.n - d[r], 0, k
  {
    if k > 0 {
      var c := Children(v.up, r)[k - 1];
      ChildDepth(v, d, r, c);
      WedgesOfStep(v, d, rank, r, k);
      WedgesOfCover(v, d, rank, r, k - 1);
      WedgeCovers(v, d, rank, c);
      UnionStep(v, d, r, k);
    }
  }

  lemma MembersConcat(n: nat, a: seq<int>, b: seq<int>)
    requires Members(n, a) && Members(n, b)
    ensures Members(n, a + b)
  {
  }

  /** The compression pass over ps[..k]: a piece whose rank is strictly
      lower than that of the last compressed piece is appended to it;
      otherwise it starts a new compressed piece. */
  function Compressed(n: nat, rank: seq<int> --> real, ps: seq<seq<int>>, k: nat): (cs: seq<seq<int>>)
    requires RanksPieces(n, rank) && Pieces(n, ps) && 1 <= k <= |ps|
    ensures 1 <= |cs| <= k && Pieces(n, cs)
  {
    if k == 1 then [ps[0]]
    else
      var prev := Compressed(n, rank, ps, k - 1);
      var last := prev[|prev| - 1];
      if rank(ps[k - 1]) < rank(last) then
        MembersConcat(n, last, ps[k - 1]);
        prev[|prev| - 1 := last + ps[k - 1]]
      else prev + [ps[k - 1]]
  }

  /** Flattening up to k: that up to k - 1, then the k-th piece. */
  lemma FlattenPrefix(ps: seq<seq<int>>, k: nat)
    requires 0 < k <= |ps|
    ensures Flatten(ps[..k]) == Flatten(ps[..k - 1]) + ps[k - 1]
  {
    assert ps[..k][..k - 1] == ps[..k - 1];
  }

  /** Appending x to the last piece appends x to the flattening. */
  lemma FlattenGrowLast(ps: seq<seq<int>>, x: seq<int>)
    requires ps != []
    ensures Flatten(ps[|ps| - 1 := ps[|ps| - 1] + x]) == Flatten(ps) + x
  {
    var m := |ps| - 1;
    var qs := ps[m := ps[m] + x];
    assert qs[..m] == ps[..m];
  }

  /** Compression only joins neighbouring pieces: the relations and their
      order stay those of ps[..k]. */
  lemma {:induction false} CompressedKeepsOrder(n: nat, rank: seq<int> --> real, ps: seq<seq<int>>, k: nat)
    requires RanksPieces(n, rank) && Pieces(n, ps) && 1 <= k <= |ps|
    ensures Flatten(Compressed(n, rank, ps, k)) == Flatten(ps[..k])
  {
    FlattenPrefix(ps, k);
    if k == 1 {
      assert ps[..0] == [];
    } else {
      CompressedKeepsOrder(n, rank, ps, k - 1);
      var prev := Compressed(n, rank, ps, k - 1);
      if rank(ps[k - 1]) < rank(prev[|prev| - 1]) {
        FlattenGrowLast(prev, ps[k - 1]);
      }
    }
  }
}
