/** The IKKBZ orderer of ikkbz_orderer.go: an orderer with a chosen root and
    a parent array that roots the query tree, the Ibaraki–Kameda functions
    over it, wedge solving, and the search over roots. */
module Ikkbz {
  import opened Util
  import opened Ordering
  import opened RootedTrees
  import opened Ranks
  import opened Wedges

  /** x has its parent in ps: it is the root, or its entry is set. */
  predicate Assigned(v: View, ps: seq<int>, x: int)
    requires 0 <= x < |ps|
  {
    x == v.root || ps[x] != 0
  }

  /** The test of `SetRoot`'s scan that passes i over: i is the current
      relation, already hangs off it, or is its parent. */
  predicate Skipped(ps: seq<int>, cur: int, i: int)
    requires 0 <= i < |ps| && 0 <= cur < |ps|
  {
    i == cur || ps[i] == cur || ps[cur] == i
  }

  /** The state of `SetRoot`'s walk towards the rooting v: every set entry
      is the one v gives, `cur` has its parent, entries are set from parents
      down, and a relation off the path from the root to `cur` whose parent
      is set has its own entry set (its parent's scan is finished). */
  ghost predicate Walk(v: View, d: seq<nat>, ps: seq<int>, cur: int)
  {
    && RootedTree(v, d) && |ps| == |v.up|
    && ps[0] == 0 && ps[v.root] == 0
    && (forall x :: 1 <= x <= v.t.n ==> ps[x] == 0 || ps[x] == v.up[x])
    && 1 <= cur <= v.t.n && Assigned(v, ps, cur)
    && (forall x :: 1 <= x <= v.t.n && ps[x] != 0 ==> Assigned(v, ps, v.up[x]))
    && (forall c :: 1 <= c <= v.t.n && c != v.root && Assigned(v, ps, v.up[c]) && !Desc(v, d, v.up[c], cur) ==> ps[c] != 0)
  }

  /** The relations still without a parent. */
  ghost function Unassigned(v: View, ps: seq<int>): set<int>
    requires |ps| == v.t.n + 1
  {
    set x | 1 <= x <= v.t.n && x != v.root && ps[x] == 0
  }

  /** The walk starts at the root with every entry cleared. */
  lemma WalkStart(v: View, d: seq<nat>, ps: seq<int>)
    requires RootedTree(v, d) && |ps| == |v.up| && forall x :: 0 <= x < |ps| ==> ps[x] == 0
    ensures Walk(v, d, ps, v.root)
  {
    assert Desc(v, d, v.root, v.root);
  }

  /** A relation the scan stops at is an unattached child of `cur`. */
  lemma WalkChild(v: View, d: seq<nat>, ps: seq<int>, cur: int, i: int)
    requires Walk(v, d, ps, cur) && 1 <= i <= v.t.n && !Skipped(ps, cur, i) && Adj(v.t, i, cur)
    ensures v.up[i] == cur && i != v.root && ps[i] == 0
  {
  }

  /** Hanging an unattached child of `cur` off it and moving to it keeps the
      walk going. */
  lemma WalkForward(v: View, d: seq<nat>, ps: seq<int>, cur: int, i: int)
    requires Walk(v, d, ps, cur) && 1 <= i <= v.t.n && i != v.root && v.up[i] == cur && ps[i] == 0
    ensures Walk(v, d, ps[i := cur], i)
  {
    var ps' := ps[i := cur];
    forall c | 1 <= c <= v.t.n && c != v.root && Assigned(v, ps', v.up[c]) && !Desc(v, d, v.up[c], i)
      ensures ps'[c] != 0
    {
      DescStep(v, d, v.up[c], i);
    }
  }

  /** Setting the entry of an unattached relation leaves one relation fewer
      without a parent. */
  lemma UnassignedShrinks(v: View, ps: seq<int>, cur: int, i: int)
    requires |ps| == v.t.n + 1 && 1 <= i <= v.t.n && i != v.root && ps[i] == 0 && cur != 0
    ensures i in Unassigned(v, ps) && Unassigned(v, ps[i := cur]) == Unassigned(v, ps) - {i}
  {
  }

  /** When the scan finds nothing, every child of `cur` hangs off it. Moving
      back to the parent keeps the walk going; at the root every entry is
      the one the rooting gives. */
  lemma WalkBack(v: View, d: seq<nat>, ps: seq<int>, cur: int)
    requires Walk(v, d, ps, cur)
    requires forall i :: 1 <= i <= v.t.n ==> Skipped(ps, cur, i) || !Adj(v.t, i, cur)
    ensures cur != v.root ==> ps[cur] == v.up[cur] && d[ps[cur]] < d[cur] && Walk(v, d, ps, ps[cur])
    ensures cur == v.root ==> ps == v.up
  {
    forall c | 1 <= c <= v.t.n && c != v.root && v.up[c] == cur
      ensures ps[c] == cur
    {
      assert Adj(v.t, c, cur);
    }
    if cur != v.root {
      var p := v.up[cur];
      forall c | 1 <= c <= v.t.n && c != v.root && Assigned(v, ps, v.up[c]) && !Desc(v, d, v.up[c], p)
        ensures ps[c] != 0
      {
        DescStep(v, d, v.up[c], cur);
      }
    } else {
      forall x | 1 <= x <= v.t.n
        ensures Assigned(v, ps, x)
      {
        AllAssigned(v, d, ps, x);
      }
    }
  }

  /** Once every relation whose parent has its entry has one too, all do. */
  lemma {:induction false} AllAssigned(v: View, d: seq<nat>, ps: seq<int>, x: int)
    requires RootedTree(v, d) && |ps| == |v.up| && 1 <= x <= v.t.n
    requires forall c :: 1 <= c <= v.t.n && c != v.root && Assigned(v, ps, v.up[c]) ==> ps[c] != 0
    ensures Assigned(v, ps, x)
    decreases d[x]
  {
    if x != v.root {
      AllAssigned(v, d, ps, v.up[x]);
    }
  }

  /** Flattening pieces keeps every ID in range; flattening a non-empty
      list of pieces gives a non-empty sequence. */
  lemma {:induction false} FlattenPieces(n: nat, ps: seq<seq<int>>)
    requires Pieces(n, ps)
    ensures Members(n, Flatten(ps))
    ensures ps != [] ==> Flatten(ps) != []
  {
    if ps != [] {
      var init := ps[..|ps| - 1];
      assert Pieces(n, init);
      FlattenPieces(n, init);
      MembersConcat(n, Flatten(init), ps[|ps| - 1]);
    }
  }

  /** One step of the loops of `T` and `C`: multiplying in the next factor
      gives the next product, and adding the running product times it gives
      the next accumulated cost. */
  lemma AccumulateStep(fs: seq<real>, i: nat, factor: real, cost: real, c: real)
    requires i < |fs| && factor == Product(fs, i) && cost == Accumulated(fs, i) && c == fs[i]
    ensures factor * c == Product(fs, i + 1)
    ensures cost + factor * c == Accumulated(fs, i + 1)
  {
    ProductStep(fs, i + 1, i);
  }

  /** One step of the selection loop, with the ranks it compares named:
      chain i takes over when it is non-empty and its head ranks strictly
      below the head of the chain selected so far. */
  lemma LowestNext(v: View, cs: seq<seq<seq<int>>>, i: nat, cur: int, a: real, b: real)
    requires Ranked(v) && Chains(v.t.n, cs) && i < |cs|
    requires cur == Lowest(v.t.n, RankOf(v), cs, i)
    requires cur != -1 ==> C(v, cs[cur][0]) > 0.0 && a == Rank(v, cs[cur][0])
    requires cs[i] != [] ==> C(v, cs[i][0]) > 0.0 && b == Rank(v, cs[i][0])
    ensures Lowest(v.t.n, RankOf(v), cs, i + 1) == if cs[i] != [] && (cur == -1 || b < a) then i else cur
  {
    if cur != -1 {
      RankOfPiece(v, cs[cur][0]);
    }
    if cs[i] != [] {
      RankOfPiece(v, cs[i][0]);
    }
  }

  /** One step of the compression loop, with the comparison of the two
      ranks named: below means the new piece ranks strictly below the last
      compressed one. */
  lemma CompressedNext(v: View, ps: seq<seq<int>>, i: nat, prev: seq<seq<int>>, below: bool)
    requires Ranked(v) && Pieces(v.t.n, ps) && 1 <= i < |ps|
    requires prev == Compressed(v.t.n, RankOf(v), ps, i)
    requires C(v, prev[|prev| - 1]) > 0.0 && C(v, ps[i]) > 0.0
    requires below == (Rank(v, ps[i]) < Rank(v, prev[|prev| - 1]))
    ensures Compressed(v.t.n, RankOf(v), ps, i + 1)
            == if below then prev[|prev| - 1 := prev[|prev| - 1] + ps[i]] else prev + [ps[i]]
  {
    RankOfPiece(v, prev[|prev| - 1]);
    RankOfPiece(v, ps[i]);
  }

  /** One step of the first loop of `solveWedge`: the wedges of the first
      i + 1 children are those of the first i, then the wedge of child i. */
  lemma WedgesOfNext(v: View, d: seq<nat>, r: int, i: nat, c: int, w: seq<seq<int>>)
    requires Ranked(v) && RootedTree(v, d) && 1 <= r <= v.t.n
    requires i < |Children(v.up, r)| && c == Children(v.up, r)[i]
    requires 1 <= c <= v.t.n && w == Wedge(v, d, RankOf(v), c)
    ensures WedgesOf(v, d, RankOf(v), r, i + 1) == WedgesOf(v, d, RankOf(v), r, i) + [w]
  {
  }

  /** A relation's factor in `T` and `C`: its rooted selectivity times its
      cardinality. */
  lemma ContributionIs(v: View, x: int, sel: real, card: int)
    requires Rooting(v) && 1 <= x <= v.t.n && sel == RootedSel(v, x) && card == Card(v.t, x)
    ensures sel * card as real == Contribution(v, x)
  {
  }

  /** A rooting and its depths for every root `Order` tries, 1 .. n-1. */
  ghost predicate RootedAtEach(t: Tables, ups: seq<seq<int>>, ds: seq<seq<nat>>)
  {
    |ups| == t.n && |ds| == t.n && forall k :: 1 <= k < t.n ==> RootedTree(View(t, ups[k], k), ds[k])
  }

  /** The order `Order` computes with k as root: the flattened wedge of k. */
  ghost function RootOrder(t: Tables, ups: seq<seq<int>>, ds: seq<seq<nat>>, k: int): (q: seq<int>)
    requires Positive(t) && RootedAtEach(t, ups, ds) && 1 <= k < t.n
    ensures Members(t.n, q) && q != []
  {
    var v := View(t, ups[k], k);
    var w := Wedge(v, ds[k], RankOf(v), k);
    FlattenPieces(t.n, w);
    Flatten(w)
  }

  /** The cost `C` gives that order, rooted at k. */
  ghost function RootCost(t: Tables, ups: seq<seq<int>>, ds: seq<seq<nat>>, k: int): real
    requires Positive(t) && RootedAtEach(t, ups, ds) && 1 <= k < t.n
  {
    C(View(t, ups[k], k), RootOrder(t, ups, ds, k))
  }

  /** The cost of each root's order, at its own index (index 0 is unused). */
  ghost function RootCosts(t: Tables, ups: seq<seq<int>>, ds: seq<seq<nat>>): (costs: seq<real>)
    requires Positive(t) && RootedAtEach(t, ups, ds)
    ensures |costs| == t.n
    ensures forall k :: 1 <= k < t.n ==> costs[k] == RootCost(t, ups, ds, k)
  {
    seq(t.n, k => if 1 <= k < t.n then RootCost(t, ups, ds, k) else 0.0)
  }

  /** Among indices 1 .. i-1, k holds the lowest cost, and is the first to. */
  ghost predicate FirstMin(costs: seq<real>, i: int, k: int)
    requires i <= |costs|
  {
    && 1 <= k < i
    && (forall j :: 1 <= j < i ==> costs[k] <= costs[j])
    && (forall j :: 1 <= j < k ==> costs[k] < costs[j])
  }

  /** Taking index i after those below it: the first lowest so far stays,
      unless i is strictly lower (or the first taken). */
  lemma FirstMinExtend(costs: seq<real>, i: int, k: int, k': int)
    requires 1 <= i < |costs| && (i == 1 || FirstMin(costs, i, k))
    requires k' == if i == 1 || costs[i] < costs[k] then i else k
    ensures FirstMin(costs, i + 1, k')
  {
  }

  /** The state `Order`'s loop keeps once some root was tried: the best
      root so far, its order and its (positive) cost. */
  ghost predicate Leading(t: Tables, ups: seq<seq<int>>, ds: seq<seq<nat>>, i: int, k: int, best: seq<int>, bestCost: real)
    requires Positive(t) && RootedAtEach(t, ups, ds) && i <= t.n
  {
    && FirstMin(RootCosts(t, ups, ds), i, k) && best == RootOrder(t, ups, ds, k)
    && bestCost == RootCost(t, ups, ds, k) && bestCost > 0.0
  }

  /** Whatever the root, its order holds every relation exactly once. */
  lemma RootOrderCovers(t: Tables, ups: seq<seq<int>>, ds: seq<seq<nat>>, k: int)
    requires Positive(t) && RootedAtEach(t, ups, ds) && 1 <= k < t.n
    ensures multiset(RootOrder(t, ups, ds, k)) == multiset(set x | x in Iota(t.n))
  {
    var v := View(t, ups[k], k);
    WedgeCovers(v, ds[k], RankOf(v), k);
    RootSubtree(v, ds[k]);
  }

  /** Every root's order has a positive cost. */
  lemma RootCostPositive(t: Tables, ups: seq<seq<int>>, ds: seq<seq<nat>>, k: int)
    requires Positive(t) && RootedAtEach(t, ups, ds) && 1 <= k < t.n
    ensures RootCost(t, ups, ds, k) > 0.0
  {
    CostsPositive(View(t, ups[k], k), RootOrder(t, ups, ds, k));
  }

  class IkkbzOrderer {
    const base: Orderer
    var root: int
    const parents: array<int>

    ghost predicate Valid()
      reads this, base, base.cardinalities, base.selectivities, parents
    {
      && base.Valid() && parents.Length == base.numRelations + 1 && parents != base.cardinalities
      && 0 <= root <= base.numRelations
      && (root != 0 ==> Rooting(Current()))
    }

    /** The statistics, the parent array and the root as a value. */
    function Current(): View
      reads this, base, base.cardinalities, base.selectivities, parents
      requires base.Valid()
    {
      View(base.Model(), parents[..], root)
    }

    /** `NewIKKBZOrderer`: a fresh orderer, no root, every parent 0. */
    constructor (numRels: nat)
      ensures Valid() && root == 0 && base.Model() == Fresh(numRels)
      ensures parents[..] == seq(numRels + 1, _ => 0)
      ensures fresh(base) && fresh(base.cardinalities) && fresh(base.selectivities) && fresh(parents)
    {
      base := new Orderer(numRels);
      parents := new int[numRels + 1](_ => 0);
      root := 0;
    }

    /** The scan of `SetRoot`: the first relation from 1 up that is adjacent
        to `cur` and neither `cur` itself, nor already hanging off it, nor
        its parent; one past the last relation when there is none. */
    method NextChild(cur: int) returns (j: int)
      requires base.Valid() && parents.Length == base.numRelations + 1 && 1 <= cur <= base.numRelations
      ensures 1 <= j <= base.numRelations + 1
      ensures forall k :: 1 <= k < j ==> Skipped(parents[..], cur, k) || !Adj(base.Model(), k, cur)
      ensures j <= base.numRelations ==> !Skipped(parents[..], cur, j) && Adj(base.Model(), j, cur)
    {
      j := 1;
      while j <= base.numRelations && (j == cur || parents[j] == cur || parents[cur] == j || !base.Adjacent(j, cur))
        invariant 1 <= j <= base.numRelations + 1
        invariant forall k :: 1 <= k < j ==> Skipped(parents[..], cur, k) || !Adj(base.Model(), k, cur)
      {
        j := j + 1;
      }
    }

    /** Roots the query tree at r. The walk is a depth-first search that keeps
        no stack: it moves down to the first adjacent relation not yet
        attached, and back up through the parent array once there is none.
        On a tree it ends with the parent array the rooting gives, so the
        "not a tree" panic is never reached. */
    method SetRoot(r: int, ghost up: seq<int>, ghost d: seq<nat>)
      requires Valid() && RootedTree(View(base.Model(), up, r), d)
      modifies this, parents
      ensures Valid() && root == r && parents[..] == up
    {
      ghost var v := View(base.Model(), up, r);
      root := r;
      var i := 0;
      while i < parents.Length
        invariant 0 <= i <= parents.Length
        invariant forall k :: 0 <= k < i ==> parents[k] == 0
        invariant base.Model() == v.t && root == r
      {
        parents[i] := 0;
        i := i + 1;
      }
      var cur := r;
      WalkStart(v, d, parents[..]);
      while true
        invariant base.Model() == v.t && root == r && parents.Length == v.t.n + 1
        invariant Walk(v, d, parents[..], cur)
        decreases |Unassigned(v, parents[..])|, d[cur]
      {
        var j := NextChild(cur);
        if j <= base.numRelations {
          WalkChild(v, d, parents[..], cur, j);
          if parents[j] != 0 {
            assert false;
          }
          WalkForward(v, d, parents[..], cur, j);
          UnassignedShrinks(v, parents[..], cur, j);
          parents[j] := cur;
          cur := j;
        } else {
          WalkBack(v, d, parents[..], cur);
          cur := parents[cur];
          if cur == 0 {
            break;
          }
        }
      }
    }

    /** The orderer is rooted, v is what it holds, and the statistics are
        positive, so every piece has a rank. */
    ghost predicate Holds(v: View)
      reads this, base, base.cardinalities, base.selectivities, parents
    {
      Valid() && root != 0 && v == Current() && Positive(v.t)
    }

    /** `RootedSelectivity`: 1 for the root, otherwise the selectivity
        between x and its parent; `None` stands for the "root not set"
        panic. */
    function RootedSelectivity(x: int): (r: Option<real>)
      reads this, base, base.cardinalities, base.selectivities, parents
      requires Valid() && 1 <= x <= base.numRelations
      ensures root == 0 <==> r == None
      ensures root != 0 ==> r == Some(RootedSel(Current(), x))
    {
      if root == 0 then None
      else if root == x then Some(1.0)
      else Some(base.GetSelectivity(x, parents[x]))
    }

    /** The factor `T` and `C` multiply in for x: its rooted selectivity
        times its cardinality. */
    function ContributionOf(x: int): (c: real)
      reads this, base, base.cardinalities, base.selectivities, parents
      requires Valid() && root != 0 && 1 <= x <= base.numRelations
      ensures c == Contribution(Current(), x)
    {
      var rs := RootedSelectivity(x);
      var card := base.Cardinality(x);
      ContributionIs(Current(), x, rs.value, card);
      rs.value * card as real
    }

    /** `T`: the product of the contributions of s. */
    method T(s: seq<int>) returns (p: real)
      requires Valid() && root != 0 && Members(base.numRelations, s)
      ensures p == Ranks.T(Current(), s)
    {
      ghost var v := Current();
      ghost var fs := Factors(v, s);
      p := 1.0;
      var i := 0;
      while i < |s|
        invariant 0 <= i <= |s|
        invariant p == Product(fs, i)
      {
        var contribution := ContributionOf(s[i]);
        AccumulateStep(fs, i, p, Accumulated(fs, i), contribution);
        p := p * contribution;
        i := i + 1;
      }
    }

    /** `C`: the running cost, adding at each step the product so far times
        the next contribution. */
    method C(s: seq<int>) returns (cost: real)
      requires Valid() && root != 0 && Members(base.numRelations, s)
      ensures cost == Ranks.C(Current(), s)
    {
      ghost var v := Current();
      ghost var fs := Factors(v, s);
      cost := 0.0;
      var factor := 1.0;
      var i := 0;
      while i < |s|
        invariant 0 <= i <= |s|
        invariant factor == Product(fs, i) && cost == Accumulated(fs, i)
      {
        var contribution := ContributionOf(s[i]);
        AccumulateStep(fs, i, factor, cost, contribution);
        cost := cost + factor * contribution;
        factor := factor * contribution;
        i := i + 1;
      }
    }

    /** `R`: (T - 1) / C; `None` stands for the empty-sequence panic. With
        positive statistics C is positive on every non-empty sequence. */
    method R(s: seq<int>, ghost v: View) returns (r: Option<real>)
      requires Holds(v) && Members(v.t.n, s)
      ensures s == [] <==> r == None
      ensures s != [] ==> Ranks.C(v, s) > 0.0 && r == Some(Rank(v, s))
      ensures Holds(v)
    {
      if |s| == 0 {
        return None;
      }
      CostsPositive(v, s);
      var t := T(s);
      var c := C(s);
      return Some((t - 1.0) / c);
    }

    /** `ChildrenOf`: the relations whose parent entry is r, ascending. */
    method ChildrenOf(r: int, ghost v: View) returns (cs: seq<int>)
      requires Valid() && v == Current()
      ensures cs == Children(v.up, r)
      ensures Valid() && v == Current()
    {
      cs := [];
      var i := 1;
      while i < parents.Length
        invariant 1 <= i <= parents.Length
        invariant cs == ChildrenBelow(parents[..], r, i)
      {
        if parents[i] == r {
          cs := cs + [i];
        }
        i := i + 1;
      }
    }

    /** One iteration of the selection loop of `solveWedge`: chain i is
        selected when it is non-empty and its head ranks strictly below the
        head of the chain selected so far. */
    method SelectStep(chains: seq<seq<seq<int>>>, i: int, idx: int, lowestRank: real, ghost v: View)
      returns (idx': int, lowestRank': real)
      requires Holds(v) && Chains(v.t.n, chains) && 0 <= i < |chains|
      requires idx == Lowest(v.t.n, RankOf(v), chains, i)
      requires idx != -1 ==> Ranks.C(v, chains[idx][0]) > 0.0 && lowestRank == Rank(v, chains[idx][0])
      ensures idx' == Lowest(v.t.n, RankOf(v), chains, i + 1)
      ensures idx' != -1 ==> Ranks.C(v, chains[idx'][0]) > 0.0 && lowestRank' == Rank(v, chains[idx'][0])
      ensures Holds(v)
    {
      idx', lowestRank' := idx, lowestRank;
      if |chains[i]| != 0 {
        assert Piece(v.t.n, chains[i][0]);
        var rk := R(chains[i][0], v);
        LowestNext(v, chains, i, idx, lowestRank, rk.value);
        if idx == -1 || rk.value < lowestRank {
          idx', lowestRank' := i, rk.value;
        }
      } else {
        LowestNext(v, chains, i, idx, lowestRank, 0.0);
      }
    }

    /** The selection loop of `solveWedge`: the first chain whose head has
        the lowest rank, or -1 once every chain is used up. */
    method PickLowest(chains: seq<seq<seq<int>>>, ghost v: View) returns (idx: int)
      requires Holds(v) && Chains(v.t.n, chains)
      ensures idx == Lowest(v.t.n, RankOf(v), chains, |chains|)
      ensures Holds(v)
    {
      ghost var rank := RankOf(v);
      idx := -1;
      var lowestRank := 0.0;
      var i := 0;
      while i < |chains|
        invariant 0 <= i <= |chains|
        invariant idx == Lowest(v.t.n, rank, chains, i)
        invariant idx != -1 ==> Ranks.C(v, chains[idx][0]) > 0.0 && lowestRank == Rank(v, chains[idx][0])
        invariant Holds(v)
      {
        idx, lowestRank := SelectStep(chains, i, idx, lowestRank, v);
        i := i + 1;
      }
    }

    /** The merge loop of `solveWedge`: after [r], the heads of the chains,
        lowest rank first, until every chain is used up. */
    method MergeChains(r: int, chains0: seq<seq<seq<int>>>, ghost v: View) returns (result: seq<seq<int>>)
      requires Holds(v) && 1 <= r <= v.t.n && Chains(v.t.n, chains0)
      ensures result == [[r]] + Merge(v.t.n, RankOf(v), chains0)
      ensures Holds(v)
    {
      ghost var rank := RankOf(v);
      var chains := chains0;
      result := [[r]];
      while true
        invariant Chains(v.t.n, chains)
        invariant result + Merge(v.t.n, rank, chains) == [[r]] + Merge(v.t.n, rank, chains0)
        invariant Holds(v)
        decreases Count(chains)
      {
        var lowestIdx := PickLowest(chains, v);
        if lowestIdx == -1 {
          break;
        }
        CountAdvance(chains, lowestIdx);
        AdvanceChains(v.t.n, chains, lowestIdx);
        result := result + [chains[lowestIdx][0]];
        chains := chains[lowestIdx := chains[lowestIdx][1..]];
      }
    }

    /** The comparison in the compression loop of `solveWedge`: whether
        piece b ranks strictly below piece a. */
    method RanksBelow(b: seq<int>, a: seq<int>, ghost v: View) returns (below: bool)
      requires Holds(v) && Piece(v.t.n, a) && Piece(v.t.n, b)
      ensures Ranks.C(v, a) > 0.0 && Ranks.C(v, b) > 0.0
      ensures below <==> Rank(v, b) < Rank(v, a)
      ensures Holds(v)
    {
      var prevRank := R(a, v);
      var newRank := R(b, v);
      below := newRank.value < prevRank.value;
    }

    /** One iteration of the compression loop of `solveWedge`: piece i is
        appended to the last compressed piece when it ranks strictly below
        it, and starts a new one otherwise. */
    method CompressStep(compressed: seq<seq<int>>, piece: seq<int>, ghost result: seq<seq<int>>, ghost i: nat, ghost v: View)
      returns (next: seq<seq<int>>)
      requires Holds(v) && Pieces(v.t.n, result) && 1 <= i < |result| && piece == result[i]
      requires compressed == Compressed(v.t.n, RankOf(v), result, i)
      ensures next == Compressed(v.t.n, RankOf(v), result, i + 1)
      ensures Holds(v)
    {
      var last := compressed[|compressed| - 1];
      assert Piece(v.t.n, last) && Piece(v.t.n, piece);
      var below := RanksBelow(piece, last, v);
      CompressedNext(v, result, i, compressed, below);
      if below {
        next := compressed[|compressed| - 1 := last + piece];
      } else {
        next := compressed + [piece];
      }
    }

    /** The compression loop of `solveWedge`: a piece ranked strictly below
        the last compressed piece is appended to it, any other piece starts
        a new one. */
    method Compress(result: seq<seq<int>>, ghost v: View) returns (compressed: seq<seq<int>>)
      requires Holds(v) && result != [] && Pieces(v.t.n, result)
      ensures compressed == Compressed(v.t.n, RankOf(v), result, |result|)
      ensures Holds(v)
    {
      ghost var rank := RankOf(v);
      compressed := [result[0]];
      var i := 1;
      while i < |result|
        invariant 1 <= i <= |result|
        invariant compressed == Compressed(v.t.n, rank, result, i)
        invariant Holds(v)
      {
        compressed := CompressStep(compressed, result[i], result, i, v);
        i := i + 1;
      }
    }

    /** `solveWedge`: [r], then the merged wedges of r's children. The
        compressed list is computed and dropped: the uncompressed one is
        returned. The ghost v and d are the rooting held and its depths. */
    method SolveWedge(r: int, ghost v: View, ghost d: seq<nat>) returns (result: seq<seq<int>>)
      requires Holds(v) && RootedTree(v, d) && 1 <= r <= v.t.n
      ensures result == Wedge(v, d, RankOf(v), r)
      ensures Holds(v)
      decreases v.t.n - d[r], 2
    {
      ghost var rank := RankOf(v);
      var chains := SolveChildren(r, v, d);
      result := MergeChains(r, chains, v);
      assert result == Wedge(v, d, rank, r);
      var compressed := Compress(result, v);
    }

    /** The first loop of `solveWedge`: the solved wedge of each child of r,
        in ascending ID order. */
    method SolveChildren(r: int, ghost v: View, ghost d: seq<nat>) returns (chains: seq<seq<seq<int>>>)
      requires Holds(v) && RootedTree(v, d) && 1 <= r <= v.t.n
      ensures chains == WedgesOf(v, d, RankOf(v), r, |Children(v.up, r)|)
      ensures Holds(v)
      decreases v.t.n - d[r], 1
    {
      var children := ChildrenOf(r, v);
      chains := [];
      var i := 0;
      while i < |children|
        invariant 0 <= i <= |children| && children == Children(v.up, r)
        invariant chains == WedgesOf(v, d, RankOf(v), r, i)
        invariant Holds(v)
      {
        chains := SolveChild(r, children[i], i, chains, v, d);
        i := i + 1;
      }
    }

    /** One iteration of the first loop of `solveWedge`: the solved wedge of
        c, the i-th child of r, appended to those of the children before
        it. */
    method SolveChild(r: int, c: int, ghost i: nat, chains: seq<seq<seq<int>>>, ghost v: View, ghost d: seq<nat>)
      returns (chains': seq<seq<seq<int>>>)
      requires Holds(v) && RootedTree(v, d) && 1 <= r <= v.t.n
      requires i < |Children(v.up, r)| && c == Children(v.up, r)[i]
      requires chains == WedgesOf(v, d, RankOf(v), r, i)
      ensures chains' == WedgesOf(v, d, RankOf(v), r, i + 1)
      ensures Holds(v)
      decreases v.t.n - d[r], 0
    {
      ChildDepth(v, d, r, c);
      var w := SolveWedge(c, v, d);
      WedgesOfNext(v, d, r, i, c, w);
      chains' := chains + [w];
    }

    /** The body of `Order`'s loop for root i: roots the tree at i, solves
        the wedge of i, flattens it and costs it. */
    method TryRoot(i: int, ghost ups: seq<seq<int>>, ghost ds: seq<seq<nat>>) returns (flattened: seq<int>, cost: real)
      requires Valid() && Positive(base.Model()) && RootedAtEach(base.Model(), ups, ds) && 1 <= i < base.numRelations
      modifies this, parents
      ensures Valid() && base.Model() == old(base.Model())
      ensures root == i && parents[..] == ups[i]
      ensures flattened == RootOrder(base.Model(), ups, ds, i) && cost == RootCost(base.Model(), ups, ds, i)
    {
      ghost var t := base.Model();
      SetRoot(i, ups[i], ds[i]);
      ghost var v := View(t, ups[i], i);
      assert Current() == v;
      var result := SolveWedge(i, v, ds[i]);
      assert result == Wedge(v, ds[i], RankOf(v), i);
      flattened := Concatenation(result);
      assert flattened == RootOrder(t, ups, ds, i);
      cost := C(flattened);
    }

    /** The flattening loop of `Order`: the pieces of a wedge, one after
        another. */
    static method Concatenation(result: seq<seq<int>>) returns (flattened: seq<int>)
      ensures flattened == Flatten(result)
    {
      flattened := [];
      var j := 0;
      while j < |result|
        invariant 0 <= j <= |result|
        invariant flattened == Flatten(result[..j])
      {
        FlattenPrefix(result, j + 1);
        flattened := flattened + result[j];
        j := j + 1;
      }
      assert result[..|result|] == result;
    }

    /** `Order`: tries the roots 1 .. n-1 in turn and keeps the first whose
        flattened wedge has the strictly lowest `C`. Relation n is never
        tried as root, and with fewer than two relations the result is
        empty. */
    method Order(ghost ups: seq<seq<int>>, ghost ds: seq<seq<nat>>) returns (best: seq<int>)
      requires Valid() && Positive(base.Model()) && RootedAtEach(base.Model(), ups, ds)
      modifies this, parents
      ensures Valid() && base.Model() == old(base.Model())
      ensures base.numRelations <= 1 ==> best == [] && root == old(root) && parents[..] == old(parents[..])
      ensures base.numRelations >= 2 ==> root == base.numRelations - 1 && parents[..] == ups[base.numRelations - 1]
      ensures base.numRelations >= 2 ==>
                && (exists k :: FirstMin(RootCosts(base.Model(), ups, ds), base.numRelations, k) && best == RootOrder(base.Model(), ups, ds, k))
                && multiset(best) == multiset(set x | x in Iota(base.numRelations))
    {
      ghost var t := base.Model();
      ghost var costs := RootCosts(t, ups, ds);
      var bestCost := 0.0;
      best := [];
      ghost var bk := 0;
      var i := 1;
      while i < base.numRelations
        invariant Valid() && base.Model() == t
        invariant 1 <= i && (i == 1 || i <= t.n)
        invariant i == 1 ==> bestCost == 0.0 && best == []
        invariant i > 1 ==> Leading(t, ups, ds, i, bk, best, bestCost)
        invariant i == 1 ==> root == old(root) && parents[..] == old(parents[..])
        invariant i > 1 ==> root == i - 1 && parents[..] == ups[i - 1]
      {
        var flattened, cost := TryRoot(i, ups, ds);
        RootCostPositive(t, ups, ds, i);
        ghost var before := bk;
        if bestCost == 0.0 || cost < bestCost {
          bestCost := cost;
          best := flattened;
          bk := i;
        }
        FirstMinExtend(costs, i, before, bk);
        i := i + 1;
      }
      if t.n >= 2 {
        RootOrderCovers(t, ups, ds, bk);
      }
    }
  }
}
