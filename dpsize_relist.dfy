/** What `subproblems[s]` should hold in dpsize_orderer.go. Lines 72-74
    list a join only for a set that had no plan. A strictly cheaper join
    found later is kept in `bests[s]` but never listed, so larger sizes go
    on building on the first plan found. `StaleListing` exhibits this on a
    chain of four relations. `OfferCurrent` is the corrected step: the
    cheaper join takes the listed plan's place, and every listed group then
    stays the plan the table keeps for its set. */
module DPRelist {
  import opened JoinTree
  import opened DPPlans
  import RS = RelSetMap

  /** Every listed group is the plan `bests[s]` keeps for its set. */
  ghost predicate Current(gs: seq<Group>, sub: seq<nat>, m: map<nat, int>)
  {
    forall j :: 1 <= j < |sub| ==>
      sub[j] < |gs| && Key(gs[sub[j]].relations) in m && m[Key(gs[sub[j]].relations)] == sub[j]
  }

  /** The list with `now` in place of every entry `was`. */
  function Swap(sub: seq<nat>, was: int, now: nat): seq<nat>
  {
    seq(|sub|, j requires 0 <= j < |sub| => if sub[j] == was then now else sub[j])
  }

  /** The corrected step for the pair (l, r): as `Offer`, except that a join
      strictly cheaper than the plan kept for its set replaces that plan in
      the list as well as in the table. */
  function OfferCurrent(c: Catalog, st: Memo, m: map<nat, int>, sub: seq<nat>, l: nat, r: nat): Step
    requires l < |st.gs| && r < |st.gs|
  {
    if Improves(c, st, m, l, r) then
      var k := Key(st.gs[l].relations + st.gs[r].relations);
      var id := |st.gs|;
      var prior := Prior(m, k);
      Step(Extend(c, st, l, r), m[k := id], if prior == 0 then sub + [id] else Swap(sub, prior, id), id)
    else Step(st, m, sub, 0)
  }

  /** The corrected step changes the memo and the table exactly as `Offer`
      does, keeps the level, the table and the list consistent, and keeps
      every listed group the plan the table keeps for its set. */
  lemma OfferCurrentKeeps(c: Catalog, lo: nat, st: Memo, m: map<nat, int>, sub: seq<nat>, s: nat, l: nat, r: nat)
    requires |st.gs| >= lo + c.numRels && 1 <= lo
    requires Level(lo, st.gs, sub, s) && Table(c, lo, st.gs, m) && Listed(st.gs, sub, m) && Current(st.gs, sub, m)
    requires lo <= l < |st.gs| && lo <= r < |st.gs|
    requires |st.gs[l].relations| + |st.gs[r].relations| == s
    ensures var o := OfferCurrent(c, st, m, sub, l, r);
            && var w := Offer(c, st, m, sub, l, r);
            && o.st == w.st && o.m == w.m && o.made == w.made
            && Level(lo, o.st.gs, o.sub, s) && Table(c, lo, o.st.gs, o.m)
            && Listed(o.st.gs, o.sub, o.m) && Current(o.st.gs, o.sub, o.m)
  {
    OfferKeepsLevel(c, lo, st, m, sub, s, l, r);
    if Improves(c, st, m, l, r) {
      var id := |st.gs|;
      var gs' := Extend(c, st, l, r).gs;
      var u := st.gs[l].relations + st.gs[r].relations;
      var k := Key(u);
      ExtendKeeps(c, st, l, r);
      DisjointUnionSize(st.gs[l].relations, st.gs[r].relations);
      assert gs'[id].relations == u;
      if Prior(m, k) == 0 {
        assert k !in m;
        CurrentGrows(st.gs, gs', sub, m, k);
      } else {
        SwapKeeps(lo, st.gs, gs', sub, m, s, k, m[k]);
      }
    }
  }

  /** Swapping the plan filed under k for the newest group, of the level's
      size and keyed by k, keeps the level, the list and `Current`. */
  lemma SwapKeeps(lo: nat, gs: seq<Group>, gs': seq<Group>, sub: seq<nat>, m: map<nat, int>, s: nat, k: nat, was: int)
    requires Level(lo, gs, sub, s) && Listed(gs, sub, m) && Current(gs, sub, m)
    requires Grows(gs, gs') && |gs'| == |gs| + 1 && lo <= |gs| && |gs'[|gs|].relations| == s
    requires Key(gs'[|gs|].relations) == k && k in m && m[k] == was && 1 <= was
    ensures var sub' := Swap(sub, was, |gs|);
            Level(lo, gs', sub', s) && Listed(gs', sub', m[k := |gs|]) && Current(gs', sub', m[k := |gs|])
  {
    SwapLevel(lo, gs, gs', sub, s, was);
    SwapListed(gs, gs', sub, m, k, was);
    SwapComplete(gs, gs', sub, m, k, was);
    SwapCurrent(gs, gs', sub, m, k, was);
  }

  /** Listing the newest group, filed under a key k that had no plan, keeps
      every listed group the plan filed for its set. */
  lemma CurrentGrows(gs: seq<Group>, gs': seq<Group>, sub: seq<nat>, m: map<nat, int>, k: nat)
    requires Current(gs, sub, m) && Grows(gs, gs') && |gs'| == |gs| + 1
    requires Key(gs'[|gs|].relations) == k && k !in m
    ensures Current(gs', sub + [|gs|], m[k := |gs|])
  {
    var sub', m' := sub + [|gs|], m[k := |gs|];
    forall j | 1 <= j < |sub'|
      ensures sub'[j] < |gs'| && Key(gs'[sub'[j]].relations) in m' && m'[Key(gs'[sub'[j]].relations)] == sub'[j]
    {
      if j < |sub| {
        assert sub'[j] == sub[j] && gs'[sub[j]] == gs[sub[j]];
      }
    }
  }

  /** Swapping in the newest group, of the level's size, keeps the level. */
  lemma SwapLevel(lo: nat, gs: seq<Group>, gs': seq<Group>, sub: seq<nat>, s: nat, was: int)
    requires Level(lo, gs, sub, s) && Grows(gs, gs') && |gs'| == |gs| + 1 && lo <= |gs|
    requires 1 <= was && |gs'[|gs|].relations| == s
    ensures Level(lo, gs', Swap(sub, was, |gs|), s)
  {
    var sub' := Swap(sub, was, |gs|);
    forall j | 1 <= j < |sub'|
      ensures lo <= sub'[j] < |gs'| && |gs'[sub'[j]].relations| == s
    {
      if sub[j] != was {
        assert gs'[sub[j]] == gs[sub[j]];
      }
    }
  }

  /** Swapping the plan filed under k for the newest group, which k keys,
      keeps every listed set filed and no set listed twice. */
  lemma SwapListed(gs: seq<Group>, gs': seq<Group>, sub: seq<nat>, m: map<nat, int>, k: nat, was: int)
    requires Listed(gs, sub, m) && Current(gs, sub, m) && Grows(gs, gs') && |gs'| == |gs| + 1
    requires Key(gs'[|gs|].relations) == k && k in m && m[k] == was
    ensures var sub' := Swap(sub, was, |gs|);
            && (forall j :: 1 <= j < |sub'| ==> sub'[j] < |gs'| && Key(gs'[sub'[j]].relations) in m[k := |gs|])
            && (forall j1, j2 :: 1 <= j1 < j2 < |sub'| && sub'[j1] < |gs'| && sub'[j2] < |gs'| ==>
                  gs'[sub'[j1]].relations != gs'[sub'[j2]].relations)
  {
    var sub' := Swap(sub, was, |gs|);
    forall j | 1 <= j < |sub'|
      ensures sub'[j] < |gs'| && Key(gs'[sub'[j]].relations) in m[k := |gs|]
    {
      if sub[j] != was {
        assert gs'[sub[j]] == gs[sub[j]];
      }
    }
    forall j1, j2 | 1 <= j1 < j2 < |sub'| && sub'[j1] < |gs'| && sub'[j2] < |gs'|
      ensures gs'[sub'[j1]].relations != gs'[sub'[j2]].relations
    {
      assert gs'[sub[j1]] == gs[sub[j1]] && gs'[sub[j2]] == gs[sub[j2]];
      if sub[j1] == was && sub[j2] == was {
        assert false;
      } else if sub[j1] == was {
        assert m[Key(gs[sub[j2]].relations)] == sub[j2];
      } else if sub[j2] == was {
        assert m[Key(gs[sub[j1]].relations)] == sub[j1];
      }
    }
  }

  /** Swapping in the newest group keeps every filed set listed. */
  lemma SwapComplete(gs: seq<Group>, gs': seq<Group>, sub: seq<nat>, m: map<nat, int>, k: nat, was: int)
    requires Complete(gs, sub, m) && Current(gs, sub, m) && Grows(gs, gs') && |gs'| == |gs| + 1
    requires Key(gs'[|gs|].relations) == k && k in m && m[k] == was
    ensures Complete(gs', Swap(sub, was, |gs|), m[k := |gs|])
  {
    var sub', m' := Swap(sub, was, |gs|), m[k := |gs|];
    forall k' | k' in m'
      ensures exists j :: 1 <= j < |sub'| && sub'[j] < |gs'| && Key(gs'[sub'[j]].relations) == k'
    {
      assert k' in m;
      var j :| 1 <= j < |sub| && sub[j] < |gs| && Key(gs[sub[j]].relations) == k';
      if k' == k {
        assert sub[j] == was;
        assert 1 <= j < |sub'| && sub'[j] == |gs| && Key(gs'[sub'[j]].relations) == k';
      } else {
        assert sub[j] != was;
        assert gs'[sub[j]] == gs[sub[j]];
        assert 1 <= j < |sub'| && sub'[j] < |gs'| && Key(gs'[sub'[j]].relations) == k';
      }
    }
  }

  /** Swapping the plan filed under k for the newest group, filed under k
      in its place, keeps every listed group the plan filed for its set. */
  lemma SwapCurrent(gs: seq<Group>, gs': seq<Group>, sub: seq<nat>, m: map<nat, int>, k: nat, was: int)
    requires Current(gs, sub, m) && Grows(gs, gs') && |gs'| == |gs| + 1
    requires Key(gs'[|gs|].relations) == k && k in m && m[k] == was
    ensures Current(gs', Swap(sub, was, |gs|), m[k := |gs|])
  {
    var sub', m' := Swap(sub, was, |gs|), m[k := |gs|];
    forall j | 1 <= j < |sub'|
      ensures sub'[j] < |gs'| && Key(gs'[sub'[j]].relations) in m' && m'[Key(gs'[sub'[j]].relations)] == sub'[j]
    {
      if sub[j] != was {
        assert gs'[sub[j]] == gs[sub[j]];
        assert Key(gs[sub[j]].relations) != k;
      }
    }
  }

  /** When every listed group is the plan kept for its set, no tried pair
      for a listed set is cheaper than the listed plan. */
  lemma CurrentCheapest(c: Catalog, st: Memo, m: map<nat, int>, sub: seq<nat>, tried: set<(nat, nat)>, j: nat, p: (nat, nat))
    requires Current(st.gs, sub, m) && Best(c, st, m, tried)
    requires 1 <= j < |sub| && p in tried
    requires p.0 < |st.gs| && p.1 < |st.gs| && sub[j] < |st.gs|
    requires Key(st.gs[p.0].relations + st.gs[p.1].relations) == Key(st.gs[sub[j]].relations)
    ensures Get(st.costs, sub[j]) <= JoinCost(c, st, p.0, p.1)
  {
    assert Kept(c, st, m, p.0, p.1);
  }

  /** A predicate between relations x and y links the sets a and b when
      one holds x and the other y. */
  predicate Link(a: set<int>, b: set<int>, x: int, y: int)
  {
    (x in a && y in b) || (y in a && x in b)
  }

  /** The relations A, B, C and D as 1 to 4 in a chain, with cardinalities
      1, 10, 2 and 100 and every selectivity 1. */
  function Chain(): Catalog
  {
    Catalog(4, i => if i == 1 then 1 else if i == 2 then 10 else if i == 3 then 2 else 100,
            (a: set<int>, b: set<int>) => Link(a, b, 1, 2) || Link(a, b, 2, 3) || Link(a, b, 3, 4),
            (a: set<int>, b: set<int>) => 1.0, i => "R")
  }

  /** A reduced state like the one the search over `Chain()` reaches at
      level 3: the leaves, A⋈B at cost 10, B⋈C at 20, and A⋈(B⋈C) at 40,
      the first plan level 3 finds for {A, B, C}, listed and filed. The full
      run also makes C⋈D at level 2, so its group numbers are one higher
      from there on; the stale listing does not depend on that join. */
  function ChainMemo(): Memo
  {
    Memo([Zero, LeafGroup(1, 1), LeafGroup(2, 2), LeafGroup(3, 3), LeafGroup(4, 4),
          Group(5, 0, 1, 2, {1, 2}), Group(6, 0, 2, 3, {2, 3}), Group(7, 0, 1, 6, {1, 2, 3})],
         map[1 := 0.0, 2 := 0.0, 3 := 0.0, 4 := 0.0, 5 := 10.0, 6 := 20.0, 7 := 40.0],
         map[1 := 1, 2 := 10, 3 := 2, 4 := 100, 5 := 10, 6 := 20, 7 := 20])
  }

  /** Every group of `ChainMemo` from 1 on is a plan over `Chain()`. */
  lemma ChainBuilt()
    ensures Built(Chain(), 1, ChainMemo())
  {
    var c, st := Chain(), ChainMemo();
    ChainArena();
    forall g | 1 <= g < |st.gs|
      ensures Plan(c, 1, st, g)
    {
      if g <= 4 {
        ChainLeaf(g);
      } else if g <= 6 {
        ChainPair(c, st, g);
      } else {
        ChainTriple();
      }
    }
  }

  /** `ChainMemo` is an arena. */
  lemma ChainArena()
    ensures Arena(ChainMemo().gs)
  {
    var gs := ChainMemo().gs;
    forall g | 1 <= g < |gs|
      ensures Placed(gs, g)
    {
      if g == 5 {
        assert gs[5].relations == gs[1].relations + gs[2].relations;
      } else if g == 6 {
        assert gs[6].relations == gs[2].relations + gs[3].relations;
      } else if g == 7 {
        assert gs[7].relations == gs[1].relations + gs[6].relations;
      }
    }
  }

  /** The leaves of `ChainMemo` are plans over `Chain()`. */
  lemma ChainLeaf(g: nat)
    requires 1 <= g <= 4
    ensures Plan(Chain(), 1, ChainMemo(), g)
  {
  }

  /** A⋈B and B⋈C in `ChainMemo` are plans over `Chain()`. */
  lemma ChainPair(c: Catalog, st: Memo, g: nat)
    requires c == Chain() && st == ChainMemo() && 5 <= g <= 6
    ensures Plan(c, 1, st, g)
  {
    if g == 5 {
      assert st.gs[5].relations == st.gs[1].relations + st.gs[2].relations;
    } else {
      assert st.gs[6].relations == st.gs[2].relations + st.gs[3].relations;
    }
  }

  /** A⋈(B⋈C) in `ChainMemo` is a plan over `Chain()`. */
  lemma ChainTriple()
    ensures Plan(Chain(), 1, ChainMemo(), 7)
  {
    var st := ChainMemo();
    assert st.gs[7].relations == st.gs[1].relations + st.gs[6].relations;
  }

  /** Level 3 of `ChainMemo` lists A⋈(B⋈C), the plan its set is filed
      under. */
  lemma ChainLevel()
    ensures var c, st := Chain(), ChainMemo();
            var m := map[Key({1, 2, 3}) := 7];
            && Level(1, st.gs, [0, 7], 3) && Table(c, 1, st.gs, m)
            && Listed(st.gs, [0, 7], m) && Current(st.gs, [0, 7], m)
  {
    var st := ChainMemo();
    assert [0, 7][1] == 7 && Key(st.gs[7].relations) == Key({1, 2, 3});
  }

  /** Offered C⋈(A⋈B) at level 3 of `ChainMemo`, the search makes the join
      as group 8 and files it under {A, B, C}: it costs 30 against the 40 of
      the plan filed there. As written the list keeps A⋈(B⋈C); corrected,
      the join takes its place. */
  lemma ChainOffer()
    ensures var c, st := Chain(), ChainMemo();
            var m := map[Key({1, 2, 3}) := 7];
            && Offer(c, st, m, [0, 7], 3, 5) == Step(Extend(c, st, 3, 5), m[Key({1, 2, 3}) := 8], [0, 7], 8)
            && OfferCurrent(c, st, m, [0, 7], 3, 5) == Step(Extend(c, st, 3, 5), m[Key({1, 2, 3}) := 8], [0, 8], 8)
  {
    var c, st := Chain(), ChainMemo();
    var m := map[Key({1, 2, 3}) := 7];
    assert st.gs[3].relations + st.gs[5].relations == {1, 2, 3};
    assert JoinCost(c, st, 3, 5) == 30.0;
    assert Improves(c, st, m, 3, 5);
    assert Swap([0, 7], 7, 8) == [0, 8];
  }

  /** After the join, the plan listed for {A, B, C} costs 40 and the one
      filed costs 30; D joined with them costs 2040 and 2030. */
  lemma ChainCosts()
    ensures var c, st := Chain(), Extend(Chain(), ChainMemo(), 3, 5);
            && |st.gs| == 9 && st.gs[7].relations == st.gs[8].relations == {1, 2, 3}
            && Get(st.costs, 7) == 40.0 && Get(st.costs, 8) == 30.0
            && JoinCost(c, st, 4, 7) == 2040.0 && JoinCost(c, st, 4, 8) == 2030.0
  {
    var c, st := Chain(), ChainMemo();
    assert st.gs[3].relations + st.gs[5].relations == {1, 2, 3};
    assert JoinCost(c, st, 3, 5) == 30.0 && JoinCard(c, st, 3, 5) == 20.0;
  }

  /** As written, lines 70-78 on `ChainMemo` at level 3, offered C⋈(A⋈B):
      the join costs 30 against the 40 of the listed A⋈(B⋈C), so it is made
      and filed under {A, B, C}, yet the list keeps A⋈(B⋈C), which is no
      longer the plan kept for its set. Level 4 then joins D with a plan for
      {A, B, C} at 2040 where the kept one gives 2030. */
  lemma StaleListing(c: Catalog, st: Memo, m: map<nat, int>)
    requires c == Chain() && st == ChainMemo() && m == map[Key({1, 2, 3}) := 7]
    ensures var o := Offer(c, st, m, [0, 7], 3, 5);
            && Current(st.gs, [0, 7], m)
            && o.made == 8 && o.sub == [0, 7] && Get(o.st.costs, 7) == 40.0 && Get(o.st.costs, 8) == 30.0
            && !Current(o.st.gs, o.sub, o.m)
            && JoinCost(c, o.st, 4, 7) == 2040.0 && JoinCost(c, o.st, 4, 8) == 2030.0
  {
    ChainLevel();
    ChainOffer();
    ChainCosts();
    var st', m' := Extend(c, st, 3, 5), m[Key({1, 2, 3}) := 8];
    assert st'.gs[7].relations == {1, 2, 3} && m'[Key({1, 2, 3})] == 8;
    assert m'[Key(st'.gs[[0, 7][1]].relations)] == 8;
  }

  /** Corrected, the same offer lists C⋈(A⋈B) in place of A⋈(B⋈C), so the
      listed plan stays the one kept for {A, B, C}, the one D joins at
      2030. */
  lemma FixedListing(c: Catalog, st: Memo, m: map<nat, int>)
    requires c == Chain() && st == ChainMemo() && m == map[Key({1, 2, 3}) := 7]
    ensures var o := OfferCurrent(c, st, m, [0, 7], 3, 5);
            && o.made == 8 && o.sub == [0, 8] && Current(o.st.gs, o.sub, o.m)
            && JoinCost(c, o.st, 4, o.sub[1]) == 2030.0
  {
    ChainOffer();
    ChainCosts();
    var st', m' := Extend(c, st, 3, 5), m[Key({1, 2, 3}) := 8];
    assert [0, 8][1] == 8 && m'[Key(st'.gs[8].relations)] == 8;
  }
}
