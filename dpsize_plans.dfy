/** The plans of dpsize_orderer.go as values: the memo of groups, costs and
    cardinalities that `Order` fills in, what one candidate pair does to it,
    and the invariants the size-by-size search keeps. */
module DPPlans {
  import opened Util
  import opened JoinTree
  import RS = RelSetMap

  /** The schema calls `Order` makes, whose code is not part of this model:
      the relation count, each relation's cardinality, whether a predicate
      links two relation sets, the selectivity between two relation sets,
      and the relation names the forest prints. */
  datatype Catalog = Catalog(
    numRels: nat,
    cardinality: int -> int,
    adjacent: (set<int>, set<int>) -> bool,
    selectivity: (set<int>, set<int>) -> real,
    name: int -> string)

  /** The forest's groups with the orderer's `costs` and `cards` maps. */
  datatype Memo = Memo(gs: seq<Group>, costs: map<int, real>, cards: map<int, int>)

  /** A Go map read: a missing key reads as zero. */
  function Get(m: map<int, real>, g: int): real
  {
    if g in m then m[g] else 0.0
  }

  /** A Go map read of an integer: a missing key reads as zero. */
  function Card(m: map<int, int>, g: int): int
  {
    if g in m then m[g] else 0
  }

  /** Go's conversion of a float to an integer type, which truncates toward
      zero. */
  function Trunc(x: real): (r: int)
    ensures 0.0 <= x ==> 0 <= r && r as real <= x < r as real + 1.0
    ensures x < 0.0 ==> r <= 0 && r as real - 1.0 < x <= r as real
  {
    if x >= 0.0 then x.Floor else -((-x).Floor)
  }

  /** The key `RelSetMap` files a set of relations 1..63 under. */
  function Key(s: set<int>): nat
  {
    RS.Prefix(s, 64)
  }

  /** Every member is one of the catalog's relations. */
  predicate Within(c: Catalog, s: set<int>)
  {
    forall x :: x in s ==> 1 <= x <= c.numRels
  }

  /** With at most 63 relations every relation set can be keyed, under
      `Key`. */
  lemma KeyEncodes(c: Catalog, s: set<int>)
    requires c.numRels <= 63 && Within(c, s)
    ensures RS.Encode(s) == Some(Key(s))
  {
  }

  /** The test of lines 52-58: groups l and r cover disjoint relation sets
      that a predicate links. */
  predicate Joinable(c: Catalog, gs: seq<Group>, l: nat, r: nat)
    requires l < |gs| && r < |gs|
  {
    gs[l].relations !! gs[r].relations && c.adjacent(gs[l].relations, gs[r].relations)
  }

  /** The cardinality of the join of l and r: the product of theirs and the
      selectivity between their relation sets. */
  function JoinCard(c: Catalog, st: Memo, l: nat, r: nat): real
    requires l < |st.gs| && r < |st.gs|
  {
    (Card(st.cards, l) as real) * (Card(st.cards, r) as real) * c.selectivity(st.gs[l].relations, st.gs[r].relations)
  }

  /** The cost of the join of l and r: theirs plus the join's cardinality. */
  function JoinCost(c: Catalog, st: Memo, l: nat, r: nat): real
    requires l < |st.gs| && r < |st.gs|
  {
    Get(st.costs, l) + Get(st.costs, r) + JoinCard(c, st, l, r)
  }

  /** Group g, counted from lo (the first leaf `Order` adds), is a plan: a
      leaf for relation g - lo + 1 with cost 0 and that relation's
      cardinality, or a join of two earlier plans over disjoint, linked
      relation sets with the join's cardinality and cost. */
  ghost predicate Plan(c: Catalog, lo: nat, st: Memo, g: nat)
    requires lo <= g < |st.gs|
  {
    var x := st.gs[g];
    && Within(c, x.relations)
    && if g < lo + c.numRels then
         && x == LeafGroup(g, g - lo + 1)
         && Get(st.costs, g) == 0.0 && Card(st.cards, g) == c.cardinality(g - lo + 1)
       else
         && x.relID == 0 && lo <= x.l < g && lo <= x.r < g
         && x.relations == st.gs[x.l].relations + st.gs[x.r].relations
         && Joinable(c, st.gs, x.l, x.r)
         && Priced(c, st, g, x.l, x.r)
  }

  /** Lines 76-77: group g holds the cost of joining l and r and their
      join's cardinality, truncated to an integer. */
  ghost predicate Priced(c: Catalog, st: Memo, g: nat, l: nat, r: nat)
    requires l < |st.gs| && r < |st.gs|
  {
    Card(st.cards, g) == Trunc(JoinCard(c, st, l, r)) && Get(st.costs, g) == JoinCost(c, st, l, r)
  }

  /** Pricing reads only the groups l and r and the costs and cardinalities
      at g, l and r. */
  lemma PricedKept(c: Catalog, st: Memo, st': Memo, g: nat, l: nat, r: nat)
    requires l < |st.gs| && r < |st.gs| && l < |st'.gs| && r < |st'.gs| && Priced(c, st, g, l, r)
    requires st'.gs[l] == st.gs[l] && st'.gs[r] == st.gs[r]
    requires Get(st'.costs, g) == Get(st.costs, g) && Card(st'.cards, g) == Card(st.cards, g)
    requires Get(st'.costs, l) == Get(st.costs, l) && Card(st'.cards, l) == Card(st.cards, l)
    requires Get(st'.costs, r) == Get(st.costs, r) && Card(st'.cards, r) == Card(st.cards, r)
    ensures Priced(c, st', g, l, r)
  {
    CostKept(c, st, st', l, r);
  }

  /** Every group from lo on is a plan. */
  ghost predicate Built(c: Catalog, lo: nat, st: Memo)
  {
    && Arena(st.gs) && 1 <= lo <= |st.gs|
    && forall g :: lo <= g < |st.gs| ==> Plan(c, lo, st, g)
  }

  /** `subproblems[k]`: the 0 sentinel, then groups from lo on that cover k
      relations each. */
  ghost predicate Level(lo: nat, gs: seq<Group>, sub: seq<nat>, k: nat)
  {
    && |sub| >= 1 && sub[0] == 0
    && forall j :: 1 <= j < |sub| ==> lo <= sub[j] < |gs| && |gs[sub[j]].relations| == k
  }

  /** `bests[s]`: each filled key holds a join group whose relations it
      keys. */
  ghost predicate Table(c: Catalog, lo: nat, gs: seq<Group>, m: map<nat, int>)
  {
    forall k :: k in m ==> lo + c.numRels <= m[k] < |gs| && Key(gs[m[k]].relations) == k
  }

  /** Each group of `subproblems[s]` has its set filed in `bests[s]`, no
      two of them cover the same set, and every set filed in `bests[s]` has
      a group in the list: one plan listed per set that has one. */
  ghost predicate Listed(gs: seq<Group>, sub: seq<nat>, m: map<nat, int>)
  {
    && (forall j :: 1 <= j < |sub| ==> sub[j] < |gs| && Key(gs[sub[j]].relations) in m)
    && (forall j1, j2 :: 1 <= j1 < j2 < |sub| && sub[j1] < |gs| && sub[j2] < |gs| ==>
          gs[sub[j1]].relations != gs[sub[j2]].relations)
    && Complete(gs, sub, m)
  }

  /** Every set filed in `bests[s]` has a group in `subproblems[s]`. */
  ghost predicate Complete(gs: seq<Group>, sub: seq<nat>, m: map<nat, int>)
  {
    forall k :: k in m ==> exists j :: 1 <= j < |sub| && sub[j] < |gs| && Key(gs[sub[j]].relations) == k
  }

  /** Filing the newest group under key k keeps every filed set listed when
      the group is listed or k already was. */
  lemma CompleteGrows(gs: seq<Group>, gs': seq<Group>, sub: seq<nat>, m: map<nat, int>, k: nat, add: bool)
    requires Complete(gs, sub, m) && Grows(gs, gs') && |gs'| == |gs| + 1
    requires Key(gs'[|gs|].relations) == k && (add || k in m) && |sub| >= 1
    ensures Complete(gs', if add then sub + [|gs|] else sub, m[k := |gs|])
  {
    var sub', m' := if add then sub + [|gs|] else sub, m[k := |gs|];
    forall k' | k' in m'
      ensures exists j :: 1 <= j < |sub'| && sub'[j] < |gs'| && Key(gs'[sub'[j]].relations) == k'
    {
      if k' == k && add {
        var j := |sub|;
        assert 1 <= j < |sub'| && sub'[j] == |gs| && Key(gs'[sub'[j]].relations) == k';
      } else {
        assert k' in m;
        var j :| 1 <= j < |sub| && sub[j] < |gs| && Key(gs[sub[j]].relations) == k';
        assert sub'[j] == sub[j] && gs'[sub[j]] == gs[sub[j]];
        assert 1 <= j < |sub'| && sub'[j] < |gs'| && Key(gs'[sub'[j]].relations) == k';
      }
    }
  }

  /** The plan `bests[s]` keeps for the set of the pair (l, r) costs no more
      than joining l and r. */
  ghost predicate Kept(c: Catalog, st: Memo, m: map<nat, int>, l: nat, r: nat)
    requires l < |st.gs| && r < |st.gs|
  {
    var k := Key(st.gs[l].relations + st.gs[r].relations);
    k in m && Get(st.costs, m[k]) <= JoinCost(c, st, l, r)
  }

  /** Every pair tried so far is no cheaper than the plan kept for its set. */
  ghost predicate Best(c: Catalog, st: Memo, m: map<nat, int>, tried: set<(nat, nat)>)
  {
    forall p :: p in tried ==> p.0 < |st.gs| && p.1 < |st.gs| && Kept(c, st, m, p.0, p.1)
  }

  /** The state while level s is being filled. */
  ghost predicate Building(c: Catalog, lo: nat, st: Memo, m: map<nat, int>, sub: seq<nat>, s: nat, tried: set<(nat, nat)>)
  {
    && Built(c, lo, st) && |st.gs| >= lo + c.numRels && c.numRels <= 63
    && Level(lo, st.gs, sub, s) && Table(c, lo, st.gs, m) && Listed(st.gs, sub, m)
    && Best(c, st, m, tried)
  }

  /** What one pair does: the memo, the level's table and list, and the new
      group's ID (0 when none is made). */
  datatype Step = Step(st: Memo, m: map<nat, int>, sub: seq<nat>, made: nat)

  /** The plan `bests[s]` files under key k, or 0 when it has none. */
  function Prior(m: map<nat, int>, k: nat): int
  {
    if k in m then m[k] else 0
  }

  /** The memo with the join of l and r added as group |st.gs|, with its
      cost and cardinality (lines 71 and 76-77). */
  function Extend(c: Catalog, st: Memo, l: nat, r: nat): Memo
    requires l < |st.gs| && r < |st.gs|
  {
    var id := |st.gs|;
    Memo(st.gs + [JoinGroup(st.gs, id, l, r)], st.costs[id := JoinCost(c, st, l, r)], st.cards[id := Trunc(JoinCard(c, st, l, r))])
  }

  /** The test of lines 52-58 and 70: l and r are disjoint and linked, and
      the table has no plan for their union or one that costs strictly more
      than their join. */
  predicate Improves(c: Catalog, st: Memo, m: map<nat, int>, l: nat, r: nat)
    requires l < |st.gs| && r < |st.gs|
  {
    var prior := Prior(m, Key(st.gs[l].relations + st.gs[r].relations));
    Joinable(c, st.gs, l, r) && (prior == 0 || JoinCost(c, st, l, r) < Get(st.costs, prior))
  }

  /** Lines 49-79 for the pair (l, r): nothing unless the join improves on
      the table; then the join is added, the table keys the union to it, and
      the level's list gets it only when the union had no plan. */
  function Offer(c: Catalog, st: Memo, m: map<nat, int>, sub: seq<nat>, l: nat, r: nat): Step
    requires l < |st.gs| && r < |st.gs|
  {
    if Improves(c, st, m, l, r) then
      var k := Key(st.gs[l].relations + st.gs[r].relations);
      var id := |st.gs|;
      Step(Extend(c, st, l, r), m[k := id], if Prior(m, k) == 0 then sub + [id] else sub, id)
    else Step(st, m, sub, 0)
  }

  /** The extended memo keeps every earlier group, cost and cardinality. */
  lemma ExtendKeeps(c: Catalog, st: Memo, l: nat, r: nat)
    requires l < |st.gs| && r < |st.gs|
    ensures var st' := Extend(c, st, l, r);
            && Grows(st.gs, st'.gs) && |st'.gs| == |st.gs| + 1
            && st'.gs[|st.gs|] == JoinGroup(st.gs, |st.gs|, l, r)
            && Get(st'.costs, |st.gs|) == JoinCost(c, st, l, r)
            && Card(st'.cards, |st.gs|) == Trunc(JoinCard(c, st, l, r))
            && forall h :: h < |st.gs| ==> Get(st'.costs, h) == Get(st.costs, h) && Card(st'.cards, h) == Card(st.cards, h)
  {
  }

  /** The tried pairs after offering (l, r): it counts when it is joinable. */
  ghost function Tried(c: Catalog, gs: seq<Group>, tried: set<(nat, nat)>, l: nat, r: nat): set<(nat, nat)>
    requires l < |gs| && r < |gs|
  {
    if Joinable(c, gs, l, r) then tried + {(l, r)} else tried
  }

  /** gs' extends gs. */
  predicate Grows(gs: seq<Group>, gs': seq<Group>)
  {
    |gs| <= |gs'| && forall i :: 0 <= i < |gs| ==> gs'[i] == gs[i]
  }

  /** An offer that improves adds the join as the newest group; any other
      offer changes nothing. */
  lemma OfferGrows(c: Catalog, st: Memo, m: map<nat, int>, sub: seq<nat>, l: nat, r: nat)
    requires l < |st.gs| && r < |st.gs|
    ensures var o := Offer(c, st, m, sub, l, r);
            && Grows(st.gs, o.st.gs)
            && (o.made != 0 <==> Improves(c, st, m, l, r))
            && (o.made == 0 ==> o == Step(st, m, sub, 0))
            && (o.made != 0 ==> o.made == |st.gs| && o.st == Extend(c, st, l, r))
  {
    if Improves(c, st, m, l, r) {
      ExtendKeeps(c, st, l, r);
    }
  }

  /** A leaf for the next relation keeps every group from lo a plan. */
  lemma LeafKeepsBuilt(c: Catalog, lo: nat, st: Memo, i: int)
    requires Built(c, lo, st) && |st.gs| == lo + i - 1 && 1 <= i <= c.numRels
    ensures var id := |st.gs|;
            Built(c, lo, Memo(st.gs + [LeafGroup(id, i)], st.costs[id := 0.0], st.cards[id := c.cardinality(i)]))
  {
    var id := |st.gs|;
    var st' := Memo(st.gs + [LeafGroup(id, i)], st.costs[id := 0.0], st.cards[id := c.cardinality(i)]);
    AppendLeafArena(st.gs, i);
    forall g | lo <= g < |st'.gs|
      ensures Plan(c, lo, st', g)
    {
      if g < id {
        assert Plan(c, lo, st, g);
        assert st'.gs[g] == st.gs[g];
      }
    }
  }

  /** The join of two disjoint, linked plans is a plan. */
  lemma JoinIsPlan(c: Catalog, lo: nat, st: Memo, l: nat, r: nat)
    requires Built(c, lo, st) && |st.gs| >= lo + c.numRels
    requires lo <= l < |st.gs| && lo <= r < |st.gs| && Joinable(c, st.gs, l, r)
    ensures Plan(c, lo, Extend(c, st, l, r), |st.gs|)
  {
    var st' := Extend(c, st, l, r);
    ExtendKeeps(c, st, l, r);
    assert Plan(c, lo, st, l) && Plan(c, lo, st, r);
    assert st'.gs[l] == st.gs[l] && st'.gs[r] == st.gs[r];
    ExtendPriced(c, st, l, r);
  }

  /** The added join holds its own cost and cardinality. */
  lemma ExtendPriced(c: Catalog, st: Memo, l: nat, r: nat)
    requires l < |st.gs| && r < |st.gs|
    ensures Priced(c, Extend(c, st, l, r), |st.gs|, l, r)
  {
    var st' := Extend(c, st, l, r);
    ExtendKeeps(c, st, l, r);
    CostKept(c, st, st', l, r);
  }

  /** Offering a pair of plans keeps every group from lo a plan. */
  lemma OfferKeepsBuilt(c: Catalog, lo: nat, st: Memo, m: map<nat, int>, sub: seq<nat>, l: nat, r: nat)
    requires Built(c, lo, st) && |st.gs| >= lo + c.numRels
    requires lo <= l < |st.gs| && lo <= r < |st.gs|
    ensures Built(c, lo, Offer(c, st, m, sub, l, r).st)
  {
    if Improves(c, st, m, l, r) {
      var id := |st.gs|;
      var st' := Extend(c, st, l, r);
      ExtendKeeps(c, st, l, r);
      AppendJoinArena(st.gs, l, r);
      forall g | lo <= g < |st'.gs|
        ensures Plan(c, lo, st', g)
      {
        if g < id {
          PlanKept(c, lo, st, st', g);
        } else {
          JoinIsPlan(c, lo, st, l, r);
        }
      }
    }
  }

  /** A plan stays one when the memo only grows by a group past it. */
  lemma PlanKept(c: Catalog, lo: nat, st: Memo, st': Memo, g: nat)
    requires lo <= g < |st.gs| && Plan(c, lo, st, g) && Grows(st.gs, st'.gs)
    requires forall h :: h < |st.gs| ==> Get(st'.costs, h) == Get(st.costs, h) && Card(st'.cards, h) == Card(st.cards, h)
    ensures Plan(c, lo, st', g)
  {
    var x := st.gs[g];
    assert st'.gs[g] == x;
    if g >= lo + c.numRels {
      assert st'.gs[x.l] == st.gs[x.l] && st'.gs[x.r] == st.gs[x.r];
      PricedKept(c, st, st', g, x.l, x.r);
    }
  }

  /** A level list stays one as the groups grow. */
  lemma LevelGrows(lo: nat, gs: seq<Group>, gs': seq<Group>, sub: seq<nat>, k: nat)
    requires Level(lo, gs, sub, k) && Grows(gs, gs')
    ensures Level(lo, gs', sub, k)
  {
    forall j | 1 <= j < |sub|
      ensures lo <= sub[j] < |gs'| && |gs'[sub[j]].relations| == k
    {
      assert gs'[sub[j]] == gs[sub[j]];
    }
  }

  /** Filing the newest group `|gs|` under its own key keeps the table
      consistent. */
  lemma TableGrows(c: Catalog, lo: nat, gs: seq<Group>, gs': seq<Group>, m: map<nat, int>, k: nat)
    requires Table(c, lo, gs, m) && Grows(gs, gs') && |gs'| == |gs| + 1 && |gs| >= lo + c.numRels
    requires Key(gs'[|gs|].relations) == k
    ensures Table(c, lo, gs', m[k := |gs|])
  {
    forall k' | k' in m && k' != k
      ensures Key(gs'[m[k']].relations) == k'
    {
      assert gs'[m[k']] == gs[m[k']];
    }
  }

  /** Filing the newest group `|gs|` under its key k, and listing it exactly
      when k had no plan, keeps the list filed in the table, free of
      repeated sets and holding a plan for every filed set. */
  lemma ListedGrows(lo: nat, gs: seq<Group>, gs': seq<Group>, sub: seq<nat>, m: map<nat, int>, k: nat, add: bool)
    requires Listed(gs, sub, m) && Grows(gs, gs') && |gs'| == |gs| + 1
    requires Key(gs'[|gs|].relations) == k && (add <==> k !in m) && |sub| >= 1
    ensures Listed(gs', if add then sub + [|gs|] else sub, m[k := |gs|])
  {
    var sub' := if add then sub + [|gs|] else sub;
    forall j | 1 <= j < |sub'|
      ensures sub'[j] < |gs'| && Key(gs'[sub'[j]].relations) in m[k := |gs|]
    {
      if j < |sub| {
        assert sub'[j] == sub[j] && gs'[sub[j]] == gs[sub[j]];
      }
    }
    DistinctGrows(gs, gs', sub, m, k, add);
    CompleteGrows(gs, gs', sub, m, k, add);
  }

  /** Listing the newest group only when its key k had no plan keeps the
      list free of repeated sets. */
  lemma DistinctGrows(gs: seq<Group>, gs': seq<Group>, sub: seq<nat>, m: map<nat, int>, k: nat, add: bool)
    requires Listed(gs, sub, m) && Grows(gs, gs') && |gs'| == |gs| + 1
    requires Key(gs'[|gs|].relations) == k && (add ==> k !in m)
    ensures var sub' := if add then sub + [|gs|] else sub;
            forall j1, j2 :: 1 <= j1 < j2 < |sub'| && sub'[j1] < |gs'| && sub'[j2] < |gs'| ==>
              gs'[sub'[j1]].relations != gs'[sub'[j2]].relations
  {
    var sub' := if add then sub + [|gs|] else sub;
    forall j1, j2 | 1 <= j1 < j2 < |sub'| && sub'[j1] < |gs'| && sub'[j2] < |gs'|
      ensures gs'[sub'[j1]].relations != gs'[sub'[j2]].relations
    {
      assert sub'[j1] == sub[j1] && gs'[sub[j1]] == gs[sub[j1]];
      if j2 < |sub| {
        assert sub'[j2] == sub[j2] && gs'[sub[j2]] == gs[sub[j2]];
      } else {
        assert sub'[j2] == |gs|;
      }
    }
  }

  /** Offering a pair whose sizes add up to s keeps the level, its table
      and its list consistent: a join enters the list only for a set the
      table had no plan for, so the list never holds two plans for one set. */
  lemma OfferKeepsLevel(c: Catalog, lo: nat, st: Memo, m: map<nat, int>, sub: seq<nat>, s: nat, l: nat, r: nat)
    requires |st.gs| >= lo + c.numRels && 1 <= lo
    requires Level(lo, st.gs, sub, s) && Table(c, lo, st.gs, m) && Listed(st.gs, sub, m)
    requires lo <= l < |st.gs| && lo <= r < |st.gs|
    requires |st.gs[l].relations| + |st.gs[r].relations| == s
    ensures var o := Offer(c, st, m, sub, l, r);
            Level(lo, o.st.gs, o.sub, s) && Table(c, lo, o.st.gs, o.m) && Listed(o.st.gs, o.sub, o.m)
  {
    if Improves(c, st, m, l, r) {
      var id := |st.gs|;
      var gs' := Extend(c, st, l, r).gs;
      var u := st.gs[l].relations + st.gs[r].relations;
      var k := Key(u);
      var add := Prior(m, k) == 0;
      var sub' := if add then sub + [id] else sub;
      ExtendKeeps(c, st, l, r);
      DisjointUnionSize(st.gs[l].relations, st.gs[r].relations);
      assert gs'[id].relations == u;
      LevelGrows(lo, st.gs, gs', sub, s);
      assert Level(lo, gs', sub', s);
      TableGrows(c, lo, st.gs, gs', m, k);
      assert add <==> k !in m;
      ListedGrows(lo, st.gs, gs', sub, m, k, add);
      assert Offer(c, st, m, sub, l, r) == Step(Extend(c, st, l, r), m[k := id], sub', id);
    }
  }

  /** The union of two disjoint sets has the sum of their sizes. */
  lemma DisjointUnionSize(a: set<int>, b: set<int>)
    requires a !! b
    ensures |a + b| == |a| + |b|
  {
    assert a + b - a == b;
  }

  /** Offering a pair keeps every tried pair, the offered one included when
      it is joinable, no cheaper than the plan kept for its set: a kept plan
      is replaced only by a strictly cheaper join. */
  lemma OfferKeepsBest(c: Catalog, lo: nat, st: Memo, m: map<nat, int>, sub: seq<nat>, tried: set<(nat, nat)>, l: nat, r: nat)
    requires Table(c, lo, st.gs, m) && 1 <= lo && Best(c, st, m, tried)
    requires l < |st.gs| && r < |st.gs|
    ensures var o := Offer(c, st, m, sub, l, r);
            Best(c, o.st, o.m, Tried(c, st.gs, tried, l, r))
  {
    var tried' := Tried(c, st.gs, tried, l, r);
    if Improves(c, st, m, l, r) {
      var st' := Extend(c, st, l, r);
      var k := Key(st.gs[l].relations + st.gs[r].relations);
      ExtendKeeps(c, st, l, r);
      forall p | p in tried'
        ensures p.0 < |st'.gs| && p.1 < |st'.gs| && Kept(c, st', m[k := |st.gs|], p.0, p.1)
      {
        if p == (l, r) {
          NewJoinKept(c, st, m, l, r);
        } else {
          KeptGrows(c, lo, st, m, st', p.0, p.1, k);
        }
      }
    } else if Joinable(c, st.gs, l, r) {
      RejectedKept(c, lo, st, m, l, r);
    }
  }

  /** Cost and cardinality of a pair read only the two groups and their own
      costs and cardinalities. */
  lemma CostKept(c: Catalog, st: Memo, st': Memo, l: nat, r: nat)
    requires l < |st.gs| && r < |st.gs| && l < |st'.gs| && r < |st'.gs|
    requires st'.gs[l] == st.gs[l] && st'.gs[r] == st.gs[r]
    requires Get(st'.costs, l) == Get(st.costs, l) && Card(st'.cards, l) == Card(st.cards, l)
    requires Get(st'.costs, r) == Get(st.costs, r) && Card(st'.cards, r) == Card(st.cards, r)
    ensures JoinCard(c, st', l, r) == JoinCard(c, st, l, r)
    ensures JoinCost(c, st', l, r) == JoinCost(c, st, l, r)
  {
  }

  /** A join that is added is the plan kept for its own pair. */
  lemma NewJoinKept(c: Catalog, st: Memo, m: map<nat, int>, l: nat, r: nat)
    requires l < |st.gs| && r < |st.gs|
    ensures var st' := Extend(c, st, l, r);
            l < |st'.gs| && r < |st'.gs| &&
            Kept(c, st', m[Key(st.gs[l].relations + st.gs[r].relations) := |st.gs|], l, r)
  {
    var st' := Extend(c, st, l, r);
    ExtendKeeps(c, st, l, r);
    CostKept(c, st, st', l, r);
  }

  /** A joinable pair that does not improve on the table already has a plan
      no dearer than it. */
  lemma RejectedKept(c: Catalog, lo: nat, st: Memo, m: map<nat, int>, l: nat, r: nat)
    requires Table(c, lo, st.gs, m) && 1 <= lo
    requires l < |st.gs| && r < |st.gs| && Joinable(c, st.gs, l, r) && !Improves(c, st, m, l, r)
    ensures Kept(c, st, m, l, r)
  {
    var k := Key(st.gs[l].relations + st.gs[r].relations);
    assert Prior(m, k) != 0;
  }

  /** A tried pair stays no cheaper than its kept plan when a join `|gs|`
      strictly cheaper than the plan kept for key k (or the first plan for
      k) is added and filed under k. */
  lemma KeptGrows(c: Catalog, lo: nat, st: Memo, m: map<nat, int>, st': Memo, a: nat, b: nat, k: nat)
    requires Table(c, lo, st.gs, m) && 1 <= lo
    requires a < |st.gs| && b < |st.gs| && Kept(c, st, m, a, b)
    requires Grows(st.gs, st'.gs) && |st'.gs| == |st.gs| + 1
    requires forall h :: h < |st.gs| ==> Get(st'.costs, h) == Get(st.costs, h) && Card(st'.cards, h) == Card(st.cards, h)
    requires k in m ==> Get(st'.costs, |st.gs|) < Get(st.costs, m[k])
    ensures Kept(c, st', m[k := |st.gs|], a, b)
  {
    assert st'.gs[a] == st.gs[a] && st'.gs[b] == st.gs[b];
    CostKept(c, st, st', a, b);
  }

  /** `finalIdx`: 0 while no join has been made, and after that the newest
      group, since every join made sets it. */
  ghost predicate Final(c: Catalog, lo: nat, gs: seq<Group>, f: nat)
  {
    f == if |gs| == lo + c.numRels then 0 else |gs| - 1
  }

  /** Two distinct relations some predicate links. */
  ghost predicate Linked(c: Catalog)
  {
    exists i, j :: 1 <= i <= c.numRels && 1 <= j <= c.numRels && i != j && c.adjacent({i}, {j})
  }

  /** One offer keeps the whole state of a level: plans, list, table, the
      tried pairs (with this one when joinable) and `finalIdx`, which moves
      to the join when one is made. */
  lemma OfferKeeps(c: Catalog, lo: nat, st: Memo, m: map<nat, int>, sub: seq<nat>, s: nat, tried: set<(nat, nat)>, f: nat, l: nat, r: nat)
    requires Building(c, lo, st, m, sub, s, tried) && Final(c, lo, st.gs, f)
    requires lo <= l < |st.gs| && lo <= r < |st.gs| && |st.gs[l].relations| + |st.gs[r].relations| == s
    ensures var o := Offer(c, st, m, sub, l, r);
            && Building(c, lo, o.st, o.m, o.sub, s, Tried(c, st.gs, tried, l, r))
            && Grows(st.gs, o.st.gs)
            && Final(c, lo, o.st.gs, if o.made != 0 then o.made else f)
  {
    OfferGrows(c, st, m, sub, l, r);
    OfferKeepsBuilt(c, lo, st, m, sub, l, r);
    OfferKeepsLevel(c, lo, st, m, sub, s, l, r);
    OfferKeepsBest(c, lo, st, m, sub, tried, l, r);
  }

  /** Every joinable pair of l with `rights[1..j]` has been tried. */
  ghost predicate Covered(c: Catalog, gs: seq<Group>, l: nat, rights: seq<nat>, j: nat, tried: set<(nat, nat)>)
    requires l < |gs| && j <= |rights| && forall b :: 1 <= b < |rights| ==> rights[b] < |gs|
  {
    forall b :: 1 <= b < j && Joinable(c, gs, l, rights[b]) ==> (l, rights[b]) in tried
  }

  /** Trying the next pair extends the coverage by one, whatever the groups
      grew by meanwhile. */
  lemma CoveredStep(c: Catalog, gs: seq<Group>, gs': seq<Group>, l: nat, rights: seq<nat>, j: nat, tried: set<(nat, nat)>)
    requires l < |gs| && j < |rights| && forall b :: 1 <= b < |rights| ==> rights[b] < |gs|
    requires 1 <= j && Covered(c, gs, l, rights, j, tried) && Grows(gs, gs')
    ensures Covered(c, gs', l, rights, j + 1, Tried(c, gs, tried, l, rights[j]))
  {
    forall b | 1 <= b < j + 1 && Joinable(c, gs', l, rights[b])
      ensures (l, rights[b]) in Tried(c, gs, tried, l, rights[j])
    {
      assert gs'[l] == gs[l] && gs'[rights[b]] == gs[rights[b]];
    }
  }

  /** Every joinable pair of `lefts[1..i]` with `rights[1..]` has been
      tried. */
  ghost predicate CoveredAll(c: Catalog, gs: seq<Group>, lefts: seq<nat>, i: nat, rights: seq<nat>, tried: set<(nat, nat)>)
    requires i <= |lefts| && forall a :: 1 <= a < |lefts| ==> lefts[a] < |gs|
    requires forall b :: 1 <= b < |rights| ==> rights[b] < |gs|
  {
    forall a, b :: 1 <= a < i && 1 <= b < |rights| && Joinable(c, gs, lefts[a], rights[b]) ==> (lefts[a], rights[b]) in tried
  }

  /** Covering the next left group extends the coverage by one row, whatever
      the groups grew by meanwhile, as long as earlier rows stay tried. */
  lemma CoveredAllStep(c: Catalog, gs: seq<Group>, gs': seq<Group>, lefts: seq<nat>, i: nat, rights: seq<nat>,
                       tried: set<(nat, nat)>, tried': set<(nat, nat)>)
    requires 1 <= i < |lefts| && forall a :: 1 <= a < |lefts| ==> lefts[a] < |gs|
    requires forall b :: 1 <= b < |rights| ==> rights[b] < |gs|
    requires CoveredAll(c, gs, lefts, i, rights, tried) && Grows(gs, gs') && tried <= tried'
    requires Covered(c, gs', lefts[i], rights, |rights|, tried')
    ensures CoveredAll(c, gs', lefts, i + 1, rights, tried')
  {
    forall a, b | 1 <= a < i + 1 && 1 <= b < |rights| && Joinable(c, gs', lefts[a], rights[b])
      ensures (lefts[a], rights[b]) in tried'
    {
      assert gs'[lefts[a]] == gs[lefts[a]] && gs'[rights[b]] == gs[rights[b]];
    }
  }

  /** `subproblems[1..s]`: each is the list of its size. */
  ghost predicate Levels(lo: nat, gs: seq<Group>, subs: seq<seq<nat>>, s: nat)
  {
    s <= |subs| && forall k :: 1 <= k < s ==> Level(lo, gs, subs[k], k)
  }

  /** Lists stay lists as the groups grow. */
  lemma LevelsGrow(lo: nat, gs: seq<Group>, gs': seq<Group>, subs: seq<seq<nat>>, s: nat)
    requires Levels(lo, gs, subs, s) && Grows(gs, gs')
    ensures Levels(lo, gs', subs, s)
  {
    forall k | 1 <= k < s
      ensures Level(lo, gs', subs[k], k)
    {
      LevelGrows(lo, gs, gs', subs[k], k);
    }
  }

  /** Every joinable pair from lists of sizes s1 and s - s1, for s1 below t,
      has been tried. */
  ghost predicate Tries(c: Catalog, lo: nat, gs: seq<Group>, subs: seq<seq<nat>>, s: nat, t: nat, tried: set<(nat, nat)>)
    requires Levels(lo, gs, subs, s)
  {
    forall s1, s2, a, b ::
      && 1 <= s1 < t && 1 <= s2 && s1 + s2 == s && 1 <= a < |subs[s1]| && 1 <= b < |subs[s2]|
      && Joinable(c, gs, subs[s1][a], subs[s2][b])
      ==> (subs[s1][a], subs[s2][b]) in tried
  }

  /** Covering every pair of the split t + (s - t) extends `Tries` to t + 1,
      whatever the groups grew by meanwhile, as long as earlier pairs stay
      tried. */
  lemma TriesStep(c: Catalog, lo: nat, gs: seq<Group>, gs': seq<Group>, subs: seq<seq<nat>>, s: nat, t: nat,
                  tried: set<(nat, nat)>, tried': set<(nat, nat)>)
    requires 1 <= t < s && Levels(lo, gs, subs, s) && Grows(gs, gs') && tried <= tried'
    requires Tries(c, lo, gs, subs, s, t, tried)
    requires Levels(lo, gs', subs, s)
    requires CoveredAll(c, gs', subs[t], |subs[t]|, subs[s - t], tried')
    ensures Tries(c, lo, gs', subs, s, t + 1, tried')
  {
    forall s1, s2, a, b |
      1 <= s1 < t + 1 && 1 <= s2 && s1 + s2 == s && 1 <= a < |subs[s1]| && 1 <= b < |subs[s2]| &&
      Joinable(c, gs', subs[s1][a], subs[s2][b])
      ensures (subs[s1][a], subs[s2][b]) in tried'
    {
      assert Level(lo, gs, subs[s1], s1) && Level(lo, gs, subs[s2], s2);
      assert gs'[subs[s1][a]] == gs[subs[s1][a]] && gs'[subs[s2][b]] == gs[subs[s2][b]];
    }
  }

  /** Level s is optimal: for every joinable pair of plans from the lists of
      sizes s1 and s - s1, the table keeps a plan for their union no dearer
      than their join. */
  ghost predicate Optimal(c: Catalog, lo: nat, st: Memo, m: map<nat, int>, subs: seq<seq<nat>>, s: nat)
    requires Levels(lo, st.gs, subs, s)
  {
    forall s1, s2, a, b ::
      && 1 <= s1 && 1 <= s2 && s1 + s2 == s && 1 <= a < |subs[s1]| && 1 <= b < |subs[s2]|
      && Joinable(c, st.gs, subs[s1][a], subs[s2][b])
      ==> Kept(c, st, m, subs[s1][a], subs[s2][b])
  }

  /** Once every split is covered, the tried pairs' bound makes the level
      optimal. */
  lemma TriedOptimal(c: Catalog, lo: nat, st: Memo, m: map<nat, int>, subs: seq<seq<nat>>, s: nat, tried: set<(nat, nat)>)
    requires Levels(lo, st.gs, subs, s) && Tries(c, lo, st.gs, subs, s, s, tried) && Best(c, st, m, tried)
    ensures Optimal(c, lo, st, m, subs, s)
  {
    forall s1, s2, a, b |
      1 <= s1 && 1 <= s2 && s1 + s2 == s && 1 <= a < |subs[s1]| && 1 <= b < |subs[s2]| &&
      Joinable(c, st.gs, subs[s1][a], subs[s2][b])
      ensures Kept(c, st, m, subs[s1][a], subs[s2][b])
    {
      assert (subs[s1][a], subs[s2][b]) in tried;
    }
  }

  /** Two memos built over the same groups agree on every plan's cost and
      cardinality: a leaf's are fixed, and a join's follow from its
      children's. */
  lemma {:induction false} BuiltAgree(c: Catalog, lo: nat, st: Memo, st': Memo, g: nat)
    requires Built(c, lo, st) && Built(c, lo, st') && Grows(st.gs, st'.gs) && lo <= g < |st.gs|
    ensures Get(st'.costs, g) == Get(st.costs, g) && Card(st'.cards, g) == Card(st.cards, g)
    decreases g
  {
    assert Plan(c, lo, st, g) && Plan(c, lo, st', g);
    assert st'.gs[g] == st.gs[g];
    if g >= lo + c.numRels {
      var x := st.gs[g];
      BuiltAgree(c, lo, st, st', x.l);
      BuiltAgree(c, lo, st, st', x.r);
      assert st'.gs[x.l] == st.gs[x.l] && st'.gs[x.r] == st.gs[x.r];
      CostKept(c, st, st', x.l, x.r);
    }
  }

  /** A finished level stays optimal, and its table consistent, while later
      levels add plans. */
  lemma OptimalGrows(c: Catalog, lo: nat, st: Memo, st': Memo, m: map<nat, int>, subs: seq<seq<nat>>, s: nat)
    requires Built(c, lo, st) && Built(c, lo, st') && Grows(st.gs, st'.gs)
    requires Levels(lo, st.gs, subs, s) && Table(c, lo, st.gs, m) && Optimal(c, lo, st, m, subs, s)
    ensures Levels(lo, st'.gs, subs, s) && Table(c, lo, st'.gs, m) && Optimal(c, lo, st', m, subs, s)
  {
    LevelsGrow(lo, st.gs, st'.gs, subs, s);
    forall k | k in m
      ensures lo + c.numRels <= m[k] < |st'.gs| && Key(st'.gs[m[k]].relations) == k
    {
      assert st'.gs[m[k]] == st.gs[m[k]];
    }
    forall s1, s2, a, b |
      1 <= s1 && 1 <= s2 && s1 + s2 == s && 1 <= a < |subs[s1]| && 1 <= b < |subs[s2]| &&
      Joinable(c, st'.gs, subs[s1][a], subs[s2][b])
      ensures Kept(c, st', m, subs[s1][a], subs[s2][b])
    {
      var x, y := subs[s1][a], subs[s2][b];
      assert Level(lo, st.gs, subs[s1], s1) && Level(lo, st.gs, subs[s2], s2);
      assert st'.gs[x] == st.gs[x] && st'.gs[y] == st.gs[y];
      assert Kept(c, st, m, x, y);
      var k := Key(st.gs[x].relations + st.gs[y].relations);
      BuiltAgree(c, lo, st, st', x);
      BuiltAgree(c, lo, st, st', y);
      BuiltAgree(c, lo, st, st', m[k]);
      CostKept(c, st, st', x, y);
    }
  }

  /** Levels 1 to s - 1 are done: level 1 lists the leaves, and each later
      level has its table, consistent, listed one plan per filed set, and
      optimal over every joinable pair of smaller listed plans. */
  ghost predicate Solved(c: Catalog, lo: nat, st: Memo, subs: seq<seq<nat>>, tables: seq<map<nat, int>>, s: nat)
  {
    && s == |subs| == |tables| && s >= 2 && Units(lo, subs[1], c.numRels) && Levels(lo, st.gs, subs, s)
    && forall t :: 2 <= t < s ==>
         && Table(c, lo, st.gs, tables[t]) && Listed(st.gs, subs[t], tables[t])
         && Optimal(c, lo, st, tables[t], subs, t)
  }

  /** A level list stays listed as the groups grow. */
  lemma ListedExtends(gs: seq<Group>, gs': seq<Group>, sub: seq<nat>, m: map<nat, int>)
    requires Listed(gs, sub, m) && Grows(gs, gs')
    ensures Listed(gs', sub, m)
  {
    forall j | 1 <= j < |sub|
      ensures sub[j] < |gs'| && gs'[sub[j]] == gs[sub[j]]
    {
    }
    CompleteExtends(gs, gs', sub, m);
  }

  /** Every filed set stays listed as the groups grow. */
  lemma CompleteExtends(gs: seq<Group>, gs': seq<Group>, sub: seq<nat>, m: map<nat, int>)
    requires Complete(gs, sub, m) && Grows(gs, gs')
    ensures Complete(gs', sub, m)
  {
    forall k | k in m
      ensures exists j :: 1 <= j < |sub| && sub[j] < |gs'| && Key(gs'[sub[j]].relations) == k
    {
      var j :| 1 <= j < |sub| && sub[j] < |gs| && Key(gs[sub[j]].relations) == k;
      assert gs'[sub[j]] == gs[sub[j]];
    }
  }

  /** Optimality of a level reads only the lists of smaller sizes. */
  lemma OptimalAppend(c: Catalog, lo: nat, st: Memo, m: map<nat, int>, subs: seq<seq<nat>>, sub: seq<nat>, t: nat)
    requires Levels(lo, st.gs, subs, t) && Optimal(c, lo, st, m, subs, t)
    ensures Levels(lo, st.gs, subs + [sub], t) && Optimal(c, lo, st, m, subs + [sub], t)
  {
    var subs' := subs + [sub];
    forall s1, s2, a, b |
      1 <= s1 && 1 <= s2 && s1 + s2 == t && 1 <= a < |subs'[s1]| && 1 <= b < |subs'[s2]| &&
      Joinable(c, st.gs, subs'[s1][a], subs'[s2][b])
      ensures Kept(c, st, m, subs'[s1][a], subs'[s2][b])
    {
      assert subs'[s1] == subs[s1] && subs'[s2] == subs[s2];
    }
  }

  /** A level finished before the memo grew from st to st' stays finished
      once level s's list is appended. */
  lemma SolvedKeeps(c: Catalog, lo: nat, st: Memo, st': Memo, subs: seq<seq<nat>>, tables: seq<map<nat, int>>, s: nat,
                    sub: seq<nat>, t: nat)
    requires Solved(c, lo, st, subs, tables, s) && Built(c, lo, st) && Built(c, lo, st') && Grows(st.gs, st'.gs)
    requires 2 <= t < s
    ensures var subs' := subs + [sub];
            && Table(c, lo, st'.gs, tables[t]) && Listed(st'.gs, subs'[t], tables[t])
            && Levels(lo, st'.gs, subs', t) && Optimal(c, lo, st', tables[t], subs', t)
  {
    assert (subs + [sub])[t] == subs[t];
    OptimalGrows(c, lo, st, st', tables[t], subs, t);
    ListedExtends(st.gs, st'.gs, subs[t], tables[t]);
    OptimalAppend(c, lo, st', tables[t], subs, sub, t);
  }

  /** Every level finished before the memo grew stays finished. */
  lemma SolvedKeepsAll(c: Catalog, lo: nat, st: Memo, st': Memo, subs: seq<seq<nat>>, tables: seq<map<nat, int>>, s: nat,
                       sub: seq<nat>, m: map<nat, int>)
    requires Solved(c, lo, st, subs, tables, s) && Built(c, lo, st) && Built(c, lo, st') && Grows(st.gs, st'.gs)
    ensures var subs', tables' := subs + [sub], tables + [m];
            forall t :: 2 <= t < s ==>
              && Table(c, lo, st'.gs, tables'[t]) && Listed(st'.gs, subs'[t], tables'[t])
              && Levels(lo, st'.gs, subs', t) && Optimal(c, lo, st', tables'[t], subs', t)
  {
    forall t | 2 <= t < s
      ensures var subs', tables' := subs + [sub], tables + [m];
              && Table(c, lo, st'.gs, tables'[t]) && Listed(st'.gs, subs'[t], tables'[t])
              && Levels(lo, st'.gs, subs', t) && Optimal(c, lo, st', tables'[t], subs', t)
    {
      assert (tables + [m])[t] == tables[t];
      SolvedKeeps(c, lo, st, st', subs, tables, s, sub, t);
    }
  }

  /** Finishing level s, with its list and an optimal table, after the
      memo grew from st to st', extends the finished levels by one. */
  lemma SolvedStep(c: Catalog, lo: nat, st: Memo, st': Memo, subs: seq<seq<nat>>, tables: seq<map<nat, int>>, s: nat,
                   sub: seq<nat>, m: map<nat, int>)
    requires Solved(c, lo, st, subs, tables, s) && Built(c, lo, st) && Built(c, lo, st') && Grows(st.gs, st'.gs)
    requires Levels(lo, st'.gs, subs, s) && Level(lo, st'.gs, sub, s)
    requires Table(c, lo, st'.gs, m) && Listed(st'.gs, sub, m) && Optimal(c, lo, st', m, subs, s)
    ensures Solved(c, lo, st', subs + [sub], tables + [m], s + 1)
  {
    var subs', tables' := subs + [sub], tables + [m];
    SolvedKeepsAll(c, lo, st, st', subs, tables, s, sub, m);
    OptimalAppend(c, lo, st', m, subs, sub, s);
    assert subs'[1] == subs[1] && subs'[s] == sub && tables'[s] == m;
    assert Levels(lo, st'.gs, subs', s + 1);
  }

  /** `subproblems[1]`: the sentinel, then the leaf for relation k at
      position k. */
  ghost predicate Units(lo: nat, leaves: seq<nat>, n: nat)
  {
    |leaves| == n + 1 && leaves[0] == 0 && forall k :: 1 <= k <= n ==> leaves[k] == lo + k - 1
  }

  /** The leaves form the list of size 1. */
  lemma UnitsLevel(c: Catalog, lo: nat, st: Memo, leaves: seq<nat>)
    requires Built(c, lo, st) && |st.gs| >= lo + c.numRels && Units(lo, leaves, c.numRels)
    ensures Level(lo, st.gs, leaves, 1)
  {
    forall j | 1 <= j < |leaves|
      ensures lo <= leaves[j] < |st.gs| && |st.gs[leaves[j]].relations| == 1
    {
      assert Plan(c, lo, st, leaves[j]);
    }
  }

  /** When two relations are linked, level 2 makes a join: their leaves are
      a joinable pair, so the table keeps a join group for their union. */
  lemma LinkedJoins(c: Catalog, lo: nat, st: Memo, m: map<nat, int>, subs: seq<seq<nat>>)
    requires Built(c, lo, st) && |st.gs| >= lo + c.numRels && Levels(lo, st.gs, subs, 2)
    requires Units(lo, subs[1], c.numRels) && Table(c, lo, st.gs, m) && Optimal(c, lo, st, m, subs, 2)
    requires Linked(c)
    ensures |st.gs| > lo + c.numRels
  {
    var i, j :| 1 <= i <= c.numRels && 1 <= j <= c.numRels && i != j && c.adjacent({i}, {j});
    assert Plan(c, lo, st, subs[1][i]) && Plan(c, lo, st, subs[1][j]);
    assert Joinable(c, st.gs, subs[1][i], subs[1][j]);
    assert Kept(c, st, m, subs[1][i], subs[1][j]);
  }

  /** When two relations are linked, finished level 2 files a plan and
      lists it: neither its table nor its list can be left empty. */
  lemma SolvedLinked(c: Catalog, lo: nat, st: Memo, subs: seq<seq<nat>>, tables: seq<map<nat, int>>, s: nat)
    requires Built(c, lo, st) && |st.gs| >= lo + c.numRels && Solved(c, lo, st, subs, tables, s)
    requires s >= 3 && Linked(c)
    ensures tables[2] != map[] && |subs[2]| >= 2
  {
    var i, j :| 1 <= i <= c.numRels && 1 <= j <= c.numRels && i != j && c.adjacent({i}, {j});
    assert Plan(c, lo, st, subs[1][i]) && Plan(c, lo, st, subs[1][j]);
    assert Joinable(c, st.gs, subs[1][i], subs[1][j]);
    assert Kept(c, st, tables[2], subs[1][i], subs[1][j]);
    var k := Key(st.gs[subs[1][i]].relations + st.gs[subs[1][j]].relations);
    assert k in tables[2];
    assert Complete(st.gs, subs[2], tables[2]);
  }

  /** Filing relation i under its singleton set keeps every earlier
      singleton filed under its own relation. */
  lemma SingletonsFiled(m: map<nat, int>, i: int)
    requires 1 <= i <= 63 && forall k :: 1 <= k < i ==> RS.Lookup(m, {k}) == Some(k)
    ensures RS.Encode({i}).Some?
    ensures forall k :: 1 <= k <= i ==> RS.Lookup(m[RS.Encode({i}).value := i], {k}) == Some(k)
  {
    forall k | 1 <= k <= i
      ensures RS.Lookup(m[RS.Encode({i}).value := i], {k}) == Some(k)
    {
      RS.GetAfterSet(m, {i}, i, {k});
    }
  }

  /** A built memo renders every plan: leaves have non-zero relation IDs
      and joins are of earlier plans. */
  lemma {:induction false} PlanFormats(c: Catalog, lo: nat, st: Memo, g: nat)
    requires Built(c, lo, st) && lo <= g < |st.gs|
    ensures Format(st.gs, c.name, g).Some?
    decreases g
  {
    assert Plan(c, lo, st, g);
    if g >= lo + c.numRels {
      PlanFormats(c, lo, st, st.gs[g].l);
      PlanFormats(c, lo, st, st.gs[g].r);
    }
  }
}
