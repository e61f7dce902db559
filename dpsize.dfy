/** dpsize_orderer.go: the bottom-up search that, for each size s from 2 to
    the number of relations, joins every plan of size s1 with every plan of
    size s - s1, and keeps per relation set the cheapest join found. */
module DPSize {
  import opened Util
  import opened JoinTree
  import opened JoinForest
  import opened DPPlans
  import RS = RelSetMap

  /** The orderer (lines 11-16): the schema it reads, the forest it builds,
      and the cost and cardinality worked out for each group. */
  class DPSizeOrderer {
    const schema: Catalog
    const forest: Forest
    var costs: map<int, real>
    var cards: map<int, int>

    ghost predicate Valid()
      reads this, forest
    {
      forest.Valid() && forest.name == schema.name
    }

    /** The forest's groups with the two maps, as a value. */
    function State(): Memo
      reads this, forest
    {
      Memo(forest.groups, costs, cards)
    }

    /** Lines 18-25: a fresh forest over the schema's names and empty maps. */
    constructor (s: Catalog)
      ensures Valid() && schema == s && fresh(forest)
      ensures State() == Memo([Zero], map[], map[])
    {
      schema := s;
      forest := new Forest(s.name);
      costs := map[];
      cards := map[];
    }

    /** Lines 49-79 for one pair (l, r): the memo, the level's table and its
        list become what `Offer` makes of them, and the new group's ID is
        returned (0 when none is made). */
    method Consider(l: nat, r: nat, best: RS.RelSetMap, sub: seq<nat>) returns (sub': seq<nat>, made: nat)
      requires Valid() && schema.numRels <= 63
      requires l < |forest.groups| && r < |forest.groups|
      requires Within(schema, forest.groups[l].relations) && Within(schema, forest.groups[r].relations)
      modifies this, forest, best
      ensures Valid()
      ensures var o := Offer(schema, old(State()), old(best.m), sub, l, r);
              State() == o.st && best.m == o.m && sub' == o.sub && made == o.made
    {
      ghost var st, m := State(), best.m;
      var lMembers := forest.GetMembers(l);
      var rMembers := forest.GetMembers(r);
      if !(lMembers !! rMembers) || !schema.adjacent(lMembers, rMembers) {
        return sub, 0;
      }
      var resultingSet := lMembers + rMembers;
      var newCard := (Card(cards, l) as real) * (Card(cards, r) as real) * schema.selectivity(lMembers, rMembers);
      var newCost := Get(costs, l) + Get(costs, r) + newCard;
      assert newCard == JoinCard(schema, st, l, r) && newCost == JoinCost(schema, st, l, r);
      KeyEncodes(schema, resultingSet);
      var got := best.Get(resultingSet);
      var oldBestIdx := got.value;
      assert oldBestIdx == Prior(m, Key(resultingSet));
      if oldBestIdx == 0 || newCost < Get(costs, oldBestIdx) {
        assert Improves(schema, st, m, l, r);
        made := forest.AddJoin(l, r);
        sub' := if oldBestIdx == 0 then sub + [made] else sub;
        cards := cards[made := Trunc(newCard)];
        costs := costs[made := newCost];
        var outcome := best.Set(resultingSet, made);
        assert State() == Extend(schema, st, l, r);
      } else {
        assert !Improves(schema, st, m, l, r);
        sub', made := sub, 0;
      }
    }

    /** `Consider` with `finalIdx` (line 75): the level's state is kept and
        the pair is tried. */
    method TryPair(l: nat, r: nat, best: RS.RelSetMap, sub: seq<nat>, finalIdx: nat,
                   ghost lo: nat, ghost s: nat, ghost tried: set<(nat, nat)>)
      returns (sub': seq<nat>, finalIdx': nat, ghost tried': set<(nat, nat)>)
      requires Valid() && Building(schema, lo, State(), best.m, sub, s, tried)
      requires Final(schema, lo, forest.groups, finalIdx)
      requires lo <= l < |forest.groups| && lo <= r < |forest.groups|
      requires |forest.groups[l].relations| + |forest.groups[r].relations| == s
      modifies this, forest, best
      ensures Valid() && Building(schema, lo, State(), best.m, sub', s, tried')
      ensures Final(schema, lo, forest.groups, finalIdx')
      ensures Grows(old(forest.groups), forest.groups)
      ensures tried' == Tried(schema, old(forest.groups), tried, l, r)
    {
      ghost var st, m := State(), best.m;
      assert Plan(schema, lo, st, l) && Plan(schema, lo, st, r);
      var made;
      sub', made := Consider(l, r, best, sub);
      OfferKeeps(schema, lo, st, m, sub, s, tried, finalIdx, l, r);
      finalIdx' := if made != 0 then made else finalIdx;
      tried' := Tried(schema, st.gs, tried, l, r);
    }

    /** The loop of line 48: offers l with each group of `rights` after the
        sentinel. The level's state is kept, and every joinable pair among
        them is then tried. */
    method JoinWith(l: nat, rights: seq<nat>, best: RS.RelSetMap, sub: seq<nat>, finalIdx: nat,
                    ghost lo: nat, ghost s: nat, ghost s2: nat, ghost tried: set<(nat, nat)>)
      returns (sub': seq<nat>, finalIdx': nat, ghost tried': set<(nat, nat)>)
      requires Valid() && Building(schema, lo, State(), best.m, sub, s, tried)
      requires Final(schema, lo, forest.groups, finalIdx)
      requires lo <= l < |forest.groups| && |forest.groups[l].relations| + s2 == s
      requires Level(lo, forest.groups, rights, s2)
      modifies this, forest, best
      ensures Valid() && Building(schema, lo, State(), best.m, sub', s, tried')
      ensures Final(schema, lo, forest.groups, finalIdx')
      ensures Grows(old(forest.groups), forest.groups) && tried <= tried'
      ensures Level(lo, forest.groups, rights, s2)
      ensures Covered(schema, forest.groups, l, rights, |rights|, tried')
    {
      sub', finalIdx', tried' := sub, finalIdx, tried;
      var j := 1;
      while j < |rights|
        invariant 1 <= j <= |rights|
        invariant Valid() && Building(schema, lo, State(), best.m, sub', s, tried')
        invariant Final(schema, lo, forest.groups, finalIdx')
        invariant Grows(old(forest.groups), forest.groups) && tried <= tried'
        invariant Level(lo, forest.groups, rights, s2)
        invariant Covered(schema, forest.groups, l, rights, j, tried')
      {
        ghost var gs, tried0 := forest.groups, tried';
        sub', finalIdx', tried' := TryPair(l, rights[j], best, sub', finalIdx', lo, s, tried');
        LevelGrows(lo, gs, forest.groups, rights, s2);
        CoveredStep(schema, gs, forest.groups, l, rights, j, tried0);
        j := j + 1;
      }
    }

    /** The loop of line 47: offers each group of `lefts` after the sentinel
        with each of `rights`, so every joinable pair between them is tried. */
    method JoinAll(lefts: seq<nat>, rights: seq<nat>, best: RS.RelSetMap, sub: seq<nat>, finalIdx: nat,
                   ghost lo: nat, ghost s: nat, ghost s1: nat, ghost tried: set<(nat, nat)>)
      returns (sub': seq<nat>, finalIdx': nat, ghost tried': set<(nat, nat)>)
      requires Valid() && Building(schema, lo, State(), best.m, sub, s, tried)
      requires Final(schema, lo, forest.groups, finalIdx)
      requires s1 <= s && Level(lo, forest.groups, lefts, s1) && Level(lo, forest.groups, rights, s - s1)
      modifies this, forest, best
      ensures Valid() && Building(schema, lo, State(), best.m, sub', s, tried')
      ensures Final(schema, lo, forest.groups, finalIdx')
      ensures Grows(old(forest.groups), forest.groups) && tried <= tried'
      ensures Level(lo, forest.groups, lefts, s1) && Level(lo, forest.groups, rights, s - s1)
      ensures CoveredAll(schema, forest.groups, lefts, |lefts|, rights, tried')
    {
      sub', finalIdx', tried' := sub, finalIdx, tried;
      var i := 1;
      while i < |lefts|
        invariant 1 <= i <= |lefts|
        invariant Valid() && Building(schema, lo, State(), best.m, sub', s, tried')
        invariant Final(schema, lo, forest.groups, finalIdx')
        invariant Grows(old(forest.groups), forest.groups) && tried <= tried'
        invariant Level(lo, forest.groups, lefts, s1) && Level(lo, forest.groups, rights, s - s1)
        invariant CoveredAll(schema, forest.groups, lefts, i, rights, tried')
      {
        ghost var gs, tried0 := forest.groups, tried';
        sub', finalIdx', tried' := JoinWith(lefts[i], rights, best, sub', finalIdx', lo, s, s - s1, tried');
        LevelGrows(lo, gs, forest.groups, lefts, s1);
        CoveredAllStep(schema, gs, forest.groups, lefts, i, rights, tried0, tried');
        i := i + 1;
      }
    }

    /** Lines 43-82 for one size s: a fresh table and list, then each split
        s1 + (s - s1) with s1 from 1 to s - 1. Afterwards the list holds one
        plan per relation set of size s that has one, the table files each,
        and the level is optimal over all joinable pairs of smaller plans. */
    method SolveLevel(s: nat, subs: seq<seq<nat>>, finalIdx: nat, ghost lo: nat)
      returns (best: RS.RelSetMap, sub: seq<nat>, finalIdx': nat)
      requires Valid() && Built(schema, lo, State()) && |forest.groups| >= lo + schema.numRels
      requires schema.numRels <= 63 && 2 <= s == |subs| && Levels(lo, forest.groups, subs, s)
      requires Final(schema, lo, forest.groups, finalIdx)
      modifies this, forest
      ensures fresh(best)
      ensures Valid() && Built(schema, lo, State()) && |forest.groups| >= lo + schema.numRels
      ensures Grows(old(forest.groups), forest.groups) && Final(schema, lo, forest.groups, finalIdx')
      ensures Levels(lo, forest.groups, subs, s)
      ensures Level(lo, forest.groups, sub, s) && Table(schema, lo, forest.groups, best.m) && Listed(forest.groups, sub, best.m)
      ensures Optimal(schema, lo, State(), best.m, subs, s)
    {
      best := new RS.RelSetMap();
      sub := [0];
      finalIdx' := finalIdx;
      ghost var tried: set<(nat, nat)> := {};
      var s1 := 1;
      while s1 < s
        invariant 1 <= s1 <= s && fresh(best)
        invariant Valid() && Building(schema, lo, State(), best.m, sub, s, tried)
        invariant Final(schema, lo, forest.groups, finalIdx')
        invariant Grows(old(forest.groups), forest.groups) && Levels(lo, forest.groups, subs, s)
        invariant Tries(schema, lo, forest.groups, subs, s, s1, tried)
      {
        ghost var gs, tried0 := forest.groups, tried;
        sub, finalIdx', tried := JoinAll(subs[s1], subs[s - s1], best, sub, finalIdx', lo, s, s1, tried);
        LevelsGrow(lo, gs, forest.groups, subs, s);
        TriesStep(schema, lo, gs, forest.groups, subs, s, s1, tried0, tried);
        s1 := s1 + 1;
      }
      TriedOptimal(schema, lo, State(), best.m, subs, s, tried);
    }

    /** Lines 33-36: the leaf for relation i, at cost 0 with the relation's
        cardinality, keeps every group from lo a plan. */
    method AddUnit(i: int, ghost lo: nat) returns (l: nat)
      requires Valid() && Built(schema, lo, State()) && |forest.groups| == lo + i - 1 && 1 <= i <= schema.numRels
      modifies this, forest
      ensures Valid() && Built(schema, lo, State())
      ensures l == old(|forest.groups|) && forest.groups == old(forest.groups) + [LeafGroup(l, i)]
      ensures costs == old(costs)[l := 0.0] && cards == old(cards)[l := schema.cardinality(i)]
    {
      ghost var st := State();
      l := forest.AddLeaf(i);
      costs := costs[l := 0.0];
      cards := cards[l := schema.cardinality(i)];
      LeafKeepsBuilt(schema, lo, st, i);
    }

    /** Lines 30-37: one leaf per relation in order, at cost 0 with the
        relation's cardinality, each relation filed in `units` under its own
        singleton set. `Set` fails at relation 64, and so does this. */
    method AddLeaves(units: RS.RelSetMap, ghost lo: nat) returns (leaves: seq<nat>, ok: bool)
      requires Valid() && lo == |forest.groups| && units.m == map[]
      modifies this, forest, units
      ensures Valid() && Grows(old(forest.groups), forest.groups)
      ensures ok <==> schema.numRels <= 63
      ensures ok ==> Built(schema, lo, State()) && |forest.groups| == lo + schema.numRels
      ensures ok ==> Units(lo, leaves, schema.numRels)
      ensures ok ==> forall i :: 1 <= i <= schema.numRels ==> RS.Lookup(units.m, {i}) == Some(i)
    {
      leaves := [0];
      var i := 1;
      while i <= schema.numRels
        invariant 1 <= i <= schema.numRels + 1 && i <= 64
        invariant Valid() && |forest.groups| == lo + i - 1 && Built(schema, lo, State())
        invariant Grows(old(forest.groups), forest.groups)
        invariant Units(lo, leaves, i - 1)
        invariant forall k :: 1 <= k < i ==> RS.Lookup(units.m, {k}) == Some(k)
      {
        ghost var m0 := units.m;
        var outcome := units.Set({i}, i);
        if outcome.Fail? {
          assert i in {i};
          return leaves, false;
        }
        SingletonsFiled(m0, i);
        var l := AddUnit(i, lo);
        leaves := leaves + [l];
        i := i + 1;
      }
      ok := true;
    }

    /** Lines 27-88: leaves, then levels 2 to the number of relations, then
        the rendering of the last join made. The result is None where the
        code panics: at relation 64, which `RelSetMap` cannot key, and when
        no join was made, so that the zero group is rendered. Otherwise every
        group added is a plan, a join is made whenever two relations are
        linked, and `subs` and `tables` are the final `subproblems` and the
        contents of `bests`: level 1 lists the leaves, each later level lists
        one plan per filed set, and each level s keeps, per set, a plan no
        dearer than every joinable pair drawn from the lists of sizes s1 and
        s - s1. Those lists hold the first plan found per set, not the
        cheapest (see `DPRelist`). */
    method Order() returns (result: Option<int>, ghost subs: seq<seq<nat>>, ghost tables: seq<map<nat, int>>)
      requires Valid()
      modifies this, forest
      ensures Valid() && Grows(old(forest.groups), forest.groups)
      ensures schema.numRels > 63 ==> result == None
      ensures schema.numRels <= 63 ==>
                && Built(schema, old(|forest.groups|), State())
                && |forest.groups| >= old(|forest.groups|) + schema.numRels
                && (result == None <==> |forest.groups| == old(|forest.groups|) + schema.numRels)
                && (Linked(schema) ==> result == Some(0))
                && |subs| == (if schema.numRels < 2 then 2 else schema.numRels + 1)
                && Solved(schema, old(|forest.groups|), State(), subs, tables, |subs|)
      ensures result == None || result == Some(0)
    {
      ghost var lo := |forest.groups|;
      var units := new RS.RelSetMap();
      var leaves, ok := AddLeaves(units, lo);
      if !ok {
        return None, [], [];
      }
      var subproblems: seq<seq<nat>> := [[], leaves];
      var bests: seq<RS.RelSetMap?> := [null, units];
      var finalIdx := 0;
      UnitsLevel(schema, lo, State(), leaves);
      subs, tables := subproblems, [map[], units.m];
      var s := 2;
      while s <= schema.numRels
        invariant 2 <= s && (if schema.numRels < 2 then s == 2 else s <= schema.numRels + 1)
        invariant |subproblems| == s && |bests| == s && subproblems[1] == leaves
        invariant Valid() && Built(schema, lo, State()) && |forest.groups| >= lo + schema.numRels
        invariant Grows(old(forest.groups), forest.groups) && Levels(lo, forest.groups, subproblems, s)
        invariant Final(schema, lo, forest.groups, finalIdx)
        invariant s > 2 && Linked(schema) ==> |forest.groups| > lo + schema.numRels
        invariant subs == subproblems && Solved(schema, lo, State(), subs, tables, s)
      {
        ghost var st := State();
        var best, sub;
        best, sub, finalIdx := SolveLevel(s, subproblems, finalIdx, lo);
        SolvedStep(schema, lo, st, State(), subs, tables, s, sub, best.m);
        subs, tables := subs + [sub], tables + [best.m];
        if s == 2 && Linked(schema) {
          LinkedJoins(schema, lo, State(), best.m, subproblems);
        }
        bests := bests + [best];
        subproblems := subproblems + [sub];
        s := s + 1;
      }
      if finalIdx != 0 {
        PlanFormats(schema, lo, State(), finalIdx);
      }
      var text := forest.FormatString(finalIdx);
      if text.None? {
        return None, subs, tables;
      }
      return Some(0), subs, tables;
    }
  }
}
