/** The name-keyed schema builder of schema/schema.go: relations are numbered
    from 0 in insertion order and pair selectivities live in a triangular table
    whose unset slots hold the sentinel -1. */
module Schema {
  import opened Util

  /** Number of unordered pairs of distinct relations among `n`, by recursion. */
  function Tri(n: nat): nat
  {
    if n == 0 then 0 else Tri(n - 1) + (n - 1)
  }

  lemma {:induction false} TriClosedForm(n: nat)
    ensures Tri(n) == n * (n - 1) / 2
  {
    if n > 0 {
      TriClosedForm(n - 1);
      assert n * (n - 1) == (n - 1) * (n - 2) + 2 * (n - 1);
    }
  }

  lemma {:induction false} TriMonotone(m: nat, n: nat)
    requires m <= n
    ensures Tri(m) <= Tri(n)
  {
    if m < n {
      TriMonotone(m, n - 1);
    }
  }

  /** Slot of the unordered pair {a, b} of 0-based indexes: the pairs with a
      smaller larger index come first, then `lo` selects within the band. */
  function Pair(a: nat, b: nat): (r: nat)
  {
    var lo := if a > b then b else a;
    var hi := if a > b then a else b;
    Tri(hi) + lo
  }

  /** The slot is the closed form hi*(hi-1)/2 + lo that schema.go computes. */
  lemma PairClosedForm(a: nat, b: nat)
    ensures var lo := if a > b then b else a;
            var hi := if a > b then a else b;
            Pair(a, b) == hi * (hi - 1) / 2 + lo
  {
    var hi := if a > b then a else b;
    TriClosedForm(hi);
  }

  /** The slot of a pair with larger index `hi` lies in [Tri(hi), Tri(hi+1)). */
  lemma PairBand(a: nat, b: nat)
    requires a != b
    ensures var hi := if a > b then a else b;
            Tri(hi) <= Pair(a, b) < Tri(hi + 1)
  {
  }

  /** `pair` ignores argument order and, for distinct indexes below `n`, lands
      inside a table of Tri(n) slots. */
  lemma PairBelow(a: nat, b: nat, n: nat)
    requires a != b && a < n && b < n
    ensures Pair(a, b) == Pair(b, a)
    ensures Pair(a, b) < Tri(n)
  {
    var hi := if a > b then a else b;
    PairBand(a, b);
    TriMonotone(hi + 1, n);
  }

  /** The same in closed form: the table has n(n-1)/2 slots. */
  lemma PairInRange(a: nat, b: nat, n: nat)
    requires a != b && a < n && b < n
    ensures Pair(a, b) == Pair(b, a)
    ensures Pair(a, b) < Tri(n) == n * (n - 1) / 2
  {
    PairBelow(a, b, n);
    TriClosedForm(n);
  }

  /** Distinct unordered pairs get distinct slots. */
  lemma PairInjective(a: nat, b: nat, c: nat, d: nat)
    requires a < b && c < d
    requires Pair(a, b) == Pair(c, d)
    ensures a == c && b == d
  {
    PairBand(a, b);
    PairBand(c, d);
    if b < d {
      TriMonotone(b + 1, d);
    } else if d < b {
      TriMonotone(d + 1, b);
    }
  }

  /** `pair` does not reject a self pair: the slot of {l, l} is the slot of {0, l+1}. */
  lemma SelfPairAliases(l: nat)
    ensures Pair(l, l) == Pair(0, l + 1)
    ensures Pair(l, l) == Tri(l + 1)
  {
  }

  datatype Relation = Relation(name: string, card: int)

  /** The frozen schema: the relations in insertion order and the pair table. */
  datatype Schema = Schema(relations: seq<Relation>, selectivities: seq<real>)

  datatype Error = DuplicateName(dup: string) | NoRelation(missing: string) | SlotOutOfRange(slot: nat)

  class Builder {
    var relations: seq<Relation>
    var selectivities: seq<real>
    var nameToIdx: map<string, nat>

    /** The name index is exactly the inverse of the relation list, and the
        table has one slot per unordered pair. */
    ghost predicate Valid()
      reads this
    {
      && |selectivities| == Tri(|relations|)
      && (forall name :: name in nameToIdx ==>
            nameToIdx[name] < |relations| && relations[nameToIdx[name]].name == name)
      && (forall i :: 0 <= i < |relations| ==>
            relations[i].name in nameToIdx && nameToIdx[relations[i].name] == i)
    }

    constructor ()
      ensures Valid()
      ensures relations == [] && selectivities == [] && nameToIdx == map[]
    {
      relations := [];
      selectivities := [];
      nameToIdx := map[];
    }

    /** Appends a relation under a fresh name; a duplicate name fails and
        changes nothing. */
    method AddRelation(name: string, card: int) returns (outcome: Outcome<Error>)
      requires Valid()
      modifies this
      ensures Valid()
      ensures outcome == if name in old(nameToIdx) then Fail(DuplicateName(name)) else Pass
      ensures outcome.Fail? ==>
                relations == old(relations) && selectivities == old(selectivities)
                && nameToIdx == old(nameToIdx)
      ensures outcome.Pass? ==>
                && relations == old(relations) + [Relation(name, card)]
                && nameToIdx == old(nameToIdx)[name := |old(relations)|]
                && selectivities == old(selectivities) + seq(|old(relations)|, _ => -1.0)
    {
      if name in nameToIdx {
        return Fail(DuplicateName(name));
      }
      nameToIdx := nameToIdx[name := |relations|];
      var table := selectivities;
      var i := 0;
      while i < |relations|
        invariant 0 <= i <= |relations|
        invariant table == selectivities + seq(i, _ => -1.0)
      {
        table := table + [-1.0];
        i := i + 1;
      }
      selectivities := table;
      relations := relations + [Relation(name, card)];
      outcome := Pass;
    }

    /** Looks both names up and overwrites the pair's slot with `sel`. An unknown
        name fails; so does the self pair of the newest relation, whose slot is
        one past the end of the table. */
    method AddPredicate(x: string, y: string, sel: real) returns (outcome: Outcome<Error>)
      requires Valid()
      modifies this
      ensures Valid()
      ensures relations == old(relations) && nameToIdx == old(nameToIdx)
      ensures outcome ==
                if x !in nameToIdx then Fail(NoRelation(x))
                else if y !in nameToIdx then Fail(NoRelation(y))
                else if Pair(nameToIdx[x], nameToIdx[y]) >= |old(selectivities)|
                then Fail(SlotOutOfRange(Pair(nameToIdx[x], nameToIdx[y])))
                else Pass
      ensures outcome.Fail? ==> selectivities == old(selectivities)
      ensures outcome.Pass? ==>
                selectivities == old(selectivities)[Pair(nameToIdx[x], nameToIdx[y]) := sel]
    {
      if x !in nameToIdx {
        return Fail(NoRelation(x));
      }
      var l := nameToIdx[x];
      if y !in nameToIdx {
        return Fail(NoRelation(y));
      }
      var r := nameToIdx[y];
      var slot := Pair(l, r);
      if slot >= |selectivities| {
        return Fail(SlotOutOfRange(slot));
      }
      selectivities := selectivities[slot := sel];
      outcome := Pass;
    }

    /** Freezes the builder: the schema holds exactly the builder's relations,
        in insertion order, and its table. */
    method Build() returns (s: Schema)
      requires Valid()
      ensures s.relations == relations && s.selectivities == selectivities
      ensures |s.selectivities| == |s.relations| * (|s.relations| - 1) / 2
    {
      TriClosedForm(|relations|);
      s := Schema(relations, selectivities);
    }
  }

  /** Of all predicates between known names, only a self pair of the newest
      relation misses the table; distinct names always hit a slot of their own. */
  lemma PredicateSlot(n: nat, l: nat, r: nat)
    requires l < n && r < n
    ensures Pair(l, r) >= Tri(n) <==> (l == r && l == n - 1)
  {
    if l != r {
      PairBelow(l, r, n);
    } else {
      SelfPairAliases(l);
      if l < n - 1 {
        TriMonotone(l + 1, n - 1);
        assert Tri(n) == Tri(n - 1) + (n - 1);
      }
    }
  }

  /** A builder client: a predicate between two relations, then a self
      predicate on the first, which lands in the slot of the pair {0, 1} and
      overwrites it. */
  method Example() returns (s: Schema)
    ensures s.relations == [Relation("A", 50), Relation("B", 1000)]
    ensures s.selectivities == [0.5]
  {
    var b := new Builder();
    var o := b.AddRelation("A", 50);
    assert "B" !in b.nameToIdx;
    o := b.AddRelation("B", 1000);
    assert b.selectivities == [-1.0];
    o := b.AddPredicate("A", "B", 0.01);
    o := b.AddPredicate("A", "A", 0.5);
    s := b.Build();
  }

  /** The builder use of schema/schema_test.go: three relations and no
      predicate give the relations in insertion order and three unset slots. */
  method ThreeUnset() returns (s: Schema)
    ensures s.relations == [Relation("A", 100), Relation("B", 1000), Relation("C", 3)]
    ensures s.selectivities == [-1.0, -1.0, -1.0]
  {
    var b := new Builder();
    var o := b.AddRelation("A", 100);
    assert "B" !in b.nameToIdx;
    o := b.AddRelation("B", 1000);
    assert "C" !in b.nameToIdx;
    o := b.AddRelation("C", 3);
    s := b.Build();
  }
}
