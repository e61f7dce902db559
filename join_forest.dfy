/** The forest of join trees of join/join.go (join/forest.go holds the same
    structure with its slots named exprs): a growing arena of groups, each a
    leaf over one relation or a join of two earlier groups. */
module JoinForest {
  import opened Util
  import opened JoinTree
  import opened JoinText

  class Forest {
    /** The schema lookup from relation ID to relation name. */
    const name: int -> string
    var groups: seq<Group>

    ghost predicate Valid()
      reads this
    {
      Arena(groups)
    }

    /** A new forest holds only the zero group, so it lists nothing. */
    constructor (name: int -> string)
      ensures Valid() && this.name == name
      ensures groups == [Zero]
      ensures Listing(groups, name, |groups|) == ""
    {
      this.name := name;
      groups := [Zero];
    }

    /** Appends a leaf over relation r and returns its group ID. The new group
        covers {r} and renders as r's name; a leaf over relation 0 reads as a
        join and never renders. `AppendKeeps` and `ListingAppend` state what
        the append leaves alone. */
    method AddLeaf(r: int) returns (id: nat)
      requires Valid()
      modifies this
      ensures Valid()
      ensures id == |old(groups)| && groups == old(groups) + [LeafGroup(id, r)]
      ensures Format(groups, name, id) == if r != 0 then Some(name(r)) else None
    {
      id := |groups|;
      AppendLeafArena(groups, r);
      if r == 0 {
        ZeroLeafFails(groups, name);
      }
      groups := groups + [LeafGroup(id, r)];
    }

    /** Appends the join of groups l and r and returns its ID. It covers the
        union of their relations and renders as "(L ⋈ R)" when both sides
        render, and not at all otherwise. */
    method AddJoin(l: nat, r: nat) returns (id: nat)
      requires Valid() && l < |groups| && r < |groups|
      modifies this
      ensures Valid()
      ensures id == |old(groups)| && groups == old(groups) + [JoinGroup(old(groups), id, l, r)]
      ensures GetMembers(id) == old(GetMembers(l)) + old(GetMembers(r))
      ensures Format(groups, name, id)
              == match (Format(old(groups), name, l), Format(old(groups), name, r))
                 case (Some(ls), Some(rs)) => Some(Joined(ls, rs))
                 case _ => None
    {
      id := |groups|;
      var x := JoinGroup(groups, id, l, r);
      AppendJoinArena(groups, l, r);
      AppendKeeps(groups, x, name, l);
      AppendKeeps(groups, x, name, r);
      groups := groups + [x];
    }

    /** The relations group g covers; for a group that renders these are
        exactly the relations at the leaves of its tree. */
    function GetMembers(g: nat): (s: set<int>)
      reads this
      requires Valid() && g < |groups|
      ensures Format(groups, name, g).Some? ==> s == Leaves(groups, g)
    {
      if Format(groups, name, g).Some? then
        MembersAreLeaves(groups, name, g); groups[g].relations
      else groups[g].relations
    }

    /** The parenthesised rendering of the tree under g, or None where the Go
        code panics on reaching the zero group. With plain relation names it
        holds one join symbol per join, one fewer than the leaves, and reading
        it back gives the tree under g. */
    function FormatString(g: nat): (s: Option<string>)
      reads this
      requires Valid() && g < |groups|
      ensures g == 0 ==> s.None?
      ensures s.Some? && PlainNames(name) ==>
                Count(s.value, '⋈') + 1 == LeafCount(groups, g)
                && Count(s.value, '(') == Count(s.value, ')')
                && Parse(s.value) == TreeOf(groups, name, g)
    {
      var s := Format(groups, name, g);
      if s.Some? then FormatShape(groups, name, g); FormatParses(groups, name, g); s else s
    }

    /** One line per group after the zero group, in ID order. */
    method String() returns (s: string)
      requires Valid()
      ensures s == Listing(groups, name, |groups|)
    {
      s := "";
      var i := 1;
      while i < |groups|
        invariant 1 <= i <= |groups|
        invariant s == Listing(groups, name, i)
      {
        s := s + Line(i, groups[i], name);
        i := i + 1;
      }
    }
  }

  /** Relation names of the six-relation test schema, by ID. */
  function TestName(id: int): string
  {
    match id
    case 1 => "A" case 2 => "B" case 3 => "C"
    case 4 => "D" case 5 => "E" case 6 => "F"
    case _ => ""
  }

  /** The renderings of the example's inner joins. */
  lemma InnerStrings()
    ensures Joined("E", "D") == "(E ⋈ D)"
    ensures Joined("F", "(E ⋈ D)") == "(F ⋈ (E ⋈ D))"
    ensures Joined("C", "A") == "(C ⋈ A)"
  {
  }

  lemma LeftString()
    ensures Joined("B", "(F ⋈ (E ⋈ D))") == "(B ⋈ (F ⋈ (E ⋈ D)))"
  {
  }

  /** The expected rendering of the example tree, assembled from its parts. */
  lemma ExampleString()
    ensures Joined(Joined("B", Joined("F", Joined("E", "D"))), Joined("C", "A"))
            == "((B ⋈ (F ⋈ (E ⋈ D))) ⋈ (C ⋈ A))"
  {
    InnerStrings();
    LeftString();
    var left, right := "(B ⋈ (F ⋈ (E ⋈ D)))", "(C ⋈ A)";
    assert Joined(left, right) == "((B ⋈ (F ⋈ (E ⋈ D))) ⋈ (C ⋈ A))";
  }

  /** Leaves A to F, in that order, over relations 1 to 6. */
  method ExampleLeaves() returns (f: Forest)
    ensures fresh(f) && f.Valid() && f.name == TestName
    ensures |f.groups| == 7 && forall i :: 1 <= i <= 6 ==> f.groups[i] == LeafGroup(i, i)
  {
    f := new Forest(TestName);
    var a := f.AddLeaf(1);
    var b := f.AddLeaf(2);
    var c := f.AddLeaf(3);
    var d := f.AddLeaf(4);
    var e := f.AddLeaf(5);
    var ff := f.AddLeaf(6);
  }

  /** The first two joins of the example: E ⋈ D, then F over it. */
  method ExampleDeepJoins(f: Forest) returns (j4: nat)
    requires f.Valid() && f.name == TestName && |f.groups| == 7
    requires forall i :: 1 <= i <= 6 ==> f.groups[i] == LeafGroup(i, i)
    modifies f
    ensures f.Valid() && |f.groups| == 9 && j4 == 8
    ensures forall i :: 1 <= i <= 6 ==> f.groups[i] == LeafGroup(i, i)
    ensures f.groups[j4].relations == {4, 5, 6}
    ensures Format(f.groups, f.name, j4) == Some(Joined("F", Joined("E", "D")))
  {
    assert Format(f.groups, f.name, 5) == Some("E") && Format(f.groups, f.name, 4) == Some("D");
    var j5 := f.AddJoin(5, 4);
    assert Format(f.groups, f.name, 6) == Some("F");
    j4 := f.AddJoin(6, j5);
  }

  /** The next two joins: C ⋈ A, then B over the deep tree. */
  method ExampleShallowJoins(f: Forest, j4: nat) returns (j2: nat, j3: nat)
    requires f.Valid() && f.name == TestName && |f.groups| == 9 && j4 == 8
    requires forall i :: 1 <= i <= 6 ==> f.groups[i] == LeafGroup(i, i)
    requires f.groups[j4].relations == {4, 5, 6}
    requires Format(f.groups, f.name, j4) == Some(Joined("F", Joined("E", "D")))
    modifies f
    ensures f.Valid() && f.name == TestName && j2 < |f.groups| && j3 < |f.groups|
    ensures f.groups[j2].relations == {2, 4, 5, 6} && f.groups[j3].relations == {1, 3}
    ensures Format(f.groups, f.name, j2) == Some(Joined("B", Joined("F", Joined("E", "D"))))
    ensures Format(f.groups, f.name, j3) == Some(Joined("C", "A"))
  {
    assert Format(f.groups, f.name, 3) == Some("C") && Format(f.groups, f.name, 1) == Some("A");
    ghost var before := f.groups;
    j3 := f.AddJoin(3, 1);
    AppendKeeps(before, f.groups[j3], f.name, j4);
    assert Format(f.groups, f.name, 2) == Some("B");
    before := f.groups;
    j2 := f.AddJoin(2, j4);
    AppendKeeps(before, f.groups[j2], f.name, j3);
  }

  /** The tree B ⋈ (F ⋈ (E ⋈ D)) joined with C ⋈ A, built bottom-up over the
      leaves A to F. */
  method Example() returns (f: Forest, root: nat)
    ensures f.Valid() && root < |f.groups|
    ensures f.FormatString(root) == Some("((B ⋈ (F ⋈ (E ⋈ D))) ⋈ (C ⋈ A))")
    ensures f.GetMembers(root) == {1, 2, 3, 4, 5, 6}
  {
    f := ExampleLeaves();
    var j4 := ExampleDeepJoins(f);
    var j2, j3 := ExampleShallowJoins(f, j4);
    root := f.AddJoin(j2, j3);
    ExampleString();
  }
}
