/** The arena of join groups shared by join/join.go and join/forest.go: slot 0
    holds the zero group, every later slot is a leaf (one relation) or a join
    of two earlier slots, and each slot records the relations it covers. */
module JoinTree {
  import opened Util

  /** One slot of the arena. `relID` is 0 for a join; `l` and `r` are 0 for a
      leaf. The back-pointer to the forest is not modelled. */
  datatype Group = Group(id: int, relID: int, l: int, r: int, relations: set<int>)

  /** The zero value a Go slice of groups starts with. */
  const Zero: Group := Group(0, 0, 0, 0, {})

  function LeafGroup(id: int, rel: int): Group
  {
    Group(id, rel, 0, 0, {rel})
  }

  function JoinGroup(gs: seq<Group>, id: int, l: nat, r: nat): Group
    requires l < |gs| && r < |gs|
  {
    Group(id, 0, l, r, gs[l].relations + gs[r].relations)
  }

  /** What `AddLeaf` and `AddJoin` can build: the zero group first, then slot i
      holds id i and is either a leaf record or a join of two earlier slots. */
  ghost predicate Arena(gs: seq<Group>)
  {
    && |gs| >= 1 && gs[0] == Zero
    && forall i :: 1 <= i < |gs| ==> Placed(gs, i)
  }

  /** Slot i holds id i and is a leaf record or a join of two earlier slots. */
  ghost predicate Placed(gs: seq<Group>, i: int)
  {
    && 1 <= i < |gs|
    && gs[i].id == i
    && ((gs[i].l == 0 && gs[i].r == 0 && gs[i].relations == {gs[i].relID})
        || (gs[i].relID == 0 && 0 <= gs[i].l < i && 0 <= gs[i].r < i
            && gs[i].relations == gs[gs[i].l].relations + gs[gs[i].r].relations))
  }

  /** Renders group g: a leaf (relID != 0) as its relation's name, anything else
      as "(L ⋈ R)". Group 0 is refused, and so is every tree that reaches it. */
  function Format(gs: seq<Group>, name: int -> string, g: nat): (s: Option<string>)
    requires Arena(gs) && g < |gs|
    ensures g == 0 ==> s.None?
    decreases g
  {
    if g == 0 then None
    else
      assert Placed(gs, g);
      if gs[g].relID != 0 then Some(name(gs[g].relID))
    else
      match Format(gs, name, gs[g].l)
      case None => None
      case Some(left) =>
        match Format(gs, name, gs[g].r)
        case None => None
        case Some(right) => Some(Joined(left, right))
  }

  /** The rendering of a join from the renderings of its two sides. */
  function Joined(left: string, right: string): string
  {
    "(" + left + " ⋈ " + right + ")"
  }

  /** The relation IDs at the leaves of the tree that `Format` walks under g. */
  ghost function Leaves(gs: seq<Group>, g: nat): set<int>
    requires Arena(gs) && g < |gs|
    decreases g
  {
    if g == 0 then {}
    else
      assert Placed(gs, g);
      if gs[g].relID != 0 then {gs[g].relID}
    else Leaves(gs, gs[g].l) + Leaves(gs, gs[g].r)
  }

  /** Whenever a group renders, the relations it records are exactly the
      leaves of its tree. */
  lemma {:induction false} MembersAreLeaves(gs: seq<Group>, name: int -> string, g: nat)
    requires Arena(gs) && g < |gs| && Format(gs, name, g).Some?
    ensures gs[g].relations == Leaves(gs, g)
    decreases g
  {
    assert Placed(gs, g);
    if gs[g].relID == 0 {
      MembersAreLeaves(gs, name, gs[g].l);
      MembersAreLeaves(gs, name, gs[g].r);
    }
  }

  /** A leaf record with relation ID 0 reads as a join of group 0 with itself,
      so it never renders. */
  lemma ZeroLeafFails(gs: seq<Group>, name: int -> string)
    requires Arena(gs)
    ensures Arena(gs + [LeafGroup(|gs|, 0)])
    ensures Format(gs + [LeafGroup(|gs|, 0)], name, |gs|).None?
  {
    var gs' := gs + [LeafGroup(|gs|, 0)];
    forall i | 1 <= i < |gs'|
      ensures Placed(gs', i)
    {
      if i < |gs| {
        ExtendPlaced(gs, gs', i);
      }
    }
  }

  /** Appending a slot keeps the arena well formed when the slot is a leaf or
      a join of existing slots, and changes the rendering and the leaves of no
      earlier group. */
  lemma {:induction false} AppendKeeps(gs: seq<Group>, x: Group, name: int -> string, g: nat)
    requires Arena(gs) && Arena(gs + [x]) && g < |gs|
    ensures Format(gs + [x], name, g) == Format(gs, name, g)
    ensures Leaves(gs + [x], g) == Leaves(gs, g)
    decreases g
  {
    var gs' := gs + [x];
    assert gs'[g] == gs[g];
    if g != 0 && gs[g].relID == 0 {
      assert Placed(gs, g);
      AppendKeeps(gs, x, name, gs[g].l);
      AppendKeeps(gs, x, name, gs[g].r);
    }
  }

  /** A placed slot stays placed in any extension of the arena. */
  lemma ExtendPlaced(gs: seq<Group>, gs': seq<Group>, i: int)
    requires Placed(gs, i) && |gs| <= |gs'| && gs'[..|gs|] == gs
    ensures Placed(gs', i)
  {
    assert gs'[i] == gs[i];
    assert gs'[gs[i].l] == gs[gs[i].l] && gs'[gs[i].r] == gs[gs[i].r];
  }

  lemma AppendLeafArena(gs: seq<Group>, rel: int)
    requires Arena(gs)
    ensures Arena(gs + [LeafGroup(|gs|, rel)])
  {
    var gs' := gs + [LeafGroup(|gs|, rel)];
    forall i | 1 <= i < |gs'|
      ensures Placed(gs', i)
    {
      if i < |gs| {
        ExtendPlaced(gs, gs', i);
      }
    }
  }

  lemma AppendJoinArena(gs: seq<Group>, l: nat, r: nat)
    requires Arena(gs) && l < |gs| && r < |gs|
    ensures Arena(gs + [JoinGroup(gs, |gs|, l, r)])
  {
    var gs' := gs + [JoinGroup(gs, |gs|, l, r)];
    forall i | 1 <= i < |gs'|
      ensures Placed(gs', i)
    {
      if i < |gs| {
        ExtendPlaced(gs, gs', i);
      }
    }
  }

  /** Number of leaf occurrences in the tree under g (a group joined with
      itself counts twice). */
  ghost function LeafCount(gs: seq<Group>, g: nat): nat
    requires Arena(gs) && g < |gs|
    decreases g
  {
    if g == 0 then 0
    else
      assert Placed(gs, g);
      if gs[g].relID != 0 then 1
    else LeafCount(gs, gs[g].l) + LeafCount(gs, gs[g].r)
  }

  function Count(s: string, c: char): nat
  {
    if s == [] then 0 else Count(s[..|s| - 1], c) + (if s[|s| - 1] == c then 1 else 0)
  }

  lemma {:induction false} CountConcat(a: string, b: string, c: char)
    ensures Count(a + b, c) == Count(a, c) + Count(b, c)
    decreases |b|
  {
    if b == [] {
      assert a + b == a;
    } else {
      CountConcat(a, b[..|b| - 1], c);
      assert (a + b)[..|a + b| - 1] == a + b[..|b| - 1];
    }
  }

  /** No relation name contains the join symbol or a parenthesis. */
  ghost predicate PlainNames(name: int -> string)
  {
    forall k :: '⋈' !in name(k) && '(' !in name(k) && ')' !in name(k)
  }

  lemma CountAbsent(s: string, c: char)
    requires c !in s
    ensures Count(s, c) == 0
  {
    if s != [] {
      assert s[..|s| - 1] + [s[|s| - 1]] == s;
      CountAbsent(s[..|s| - 1], c);
    }
  }

  /** Counts a character across the five pieces of a rendered join. */
  lemma JoinedCount(ls: string, rs: string, c: char)
    requires c == '(' || c == ')' || c == '⋈'
    ensures Count(Joined(ls, rs), c) == Count(ls, c) + Count(rs, c) + 1
  {
    CountConcat("(", ls, c);
    CountConcat("(" + ls, " ⋈ ", c);
    CountConcat("(" + ls + " ⋈ ", rs, c);
    CountConcat("(" + ls + " ⋈ " + rs, ")", c);
    assert "("[..0] == [] && ")"[..0] == [];
    assert Count("(", c) == (if c == '(' then 1 else 0);
    assert Count(")", c) == (if c == ')' then 1 else 0);
    assert " ⋈ "[..2] == " ⋈" && " ⋈"[..1] == " " && " "[..0] == [];
    assert " ⋈ "[2] == ' ' && " ⋈"[1] == '⋈' && " "[0] == ' ';
    assert Count(" ", c) == (if c == ' ' then 1 else 0);
    assert Count(" ⋈", c) == Count(" ", c) + (if c == '⋈' then 1 else 0);
    assert Count(" ⋈ ", c) == Count(" ⋈", c) + (if c == ' ' then 1 else 0);
  }

  /** With plain names, a rendered tree holds one join symbol and one pair of
      parentheses per join: one fewer than its leaves. */
  lemma {:induction false} FormatShape(gs: seq<Group>, name: int -> string, g: nat)
    requires Arena(gs) && g < |gs| && Format(gs, name, g).Some?
    ensures PlainNames(name) ==>
              var s := Format(gs, name, g).value;
              && Count(s, '⋈') + 1 == LeafCount(gs, g)
              && Count(s, '(') + 1 == LeafCount(gs, g)
              && Count(s, ')') + 1 == LeafCount(gs, g)
    decreases g
  {
    if !PlainNames(name) {
      return;
    }
    var s := Format(gs, name, g).value;
    assert Placed(gs, g);
    if gs[g].relID != 0 {
      var n := name(gs[g].relID);
      CountAbsent(n, '⋈');
      CountAbsent(n, '(');
      CountAbsent(n, ')');
    } else {
      var l, r := gs[g].l, gs[g].r;
      FormatShape(gs, name, l);
      FormatShape(gs, name, r);
      var ls, rs := Format(gs, name, l).value, Format(gs, name, r).value;
      JoinedCount(ls, rs, '⋈');
      JoinedCount(ls, rs, '(');
      JoinedCount(ls, rs, ')');
    }
  }

  /** Decimal digits of n, as `%d` prints a non-negative integer. */
  function Dec(n: nat): (s: string)
    ensures |s| >= 1
  {
    if n < 10 then [DigitChar(n)] else Dec(n / 10) + [DigitChar(n % 10)]
  }

  function DigitChar(d: nat): char
    requires d < 10
  {
    "0123456789"[d]
  }

  /** Reads a string of decimal digits back as a number. */
  function DecValue(s: string): nat
  {
    if s == [] then 0
    else
      var c := s[|s| - 1];
      DecValue(s[..|s| - 1]) * 10 + (if '0' <= c <= '9' then (c as int) - ('0' as int) else 0)
  }

  predicate IsDigits(s: string)
  {
    forall i :: 0 <= i < |s| ==> '0' <= s[i] <= '9'
  }

  /** Appending a digit shifts the value by one decimal place. */
  lemma DecValueSnoc(s: string, d: nat)
    requires d < 10
    ensures DecValue(s + [DigitChar(d)]) == DecValue(s) * 10 + d
  {
    assert (s + [DigitChar(d)])[..|s|] == s;
  }

  /** `Dec` is a decimal rendering: only digits, no leading zero, and reading
      it back gives n. */
  lemma {:induction false} DecRoundTrip(n: nat)
    ensures IsDigits(Dec(n)) && DecValue(Dec(n)) == n
    ensures Dec(n)[0] == '0' <==> n == 0
    decreases n
  {
    if n >= 10 {
      DecRoundTrip(n / 10);
      DecValueSnoc(Dec(n / 10), n % 10);
    }
  }

  /** One line of the listing: "G<i> - [<name>]" for a leaf and
      "G<i> - G<l> ⋈ G<r>" for anything else. */
  function Line(i: nat, g: Group, name: int -> string): string
  {
    "G" + Dec(i) + " - "
    + (if g.relID != 0 then "[" + name(g.relID) + "]"
       else "G" + Dec(NatOf(g.l)) + " ⋈ G" + Dec(NatOf(g.r)))
    + "\n"
  }

  /** Group references in an arena are never negative; this keeps `Line`
      total on any record. */
  function NatOf(x: int): nat
  {
    if x < 0 then 0 else x
  }

  /** The lines of groups 1 .. k-1, in order. */
  function Listing(gs: seq<Group>, name: int -> string, k: nat): string
    requires k <= |gs|
  {
    if k <= 1 then "" else Listing(gs, name, k - 1) + Line(k - 1, gs[k - 1], name)
  }

  /** The listing skips slot 0, and every appended group adds exactly its own
      line at the end, leaving the earlier lines as they were. */
  lemma {:induction false} ListingAppend(gs: seq<Group>, x: Group, name: int -> string, k: nat)
    requires 1 <= k <= |gs|
    ensures Listing(gs + [x], name, k) == Listing(gs, name, k)
    ensures Listing([Zero], name, 1) == ""
    ensures k == |gs| ==>
              Listing(gs + [x], name, |gs| + 1) == Listing(gs, name, |gs|) + Line(|gs|, x, name)
  {
    if k > 1 {
      ListingAppend(gs, x, name, k - 1);
      assert (gs + [x])[k - 1] == gs[k - 1];
    }
    if k == |gs| {
      assert (gs + [x])[|gs|] == x;
    }
  }
}
