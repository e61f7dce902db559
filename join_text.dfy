/** Reading a rendered join tree back. With relation names that hold no
    parenthesis and no join symbol, the text `Format` produces determines the
    tree: the join symbol of a "(L ⋈ R)" is the first one at bracket depth 1,
    so splitting there recovers both sides. */
module JoinText {
  import opened Util
  import opened JoinTree

  /** The tree `Format` walks, with each leaf carrying its relation's name. */
  datatype Tree = Leaf(text: string) | Join(left: Tree, right: Tree)

  /** The text of a tree, in the form `Format` prints it. */
  function Render(t: Tree): string
  {
    match t
    case Leaf(text) => text
    case Join(l, r) => Joined(Render(l), Render(r))
  }

  /** The tree under group g; a tree that reaches group 0 has an empty leaf
      there, where `Format` refuses it. */
  function TreeOf(gs: seq<Group>, name: int -> string, g: nat): Tree
    requires Arena(gs) && g < |gs|
    decreases g
  {
    if g == 0 then Leaf("")
    else
      assert Placed(gs, g);
      if gs[g].relID != 0 then Leaf(name(gs[g].relID))
      else Join(TreeOf(gs, name, gs[g].l), TreeOf(gs, name, gs[g].r))
  }

  /** No leaf name holds a parenthesis or the join symbol. */
  predicate Plain(t: Tree)
  {
    match t
    case Leaf(text) => '(' !in text && ')' !in text && '⋈' !in text
    case Join(l, r) => Plain(l) && Plain(r)
  }

  /** Open brackets minus closed brackets. */
  function Depth(s: string): int
  {
    Count(s, '(') - Count(s, ')')
  }

  /** The first position from i on that holds a join symbol at depth 1, or
      |s| when there is none. */
  function Find(s: string, i: nat): (p: nat)
    requires i <= |s|
    ensures i <= p <= |s|
    ensures p < |s| ==> s[p] == '⋈' && Depth(s[..p]) == 1
    decreases |s| - i
  {
    if i == |s| then |s|
    else if s[i] == '⋈' && Depth(s[..i]) == 1 then i
    else Find(s, i + 1)
  }

  /** Reads text back as a tree: a text that opens with a bracket is split
      around its depth-1 join symbol, anything else is a leaf name. */
  function Parse(s: string): Tree
    decreases |s|
  {
    if |s| >= 1 && s[0] == '(' then
      var p := Find(s, 0);
      if 2 <= p && p + 3 <= |s| then Join(Parse(s[1..p - 1]), Parse(s[p + 2..|s| - 1]))
      else Leaf(s)
    else Leaf(s)
  }

  lemma DepthConcat(a: string, b: string)
    ensures Depth(a + b) == Depth(a) + Depth(b)
  {
    CountConcat(a, b, '(');
    CountConcat(a, b, ')');
  }

  lemma DepthPieces()
    ensures Depth("(") == 1 && Depth(" ") == 0 && Depth(" ⋈ ") == 0 && Depth(" ⋈") == 0
  {
    assert "("[..0] == [] && " "[..0] == [];
    assert " ⋈ "[..2] == " ⋈" && " ⋈"[..1] == " ";
  }

  /** A plain rendering closes every bracket it opens. */
  lemma {:induction false} Balanced(t: Tree)
    requires Plain(t)
    ensures Depth(Render(t)) == 0
  {
    match t
    case Leaf(text) =>
      CountAbsent(text, '(');
      CountAbsent(text, ')');
    case Join(l, r) =>
      Balanced(l);
      Balanced(r);
      JoinedCount(Render(l), Render(r), '(');
      JoinedCount(Render(l), Render(r), ')');
  }

  /** The pieces of a rendered join: the bracket, the left side, the
      separator at |L| + 2, the right side and the closing bracket. */
  lemma JoinedParts(ls: string, rs: string)
    ensures var s := Joined(ls, rs);
            var p := |ls| + 2;
            && |s| == |ls| + |rs| + 5
            && s[0] == '(' && s[p - 1] == ' ' && s[p] == '⋈' && s[p + 1] == ' '
            && s[1..p - 1] == ls && s[p + 2..|s| - 1] == rs
            && Depth(s[..p]) == 1 + Depth(ls)
  {
    DepthPieces();
    assert Joined(ls, rs)[..|ls| + 2] == "(" + ls + " ";
    DepthConcat("(", ls);
    DepthConcat("(" + ls, " ");
  }

  /** Position j of the left side sits one bracket deeper in the join. */
  lemma JoinedLeft(ls: string, rs: string, j: nat)
    requires 1 <= j <= |ls|
    ensures Joined(ls, rs)[j] == ls[j - 1]
    ensures Depth(Joined(ls, rs)[..j]) == 1 + Depth(ls[..j - 1])
  {
    DepthPieces();
    assert Joined(ls, rs)[..j] == "(" + ls[..j - 1];
    DepthConcat("(", ls[..j - 1]);
  }

  /** Position k of the right side sits one bracket deeper in the join, past
      the whole left side. */
  lemma JoinedRight(ls: string, rs: string, k: nat)
    requires k < |rs|
    ensures Joined(ls, rs)[|ls| + 4 + k] == rs[k]
    ensures Depth(Joined(ls, rs)[..|ls| + 4 + k]) == 1 + Depth(ls) + Depth(rs[..k])
  {
    DepthPieces();
    assert Joined(ls, rs)[..|ls| + 4 + k] == "(" + ls + " ⋈ " + rs[..k];
    DepthConcat("(", ls);
    DepthConcat("(" + ls, " ⋈ ");
    DepthConcat("(" + ls + " ⋈ ", rs[..k]);
  }

  /** Every join symbol of a plain rendering lies inside at least one
      bracket. */
  lemma {:induction false} Nested(t: Tree, j: nat)
    requires Plain(t) && j < |Render(t)| && Render(t)[j] == '⋈'
    ensures Depth(Render(t)[..j]) >= 1
    decreases t, 1
  {
    match t
    case Leaf(_) =>
    case Join(l, r) =>
      NestedJoin(l, r, j);
  }

  /** The join step of `Nested`: a join symbol of "(L ⋈ R)" lies in L, is the
      separator, or lies in R. */
  lemma {:induction false} NestedJoin(l: Tree, r: Tree, j: nat)
    requires Plain(l) && Plain(r)
    requires j < |Joined(Render(l), Render(r))| && Joined(Render(l), Render(r))[j] == '⋈'
    ensures Depth(Joined(Render(l), Render(r))[..j]) >= 1
    decreases Join(l, r), 0
  {
    var ls, rs := Render(l), Render(r);
    var p := |ls| + 2;
    JoinedParts(ls, rs);
    Balanced(l);
    if 1 <= j <= |ls| {
      JoinedLeft(ls, rs, j);
      Nested(l, j - 1);
    } else if p + 2 <= j < p + 2 + |rs| {
      JoinedRight(ls, rs, j - (p + 2));
      Nested(r, j - (p + 2));
    }
  }

  /** Find stops at p when p is the first candidate from i on. */
  lemma {:induction false} FindAt(s: string, i: nat, p: nat)
    requires i <= p < |s| && s[p] == '⋈' && Depth(s[..p]) == 1
    requires forall j :: i <= j < p ==> !(s[j] == '⋈' && Depth(s[..j]) == 1)
    ensures Find(s, i) == p
    decreases p - i
  {
    if i < p {
      FindAt(s, i + 1, p);
    }
  }

  /** In a plain rendered join, the first depth-1 join symbol is the one
      that separates the two sides. */
  lemma SplitAt(l: Tree, r: Tree)
    requires Plain(l) && Plain(r)
    ensures Find(Joined(Render(l), Render(r)), 0) == |Render(l)| + 2
  {
    var ls, rs := Render(l), Render(r);
    var s := Joined(ls, rs);
    var p := |ls| + 2;
    JoinedParts(ls, rs);
    Balanced(l);
    forall j | 0 <= j < p
      ensures !(s[j] == '⋈' && Depth(s[..j]) == 1)
    {
      if 1 <= j <= |ls| {
        JoinedLeft(ls, rs, j);
        if s[j] == '⋈' {
          Nested(l, j - 1);
        }
      }
    }
    FindAt(s, 0, p);
  }

  /** Parsing a plain rendering gives back the tree. */
  lemma {:induction false} ParseRender(t: Tree)
    requires Plain(t)
    ensures Parse(Render(t)) == t
  {
    match t
    case Leaf(text) =>
      if |text| >= 1 {
        assert text[0] in text;
      }
    case Join(l, r) =>
      JoinedParts(Render(l), Render(r));
      SplitAt(l, r);
      ParseRender(l);
      ParseRender(r);
  }

  /** With plain names every tree `Format` walks is plain. */
  lemma {:induction false} PlainTree(gs: seq<Group>, name: int -> string, g: nat)
    requires Arena(gs) && g < |gs| && PlainNames(name)
    ensures Plain(TreeOf(gs, name, g))
    decreases g
  {
    if g != 0 {
      assert Placed(gs, g);
      if gs[g].relID == 0 {
        PlainTree(gs, name, gs[g].l);
        PlainTree(gs, name, gs[g].r);
      }
    }
  }

  /** Whatever `Format` prints is the rendering of the group's tree. */
  lemma {:induction false} FormatRenders(gs: seq<Group>, name: int -> string, g: nat)
    requires Arena(gs) && g < |gs| && Format(gs, name, g).Some?
    ensures Format(gs, name, g).value == Render(TreeOf(gs, name, g))
    decreases g
  {
    assert Placed(gs, g);
    if gs[g].relID == 0 {
      FormatRenders(gs, name, gs[g].l);
      FormatRenders(gs, name, gs[g].r);
    }
  }

  /** With plain names the text `Format` prints determines the tree: parsing
      it gives back the tree under g, so two groups print alike only when
      their trees agree. */
  lemma FormatParses(gs: seq<Group>, name: int -> string, g: nat)
    requires Arena(gs) && g < |gs| && Format(gs, name, g).Some?
    ensures PlainNames(name) ==> Parse(Format(gs, name, g).value) == TreeOf(gs, name, g)
  {
    if PlainNames(name) {
      FormatRenders(gs, name, g);
      PlainTree(gs, name, g);
      ParseRender(TreeOf(gs, name, g));
    }
  }
}
