/** The swap-based permutation enumerator of perm.go. `perm(a, f, i)` permutes
    positions i..len(a)-1 in place, hands every arrangement to `f`, and swaps
    back; here the arrangements handed to `f` are returned as a sequence. */
module Permutations {

  function Fact(n: nat): (r: nat)
    ensures r >= 1
  {
    if n == 0 then 1 else n * Fact(n - 1)
  }

  function Swap(a: seq<int>, i: nat, j: nat): (r: seq<int>)
    requires i < |a| && j < |a|
    ensures |r| == |a|
  {
    a[i := a[j]][j := a[i]]
  }

  /** A swap keeps the elements and fixes every position other than i and j. */
  lemma SwapFacts(a: seq<int>, i: nat, j: nat)
    requires i < j < |a|
    ensures multiset(Swap(a, i, j)) == multiset(a)
    ensures Swap(a, i, j)[..i] == a[..i]
    ensures Swap(a, i, j)[i] == a[j] && Swap(a, i, j)[j] == a[i]
  {
    assert multiset(a[i := a[j]]) == multiset(a) - multiset{a[i]} + multiset{a[j]};
  }

  /** The arrangements `perm(a, f, i)` emits, in order: recursing without a
      swap first, then once per swap partner j in i+1..len(a)-1. */
  function Perms(a: seq<int>, i: nat): seq<seq<int>>
    requires i <= |a| + 1
    decreases |a| + 1 - i, 1, 0
  {
    if i > |a| then [a] else Perms(a, i + 1) + Tail(a, i, |a|)
  }

  /** The emissions of the loop's rounds for partners i+1..hi-1. */
  function Tail(a: seq<int>, i: nat, hi: nat): seq<seq<int>>
    requires i <= |a| && hi <= |a|
    decreases |a| + 1 - i, 0, hi
  {
    if hi <= i + 1 then [] else Tail(a, i, hi - 1) + Perms(Swap(a, i, hi - 1), i + 1)
  }

  /** `perm`: emits every arrangement of a[i..] and leaves `a` as it found it. */
  method PermFrom(a: array<int>, i: nat) returns (out: seq<seq<int>>)
    requires i <= a.Length + 1
    modifies a
    ensures a[..] == old(a[..])
    ensures out == Perms(old(a[..]), i)
    decreases a.Length + 1 - i
  {
    if i > a.Length {
      return [a[..]];
    }
    ghost var a0 := a[..];
    out := PermFrom(a, i + 1);
    var j := i + 1;
    while j < a.Length
      invariant a[..] == a0
      invariant i + 1 <= j
      invariant j <= a.Length || j == i + 1
      invariant out == Perms(a0, i + 1) + Tail(a0, i, if j <= a.Length then j else a.Length)
    {
      a[i], a[j] := a[j], a[i];
      assert a[..] == Swap(a0, i, j);
      var more := PermFrom(a, i + 1);
      a[i], a[j] := a[j], a[i];
      assert a[..] == a0;
      assert Tail(a0, i, j + 1) == Tail(a0, i, j) + more;
      out := out + more;
      j := j + 1;
    }
    if j > a.Length {
      assert Tail(a0, i, a.Length) == [];
    }
  }

  /** `Perm`: all arrangements of `a`, starting from position 0. */
  method Perm(a: array<int>) returns (out: seq<seq<int>>)
    modifies a
    ensures a[..] == old(a[..])
    ensures out == Perms(old(a[..]), 0)
  {
    out := PermFrom(a, 0);
  }

  lemma MulSucc(k: nat, f: nat)
    ensures k * f + f == (k + 1) * f
  {
  }

  /** perm(a, f, i) calls f exactly (len(a)-i)! times. */
  lemma {:induction false} PermsCount(a: seq<int>, i: nat)
    requires i <= |a|
    ensures |Perms(a, i)| == Fact(|a| - i)
    decreases |a| - i, 1
  {
    if i == |a| {
      assert Perms(a, i) == Perms(a, i + 1) + Tail(a, i, |a|);
      assert Tail(a, i, |a|) == [];
    } else {
      var m := |a| - i;
      var f := Fact(m - 1);
      PermsCount(a, i + 1);
      TailCount(a, i, |a|);
      assert |Perms(a, i)| == f + (m - 1) * f;
      MulSucc(m - 1, f);
      assert Fact(m) == m * f;
    }
  }

  lemma {:induction false} TailCount(a: seq<int>, i: nat, hi: nat)
    requires i < |a| && i + 1 <= hi <= |a|
    ensures |Tail(a, i, hi)| == (hi - i - 1) * Fact(|a| - i - 1)
    decreases |a| - i, 0, hi
  {
    if hi > i + 1 {
      var f := Fact(|a| - i - 1);
      TailCount(a, i, hi - 1);
      PermsCount(Swap(a, i, hi - 1), i + 1);
      assert |Tail(a, i, hi)| == (hi - i - 2) * f + f;
      MulSucc(hi - i - 2, f);
    }
  }

  /** Every emitted arrangement is a permutation of the input that keeps the
      positions below i fixed. */
  lemma {:induction false} PermsShape(a: seq<int>, i: nat, p: seq<int>)
    requires i <= |a|
    requires p in Perms(a, i)
    ensures |p| == |a| && multiset(p) == multiset(a)
    ensures p[..i] == a[..i]
    decreases |a| - i, 1
  {
    if i < |a| {
      if p in Perms(a, i + 1) {
        PermsShape(a, i + 1, p);
      } else {
        TailShape(a, i, |a|, p);
      }
    } else {
      assert Perms(a, i) == [a] + Tail(a, i, |a|);
    }
  }

  lemma {:induction false} TailShape(a: seq<int>, i: nat, hi: nat, p: seq<int>)
    requires i < |a| && hi <= |a|
    requires p in Tail(a, i, hi)
    ensures |p| == |a| && multiset(p) == multiset(a)
    ensures p[..i] == a[..i]
    ensures exists k :: i < k < hi && p[i] == a[k]
    decreases |a| - i, 0, hi
  {
    if hi > i + 1 {
      var b := Swap(a, i, hi - 1);
      assert Tail(a, i, hi) == Tail(a, i, hi - 1) + Perms(b, i + 1);
      if p in Tail(a, i, hi - 1) {
        TailShape(a, i, hi - 1, p);
      } else {
        SwapFacts(a, i, hi - 1);
        PermsShape(b, i + 1, p);
        assert p[..i] == p[..i + 1][..i] && b[..i] == b[..i + 1][..i];
        assert p[i] == p[..i + 1][i] && b[i] == b[..i + 1][i];
        assert i < hi - 1 < hi && p[i] == a[hi - 1];
      }
    }
  }

  /** Two sequences with the same elements and the same prefix have the same
      elements after the prefix. */
  lemma SuffixMultiset(q: seq<int>, a: seq<int>, i: nat)
    requires i <= |a| == |q| && multiset(q) == multiset(a) && q[..i] == a[..i]
    ensures multiset(q[i..]) == multiset(a[i..])
  {
    assert q == q[..i] + q[i..] && a == a[..i] + a[i..];
    forall v ensures multiset(q[i..])[v] == multiset(a[i..])[v] {
      assert multiset(q)[v] == multiset(q[..i])[v] + multiset(q[i..])[v];
      assert multiset(a)[v] == multiset(a[..i])[v] + multiset(a[i..])[v];
    }
  }

  /** Every permutation of `a` that agrees with it below i is emitted. */
  lemma {:induction false} PermsComplete(a: seq<int>, i: nat, q: seq<int>)
    requires i <= |a|
    requires |q| == |a| && multiset(q) == multiset(a) && q[..i] == a[..i]
    ensures q in Perms(a, i)
    decreases |a| - i
  {
    if i == |a| {
      assert q == q[..i] == a[..i] == a;
      assert Perms(a, i) == Perms(a, i + 1) + Tail(a, i, |a|);
    } else {
      SuffixMultiset(q, a, i);
      assert q[i] in multiset(q[i..]);
      var k :| i <= k < |a| && a[k] == q[i];
      assert q[..i + 1] == q[..i] + [q[i]];
      if k == i {
        assert a[..i + 1] == a[..i] + [a[i]];
        PermsComplete(a, i + 1, q);
      } else {
        var b := Swap(a, i, k);
        SwapFacts(a, i, k);
        assert b[..i + 1] == b[..i] + [b[i]];
        PermsComplete(b, i + 1, q);
        TailContains(a, i, k, |a|, q);
      }
    }
  }

  lemma {:induction false} TailContains(a: seq<int>, i: nat, k: nat, hi: nat, q: seq<int>)
    requires i < k < hi <= |a|
    requires q in Perms(Swap(a, i, k), i + 1)
    ensures q in Tail(a, i, hi)
    decreases hi
  {
    if k < hi - 1 {
      TailContains(a, i, k, hi - 1, q);
    }
  }

  ghost predicate DistinctElems(a: seq<int>)
  {
    forall x, y :: 0 <= x < y < |a| ==> a[x] != a[y]
  }

  ghost predicate DistinctSeqs(ps: seq<seq<int>>)
  {
    forall x, y :: 0 <= x < y < |ps| ==> ps[x] != ps[y]
  }

  /** An arrangement from an earlier round starts (at position i) with an
      element other than a[hm], so round hm cannot emit it again. */
  lemma TailNotInSwapped(a: seq<int>, i: nat, hm: nat, p: seq<int>)
    requires i < hm < |a| && DistinctElems(a)
    requires p in Tail(a, i, hm)
    ensures p !in Perms(Swap(a, i, hm), i + 1)
  {
    var b := Swap(a, i, hm);
    TailShape(a, i, hm, p);
    var k :| i < k < hm && p[i] == a[k];
    SwapFacts(a, i, hm);
    assert p[i] != b[i];
    if p in Perms(b, i + 1) {
      PermsAt(b, i, p);
    }
  }

  /** Every arrangement produced from position i + 1 on keeps a[i]. */
  lemma PermsAt(a: seq<int>, i: nat, p: seq<int>)
    requires i < |a| && p in Perms(a, i + 1)
    ensures i < |p| && p[i] == a[i]
  {
    PermsShape(a, i + 1, p);
    assert p[..i + 1][i] == p[i] && a[..i + 1][i] == a[i];
  }

  lemma SwapDistinct(a: seq<int>, i: nat, j: nat)
    requires i < j < |a| && DistinctElems(a)
    ensures DistinctElems(Swap(a, i, j))
  {
    var b := Swap(a, i, j);
    forall x, y | 0 <= x < y < |b| ensures b[x] != b[y] {
      var x' := if x == i then j else if x == j then i else x;
      var y' := if y == i then j else if y == j then i else y;
      assert b[x] == a[x'] && b[y] == a[y'];
    }
  }

  lemma DistinctConcat(ps: seq<seq<int>>, qs: seq<seq<int>>)
    requires DistinctSeqs(ps) && DistinctSeqs(qs)
    requires forall p :: p in ps ==> p !in qs
    ensures DistinctSeqs(ps + qs)
  {
    forall x, y | 0 <= x < y < |ps + qs|
      ensures (ps + qs)[x] != (ps + qs)[y]
    {
      if y >= |ps| && x < |ps| {
        assert ps[x] in ps;
      }
    }
  }

  /** On an input without repeated values, no arrangement is emitted twice. */
  lemma {:induction false} PermsDistinct(a: seq<int>, i: nat)
    requires i <= |a| && DistinctElems(a)
    ensures DistinctSeqs(Perms(a, i))
    decreases |a| - i, 1
  {
    if i == |a| {
      assert Perms(a, i) == [a] + Tail(a, i, |a|);
    } else {
      PermsDistinct(a, i + 1);
      TailDistinct(a, i, |a|);
      forall p | p in Perms(a, i + 1)
        ensures p !in Tail(a, i, |a|)
      {
        PermsShape(a, i + 1, p);
        assert p[i] == p[..i + 1][i] == a[i];
        if p in Tail(a, i, |a|) {
          TailShape(a, i, |a|, p);
        }
      }
      DistinctConcat(Perms(a, i + 1), Tail(a, i, |a|));
    }
  }

  lemma {:induction false} TailDistinct(a: seq<int>, i: nat, hi: nat)
    requires i < |a| && hi <= |a| && DistinctElems(a)
    ensures DistinctSeqs(Tail(a, i, hi))
    decreases |a| - i, 0, hi
  {
    if hi > i + 1 {
      var b := Swap(a, i, hi - 1);
      TailDistinct(a, i, hi - 1);
      SwapDistinct(a, i, hi - 1);
      PermsDistinct(b, i + 1);
      var hm := hi - 1;
      forall p | p in Tail(a, i, hm)
        ensures p !in Perms(b, i + 1)
      {
        TailNotInSwapped(a, i, hm, p);
      }
      DistinctConcat(Tail(a, i, hm), Perms(b, i + 1));
    }
  }
}
