/** The RelSet -> int map of schema/relset_map.go. A relation set is a
    `set<int>` of relation IDs; it is keyed by a 64-bit mask in which member i
    sets bit i-1. */
module RelSetMap {
  import opened Util

  function Pow2(k: nat): (r: nat)
    ensures r >= 1
  {
    if k == 0 then 1 else 2 * Pow2(k - 1)
  }

  /** What member i adds to the key: `1 << uint64(i-1)`. For i == 0 the shift
      count wraps to 2^64-1, so the member contributes nothing. */
  function Weight(i: int): nat
    requires 0 <= i <= 63
  {
    if i == 0 then 0 else Pow2(i - 1)
  }

  /** Sum of the weights of the members of `s` in [0, k). */
  function Prefix(s: set<int>, k: nat): nat
    requires k <= 64
  {
    if k == 0 then 0 else Prefix(s, k - 1) + (if k - 1 in s then Weight(k - 1) else 0)
  }

  /** The key of a relation set: fails when a member is above 63 (64 included),
      otherwise the sum of 2^(i-1) over its members i in 1..63. Negative
      members are never visited by the ascending walk from 0. */
  function Encode(s: set<int>): Option<nat>
  {
    if exists x :: x in s && x > 63 then None else Some(Prefix(s, 64))
  }

  datatype Error = RelSetTooBig

  /** The set's ascending iterator step: the least member at or above `from`. */
  method Next(s: set<int>, from: int) returns (r: Option<int>)
    ensures r.None? <==> forall x :: x in s ==> x < from
    ensures r.Some? ==> r.value in s && r.value >= from
    ensures r.Some? ==> forall x :: x in s && x >= from ==> r.value <= x
  {
    var candidates := set x | x in s && x >= from;
    var todo := candidates;
    ghost var done: set<int> := {};
    r := None;
    while todo != {}
      invariant todo <= candidates && done == candidates - todo
      invariant r.None? <==> done == {}
      invariant r.Some? ==> r.value in candidates
      invariant r.Some? ==> forall x :: x in done ==> r.value <= x
      decreases todo
    {
      var y :| y in todo;
      if r.None? || y < r.value {
        r := Some(y);
      }
      todo := todo - {y};
      done := done + {y};
    }
    assert done == candidates;
    assert forall x :: x in s && x >= from ==> x in candidates;
  }

  lemma {:induction false} PrefixSkip(s: set<int>, lo: nat, hi: nat)
    requires lo <= hi <= 64
    requires forall x :: x in s && lo <= x < hi ==> false
    ensures Prefix(s, hi) == Prefix(s, lo)
  {
    if lo < hi {
      PrefixSkip(s, lo, hi - 1);
    }
  }

  /** `index`: walks the members upward from 0 and adds each one's bit. */
  method Index(s: set<int>) returns (idx: Option<nat>)
    ensures idx == Encode(s)
  {
    var acc: nat := 0;
    ghost var lo: nat := 0;
    var cur := Next(s, 0);
    while cur.Some?
      invariant lo <= 64
      invariant acc == Prefix(s, lo)
      invariant cur.None? <==> forall x :: x in s ==> x < lo
      invariant cur.Some? ==> cur.value in s && cur.value >= lo
      invariant cur.Some? ==> forall x :: x in s && x >= lo ==> cur.value <= x
      invariant forall x :: x in s && x < lo ==> x <= 63
      decreases 64 - lo
    {
      var i := cur.value;
      if i > 63 {
        return None;
      }
      PrefixSkip(s, lo, i);
      acc := acc + Weight(i);
      lo := i + 1;
      cur := Next(s, i + 1);
    }
    PrefixSkip(s, lo, 64);
    idx := Some(acc);
  }

  lemma {:induction false} PrefixBound(s: set<int>, k: nat)
    requires 1 <= k <= 64
    ensures Prefix(s, k) < Pow2(k - 1)
  {
    if k > 1 {
      PrefixBound(s, k - 1);
    }
  }

  lemma {:induction false} PrefixInjective(s: set<int>, t: set<int>, k: nat)
    requires 1 <= k <= 64
    requires Prefix(s, k) == Prefix(t, k)
    ensures forall x :: 1 <= x < k ==> (x in s <==> x in t)
  {
    if k > 1 {
      var j := k - 1;
      PrefixBound(s, j);
      PrefixBound(t, j);
      assert j in s <==> j in t;
      PrefixInjective(s, t, j);
    }
  }

  /** The key is injective on relation sets drawn from 1..63. */
  lemma EncodeInjective(s: set<int>, t: set<int>)
    requires forall x :: x in s ==> 1 <= x <= 63
    requires forall x :: x in t ==> 1 <= x <= 63
    requires Encode(s) == Encode(t)
    ensures s == t
  {
    assert Prefix(s, 64) == Prefix(t, 64);
    PrefixInjective(s, t, 64);
    assert forall x :: x in s <==> x in t;
  }

  /** Relation 0 is invisible to the key, so {0} and {} collide. */
  lemma ZeroMemberIgnored(s: set<int>)
    requires forall x :: x in s ==> 1 <= x <= 63
    ensures Encode(s + {0}) == Encode(s)
  {
    var z := s + {0};
    assert forall k: nat :: 1 <= k <= 64 ==> Prefix(z, k) == Prefix(s, k) by {
      forall k: nat | 1 <= k <= 64 ensures Prefix(z, k) == Prefix(s, k) {
        PrefixAgree(z, s, k);
      }
    }
  }

  lemma {:induction false} PrefixAgree(z: set<int>, s: set<int>, k: nat)
    requires 1 <= k <= 64
    requires forall x :: 1 <= x < k ==> (x in z <==> x in s)
    ensures Prefix(z, k) == Prefix(s, k)
  {
    if k > 1 {
      PrefixAgree(z, s, k - 1);
    }
  }

  /** What `Get` yields for a key table `m`: the stored value, 0 when the set
      was never stored, failure when the set cannot be keyed. */
  function Lookup(m: map<nat, int>, s: set<int>): Option<int>
  {
    match Encode(s)
    case None => None
    case Some(k) => Some(if k in m then m[k] else 0)
  }

  /** After storing `v` under `s`, looking `s` up gives `v` and every other
      keyable set over 1..63 reads as before. */
  lemma GetAfterSet(m: map<nat, int>, s: set<int>, v: int, t: set<int>)
    requires forall x :: x in s ==> 1 <= x <= 63
    requires forall x :: x in t ==> 1 <= x <= 63
    ensures Encode(s).Some? && Encode(t).Some?
    ensures Lookup(m[Encode(s).value := v], t) == if t == s then Some(v) else Lookup(m, t)
  {
    if Encode(s) == Encode(t) {
      EncodeInjective(s, t);
    }
  }

  /** A fresh map reads 0 for every keyable set: DPSize's "no plan yet". */
  lemma GetUnset(s: set<int>)
    requires forall x :: x in s ==> 1 <= x <= 63
    ensures Lookup(map[], s) == Some(0)
  {
  }

  class RelSetMap {
    var m: map<nat, int>

    constructor ()
      ensures m == map[]
    {
      m := map[];
    }

    /** Stores `i` under the set's key; a set that cannot be keyed fails. */
    method Set(s: set<int>, i: int) returns (outcome: Outcome<Error>)
      modifies this
      ensures outcome == if Encode(s).None? then Fail(RelSetTooBig) else Pass
      ensures outcome.Pass? ==> m == old(m)[Encode(s).value := i]
      ensures outcome.Fail? ==> m == old(m)
    {
      var idx := Index(s);
      if idx.None? {
        return Fail(RelSetTooBig);
      }
      m := m[idx.value := i];
      outcome := Pass;
    }

    method Get(s: set<int>) returns (r: Option<int>)
      ensures r == Lookup(m, s)
    {
      var idx := Index(s);
      if idx.None? {
        return None;
      }
      r := Some(if idx.value in m then m[idx.value] else 0);
    }
  }
}
