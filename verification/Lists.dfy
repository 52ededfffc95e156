/** Python lists: filtering, removing, uniqueness. */
module Lists {
  import Strings

  /** The elements other than `x`. */
  function Not<T(==)>(x: T): T -> bool {
    y => y != x
  }

  function Filter<T>(L: seq<T>, keep: T -> bool): (r: seq<T>)
    ensures |r| <= |L|
  {
    if L == [] then [] else (if keep(L[0]) then [L[0]] else []) + Filter(L[1..], keep)
  }

  lemma {:induction false} FilterHas<T>(L: seq<T>, keep: T -> bool, x: T)
    ensures x in Filter(L, keep) <==> x in L && keep(x)
  {
    if L != [] {
      FilterHas(L[1..], keep, x);
      assert x in L <==> x == L[0] || x in L[1..];
    }
  }

  lemma {:induction false} FilterAppend<T>(a: seq<T>, b: seq<T>, keep: T -> bool)
    ensures Filter(a + b, keep) == Filter(a, keep) + Filter(b, keep)
  {
    if a == [] {
      assert a + b == b;
    } else {
      FilterAppend(a[1..], b, keep);
      assert (a + b)[1..] == a[1..] + b;
      Strings.Assoc(if keep(a[0]) then [a[0]] else [], Filter(a[1..], keep), Filter(b, keep));
    }
  }

  lemma FilterNext<T>(L: seq<T>, i: nat, keep: T -> bool)
    requires i < |L|
    ensures Filter(L[..i + 1], keep) == Filter(L[..i], keep) + if keep(L[i]) then [L[i]] else []
  {
    assert L[..i + 1] == L[..i] + [L[i]];
    FilterAppend(L[..i], [L[i]], keep);
    assert [L[i]][1..] == [];
  }

  lemma {:induction false} FilterAll<T>(L: seq<T>, keep: T -> bool)
    requires forall i :: 0 <= i < |L| ==> keep(L[i])
    ensures Filter(L, keep) == L
  {
    if L != [] {
      FilterAll(L[1..], keep);
      assert L == [L[0]] + L[1..];
    }
  }

  /** The list without the first `x`. */
  function Removed<T(==)>(L: seq<T>, x: T): (r: seq<T>)
    requires x in L
    ensures |r| == |L| - 1
  {
    if L[0] == x then L[1..] else [L[0]] + Removed(L[1..], x)
  }

  lemma {:induction false} RemovedBehind<T>(a: seq<T>, x: T, b: seq<T>)
    requires x !in a
    ensures Removed(a + ([x] + b), x) == a + b
  {
    var L := a + ([x] + b);
    assert L[|a|] == x;
    if a == [] {
      assert L[1..] == b;
    } else {
      RemovedBehind(a[1..], x, b);
      assert L[1..] == a[1..] + ([x] + b);
      Strings.Assoc([a[0]], a[1..], b);
    }
  }

  /** `L.remove(x)` */
  method RemoveFirst<T(==)>(L: seq<T>, x: T) returns (r: seq<T>)
    requires x in L
    ensures r == Removed(L, x)
  {
    var i := 0;
    while L[i] != x
      invariant i < |L| && x in L[i..] && x !in L[..i]
      decreases |L| - i
    {
      i := i + 1;
    }
    RemovedBehind(L[..i], x, L[i + 1..]);
    assert L == L[..i] + ([x] + L[i + 1..]);
    r := L[..i] + L[i + 1..];
  }

  lemma {:induction false} FilterRemoved<T>(L: seq<T>, x: T)
    requires x in L
    ensures Filter(Removed(L, x), Not(x)) == Filter(L, Not(x))
  {
    if L[0] != x {
      FilterRemoved(L[1..], x);
      assert Removed(L, x)[1..] == Removed(L[1..], x);
    }
  }

  /** `while x in L: L.remove(x)` */
  method RemoveAll<T(==)>(L: seq<T>, x: T) returns (r: seq<T>)
    ensures r == Filter(L, Not(x))
  {
    r := L;
    while x in r
      invariant Filter(r, Not(x)) == Filter(L, Not(x))
      decreases |r|
    {
      FilterRemoved(r, x);
      r := RemoveFirst(r, x);
    }
    FilterAll(r, Not(x));
  }

  predicate NoDuplicates<T(==)>(L: seq<T>) {
    forall i, j :: 0 <= i < j < |L| ==> L[i] != L[j]
  }

  lemma {:induction false} FilterUnique<T>(L: seq<T>, keep: T -> bool)
    requires NoDuplicates(L)
    ensures NoDuplicates(Filter(L, keep))
  {
    if L != [] {
      var rest := L[1..];
      assert NoDuplicates(rest) && L[0] !in rest;
      FilterUnique(rest, keep);
      var r := Filter(rest, keep);
      FilterHas(rest, keep, L[0]);
      if keep(L[0]) {
        ConsUnique(L[0], r);
      } else {
        assert [] + r == r;
      }
    }
  }

  lemma ConsUnique<T>(x: T, L: seq<T>)
    requires NoDuplicates(L) && x !in L
    ensures NoDuplicates([x] + L)
  {
    var all := [x] + L;
    assert forall i :: 0 < i < |all| ==> all[i] == L[i - 1];
  }
}
