/** The stable sort of a sequence under a total preorder, and what determines it. */
module StableSort {
  import Strings

  ghost predicate TotalPreorder<T(!new)>(le: (T, T) -> bool) {
    && (forall a, b :: le(a, b) || le(b, a))
    && (forall a, b, c :: le(a, b) && le(b, c) ==> le(a, c))
  }

  ghost predicate Sorted<T>(le: (T, T) -> bool, xs: seq<T>) {
    forall i, j :: 0 <= i < j < |xs| ==> le(xs[i], xs[j])
  }

  /** `m` is the first of the least elements. */
  ghost predicate IsFirstMin<T>(le: (T, T) -> bool, xs: seq<T>, m: nat) {
    && m < |xs|
    && (forall j :: 0 <= j < |xs| ==> le(xs[m], xs[j]))
    && (forall j :: 0 <= j < m ==> !le(xs[j], xs[m]))
  }

  function FirstMin<T>(le: (T, T) -> bool, xs: seq<T>): (m: nat)
    requires xs != []
    ensures m < |xs|
  {
    if |xs| == 1 then 0
    else
      var k := 1 + FirstMin(le, xs[1..]);
      if le(xs[0], xs[k]) then 0 else k
  }

  lemma {:induction false} FirstMinIs<T(!new)>(le: (T, T) -> bool, xs: seq<T>)
    requires TotalPreorder(le) && xs != []
    ensures IsFirstMin(le, xs, FirstMin(le, xs))
  {
    assert le(xs[0], xs[0]);
    if |xs| > 1 {
      var rest := xs[1..];
      FirstMinIs(le, rest);
      var k := FirstMin(le, rest);
      var m := FirstMin(le, xs);
      forall j | 0 <= j < |xs| ensures le(xs[m], xs[j]) {
        if j > 0 {
          assert xs[j] == rest[j - 1];
          assert le(rest[k], rest[j - 1]);
        } else {
          assert le(xs[0], xs[k + 1]) || le(xs[k + 1], xs[0]);
        }
      }
      forall j | 0 <= j < m ensures !le(xs[j], xs[m]) {
        if j > 0 {
          assert xs[j] == rest[j - 1];
        }
      }
    }
  }

  lemma FirstMinUnique<T(!new)>(le: (T, T) -> bool, xs: seq<T>, m: nat)
    requires TotalPreorder(le) && IsFirstMin(le, xs, m)
    ensures FirstMin(le, xs) == m
  {
    FirstMinIs(le, xs);
  }

  function Without<T>(xs: seq<T>, m: nat): seq<T>
    requires m < |xs|
  {
    xs[..m] + xs[m + 1..]
  }

  /** `sorted(xs)`: always the first of the least elements next. */
  function Sort<T>(le: (T, T) -> bool, xs: seq<T>): (r: seq<T>)
    ensures |r| == |xs|
    decreases |xs|
  {
    if xs == [] then []
    else
      var m := FirstMin(le, xs);
      [xs[m]] + Sort(le, Without(xs, m))
  }

  lemma {:induction false} SortIsPermutation<T>(le: (T, T) -> bool, xs: seq<T>)
    ensures multiset(Sort(le, xs)) == multiset(xs)
    decreases |xs|
  {
    if xs != [] {
      var m := FirstMin(le, xs);
      SortIsPermutation(le, Without(xs, m));
      assert xs == xs[..m] + [xs[m]] + xs[m + 1..];
    }
  }

  /** Where an element of the result comes from, and where an element of the input goes. */
  lemma SortedFrom<T>(le: (T, T) -> bool, xs: seq<T>, j: nat) returns (i: nat)
    requires j < |xs|
    ensures i < |xs| && xs[i] == Sort(le, xs)[j]
  {
    var r := Sort(le, xs);
    SortIsPermutation(le, xs);
    assert r[j] in multiset(r);
    i :| 0 <= i < |xs| && xs[i] == r[j];
  }

  lemma SortedTo<T>(le: (T, T) -> bool, xs: seq<T>, i: nat) returns (j: nat)
    requires i < |xs|
    ensures j < |xs| && xs[i] == Sort(le, xs)[j]
  {
    var r := Sort(le, xs);
    SortIsPermutation(le, xs);
    assert xs[i] in multiset(xs);
    j :| 0 <= j < |r| && r[j] == xs[i];
  }

  lemma {:induction false} SortIsSorted<T(!new)>(le: (T, T) -> bool, xs: seq<T>)
    requires TotalPreorder(le)
    ensures Sorted(le, Sort(le, xs))
    decreases |xs|
  {
    if xs != [] {
      var m := FirstMin(le, xs);
      var rest := Without(xs, m);
      FirstMinIs(le, xs);
      SortIsSorted(le, rest);
      forall i | 0 <= i < |rest| ensures le(xs[m], rest[i]) {
        assert rest[i] == if i < m then xs[i] else xs[i + 1];
      }
      SortBounded(le, xs[m], rest);
      SortedCons(le, xs[m], Sort(le, rest));
    }
  }

  lemma SortBounded<T>(le: (T, T) -> bool, v: T, xs: seq<T>)
    requires forall i :: 0 <= i < |xs| ==> le(v, xs[i])
    ensures forall j :: 0 <= j < |xs| ==> le(v, Sort(le, xs)[j])
  {
    var r := Sort(le, xs);
    SortIsPermutation(le, xs);
    forall j | 0 <= j < |r| ensures le(v, r[j]) {
      assert r[j] in multiset(r);
      assert r[j] in xs;
    }
  }

  lemma SortedCons<T>(le: (T, T) -> bool, v: T, r: seq<T>)
    requires Sorted(le, r) && forall j :: 0 <= j < |r| ==> le(v, r[j])
    ensures Sorted(le, [v] + r)
  {
    var s := [v] + r;
    assert forall j :: 0 < j < |s| ==> s[j] == r[j - 1];
  }

  // ---------------------------------------------------------------------
  // Stability
  // ---------------------------------------------------------------------

  predicate Alike<T>(le: (T, T) -> bool, a: T, b: T) {
    le(a, b) && le(b, a)
  }

  /** The elements with the same key as `v`, in order. */
  function Class<T>(le: (T, T) -> bool, v: T, xs: seq<T>): seq<T> {
    if xs == [] then []
    else (if Alike(le, v, xs[0]) then [xs[0]] else []) + Class(le, v, xs[1..])
  }

  lemma {:induction false} ClassAppend<T>(le: (T, T) -> bool, v: T, a: seq<T>, b: seq<T>)
    ensures Class(le, v, a + b) == Class(le, v, a) + Class(le, v, b)
  {
    if a == [] {
      assert a + b == b;
    } else {
      ClassAppend(le, v, a[1..], b);
      assert (a + b)[1..] == a[1..] + b;
      Strings.Assoc(if Alike(le, v, a[0]) then [a[0]] else [], Class(le, v, a[1..]), Class(le, v, b));
    }
  }

  lemma {:induction false} ClassEmpty<T>(le: (T, T) -> bool, v: T, xs: seq<T>)
    requires forall i :: 0 <= i < |xs| ==> !Alike(le, v, xs[i])
    ensures Class(le, v, xs) == []
  {
    if xs != [] {
      ClassEmpty(le, v, xs[1..]);
    }
  }

  lemma TakeFirstMin<T(!new)>(le: (T, T) -> bool, v: T, xs: seq<T>)
    requires TotalPreorder(le) && xs != []
    ensures
      var m := FirstMin(le, xs);
      Class(le, v, xs) == (if Alike(le, v, xs[m]) then [xs[m]] else []) + Class(le, v, Without(xs, m))
  {
    var m := FirstMin(le, xs);
    FirstMinIs(le, xs);
    var a, b := xs[..m], xs[m + 1..];
    assert xs == a + ([xs[m]] + b);
    ClassAppend(le, v, a, [xs[m]] + b);
    ClassAppend(le, v, [xs[m]], b);
    ClassAppend(le, v, a, b);
    assert Class(le, v, [xs[m]]) == if Alike(le, v, xs[m]) then [xs[m]] else [];
    if Alike(le, v, xs[m]) {
      forall i | 0 <= i < |a| ensures !Alike(le, v, a[i]) {
        assert a[i] == xs[i] && !le(xs[i], xs[m]);
      }
      ClassEmpty(le, v, a);
    }
  }

  /** Elements with equal keys keep their order. */
  lemma {:induction false} SortIsStable<T(!new)>(le: (T, T) -> bool, v: T, xs: seq<T>)
    requires TotalPreorder(le)
    ensures Class(le, v, Sort(le, xs)) == Class(le, v, xs)
    decreases |xs|
  {
    if xs != [] {
      var m := FirstMin(le, xs);
      var rest := Without(xs, m);
      SortIsStable(le, v, rest);
      TakeFirstMin(le, v, xs);
      assert Sort(le, xs)[1..] == Sort(le, rest);
    }
  }

  ghost predicate SameClasses<T(!new)>(le: (T, T) -> bool, xs: seq<T>, ys: seq<T>) {
    forall v :: Class(le, v, xs) == Class(le, v, ys)
  }

  lemma {:induction false} ClassMember<T>(le: (T, T) -> bool, v: T, xs: seq<T>) returns (i: nat)
    requires Class(le, v, xs) != []
    ensures i < |xs| && Alike(le, v, xs[i])
  {
    if Alike(le, v, xs[0]) {
      i := 0;
    } else {
      i := ClassMember(le, v, xs[1..]);
      i := i + 1;
    }
  }

  lemma HeadsAgree<T(!new)>(le: (T, T) -> bool, xs: seq<T>, ys: seq<T>)
    requires TotalPreorder(le) && Sorted(le, xs) && Sorted(le, ys) && SameClasses(le, xs, ys)
    requires xs != []
    ensures ys != [] && xs[0] == ys[0]
  {
    var a := xs[0];
    assert le(a, a);
    assert Class(le, a, ys) == Class(le, a, xs) != [];
    var i := ClassMember(le, a, ys);
    var b := ys[0];
    assert le(b, b);
    assert Class(le, b, xs) == Class(le, b, ys) != [];
    var j := ClassMember(le, b, xs);
    assert le(b, ys[i]);
    assert le(a, xs[j]);
    assert Alike(le, a, b);
    assert Class(le, a, xs)[0] == a;
    assert Class(le, a, ys)[0] == b;
  }

  lemma ClassOfHead<T(!new)>(le: (T, T) -> bool, xs: seq<T>)
    requires TotalPreorder(le) && xs != []
    ensures Class(le, xs[0], xs) != []
  {
    assert le(xs[0], xs[0]);
  }

  /** A sorted sequence is determined by its classes: sorting has one stable result. */
  lemma {:induction false} SortedIsUnique<T(!new)>(le: (T, T) -> bool, xs: seq<T>, ys: seq<T>)
    requires TotalPreorder(le) && Sorted(le, xs) && Sorted(le, ys) && SameClasses(le, xs, ys)
    ensures xs == ys
    decreases |xs|
  {
    if xs == [] {
      if ys != [] {
        ClassOfHead(le, ys);
      }
    } else {
      HeadsAgree(le, xs, ys);
      forall v ensures Class(le, v, xs[1..]) == Class(le, v, ys[1..]) {
        var p := if Alike(le, v, xs[0]) then [xs[0]] else [];
        assert Class(le, v, xs) == p + Class(le, v, xs[1..]);
        assert Class(le, v, ys) == p + Class(le, v, ys[1..]);
        assert Class(le, v, xs)[|p|..] == Class(le, v, xs[1..]);
        assert Class(le, v, ys)[|p|..] == Class(le, v, ys[1..]);
      }
      SortedIsUnique(le, xs[1..], ys[1..]);
      assert xs == [xs[0]] + xs[1..];
    }
  }

  lemma SortByClasses<T(!new)>(le: (T, T) -> bool, xs: seq<T>, ys: seq<T>)
    requires TotalPreorder(le) && SameClasses(le, xs, ys)
    ensures Sort(le, xs) == Sort(le, ys)
  {
    SortIsSorted(le, xs);
    SortIsSorted(le, ys);
    forall v ensures Class(le, v, Sort(le, xs)) == Class(le, v, Sort(le, ys)) {
      SortIsStable(le, v, xs);
      SortIsStable(le, v, ys);
      assert Class(le, v, xs) == Class(le, v, ys);
    }
    SortedIsUnique(le, Sort(le, xs), Sort(le, ys));
  }
}
