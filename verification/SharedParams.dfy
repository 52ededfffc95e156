/**
 * The size of a mailbox (shared_params.py): the page size doubled until it
 * reaches the request, and what that means for a resize.
 */
module SharedParams {

  function Pow2(k: nat): (r: nat)
    ensures r >= 1
  {
    if k == 0 then 1 else 2 * Pow2(k - 1)
  }

  /** The value the doubling loop stops at, started from `chk`. */
  function Fit(chk: nat, want: nat): (size: nat)
    requires chk > 0
    ensures size >= chk && size >= want
    decreases want - chk
  {
    if chk < want then Fit(chk * 2, want) else chk
  }

  /** The loop of `get_mmap`. */
  method MapSize(page: nat, want: nat) returns (size: nat)
    requires page > 0
    ensures size == Fit(page, want)
    ensures size >= want
  {
    size := page;
    while size < want
      invariant size > 0
      invariant Fit(size, want) == Fit(page, want)
      decreases want - size
    {
      size := size * 2;
    }
  }

  /** `size` is the page size times the `k`-th power of two. */
  ghost predicate IsStep(page: nat, size: nat, k: nat) {
    size == page * Pow2(k)
  }

  ghost predicate IsMapSize(page: nat, size: nat) {
    exists k :: IsStep(page, size, k)
  }

  lemma {:induction false} FitIsLeastFrom(page: nat, want: nat, j: nat) returns (k: nat)
    requires page > 0
    requires j == 0 || page * Pow2(j - 1) < want
    ensures j <= k
    ensures Fit(page * Pow2(j), want) == page * Pow2(k)
    ensures k == 0 || page * Pow2(k - 1) < want
    decreases want - page * Pow2(j)
  {
    if page * Pow2(j) < want {
      assert page * Pow2(j + 1) == page * Pow2(j) * 2;
      k := FitIsLeastFrom(page, want, j + 1);
    } else {
      k := j;
    }
  }

  lemma {:induction false} Pow2Monotone(i: nat, j: nat)
    requires i <= j
    ensures Pow2(i) <= Pow2(j)
    ensures i < j ==> 2 * Pow2(i) <= Pow2(j)
  {
    if i < j {
      Pow2Monotone(i, j - 1);
    }
  }

  lemma Scale(page: nat, a: nat, b: nat)
    ensures a <= b ==> page * a <= page * b
  {
  }

  /**
   * The loop returns the least page-times-a-power-of-two that reaches the
   * request: it is one, it reaches it, and no smaller one does.
   */
  lemma FitIsLeast(page: nat, want: nat)
    requires page > 0
    ensures IsMapSize(page, Fit(page, want))
    ensures Fit(page, want) > page ==> Fit(page, want) < 2 * want
    ensures forall s: nat :: IsMapSize(page, s) && s >= want ==> Fit(page, want) <= s
  {
    assert page * Pow2(0) == page;
    var k := FitIsLeastFrom(page, want, 0);
    assert IsStep(page, Fit(page, want), k);
    if k > 0 {
      assert page * Pow2(k) == 2 * (page * Pow2(k - 1));
    }
    forall s: nat | IsMapSize(page, s) && s >= want
      ensures Fit(page, want) <= s
    {
      var j :| IsStep(page, s, j);
      if j < k {
        Pow2Monotone(j, k - 1);
        Scale(page, Pow2(j), Pow2(k - 1));
      } else {
        Pow2Monotone(k, j);
        Scale(page, Pow2(k), Pow2(j));
      }
    }
  }

  /** Of two sizes the loop can return, a larger one is at least twice the smaller. */
  lemma LargerIsDouble(page: nat, a: nat, b: nat)
    requires IsMapSize(page, a) && IsMapSize(page, b) && a < b
    ensures 2 * a <= b
  {
    var i :| IsStep(page, a, i);
    var j :| IsStep(page, b, j);
    if j <= i {
      Pow2Monotone(j, i);
      Scale(page, Pow2(j), Pow2(i));
      assert false;
    }
    Pow2Monotone(i, j);
    Scale(page, 2 * Pow2(i), Pow2(j));
  }

  /**
   * A resize happens when `frame >= old - 1` and asks for `2 * frame` bytes.
   * The new mailbox is then at least twice the old one, holds the state byte
   * and the frame, and is smaller than four times the frame.
   */
  lemma ResizeFits(page: nat, prev: nat, frame: nat)
    requires page > 2 && IsMapSize(page, prev) && frame >= prev - 1
    ensures IsMapSize(page, Fit(page, 2 * frame))
    ensures 2 * prev <= Fit(page, 2 * frame)
    ensures frame + 1 < Fit(page, 2 * frame) < 4 * frame
  {
    var k :| IsStep(page, prev, k);
    Scale(page, 1, Pow2(k));
    FitIsLeast(page, 2 * frame);
    LargerIsDouble(page, prev, Fit(page, 2 * frame));
  }

  /** A chain of `n` resizes from one page multiplies the size by at least 2^n. */
  lemma {:induction false} ChainDoubles(page: nat, sizes: seq<nat>)
    requires |sizes| > 0 && sizes[0] >= page
    requires forall i :: 0 < i < |sizes| ==> 2 * sizes[i - 1] <= sizes[i]
    ensures page * Pow2(|sizes| - 1) <= sizes[|sizes| - 1]
  {
    if |sizes| > 1 {
      var init := sizes[..|sizes| - 1];
      ChainDoubles(page, init);
      assert page * Pow2(|sizes| - 1) == 2 * (page * Pow2(|sizes| - 2));
    }
  }
}
