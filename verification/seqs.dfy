/** Sequence helpers shared by the engines: order-preserving filtering (how a
    process is moved out of NEW or BLOCKED while the rest stay in order),
    removal at an index (how a process leaves READY), and the sums and bags
    used to state conservation and termination. */
module Seqs {

  /** The elements of `s` that satisfy `f`, in their original order. */
  function Filter<T>(s: seq<T>, f: T -> bool): (r: seq<T>)
    ensures |r| <= |s|
    ensures forall i :: 0 <= i < |r| ==> f(r[i])
  {
    if |s| == 0 then [] else (if f(s[0]) then [s[0]] else []) + Filter(s[1..], f)
  }

  /** Everything the filter keeps comes from `s`. */
  lemma {:induction false} FilterSubset<T>(s: seq<T>, f: T -> bool)
    ensures forall i :: 0 <= i < |Filter(s, f)| ==> Filter(s, f)[i] in s
  {
    if |s| > 0 {
      FilterSubset(s[1..], f);
      var h := if f(s[0]) then [s[0]] else [];
      assert Filter(s, f) == h + Filter(s[1..], f);
    }
  }

  /** An element that satisfies `f` survives the filter. */
  lemma {:induction false} FilterKeeps<T>(s: seq<T>, f: T -> bool, i: nat)
    requires i < |s| && f(s[i])
    ensures s[i] in Filter(s, f)
  {
    if i > 0 {
      FilterKeeps(s[1..], f, i - 1);
    }
  }

  /** `s` without its element at position `k`. */
  function Remove<T>(s: seq<T>, k: nat): (r: seq<T>)
    requires k < |s|
    ensures |r| == |s| - 1
    ensures forall i :: 0 <= i < k ==> r[i] == s[i]
    ensures forall i :: k <= i < |r| ==> r[i] == s[i + 1]
  {
    s[..k] + s[k + 1..]
  }

  /** The sum of `w` over the elements of `s`. */
  function SumOf<T>(s: seq<T>, w: T -> int): int
  {
    if |s| == 0 then 0 else w(s[0]) + SumOf(s[1..], w)
  }

  /** The bag of `f`-images of the elements of `s`. */
  function BagOf<T, U>(s: seq<T>, f: T -> U): multiset<U>
  {
    if |s| == 0 then multiset{} else multiset{f(s[0])} + BagOf(s[1..], f)
  }

  /** An element is in the filtered sequence exactly when it is in `s` and
      satisfies `f`. */
  lemma {:induction false} FilterMembers<T>(s: seq<T>, f: T -> bool)
    ensures forall x :: x in Filter(s, f) <==> x in s && f(x)
  {
    if |s| > 0 {
      FilterMembers(s[1..], f);
      var h := if f(s[0]) then [s[0]] else [];
      assert Filter(s, f) == h + Filter(s[1..], f);
      assert forall x :: x in s <==> x == s[0] || x in s[1..];
    }
  }

  /** A condition and its negation split a sequence without loss. */
  lemma {:induction false} FilterLength<T>(s: seq<T>, f: T -> bool, g: T -> bool)
    requires forall x :: g(x) == !f(x)
    ensures |Filter(s, f)| + |Filter(s, g)| == |s|
  {
    if |s| > 0 {
      FilterLength(s[1..], f, g);
    }
  }

  lemma {:induction false} FilterAppend<T>(a: seq<T>, b: seq<T>, f: T -> bool)
    ensures Filter(a + b, f) == Filter(a, f) + Filter(b, f)
  {
    if |a| == 0 {
      assert a + b == b;
    } else {
      assert (a + b)[1..] == a[1..] + b;
      FilterAppend(a[1..], b, f);
    }
  }

  /** Filtering keeps everything when every element passes. */
  lemma {:induction false} FilterAll<T>(s: seq<T>, f: T -> bool)
    requires forall i :: 0 <= i < |s| ==> f(s[i])
    ensures Filter(s, f) == s
  {
    if |s| > 0 {
      FilterAll(s[1..], f);
    }
  }

  lemma {:induction false} SumAppend<T>(a: seq<T>, b: seq<T>, w: T -> int)
    ensures SumOf(a + b, w) == SumOf(a, w) + SumOf(b, w)
  {
    if |a| == 0 {
      assert a + b == b;
    } else {
      assert (a + b)[1..] == a[1..] + b;
      SumAppend(a[1..], b, w);
    }
  }

  lemma {:induction false} BagAppend<T, U>(a: seq<T>, b: seq<T>, f: T -> U)
    ensures BagOf(a + b, f) == BagOf(a, f) + BagOf(b, f)
  {
    if |a| == 0 {
      assert a + b == b;
    } else {
      assert (a + b)[1..] == a[1..] + b;
      BagAppend(a[1..], b, f);
    }
  }

  /** Splitting a sequence by a condition and its negation loses nothing from the sum. */
  lemma {:induction false} SumFilter<T>(s: seq<T>, f: T -> bool, g: T -> bool, w: T -> int)
    requires forall x :: g(x) == !f(x)
    ensures SumOf(Filter(s, f), w) + SumOf(Filter(s, g), w) == SumOf(s, w)
  {
    if |s| > 0 {
      SumFilter(s[1..], f, g, w);
      var h := if f(s[0]) then [s[0]] else [];
      var h' := if g(s[0]) then [s[0]] else [];
      SumAppend(h, Filter(s[1..], f), w);
      SumAppend(h', Filter(s[1..], g), w);
    }
  }


  lemma {:induction false} SumRemove<T>(s: seq<T>, k: nat, w: T -> int)
    requires k < |s|
    ensures SumOf(s, w) == SumOf(Remove(s, k), w) + w(s[k])
  {
    if k > 0 {
      SumRemove(s[1..], k - 1, w);
      assert Remove(s, k) == [s[0]] + Remove(s[1..], k - 1);
    } else {
      assert Remove(s, k) == s[1..];
    }
  }

  lemma BagRemove<T, U>(s: seq<T>, k: nat, m: T -> U)
    requires k < |s|
    ensures BagOf(s, m) == BagOf(Remove(s, k), m) + multiset{m(s[k])}
  {
    assert s == s[..k] + [s[k]] + s[k + 1..];
    BagAppend(s[..k] + [s[k]], s[k + 1..], m);
    BagAppend(s[..k], [s[k]], m);
    BagAppend(s[..k], s[k + 1..], m);
  }

  /** Removing an element takes exactly that element out of the bag. */
  lemma MultisetRemove<T>(s: seq<T>, k: nat)
    requires k < |s|
    ensures multiset(s) == multiset(Remove(s, k)) + multiset{s[k]}
  {
    assert s == s[..k] + [s[k]] + s[k + 1..];
  }

  lemma {:induction false} SumNonNegative<T>(s: seq<T>, w: T -> int)
    requires forall i :: 0 <= i < |s| ==> w(s[i]) >= 0
    ensures SumOf(s, w) >= 0
  {
    if |s| > 0 {
      SumNonNegative(s[1..], w);
    }
  }

  /** A weight one larger on every element gives a sum larger by the length. */
  lemma {:induction false} SumShift<T>(s: seq<T>, u: T -> int, v: T -> int)
    requires forall i :: 0 <= i < |s| ==> u(s[i]) == v(s[i]) + 1
    ensures SumOf(s, u) == SumOf(s, v) + |s|
  {
    if |s| > 0 {
      SumShift(s[1..], u, v);
    }
  }

  lemma {:induction false} BagSize<T, U>(s: seq<T>, f: T -> U)
    ensures |BagOf(s, f)| == |s|
  {
    if |s| > 0 {
      BagSize(s[1..], f);
    }
  }

  /** How often `x` occurs in the bag of images, as a sum of indicators. */
  lemma {:induction false} BagCount<T, U>(s: seq<T>, f: T -> U, x: U, w: T -> int)
    requires forall e :: w(e) == if f(e) == x then 1 else 0
    ensures BagOf(s, f)[x] == SumOf(s, w)
  {
    if |s| > 0 {
      BagCount(s[1..], f, x, w);
    }
  }


  /** Two sequences that agree position by position have the same bag. */
  lemma {:induction false} BagOfPointwise<T, S, U>(a: seq<T>, f: T -> U, b: seq<S>, g: S -> U)
    requires |a| == |b| && forall i :: 0 <= i < |a| ==> f(a[i]) == g(b[i])
    ensures BagOf(a, f) == BagOf(b, g)
  {
    if |a| > 0 {
      BagOfPointwise(a[1..], f, b[1..], g);
    }
  }

  lemma Cancel<U>(m: multiset<U>, n: multiset<U>, x: U)
    requires m + multiset{x} == n + multiset{x}
    ensures m == n
  {
    forall y ensures m[y] == n[y] {
      assert (m + multiset{x})[y] == (n + multiset{x})[y];
    }
  }

  /** If the `f`-images of `a` are exactly the elements of `b`, then taking
      a further image `g` of both sides gives the same bag. */
  lemma {:induction false} BagOfImage<T, U, V>(a: seq<T>, f: T -> U, b: seq<U>, g: U -> V, h: T -> V)
    requires forall x :: h(x) == g(f(x))
    requires BagOf(a, f) == multiset(b)
    ensures BagOf(a, h) == BagOf(b, g)
    decreases |a|
  {
    if |a| == 0 {
      BagSize(a, f);
    } else {
      var x := f(a[0]);
      assert x in multiset(b);
      var k :| 0 <= k < |b| && b[k] == x;
      MultisetRemove(b, k);
      assert BagOf(a, f) == BagOf(a[1..], f) + multiset{x};
      Cancel(BagOf(a[1..], f), multiset(Remove(b, k)), x);
      BagOfImage(a[1..], f, Remove(b, k), g, h);
      BagRemove(b, k, g);
      assert h(a[0]) == g(x);
      assert BagOf(a, h) == multiset{g(x)} + BagOf(a[1..], h);
    }
  }

  /** If the `f`-images of `a` are exactly the elements of `b`, and the
      weight `h` of each element of `a` is the weight `g` of its image, the
      two sums agree. */
  lemma {:induction false} SumOfImage<T, U>(a: seq<T>, f: T -> U, b: seq<U>, g: U -> int, h: T -> int)
    requires forall y :: y in a ==> h(y) == g(f(y))
    requires BagOf(a, f) == multiset(b)
    ensures SumOf(a, h) == SumOf(b, g)
    decreases |a|
  {
    if |a| > 0 {
      var x := f(a[0]);
      assert x in multiset(b);
      var k :| 0 <= k < |b| && b[k] == x;
      MultisetRemove(b, k);
      assert BagOf(a, f) == BagOf(a[1..], f) + multiset{x};
      Cancel(BagOf(a[1..], f), multiset(Remove(b, k)), x);
      SumOfImage(a[1..], f, Remove(b, k), g, h);
      SumRemove(b, k, g);
    }
  }
}
