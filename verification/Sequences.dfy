/**
 * Facts about sequences used by the text transform (subsequences and
 * filters) and by the usage aggregations (distinct keys in first-seen order
 * and occurrence counts).
 */
module Sequences {

  /** `a` can be obtained from `b` by deleting elements. */
  predicate IsSubsequence<T(==)>(a: seq<T>, b: seq<T>)
    decreases |b|
  {
    a == [] ||
    (b != [] && ((a[0] == b[0] && IsSubsequence(a[1..], b[1..])) || IsSubsequence(a, b[1..])))
  }

  lemma {:induction false} SubsequenceLength<T>(a: seq<T>, b: seq<T>)
    requires IsSubsequence(a, b)
    ensures |a| <= |b|
    decreases |b|
  {
    if a != [] {
      if a[0] == b[0] && IsSubsequence(a[1..], b[1..]) {
        SubsequenceLength(a[1..], b[1..]);
      } else {
        SubsequenceLength(a, b[1..]);
      }
    }
  }

  /** Deleting a whole prefix of the larger sequence. */
  lemma {:induction false} SubsequenceDropPrefix<T>(a: seq<T>, c: seq<T>, b: seq<T>)
    requires IsSubsequence(a, b)
    ensures IsSubsequence(a, c + b)
    decreases |c|
  {
    if a != [] && c != [] {
      SubsequenceDropPrefix(a, c[1..], b);
      var cb := c + b;
      assert cb[1..] == c[1..] + b;
      assert IsSubsequence(a, cb[1..]);
    } else if c == [] {
      assert c + b == b;
    }
  }

  /** A common prefix kept on both sides. */
  lemma {:induction false} SubsequenceCommonPrefix<T>(p: seq<T>, a: seq<T>, b: seq<T>)
    requires IsSubsequence(a, b)
    ensures IsSubsequence(p + a, p + b)
    decreases |p|
  {
    if p != [] {
      SubsequenceCommonPrefix(p[1..], a, b);
      var pa, pb := p + a, p + b;
      assert pa[0] == pb[0];
      assert pa[1..] == p[1..] + a;
      assert pb[1..] == p[1..] + b;
      assert IsSubsequence(pa[1..], pb[1..]);
    } else {
      assert p + a == a && p + b == b;
    }
  }

  lemma {:induction false} SubsequenceTransitive<T>(a: seq<T>, b: seq<T>, c: seq<T>)
    requires IsSubsequence(a, b) && IsSubsequence(b, c)
    ensures IsSubsequence(a, c)
    decreases |c|
  {
    if a != [] {
      assert b != [] && c != [];
      if b[0] == c[0] && IsSubsequence(b[1..], c[1..]) {
        if a[0] == b[0] && IsSubsequence(a[1..], b[1..]) {
          SubsequenceTransitive(a[1..], b[1..], c[1..]);
        } else {
          SubsequenceTransitive(a, b[1..], c[1..]);
        }
      } else {
        SubsequenceTransitive(a, b, c[1..]);
      }
    }
  }

  /** Adjacent slices joined in front of a common tail. */
  lemma JoinSlices<T>(s: seq<T>, a: nat, b: nat, c: nat, tail: seq<T>)
    requires a <= b <= c <= |s|
    ensures s[a..b] + (s[b..c] + tail) == s[a..c] + tail
  {
    assert s[a..b] + s[b..c] == s[a..c];
  }

  /** The elements of `s` that satisfy `p`, in their original order. */
  function Keep<T>(s: seq<T>, p: T -> bool): (r: seq<T>)
    ensures |r| <= |s|
    ensures forall k :: 0 <= k < |r| ==> p(r[k])
    decreases |s|
  {
    if s == [] then []
    else (if p(s[0]) then [s[0]] else []) + Keep(s[1..], p)
  }

  lemma {:induction false} KeepAppend<T>(x: seq<T>, y: seq<T>, p: T -> bool)
    ensures Keep(x + y, p) == Keep(x, p) + Keep(y, p)
    decreases |x|
  {
    if x != [] {
      var xy := x + y;
      assert xy[0] == x[0];
      assert xy[1..] == x[1..] + y;
      KeepAppend(x[1..], y, p);
      assert Keep(xy, p) == (if p(x[0]) then [x[0]] else []) + Keep(x[1..] + y, p);
    } else {
      assert x + y == y;
    }
  }

  /** Elements that `p` rejects contribute nothing to `Keep`. */
  lemma {:induction false} KeepNone<T>(x: seq<T>, p: T -> bool)
    requires forall k :: 0 <= k < |x| ==> !p(x[k])
    ensures Keep(x, p) == []
    decreases |x|
  {
    if x != [] {
      KeepNone(x[1..], p);
    }
  }

  /** Dropping a stretch that `p` rejects, and replacing what follows by something equal under `p`. */
  lemma KeepSkip<T>(a: seq<T>, d: seq<T>, b: seq<T>, rest: seq<T>, p: T -> bool)
    requires forall k :: 0 <= k < |d| ==> !p(d[k])
    requires Keep(rest, p) == Keep(b, p)
    ensures Keep(a + rest, p) == Keep(a + (d + b), p)
  {
    assert Keep(d + b, p) == Keep(b, p) by {
      KeepNone(d, p);
      KeepAppend(d, b, p);
      assert [] + Keep(b, p) == Keep(b, p);
    }
    calc {
      Keep(a + rest, p);
    == { KeepAppend(a, rest, p); }
      Keep(a, p) + Keep(rest, p);
    ==
      Keep(a, p) + Keep(d + b, p);
    == { KeepAppend(a, d + b, p); }
      Keep(a + (d + b), p);
    }
  }

  /** Filtering by `q` after `p` is filtering by `q` alone when `q` implies `p`. */
  lemma {:induction false} KeepTwice<T>(s: seq<T>, p: T -> bool, q: T -> bool)
    requires forall x :: q(x) ==> p(x)
    ensures Keep(Keep(s, p), q) == Keep(s, q)
    decreases |s|
  {
    if s != [] {
      KeepTwice(s[1..], p, q);
      KeepAppend(if p(s[0]) then [s[0]] else [], Keep(s[1..], p), q);
    }
  }

  /** Two sequences that agree under filter `p` agree under every narrower filter. */
  lemma KeepNarrow<T>(x: seq<T>, y: seq<T>, p: T -> bool, q: T -> bool)
    requires forall c :: q(c) ==> p(c)
    requires Keep(x, p) == Keep(y, p)
    ensures Keep(x, q) == Keep(y, q)
  {
    KeepTwice(x, p, q);
    KeepTwice(y, p, q);
  }

  predicate NoDuplicates<T(==)>(s: seq<T>) {
    forall a, b :: 0 <= a < b < |s| ==> s[a] != s[b]
  }

  /**
   * The distinct elements of `xs` in the order of their first occurrence:
   * what a JavaScript object used as a dictionary yields from
   * `Object.entries` when its keys were inserted in the order of `xs`.
   */
  function Distinct<T(==,!new)>(xs: seq<T>): (ds: seq<T>)
    ensures forall x :: x in ds <==> x in xs
    ensures NoDuplicates(ds)
    decreases |xs|
  {
    if xs == [] then []
    else
      var ds := Distinct(xs[..|xs| - 1]);
      var x := xs[|xs| - 1];
      assert forall y :: y in xs <==> y in xs[..|xs| - 1] || y == x by {
        assert xs == xs[..|xs| - 1] + [x];
      }
      if x in ds then ds else ds + [x]
  }

  /** Appending an element appends it to the distinct elements exactly when it is new. */
  lemma DistinctAppend<T(!new)>(xs: seq<T>, x: T)
    ensures Distinct(xs + [x]) == if x in xs then Distinct(xs) else Distinct(xs) + [x]
  {
    var ys := xs + [x];
    assert ys[..|ys| - 1] == xs;
  }

  /** The position of the first occurrence of `x` in `xs`. */
  function FirstIndex<T(==)>(xs: seq<T>, x: T): (k: nat)
    requires x in xs
    ensures k < |xs| && xs[k] == x && x !in xs[..k]
    decreases |xs|
  {
    if xs[0] == x then 0
    else
      var k := 1 + FirstIndex(xs[1..], x);
      assert xs[..k] == [xs[0]] + xs[1..][..k - 1];
      k
  }

  /** The first occurrence is the only position that holds `x` with no `x` before it. */
  lemma FirstIndexUnique<T>(xs: seq<T>, x: T, k: nat)
    requires k < |xs| && xs[k] == x && x !in xs[..k]
    ensures FirstIndex(xs, x) == k
  {
  }

  /** Appending elements does not move a first occurrence. */
  lemma FirstIndexAppend<T>(xs: seq<T>, ys: seq<T>, x: T)
    requires x in xs
    ensures x in xs + ys && FirstIndex(xs + ys, x) == FirstIndex(xs, x)
  {
    var k := FirstIndex(xs, x);
    assert (xs + ys)[..k] == xs[..k];
    FirstIndexUnique(xs + ys, x, k);
  }

  /** `Distinct` lists the elements in the order of their first occurrences. */
  lemma {:induction false} DistinctFirstSeen<T(!new)>(xs: seq<T>)
    ensures forall i, j :: 0 <= i < j < |Distinct(xs)| ==>
      FirstIndex(xs, Distinct(xs)[i]) < FirstIndex(xs, Distinct(xs)[j])
    decreases |xs|
  {
    if xs != [] {
      var init := xs[..|xs| - 1];
      var x := xs[|xs| - 1];
      assert xs == init + [x];
      DistinctFirstSeen(init);
      var ds, di := Distinct(xs), Distinct(init);
      forall y | y in init
        ensures FirstIndex(xs, y) == FirstIndex(init, y)
      {
        FirstIndexAppend(init, [x], y);
      }
      if x !in di {
        assert ds == di + [x];
        assert xs[..|init|] == init;
        FirstIndexUnique(xs, x, |init|);
        forall i, j | 0 <= i < j < |ds|
          ensures FirstIndex(xs, ds[i]) < FirstIndex(xs, ds[j])
        {
          assert ds[i] == di[i] && ds[i] in init;
          if j < |di| {
            assert ds[j] == di[j] && ds[j] in init;
          }
        }
      } else {
        forall i, j | 0 <= i < j < |ds|
          ensures FirstIndex(xs, ds[i]) < FirstIndex(xs, ds[j])
        {
          assert ds[i] in init && ds[j] in init;
        }
      }
    }
  }

  /** Sum of the number of occurrences in `xs` of each element of `keys`. */
  function SumCounts<T(==)>(keys: seq<T>, xs: seq<T>): nat
    decreases |keys|
  {
    if keys == [] then 0
    else SumCounts(keys[..|keys| - 1], xs) + multiset(xs)[keys[|keys| - 1]]
  }

  lemma {:induction false} SumCountsExtend<T(!new)>(keys: seq<T>, xs: seq<T>, x: T)
    requires NoDuplicates(keys)
    ensures SumCounts(keys, xs + [x]) == SumCounts(keys, xs) + (if x in keys then 1 else 0)
    decreases |keys|
  {
    if keys != [] {
      var init := keys[..|keys| - 1];
      SumCountsExtend(init, xs, x);
      assert keys == init + [keys[|keys| - 1]];
      assert multiset(xs + [x]) == multiset(xs) + multiset{x};
    }
  }

  /** Counting every distinct element of `xs` counts all of `xs`. */
  lemma {:induction false} SumCountsDistinct<T(!new)>(xs: seq<T>)
    ensures SumCounts(Distinct(xs), xs) == |xs|
    decreases |xs|
  {
    if xs != [] {
      var init := xs[..|xs| - 1];
      var x := xs[|xs| - 1];
      assert xs == init + [x];
      SumCountsDistinct(init);
      SumCountsExtend(Distinct(init), init, x);
      if x !in Distinct(init) {
        assert x !in init;
        assert multiset(init)[x] == 0;
        assert Distinct(xs) == Distinct(init) + [x];
        assert Distinct(xs)[..|Distinct(xs)| - 1] == Distinct(init);
      }
    }
  }

  /** A sequence without duplicates holds each element at most once. */
  lemma {:induction false} NoDuplicatesCount<T>(s: seq<T>, x: T)
    requires NoDuplicates(s)
    ensures multiset(s)[x] <= 1
    decreases |s|
  {
    if s != [] {
      assert s == [s[0]] + s[1..];
      NoDuplicatesCount(s[1..], x);
      if s[0] == x {
        assert x !in s[1..];
      }
    }
  }

  /** An element at two different positions occurs at least twice. */
  lemma {:induction false} RepeatedCount<T>(s: seq<T>, a: nat, b: nat)
    requires a < b < |s| && s[a] == s[b]
    ensures multiset(s)[s[a]] >= 2
  {
    assert s == s[..a] + [s[a]] + s[a + 1..b] + [s[b]] + s[b + 1..];
  }

  /** In a text made of four parts, the second and the fourth are found at the offsets the parts' lengths give. */
  lemma MiddleAndLast<T>(a: seq<T>, b: seq<T>, c: seq<T>, d: seq<T>)
    ensures (a + b + c + d)[|a|..|a| + |b|] + (a + b + c + d)[|a| + |b| + |c|..] == b + d
  {
    var s := a + b + c + d;
    assert s[|a|..|a| + |b|] == b;
    assert s[|a| + |b| + |c|..] == d;
  }
}
