/** Sizes of finite sets. */
module Counting {
  /** An injective image is as large as the set it comes from. */
  lemma {:induction false} ImageSize<T, U>(s: set<T>, f: T -> U, t: set<U>)
    requires forall x | x in s :: f(x) in t
    requires forall x, y | x in s && y in s && x != y :: f(x) != f(y)
    ensures |s| <= |t|
    decreases |s|
  {
    if s != {} {
      var x :| x in s;
      assert |s - {x}| == |s| - 1;
      ImageSize(s - {x}, f, t - {f(x)});
      assert |t - {f(x)}| == |t| - 1;
    }
  }

  lemma UnionSize<T>(s: set<T>, t: set<T>, u: set<T>)
    requires s <= t + u
    ensures |s| <= |t| + |u|
  {
    SubsetSize(s, t + u);
    assert t + u == t + (u - t);
    assert |t + (u - t)| == |t| + |u - t|;
    SubsetSize(u - t, u);
  }

  lemma SubsetSize<T>(s: set<T>, t: set<T>)
    requires s <= t
    ensures |s| <= |t|
  {
    assert t == s + (t - s);
    assert |s + (t - s)| == |s| + |t - s|;
  }

  /** The positions below `n`. */
  ghost function Below(n: nat): (s: set<int>)
    ensures |s| == n
    ensures forall j :: j in s <==> 0 <= j < n
  {
    if n == 0 then {} else Below(n - 1) + {n - 1}
  }
}
