/** Facts about Dafny's collections that several modules use. */
module Collections {

  lemma SubsetSize<T>(a: set<T>, b: set<T>)
    requires a <= b
    ensures |a| <= |b|
  {
    assert b == a + (b - a);
  }

  /** Taking one element out of a list takes it out of its multiset. */
  lemma BagWithout<T>(b: seq<T>, k: nat)
    requires k < |b|
    ensures multiset(b[..k] + b[k + 1..]) == multiset(b) - multiset{b[k]}
  {
    assert b == b[..k] + [b[k]] + b[k + 1..];
  }

  ghost predicate Injective<A(!new), B>(a: set<A>, f: A -> B) {
    forall x, y :: x in a && y in a && f(x) == f(y) ==> x == y
  }

  ghost function Image<A(!new), B>(a: set<A>, f: A -> B): set<B> {
    set x | x in a :: f(x)
  }

  /** An image is as large as the set exactly when no two elements go to the same place. */
  lemma {:induction false} ImageSize<A(!new), B>(a: set<A>, f: A -> B)
    ensures |Image(a, f)| <= |a|
    ensures |Image(a, f)| == |a| <==> Injective(a, f)
    decreases a
  {
    var image := Image(a, f);
    if a != {} {
      var x :| x in a;
      var rest := a - {x};
      var restImage := Image(rest, f);
      ImageSize(rest, f);
      if f(x) in restImage {
        assert image == restImage;
        var y :| y in rest && f(y) == f(x);
        assert !Injective(a, f);
      } else {
        assert image == restImage + {f(x)};
        assert Injective(a, f) <==> Injective(rest, f) by {
          assert forall y :: y in a <==> y in rest || y == x;
          assert forall y :: y in rest ==> f(y) in restImage;
        }
      }
    }
  }

  /** The positions at which a list has something of a kind. */
  ghost function Where<T>(xs: seq<T>, p: T -> bool): set<nat> {
    set i: nat | i < |xs| && p(xs[i])
  }

  lemma WhereLast<T>(xs: seq<T>, p: T -> bool)
    requires xs != []
    ensures |Where(xs, p)| == |Where(xs[..|xs| - 1], p)| + if p(xs[|xs| - 1]) then 1 else 0
  {
    var n := |xs| - 1;
    assert Where(xs, p) == Where(xs[..n], p) + if p(xs[n]) then {n} else {};
  }

  // ------------------------------------------------------------------ sums --

  function SumOf<T>(xs: seq<T>, f: T -> nat): nat {
    if xs == [] then 0 else SumOf(xs[..|xs| - 1], f) + f(xs[|xs| - 1])
  }

  lemma {:induction false} SumSplit<T>(a: seq<T>, b: seq<T>, f: T -> nat)
    ensures SumOf(a + b, f) == SumOf(a, f) + SumOf(b, f)
    decreases |b|
  {
    if b == [] {
      assert a + b == a;
    } else {
      var n := |a + b| - 1;
      assert (a + b)[..n] == a + b[..|b| - 1] && (a + b)[n] == b[|b| - 1];
      SumSplit(a, b[..|b| - 1], f);
    }
  }

  lemma SumOne<T>(x: T, f: T -> nat)
    ensures SumOf([x], f) == f(x)
  {
    assert [x][..0] == [];
  }

  lemma SumWithout<T>(b: seq<T>, k: nat, f: T -> nat)
    requires k < |b|
    ensures SumOf(b, f) == SumOf(b[..k] + b[k + 1..], f) + f(b[k])
  {
    var a, m, c := b[..k], [b[k]], b[k + 1..];
    assert b == a + m + c;
    SumMiddle(a, m, c, f);
    SumOne(b[k], f);
  }

  lemma SumMiddle<T>(a: seq<T>, m: seq<T>, c: seq<T>, f: T -> nat)
    ensures SumOf(a + m + c, f) == SumOf(a + c, f) + SumOf(m, f)
  {
    SumSplit(a, c, f);
    SumSplit(a + m, c, f);
    SumSplit(a, m, f);
  }

  /** The order of a list does not matter to a sum over it. */
  lemma {:induction false} SumPermuted<T>(a: seq<T>, b: seq<T>, f: T -> nat)
    requires multiset(a) == multiset(b)
    ensures SumOf(a, f) == SumOf(b, f)
    decreases |a|
  {
    if a == [] {
      assert |b| == |multiset(b)| == 0;
    } else {
      var n := |a| - 1;
      assert a[n] in multiset(a);
      var k :| 0 <= k < |b| && b[k] == a[n];
      SumWithout(a, n, f);
      SumWithout(b, k, f);
      BagWithout(a, n);
      BagWithout(b, k);
      assert a[..n] + a[n + 1..] == a[..n];
      SumPermuted(a[..n], b[..k] + b[k + 1..], f);
    }
  }
}
