/** Python's `None`-or-value, used wherever the source returns `None` as a
    default, and the list-building loop `for x in xs: if ...: out.append(...)`
    over it. */
module Wrappers {
  datatype Option<+T> = None | Some(value: T) {
    /** The carried value, or `default` when this is None. */
    function GetOr(default: T): T {
      match this
      case Some(v) => v
      case None => default
    }
  }

  /** The values `f` yields on the elements of `xs`, in order, the None
      results left out. */
  function FilterMap<A, B>(xs: seq<A>, f: A -> Option<B>): seq<B> {
    if xs == [] then []
    else
      var n := |xs| - 1;
      FilterMap(xs[..n], f) + (match f(xs[n]) case Some(y) => [y] case None => [])
  }

  /** One more element adds what `f` yields on it. */
  lemma FilterMapSnoc<A, B>(xs: seq<A>, x: A, f: A -> Option<B>)
    ensures FilterMap(xs + [x], f) == FilterMap(xs, f) + (match f(x) case Some(y) => [y] case None => [])
  {
    assert (xs + [x])[..|xs|] == xs;
  }

  /** Four elements of which only the first yields a value give that value. */
  lemma FilterMapFirstOfFour<A, B>(a: A, b: A, c: A, d: A, f: A -> Option<B>, y: B)
    requires f(a) == Some(y) && f(b) == None && f(c) == None && f(d) == None
    ensures FilterMap([a, b, c, d], f) == [y]
  {
    FilterMapSnoc([], a, f);
    assert [] + [a] == [a];
    FilterMapSnoc([a], b, f);
    assert [a] + [b] == [a, b];
    FilterMapSnoc([a, b], c, f);
    assert [a, b] + [c] == [a, b, c];
    FilterMapSnoc([a, b, c], d, f);
    assert [a, b, c] + [d] == [a, b, c, d];
  }

  /** A value is in the result exactly when `f` yields it on some element. */
  lemma {:induction false} FilterMapMember<A, B>(xs: seq<A>, f: A -> Option<B>, y: B)
    ensures y in FilterMap(xs, f) <==> exists i :: 0 <= i < |xs| && f(xs[i]) == Some(y)
  {
    if xs != [] {
      var n := |xs| - 1;
      var init := xs[..n];
      var prev := FilterMap(init, f);
      var tail := match f(xs[n]) case Some(z) => [z] case None => [];
      FilterMapMember(init, f, y);
      assert FilterMap(xs, f) == prev + tail;
      assert y in FilterMap(xs, f) <==> y in prev || f(xs[n]) == Some(y);
      if y in prev {
        var i :| 0 <= i < n && f(init[i]) == Some(y);
        assert xs[i] == init[i];
      }
      if exists i :: 0 <= i < |xs| && f(xs[i]) == Some(y) {
        var i :| 0 <= i < |xs| && f(xs[i]) == Some(y);
        if i < n {
          assert init[i] == xs[i];
        }
      }
    }
  }

  /** The result is no longer than the input. */
  lemma {:induction false} FilterMapLength<A, B>(xs: seq<A>, f: A -> Option<B>)
    ensures |FilterMap(xs, f)| <= |xs|
  {
    if xs != [] {
      FilterMapLength(xs[..|xs| - 1], f);
    }
  }

  /** The sequences `f` yields on the elements of `xs`, laid end to end. */
  function FlatMap<A, B>(xs: seq<A>, f: A -> seq<B>): seq<B> {
    if xs == [] then []
    else
      var n := |xs| - 1;
      FlatMap(xs[..n], f) + f(xs[n])
  }

  /** The result is empty exactly when `f` yields nothing on every element. */
  lemma {:induction false} FlatMapEmpty<A, B>(xs: seq<A>, f: A -> seq<B>)
    ensures FlatMap(xs, f) == [] <==> forall i :: 0 <= i < |xs| ==> f(xs[i]) == []
  {
    if xs != [] {
      var n := |xs| - 1;
      FlatMapEmpty(xs[..n], f);
      assert forall i :: 0 <= i < n ==> xs[..n][i] == xs[i];
    }
  }
}
