/** Small generic vocabulary shared by the other modules. */
module Prelude {
  datatype Option<+T> = None | Some(value: T)

  /** Moments and durations, in seconds. */
  type Time = real

  /** A set is at least as large as the image of any function on it. */
  lemma {:induction false} ImageIsNoLarger<X, Y>(xs: set<X>, f: map<X, Y>, ys: set<Y>)
    requires xs <= f.Keys
    requires forall y :: y in ys ==> exists x :: x in xs && f[x] == y
    ensures |ys| <= |xs|
    decreases |ys|
  {
    if ys == {} {
    } else {
      var y :| y in ys;
      var x :| x in xs && f[x] == y;
      var same := set x' | x' in xs && f[x'] == y;
      assert xs - same < xs;
      SmallerSet(xs - same, xs);
      ImageIsNoLarger(xs - same, f, ys - {y});
    }
  }

  lemma SmallerSet<X>(a: set<X>, b: set<X>)
    requires a < b
    ensures |a| < |b|
  {
    var x :| x in b && x !in a;
    SubsetSize(a, b - {x});
  }

  lemma {:induction false} SubsetSize<X>(a: set<X>, b: set<X>)
    requires a <= b
    ensures |a| <= |b|
  {
    if a == {} {
    } else {
      var x :| x in a;
      SubsetSize(a - {x}, b - {x});
    }
  }
}
