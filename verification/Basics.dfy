/** What several modules need. */
module Basics {

  datatype Option<T> = None | Some(value: T)

  function Min(a: int, b: int): (r: int)
    ensures r <= a && r <= b && (r == a || r == b)
  {
    if a < b then a else b
  }

  lemma {:induction false} SubsetSize<T>(a: set<T>, b: set<T>)
    requires a <= b
    ensures |a| <= |b|
  {
    if a != {} {
      var x :| x in a;
      SubsetSize(a - {x}, b - {x});
    }
  }

  lemma {:induction false} DisjointSize<T>(a: set<T>, b: set<T>)
    requires a !! b
    ensures |a + b| == |a| + |b|
  {
    if b == {} {
      assert a + b == a;
    } else {
      var x :| x in b;
      DisjointSize(a, b - {x});
      assert a + b == a + (b - {x}) + {x};
    }
  }
}
