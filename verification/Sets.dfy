/** Counting facts used by the table models. */
module Sets {

  /** A one-to-one image has as many elements as its source. */
  lemma {:induction false} ImageSize<A(!new), B(!new)>(s: set<A>, t: set<B>, f: A -> B)
    requires forall x, y :: x in s && y in s && f(x) == f(y) ==> x == y
    requires forall x :: x in s ==> f(x) in t
    requires forall b :: b in t ==> exists x :: x in s && f(x) == b
    ensures |s| == |t|
    decreases s
  {
    if s == {} {
      assert t == {};
    } else {
      var x :| x in s;
      var s', t' := s - {x}, t - {f(x)};
      forall b | b in t' ensures exists y :: y in s' && f(y) == b {
        var y :| y in s && f(y) == b;
        assert y in s';
      }
      ImageSize(s', t', f);
    }
  }

  lemma {:induction false} SubsetSize<A>(s: set<A>, t: set<A>)
    requires s <= t
    ensures |s| <= |t|
    ensures |s| == |t| ==> s == t
    decreases s
  {
    if s == {} {
      assert |t| == 0 ==> t == {};
    } else {
      var x :| x in s;
      SubsetSize(s - {x}, t - {x});
      assert t == t - {x} + {x} && s == s - {x} + {x};
    }
  }

  /** Two sets have the same size exactly when as many elements are missing from one as from the other. */
  lemma {:induction false} DifferenceSizes<A>(s: set<A>, t: set<A>)
    ensures |s| == |t| <==> |s - t| == |t - s|
  {
    assert s == (s - t) + (s * t) && t == (t - s) + (s * t);
  }
}
