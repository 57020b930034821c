/** Small facts about finite sets, used where an argument counts. */
module Sets {

  lemma Pick<T>(s: set<T>) returns (x: T)
    requires s != {}
    ensures x in s
  {
    x :| x in s;
  }

  lemma {:induction false} SubsetSize<T>(a: set<T>, b: set<T>)
    requires a <= b
    ensures |a| <= |b|
  {
    if a == {} {
    } else {
      var x := Pick(a);
      SubsetSize(a - {x}, b - {x});
    }
  }

  /** The integers from..from+n. */
  function Range(from: int, n: nat): (r: set<int>)
    ensures |r| == n
    ensures forall i :: i in r <==> from <= i < from + n
  {
    if n == 0 then {} else Range(from, n - 1) + {from + n - 1}
  }

  lemma {:induction false} Least(s: set<int>) returns (r: int)
    requires s != {}
    ensures r in s && forall x :: x in s ==> r <= x
    decreases |s|
  {
    var x := Pick(s);
    var rest := s - {x};
    if rest == {} {
      assert s == {x};
      return x;
    }
    r := Least(rest);
    assert forall y :: y in s ==> y in rest || y == x;
    if x < r {
      r := x;
    }
  }
}
