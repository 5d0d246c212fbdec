/** Finite sets of numbers: the least element, and sizes. */
module Sets {

  /** The least element. */
  function Least(s: set<nat>): (m: nat)
    requires s != {}
    ensures m in s && forall t | t in s :: m <= t
  {
    LeastExists(s);
    var m :| m in s && forall t | t in s :: m <= t;
    m
  }

  lemma {:induction false} LeastExists(s: set<nat>)
    requires s != {}
    ensures exists m :: m in s && forall t | t in s :: m <= t
    decreases |s|
  {
    var x :| x in s;
    var rest := s - {x};
    if rest == {} {
      assert s == {x};
    } else {
      LeastExists(rest);
      var m :| m in rest && forall t | t in rest :: m <= t;
      var least := if x < m then x else m;
      assert forall t | t in s :: t == x || t in rest;
      assert least in s && forall t | t in s :: least <= t;
    }
  }

  lemma SubsetSize(a: set<nat>, b: set<nat>)
    requires a <= b
    ensures |a| <= |b|
  {
    assert b == a + (b - a);
  }

  /** The `n` numbers from `lo` on. */
  function Span(lo: nat, n: nat): (s: set<nat>)
    ensures |s| == n && forall i: nat :: i in s <==> lo <= i < lo + n
  {
    if n == 0 then {} else Span(lo, n - 1) + {lo + n - 1}
  }
}
