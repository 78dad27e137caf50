/** The smallest and the largest row id of a set. */
module Extremes {

  lemma SomeElement<T>(s: set<T>) returns (x: T)
    requires |s| > 0
    ensures x in s
  {
    x :| x in s;
  }

  /** The smallest element of a set, or the largest with `last`. */
  lemma {:induction false} ExtremeOf(ids: set<nat>, last: bool) returns (m: nat)
    requires |ids| > 0
    ensures m in ids && forall r :: r in ids ==> if last then r <= m else m <= r
    decreases |ids|
  {
    var x := SomeElement(ids);
    m := x;
    if |ids - {x}| > 0 {
      m := ExtremeOf(ids - {x}, last);
      if (last && x > m) || (!last && x < m) {
        m := x;
      }
    }
    assert forall r :: r in ids ==> r == x || r in ids - {x};
  }

  /** MAX(ID) over a set of rows. */
  function MaxId(ids: set<nat>): (m: nat)
    requires |ids| > 0
    ensures m in ids && forall i :: i in ids ==> i <= m
  {
    assert exists m :: m in ids && forall i :: i in ids ==> i <= m by {
      var m := ExtremeOf(ids, true);
    }
    var m :| m in ids && forall i :: i in ids ==> i <= m;
    m
  }
}
