/** Chains of links between identities. */
module Links {
  import opened Lifecycle

  ghost predicate Chain(links: set<(Id, Id)>, p: seq<Id>) {
    |p| > 0 && forall i :: 0 <= i < |p| - 1 ==> (p[i], p[i + 1]) in links
  }

  ghost predicate ChainBetween(links: set<(Id, Id)>, p: seq<Id>, x: Id, y: Id) {
    Chain(links, p) && p[0] == x && p[|p| - 1] == y
  }

  /** A chain of links leads from `x` to `y`. */
  ghost predicate Reaches(links: set<(Id, Id)>, x: Id, y: Id) {
    exists p :: ChainBetween(links, p, x, y)
  }

  lemma ReachesSelf(links: set<(Id, Id)>, x: Id)
    ensures Reaches(links, x, x)
  {
    assert ChainBetween(links, [x], x, x);
  }

  lemma ReachesOne(links: set<(Id, Id)>, x: Id, y: Id)
    requires (x, y) in links
    ensures Reaches(links, x, y)
  {
    assert ChainBetween(links, [x, y], x, y);
  }

  lemma ReachesJoin(links: set<(Id, Id)>, x: Id, y: Id, z: Id)
    requires Reaches(links, x, y) && Reaches(links, y, z)
    ensures Reaches(links, x, z)
  {
    var p :| ChainBetween(links, p, x, y);
    var q :| ChainBetween(links, q, y, z);
    var pq := p + q[1..];
    forall i | 0 <= i < |pq| - 1
      ensures (pq[i], pq[i + 1]) in links
    {
      if i >= |p| - 1 {
        assert pq[i] == q[i - (|p| - 1)] && pq[i + 1] == q[i + 1 - (|p| - 1)];
      }
    }
    assert ChainBetween(links, pq, x, z);
  }

  ghost predicate Symmetric(links: set<(Id, Id)>) {
    forall x, y :: (x, y) in links ==> (y, x) in links
  }

  lemma {:induction false} ChainReverse(links: set<(Id, Id)>, p: seq<Id>, x: Id, y: Id)
    requires ChainBetween(links, p, x, y) && Symmetric(links)
    ensures Reaches(links, y, x)
    decreases |p|
  {
    if |p| == 1 {
      ReachesSelf(links, x);
    } else {
      assert ChainBetween(links, p[1..], p[1], y);
      ChainReverse(links, p[1..], p[1], y);
      assert (p[0], p[0 + 1]) in links;
      ReachesOne(links, p[1], p[0]);
      ReachesJoin(links, y, p[1], x);
    }
  }

  lemma ReachesBack(links: set<(Id, Id)>, x: Id, y: Id)
    requires Reaches(links, x, y) && Symmetric(links)
    ensures Reaches(links, y, x)
  {
    var p :| ChainBetween(links, p, x, y);
    ChainReverse(links, p, x, y);
  }
}
