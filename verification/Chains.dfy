/** Records with an id and a parent pointer that may dangle or run in circles, and the chains that start without a
    parent. */
module Chains {
  import opened Wrappers

  datatype Node<Id, Rest> = Node(id: Id, parent: Option<Id>, rest: Rest)

  /** Ids are keys. */
  ghost predicate UniqueIds<I, R>(nodes: seq<Node<I, R>>) {
    forall i, j :: 0 <= i < j < |nodes| ==> nodes[i].id != nodes[j].id
  }

  /** A chain from a parentless node down. */
  ghost predicate Path<I, R>(nodes: seq<Node<I, R>>, path: seq<Node<I, R>>) {
    forall i :: 0 <= i < |path| ==> path[i] in nodes && path[i].parent == End(path[..i])
  }

  function End<I, R>(path: seq<Node<I, R>>): Option<I> {
    if path == [] then None else Some(path[|path| - 1].id)
  }

  lemma Shorter<I, R>(nodes: seq<Node<I, R>>, path: seq<Node<I, R>>, n: nat)
    requires Path(nodes, path) && n <= |path|
    ensures Path(nodes, path[..n])
  {
    forall i | 0 <= i < n
      ensures path[..n][i] in nodes && path[..n][i].parent == End(path[..n][..i])
    {
      assert path[..n][..i] == path[..i];
    }
  }

  lemma Longer<I, R>(nodes: seq<Node<I, R>>, path: seq<Node<I, R>>, m: Node<I, R>)
    requires Path(nodes, path) && m in nodes && m.parent == End(path)
    ensures Path(nodes, path + [m])
  {
    forall i | 0 <= i < |path + [m]|
      ensures (path + [m])[i] in nodes && (path + [m])[i].parent == End((path + [m])[..i])
    {
      assert (path + [m])[..i] == path[..i];
      assert path[..|path|] == path;
    }
  }

  lemma SameId<I, R>(nodes: seq<Node<I, R>>, a: Node<I, R>, b: Node<I, R>)
    requires UniqueIds(nodes) && a in nodes && b in nodes && a.id == b.id
    ensures a == b
  {
  }

  lemma Split<I, R>(nodes: seq<Node<I, R>>, path: seq<Node<I, R>>)
    requires Path(nodes, path) && path != []
    ensures var n := |path| - 1;
            path == path[..n] + [path[n]] && path[n] in nodes && path[n].parent == End(path[..n])
            && Path(nodes, path[..n])
  {
    Shorter(nodes, path, |path| - 1);
  }

  /** A node has one chain at most. */
  lemma {:induction false} OnePath<I, R>(nodes: seq<Node<I, R>>, p: seq<Node<I, R>>, q: seq<Node<I, R>>)
    requires UniqueIds(nodes) && Path(nodes, p) && Path(nodes, q) && End(p) == End(q)
    ensures p == q
    decreases |p|
  {
    hide Path;
    hide UniqueIds;
    if p != [] {
      Split(nodes, p);
      Split(nodes, q);
      SameId(nodes, p[|p| - 1], q[|q| - 1]);
      OnePath(nodes, p[..|p| - 1], q[..|q| - 1]);
    }
  }

  lemma NoRepeat<I, R>(nodes: seq<Node<I, R>>, path: seq<Node<I, R>>, i: nat, j: nat)
    requires UniqueIds(nodes) && Path(nodes, path) && i < j < |path|
    ensures path[i] != path[j]
  {
    hide Path;
    hide UniqueIds;
    if path[i] == path[j] {
      var p, q := path[..i + 1], path[..j + 1];
      Shorter(nodes, path, i + 1);
      Shorter(nodes, path, j + 1);
      OnePath(nodes, p, q);
    }
  }

  lemma {:induction false} DistinctFits<I, R>(nodes: seq<Node<I, R>>, path: seq<Node<I, R>>)
    requires forall i :: 0 <= i < |path| ==> path[i] in nodes
    requires forall i, j :: 0 <= i < j < |path| ==> path[i] != path[j]
    ensures |path| <= |nodes|
    decreases |nodes|
  {
    if path != [] {
      var m := path[|path| - 1];
      var k :| 0 <= k < |nodes| && nodes[k] == m;
      var others := nodes[..k] + nodes[k + 1..];
      forall i | 0 <= i < |path| - 1
        ensures path[i] in others
      {
        var n :| 0 <= n < |nodes| && nodes[n] == path[i];
        assert if n < k then others[n] == path[i] else others[n - 1] == path[i];
      }
      DistinctFits(others, path[..|path| - 1]);
    }
  }

  /** Why following the pointers away from a node without a parent ends, although pointers may run in circles
      elsewhere. */
  lemma PathFits<I, R>(nodes: seq<Node<I, R>>, path: seq<Node<I, R>>)
    requires UniqueIds(nodes) && Path(nodes, path)
    ensures |path| <= |nodes|
  {
    forall i, j | 0 <= i < j < |path|
      ensures path[i] != path[j]
    {
      NoRepeat(nodes, path, i, j);
    }
    DistinctFits(nodes, path);
  }
}
