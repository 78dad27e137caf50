/** The menu management tree: a forest built from a flat list with parent pointers that may dangle or run in circles. */
module MenuTree {
  import opened Chains
  import opened Wrappers

  /** `rest` stands for the display columns, which an item copies. */
  type Menu = Node<nat, string>

  datatype Item = Item(menu: Menu, children: seq<Item>)

  /** The menus with the given parent, in input order. */
  function ChildrenOf(menus: seq<Menu>, parent: Option<nat>): seq<Menu> {
    if menus == [] then []
    else
      var kids, m := ChildrenOf(menus[..|menus| - 1], parent), menus[|menus| - 1];
      if m.parent == parent then kids + [m] else kids
  }

  lemma {:induction false} ChildrenAre(menus: seq<Menu>, parent: Option<nat>)
    ensures forall m :: m in ChildrenOf(menus, parent) <==> m in menus && m.parent == parent
  {
    if menus != [] {
      ChildrenAre(menus[..|menus| - 1], parent);
      assert menus == menus[..|menus| - 1] + [menus[|menus| - 1]];
    }
  }

  lemma {:induction false} UniqueChildren(menus: seq<Menu>, parent: Option<nat>)
    requires UniqueIds(menus)
    ensures UniqueIds(ChildrenOf(menus, parent))
  {
    if menus != [] {
      var kids := ChildrenOf(menus[..|menus| - 1], parent);
      UniqueChildren(menus[..|menus| - 1], parent);
      ChildrenAre(menus[..|menus| - 1], parent);
      forall i | 0 <= i < |kids|
        ensures kids[i].id != menus[|menus| - 1].id
      {
        assert kids[i] in kids;
      }
    }
  }

  /** The items stand for the menus `kids` in order, and below each one hang exactly its children, in order. */
  ghost predicate Grown(menus: seq<Menu>, kids: seq<Menu>, forest: seq<Item>)
    decreases forest
  {
    |forest| == |kids|
    && forall i :: 0 <= i < |forest| ==>
                     forest[i].menu == kids[i] && Grown(menus, ChildrenOf(menus, Some(kids[i].id)), forest[i].children)
  }

  function Flatten(forest: seq<Item>): seq<Menu> {
    if forest == [] then [] else [forest[0].menu] + Flatten(forest[0].children) + Flatten(forest[1..])
  }

  ghost predicate PathTo(menus: seq<Menu>, path: seq<Menu>, m: Menu) {
    Path(menus, path) && path != [] && path[|path| - 1] == m
  }

  /** The menu's parent chain reaches a parentless menu. */
  ghost predicate Rooted(menus: seq<Menu>, m: Menu) {
    exists path :: PathTo(menus, path, m)
  }

  // --- the builder ---

  lemma GrownOneMore(menus: seq<Menu>, kids: seq<Menu>, forest: seq<Item>, item: Item)
    requires Grown(menus, kids, forest) && Grown(menus, ChildrenOf(menus, Some(item.menu.id)), item.children)
    ensures Grown(menus, kids + [item.menu], forest + [item])
  {
  }

  lemma GrownEmpty(menus: seq<Menu>, parent: Option<nat>)
    ensures Grown(menus, ChildrenOf(menus[..0], parent), [])
  {
  }

  lemma ChildrenStep(menus: seq<Menu>, i: nat, parent: Option<nat>)
    requires i < |menus|
    ensures ChildrenOf(menus[..i + 1], parent)
            == if menus[i].parent == parent then ChildrenOf(menus[..i], parent) + [menus[i]]
               else ChildrenOf(menus[..i], parent)
  {
    assert menus[..i + 1][..i] == menus[..i];
  }

  /** `_build_management_tree`; `path` is the chain of menus that the recursion has come down. */
  method BuildTree(menus: seq<Menu>, parent: Option<nat>, ghost path: seq<Menu>) returns (result: seq<Item>)
    requires UniqueIds(menus) && Path(menus, path) && parent == End(path)
    ensures Grown(menus, ChildrenOf(menus, parent), result)
    decreases |menus| - |path|
  {
    hide UniqueIds;
    hide Path;
    hide Grown;
    hide ChildrenOf;
    result := [];
    GrownEmpty(menus, parent);
    for i := 0 to |menus|
      invariant Grown(menus, ChildrenOf(menus[..i], parent), result)
    {
      ChildrenStep(menus, i, parent);
      if menus[i].parent == parent {
        Longer(menus, path, menus[i]);
        PathFits(menus, path + [menus[i]]);
        var children := BuildTree(menus, Some(menus[i].id), path + [menus[i]]);
        GrownOneMore(menus, ChildrenOf(menus[..i], parent), result, Item(menus[i], children));
        result := result + [Item(menus[i], children)];
      }
    }
    assert menus[..|menus|] == menus;
  }

  // --- what the forest holds ---

  lemma {:induction false} OneForest(menus: seq<Menu>, kids: seq<Menu>, a: seq<Item>, b: seq<Item>)
    requires Grown(menus, kids, a) && Grown(menus, kids, b)
    ensures a == b
    decreases a
  {
    forall i | 0 <= i < |a|
      ensures a[i] == b[i]
    {
      OneForest(menus, ChildrenOf(menus, Some(kids[i].id)), a[i].children, b[i].children);
    }
  }

  lemma {:induction false} FlattenHas(forest: seq<Item>, i: nat, m: Menu)
    requires i < |forest| && (m == forest[i].menu || m in Flatten(forest[i].children))
    ensures m in Flatten(forest)
  {
    if i > 0 {
      FlattenHas(forest[1..], i - 1, m);
    }
  }

  lemma GrownRest(menus: seq<Menu>, kids: seq<Menu>, forest: seq<Item>)
    requires Grown(menus, kids, forest) && forest != []
    ensures Grown(menus, kids[1..], forest[1..])
  {
  }

  /** Whatever hangs in the forest has a chain through one of the forest's roots. */
  lemma {:induction false} Below(menus: seq<Menu>, kids: seq<Menu>, forest: seq<Item>, above: seq<Menu>, m: Menu)
    returns (path: seq<Menu>)
    requires Grown(menus, kids, forest) && Path(menus, above) && m in Flatten(forest)
    requires forall k :: k in kids ==> k in menus && k.parent == End(above)
    ensures PathTo(menus, path, m) && |above| < |path| && above == path[..|above|] && path[|above|] in kids
    decreases forest
  {
    if m == forest[0].menu {
      Longer(menus, above, m);
      path := above + [m];
    } else if m in Flatten(forest[0].children) {
      var k := kids[0];
      Longer(menus, above, k);
      ChildrenAre(menus, Some(k.id));
      path := Below(menus, ChildrenOf(menus, Some(k.id)), forest[0].children, above + [k], m);
      assert path[..|above|] == path[..|above| + 1][..|above|];
      assert path[|above|] == path[..|above| + 1][|above|];
    } else {
      GrownRest(menus, kids, forest);
      path := Below(menus, kids[1..], forest[1..], above, m);
    }
  }

  /** Every chain through one of the forest's roots ends in the forest. */
  lemma {:induction false} Covers(menus: seq<Menu>, kids: seq<Menu>, forest: seq<Item>, path: seq<Menu>, n: nat)
    requires Grown(menus, kids, forest) && Path(menus, path) && n < |path| && path[n] in kids
    ensures path[|path| - 1] in Flatten(forest)
    decreases |path| - n
  {
    var i :| 0 <= i < |kids| && kids[i] == path[n];
    if n + 1 < |path| {
      assert path[..n + 1][n] == path[n];
      assert path[n + 1].parent == Some(path[n].id);
      ChildrenAre(menus, Some(kids[i].id));
      Covers(menus, ChildrenOf(menus, Some(kids[i].id)), forest[i].children, path, n + 1);
    }
    FlattenHas(forest, i, path[|path| - 1]);
  }

  ghost predicate Distinct(s: seq<Menu>) {
    forall i, j :: 0 <= i < j < |s| ==> s[i] != s[j]
  }

  lemma DistinctJoin(a: seq<Menu>, b: seq<Menu>)
    requires Distinct(a) && Distinct(b) && forall m :: m in a ==> m !in b
    ensures Distinct(a + b)
  {
    forall i, j | 0 <= i < j < |a + b|
      ensures (a + b)[i] != (a + b)[j]
    {
      if i < |a| <= j {
        assert a[i] in a && b[j - |a|] in b;
      }
    }
  }

  /** Nothing hangs in the forest twice. */
  lemma {:induction false} Once(menus: seq<Menu>, kids: seq<Menu>, forest: seq<Item>, above: seq<Menu>)
    requires UniqueIds(menus) && Siblings(menus, kids, forest, above)
    ensures Distinct(Flatten(forest))
    decreases forest
  {
    if forest != [] {
      SiblingsOf(menus, kids, forest, above);
      Once(menus, ChildrenOf(menus, Some(kids[0].id)), forest[0].children, above + [kids[0]]);
      Once(menus, kids[1..], forest[1..], above);
      forall m | m in Flatten(forest[0].children)
        ensures m != kids[0] && m !in Flatten(forest[1..])
      {
        ChildIsElsewhere(menus, kids, forest, above, m);
      }
      RootIsElsewhere(menus, kids, forest, above);
      hide Siblings;
      DistinctJoin([forest[0].menu], Flatten(forest[0].children));
      DistinctJoin([forest[0].menu] + Flatten(forest[0].children), Flatten(forest[1..]));
    }
  }

  /** The forest of menus that share the parent at the end of the chain `above`. */
  ghost predicate Siblings(menus: seq<Menu>, kids: seq<Menu>, forest: seq<Item>, above: seq<Menu>) {
    && Grown(menus, kids, forest) && Path(menus, above) && UniqueIds(kids)
    && forall k :: k in kids ==> k in menus && k.parent == End(above)
  }

  lemma SiblingsOf(menus: seq<Menu>, kids: seq<Menu>, forest: seq<Item>, above: seq<Menu>)
    requires UniqueIds(menus) && Siblings(menus, kids, forest, above) && forest != []
    ensures Siblings(menus, kids[1..], forest[1..], above) && forest[0].menu == kids[0]
    ensures Siblings(menus, ChildrenOf(menus, Some(kids[0].id)), forest[0].children, above + [kids[0]])
  {
    Longer(menus, above, kids[0]);
    UniqueChildren(menus, Some(kids[0].id));
    ChildrenAre(menus, Some(kids[0].id));
    GrownRest(menus, kids, forest);
  }

  lemma RootIsElsewhere(menus: seq<Menu>, kids: seq<Menu>, forest: seq<Item>, above: seq<Menu>)
    requires UniqueIds(menus) && Siblings(menus, kids, forest, above) && forest != []
    ensures kids[0] !in Flatten(forest[1..])
  {
    if kids[0] in Flatten(forest[1..]) {
      SiblingsOf(menus, kids, forest, above);
      var q := Below(menus, kids[1..], forest[1..], above, kids[0]);
      Longer(menus, above, kids[0]);
      OnePath(menus, above + [kids[0]], q);
    }
  }

  lemma ChildIsElsewhere(menus: seq<Menu>, kids: seq<Menu>, forest: seq<Item>, above: seq<Menu>, m: Menu)
    requires UniqueIds(menus) && Siblings(menus, kids, forest, above)
    requires forest != [] && m in Flatten(forest[0].children)
    ensures m != kids[0] && m !in Flatten(forest[1..])
  {
    var k := kids[0];
    Longer(menus, above, k);
    ChildrenAre(menus, Some(k.id));
    var p := Below(menus, ChildrenOf(menus, Some(k.id)), forest[0].children, above + [k], m);
    assert p[|above|] == p[..|above| + 1][|above|] == k;
    if m == k {
      OnePath(menus, above + [k], p);
    }
    if m in Flatten(forest[1..]) {
      GrownRest(menus, kids, forest);
      var q := Below(menus, kids[1..], forest[1..], above, m);
      OnePath(menus, p, q);
    }
  }

  /** The tree holds each menu whose parent chain reaches a parentless menu exactly once, and no other menu. */
  lemma TreeHoldsTheRooted(menus: seq<Menu>, forest: seq<Item>)
    requires UniqueIds(menus) && Grown(menus, ChildrenOf(menus, None), forest)
    ensures forall m :: m in Flatten(forest) <==> Rooted(menus, m)
    ensures Distinct(Flatten(forest))
  {
    var kids := ChildrenOf(menus, None);
    UniqueChildren(menus, None);
    ChildrenAre(menus, None);
    Once(menus, kids, forest, []);
    forall m
      ensures m in Flatten(forest) <==> Rooted(menus, m)
    {
      if m in Flatten(forest) {
        var path := Below(menus, kids, forest, [], m);
      }
      if Rooted(menus, m) {
        var path: seq<Menu> :| PathTo(menus, path, m);
        assert path[0].parent == End(path[..0]);
        Covers(menus, kids, forest, path, 0);
      }
    }
  }

  /** Every member names a parent, and one that exists is a member too: a cycle, or a dangling pointer, with all that
      hangs below. */
  ghost predicate Unanchored(menus: seq<Menu>, group: set<Menu>) {
    forall m: Menu :: m in group
                      ==> m.parent.Some? && forall p: Menu :: p in menus && m.parent == Some(p.id) ==> p in group
  }

  lemma {:induction false} ChainAvoids(menus: seq<Menu>, group: set<Menu>, path: seq<Menu>)
    requires Unanchored(menus, group) && Path(menus, path) && path != []
    ensures path[|path| - 1] !in group
    decreases |path|
  {
    var n := |path| - 1;
    assert path[n].parent == End(path[..n]);
    if n > 0 {
      Shorter(menus, path, n);
      ChainAvoids(menus, group, path[..n]);
      assert path[n - 1] == path[..n][n - 1];
    }
  }

  function Rest(menus: seq<Menu>, kept: seq<Menu>): set<Menu> {
    set m | m in menus && m !in kept
  }

  /** The menus that the tree leaves out are exactly those of unanchored groups. */
  lemma LeftOutExactly(menus: seq<Menu>, forest: seq<Item>, m: Menu)
    requires UniqueIds(menus) && Grown(menus, ChildrenOf(menus, None), forest) && m in menus
    ensures m !in Flatten(forest) <==> exists group :: m in group && Unanchored(menus, group)
  {
    TreeHoldsTheRooted(menus, forest);
    if m in Flatten(forest) {
      var path: seq<Menu> :| PathTo(menus, path, m);
      forall group | Unanchored(menus, group)
        ensures m !in group
      {
        ChainAvoids(menus, group, path);
      }
    } else {
      var group := Rest(menus, Flatten(forest));
      forall x | x in group
        ensures x.parent.Some? && forall p :: p in menus && x.parent == Some(p.id) ==> p in group
      {
        OutsideIsUnanchored(menus, forest, x);
      }
      assert m in group && Unanchored(menus, group);
    }
  }

  lemma OutsideIsUnanchored(menus: seq<Menu>, forest: seq<Item>, m: Menu)
    requires forall x :: x in Flatten(forest) <==> Rooted(menus, x)
    requires m in menus && m !in Flatten(forest)
    ensures m.parent.Some?
    ensures forall p :: p in menus && m.parent == Some(p.id) ==> p !in Flatten(forest)
  {
    if m.parent.None? {
      Longer(menus, [], m);
      assert PathTo(menus, [] + [m], m);
    }
    forall p | p in menus && m.parent == Some(p.id)
      ensures p !in Flatten(forest)
    {
      if p in Flatten(forest) {
        var path: seq<Menu> :| PathTo(menus, path, p);
        Longer(menus, path, m);
        assert PathTo(menus, path + [m], m);
      }
    }
  }
}
