/** The migration chain: from the parsed revision files to the revision that a new migration follows. */
module RevisionHead {
  import opened Chains
  import opened Wrappers

  /** A revision and the one it follows. */
  type Revision = Node<string, ()>

  /** What a file declares; a file without a revision line is ignored. */
  datatype Parsed = Parsed(rev: Option<string>, down: Option<string>)

  // --- the dictionary, in insertion order ---

  function IndexOf(revs: seq<Revision>, rev: string): (i: nat)
    ensures i <= |revs| && (i < |revs| ==> revs[i].id == rev)
    ensures forall j :: 0 <= j < i ==> revs[j].id != rev
  {
    if revs == [] || revs[0].id == rev then 0 else 1 + IndexOf(revs[1..], rev)
  }

  /** `revs[rev] = down`: a known key keeps its place. */
  function Put(revs: seq<Revision>, rev: string, down: Option<string>): seq<Revision> {
    var i := IndexOf(revs, rev);
    if i < |revs| then revs[i := Node(rev, down, ())] else revs + [Node(rev, down, ())]
  }

  function Collect(files: seq<Parsed>): seq<Revision> {
    if files == [] then []
    else
      var before, f := Collect(files[..|files| - 1]), files[|files| - 1];
      if f.rev.None? then before else Put(before, f.rev.value, f.down)
  }

  /** What the last file that declares the revision says it follows. */
  function LastSaid(files: seq<Parsed>, rev: string): Option<Option<string>> {
    if files == [] then None
    else if files[|files| - 1].rev == Some(rev) then Some(files[|files| - 1].down)
    else LastSaid(files[..|files| - 1], rev)
  }

  /** The dictionary has one entry per declared revision, holding what the last of its files said. */
  lemma {:induction false} CollectHoldsTheLast(files: seq<Parsed>, rev: string, down: Option<string>)
    ensures UniqueIds(Collect(files))
    ensures Node(rev, down, ()) in Collect(files) <==> LastSaid(files, rev) == Some(down)
  {
    if files != [] {
      CollectHoldsTheLast(files[..|files| - 1], rev, down);
      var before, f := Collect(files[..|files| - 1]), files[|files| - 1];
      if f.rev.Some? {
        PutReplaces(before, f.rev.value, f.down, Node(rev, down, ()));
      }
    }
  }

  lemma PutReplaces(revs: seq<Revision>, rev: string, down: Option<string>, n: Revision)
    requires UniqueIds(revs)
    ensures UniqueIds(Put(revs, rev, down))
    ensures n in Put(revs, rev, down) <==> if n.id == rev then n.parent == down else n in revs
  {
    var i, after := IndexOf(revs, rev), Put(revs, rev, down);
    assert n.rest == ();
    assert i < |after| && after[i] == Node(rev, down, ());
    assert forall j :: 0 <= j < |revs| && j != i ==> after[j] == revs[j];
    if n in revs && n.id != rev {
      var j :| 0 <= j < |revs| && revs[j] == n;
      assert after[j] == n;
    }
  }

  // --- base, children, walk ---

  /** The first revision that follows none. */
  function FirstBase(revs: seq<Revision>): (base: Option<Revision>)
    ensures base.Some? ==> base.value in revs && base.value.parent.None?
    ensures base.None? <==> forall r :: r in revs ==> r.parent.Some?
  {
    if revs == [] then None
    else if revs[0].parent.None? then Some(revs[0])
    else
      assert revs == [revs[0]] + revs[1..];
      FirstBase(revs[1..])
  }

  /** The last revision that follows `down`. */
  function LastChild(revs: seq<Revision>, down: string): (child: Option<Revision>)
    ensures child.Some? ==> child.value in revs && child.value.parent == Some(down)
    ensures child.None? <==> forall r :: r in revs ==> r.parent != Some(down)
  {
    if revs == [] then None
    else if revs[|revs| - 1].parent == Some(down) then Some(revs[|revs| - 1])
    else
      assert revs == revs[..|revs| - 1] + [revs[|revs| - 1]];
      LastChild(revs[..|revs| - 1], down)
  }

  /** Each step of the walk goes to the last child of the revision before. */
  ghost predicate Steps(revs: seq<Revision>, path: seq<Revision>) {
    && path != [] && Some(path[0]) == FirstBase(revs)
    && forall i :: 0 < i < |path| ==> Some(path[i]) == LastChild(revs, path[i - 1].id)
  }

  /** The whole walk: it starts at the first base and stops at a revision without children. */
  ghost predicate Walk(revs: seq<Revision>, path: seq<Revision>) {
    Steps(revs, path) && LastChild(revs, path[|path| - 1].id).None?
  }

  lemma StepsArePath(revs: seq<Revision>, path: seq<Revision>)
    requires Steps(revs, path)
    ensures Path(revs, path)
  {
    forall i | 0 <= i < |path|
      ensures path[i] in revs && path[i].parent == End(path[..i])
    {
      if i > 0 {
        assert path[..i][i - 1] == path[i - 1];
        assert Some(path[i]) == LastChild(revs, path[i - 1].id);
      }
    }
  }

  /** `child_map`: of several children the last one wins. */
  method ChildMap(revs: seq<Revision>) returns (children: map<string, string>)
    ensures forall d :: d in children <==> LastChild(revs, d).Some?
    ensures forall d :: d in children ==> children[d] == LastChild(revs, d).value.id
  {
    children := map[];
    for i := 0 to |revs|
      invariant forall d :: d in children <==> LastChild(revs[..i], d).Some?
      invariant forall d :: d in children ==> children[d] == LastChild(revs[..i], d).value.id
    {
      assert revs[..i + 1][..i] == revs[..i];
      if revs[i].parent.Some? {
        children := children[revs[i].parent.value := revs[i].id];
      }
    }
    assert revs[..|revs|] == revs;
  }

  /** `_get_head_revision` after the files are parsed. */
  method GetHead(files: seq<Parsed>) returns (head: Option<string>)
    ensures head.None? <==> FirstBase(Collect(files)).None?
    ensures head.Some? ==> exists path :: Walk(Collect(files), path) && head == End(path)
  {
    var revs := [];
    for i := 0 to |files|
      invariant revs == Collect(files[..i])
    {
      assert files[..i + 1][..i] == files[..i];
      if files[i].rev.Some? {
        revs := Put(revs, files[i].rev.value, files[i].down);
      }
    }
    assert files[..|files|] == files;
    CollectHoldsTheLast(files, "", None);
    var base := FirstBase(revs);
    if base.None? {
      return None;
    }
    var children := ChildMap(revs);
    var current := base.value.id;
    ghost var path := [base.value];
    StepsArePath(revs, path);
    PathFits(revs, path);
    while current in children
      invariant Steps(revs, path) && Some(current) == End(path)
      invariant |path| <= |revs|
      decreases |revs| - |path|
    {
      ghost var child := LastChild(revs, current).value;
      path := path + [child];
      StepsArePath(revs, path);
      PathFits(revs, path);
      current := children[current];
    }
    head := Some(current);
    assert Walk(revs, path);
  }

  // --- what the result is ---

  lemma {:induction false} SameSteps(revs: seq<Revision>, p: seq<Revision>, q: seq<Revision>, n: nat)
    requires Steps(revs, p) && Steps(revs, q) && n <= |p| && n <= |q|
    ensures forall i :: 0 <= i < n ==> p[i] == q[i]
  {
    if n > 1 {
      SameSteps(revs, p, q, n - 1);
      assert Some(p[n - 1]) == LastChild(revs, p[n - 2].id) && Some(q[n - 1]) == LastChild(revs, q[n - 2].id);
    }
  }

  lemma HadChild(revs: seq<Revision>, path: seq<Revision>, n: nat)
    requires Steps(revs, path) && n + 1 < |path|
    ensures LastChild(revs, path[n].id).Some?
  {
    assert Some(path[n + 1]) == LastChild(revs, path[n].id);
  }

  lemma NoFurther(revs: seq<Revision>, p: seq<Revision>, q: seq<Revision>)
    requires Walk(revs, p) && Steps(revs, q)
    ensures |q| <= |p|
  {
    if |p| < |q| {
      SameSteps(revs, p, q, |p|);
      HadChild(revs, q, |p| - 1);
    }
  }

  /** The walk, and so the result, is determined by the files. */
  lemma OneWalk(revs: seq<Revision>, p: seq<Revision>, q: seq<Revision>)
    requires Walk(revs, p) && Walk(revs, q)
    ensures p == q
  {
    NoFurther(revs, p, q);
    NoFurther(revs, q, p);
    SameSteps(revs, p, q, |p|);
  }

  /** The result exists, hangs on a base by an unbroken chain, and no revision names it as the one it follows. */
  lemma HeadIsUnnamed(revs: seq<Revision>, path: seq<Revision>)
    requires Walk(revs, path)
    ensures Path(revs, path) && path[|path| - 1] in revs
    ensures forall r :: r in revs ==> r.parent != Some(path[|path| - 1].id)
  {
    StepsArePath(revs, path);
  }

  lemma NamedUnlessLast(revs: seq<Revision>, chain: seq<Revision>, r: Revision)
    requires Path(revs, chain) && r in chain
    ensures r == chain[|chain| - 1] || exists s :: s in revs && s.parent == Some(r.id)
  {
    var j :| 0 <= j < |chain| && chain[j] == r;
    if j + 1 < |chain| {
      assert chain[..j + 1][j] == r;
      assert chain[j + 1] in revs && chain[j + 1].parent == Some(r.id);
    }
  }

  /** On a single linear chain the walk is the chain, and its end is the only revision that no other names. */
  lemma LinearHead(revs: seq<Revision>, path: seq<Revision>, chain: seq<Revision>)
    requires UniqueIds(revs) && Walk(revs, path)
    requires Path(revs, chain) && forall r :: r in revs ==> r in chain
    ensures path == chain
    ensures forall r :: r in revs && (forall s :: s in revs ==> s.parent != Some(r.id)) ==> r == path[|path| - 1]
  {
    HeadIsUnnamed(revs, path);
    hide Path;
    hide Walk;
    hide UniqueIds;
    NamedUnlessLast(revs, chain, path[|path| - 1]);
    OnePath(revs, path, chain);
    forall r | r in revs && (forall s :: s in revs ==> s.parent != Some(r.id))
      ensures r == path[|path| - 1]
    {
      NamedUnlessLast(revs, chain, r);
    }
  }

  // --- which base, which child ---

  /** The base is the first revision in the dictionary that follows none. */
  lemma {:induction false} BaseIsFirst(revs: seq<Revision>, i: nat)
    requires i < |revs| && revs[i].parent.None? && forall j :: 0 <= j < i ==> revs[j].parent.Some?
    ensures FirstBase(revs) == Some(revs[i])
  {
    if i > 0 {
      BaseIsFirst(revs[1..], i - 1);
    }
  }

  /** The child is the last revision in the dictionary that follows the given one. */
  lemma {:induction false} ChildIsLast(revs: seq<Revision>, down: string, i: nat)
    requires i < |revs| && revs[i].parent == Some(down)
    requires forall j :: i < j < |revs| ==> revs[j].parent != Some(down)
    ensures LastChild(revs, down) == Some(revs[i])
    decreases |revs|
  {
    if i < |revs| - 1 {
      ChildIsLast(revs[..|revs| - 1], down, i);
    }
  }

  /** The revisions stand in the order in which they are declared first. */
  lemma {:induction false} DictionaryOrder(files: seq<Parsed>, rev: string, f: Parsed)
    ensures |Collect(files)| <= |Collect(files + [f])|
    ensures forall i :: 0 <= i < |Collect(files)| ==> Collect(files + [f])[i].id == Collect(files)[i].id
    ensures f.rev == Some(rev) && IndexOf(Collect(files), rev) == |Collect(files)|
            ==> Collect(files + [f]) == Collect(files) + [Node(rev, f.down, ())]
  {
    assert (files + [f])[..|files|] == files;
  }
}
