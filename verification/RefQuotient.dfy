/** External references under merging, and the connected components they induce on identities. */
module RefQuotient {
  import opened Wrappers
  import opened Lifecycle
  import opened Links

  /** The columns of MEDIA_EXTERNAL_REF that identify a reference. */
  datatype ExternalRef = ExternalRef(
    identity: Id,
    provider: string,
    externalId: string,
    scope: string,
    mediaType: Option<string>)

  type RefTable = map<nat, ExternalRef>

  predicate SameTriple(a: ExternalRef, b: ExternalRef) {
    a.provider == b.provider && a.externalId == b.externalId && a.scope == b.scope
  }

  predicate SamePair(a: ExternalRef, b: ExternalRef) {
    a.provider == b.provider && a.externalId == b.externalId
  }

  /** Reference `r1` of `t` stands for `ref` under the owner `id`. */
  ghost predicate StandsFor(t: RefTable, r1: nat, ref: ExternalRef, id: Id) {
    r1 in t && t[r1].identity == id && SameTriple(t[r1], ref)
  }

  /** The triple of row `r` is still held, by the row's new owner. */
  ghost predicate TripleKept(before: RefTable, after: RefTable, owner: map<Id, Id>, r: nat)
    requires r in before
  {
    exists r1 :: StandsFor(after, r1, before[r], Own(owner, before[r].identity))
  }

  /** `after` is `before` with owners replaced: no row is new, a surviving row changes owner only, and every
      (provider, external id, scope) of every row is still held by that row's new owner. */
  ghost predicate RefImage(before: RefTable, after: RefTable, owner: map<Id, Id>) {
    && after.Keys <= before.Keys
    && (forall r :: r in after ==> after[r] == before[r].(identity := Own(owner, before[r].identity)))
    && (forall r {:trigger TripleKept(before, after, owner, r)} :: r in before ==> TripleKept(before, after, owner, r))
  }

  lemma RefStay(t: RefTable, owner: map<Id, Id>)
    requires forall x :: x in owner ==> owner[x] == x
    ensures RefImage(t, t, owner)
  {
    forall r | r in t
      ensures TripleKept(t, t, owner, r)
    {
      assert StandsFor(t, r, t[r], Own(owner, t[r].identity));
    }
  }

  lemma RefCompose(a: RefTable, b: RefTable, c: RefTable, f: map<Id, Id>, h: map<Id, Id>, k: map<Id, Id>)
    requires RefImage(a, b, f) && RefImage(b, c, h)
    requires forall x :: Own(k, x) == Own(h, Own(f, x))
    ensures RefImage(a, c, k)
  {
    forall r | r in a
      ensures TripleKept(a, c, k, r)
    {
      assert TripleKept(a, b, f, r);
      var r1 :| StandsFor(b, r1, a[r], Own(f, a[r].identity));
      assert TripleKept(b, c, h, r1);
      var r2 :| StandsFor(c, r2, b[r1], Own(h, b[r1].identity));
      assert StandsFor(c, r2, a[r], Own(k, a[r].identity));
    }
  }

  // --- moving the references of one identity ---

  function RefsOf(refs: RefTable, id: Id): set<nat> {
    set r | r in refs && refs[r].identity == id
  }

  predicate HoldsTriple(refs: RefTable, id: Id, ref: ExternalRef) {
    exists r :: r in refs && refs[r].identity == id && SameTriple(refs[r], ref)
  }

  /** Some row outside `todo` holds the triple of `r` under its new owner. */
  ghost predicate Rehomed(before: RefTable, refs: RefTable, owner: map<Id, Id>, todo: set<nat>, r: nat)
    requires r in before
  {
    exists y :: StandsFor(refs, y, before[r], Own(owner, before[r].identity)) && y !in todo
  }

  /** Rows of other identities stay, and a row that moved is the only holder of its triple under the target. */
  ghost predicate MovedOnce(before: RefTable, after: RefTable, source: Id, target: Id) {
    && after.Keys <= before.Keys
    && (forall q :: q in before && before[q].identity != source ==> q in after)
    && (forall r, q :: r in after && q in after && r != q && before[r].identity == source && after[q].identity == target
          ==> !SameTriple(after[r], after[q]))
  }

  /** The source rows in `todo` are untouched; all other rows have arrived. */
  ghost predicate RefsMidway(before: RefTable, refs: RefTable, source: Id, target: Id, todo: set<nat>) {
    var owner := map[source := target];
    && todo <= refs.Keys <= before.Keys
    && (forall r :: r in todo ==> refs[r] == before[r] && refs[r].identity == source)
    && (forall r :: r in refs && r !in todo ==> refs[r] == before[r].(identity := Own(owner, before[r].identity)))
    && (forall r {:trigger Rehomed(before, refs, owner, todo, r)} ::
          r in before && r !in todo ==> Rehomed(before, refs, owner, todo, r))
  }

  /** `MovedOnce` for the rows visited so far. */
  ghost predicate OnceMidway(before: RefTable, refs: RefTable, source: Id, target: Id, todo: set<nat>) {
    && refs.Keys <= before.Keys
    && (forall q :: q in before && before[q].identity != source ==> q in refs)
    && (forall r, q ::
          r in refs && q in refs && r != q && r !in todo && before[r].identity == source && refs[q].identity == target
          ==> !SameTriple(refs[r], refs[q]))
  }

  lemma OnceVisit(before: RefTable, refs: RefTable, source: Id, target: Id, todo: set<nat>, r: nat)
    requires source != target && r in todo && RefsMidway(before, refs, source, target, todo)
    requires OnceMidway(before, refs, source, target, todo)
    ensures var next := if HoldsTriple(refs, target, refs[r]) then refs - {r}
                        else refs[r := refs[r].(identity := target)];
            OnceMidway(before, next, source, target, todo - {r})
  {
  }

  lemma RefsDepart(before: RefTable, source: Id, target: Id)
    ensures RefsMidway(before, before, source, target, RefsOf(before, source))
  {
    var owner, todo := map[source := target], RefsOf(before, source);
    forall r | r in before && r !in todo
      ensures Rehomed(before, before, owner, todo, r)
    {
      assert StandsFor(before, r, before[r], Own(owner, before[r].identity));
    }
  }

  lemma RefVisit(before: RefTable, refs: RefTable, source: Id, target: Id, todo: set<nat>, r: nat)
    requires source != target && r in todo && RefsMidway(before, refs, source, target, todo)
    ensures var next := if HoldsTriple(refs, target, refs[r]) then refs - {r}
                        else refs[r := refs[r].(identity := target)];
            RefsMidway(before, next, source, target, todo - {r})
  {
    var owner, rest := map[source := target], todo - {r};
    var next := if HoldsTriple(refs, target, refs[r]) then refs - {r} else refs[r := refs[r].(identity := target)];
    forall x | x in before && x !in rest
      ensures Rehomed(before, next, owner, rest, x)
    {
      var y;
      if x != r {
        assert Rehomed(before, refs, owner, todo, x);
        y :| StandsFor(refs, y, before[x], Own(owner, before[x].identity)) && y !in todo;
      } else if HoldsTriple(refs, target, refs[r]) {
        y :| y in refs && refs[y].identity == target && SameTriple(refs[y], refs[r]);
      } else {
        y := r;
      }
      assert StandsFor(next, y, before[x], Own(owner, before[x].identity)) && y !in rest;
    }
  }

  lemma RefsArrived(before: RefTable, refs: RefTable, source: Id, target: Id)
    requires RefsMidway(before, refs, source, target, {})
    ensures RefImage(before, refs, map[source := target])
  {
    var owner := map[source := target];
    forall r | r in before
      ensures TripleKept(before, refs, owner, r)
    {
      assert Rehomed(before, refs, owner, {}, r);
    }
  }

  // --- components ---

  /** Pairs of existing identities that both hold a reference to one (provider, external id). */
  ghost function SharedRefs(refs: RefTable, ids: set<Id>): set<(Id, Id)> {
    set a, b |
      a in refs && b in refs && SamePair(refs[a], refs[b]) && refs[a].identity in ids && refs[b].identity in ids
      :: (refs[a].identity, refs[b].identity)
  }

  /** A chain of shared references leads from `x` to `y`. */
  ghost predicate Linked(refs: RefTable, ids: set<Id>, x: Id, y: Id) {
    Reaches(SharedRefs(refs, ids), x, y)
  }

  // --- the quotient ---

  /** `owner` sends every original identity to a surviving one, and survivors to themselves. */
  ghost predicate Collapse(ids0: set<Id>, ids: set<Id>, owner: map<Id, Id>) {
    && owner.Keys == ids0
    && (forall x :: x in ids0 ==> owner[x] in ids)
    && (forall x :: x in ids ==> x in ids0 && owner[x] == x)
  }

  /** Identities are only ever merged along shared references. */
  ghost predicate OnlyLinked(refs0: RefTable, ids0: set<Id>, owner: map<Id, Id>)
    requires owner.Keys == ids0
  {
    forall x, y :: x in ids0 && y in ids0 && owner[x] == owner[y] ==> Linked(refs0, ids0, x, y)
  }

  ghost function Redirect(owner: map<Id, Id>, source: Id, target: Id): map<Id, Id> {
    map x | x in owner :: if owner[x] == source then target else owner[x]
  }

  ghost predicate OwnsPair(refs: RefTable, id: Id, pair: (string, string)) {
    exists r :: r in refs && refs[r].identity == id && (refs[r].provider, refs[r].externalId) == pair
  }

  /** At most one existing identity holds the pair. */
  ghost predicate Settled(refs: RefTable, ids: set<Id>, pair: (string, string)) {
    forall x, y :: x in ids && y in ids && OwnsPair(refs, x, pair) && OwnsPair(refs, y, pair) ==> x == y
  }

  lemma CollapseStep(ids0: set<Id>, ids: set<Id>, owner: map<Id, Id>, source: Id, target: Id)
    requires Collapse(ids0, ids, owner) && source in ids && target in ids && source != target
    ensures Collapse(ids0, ids - {source}, Redirect(owner, source, target))
    ensures forall x :: Own(Redirect(owner, source, target), x) == Own(map[source := target], Own(owner, x))
  {
  }

  /** An owner of a pair in the current table stems from an original owner of that pair. */
  lemma PairHasOrigin(refs0: RefTable, refs: RefTable, ids0: set<Id>, ids: set<Id>, owner: map<Id, Id>, id: Id,
                      pair: (string, string))
    returns (r: nat)
    requires RefImage(refs0, refs, owner) && Collapse(ids0, ids, owner)
    requires id in ids && OwnsPair(refs, id, pair)
    ensures r in refs0 && (refs0[r].provider, refs0[r].externalId) == pair
    ensures refs0[r].identity in ids0 && owner[refs0[r].identity] == id
  {
    r :| r in refs && refs[r].identity == id && (refs[r].provider, refs[r].externalId) == pair;
  }

  lemma OnlyLinkedStep(refs0: RefTable, refs: RefTable, ids0: set<Id>, ids: set<Id>, owner: map<Id, Id>, source: Id,
                       target: Id, pair: (string, string))
    requires RefImage(refs0, refs, owner) && Collapse(ids0, ids, owner) && OnlyLinked(refs0, ids0, owner)
    requires source in ids && target in ids && OwnsPair(refs, source, pair) && OwnsPair(refs, target, pair)
    ensures OnlyLinked(refs0, ids0, Redirect(owner, source, target))
  {
    var s := PairHasOrigin(refs0, refs, ids0, ids, owner, source, pair);
    var t := PairHasOrigin(refs0, refs, ids0, ids, owner, target, pair);
    var i, j := refs0[s].identity, refs0[t].identity;
    var links := SharedRefs(refs0, ids0);
    assert (i, j) in links && (j, i) in links;
    ReachesOne(links, i, j);
    ReachesOne(links, j, i);
    var next := Redirect(owner, source, target);
    forall x, y | x in ids0 && y in ids0 && next[x] == next[y]
      ensures Linked(refs0, ids0, x, y)
    {
      if owner[x] == source && owner[y] == target {
        ReachesJoin(links, x, i, j);
        ReachesJoin(links, x, j, y);
      } else if owner[x] == target && owner[y] == source {
        ReachesJoin(links, x, j, i);
        ReachesJoin(links, x, i, y);
      }
    }
  }

  /** A settled pair stays settled when two identities merge. */
  lemma SettledStep(refs: RefTable, next: RefTable, ids: set<Id>, source: Id, target: Id, pair: (string, string))
    requires RefImage(refs, next, map[source := target])
    requires source in ids && target in ids && Settled(refs, ids, pair)
    ensures Settled(next, ids - {source}, pair)
  {
    forall x, y | x in ids - {source} && y in ids - {source} && OwnsPair(next, x, pair) && OwnsPair(next, y, pair)
      ensures x == y
    {
      var a :| a in next && next[a].identity == x && (next[a].provider, next[a].externalId) == pair;
      var b :| b in next && next[b].identity == y && (next[b].provider, next[b].externalId) == pair;
      assert OwnsPair(refs, refs[a].identity, pair) && OwnsPair(refs, refs[b].identity, pair);
    }
  }

  /** The target of a merge keeps its pairs. */
  lemma OwnerKeepsPair(refs: RefTable, next: RefTable, owner: map<Id, Id>, id: Id, pair: (string, string))
    requires RefImage(refs, next, owner) && OwnsPair(refs, id, pair)
    ensures OwnsPair(next, Own(owner, id), pair)
  {
    var r :| r in refs && refs[r].identity == id && (refs[r].provider, refs[r].externalId) == pair;
    assert TripleKept(refs, next, owner, r);
    var r1 :| StandsFor(next, r1, refs[r], Own(owner, id));
  }

  /** Once every pair is settled, identities that shared a reference have one owner. */
  lemma SharedMeansMerged(refs0: RefTable, refs: RefTable, ids0: set<Id>, ids: set<Id>, owner: map<Id, Id>, x: Id,
                          y: Id)
    requires RefImage(refs0, refs, owner) && Collapse(ids0, ids, owner)
    requires forall pair :: Settled(refs, ids, pair)
    requires (x, y) in SharedRefs(refs0, ids0)
    ensures owner[x] == owner[y]
  {
    var a, b :| a in refs0 && b in refs0 && refs0[a].identity == x && refs0[b].identity == y
                && SamePair(refs0[a], refs0[b]);
    var pair := (refs0[a].provider, refs0[a].externalId);
    assert OwnsPair(refs0, x, pair) && OwnsPair(refs0, y, pair);
    OwnerKeepsPair(refs0, refs, owner, x, pair);
    OwnerKeepsPair(refs0, refs, owner, y, pair);
    assert Settled(refs, ids, pair);
  }

  lemma {:induction false} ChainMeansMerged(refs0: RefTable, refs: RefTable, ids0: set<Id>, ids: set<Id>,
                                            owner: map<Id, Id>, p: seq<Id>)
    requires RefImage(refs0, refs, owner) && Collapse(ids0, ids, owner)
    requires forall pair :: Settled(refs, ids, pair)
    requires Chain(SharedRefs(refs0, ids0), p) && p[0] in ids0
    ensures p[|p| - 1] in ids0 && owner[p[0]] == owner[p[|p| - 1]]
    decreases |p|
  {
    if |p| > 1 {
      assert (p[0], p[0 + 1]) in SharedRefs(refs0, ids0);
      SharedMeansMerged(refs0, refs, ids0, ids, owner, p[0], p[1]);
      ChainMeansMerged(refs0, refs, ids0, ids, owner, p[1..]);
    }
  }

  /** The finished run is exactly the partition into connected components. */
  lemma ComponentsExactly(refs0: RefTable, refs: RefTable, ids0: set<Id>, ids: set<Id>, owner: map<Id, Id>)
    requires RefImage(refs0, refs, owner) && Collapse(ids0, ids, owner) && OnlyLinked(refs0, ids0, owner)
    requires forall pair :: Settled(refs, ids, pair)
    ensures forall x, y :: x in ids0 && y in ids0 ==> (owner[x] == owner[y] <==> Linked(refs0, ids0, x, y))
  {
    forall x, y | x in ids0 && y in ids0 && Linked(refs0, ids0, x, y)
      ensures owner[x] == owner[y]
    {
      var p :| ChainBetween(SharedRefs(refs0, ids0), p, x, y);
      ChainMeansMerged(refs0, refs, ids0, ids, owner, p);
    }
  }
}
