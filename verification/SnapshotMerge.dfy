/** Merging lifecycle rows: what one merged row does to the table, and what any sequence of merges amounts to.
    A merge is described by its image: `owner` says, for every row of the table before, which identity the row's
    slot belongs to afterwards. Images compose, so a whole run is one image. */
module SnapshotMerge {
  import opened Lifecycle

  type Table = map<nat, Snapshot>

  /** The unique key UQ_MEDIA_LIFECYCLE_ITEM. */
  ghost predicate UniqueSlots(t: Table) {
    forall a, b :: a in t && b in t && t[a].identity == t[b].identity && t[a].slot == t[b].slot ==> a == b
  }

  predicate Holds(t: Table, id: nat, owner: Id, slot: Slot) {
    id in t && t[id].identity == owner && t[id].slot == slot
  }

  ghost predicate Occupied(t: Table, owner: Id, slot: Slot) {
    exists id :: Holds(t, id, owner, slot)
  }

  /** The owner of every row when no row moves. */
  ghost function Stay(t: Table): map<nat, Id> {
    map r | r in t :: t[r].identity
  }

  ghost predicate SameSlotAndOwner(t: Table, owner: map<nat, Id>, r: nat, id: Id, slot: Slot) {
    r in t && r in owner && owner[r] == id && t[r].slot == slot
  }

  /** Row `r1` of `after` carries the standing of a row that competed for its slot. */
  ghost predicate Carried(before: Table, after: Table, owner: map<nat, Id>, r1: nat, w: nat)
    requires r1 in after
  {
    SameSlotAndOwner(before, owner, w, after[r1].identity, after[r1].slot) && before[w].standing == after[r1].standing
  }

  /** Row `r1` of `after` answers for row `r0` of `before`: same slot, the new owner, and a rank at least as high
      when the winning columns are really written. */
  ghost predicate Answers(before: Table, after: Table, owner: map<nat, Id>, copy: bool, r0: nat, r1: nat)
    requires r0 in before && r0 in owner
  {
    Holds(after, r1, owner[r0], before[r0].slot) &&
    (copy ==> RankOf(before[r0].standing).AtMost(RankOf(after[r1].standing)))
  }

  ghost predicate Answered(before: Table, after: Table, owner: map<nat, Id>, copy: bool, r: nat)
    requires r in before && r in owner
  {
    exists r1 :: Answers(before, after, owner, copy, r, r1)
  }

  /** No new row, one row per slot, and a surviving row changes owner but nothing else outside the ten columns. */
  ghost predicate Keeps(before: Table, after: Table, owner: map<nat, Id>) {
    && owner.Keys == before.Keys
    && after.Keys <= before.Keys
    && UniqueSlots(after)
    && forall r :: r in after ==> KeepsRow(before, after, owner, r)
  }

  ghost predicate KeepsRow(before: Table, after: Table, owner: map<nat, Id>, r: nat)
    requires r in after && r in before && r in owner
  {
    after[r].identity == owner[r] && after[r].slot == before[r].slot && after[r].kept == before[r].kept
  }

  ghost predicate StandsOn(before: Table, after: Table, owner: map<nat, Id>, copy: bool, r: nat)
    requires r in after
  {
    if copy then exists w :: Carried(before, after, owner, r, w)
    else r in before && after[r].standing == before[r].standing
  }

  /** `after` is `before` with its rows handed to `owner`, one row per slot. With `copy` the surviving row of a slot
      carries the ten columns of some competing row and no competitor ranks higher; without it every surviving row
      keeps its own columns. */
  ghost predicate Image(before: Table, after: Table, owner: map<nat, Id>, copy: bool) {
    && Keeps(before, after, owner)
    && (forall r {:trigger StandsOn(before, after, owner, copy, r)} ::
          r in after ==> StandsOn(before, after, owner, copy, r))
    && (forall r {:trigger Answered(before, after, owner, copy, r)} ::
          r in before ==> Answered(before, after, owner, copy, r))
  }

  lemma StayImage(t: Table, copy: bool)
    requires UniqueSlots(t)
    ensures Image(t, t, Stay(t), copy)
  {
    forall r | r in t
      ensures StandsOn(t, t, Stay(t), copy, r) && Answered(t, t, Stay(t), copy, r)
    {
      assert Carried(t, t, Stay(t), r, r) && Answers(t, t, Stay(t), copy, r, r);
    }
  }

  /** Handing the rows to `g` and then to `h` is handing them to `k`. */
  ghost predicate Composite(a: Table, b: Table, g: map<nat, Id>, h: map<nat, Id>, k: map<nat, Id>)
    requires g.Keys == k.Keys == a.Keys && h.Keys == b.Keys
  {
    forall r0, r1 :: r0 in a && Holds(b, r1, g[r0], a[r0].slot) ==> k[r0] == h[r1]
  }

  lemma ComposeKeeps(a: Table, b: Table, c: Table, g: map<nat, Id>, h: map<nat, Id>, k: map<nat, Id>)
    requires Keeps(a, b, g) && Keeps(b, c, h)
    requires k.Keys == a.Keys && Composite(a, b, g, h, k)
    ensures Keeps(a, c, k)
  {
    forall r | r in c
      ensures KeepsRow(a, c, k, r)
    {
      assert KeepsRow(b, c, h, r) && KeepsRow(a, b, g, r);
      assert Holds(b, r, g[r], a[r].slot);
    }
  }

  lemma ComposeStandsOn(a: Table, b: Table, c: Table, g: map<nat, Id>, h: map<nat, Id>, k: map<nat, Id>, copy: bool,
                        r: nat)
    requires Keeps(a, b, g) && Keeps(b, c, h)
    requires k.Keys == a.Keys && Composite(a, b, g, h, k)
    requires r in c && StandsOn(b, c, h, copy, r)
    requires forall v {:trigger StandsOn(a, b, g, copy, v)} :: v in b ==> StandsOn(a, b, g, copy, v)
    ensures StandsOn(a, c, k, copy, r)
  {
    if copy {
      var v :| Carried(b, c, h, r, v);
      assert StandsOn(a, b, g, copy, v);
      var w :| Carried(a, b, g, v, w);
      assert Holds(b, v, g[w], a[w].slot);
      assert Carried(a, c, k, r, w);
    } else {
      assert StandsOn(a, b, g, copy, r);
    }
  }

  lemma ComposeAnswers(a: Table, b: Table, c: Table, g: map<nat, Id>, h: map<nat, Id>, k: map<nat, Id>, copy: bool,
                       r0: nat)
    requires g.Keys == k.Keys == a.Keys && h.Keys == b.Keys && Composite(a, b, g, h, k)
    requires r0 in a && Answered(a, b, g, copy, r0)
    requires forall r1 {:trigger Answered(b, c, h, copy, r1)} :: r1 in b ==> Answered(b, c, h, copy, r1)
    ensures Answered(a, c, k, copy, r0)
  {
    var r1 :| Answers(a, b, g, copy, r0, r1);
    assert Answered(b, c, h, copy, r1);
    var r2 :| Answers(b, c, h, copy, r1, r2);
    if copy {
      AtMostIsTransitive(RankOf(a[r0].standing), RankOf(b[r1].standing), RankOf(c[r2].standing));
    }
    assert Answers(a, c, k, copy, r0, r2);
  }

  lemma AtMostIsTransitive(x: Rank, y: Rank, z: Rank)
    requires x.AtMost(y) && y.AtMost(z)
    ensures x.AtMost(z)
  {
  }

  lemma Compose(a: Table, b: Table, c: Table, g: map<nat, Id>, h: map<nat, Id>, k: map<nat, Id>, copy: bool)
    requires Image(a, b, g, copy) && Image(b, c, h, copy)
    requires k.Keys == a.Keys && Composite(a, b, g, h, k)
    ensures Image(a, c, k, copy)
  {
    ComposeKeeps(a, b, c, g, h, k);
    forall r | r in c
      ensures StandsOn(a, c, k, copy, r)
    {
      assert StandsOn(b, c, h, copy, r);
      ComposeStandsOn(a, b, c, g, h, k, copy, r);
    }
    forall r0 | r0 in a
      ensures Answered(a, c, k, copy, r0)
    {
      assert Answered(a, b, g, copy, r0);
      ComposeAnswers(a, b, c, g, h, k, copy, r0);
    }
  }

  // --- one row ---

  predicate Beats(row: Snapshot, target: Snapshot) {
    StageRank(row.standing.stage) > StageRank(target.standing.stage)
    || (StageRank(row.standing.stage) == StageRank(target.standing.stage)
        && EventTime(row.standing) > EventTime(target.standing))
  }

  /** The target row after the comparison, as the session's object sees it. */
  function Winner(row: Snapshot, target: Snapshot): Snapshot {
    if Beats(row, target) then target.(standing := row.standing) else target
  }

  /** A row of a later stage beats one of an earlier stage, and a row without a known stage beats none that has one. */
  lemma LaterStageBeats(a: Snapshot, b: Snapshot, i: nat, j: nat)
    requires i < |STAGES| && j < |STAGES| && b.standing.stage == STAGES[j]
    ensures a.standing.stage == STAGES[i] && i > j ==> Beats(a, b) && !Beats(b, a)
    ensures a.standing.stage.Unrecognised? ==> Beats(b, a) && !Beats(a, b)
  {
    StagesAreDistinct(StageRank(b.standing.stage), j);
    if a.standing.stage == STAGES[i] {
      StagesAreDistinct(StageRank(a.standing.stage), i);
    }
  }

  lemma StagesAreDistinct(i: nat, j: nat)
    requires i < |STAGES| && j < |STAGES| && STAGES[i] == STAGES[j]
    ensures i == j
  {
  }

  /** The stages of two rows weigh the same: they are one, or neither is known. */
  predicate SameStage(a: Standing, b: Standing) {
    a.stage == b.stage || (a.stage.Unrecognised? && b.stage.Unrecognised?)
  }

  /** Within a stage the later LAST_EVENT_AT wins; a row without one competes with its STAGE_STARTED_AT, and a row with
      neither beats nobody. */
  lemma LaterEventBeats(a: Snapshot, b: Snapshot)
    requires SameStage(a.standing, b.standing)
    ensures var x, y := a.standing, b.standing;
            && (x.lastEventAt.Some? && y.lastEventAt.Some?
                ==> (Beats(a, b) <==> x.lastEventAt.value > y.lastEventAt.value))
            && (x.lastEventAt.Some? && y.lastEventAt.None? && y.stageStartedAt.Some?
                ==> (Beats(a, b) <==> x.lastEventAt.value > y.stageStartedAt.value))
            && (x.lastEventAt.None? && x.stageStartedAt.Some? && y.lastEventAt.Some?
                ==> (Beats(a, b) <==> x.stageStartedAt.value > y.lastEventAt.value))
            && (x.lastEventAt.None? && x.stageStartedAt.Some? && y.lastEventAt.None? && y.stageStartedAt.Some?
                ==> (Beats(a, b) <==> x.stageStartedAt.value > y.stageStartedAt.value))
            && (x.lastEventAt.None? && x.stageStartedAt.None? ==> !Beats(a, b))
            && (y.lastEventAt.None? && y.stageStartedAt.None? && x.lastEventAt.Some?
                ==> (Beats(a, b) <==> x.lastEventAt.value > 0))
            && (y.lastEventAt.None? && y.stageStartedAt.None? && x.lastEventAt.None? && x.stageStartedAt.Some?
                ==> (Beats(a, b) <==> x.stageStartedAt.value > 0))
  {
  }

  ghost function Reown(t: Table, r: nat, target: Id): map<nat, Id>
    requires r in t
  {
    Stay(t)[r := target]
  }

  lemma MovedKeeps(t: Table, r: nat, target: Id)
    requires UniqueSlots(t) && r in t && !Occupied(t, target, t[r].slot)
    ensures Keeps(t, t[r := t[r].(identity := target)], Reown(t, r, target))
  {
    var after := t[r := t[r].(identity := target)];
    forall a, b | a in after && b in after && after[a].identity == after[b].identity && after[a].slot == after[b].slot
      ensures a == b
    {
      if a == r && b != r { assert !Holds(t, b, target, t[r].slot); }
      if b == r && a != r { assert !Holds(t, a, target, t[r].slot); }
    }
  }

  lemma MovedRow(t: Table, r: nat, target: Id, copy: bool)
    requires UniqueSlots(t) && r in t && !Occupied(t, target, t[r].slot)
    ensures Image(t, t[r := t[r].(identity := target)], Reown(t, r, target), copy)
  {
    MovedKeeps(t, r, target);
    var after := t[r := t[r].(identity := target)];
    forall x | x in t
      ensures StandsOn(t, after, Reown(t, r, target), copy, x) && Answered(t, after, Reown(t, r, target), copy, x)
    {
      assert Carried(t, after, Reown(t, r, target), x, x) && Answers(t, after, Reown(t, r, target), copy, x, x);
    }
  }

  /** The winning row outranks neither competitor strictly less: it is the larger of the two. */
  lemma WinnerOutranks(row: Snapshot, target: Snapshot)
    ensures RankOf(row.standing).AtMost(RankOf(Winner(row, target).standing))
    ensures RankOf(target.standing).AtMost(RankOf(Winner(row, target).standing))
  {
  }

  /** The table once row `r` has lost its slot to `hit`; `copy` says whether the winning columns reach the table. */
  function Absorbed(t: Table, r: nat, hit: nat, copy: bool): Table
    requires r in t && hit in t
  {
    (if copy then t[hit := Winner(t[r], t[hit])] else t) - {r}
  }

  lemma AbsorbedKeeps(t: Table, r: nat, hit: nat, target: Id, copy: bool)
    requires UniqueSlots(t) && r in t && Holds(t, hit, target, t[r].slot) && hit != r
    ensures Keeps(t, Absorbed(t, r, hit, copy), Reown(t, r, target))
  {
    var after := Absorbed(t, r, hit, copy);
    assert forall x ::
             x in after ==> x in t && x != r && after[x].identity == t[x].identity && after[x].slot == t[x].slot;
  }

  lemma AbsorbedStands(t: Table, r: nat, hit: nat, target: Id, copy: bool, x: nat)
    requires r in t && Holds(t, hit, target, t[r].slot) && hit != r
    requires x in t && x != r
    ensures StandsOn(t, Absorbed(t, r, hit, copy), Reown(t, r, target), copy, x)
  {
    if copy {
      var w := if x == hit && Beats(t[r], t[hit]) then r else x;
      assert Carried(t, Absorbed(t, r, hit, copy), Reown(t, r, target), x, w);
    }
  }

  lemma AbsorbedAnswers(t: Table, r: nat, hit: nat, target: Id, copy: bool, x: nat)
    requires r in t && Holds(t, hit, target, t[r].slot) && hit != r
    requires x in t
    ensures Answered(t, Absorbed(t, r, hit, copy), Reown(t, r, target), copy, x)
  {
    WinnerOutranks(t[r], t[hit]);
    var y := if x == r then hit else x;
    assert Answers(t, Absorbed(t, r, hit, copy), Reown(t, r, target), copy, x, y);
  }

  lemma AbsorbedRow(t: Table, r: nat, hit: nat, target: Id, copy: bool)
    requires UniqueSlots(t) && r in t && Holds(t, hit, target, t[r].slot) && hit != r
    ensures Image(t, Absorbed(t, r, hit, copy), Reown(t, r, target), copy)
  {
    AbsorbedKeeps(t, r, hit, target, copy);
    forall x | x in t
      ensures x != r ==> StandsOn(t, Absorbed(t, r, hit, copy), Reown(t, r, target), copy, x)
      ensures Answered(t, Absorbed(t, r, hit, copy), Reown(t, r, target), copy, x)
    {
      if x != r { AbsorbedStands(t, r, hit, target, copy, x); }
      AbsorbedAnswers(t, r, hit, target, copy, x);
    }
  }

  // --- what an image determines ---

  /** The surviving row of a slot ranks exactly as the best of the rows that competed for it. */
  lemma SurvivorIsMaximum(before: Table, after: Table, owner: map<nat, Id>, r: nat)
    requires Image(before, after, owner, true) && r in after
    ensures exists w :: Carried(before, after, owner, r, w)
    ensures forall r0 :: SameSlotAndOwner(before, owner, r0, after[r].identity, after[r].slot) ==>
                           RankOf(before[r0].standing).AtMost(RankOf(after[r].standing))
  {
    assert StandsOn(before, after, owner, true, r);
    forall r0 | SameSlotAndOwner(before, owner, r0, after[r].identity, after[r].slot)
      ensures RankOf(before[r0].standing).AtMost(RankOf(after[r].standing))
    {
      assert Answered(before, after, owner, true, r0);
      var r1 :| Answers(before, after, owner, true, r0, r1);
      assert r1 == r;
    }
  }

  /** No competitor of the surviving row is in a later stage, and none of its stage has had a later last event. */
  lemma SurvivorIsLatest(before: Table, after: Table, owner: map<nat, Id>, r: nat, r0: nat)
    requires Image(before, after, owner, true) && r in after
    requires SameSlotAndOwner(before, owner, r0, after[r].identity, after[r].slot)
    ensures !Beats(before[r0], after[r])
    ensures var x, y := before[r0].standing, after[r].standing;
            SameStage(x, y) && x.lastEventAt.Some? && y.lastEventAt.Some? ==> x.lastEventAt.value <= y.lastEventAt.value
  {
    SurvivorIsMaximum(before, after, owner, r);
    if SameStage(before[r0].standing, after[r].standing) {
      LaterEventBeats(before[r0], after[r]);
    }
  }

  /** A slot is held after the merge exactly when some row competed for it. */
  lemma OccupiedIffContested(before: Table, after: Table, owner: map<nat, Id>, copy: bool, id: Id, slot: Slot)
    requires Image(before, after, owner, copy)
    ensures Occupied(after, id, slot) <==> exists r :: SameSlotAndOwner(before, owner, r, id, slot)
  {
    if Occupied(after, id, slot) {
      var r :| Holds(after, r, id, slot);
      assert KeepsRow(before, after, owner, r);
      assert SameSlotAndOwner(before, owner, r, id, slot);
    }
    if r :| SameSlotAndOwner(before, owner, r, id, slot) {
      assert Answered(before, after, owner, copy, r);
      var r1 :| Answers(before, after, owner, copy, r, r1);
      assert Holds(after, r1, id, slot);
    }
  }

  /** Two runs that end with the same owners agree on every slot's rank, whatever order they merged in. */
  lemma OrderDoesNotMatter(before: Table, a: Table, b: Table, owner: map<nat, Id>, ra: nat, rb: nat)
    requires Image(before, a, owner, true) && Image(before, b, owner, true)
    requires ra in a && Holds(b, rb, a[ra].identity, a[ra].slot)
    ensures RankOf(a[ra].standing) == RankOf(b[rb].standing)
  {
    SurvivorIsMaximum(before, a, owner, ra);
    SurvivorIsMaximum(before, b, owner, rb);
    var wa :| Carried(before, a, owner, ra, wa);
    var wb :| Carried(before, b, owner, rb, wb);
    assert SameSlotAndOwner(before, owner, wa, b[rb].identity, b[rb].slot);
    assert SameSlotAndOwner(before, owner, wb, a[ra].identity, a[ra].slot);
    AtMostIsAntisymmetric(RankOf(a[ra].standing), RankOf(b[rb].standing));
  }

  lemma AtMostIsAntisymmetric(x: Rank, y: Rank)
    requires x.AtMost(y) && y.AtMost(x)
    ensures x == y
  {
  }

  /** When no two competitors tie, the two runs agree on all ten columns and not only on the rank. */
  lemma WithoutTiesColumnsAgree(before: Table, a: Table, b: Table, owner: map<nat, Id>, ra: nat, rb: nat)
    requires Image(before, a, owner, true) && Image(before, b, owner, true)
    requires ra in a && Holds(b, rb, a[ra].identity, a[ra].slot)
    requires forall v, w ::
               (SameSlotAndOwner(before, owner, v, a[ra].identity, a[ra].slot)
                && SameSlotAndOwner(before, owner, w, a[ra].identity, a[ra].slot)
                && RankOf(before[v].standing) == RankOf(before[w].standing)) ==> v == w
    ensures a[ra].standing == b[rb].standing
  {
    OrderDoesNotMatter(before, a, b, owner, ra, rb);
    assert StandsOn(before, a, owner, true, ra) && StandsOn(before, b, owner, true, rb);
    var wa :| Carried(before, a, owner, ra, wa);
    var wb :| Carried(before, b, owner, rb, wb);
    assert wa == wb;
  }

  // --- all rows of one identity ---

  /** Owners of the rows when everything of `f`'s keys has been handed over. */
  ghost function RowOwners(t: Table, f: map<Id, Id>): map<nat, Id> {
    map r | r in t :: Own(f, t[r].identity)
  }

  /** The slot of row `r0` still ranks at least as high under the survivor of the row's identity. */
  ghost predicate RankKept(t: Table, after: Table, owner: map<Id, Id>, r0: nat) {
    exists r1 :: KeepsRank(t, after, owner, r0, r1)
  }

  ghost predicate KeepsRank(t: Table, after: Table, owner: map<Id, Id>, r0: nat, r1: nat) {
    r0 in t && Holds(after, r1, Own(owner, t[r0].identity), t[r0].slot)
    && RankOf(t[r0].standing).AtMost(RankOf(after[r1].standing))
  }

  /** Owners midway: the source rows in `todo` have not been visited yet. */
  ghost function Midway(t: Table, source: Id, target: Id, todo: set<nat>): map<nat, Id> {
    map r | r in t :: if t[r].identity == source && r !in todo then target else t[r].identity
  }

  function RowsOf(t: Table, id: Id): set<nat> {
    set r | r in t && t[r].identity == id
  }

  lemma VisitComposite(before: Table, t: Table, source: Id, target: Id, todo: set<nat>, r: nat)
    requires UniqueSlots(before) && UniqueSlots(t) && source != target
    requires r in todo && r in t && r in before && t[r].identity == before[r].identity == source
    requires t[r].slot == before[r].slot
    ensures Composite(before, t, Midway(before, source, target, todo), Reown(t, r, target),
                      Midway(before, source, target, todo - {r}))
  {
    var g := Midway(before, source, target, todo);
    forall r0, r1 | r0 in before && Holds(t, r1, g[r0], before[r0].slot)
      ensures Midway(before, source, target, todo - {r})[r0] == Reown(t, r, target)[r1]
    {
      if r1 == r {
        assert r0 == r;
      } else if r0 == r {
        assert false;
      }
    }
  }

  /** One visited source row carries the image of the loop one row further. */
  lemma VisitRow(before: Table, t: Table, next: Table, source: Id, target: Id, todo: set<nat>, r: nat, copy: bool)
    requires UniqueSlots(before) && source != target
    requires r in todo && r in t && r in before && t[r].identity == before[r].identity == source
    requires t[r].slot == before[r].slot
    requires Image(before, t, Midway(before, source, target, todo), copy)
    requires Image(t, next, Reown(t, r, target), copy)
    ensures Image(before, next, Midway(before, source, target, todo - {r}), copy)
  {
    VisitComposite(before, t, source, target, todo, r);
    Compose(before, t, next, Midway(before, source, target, todo), Reown(t, r, target),
            Midway(before, source, target, todo - {r}), copy);
  }

  /** The source rows still to be visited are as they were. */
  ghost predicate Untouched(before: Table, t: Table, source: Id, todo: set<nat>) {
    forall r :: r in todo ==> r in before && r in t && t[r] == before[r] && before[r].identity == source
  }

  lemma VisitMoved(before: Table, t: Table, source: Id, target: Id, todo: set<nat>, r: nat, copy: bool)
    requires UniqueSlots(before) && source != target && r in todo
    requires Image(before, t, Midway(before, source, target, todo), copy) && Untouched(before, t, source, todo)
    requires !Occupied(t, target, t[r].slot)
    ensures Image(before, t[r := t[r].(identity := target)], Midway(before, source, target, todo - {r}), copy)
  {
    MovedRow(t, r, target, copy);
    VisitRow(before, t, t[r := t[r].(identity := target)], source, target, todo, r, copy);
  }

  lemma VisitAbsorbed(before: Table, t: Table, source: Id, target: Id, todo: set<nat>, r: nat, hit: nat, copy: bool)
    requires UniqueSlots(before) && source != target && r in todo
    requires Image(before, t, Midway(before, source, target, todo), copy) && Untouched(before, t, source, todo)
    requires Holds(t, hit, target, t[r].slot)
    ensures Image(before, Absorbed(t, r, hit, copy), Midway(before, source, target, todo - {r}), copy)
  {
    AbsorbedRow(t, r, hit, target, copy);
    VisitRow(before, t, Absorbed(t, r, hit, copy), source, target, todo, r, copy);
  }

  lemma StayMidway(t: Table, source: Id, target: Id, copy: bool)
    requires UniqueSlots(t)
    ensures Image(t, t, Midway(t, source, target, RowsOf(t, source)), copy)
  {
    assert Midway(t, source, target, RowsOf(t, source)) == Stay(t);
    StayImage(t, copy);
  }

  // --- which columns a row ends with ---

  /** Row `s` of the source, visited already, holds the slot of row `r` and beats it. */
  ghost predicate BeatenBy(t: Table, r: nat, s: nat, source: Id, todo: set<nat>)
    requires r in t
  {
    s !in todo && Holds(t, s, source, t[r].slot) && Beats(t[s], t[r])
  }

  /** `standing` is what row `h` ends with: the columns of the source row that beats it, or else its own. */
  ghost predicate EndsWith(before: Table, standing: Standing, h: nat, source: Id, target: Id, todo: set<nat>)
    requires h in before
  {
    && (forall w ::
          before[h].identity == target && BeatenBy(before, h, w, source, todo) ==> standing == before[w].standing)
    && ((forall w :: !(before[h].identity == target && BeatenBy(before, h, w, source, todo)))
        ==> standing == before[h].standing)
  }

  ghost predicate Columns(before: Table, t: Table, source: Id, target: Id, todo: set<nat>) {
    forall h :: h in t ==> h in before && EndsWith(before, t[h].standing, h, source, target, todo)
  }

  lemma ColumnsStart(t: Table, source: Id, target: Id)
    ensures Columns(t, t, source, target, RowsOf(t, source))
  {
  }

  /** A row that `r` does not beat ends with the same columns before and after the visit of `r`. */
  lemma EndsAsBefore(before: Table, standing: Standing, h: nat, source: Id, target: Id, todo: set<nat>, r: nat)
    requires h in before && EndsWith(before, standing, h, source, target, todo)
    requires before[h].identity == target ==> !BeatenBy(before, h, r, source, {})
    ensures EndsWith(before, standing, h, source, target, todo - {r})
  {
    forall w
      ensures before[h].identity == target && BeatenBy(before, h, w, source, todo - {r})
              <==> before[h].identity == target && BeatenBy(before, h, w, source, todo)
    {
    }
  }

  lemma ColumnsMove(before: Table, t: Table, source: Id, target: Id, todo: set<nat>, r: nat)
    requires Columns(before, t, source, target, todo) && Untouched(before, t, source, todo) && r in todo
    requires source != target
    requires Keeps(before, t, Midway(before, source, target, todo)) && !Occupied(t, target, t[r].slot)
    requires forall q :: q in before && before[q].identity != source ==> q in t
    ensures Columns(before, t[r := t[r].(identity := target)], source, target, todo - {r})
  {
    var next := t[r := t[r].(identity := target)];
    forall h | h in next
      ensures h in before && EndsWith(before, next[h].standing, h, source, target, todo - {r})
    {
      if before[h].identity == target {
        assert KeepsRow(before, t, Midway(before, source, target, todo), h);
        assert !Holds(t, h, target, t[r].slot);
      }
      EndsAsBefore(before, next[h].standing, h, source, target, todo, r);
    }
  }

  lemma ColumnsAbsorb(before: Table, t: Table, source: Id, target: Id, todo: set<nat>, r: nat, hit: nat)
    requires Columns(before, t, source, target, todo) && Untouched(before, t, source, todo) && r in todo
    requires source != target
    requires Keeps(before, t, Midway(before, source, target, todo)) && Holds(t, hit, target, t[r].slot)
    requires UniqueSlots(before)
    ensures Columns(before, Absorbed(t, r, hit, true), source, target, todo - {r})
  {
    var next := Absorbed(t, r, hit, true);
    assert KeepsRow(before, t, Midway(before, source, target, todo), hit);
    assert before[hit].identity == target by {
      assert before[hit].identity == source ==> Holds(before, hit, source, before[r].slot);
    }
    forall h | h in next
      ensures h in before && EndsWith(before, next[h].standing, h, source, target, todo - {r})
    {
      if h == hit {
        HitEnds(before, t, source, target, todo, r, hit);
      } else {
        assert KeepsRow(before, t, Midway(before, source, target, todo), h);
        if before[h].identity == target {
          assert !Holds(t, h, target, t[r].slot);
        }
        EndsAsBefore(before, next[h].standing, h, source, target, todo, r);
      }
    }
  }

  /** The holder of the slot has its own columns until its only competitor is visited. */
  lemma HitEnds(before: Table, t: Table, source: Id, target: Id, todo: set<nat>, r: nat, hit: nat)
    requires UniqueSlots(before) && hit in before && hit in t && r in todo && r in before && r in t && t[r] == before[r]
    requires before[hit].identity == target && t[hit].slot == before[hit].slot == before[r].slot
    requires before[r].identity == source
    requires EndsWith(before, t[hit].standing, hit, source, target, todo)
    ensures EndsWith(before, Winner(t[r], t[hit]).standing, hit, source, target, todo - {r})
  {
    forall w
      ensures Holds(before, w, source, before[hit].slot) ==> w == r
    {
    }
    assert t[hit].standing == before[hit].standing;
    if Beats(t[r], t[hit]) {
      assert BeatenBy(before, hit, r, source, todo - {r});
    }
  }
}
