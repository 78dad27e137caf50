/** scripts/merge_duplicate_ref_identities.py: merging identities that share an external reference. */
module MergeDuplicateRefs {
  import opened Wrappers
  import opened Lifecycle
  import opened SnapshotMerge
  import opened Links
  import opened RefQuotient
  import opened Succession
  import opened Sessions
  import opened RunTotals

  // --- lifecycle rows of one pair, through loaded objects ---

  /** Source rows whose slot the target already holds: they will be deleted. */
  ghost function Lost(t: Table, source: Id, target: Id): set<nat> {
    set r | r in t && t[r].identity == source && Occupied(t, target, t[r].slot)
  }

  /** A pending change is a source row on its way to a free slot or a target row beaten by a visited source row. */
  ghost predicate PendingRow(t: Table, r: nat, row: Snapshot, source: Id, target: Id, todo: set<nat>) {
    r in t && r !in todo &&
    ((t[r].identity == source && !Occupied(t, target, t[r].slot) && row == t[r].(identity := target))
     || (t[r].identity == target
         && exists s :: BeatenBy(t, r, s, source, todo) && row == t[r].(standing := t[s].standing)))
  }

  /** The target row `h` is beaten by a visited source row. */
  ghost predicate Beaten(t: Table, h: nat, source: Id, target: Id, todo: set<nat>) {
    h in t && t[h].identity == target && exists s :: BeatenBy(t, h, s, source, todo)
  }

  ghost predicate FreeToMove(t: Table, r: nat, source: Id, target: Id) {
    r in t && t[r].identity == source && !Occupied(t, target, t[r].slot)
  }

  /** Without autoflush nothing is written; pending changes accumulate for the visited rows. */
  ghost predicate DeferredMidway(before: UnitOfWork, after: UnitOfWork, source: Id, target: Id, todo: set<nat>) {
    && todo <= RowsOf(before.stored, source)
    && after.stored == before.stored
    && after.doomed == before.doomed + (Lost(before.stored, source, target) - todo)
    && (forall r :: r in after.dirty ==> PendingRow(before.stored, r, after.dirty[r], source, target, todo))
    && (forall r :: FreeToMove(before.stored, r, source, target) && r !in todo ==> r in after.dirty)
    && (forall h :: Beaten(before.stored, h, source, target, todo) ==> h in after.dirty)
  }

  /** Without autoflush a merge of two identities writes nothing: it only adds pending changes. */
  ghost predicate Deferred(before: UnitOfWork, after: UnitOfWork, source: Id, target: Id) {
    DeferredMidway(before, after, source, target, {})
  }

  lemma DeferMove(before: UnitOfWork, u: UnitOfWork, source: Id, target: Id, todo: set<nat>, r: nat)
    requires UniqueSlots(before.stored) && source != target && r in todo
    requires DeferredMidway(before, u, source, target, todo) && !Occupied(before.stored, target, before.stored[r].slot)
    ensures DeferredMidway(before, u.(dirty := u.dirty[r := before.stored[r].(identity := target)]), source, target,
                           todo - {r})
  {
    DeferEarlier(before, u, source, target, todo, r);
    forall h
      ensures Beaten(before.stored, h, source, target, todo - {r}) ==> Beaten(before.stored, h, source, target, todo)
    {
      BeatenLater(before.stored, h, source, target, todo, r);
    }
  }

  /** Visiting `r` makes no row beaten but the holder of its slot, and that one only if it is beaten by `r`. */
  lemma BeatenLater(t: Table, h: nat, source: Id, target: Id, todo: set<nat>, r: nat)
    requires r in t && t[r].identity == source
    ensures Beaten(t, h, source, target, todo - {r})
            ==> Beaten(t, h, source, target, todo) || (Holds(t, h, target, t[r].slot) && Beats(t[r], t[h]))
  {
    if Beaten(t, h, source, target, todo - {r}) {
      var s :| BeatenBy(t, h, s, source, todo - {r});
      assert s != r ==> BeatenBy(t, h, s, source, todo);
    }
  }

  /** What was pending before `r` was visited is still pending. */
  lemma DeferEarlier(before: UnitOfWork, u: UnitOfWork, source: Id, target: Id, todo: set<nat>, r: nat)
    requires DeferredMidway(before, u, source, target, todo)
    ensures forall x :: x in u.dirty ==> PendingRow(before.stored, x, u.dirty[x], source, target, todo - {r})
  {
    forall x | x in u.dirty
      ensures PendingRow(before.stored, x, u.dirty[x], source, target, todo - {r})
    {
      assert PendingRow(before.stored, x, u.dirty[x], source, target, todo);
      if before.stored[x].identity == target && before.stored[x].identity != source {
        var s :| BeatenBy(before.stored, x, s, source, todo)
                 && u.dirty[x] == before.stored[x].(standing := before.stored[s].standing);
        assert BeatenBy(before.stored, x, s, source, todo - {r});
      }
    }
  }

  lemma DeferAbsorb(before: UnitOfWork, u: UnitOfWork, source: Id, target: Id, todo: set<nat>, r: nat, hit: nat)
    requires UniqueSlots(before.stored) && source != target && r in todo
    requires DeferredMidway(before, u, source, target, todo) && Holds(before.stored, hit, target, before.stored[r].slot)
    ensures hit !in u.dirty
    ensures !Beats(before.stored[r], before.stored[hit]) ==>
              DeferredMidway(before, u.(doomed := u.doomed + {r}), source, target, todo - {r})
    ensures Beats(before.stored[r], before.stored[hit]) ==>
              DeferredMidway(before,
                             UnitOfWork(u.stored, u.dirty[hit := Winner(before.stored[r], before.stored[hit])],
                                        u.doomed + {r}),
                             source, target, todo - {r})
  {
    assert r in Lost(before.stored, source, target);
    DeferEarlier(before, u, source, target, todo, r);
    forall h
      ensures Beaten(before.stored, h, source, target, todo - {r})
              ==> Beaten(before.stored, h, source, target, todo)
                  || (h == hit && Beats(before.stored[r], before.stored[hit]))
    {
      BeatenLater(before.stored, h, source, target, todo, r);
    }
    if Beats(before.stored[r], before.stored[hit]) {
      assert BeatenBy(before.stored, hit, r, source, todo - {r});
    }
  }

  // --- both ways of flushing ---

  /** The loop of `MergeSnapshots` with the source rows of `todo` still to visit. */
  ghost predicate Merging(autoflush: bool, start: UnitOfWork, u: UnitOfWork, source: Id, target: Id, todo: set<nat>) {
    var before := start.BeforeStatement(autoflush).stored;
    && UniqueSlots(before)
    && todo <= RowsOf(before, source)
    && (autoflush ==> Image(before, u.Written(), Midway(before, source, target, todo), true))
    && (autoflush ==> Untouched(before, u.Written(), source, todo))
    && (!autoflush ==> DeferredMidway(start, u, source, target, todo))
  }

  lemma MergingStarts(autoflush: bool, start: UnitOfWork, source: Id, target: Id)
    requires UniqueSlots(start.BeforeStatement(autoflush).stored)
    requires !autoflush ==> start.dirty == map[]
    ensures var u := start.BeforeStatement(autoflush);
            Merging(autoflush, start, u, source, target, RowsOf(u.stored, source))
  {
    var u := start.BeforeStatement(autoflush);
    if autoflush {
      u.CleanIsWritten();
      StayMidway(u.stored, source, target, true);
    }
  }

  function AfterMove(u: UnitOfWork, r: nat, target: Id): UnitOfWork
    requires r in u.stored
  {
    u.(dirty := u.dirty[r := u.stored[r].(identity := target)])
  }

  function AfterAbsorb(u: UnitOfWork, r: nat, hit: nat): UnitOfWork
    requires r in u.stored && hit in u.stored
  {
    UnitOfWork(u.stored,
               if Beats(u.stored[r], u.stored[hit]) then u.dirty[hit := Winner(u.stored[r], u.stored[hit])]
               else u.dirty,
               u.doomed + {r})
  }

  lemma MoveIsWritten(u: UnitOfWork, r: nat, target: Id)
    requires u.Clean() && r in u.stored
    ensures AfterMove(u, r, target).Written() == u.stored[r := u.stored[r].(identity := target)]
  {
  }

  lemma AbsorbIsWritten(u: UnitOfWork, r: nat, hit: nat)
    requires u.Clean() && r in u.stored && hit in u.stored
    ensures AfterAbsorb(u, r, hit).Written() == Absorbed(u.stored, r, hit, true)
  {
  }

  lemma UntouchedByOne(before: Table, t: Table, next: Table, source: Id, todo: set<nat>, r: nat, hit: nat)
    requires Untouched(before, t, source, todo) && hit !in todo - {r}
    requires forall x :: x in t && x != r && x != hit ==> x in next && next[x] == t[x]
    ensures Untouched(before, next, source, todo - {r})
  {
  }

  /** The free row `r` has been assigned to the target. */
  lemma MergingMoves(autoflush: bool, start: UnitOfWork, u: UnitOfWork, source: Id, target: Id, todo: set<nat>, r: nat)
    requires source != target && r in todo && Merging(autoflush, start, u, source, target, todo)
    requires var now := u.BeforeStatement(autoflush);
             r in now.stored && !Occupied(now.stored, target, now.stored[r].slot)
    ensures Merging(autoflush, start, AfterMove(u.BeforeStatement(autoflush), r, target), source, target, todo - {r})
  {
    var now := u.BeforeStatement(autoflush);
    if autoflush {
      MoveIsWritten(now, r, target);
      VisitMoved(start.Written(), now.stored, source, target, todo, r, true);
      UntouchedByOne(start.Written(), now.stored, AfterMove(now, r, target).Written(), source, todo, r, r);
    } else {
      DeferMove(start, u, source, target, todo, r);
    }
  }

  lemma AbsorbLeavesRest(before: Table, t: Table, source: Id, target: Id, todo: set<nat>, r: nat, hit: nat)
    requires source != target && r in todo && Untouched(before, t, source, todo)
    requires r in t && Holds(t, hit, target, t[r].slot)
    ensures Untouched(before, Absorbed(t, r, hit, true), source, todo - {r})
  {
    assert hit !in todo;
    UntouchedByOne(before, t, Absorbed(t, r, hit, true), source, todo, r, hit);
  }

  lemma AbsorbsWritten(before: Table, u: UnitOfWork, source: Id, target: Id, todo: set<nat>, r: nat, hit: nat)
    requires source != target && r in todo && u.Clean() && UniqueSlots(before)
    requires Image(before, u.stored, Midway(before, source, target, todo), true)
    requires Untouched(before, u.stored, source, todo)
    requires r in u.stored && Holds(u.stored, hit, target, u.stored[r].slot)
    ensures Image(before, AfterAbsorb(u, r, hit).Written(), Midway(before, source, target, todo - {r}), true)
  {
    AbsorbIsWritten(u, r, hit);
    VisitAbsorbed(before, u.stored, source, target, todo, r, hit, true);
  }

  /** Row `r` has lost its slot to `hit` and is marked deleted. */
  lemma MergingAbsorbs(autoflush: bool, start: UnitOfWork, u: UnitOfWork, source: Id, target: Id, todo: set<nat>,
                       r: nat, hit: nat)
    requires source != target && r in todo && Merging(autoflush, start, u, source, target, todo)
    requires var now := u.BeforeStatement(autoflush);
             r in now.stored && Holds(now.stored, hit, target, now.stored[r].slot)
    ensures hit !in u.BeforeStatement(autoflush).dirty
    ensures Merging(autoflush, start, AfterAbsorb(u.BeforeStatement(autoflush), r, hit), source, target, todo - {r})
  {
    if autoflush {
      AbsorbsWritten(start.Written(), u.Flush(), source, target, todo, r, hit);
      AbsorbIsWritten(u.Flush(), r, hit);
      AbsorbLeavesRest(start.Written(), u.Written(), source, target, todo, r, hit);
    } else {
      DeferAbsorb(start, u, source, target, todo, r, hit);
    }
  }

  /** A row of the loop is as loaded: no pending change hides it. */
  lemma MergingLoads(autoflush: bool, start: UnitOfWork, u: UnitOfWork, source: Id, target: Id, todo: set<nat>, r: nat)
    requires r in todo && Merging(autoflush, start, u, source, target, todo)
    ensures var now := u.BeforeStatement(autoflush); r in now.stored && r !in now.dirty
  {
    if !autoflush {
      assert r in u.dirty ==> PendingRow(start.stored, r, u.dirty[r], source, target, todo);
    }
  }

  /** `_merge_snapshots` of this script: every change goes through a loaded object and waits for a flush. */
  method MergeSnapshots(db: Session, source: Id, target: Id) returns (moved: nat, deleted: nat)
    requires source != target
    requires UniqueSlots(db.rows.BeforeStatement(db.autoflush).stored)
    requires !db.autoflush ==> db.rows.dirty == map[]
    modifies db`rows
    ensures Merging(db.autoflush, old(db.rows), db.rows, source, target, {})
    ensures moved + deleted == |RowsOf(old(db.rows).BeforeStatement(db.autoflush).stored, source)|
  {
    hide Merging;
    ghost var start := db.rows;
    MergingStarts(db.autoflush, start, source, target);
    db.Autoflush();
    var todo := RowsOf(db.rows.stored, source);
    moved, deleted := 0, 0;
    while todo != {}
      invariant Merging(db.autoflush, start, db.rows, source, target, todo)
      invariant moved + deleted + |todo| == |RowsOf(start.BeforeStatement(db.autoflush).stored, source)|
      decreases todo
    {
      var r :| r in todo;
      MergingLoads(db.autoflush, start, db.rows, source, target, todo, r);
      ghost var u := db.rows;
      db.Autoflush();
      var row := db.rows.Load(r);
      var hits := set h | h in db.rows.stored && Holds(db.rows.stored, h, target, row.slot);
      if hits == {} {
        assert forall h :: Holds(db.rows.stored, h, target, row.slot) ==> h in hits;
        MergingMoves(db.autoflush, start, u, source, target, todo, r);
        db.rows := db.rows.(dirty := db.rows.dirty[r := row.(identity := target)]);
        moved := moved + 1;
      } else {
        var hit :| hit in hits;
        MergingAbsorbs(db.autoflush, start, u, source, target, todo, r, hit);
        if Beats(row, db.rows.Load(hit)) {
          db.rows := db.rows.(dirty := db.rows.dirty[hit := Winner(row, db.rows.Load(hit))]);
        }
        db.rows := db.rows.(doomed := db.rows.doomed + {r});
        deleted := deleted + 1;
      }
      todo := todo - {r};
    }
  }

  // --- one pair of identities ---

  datatype MergeCounts = MergeCounts(groups: nat, identities: nat, events: nat, rows: nat, refs: nat)

  const MERGED_TABLES: set<OwnedTable> := {LifecycleEvents, DownloadHistory, TransferHistory, SearchResults}

  /** What merging one identity into another does to the lifecycle rows of the session. */
  ghost predicate RowsMerged(autoflush: bool, before: UnitOfWork, after: UnitOfWork, source: Id, target: Id) {
    if autoflush then Image(before.Written(), after.Written(), RowOwners(before.Written(), map[source := target]), true)
    else Deferred(before.(dirty := map[]), after, source, target)
  }

  lemma ArrivedOwners(before: Table, after: Table, source: Id, target: Id)
    requires Image(before, after, Midway(before, source, target, {}), true)
    ensures Image(before, after, RowOwners(before, map[source := target]), true)
  {
    assert Midway(before, source, target, {}) == RowOwners(before, map[source := target]);
  }

  lemma RowsMergedInFull(autoflush: bool, before: UnitOfWork, u: UnitOfWork, source: Id, target: Id)
    requires Merging(autoflush, before.BeforeStatement(autoflush).(dirty := map[]), u, source, target, {})
    ensures RowsMerged(autoflush, before, u.BeforeStatement(autoflush), source, target)
  {
    if autoflush {
      var start := before.Flush();
      assert start.(dirty := map[]) == start;
      start.CleanIsWritten();
      u.FlushKeepsWritten();
      ArrivedOwners(before.Written(), u.Written(), source, target);
    }
  }

  /** The four bulk updates of the inner loop. */
  method RepointMerged(db: Session, source: Id, target: Id) returns (events: nat, histories: nat)
    requires source != target
    requires db.rows.BeforeStatement(db.autoflush) == db.rows
    modifies db`rows, db`owned
    ensures db.rows == old(db.rows)
    ensures db.owned == Repoint(old(db.owned), MERGED_TABLES, source, target)
    ensures events == |OwnedBy(old(db.owned), LifecycleEvents, source)|
    ensures histories
            == |OwnedBy(old(db.owned), DownloadHistory, source)| + |OwnedBy(old(db.owned), TransferHistory, source)|
                         + |OwnedBy(old(db.owned), SearchResults, source)|
  {
    ghost var owned0 := db.owned;
    events := db.UpdateOwned(LifecycleEvents, source, target);
    OwnedElsewhere(owned0, LifecycleEvents, source, target);
    ghost var owned1 := db.owned;
    var downloads := db.UpdateOwned(DownloadHistory, source, target);
    OwnedElsewhere(owned1, DownloadHistory, source, target);
    ghost var owned2 := db.owned;
    var transfers := db.UpdateOwned(TransferHistory, source, target);
    OwnedElsewhere(owned2, TransferHistory, source, target);
    var searches := db.UpdateOwned(SearchResults, source, target);
    RepointMergedTables(owned0, source, target);
    histories := downloads + transfers + searches;
  }

  lemma RepointMergedTables(rows: OwnedRows, source: Id, target: Id)
    requires source != target
    ensures Repoint(Repoint(Repoint(Repoint(rows, {LifecycleEvents}, source, target),
                                    {DownloadHistory}, source, target),
                            {TransferHistory}, source, target), {SearchResults}, source, target)
            == Repoint(rows, MERGED_TABLES, source, target)
  {
  }

  /** The body of the script's inner loop: everything `source` owns goes to `target` and `source` is deleted. */
  method MergePair(db: Session, source: Id, target: Id, counts: MergeCounts) returns (after: MergeCounts)
    requires source != target
    requires UniqueSlots(db.rows.BeforeStatement(db.autoflush).stored)
    modifies db`rows, db`refs, db`identities, db`owned
    ensures PairMerged(db.autoflush, old(ViewOf(db)), ViewOf(db), source, target)
    ensures db.identities == old(db.identities) - {source}
    ensures after == MergeCounts(
                       counts.groups,
                       counts.identities + 1,
                       counts.events + |OwnedBy(old(db.owned), LifecycleEvents, source)|,
                       counts.rows + |OwnedBy(old(db.owned), DownloadHistory, source)|
                       + |OwnedBy(old(db.owned), TransferHistory, source)|
                       + |OwnedBy(old(db.owned), SearchResults, source)|
                       + |RowsOf(old(db.rows).BeforeStatement(db.autoflush).stored, source)|,
                       counts.refs + |RefsOf(old(db.refs), source)|)
  {
    ghost var rows0 := db.rows;
    var refs := db.MoveRefs(source, target);
    db.ExpireAll();
    db.rows.CleanIsWritten();
    var events, histories := RepointMerged(db, source, target);
    var moved, deleted := MergeSnapshots(db, source, target);
    RowsMergedInFull(db.autoflush, rows0, db.rows, source, target);
    db.DeleteIdentity(source);
    after := MergeCounts(counts.groups, counts.identities + 1, counts.events + events,
                         counts.rows + histories + (moved + deleted), counts.refs + refs);
  }

  /** Re-pointing one table does not change which rows of another table belong to an identity. */
  lemma OwnedElsewhere(rows: OwnedRows, table: OwnedTable, source: Id, target: Id)
    ensures forall other ::
              other != table
              ==> OwnedBy(Repoint(rows, {table}, source, target), other, source) == OwnedBy(rows, other, source)
  {
  }

  // --- the whole run ---

  ghost function AllLost(t: Table, merges: seq<Merged>): set<nat> {
    if merges == [] then {}
    else AllLost(t, merges[..|merges| - 1]) + Lost(t, merges[|merges| - 1].source, merges[|merges| - 1].target)
  }

  /** Without autoflush the stored rows stay as they were, every collision so far is marked deleted, and only the
      changes of the last merge are still pending. */
  ghost predicate Postponed(t: Table, rows: UnitOfWork, merges: seq<Merged>) {
    && rows.stored == t
    && rows.doomed == AllLost(t, merges)
    && (merges == [] ==> rows.dirty == map[])
    && (merges != [] ==> PendingExactly(t, rows.dirty, merges[|merges| - 1].source, merges[|merges| - 1].target))
  }

  ghost predicate PendingExactly(t: Table, dirty: Table, source: Id, target: Id) {
    && (forall r :: r in dirty ==> PendingRow(t, r, dirty[r], source, target, {}))
    && (forall r :: FreeToMove(t, r, source, target) ==> r in dirty)
    && (forall h :: Beaten(t, h, source, target, {}) ==> h in dirty)
  }

  /** The lifecycle rows midway through a run that started from the stored rows `t`. */
  ghost predicate RowsSoFar(autoflush: bool, t: Table, rows: UnitOfWork, owner: map<Id, Id>, merges: seq<Merged>) {
    if autoflush then Image(t, rows.Written(), RowOwners(t, owner), true) else Postponed(t, rows, merges)
  }

  lemma RowsStart(autoflush: bool, t: Table, owner: map<Id, Id>)
    requires UniqueSlots(t) && forall x :: x in owner ==> owner[x] == x
    ensures RowsSoFar(autoflush, t, UnitOfWork(t, map[], {}), owner, [])
  {
    UnitOfWork(t, map[], {}).CleanIsWritten();
    assert RowOwners(t, owner) == Stay(t);
    StayImage(t, true);
  }

  lemma WrittenStep(t: Table, now: Table, next: Table, owner: map<Id, Id>, after: map<Id, Id>, source: Id, target: Id)
    requires Image(t, now, RowOwners(t, owner), true)
    requires Image(now, next, RowOwners(now, map[source := target]), true)
    requires forall x :: Own(after, x) == Own(map[source := target], Own(owner, x))
    ensures Image(t, next, RowOwners(t, after), true)
  {
    Compose(t, now, next, RowOwners(t, owner), RowOwners(now, map[source := target]), RowOwners(t, after), true);
  }

  lemma PostponedStep(t: Table, rows: UnitOfWork, next: UnitOfWork, merges: seq<Merged>, source: Id, target: Id)
    requires Postponed(t, rows, merges) && RowsMerged(false, rows, next, source, target)
    ensures Postponed(t, next, merges + [Merged(source, target)])
  {
    assert (merges + [Merged(source, target)])[..|merges|] == merges;
    hide PendingRow;
    hide FreeToMove;
    hide Beaten;
    hide Lost;
  }

  lemma RowsStep(autoflush: bool, t: Table, rows: UnitOfWork, next: UnitOfWork, owner: map<Id, Id>, after: map<Id, Id>,
                 merges: seq<Merged>, source: Id, target: Id)
    requires RowsSoFar(autoflush, t, rows, owner, merges) && RowsMerged(autoflush, rows, next, source, target)
    requires forall x :: Own(after, x) == Own(map[source := target], Own(owner, x))
    ensures RowsSoFar(autoflush, t, next, after, merges + [Merged(source, target)])
  {
    hide Postponed;
    hide Image;
    if autoflush {
      WrittenStep(t, rows.Written(), next.Written(), owner, after, source, target);
    } else {
      PostponedStep(t, rows, next, merges, source, target);
    }
  }

  lemma RowsUnique(autoflush: bool, t: Table, rows: UnitOfWork, owner: map<Id, Id>, merges: seq<Merged>)
    requires UniqueSlots(t) && RowsSoFar(autoflush, t, rows, owner, merges)
    ensures UniqueSlots(rows.BeforeStatement(autoflush).stored)
  {
  }

  type Pair = (string, string)

  function PairOf(ref: ExternalRef): Pair {
    (ref.provider, ref.externalId)
  }

  /** The identities, references and histories midway through a run. */
  ghost predicate RunSoFar(refs0: RefTable, ids0: set<Id>, owned0: OwnedRows, refs: RefTable, ids: set<Id>,
                           owned: OwnedRows, owner: map<Id, Id>) {
    && RefImage(refs0, refs, owner)
    && Collapse(ids0, ids, owner)
    && OnlyLinked(refs0, ids0, owner)
    && owned == Redirected(owned0, MERGED_TABLES, owner)
  }

  lemma RunStart(refs0: RefTable, ids0: set<Id>, owned0: OwnedRows)
    ensures RunSoFar(refs0, ids0, owned0, refs0, ids0, owned0, map x | x in ids0 :: x)
  {
    var owner := map x | x in ids0 :: x;
    RefStay(refs0, owner);
    forall x | x in ids0
      ensures Linked(refs0, ids0, x, x)
    {
      ReachesSelf(SharedRefs(refs0, ids0), x);
    }
  }

  lemma RunStep(refs0: RefTable, ids0: set<Id>, owned0: OwnedRows, refs: RefTable, next: RefTable, ids: set<Id>,
                owned: OwnedRows, owner: map<Id, Id>, source: Id, target: Id, pair: Pair)
    requires RunSoFar(refs0, ids0, owned0, refs, ids, owned, owner)
    requires source in ids && target in ids && source != target
    requires OwnsPair(refs, source, pair) && OwnsPair(refs, target, pair)
    requires RefImage(refs, next, map[source := target])
    ensures RunSoFar(refs0, ids0, owned0, next, ids - {source}, Repoint(owned, MERGED_TABLES, source, target),
                     Redirect(owner, source, target))
  {
    var after := Redirect(owner, source, target);
    CollapseStep(ids0, ids, owner, source, target);
    OnlyLinkedStep(refs0, refs, ids0, ids, owner, source, target, pair);
    RefCompose(refs0, refs, next, owner, map[source := target], after);
    RedirectStep(owned0, MERGED_TABLES, owner, after, source, target);
  }

  /** The existing identities that hold `pair` are the target and the sources still to merge. */
  ghost predicate Focus(refs: RefTable, ids: set<Id>, rest: set<Id>, target: Id, pair: Pair) {
    && rest <= ids && target in ids && target !in rest
    && OwnsPair(refs, target, pair)
    && (forall x :: x in rest ==> OwnsPair(refs, x, pair))
    && (forall x :: x in ids && OwnsPair(refs, x, pair) ==> x == target || x in rest)
  }

  lemma FocusStep(refs: RefTable, next: RefTable, ids: set<Id>, rest: set<Id>, target: Id, pair: Pair, source: Id)
    requires Focus(refs, ids, rest, target, pair) && source in rest && RefImage(refs, next, map[source := target])
    ensures Focus(next, ids - {source}, rest - {source}, target, pair)
  {
    forall x | x in rest - {source} || x == target
      ensures OwnsPair(next, x, pair)
    {
      OwnerKeepsPair(refs, next, map[source := target], x, pair);
    }
    forall x | x in ids - {source} && OwnsPair(next, x, pair)
      ensures x == target || x in rest - {source}
    {
      var a :| a in next && next[a].identity == x && PairOf(next[a]) == pair;
      assert OwnsPair(refs, refs[a].identity, pair);
    }
  }

  /** All pairs but those in `open` are settled. */
  ghost predicate SettledOutside(refs: RefTable, ids: set<Id>, open: set<Pair>) {
    forall pair {:trigger Settled(refs, ids, pair)} :: pair !in open ==> Settled(refs, ids, pair)
  }

  lemma SettledOutsideStep(refs: RefTable, next: RefTable, ids: set<Id>, source: Id, target: Id, open: set<Pair>)
    requires SettledOutside(refs, ids, open) && source in ids && target in ids
    requires RefImage(refs, next, map[source := target])
    ensures SettledOutside(next, ids - {source}, open)
  {
    forall pair | pair !in open
      ensures Settled(next, ids - {source}, pair)
    {
      assert Settled(refs, ids, pair);
      SettledStep(refs, next, ids, source, target, pair);
    }
  }

  /** SELECT PROVIDER, EXTERNAL_ID ... HAVING COUNT(DISTINCT IDENTITY_ID) > 1. */
  function SharedPairs(refs: RefTable): set<Pair> {
    set a, b | a in refs && b in refs && SamePair(refs[a], refs[b]) && refs[a].identity != refs[b].identity
      :: PairOf(refs[a])
  }

  /** The groups are the pairs that two identities hold. */
  lemma SharedPairsExactly(refs: RefTable, pair: Pair)
    ensures pair in SharedPairs(refs) <==> exists x, y :: x != y && OwnsPair(refs, x, pair) && OwnsPair(refs, y, pair)
  {
    if pair in SharedPairs(refs) {
      var a, b :| a in refs && b in refs && SamePair(refs[a], refs[b]) && refs[a].identity != refs[b].identity
                  && PairOf(refs[a]) == pair;
      assert OwnsPair(refs, refs[a].identity, pair) && OwnsPair(refs, refs[b].identity, pair);
    }
  }

  lemma UnsharedIsSettled(refs: RefTable, ids: set<Id>)
    ensures SettledOutside(refs, ids, SharedPairs(refs))
  {
    forall pair | pair !in SharedPairs(refs)
      ensures Settled(refs, ids, pair)
    {
      forall x, y | OwnsPair(refs, x, pair) && OwnsPair(refs, y, pair)
        ensures x == y
      {
        var a :| a in refs && refs[a].identity == x && PairOf(refs[a]) == pair;
        var b :| b in refs && refs[b].identity == y && PairOf(refs[b]) == pair;
        assert x != y ==> PairOf(refs[a]) in SharedPairs(refs);
      }
    }
  }

  /** The existing identities that hold a pair. */
  function Members(refs: RefTable, ids: set<Id>, pair: Pair): set<Id> {
    set r | r in refs && PairOf(refs[r]) == pair && refs[r].identity in ids :: refs[r].identity
  }

  lemma MembersAreOwners(refs: RefTable, ids: set<Id>, pair: Pair)
    ensures forall x :: x in Members(refs, ids, pair) <==> x in ids && OwnsPair(refs, x, pair)
  {
  }

  lemma FewMembersSettled(refs: RefTable, ids: set<Id>, pair: Pair)
    requires |Members(refs, ids, pair)| < 2
    ensures Settled(refs, ids, pair)
  {
    MembersAreOwners(refs, ids, pair);
    var members := Members(refs, ids, pair);
    forall x, y | x in members && y in members
      ensures x == y
    {
      if x != y {
        assert {x, y} <= members && |{x, y}| == 2;
        SubsetSize({x, y}, members);
      }
    }
  }

  lemma SubsetSize<T>(a: set<T>, b: set<T>)
    requires a <= b
    ensures |a| <= |b|
  {
    assert b == a + (b - a);
  }

  // --- one invariant for the run ---

  ghost predicate PairMerged(autoflush: bool, s: View, next: View, source: Id, target: Id) {
    && RowsMerged(autoflush, s.rows, next.rows, source, target)
    && (autoflush ==> next.rows.Clean())
    && RefImage(s.refs, next.refs, map[source := target])
    && MovedOnce(s.refs, next.refs, source, target)
    && next.ids == s.ids - {source}
    && next.created == s.created - {source}
    && next.owned == Repoint(s.owned, MERGED_TABLES, source, target)
  }

  /** The merges executed so far, seen from the start of the run: the CREATED_AT of the remaining identities are as they
      were, every merge joined identities with one survivor, and without autoflush, where the stored rows and so the row
      counts never change, no identity outranks its survivor. */
  ghost predicate Traced(autoflush: bool, s0: View, s: View, owner: map<Id, Id>, merges: seq<Merged>) {
    && s0.ids == s0.created.Keys && s.ids == s.created.Keys
    && (forall x :: x in s.created ==> x in s0.created && s.created[x] == s0.created[x])
    && Joined(s0.ids, owner, merges) && InLine(owner, merges)
    && (!autoflush ==> Climbs(s0.rows.stored, s0.created, owner))
  }

  ghost predicate Joined(ids0: set<Id>, owner: map<Id, Id>, merges: seq<Merged>) {
    forall m :: m in merges ==> m.source in ids0 && m.target in ids0 && Own(owner, m.source) == Own(owner, m.target)
  }

  function ScoreIn(t: Table, created: map<Id, Option<Time>>, x: Id): Score
    requires x in created
  {
    Score(|RowsOf(t, x)|, created[x].GetOr(0), 0)
  }

  function ScoresOf(t: Table, created: map<Id, Option<Time>>, members: set<Id>): map<Id, Score> {
    map x | x in members && x in created :: ScoreIn(t, created, x)
  }

  /** `x` is no better a target than `y`: not more lifecycle rows, nor as many and a later CREATED_AT. */
  ghost predicate NoBetter(t: Table, created: map<Id, Option<Time>>, x: Id, y: Id) {
    x in created && y in created && !ScoreIn(t, created, x).Exceeds(ScoreIn(t, created, y))
  }

  ghost predicate Climbs(t: Table, created: map<Id, Option<Time>>, owner: map<Id, Id>) {
    forall x :: x in owner ==> NoBetter(t, created, x, owner[x])
  }

  lemma NoBetterJoin(t: Table, created: map<Id, Option<Time>>, x: Id, y: Id, z: Id)
    requires NoBetter(t, created, x, y) && NoBetter(t, created, y, z)
    ensures NoBetter(t, created, x, z)
  {
  }

  lemma ClimbsStep(t: Table, created: map<Id, Option<Time>>, owner: map<Id, Id>, source: Id, target: Id)
    requires Climbs(t, created, owner) && NoBetter(t, created, source, target)
    ensures Climbs(t, created, Redirect(owner, source, target))
  {
    forall x | x in owner
      ensures NoBetter(t, created, x, Redirect(owner, source, target)[x])
    {
      if owner[x] == source {
        NoBetterJoin(t, created, x, source, target);
      }
    }
  }

  lemma JoinedStep(ids0: set<Id>, ids: set<Id>, owner: map<Id, Id>, merges: seq<Merged>, source: Id, target: Id)
    requires Joined(ids0, owner, merges) && Collapse(ids0, ids, owner) && source in ids && target in ids
    ensures Joined(ids0, Redirect(owner, source, target), merges + [Merged(source, target)])
  {
  }

  lemma TracedStep(autoflush: bool, s0: View, s: View, next: View, owner: map<Id, Id>, merges: seq<Merged>, source: Id,
                   target: Id)
    requires Traced(autoflush, s0, s, owner, merges) && Collapse(s0.ids, s.ids, owner) && source in s.ids
    requires target in s.ids && source != target
    requires next.ids == s.ids - {source} && next.created == s.created - {source}
    requires !autoflush ==> NoBetter(s0.rows.stored, s0.created, source, target)
    ensures Traced(autoflush, s0, next, Redirect(owner, source, target), merges + [Merged(source, target)])
  {
    InLineStep(owner, merges, source, target);
    hide InLine;
    JoinedStep(s0.ids, s.ids, owner, merges, source, target);
    if !autoflush {
      ClimbsStep(s0.rows.stored, s0.created, owner, source, target);
    }
  }

  /** Everything a run keeps true between two merges; `open` are the pairs not processed yet. */
  ghost predicate Running(autoflush: bool, s0: View, s: View, owner: map<Id, Id>, merges: seq<Merged>,
                          open: set<Pair>) {
    && UniqueSlots(s0.rows.stored)
    && RunSoFar(s0.refs, s0.ids, s0.owned, s.refs, s.ids, s.owned, owner)
    && RowsSoFar(autoflush, s0.rows.stored, s.rows, owner, merges)
    && (autoflush ==> s.rows.Clean())
    && SettledOutside(s.refs, s.ids, open)
    && MergesSoFar(autoflush, s0, s, owner, merges)
  }

  /** The executed merges: one for every identity deleted, in an order in which they can happen. */
  ghost predicate MergesSoFar(autoflush: bool, s0: View, s: View, owner: map<Id, Id>, merges: seq<Merged>) {
    && |merges| == |s0.ids| - |s.ids|
    && Sources(merges) == s0.ids - s.ids
    && Orderly(s.ids, merges)
    && Traced(autoflush, s0, s, owner, merges)
  }

  lemma MergesStep(autoflush: bool, s0: View, s: View, next: View, owner: map<Id, Id>, merges: seq<Merged>, source: Id,
                   target: Id)
    requires MergesSoFar(autoflush, s0, s, owner, merges) && Collapse(s0.ids, s.ids, owner)
    requires source in s.ids && target in s.ids && source != target
    requires next.ids == s.ids - {source} && next.created == s.created - {source}
    requires !autoflush ==> NoBetter(s0.rows.stored, s0.created, source, target)
    ensures MergesSoFar(autoflush, s0, next, Redirect(owner, source, target), merges + [Merged(source, target)])
  {
    SourcesStep(s0.ids, s.ids, merges, source, target);
    OrderlyStep(s0.ids, s.ids, merges, source, target);
    TracedStep(autoflush, s0, s, next, owner, merges, source, target);
  }

  lemma RunningStarts(autoflush: bool, s: View)
    requires s.rows.Clean() && UniqueSlots(s.rows.stored) && s.ids == s.created.Keys
    ensures Running(autoflush, s, s, map x | x in s.ids :: x, [], SharedPairs(s.refs))
  {
    InLineStarts(s.ids);
    RunStart(s.refs, s.ids, s.owned);
    RowsStart(autoflush, s.rows.stored, map x | x in s.ids :: x);
    UnsharedIsSettled(s.refs, s.ids);
  }

  lemma RunningStep(autoflush: bool, s0: View, s: View, next: View, owner: map<Id, Id>, merges: seq<Merged>,
                    open: set<Pair>, source: Id, target: Id, pair: Pair, rest: set<Id>)
    requires Running(autoflush, s0, s, owner, merges, open) && Focus(s.refs, s.ids, rest, target, pair)
    requires source in rest
    requires PairMerged(autoflush, s, next, source, target)
    requires !autoflush ==> NoBetter(s0.rows.stored, s0.created, source, target)
    ensures Running(autoflush, s0, next, Redirect(owner, source, target), merges + [Merged(source, target)], open)
    ensures Focus(next.refs, next.ids, rest - {source}, target, pair)
  {
    hide Linked;
    hide Image;
    hide RowsSoFar;
    hide RowsMerged;
    hide UniqueSlots;
    hide MergesSoFar;
    hide SettledOutside;
    hide MovedOnce;
    hide RefImage;
    RunStep(s0.refs, s0.ids, s0.owned, s.refs, next.refs, s.ids, s.owned, owner, source, target, pair);
    CollapseStep(s0.ids, s.ids, owner, source, target);
    RowsStep(autoflush, s0.rows.stored, s.rows, next.rows, owner, Redirect(owner, source, target), merges, source,
             target);
    SettledOutsideStep(s.refs, next.refs, s.ids, source, target, open);
    FocusStep(s.refs, next.refs, s.ids, rest, target, pair, source);
    MergesStep(autoflush, s0, s, next, owner, merges, source, target);
  }

  /** No identity is deleted twice, and the survivor of the last merge still exists. */
  ghost predicate Orderly(ids: set<Id>, merges: seq<Merged>) {
    && (forall i, j :: 0 <= i < j < |merges| ==> merges[i].source != merges[j].source)
    && (forall i :: 0 <= i < |merges| ==> merges[i].source != merges[i].target)
    && (merges != [] ==> merges[|merges| - 1].target in ids)
  }

  lemma OrderlyStep(ids0: set<Id>, ids: set<Id>, merges: seq<Merged>, source: Id, target: Id)
    requires Orderly(ids, merges) && Sources(merges) == ids0 - ids && source in ids && target in ids && source != target
    ensures Orderly(ids - {source}, merges + [Merged(source, target)])
  {
    forall i | 0 <= i < |merges|
      ensures merges[i].source != source
    {
      assert merges[i] in merges;
      assert merges[i].source in Sources(merges);
    }
  }

  lemma SourcesStep(ids0: set<Id>, ids: set<Id>, merges: seq<Merged>, source: Id, target: Id)
    requires Sources(merges) == ids0 - ids && source in ids && ids <= ids0
    ensures Sources(merges + [Merged(source, target)]) == ids0 - (ids - {source})
  {
    assert Sources(merges + [Merged(source, target)]) == Sources(merges) + {source} by {
      var longer := merges + [Merged(source, target)];
      forall m | m in longer
        ensures m.source in Sources(merges) + {source}
      {
        assert m in merges || m == Merged(source, target);
      }
      assert Merged(source, target) in longer && forall m :: m in merges ==> m in longer;
      assert source in Sources(longer);
      assert forall x :: x in Sources(merges) ==> x in Sources(longer);
    }
  }

  lemma RunningUnique(autoflush: bool, s0: View, s: View, owner: map<Id, Id>, merges: seq<Merged>, open: set<Pair>)
    requires Running(autoflush, s0, s, owner, merges, open)
    ensures UniqueSlots(s.rows.BeforeStatement(autoflush).stored)
    ensures s.rows.BeforeStatement(autoflush) == s.rows
  {
    RowsUnique(autoflush, s0.rows.stored, s.rows, owner, merges);
    s.rows.CleanIsWritten();
  }

  lemma FocusChoice(refs: RefTable, ids: set<Id>, rest: set<Id>, target: Id, pair: Pair, source: Id)
    requires Focus(refs, ids, rest, target, pair) && source in rest
    ensures source != target && source in ids
  {
  }

  // --- the counters ---

  const HISTORIES: set<OwnedTable> := {DownloadHistory, TransferHistory, SearchResults}

  /** The stored lifecycle rows of all sources. */
  ghost function StoredTotal(t: Table, merges: seq<Merged>): nat {
    if merges == [] then 0
    else StoredTotal(t, merges[..|merges| - 1]) + |RowsOf(t, merges[|merges| - 1].source)|
  }

  /** Counters of a run so far, told from the tables before it. With autoflush a source has one lifecycle row for each
      slot of the identities that have come to it; without, its stored rows. */
  ghost predicate Accounted(autoflush: bool, s0: View, merges: seq<Merged>, counts: MergeCounts) {
    && counts.identities == |merges|
    && counts.events == OwnedTotal(s0.owned, {LifecycleEvents}, merges)
    && counts.rows == OwnedTotal(s0.owned, HISTORIES, merges)
                      + if autoflush then SlotTotal(s0.rows.stored, merges) else StoredTotal(s0.rows.stored, merges)
  }

  lemma NothingCounted(autoflush: bool, s0: View)
    ensures Accounted(autoflush, s0, [], MergeCounts(0, 0, 0, 0, 0))
  {
  }

  lemma AccountedLater(autoflush: bool, s0: View, merges: seq<Merged>, counts: MergeCounts, groups: nat)
    requires Accounted(autoflush, s0, merges, counts)
    ensures Accounted(autoflush, s0, merges, counts.(groups := groups))
  {
  }

  /** An existing identity is what everybody in its line has become. */
  lemma LineOfSource(ids0: set<Id>, ids: set<Id>, owner: map<Id, Id>, merges: seq<Merged>, source: Id, x: Id)
    requires Collapse(ids0, ids, owner) && Joined(ids0, owner, merges) && InLine(owner, merges) && source in ids
    ensures x in Line(merges, source) <==> Own(owner, x) == source
  {
    LineWithin(ids0, merges, source);
  }

  lemma HistoriesCounted(rows0: OwnedRows, rows: OwnedRows, owner: map<Id, Id>, merges: seq<Merged>, id: Id)
    requires rows == Redirected(rows0, MERGED_TABLES, owner) && LineTold(rows0, owner, Line(merges, id), id)
    ensures |OwnedBy(rows, DownloadHistory, id)| + |OwnedBy(rows, TransferHistory, id)|
            + |OwnedBy(rows, SearchResults, id)|
            == |OwnedInLine(rows0, HISTORIES, Line(merges, id))|
    ensures |OwnedBy(rows, LifecycleEvents, id)| == |OwnedInLine(rows0, {LifecycleEvents}, Line(merges, id))|
  {
    var line := Line(merges, id);
    OwnedNow(rows0, rows, MERGED_TABLES, LifecycleEvents, owner, merges, id);
    OwnedNow(rows0, rows, MERGED_TABLES, DownloadHistory, owner, merges, id);
    OwnedNow(rows0, rows, MERGED_TABLES, TransferHistory, owner, merges, id);
    OwnedNow(rows0, rows, MERGED_TABLES, SearchResults, owner, merges, id);
    hide OwnedInLine;
    hide OwnedBy;
    hide LineTold;
    OneTableMore(rows0, {DownloadHistory}, TransferHistory, line);
    OneTableMore(rows0, {DownloadHistory, TransferHistory}, SearchResults, line);
    assert {DownloadHistory} + {TransferHistory} == {DownloadHistory, TransferHistory};
    assert {DownloadHistory, TransferHistory} + {SearchResults} == HISTORIES;
  }

  lemma RowsCountedNow(autoflush: bool, t: Table, rows: UnitOfWork, owner: map<Id, Id>, merges: seq<Merged>, source: Id)
    requires RowsSoFar(autoflush, t, rows, owner, merges)
    requires forall r :: r in t ==> (t[r].identity in Line(merges, source) <==> Own(owner, t[r].identity) == source)
    ensures |RowsOf(rows.BeforeStatement(autoflush).stored, source)|
            == if autoflush then |SlotsInLine(t, Line(merges, source))| else |RowsOf(t, source)|
  {
    if autoflush {
      RowsNow(t, rows.Written(), owner, merges, true, source);
    }
  }

  lemma StoredGrows(t: Table, merges: seq<Merged>, m: Merged)
    ensures StoredTotal(t, merges + [m]) == StoredTotal(t, merges) + |RowsOf(t, m.source)|
  {
    assert (merges + [m])[..|merges|] == merges;
  }

  lemma RunningParts(autoflush: bool, s0: View, s: View, owner: map<Id, Id>, merges: seq<Merged>, open: set<Pair>,
                     source: Id)
    requires Running(autoflush, s0, s, owner, merges, open) && source in s.ids
    ensures RowsSoFar(autoflush, s0.rows.stored, s.rows, owner, merges)
    ensures s.owned == Redirected(s0.owned, MERGED_TABLES, owner)
    ensures forall x :: x in Line(merges, source) <==> Own(owner, x) == source
  {
    forall x
      ensures x in Line(merges, source) <==> Own(owner, x) == source
    {
      LineOfSource(s0.ids, s.ids, owner, merges, source, x);
    }
  }

  lemma AccountedStep(autoflush: bool, s0: View, s: View, owner: map<Id, Id>, merges: seq<Merged>, open: set<Pair>,
                      counts: MergeCounts, after: MergeCounts, source: Id, target: Id)
    requires Running(autoflush, s0, s, owner, merges, open) && source in s.ids
    requires Accounted(autoflush, s0, merges, counts)
    requires after.identities == counts.identities + 1
    requires after.events == counts.events + |OwnedBy(s.owned, LifecycleEvents, source)|
    requires after.rows == counts.rows + |OwnedBy(s.owned, DownloadHistory, source)|
                           + |OwnedBy(s.owned, TransferHistory, source)| + |OwnedBy(s.owned, SearchResults, source)|
                           + |RowsOf(s.rows.BeforeStatement(autoflush).stored, source)|
    ensures Accounted(autoflush, s0, merges + [Merged(source, target)], after)
  {
    RunningParts(autoflush, s0, s, owner, merges, open, source);
    hide Running;
    hide Redirected;
    hide RowsSoFar;
    HistoriesCounted(s0.owned, s.owned, owner, merges, source);
    RowsCountedNow(autoflush, s0.rows.stored, s.rows, owner, merges, source);
    var m := Merged(source, target);
    TotalsGrow(s0.owned, HISTORIES, s0.rows.stored, merges, m);
    TotalsGrow(s0.owned, {LifecycleEvents}, s0.rows.stored, merges, m);
    StoredGrows(s0.rows.stored, merges, m);
  }

  // --- one group ---

  /** Without autoflush: each identity of the order is no better a target than those before it. */
  ghost predicate Descending(t: Table, created: map<Id, Option<Time>>, order: seq<Id>) {
    forall i, j :: 0 <= i < j < |order| ==> NoBetter(t, created, order[j], order[i])
  }

  /** The inner loop: in descending order every member is merged into the first. */
  method MergeGroup(db: Session, order: seq<Id>, counts: MergeCounts, ghost pair: Pair, ghost s0: View,
                    ghost owner0: map<Id, Id>, ghost merges0: seq<Merged>, ghost open: set<Pair>)
    returns (after: MergeCounts, ghost owner: map<Id, Id>, ghost merges: seq<Merged>)
    requires Running(db.autoflush, s0, ViewOf(db), owner0, merges0, open)
    requires order != [] && Unrepeated(order) && Accounted(db.autoflush, s0, merges0, counts)
    requires !db.autoflush ==> Descending(s0.rows.stored, s0.created, order)
    requires Focus(db.refs, db.identities.Keys, Rest(order, 1), order[0], pair)
    modifies db
    ensures Running(db.autoflush, s0, ViewOf(db), owner, merges, open)
    ensures Focus(db.refs, db.identities.Keys, {}, order[0], pair)
    ensures merges == merges0 + Fan(order)
    ensures Accounted(db.autoflush, s0, merges, after) && after.groups == counts.groups
  {
    hide Running;
    hide Focus;
    hide PairMerged;
    hide Rest;
    hide Unrepeated;
    hide NoBetter;
    hide Accounted;
    hide OwnedBy;
    hide RowsOf;
    after, owner, merges := counts, owner0, merges0;
    assert Fan(order[..1]) == [];
    for k := 1 to |order|
      invariant Running(db.autoflush, s0, ViewOf(db), owner, merges, open)
      invariant Focus(db.refs, db.identities.Keys, Rest(order, k), order[0], pair)
      invariant merges == merges0 + Fan(order[..k])
      invariant Accounted(db.autoflush, s0, merges, after) && after.groups == counts.groups
    {
      RestStep(order, k);
      FanStep(order, k);
      ghost var s := ViewOf(db);
      RunningUnique(db.autoflush, s0, s, owner, merges, open);
      FocusChoice(s.refs, s.ids, Rest(order, k), order[0], pair, order[k]);
      ghost var before := after;
      after := MergePair(db, order[k], order[0], after);
      AccountedStep(db.autoflush, s0, s, owner, merges, open, before, after, order[k], order[0]);
      RunningStep(db.autoflush, s0, s, ViewOf(db), owner, merges, open, order[k], order[0], pair, Rest(order, k));
      owner := Redirect(owner, order[k], order[0]);
      merges := merges + [Merged(order[k], order[0])];
    }
    assert order[..|order|] == order;
    NothingLeft(order);
  }

  lemma GroupIsFocused(s: View, pair: Pair, order: seq<Id>)
    requires Ranked(order, ScoresOf(s.rows.stored, s.created, Members(s.refs, s.ids, pair)))
    requires s.ids == s.created.Keys && order != []
    ensures Focus(s.refs, s.ids, Rest(order, 1), order[0], pair)
  {
    MembersAreOwners(s.refs, s.ids, pair);
    forall x
      ensures x in Members(s.refs, s.ids, pair) <==> x == order[0] || x in Rest(order, 1)
    {
      assert x in order <==> x in ScoresOf(s.rows.stored, s.created, Members(s.refs, s.ids, pair));
    }
  }

  /** Without autoflush the order in which a group is merged is an order of the tables before the run. */
  lemma GroupIsDescending(s0: View, s: View, owner: map<Id, Id>, merges: seq<Merged>, open: set<Pair>, members: set<Id>,
                          order: seq<Id>)
    requires Running(false, s0, s, owner, merges, open)
    requires members <= s.ids && Ranked(order, ScoresOf(s.rows.stored, s.created, members))
    ensures Descending(s0.rows.stored, s0.created, order)
  {
    forall i, j | 0 <= i < j < |order|
      ensures NoBetter(s0.rows.stored, s0.created, order[j], order[i])
    {
      assert order[i] in order && order[j] in order;
    }
  }

  /** What one group adds to the merges: nothing, or the fan of its members in descending order. */
  ghost predicate GroupMerged(s: View, pair: Pair, added: seq<Merged>) {
    var members := Members(s.refs, s.ids, pair);
    if |members| < 2 then added == []
    else exists order :: RankedFan(order, ScoresOf(s.rows.stored, s.created, members), added)
  }

  lemma GroupIsSettled(autoflush: bool, s0: View, s: View, owner: map<Id, Id>, merges: seq<Merged>, open: set<Pair>,
                       pair: Pair)
    requires Running(autoflush, s0, s, owner, merges, open)
    requires Settled(s.refs, s.ids, pair)
    ensures Running(autoflush, s0, s, owner, merges, open - {pair})
  {
  }

  /** The members by most lifecycle rows, then by latest CREATED_AT; the first one is the target. */
  method RankMembers(db: Session, members: set<Id>) returns (order: seq<Id>)
    requires |members| > 0 && members <= db.identities.Keys
    ensures Ranked(order, ScoresOf(db.rows.stored, db.identities, members))
    ensures order != [] && order[0] in members
    ensures forall x :: x in members ==> NoBetter(db.rows.stored, db.identities, x, order[0])
    ensures forall i, j ::
              0 <= i < j < |order| && order[i] in db.identities && order[j] in db.identities
              ==> |RowsOf(db.rows.stored, order[j])| < |RowsOf(db.rows.stored, order[i])|
                  || (|RowsOf(db.rows.stored, order[j])| == |RowsOf(db.rows.stored, order[i])|
                      && db.identities[order[j]].GetOr(0) <= db.identities[order[i]].GetOr(0))
  {
    var candidates := ScoresOf(db.rows.stored, db.identities, members);
    assert candidates.Keys == members;
    order := SortScored(candidates);
    assert exists x :: x in members;
    forall x | x in members
      ensures order != [] && NoBetter(db.rows.stored, db.identities, x, order[0])
    {
      assert x in order;
    }
    assert order[0] in order;
  }

  /** One group of the outer loop, re-read from the current tables. */
  method MergePairOwners(db: Session, pair: Pair, counts: MergeCounts, ghost s0: View, ghost owner0: map<Id, Id>,
                         ghost merges0: seq<Merged>, ghost open: set<Pair>)
    returns (after: MergeCounts, ghost owner: map<Id, Id>, ghost merges: seq<Merged>)
    requires Running(db.autoflush, s0, ViewOf(db), owner0, merges0, open)
    requires Accounted(db.autoflush, s0, merges0, counts)
    modifies db
    ensures Running(db.autoflush, s0, ViewOf(db), owner, merges, open - {pair})
    ensures merges0 <= merges && GroupMerged(old(ViewOf(db)), pair, merges[|merges0|..])
    ensures Accounted(db.autoflush, s0, merges, after)
    ensures after.groups
            == counts.groups + if |Members(old(db.refs), old(db.identities.Keys), pair)| >= 2 then 1 else 0
  {
    hide Running;
    hide Focus;
    hide Ranked;
    hide Descending;
    hide ScoresOf;
    hide Accounted;
    ghost var s := ViewOf(db);
    RunningUnique(db.autoflush, s0, ViewOf(db), owner0, merges0, open);
    db.Autoflush();
    after, owner, merges := counts, owner0, merges0;
    var members := Members(db.refs, db.identities.Keys, pair);
    if |members| < 2 {
      FewMembersSettled(db.refs, db.identities.Keys, pair);
    } else {
      var order := RankMembers(db, members);
      GroupIsFocused(s, pair, order);
      if !db.autoflush {
        GroupIsDescending(s0, s, owner, merges, open, members, order);
      }
      RankedUnrepeated(order, ScoresOf(s.rows.stored, s.created, members));
      AccountedLater(db.autoflush, s0, merges, after, after.groups + 1);
      after := after.(groups := after.groups + 1);
      after, owner, merges := MergeGroup(db, order, after, pair, s0, owner, merges, open);
      FocusedIsSettled(ViewOf(db), order[0], pair);
      assert merges[|merges0|..] == Fan(order);
      assert RankedFan(order, ScoresOf(s.rows.stored, s.created, members), merges[|merges0|..]);
    }
    GroupIsSettled(db.autoflush, s0, ViewOf(db), owner, merges, open, pair);
  }

  lemma RankedUnrepeated(order: seq<Id>, scores: map<Id, Score>)
    requires Ranked(order, scores)
    ensures Unrepeated(order)
  {
  }

  lemma FocusedIsSettled(s: View, target: Id, pair: Pair)
    requires Focus(s.refs, s.ids, {}, target, pair)
    ensures Settled(s.refs, s.ids, pair)
  {
  }

  /** What a committed run guarantees, in terms of the tables before and after it. */
  ghost predicate RunDone(autoflush: bool, s0: View, s: View, owner: map<Id, Id>, merges: seq<Merged>) {
    && RunSoFar(s0.refs, s0.ids, s0.owned, s.refs, s.ids, s.owned, owner)
    && (forall pair {:trigger Settled(s.refs, s.ids, pair)} :: Settled(s.refs, s.ids, pair))
    && (forall x, y :: x in s0.ids && y in s0.ids ==> (owner[x] == owner[y] <==> Linked(s0.refs, s0.ids, x, y)))
    && MergesSoFar(autoflush, s0, s, owner, merges)
    && s.rows.Clean() && UniqueSlots(s0.rows.stored) && UniqueSlots(s.rows.stored)
    && (autoflush ==> Image(s0.rows.stored, s.rows.stored, RowOwners(s0.rows.stored, owner), true))
    && (!autoflush ==> exists u: UnitOfWork :: Postponed(s0.rows.stored, u, merges) && s.rows.stored == u.Written())
  }

  lemma RunningEnds(autoflush: bool, s0: View, s: View, owner: map<Id, Id>, merges: seq<Merged>)
    requires Running(autoflush, s0, s, owner, merges, {})
    ensures RunDone(autoflush, s0, s.(rows := s.rows.Flush()), owner, merges)
  {
    forall pair
      ensures Settled(s.refs, s.ids, pair)
    {
      assert pair !in {};
    }
    ComponentsExactly(s0.refs, s.refs, s0.ids, s.ids, owner);
    if !autoflush {
      WrittenIsUnique(s0.rows.stored, s.rows, merges);
    }
  }

  /** A row that is written keeps its slot, and its identity unless it moved from the last source to a free slot. */
  lemma WrittenRow(t: Table, u: UnitOfWork, merges: seq<Merged>, r: nat)
    requires Postponed(t, u, merges) && r in u.Written()
    ensures r in t && u.Written()[r].slot == t[r].slot && u.Written()[r].kept == t[r].kept
    ensures u.Written()[r].identity == t[r].identity
            || (merges != [] && FreeToMove(t, r, merges[|merges| - 1].source, merges[|merges| - 1].target)
                && u.Written()[r].identity == merges[|merges| - 1].target)
  {
    if r in u.dirty {
      assert PendingRow(t, r, u.dirty[r], merges[|merges| - 1].source, merges[|merges| - 1].target, {});
    }
  }

  lemma SlotStaysFree(t: Table, r: nat, q: nat, source: Id, target: Id)
    requires q in t
    ensures FreeToMove(t, r, source, target) && t[q].slot == t[r].slot ==> t[q].identity != target
  {
    if r in t && t[q].slot == t[r].slot && t[q].identity == target {
      assert Holds(t, q, target, t[r].slot);
    }
  }

  /** The commit without autoflush keeps one row per slot. */
  lemma WrittenIsUnique(t: Table, u: UnitOfWork, merges: seq<Merged>)
    requires UniqueSlots(t) && Postponed(t, u, merges)
    ensures UniqueSlots(u.Written())
  {
    var w := u.Written();
    forall a, b | a in w && b in w && w[a].identity == w[b].identity && w[a].slot == w[b].slot
      ensures a == b
    {
      WrittenRow(t, u, merges, a);
      WrittenRow(t, u, merges, b);
      hide Postponed;
      if merges != [] {
        SlotStaysFree(t, a, b, merges[|merges| - 1].source, merges[|merges| - 1].target);
        SlotStaysFree(t, b, a, merges[|merges| - 1].source, merges[|merges| - 1].target);
      }
    }
  }

  /** `merge()`: one pass over the pairs that were shared at the start, each re-read when its turn comes. `owner` names
      the survivor of every original identity and `merges` the executed merges in order. */
  method Merge(db: Session) returns (counts: MergeCounts, ghost owner: map<Id, Id>, ghost merges: seq<Merged>)
    requires db.rows.Clean() && UniqueSlots(db.rows.stored)
    modifies db
    ensures RunDone(db.autoflush, old(ViewOf(db)), ViewOf(db), owner, merges)
    ensures forall pair :: SharedPairs(old(db.refs)) == {pair} ==> GroupMerged(old(ViewOf(db)), pair, merges)
    ensures Accounted(db.autoflush, old(ViewOf(db)), merges, counts)
  {
    hide Running;
    hide RunDone;
    hide GroupMerged;
    hide SharedPairs;
    hide Accounted;
    ghost var s0 := ViewOf(db);
    counts := MergeCounts(0, 0, 0, 0, 0);
    NothingCounted(db.autoflush, s0);
    owner := map x | x in s0.ids :: x;
    merges := [];
    RunningStarts(db.autoflush, s0);
    var open := SharedPairs(db.refs);
    while open != {}
      invariant Running(db.autoflush, s0, ViewOf(db), owner, merges, open)
      invariant open <= SharedPairs(s0.refs)
      invariant open == SharedPairs(s0.refs) ==> ViewOf(db) == s0 && merges == []
      invariant forall pair :: SharedPairs(s0.refs) == {pair} && pair !in open ==> GroupMerged(s0, pair, merges)
      invariant Accounted(db.autoflush, s0, merges, counts)
      decreases open
    {
      var pair :| pair in open;
      counts, owner, merges := MergePairOwners(db, pair, counts, s0, owner, merges, open);
      open := open - {pair};
    }
    RunningEnds(db.autoflush, s0, ViewOf(db), owner, merges);
    db.Commit();
  }

  /** When every reference pointed to an existing identity, every reference still does, each (provider, external id) has
      one owner, and each original reference is held by the survivor of its identity. */
  lemma EveryPairHasOneOwner(autoflush: bool, s0: View, s: View, owner: map<Id, Id>, merges: seq<Merged>)
    requires RunDone(autoflush, s0, s, owner, merges)
    requires forall r :: r in s0.refs ==> s0.refs[r].identity in s0.ids
    ensures forall r :: r in s.refs ==> s.refs[r].identity in s.ids
    ensures forall a, b ::
              a in s.refs && b in s.refs && SamePair(s.refs[a], s.refs[b]) ==> s.refs[a].identity == s.refs[b].identity
    ensures forall r :: r in s0.refs ==> OwnsPair(s.refs, owner[s0.refs[r].identity], PairOf(s0.refs[r]))
  {
    forall r | r in s.refs
      ensures s.refs[r].identity in s.ids
    {
      assert s.refs[r].identity == Own(owner, s0.refs[r].identity);
    }
    forall a, b | a in s.refs && b in s.refs && SamePair(s.refs[a], s.refs[b])
      ensures s.refs[a].identity == s.refs[b].identity
    {
      OwnersMeet(s, a, b);
    }
    forall r | r in s0.refs
      ensures OwnsPair(s.refs, owner[s0.refs[r].identity], PairOf(s0.refs[r]))
    {
      assert OwnsPair(s0.refs, s0.refs[r].identity, PairOf(s0.refs[r]));
      OwnerKeepsPair(s0.refs, s.refs, owner, s0.refs[r].identity, PairOf(s0.refs[r]));
    }
  }

  lemma OwnersMeet(s: View, a: nat, b: nat)
    requires a in s.refs && b in s.refs && SamePair(s.refs[a], s.refs[b])
    requires s.refs[a].identity in s.ids && s.refs[b].identity in s.ids
    requires Settled(s.refs, s.ids, PairOf(s.refs[a]))
    ensures s.refs[a].identity == s.refs[b].identity
  {
    assert OwnsPair(s.refs, s.refs[a].identity, PairOf(s.refs[a]));
    assert OwnsPair(s.refs, s.refs[b].identity, PairOf(s.refs[a]));
  }

  // --- runs that flush ---

  /** Two flushing runs over the same tables give every component the same rank in every slot, whatever order they took
      the pairs and sources in and whichever members they chose to survive. */
  lemma RunsAgree(s0: View, a: View, b: View, ownerA: map<Id, Id>, ownerB: map<Id, Id>, mergesA: seq<Merged>,
                  mergesB: seq<Merged>, x: Id, ra: nat, rb: nat)
    requires RunDone(true, s0, a, ownerA, mergesA) && RunDone(true, s0, b, ownerB, mergesB) && x in s0.ids
    requires ra in a.rows.stored && a.rows.stored[ra].identity == ownerA[x]
    requires Holds(b.rows.stored, rb, ownerB[x], a.rows.stored[ra].slot)
    ensures RankOf(a.rows.stored[ra].standing) == RankOf(b.rows.stored[rb].standing)
  {
    NoHigher(s0, a, b, ownerA, ownerB, mergesA, mergesB, x, ra, rb);
    NoHigher(s0, b, a, ownerB, ownerA, mergesB, mergesA, x, rb, ra);
    AtMostIsAntisymmetric(RankOf(a.rows.stored[ra].standing), RankOf(b.rows.stored[rb].standing));
  }

  lemma SameComponent(s0: View, a: View, b: View, ownerA: map<Id, Id>, ownerB: map<Id, Id>, mergesA: seq<Merged>,
                      mergesB: seq<Merged>, x: Id, y: Id)
    requires RunDone(true, s0, a, ownerA, mergesA) && RunDone(true, s0, b, ownerB, mergesB)
    requires x in s0.ids && y in s0.ids && ownerA[x] == ownerA[y]
    ensures ownerB[x] == ownerB[y]
  {
    assert Linked(s0.refs, s0.ids, x, y);
  }

  /** The standing of a survivor's row came from a row of the survivor's component. */
  lemma Competitor(t: Table, after: Table, ids0: set<Id>, ids: set<Id>, owner: map<Id, Id>, x: Id, r: nat)
    returns (w: nat)
    requires Image(t, after, RowOwners(t, owner), true) && Collapse(ids0, ids, owner)
    requires x in ids0 && r in after && after[r].identity == owner[x]
    ensures w in t && t[w].slot == after[r].slot && t[w].standing == after[r].standing
    ensures t[w].identity in ids0 && owner[t[w].identity] == owner[x]
  {
    assert StandsOn(t, after, RowOwners(t, owner), true, r);
    w :| Carried(t, after, RowOwners(t, owner), r, w);
  }

  lemma NoHigher(s0: View, a: View, b: View, ownerA: map<Id, Id>, ownerB: map<Id, Id>, mergesA: seq<Merged>,
                 mergesB: seq<Merged>, x: Id, ra: nat, rb: nat)
    requires RunDone(true, s0, a, ownerA, mergesA) && RunDone(true, s0, b, ownerB, mergesB) && x in s0.ids
    requires ra in a.rows.stored && a.rows.stored[ra].identity == ownerA[x]
    requires Holds(b.rows.stored, rb, ownerB[x], a.rows.stored[ra].slot)
    ensures RankOf(a.rows.stored[ra].standing).AtMost(RankOf(b.rows.stored[rb].standing))
  {
    var t := s0.rows.stored;
    var w := Competitor(t, a.rows.stored, s0.ids, a.ids, ownerA, x, ra);
    SameComponent(s0, a, b, ownerA, ownerB, mergesA, mergesB, t[w].identity, x);
    hide RunDone;
    assert SameSlotAndOwner(t, RowOwners(t, ownerB), w, b.rows.stored[rb].identity, b.rows.stored[rb].slot);
    SurvivorIsMaximum(t, b.rows.stored, RowOwners(t, ownerB), rb);
  }
}
