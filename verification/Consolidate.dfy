/** scripts/consolidate_lifecycle_identities.py: merging identities whose rows carry one normalised title or whose
    references carry one media code, and the audit query of scripts/check_identity_integrity.py it has to satisfy. */
module Consolidate {
  import opened Wrappers
  import opened Lifecycle
  import opened SnapshotMerge
  import opened Links
  import opened RefQuotient
  import opened Succession
  import opened Sessions
  import opened RunTotals
  import opened Titles

  // --- lifecycle rows of one pair, through bulk statements ---

  /** The rows midway through `MergeSnapshots`: moves and deletions are stored at once, the ten columns of a winner only
      when the session flushes them. */
  ghost predicate Bulk(autoflush: bool, before: Table, u: UnitOfWork, source: Id, target: Id, todo: set<nat>) {
    && UniqueSlots(before)
    && todo <= RowsOf(before, source)
    && Image(before, u.stored, Midway(before, source, target, todo), autoflush)
    && Untouched(before, u.stored, source, todo)
    && u.doomed == {}
    && (autoflush ==> u.dirty == map[])
    && u.dirty.Keys !! todo
    && OthersStay(before, u.stored, source)
    && (autoflush ==> Columns(before, u.stored, source, target, todo))
  }

  /** Rows of other identities are never deleted. */
  ghost predicate OthersStay(before: Table, t: Table, source: Id) {
    forall q :: q in before && before[q].identity != source ==> q in t
  }

  lemma BulkMoves(autoflush: bool, before: Table, u: UnitOfWork, source: Id, target: Id, todo: set<nat>, r: nat)
    requires source != target && r in todo && Bulk(autoflush, before, u, source, target, todo)
    requires !Occupied(u.stored, target, u.stored[r].slot)
    ensures Bulk(autoflush, before, u.(stored := u.stored[r := u.stored[r].(identity := target)]), source, target,
                 todo - {r})
  {
    VisitMoved(before, u.stored, source, target, todo, r, autoflush);
    if autoflush {
      ColumnsMove(before, u.stored, source, target, todo, r);
    }
    hide Columns;
    hide Image;
  }

  lemma AbsorbedLeavesRest(before: Table, t: Table, source: Id, target: Id, todo: set<nat>, r: nat, hit: nat,
                           copy: bool)
    requires source != target && r in todo && Untouched(before, t, source, todo)
    requires r in t && Holds(t, hit, target, t[r].slot)
    ensures Untouched(before, Absorbed(t, r, hit, copy), source, todo - {r})
    ensures hit !in todo
  {
    assert hit !in todo;
  }

  lemma BulkAbsorbs(autoflush: bool, before: Table, u: UnitOfWork, dirty: Table, source: Id, target: Id, todo: set<nat>,
                    r: nat, hit: nat)
    requires source != target && r in todo && Bulk(autoflush, before, u, source, target, todo)
    requires Holds(u.stored, hit, target, u.stored[r].slot)
    requires if autoflush then dirty == map[] else dirty.Keys <= u.dirty.Keys + {hit}
    ensures Bulk(autoflush, before, UnitOfWork(Absorbed(u.stored, r, hit, autoflush), dirty, {}), source, target,
                 todo - {r})
  {
    AbsorbedLeavesRest(before, u.stored, source, target, todo, r, hit, autoflush);
    VisitAbsorbed(before, u.stored, source, target, todo, r, hit, autoflush);
    if autoflush {
      ColumnsAbsorb(before, u.stored, source, target, todo, r, hit);
    }
    hide Columns;
    hide Image;
  }

  /** The unit of work after the comparison with `hit` and the deletion of `r`. */
  function AfterDelete(autoflush: bool, u: UnitOfWork, r: nat, hit: nat): UnitOfWork
    requires r in u.stored && hit in u.stored
  {
    var compared := if Beats(u.Load(r), u.Load(hit)) then u.(dirty := u.dirty[hit := Winner(u.Load(r), u.Load(hit))])
                    else u;
    var flushed := compared.BeforeStatement(autoflush);
    flushed.(stored := flushed.stored - {r})
  }

  lemma DeleteAbsorbs(autoflush: bool, u: UnitOfWork, r: nat, hit: nat)
    requires r in u.stored && hit in u.stored && r != hit && r !in u.dirty && u.doomed == {}
    requires (autoflush ==> u.dirty == map[])
    ensures AfterDelete(autoflush, u, r, hit).stored == Absorbed(u.stored, r, hit, autoflush)
  {
  }

  lemma BulkDeletes(autoflush: bool, before: Table, u: UnitOfWork, source: Id, target: Id, todo: set<nat>, r: nat,
                    hit: nat)
    requires source != target && r in todo && Bulk(autoflush, before, u, source, target, todo)
    requires Holds(u.stored, hit, target, u.stored[r].slot)
    ensures Bulk(autoflush, before, AfterDelete(autoflush, u, r, hit), source, target, todo - {r})
  {
    DeleteAbsorbs(autoflush, u, r, hit);
    BulkAbsorbs(autoflush, before, u, AfterDelete(autoflush, u, r, hit).dirty, source, target, todo, r, hit);
  }

  lemma BulkLoads(autoflush: bool, before: Table, u: UnitOfWork, source: Id, target: Id, todo: set<nat>, r: nat)
    requires r in todo && Bulk(autoflush, before, u, source, target, todo)
    ensures r in u.stored && r !in u.dirty && u.BeforeStatement(autoflush) == u
  {
    u.CleanIsWritten();
  }

  lemma BulkStarts(autoflush: bool, t: Table, source: Id, target: Id)
    requires UniqueSlots(t)
    ensures Bulk(autoflush, t, UnitOfWork(t, map[], {}), source, target, RowsOf(t, source))
  {
    StayMidway(t, source, target, autoflush);
    ColumnsStart(t, source, target);
  }

  /** `_merge_snapshots` of this script. */
  method MergeSnapshots(db: Session, source: Id, target: Id) returns (moved: nat, deleted: nat)
    requires source != target
    requires db.rows.Clean() && UniqueSlots(db.rows.stored)
    modifies db`rows
    ensures Bulk(db.autoflush, old(db.rows.stored), db.rows, source, target, {})
    ensures moved + deleted == |RowsOf(old(db.rows.stored), source)|
  {
    hide Bulk;
    ghost var before := db.rows.stored;
    db.rows.CleanIsWritten();
    db.Autoflush();
    BulkStarts(db.autoflush, before, source, target);
    var todo := RowsOf(db.rows.stored, source);
    moved, deleted := 0, 0;
    while todo != {}
      invariant Bulk(db.autoflush, before, db.rows, source, target, todo)
      invariant moved + deleted + |todo| == |RowsOf(before, source)|
      decreases todo
    {
      var r :| r in todo;
      BulkLoads(db.autoflush, before, db.rows, source, target, todo, r);
      ghost var u := db.rows;
      db.Autoflush();
      var row := db.rows.Load(r);
      var hits := set h | h in db.rows.stored && Holds(db.rows.stored, h, target, row.slot);
      if hits == {} {
        assert forall h :: Holds(db.rows.stored, h, target, row.slot) ==> h in hits;
        BulkMoves(db.autoflush, before, u, source, target, todo, r);
        db.Autoflush();
        db.rows := db.rows.(stored := db.rows.stored[r := db.rows.stored[r].(identity := target)]);
        moved := moved + 1;
      } else {
        var hit :| hit in hits;
        BulkDeletes(db.autoflush, before, u, source, target, todo, r, hit);
        if Beats(row, db.rows.Load(hit)) {
          db.rows := db.rows.(dirty := db.rows.dirty[hit := Winner(row, db.rows.Load(hit))]);
        }
        db.Autoflush();
        db.rows := db.rows.(stored := db.rows.stored - {r});
        deleted := deleted + 1;
      }
      todo := todo - {r};
    }
  }

  // --- moving one identity ---

  const HISTORY_TABLES: seq<OwnedTable> :=
    [DownloadHistory, TransferHistory, MovieSubscriptions, TvSubscriptions, SubscriptionEpisodes, SubscriptionHistory]

  const ALL_TABLES: set<OwnedTable> :=
    {DownloadHistory, TransferHistory, MovieSubscriptions, TvSubscriptions, SubscriptionEpisodes, SubscriptionHistory,
     SearchResults, LifecycleEvents}

  datatype MoveCounts = MoveCounts(histories: nat, search: nat, events: nat, snapshots: nat)

  function SetOf(tables: seq<OwnedTable>): set<OwnedTable> {
    set m | m in tables
  }

  ghost function CountOwned(rows: OwnedRows, tables: seq<OwnedTable>, id: Id): nat {
    if tables == [] then 0
    else CountOwned(rows, tables[..|tables| - 1], id) + |OwnedBy(rows, tables[|tables| - 1], id)|
  }

  lemma RepointOneMore(rows: OwnedRows, tables: set<OwnedTable>, table: OwnedTable, source: Id, target: Id)
    requires source != target && table !in tables
    ensures Repoint(Repoint(rows, tables, source, target), {table}, source, target)
            == Repoint(rows, tables + {table}, source, target)
    ensures OwnedBy(Repoint(rows, tables, source, target), table, source) == OwnedBy(rows, table, source)
  {
  }

  lemma HistoryListedOnce(i: nat)
    requires i < |HISTORY_TABLES|
    ensures HISTORY_TABLES[i] !in SetOf(HISTORY_TABLES[..i])
    ensures HISTORY_TABLES[..i + 1] == HISTORY_TABLES[..i] + [HISTORY_TABLES[i]]
    ensures SetOf(HISTORY_TABLES[..i + 1]) == SetOf(HISTORY_TABLES[..i]) + {HISTORY_TABLES[i]}
  {
  }

  lemma RepointNone(rows: OwnedRows, source: Id, target: Id)
    ensures Repoint(rows, {}, source, target) == rows
  {
  }

  /** The loop over the six history and subscription models. */
  method RepointHistories(db: Session, source: Id, target: Id) returns (count: nat)
    requires source != target && db.rows.BeforeStatement(db.autoflush) == db.rows
    modifies db`rows, db`owned
    ensures db.rows == old(db.rows)
    ensures db.owned == Repoint(old(db.owned), SetOf(HISTORY_TABLES), source, target)
    ensures count == CountOwned(old(db.owned), HISTORY_TABLES, source)
  {
    hide Repoint;
    hide OwnedBy;
    ghost var owned0 := db.owned;
    count := 0;
    RepointNone(owned0, source, target);
    assert SetOf(HISTORY_TABLES[..0]) == {};
    for i := 0 to |HISTORY_TABLES|
      invariant db.rows == old(db.rows)
      invariant db.owned == Repoint(owned0, SetOf(HISTORY_TABLES[..i]), source, target)
      invariant count == CountOwned(owned0, HISTORY_TABLES[..i], source)
    {
      HistoryListedOnce(i);
      RepointOneMore(owned0, SetOf(HISTORY_TABLES[..i]), HISTORY_TABLES[i], source, target);
      var updated := db.UpdateOwned(HISTORY_TABLES[i], source, target);
      count := count + updated;
    }
    assert HISTORY_TABLES[..|HISTORY_TABLES|] == HISTORY_TABLES;
  }

  /** All the bulk updates of `_move`. */
  method RepointAll(db: Session, source: Id, target: Id) returns (histories: nat, search: nat, events: nat)
    requires source != target && db.rows.BeforeStatement(db.autoflush) == db.rows
    modifies db`rows, db`owned
    ensures db.rows == old(db.rows)
    ensures db.owned == Repoint(old(db.owned), ALL_TABLES, source, target)
    ensures histories == CountOwned(old(db.owned), HISTORY_TABLES, source)
    ensures search == |OwnedBy(old(db.owned), SearchResults, source)|
    ensures events == |OwnedBy(old(db.owned), LifecycleEvents, source)|
  {
    hide Repoint;
    hide OwnedBy;
    hide CountOwned;
    ghost var owned0 := db.owned;
    histories := RepointHistories(db, source, target);
    RepointOneMore(owned0, SetOf(HISTORY_TABLES), SearchResults, source, target);
    search := db.UpdateOwned(SearchResults, source, target);
    RepointOneMore(owned0, SetOf(HISTORY_TABLES) + {SearchResults}, LifecycleEvents, source, target);
    events := db.UpdateOwned(LifecycleEvents, source, target);
    assert SetOf(HISTORY_TABLES) + {SearchResults} + {LifecycleEvents} == ALL_TABLES;
  }

  /** What one executed move does to the tables. */
  ghost predicate Moved(autoflush: bool, s: View, next: View, source: Id, target: Id) {
    && next.rows.Clean()
    && Image(s.rows.stored, next.rows.stored, RowOwners(s.rows.stored, map[source := target]), autoflush)
    && OthersStay(s.rows.stored, next.rows.stored, source)
    && (autoflush ==> Columns(s.rows.stored, next.rows.stored, source, target, {}))
    && RefImage(s.refs, next.refs, map[source := target])
    && MovedOnce(s.refs, next.refs, source, target)
    && next.ids == s.ids - {source}
    && next.owned == Repoint(s.owned, ALL_TABLES, source, target)
  }

  /** `_move`. */
  method Move(db: Session, source: Id, target: Id) returns (counts: MoveCounts)
    requires source != target
    requires db.rows.Clean() && UniqueSlots(db.rows.stored)
    modifies db
    ensures Moved(db.autoflush, old(ViewOf(db)), ViewOf(db), source, target)
    ensures db.identities == old(db.identities) - {source}
    ensures counts == MoveCounts(CountOwned(old(db.owned), HISTORY_TABLES, source),
                                 |OwnedBy(old(db.owned), SearchResults, source)|,
                                 |OwnedBy(old(db.owned), LifecycleEvents, source)|,
                                 |RowsOf(old(db.rows.stored), source)|)
  {
    hide Image;
    hide RefImage;
    hide MovedOnce;
    hide Bulk;
    hide OthersStay;
    hide Columns;
    ghost var before := db.rows.stored;
    db.rows.CleanIsWritten();
    var histories, search, events := RepointAll(db, source, target);
    var visited := db.MoveRefs(source, target);
    var moved, deleted := MergeSnapshots(db, source, target);
    BulkEnds(db.autoflush, before, db.rows, source, target);
    db.DeleteIdentity(source);
    db.ExpireAll();
    counts := MoveCounts(histories, search, events, moved + deleted);
  }

  lemma BulkEnds(autoflush: bool, before: Table, u: UnitOfWork, source: Id, target: Id)
    requires Bulk(autoflush, before, u, source, target, {})
    ensures u.BeforeStatement(autoflush) == u && u.(dirty := map[]).Clean()
    ensures Image(before, u.stored, RowOwners(before, map[source := target]), autoflush)
    ensures OthersStay(before, u.stored, source)
    ensures autoflush ==> Columns(before, u.stored, source, target, {})
  {
    u.CleanIsWritten();
    assert Midway(before, source, target, {}) == RowOwners(before, map[source := target]);
  }

  // --- titles ---

  datatype Key = Key(title: string, year: string, mediaType: string)

  function KeyOf(row: Snapshot): Key {
    Key(NormalizeTitle(row.standing.title.GetOr("")), row.standing.year.GetOr(""), row.kept.mediaType)
  }

  function Owners(t: Table): set<Id> {
    set r | r in t :: t[r].identity
  }

  function KeyOwners(t: Table, key: Key): set<Id> {
    set r | r in t && KeyOf(t[r]) == key :: t[r].identity
  }

  /** Rows of the two identities agree on the media type, which no merge copies. */
  ghost predicate AgreeOnType(t: Table, source: Id, target: Id) {
    forall a, b ::
      a in t && b in t && Own(map[source := target], t[a].identity) == Own(map[source := target], t[b].identity)
      ==> t[a].kept.mediaType == t[b].kept.mediaType
  }

  /** A move hands every key to the new owners of the identities that held it, and creates no key. When the session
      flushes, this needs the two identities to agree on the media type. */
  lemma MoveKeepsKeys(t: Table, next: Table, source: Id, target: Id, copy: bool, key: Key)
    requires Image(t, next, RowOwners(t, map[source := target]), copy)
    requires copy ==> AgreeOnType(t, source, target)
    ensures forall x :: x in KeyOwners(next, key)
                        ==> exists y :: y in KeyOwners(t, key) && x == Own(map[source := target], y)
  {
    var owner := RowOwners(t, map[source := target]);
    forall x | x in KeyOwners(next, key)
      ensures exists y :: y in KeyOwners(t, key) && x == Own(map[source := target], y)
    {
      var r :| r in next && KeyOf(next[r]) == key && next[r].identity == x;
      assert StandsOn(t, next, owner, copy, r) && KeepsRow(t, next, owner, r);
      var w := r;
      if copy {
        w :| Carried(t, next, owner, r, w);
      }
      assert KeyOf(t[w]) == key;
      assert t[w].identity in KeyOwners(t, key);
    }
  }

  lemma OwnerArrives(t: Table, next: Table, source: Id, target: Id, copy: bool, x: Id)
    requires Image(t, next, RowOwners(t, map[source := target]), copy) && x in Owners(t)
    ensures Own(map[source := target], x) in Owners(next)
  {
    var owner := RowOwners(t, map[source := target]);
    var r :| r in t && t[r].identity == x;
    assert Answered(t, next, owner, copy, r);
    var r1 :| Answers(t, next, owner, copy, r, r1);
    assert next[r1].identity in Owners(next);
  }

  lemma OwnerCameFrom(t: Table, next: Table, source: Id, target: Id, copy: bool, x: Id) returns (y: Id)
    requires Image(t, next, RowOwners(t, map[source := target]), copy) && x in Owners(next)
    ensures y in Owners(t) && x == Own(map[source := target], y)
  {
    var r :| r in next && next[r].identity == x;
    assert KeepsRow(t, next, RowOwners(t, map[source := target]), r);
    y := t[r].identity;
  }

  /** The source stops owning rows, and the target owns them instead. */
  lemma MoveOwners(t: Table, next: Table, source: Id, target: Id, copy: bool)
    requires Image(t, next, RowOwners(t, map[source := target]), copy) && source != target
    ensures source !in Owners(next)
    ensures Owners(next) == Owners(t) - {source} + (if source in Owners(t) then {target} else {})
  {
    hide Image;
    hide Owners;
    forall x | x in Owners(next)
      ensures x != source && (x in Owners(t) || (x == target && source in Owners(t)))
    {
      var y := OwnerCameFrom(t, next, source, target, copy, x);
    }
    forall x | x in Owners(t) && x != source
      ensures x in Owners(next)
    {
      OwnerArrives(t, next, source, target, copy, x);
    }
    if source in Owners(t) {
      OwnerArrives(t, next, source, target, copy, source);
    }
  }

  ghost predicate Titled(t: Table, r: nat) {
    r in t && KeyOf(t[r]).title != ""
  }

  /** No identity has titled rows under two keys. */
  ghost predicate OneKeyEach(t: Table) {
    forall a, b :: Titled(t, a) && Titled(t, b) && t[a].identity == t[b].identity ==> KeyOf(t[a]) == KeyOf(t[b])
  }

  /** No key is held by two identities. */
  ghost predicate Unambiguous(t: Table, key: Key) {
    forall x, y :: x in KeyOwners(t, key) && y in KeyOwners(t, key) ==> x == y
  }

  lemma MoveKeepsUnambiguous(t: Table, next: Table, source: Id, target: Id, copy: bool, key: Key)
    requires Image(t, next, RowOwners(t, map[source := target]), copy)
    requires copy ==> AgreeOnType(t, source, target)
    requires Unambiguous(t, key)
    ensures Unambiguous(next, key)
  {
    MoveKeepsKeys(t, next, source, target, copy, key);
  }

  /** Every identity has one media type, its rows carry it, and references with one media code agree on it. */
  ghost predicate OneTypeEach(t: Table, refs: RefTable, kind: Id -> string) {
    && (forall r :: r in t ==> t[r].kept.mediaType == kind(t[r].identity))
    && (forall a, b ::
          a in refs && b in refs && SameCode(refs[a], refs[b]) ==> kind(refs[a].identity) == kind(refs[b].identity))
  }

  predicate SameCode(a: ExternalRef, b: ExternalRef) {
    CodeOf(a).Some? && CodeOf(a) == CodeOf(b)
  }

  lemma MoveKeepsRowTypes(t: Table, next: Table, source: Id, target: Id, copy: bool, kind: Id -> string)
    requires Image(t, next, RowOwners(t, map[source := target]), copy)
    requires kind(source) == kind(target) && forall r :: r in t ==> t[r].kept.mediaType == kind(t[r].identity)
    ensures AgreeOnType(t, source, target)
    ensures forall r :: r in next ==> next[r].kept.mediaType == kind(next[r].identity)
  {
    forall r | r in next
      ensures next[r].kept.mediaType == kind(next[r].identity)
    {
      assert KeepsRow(t, next, RowOwners(t, map[source := target]), r);
    }
  }

  lemma MoveKeepsTypes(s: View, next: View, source: Id, target: Id, autoflush: bool, kind: Id -> string)
    requires Moved(autoflush, s, next, source, target)
    requires OneTypeEach(s.rows.stored, s.refs, kind) && kind(source) == kind(target)
    ensures AgreeOnType(s.rows.stored, source, target)
    ensures OneTypeEach(next.rows.stored, next.refs, kind)
  {
    MoveKeepsRowTypes(s.rows.stored, next.rows.stored, source, target, autoflush, kind);
    hide Image;
    hide CodeOf;
  }

  lemma KeysAreDisjoint(t: Table, j: Key, k: Key, x: Id)
    requires OneKeyEach(t) && j.title != "" && k.title != "" && x in KeyOwners(t, j) && x in KeyOwners(t, k)
    ensures j == k
  {
    var a :| a in t && KeyOf(t[a]) == j && t[a].identity == x;
    var b :| b in t && KeyOf(t[b]) == k && t[b].identity == x;
    assert Titled(t, a) && Titled(t, b);
  }

  // --- one invariant for the run ---

  /** The hypotheses under which the run settles every title: identities have one key each and, when the session flushes
      and winners' titles therefore travel, one media type each. */
  ghost predicate Settleable(autoflush: bool, s0: View, kind: Id -> string) {
    OneKeyEach(s0.rows.stored) && (autoflush ==> OneTypeEach(s0.rows.stored, s0.refs, kind))
  }

  /** Keys in `open` are held by no new identity, keys outside `open` and `busy` by one identity at most. */
  ghost predicate TitlesSoFar(t0: Table, t: Table, open: set<Key>, busy: set<Key>) {
    && (forall k {:trigger KeyOwners(t, k)} :: k in open ==> KeyOwners(t, k) <= KeyOwners(t0, k))
    && (forall k: Key {:trigger Unambiguous(t, k)} :: k.title != "" && k !in open && k !in busy ==> Unambiguous(t, k))
  }

  /** Every identity that a table mentions. */
  ghost function Mentioned(s: View): set<Id> {
    s.ids + (set r | r in s.refs :: s.refs[r].identity) + Owners(s.rows.stored)
    + (set k | k in s.owned && s.owned[k].identity.Some? :: s.owned[k].identity.value)
  }

  /** One map of owners describes every table at once. */
  ghost predicate Everywhere(s0: View, s: View, owner: map<Id, Id>, autoflush: bool) {
    && owner.Keys == Mentioned(s0)
    && owner.Values <= owner.Keys
    && Image(s0.rows.stored, s.rows.stored, RowOwners(s0.rows.stored, owner), autoflush)
    && RefImage(s0.refs, s.refs, owner)
    && s.owned == Redirected(s0.owned, ALL_TABLES, owner)
    && s.ids <= s0.ids
  }

  /** What holds between two moves. */
  ghost predicate Sound(autoflush: bool, s0: View, s: View, kind: Id -> string, open: set<Key>, busy: set<Key>,
                        strict: bool, owner: map<Id, Id>) {
    var t0, t := s0.rows.stored, s.rows.stored;
    && s.rows.Clean()
    && Everywhere(s0, s, owner, autoflush)
    && Owners(t) <= Owners(t0)
    && (strict ==> Owners(t) != Owners(t0))
    && (Settleable(autoflush, s0, kind) ==>
          TitlesSoFar(t0, t, open, busy) && (autoflush ==> OneTypeEach(t, s.refs, kind)))
  }

  lemma TitlesStep(t0: Table, t: Table, next: Table, source: Id, target: Id, copy: bool, open: set<Key>, busy: set<Key>)
    requires Image(t, next, RowOwners(t, map[source := target]), copy)
    requires copy ==> AgreeOnType(t, source, target)
    requires TitlesSoFar(t0, t, open, busy)
    requires forall k :: k in open ==> source !in KeyOwners(t0, k)
    ensures TitlesSoFar(t0, next, open, busy)
  {
    forall k | k in open
      ensures KeyOwners(next, k) <= KeyOwners(t0, k)
    {
      MoveKeepsKeys(t, next, source, target, copy, k);
      assert KeyOwners(t, k) <= KeyOwners(t0, k);
    }
    forall k: Key | k.title != "" && k !in open && k !in busy
      ensures Unambiguous(next, k)
    {
      assert Unambiguous(t, k);
      MoveKeepsUnambiguous(t, next, source, target, copy, k);
    }
  }

  lemma ImageStep(t0: Table, t: Table, next: Table, owner: map<Id, Id>, source: Id, target: Id, copy: bool)
    requires Image(t0, t, RowOwners(t0, owner), copy) && Image(t, next, RowOwners(t, map[source := target]), copy)
    requires source in owner
    ensures Image(t0, next, RowOwners(t0, Redirect(owner, source, target)), copy)
  {
    Compose(t0, t, next, RowOwners(t0, owner), RowOwners(t, map[source := target]),
            RowOwners(t0, Redirect(owner, source, target)), copy);
  }

  lemma OwnStep(owner: map<Id, Id>, source: Id, target: Id)
    requires source in owner
    ensures forall x :: Own(Redirect(owner, source, target), x) == Own(map[source := target], Own(owner, x))
  {
  }

  lemma RefsStep(refs0: RefTable, refs: RefTable, next: RefTable, owner: map<Id, Id>, source: Id, target: Id)
    requires RefImage(refs0, refs, owner) && RefImage(refs, next, map[source := target]) && source in owner
    ensures RefImage(refs0, next, Redirect(owner, source, target))
  {
    OwnStep(owner, source, target);
    hide RefImage;
    hide Own;
    hide Redirect;
    RefCompose(refs0, refs, next, owner, map[source := target], Redirect(owner, source, target));
  }

  lemma OwnedStep(owned0: OwnedRows, owner: map<Id, Id>, source: Id, target: Id)
    requires source in owner
    ensures Repoint(Redirected(owned0, ALL_TABLES, owner), ALL_TABLES, source, target)
            == Redirected(owned0, ALL_TABLES, Redirect(owner, source, target))
  {
    OwnStep(owner, source, target);
    hide Own;
    hide Redirect;
    RedirectStep(owned0, ALL_TABLES, owner, Redirect(owner, source, target), source, target);
  }

  lemma RedirectCloses(owner: map<Id, Id>, source: Id, target: Id)
    requires owner.Values <= owner.Keys && target in owner
    ensures Redirect(owner, source, target).Keys == owner.Keys
    ensures Redirect(owner, source, target).Values <= owner.Keys
  {
  }

  lemma EverywhereStep(s0: View, s: View, next: View, owner: map<Id, Id>, source: Id, target: Id, autoflush: bool)
    requires Everywhere(s0, s, owner, autoflush) && Moved(autoflush, s, next, source, target)
    requires source in owner && target in owner
    ensures Everywhere(s0, next, Redirect(owner, source, target), autoflush)
  {
    hide Image;
    hide RefImage;
    hide Redirected;
    hide RowOwners;
    hide MovedOnce;
    hide OthersStay;
    hide Repoint;
    hide Redirect;
    hide Mentioned;
    ImageStep(s0.rows.stored, s.rows.stored, next.rows.stored, owner, source, target, autoflush);
    RefsStep(s0.refs, s.refs, next.refs, owner, source, target);
    OwnedStep(s0.owned, owner, source, target);
    RedirectCloses(owner, source, target);
  }

  lemma SoundReaches(autoflush: bool, s0: View, s: View, kind: Id -> string, open: set<Key>, busy: set<Key>,
                     strict: bool, owner: map<Id, Id>)
    requires Sound(autoflush, s0, s, kind, open, busy, strict, owner)
    ensures owner.Keys == Mentioned(s0)
  {
  }

  lemma PromiseStep(autoflush: bool, s0: View, s: View, next: View, kind: Id -> string, open: set<Key>, busy: set<Key>,
                    source: Id, target: Id)
    requires Moved(autoflush, s, next, source, target)
    requires TitlesSoFar(s0.rows.stored, s.rows.stored, open, busy)
    requires (autoflush ==> OneTypeEach(s.rows.stored, s.refs, kind))
    requires autoflush ==> kind(source) == kind(target)
    requires forall k :: k in open ==> source !in KeyOwners(s0.rows.stored, k)
    ensures TitlesSoFar(s0.rows.stored, next.rows.stored, open, busy)
    ensures autoflush ==> OneTypeEach(next.rows.stored, next.refs, kind)
  {
    if autoflush {
      MoveKeepsTypes(s, next, source, target, autoflush, kind);
    }
    TitlesStep(s0.rows.stored, s.rows.stored, next.rows.stored, source, target, autoflush, open, busy);
  }

  lemma OwnersShrink(autoflush: bool, t0: Table, s: View, next: View, strict: bool, source: Id, target: Id)
    requires Moved(autoflush, s, next, source, target) && source != target
    requires Owners(s.rows.stored) <= Owners(t0) && (strict ==> Owners(s.rows.stored) != Owners(t0))
    requires source in Owners(s.rows.stored) ==> target in Owners(s.rows.stored)
    ensures Owners(next.rows.stored) <= Owners(t0)
    ensures strict || source in Owners(s.rows.stored) ==> Owners(next.rows.stored) != Owners(t0)
  {
    MoveOwners(s.rows.stored, next.rows.stored, source, target, autoflush);
  }

  lemma SoundStep(autoflush: bool, s0: View, s: View, next: View, kind: Id -> string, open: set<Key>, busy: set<Key>,
                  strict: bool, owner: map<Id, Id>, source: Id, target: Id)
    requires Sound(autoflush, s0, s, kind, open, busy, strict, owner) && Moved(autoflush, s, next, source, target)
    requires source != target && source in owner && target in owner
    requires source in Owners(s.rows.stored) ==> target in Owners(s.rows.stored)
    requires Settleable(autoflush, s0, kind) && autoflush ==> kind(source) == kind(target)
    requires Settleable(autoflush, s0, kind) ==> forall k :: k in open ==> source !in KeyOwners(s0.rows.stored, k)
    ensures Sound(autoflush, s0, next, kind, open, busy, strict || source in Owners(s.rows.stored),
                  Redirect(owner, source, target))
  {
    hide Image;
    hide RefImage;
    hide Everywhere;
    hide OneTypeEach;
    hide TitlesSoFar;
    hide Settleable;
    hide Owners;
    hide KeyOwners;
    hide Redirect;
    hide Repoint;
    hide RowOwners;
    EverywhereStep(s0, s, next, owner, source, target, autoflush);
    OwnersShrink(autoflush, s0.rows.stored, s, next, strict, source, target);
    if Settleable(autoflush, s0, kind) {
      PromiseStep(autoflush, s0, s, next, kind, open, busy, source, target);
    }
  }

  // --- title groups ---

  /** The groups as `GroupTitles` reads them. */
  ghost predicate TitleGroups(t: Table, groups: map<Key, set<Id>>) {
    && (forall k :: k in groups <==> k.title != "" && KeyOwners(t, k) != {})
    && (forall k :: k in groups ==> groups[k] == KeyOwners(t, k))
  }

  /** The identities per normalised key, blank titles left out. */
  method GroupTitles(t: Table) returns (groups: map<Key, set<Id>>)
    ensures TitleGroups(t, groups)
  {
    hide KeyOf;
    hide KeyOwners;
    KeyOwnersEmpty();
    groups := map[];
    var todo := t.Keys;
    ghost var seen: Table := map[];
    while todo != {}
      invariant seen.Keys !! todo && seen.Keys + todo == t.Keys
      invariant forall r :: r in seen ==> seen[r] == t[r]
      invariant forall k :: k in groups <==> k.title != "" && KeyOwners(seen, k) != {}
      invariant forall k :: k in groups ==> groups[k] == KeyOwners(seen, k)
      decreases todo
    {
      var r :| r in todo;
      var key := KeyOf(t[r]);
      KeyOwnersGrow(seen, r, t[r]);
      if key.title != "" {
        groups := groups[key := (if key in groups then groups[key] else {}) + {t[r].identity}];
      }
      seen := seen[r := t[r]];
      todo := todo - {r};
    }
    assert seen == t;
  }

  /** A group holds exactly the identities with a row of one normalised title that is not blank, one year and one media
      type. */
  lemma TitleGroupsExactly(t: Table, groups: map<Key, set<Id>>, r: nat, x: Id)
    requires TitleGroups(t, groups) && r in t
    ensures var title := NormalizeTitle(t[r].standing.title.GetOr(""));
            (exists k :: k in groups && t[r].identity in groups[k] && x in groups[k] && k == KeyOf(t[r]))
            <==> title != "" && exists q :: q in t && t[q].identity == x
                                            && NormalizeTitle(t[q].standing.title.GetOr("")) == title
                                            && t[q].standing.year.GetOr("") == t[r].standing.year.GetOr("")
                                            && t[q].kept.mediaType == t[r].kept.mediaType
  {
    var k := KeyOf(t[r]);
    assert t[r].identity in KeyOwners(t, k);
    if q :| q in t && t[q].identity == x && KeyOf(t[q]) == k {
      assert x in KeyOwners(t, k);
    }
  }

  lemma KeyOwnersEmpty()
    ensures forall k :: KeyOwners(map[], k) == {}
  {
  }

  lemma KeyOwnersGrow(t: Table, r: nat, row: Snapshot)
    requires r !in t
    ensures forall k :: KeyOwners(t[r := row], k) == KeyOwners(t, k) + (if KeyOf(row) == k then {row.identity} else {})
  {
    forall k
      ensures KeyOwners(t[r := row], k) == KeyOwners(t, k) + (if KeyOf(row) == k then {row.identity} else {})
    {
      var next := t[r := row];
      forall x | x in KeyOwners(t, k)
        ensures x in KeyOwners(next, k)
      {
        var a :| a in t && KeyOf(t[a]) == k && t[a].identity == x;
        assert a in next && KeyOf(next[a]) == k && next[a].identity == x;
      }
      if KeyOf(row) == k {
        assert r in next && KeyOf(next[r]) == k && next[r].identity == row.identity;
      }
    }
  }

  /** The sources of a title group still to move: if one of them has rows then so has the target, and under the
      hypotheses nobody else holds the key. */
  ghost predicate TitleGroup(settleable: bool, t0: Table, t: Table, key: Key, rest: set<Id>, target: Id) {
    && key.title != ""
    && target !in rest && target in KeyOwners(t0, key) && rest <= KeyOwners(t0, key)
    && (forall x :: x in rest && x in Owners(t) ==> target in Owners(t))
    && (settleable ==> KeyOwners(t, key) <= rest + {target})
  }

  lemma KeyOwnersAreOwners(t: Table, key: Key)
    ensures KeyOwners(t, key) <= Owners(t)
  {
  }

  lemma KeyHasKind(t: Table, refs: RefTable, kind: Id -> string, key: Key, x: Id)
    requires OneTypeEach(t, refs, kind) && x in KeyOwners(t, key)
    ensures kind(x) == key.mediaType
  {
  }

  /** The move leaves the group one source shorter. */
  lemma TitleGroupStep(settleable: bool, t0: Table, t: Table, next: Table, key: Key, rest: set<Id>, target: Id,
                       source: Id, copy: bool)
    requires TitleGroup(settleable, t0, t, key, rest, target) && source in rest
    requires Image(t, next, RowOwners(t, map[source := target]), copy)
    requires settleable && copy ==> AgreeOnType(t, source, target)
    ensures TitleGroup(settleable, t0, next, key, rest - {source}, target)
  {
    MoveOwners(t, next, source, target, copy);
    if settleable {
      MoveKeepsKeys(t, next, source, target, copy, key);
    }
  }

  /** The identities of a group agree on the media type, and a member is in no other open group. */
  lemma GroupFits(autoflush: bool, s0: View, kind: Id -> string, open: set<Key>, key: Key, source: Id, target: Id)
    requires Settleable(autoflush, s0, kind)
    requires source in KeyOwners(s0.rows.stored, key) && target in KeyOwners(s0.rows.stored, key)
    requires key.title != "" && key !in open && forall k :: k in open ==> k.title != ""
    ensures autoflush ==> kind(source) == kind(target)
    ensures forall k :: k in open ==> source !in KeyOwners(s0.rows.stored, k)
  {
    var t0 := s0.rows.stored;
    forall k | k in open
      ensures source !in KeyOwners(t0, k)
    {
      if source in KeyOwners(t0, k) {
        KeysAreDisjoint(t0, k, key, source);
      }
    }
    if autoflush {
      KeyHasKind(t0, s0.refs, kind, key, source);
      KeyHasKind(t0, s0.refs, kind, key, target);
    }
  }

  lemma SoundTypes(autoflush: bool, s0: View, s: View, next: View, kind: Id -> string, open: set<Key>, busy: set<Key>,
                   strict: bool, owner: map<Id, Id>, source: Id, target: Id)
    requires Sound(autoflush, s0, s, kind, open, busy, strict, owner) && Moved(autoflush, s, next, source, target)
    requires Settleable(autoflush, s0, kind) && autoflush && kind(source) == kind(target)
    ensures AgreeOnType(s.rows.stored, source, target)
  {
    MoveKeepsTypes(s, next, source, target, autoflush, kind);
  }

  lemma TitleStep(autoflush: bool, s0: View, s: View, next: View, kind: Id -> string, open: set<Key>, strict: bool,
                  owner: map<Id, Id>, key: Key, rest: set<Id>, target: Id, source: Id)
    requires Sound(autoflush, s0, s, kind, open, {key}, strict, owner) && Moved(autoflush, s, next, source, target)
    requires TitleGroup(Settleable(autoflush, s0, kind), s0.rows.stored, s.rows.stored, key, rest, target)
    requires source in rest
    requires !strict ==> s.rows.stored == s0.rows.stored
    requires key !in open && forall k :: k in open ==> k.title != ""
    ensures Sound(autoflush, s0, next, kind, open, {key}, true, Redirect(owner, source, target))
    ensures TitleGroup(Settleable(autoflush, s0, kind), s0.rows.stored, next.rows.stored, key, rest - {source}, target)
  {
    KeyOwnersAreOwners(s0.rows.stored, key);
    if Settleable(autoflush, s0, kind) {
      GroupFits(autoflush, s0, kind, open, key, source, target);
      if autoflush {
        SoundTypes(autoflush, s0, s, next, kind, open, {key}, strict, owner, source, target);
      }
    }
    TitleGroupStep(Settleable(autoflush, s0, kind), s0.rows.stored, s.rows.stored, next.rows.stored, key, rest, target,
                   source, autoflush);
    SoundStep(autoflush, s0, s, next, kind, open, {key}, strict, owner, source, target);
  }

  lemma TitleGroupCloses(autoflush: bool, s0: View, s: View, kind: Id -> string, open: set<Key>, strict: bool,
                         owner: map<Id, Id>, key: Key, target: Id)
    requires Sound(autoflush, s0, s, kind, open, {key}, strict, owner)
    requires TitleGroup(Settleable(autoflush, s0, kind), s0.rows.stored, s.rows.stored, key, {}, target)
    ensures Sound(autoflush, s0, s, kind, open, {}, strict, owner)
  {
    hide Everywhere;
    hide OneTypeEach;
    if Settleable(autoflush, s0, kind) {
      assert Unambiguous(s.rows.stored, key);
    }
  }

  lemma TitleGroupOpens(autoflush: bool, s0: View, s: View, kind: Id -> string, open: set<Key>, strict: bool,
                        owner: map<Id, Id>, key: Key)
    requires Sound(autoflush, s0, s, kind, open, {}, strict, owner) && key in open
    ensures Sound(autoflush, s0, s, kind, open - {key}, {key}, strict, owner)
    ensures Settleable(autoflush, s0, kind) ==> KeyOwners(s.rows.stored, key) <= KeyOwners(s0.rows.stored, key)
  {
  }

  /** A group of one identity needs no move: the key is settled as it is. */
  lemma SmallGroupCloses(autoflush: bool, s0: View, s: View, kind: Id -> string, open: set<Key>, strict: bool,
                         owner: map<Id, Id>, key: Key)
    requires Sound(autoflush, s0, s, kind, open, {}, strict, owner) && key in open
    requires |KeyOwners(s0.rows.stored, key)| < 2
    ensures Sound(autoflush, s0, s, kind, open - {key}, {}, strict, owner)
  {
    hide Everywhere;
    hide OneTypeEach;
    if Settleable(autoflush, s0, kind) {
      forall x, y | x in KeyOwners(s.rows.stored, key) && y in KeyOwners(s.rows.stored, key)
        ensures x == y
      {
        assert {x, y} <= KeyOwners(s0.rows.stored, key);
        SmallSet(KeyOwners(s0.rows.stored, key), x, y);
      }
    }
  }

  lemma SmallSet(s: set<Id>, x: Id, y: Id)
    requires |s| < 2 && x in s && y in s
    ensures x == y
  {
    var rest := s - {x};
    assert |rest| == 0;
    assert y !in rest;
  }

  // --- which identities a run joins, and in which order ---

  /** Pairs of identities with rows under one non-blank key or references to one media code. */
  ghost function Kin(s: View): set<(Id, Id)> {
    var t, refs := s.rows.stored, s.refs;
    (set a, b | a in t && b in t && SameTitle(t[a], t[b]) :: (t[a].identity, t[b].identity))
    + (set a, b | a in refs && b in refs && SameCode(refs[a], refs[b]) :: (refs[a].identity, refs[b].identity))
  }

  predicate SameTitle(a: Snapshot, b: Snapshot) {
    KeyOf(a) == KeyOf(b) && KeyOf(a).title != ""
  }

  /** Every identity is akin to the one it has been merged into. */
  ghost predicate OwnersAreKin(s: View, owner: map<Id, Id>) {
    forall x :: x in owner ==> Reaches(Kin(s), x, owner[x])
  }

  /** Identities with one owner are connected by a chain of shared titles and codes. */
  ghost predicate OnlyKin(s: View, owner: map<Id, Id>) {
    forall x, y :: x in owner && y in owner && owner[x] == owner[y] ==> Reaches(Kin(s), x, y)
  }

  lemma KinIsSymmetric(s: View)
    ensures Symmetric(Kin(s))
  {
  }

  lemma KinOfOwner(s: View, owner: map<Id, Id>)
    requires OwnersAreKin(s, owner)
    ensures OnlyKin(s, owner)
  {
    KinIsSymmetric(s);
    forall x, y | x in owner && y in owner && owner[x] == owner[y]
      ensures Reaches(Kin(s), x, y)
    {
      ReachesBack(Kin(s), y, owner[y]);
      ReachesJoin(Kin(s), x, owner[x], y);
    }
  }

  /** The merges executed so far: what they make of the owners, and which rows they leave when no column is copied. */
  ghost predicate Traced(autoflush: bool, s0: View, s: View, owner: map<Id, Id>, merges: seq<Merged>) {
    && InLine(owner, merges)
    && OwnersAreKin(s0, owner)
    && s.ids == s0.ids - Sources(merges)
    && (!autoflush ==> Inherited(s0.rows.stored, s.rows.stored, merges))
  }

  lemma TracedStarts(autoflush: bool, s: View)
    ensures Traced(autoflush, s, s, map x | x in Mentioned(s) :: x, [])
  {
    InLineStarts(Mentioned(s));
    InheritedStarts(s.rows.stored);
    forall x | x in Mentioned(s)
      ensures Reaches(Kin(s), x, x)
    {
      ReachesSelf(Kin(s), x);
    }
  }

  /** Without autoflush a move leaves the target its rows and adds those of the source whose slots it lacks. */
  lemma MoveTakesOver(t: Table, after: Table, source: Id, target: Id)
    requires Image(t, after, RowOwners(t, map[source := target]), false) && OthersStay(t, after, source)
    requires source != target && UniqueSlots(t)
    ensures TakesOver(t, after, source, target)
  {
    var owner := RowOwners(t, map[source := target]);
    forall r | r in after
      ensures r in t && after[r].standing == t[r].standing
      ensures KeepsRow(t, after, owner, r)
    {
      assert StandsOn(t, after, owner, false, r);
    }
    forall slot, r | Holds(t, r, source, slot) && !Occupied(t, target, slot)
      ensures Holds(after, r, target, slot)
    {
      assert Answered(t, after, owner, false, r);
      var r1 :| Answers(t, after, owner, false, r, r1);
      assert !Holds(t, r1, target, slot);
      assert KeepsRow(t, after, owner, r1);
    }
    forall slot, r | Holds(after, r, target, slot) && Occupied(t, target, slot)
      ensures Holds(t, r, target, slot)
    {
      var h :| Holds(t, h, target, slot);
      assert KeepsRow(t, after, owner, h);
    }
  }

  lemma TracedStep(autoflush: bool, s0: View, s: View, next: View, owner: map<Id, Id>, merges: seq<Merged>, source: Id,
                   target: Id)
    requires Traced(autoflush, s0, s, owner, merges) && Moved(autoflush, s, next, source, target)
    requires source != target && UniqueSlots(s.rows.stored) && Reaches(Kin(s0), source, target)
    ensures Traced(autoflush, s0, next, Redirect(owner, source, target), merges + [Merged(source, target)])
  {
    if !autoflush {
      MoveTakesOver(s.rows.stored, next.rows.stored, source, target);
      InheritedStep(s0.rows.stored, s.rows.stored, next.rows.stored, merges, source, target);
    }
    assert next.ids == s.ids - {source};
    hide Inherited;
    hide Moved;
    hide Kin;
    InLineStep(owner, merges, source, target);
    hide InLine;
    SourcesGrow(merges, Merged(source, target));
    hide Sources;
    forall x | x in owner && owner[x] == source
      ensures Reaches(Kin(s0), x, target)
    {
      ReachesJoin(Kin(s0), x, source, target);
    }
  }

  lemma TitleKin(s: View, key: Key, x: Id, y: Id)
    requires key.title != "" && x in KeyOwners(s.rows.stored, key) && y in KeyOwners(s.rows.stored, key)
    ensures Reaches(Kin(s), x, y)
  {
    var t := s.rows.stored;
    var a :| a in t && KeyOf(t[a]) == key && t[a].identity == x;
    var b :| b in t && KeyOf(t[b]) == key && t[b].identity == y;
    assert SameTitle(t[a], t[b]);
    ReachesOne(Kin(s), x, y);
  }

  /** Identities that hold one code in the middle of a run stem from identities that held it at the start. */
  lemma CodeKin(s0: View, s: View, owner: map<Id, Id>, code: string, x: Id, y: Id)
    requires OwnersAreKin(s0, owner) && RefImage(s0.refs, s.refs, owner) && Mentioned(s0) <= owner.Keys
    requires x in CodeOwners(s.refs, code) && y in CodeOwners(s.refs, code)
    ensures Reaches(Kin(s0), x, y)
  {
    var a := CodeOrigin(s0, s, owner, code, x);
    var b := CodeOrigin(s0, s, owner, code, y);
    assert SameCode(s0.refs[a], s0.refs[b]);
    var i, j := s0.refs[a].identity, s0.refs[b].identity;
    ReachesOne(Kin(s0), i, j);
    KinIsSymmetric(s0);
    ReachesBack(Kin(s0), i, x);
    ReachesJoin(Kin(s0), x, i, j);
    ReachesJoin(Kin(s0), x, j, y);
  }

  lemma CodeOrigin(s0: View, s: View, owner: map<Id, Id>, code: string, x: Id) returns (a: nat)
    requires OwnersAreKin(s0, owner) && RefImage(s0.refs, s.refs, owner) && Mentioned(s0) <= owner.Keys
    requires x in CodeOwners(s.refs, code)
    ensures a in s0.refs && CodeOf(s0.refs[a]) == Some(code) && Reaches(Kin(s0), s0.refs[a].identity, x)
  {
    a :| a in s.refs && CodeOf(s.refs[a]) == Some(code) && s.refs[a].identity == x;
    assert s0.refs[a].identity in Mentioned(s0);
  }

  // --- running the groups ---

  datatype Tally = Tally(groups: nat, codeGroups: nat, merged: nat, identitiesBefore: nat, identitiesAfter: nat,
                         histories: nat, search: nat, events: nat, snapshots: nat) {
    /** The counters that no move touches. */
    predicate SameGroups(other: Tally) {
      groups == other.groups && codeGroups == other.codeGroups && identitiesBefore == other.identitiesBefore
    }

    function Add(counts: MoveCounts): Tally {
      this.(merged := merged + 1, histories := histories + counts.histories, search := search + counts.search,
            events := events + counts.events, snapshots := snapshots + counts.snapshots)
    }
  }

  /** The counters of a run so far, told from the tables before it. */
  ghost predicate Summed(s0: View, merges: seq<Merged>, tally: Tally) {
    && tally.merged == |merges|
    && tally.histories == OwnedTotal(s0.owned, SetOf(HISTORY_TABLES), merges)
    && tally.search == OwnedTotal(s0.owned, {SearchResults}, merges)
    && tally.events == OwnedTotal(s0.owned, {LifecycleEvents}, merges)
    && tally.snapshots == SlotTotal(s0.rows.stored, merges)
  }

  lemma SummedLater(s0: View, merges: seq<Merged>, tally: Tally, groups: nat, codeGroups: nat, left: nat)
    requires Summed(s0, merges, tally)
    ensures Summed(s0, merges, tally.(groups := groups)) && Summed(s0, merges, tally.(codeGroups := codeGroups))
    ensures Summed(s0, merges, tally.(identitiesAfter := left))
  {
  }

  lemma {:induction false} HistoriesInLine(s0: View, s: View, owner: map<Id, Id>, merges: seq<Merged>, id: Id, i: nat)
    requires s.owned == Redirected(s0.owned, ALL_TABLES, owner) && LineTold(s0.owned, owner, Line(merges, id), id)
    requires i <= |HISTORY_TABLES|
    ensures CountOwned(s.owned, HISTORY_TABLES[..i], id)
            == |OwnedInLine(s0.owned, SetOf(HISTORY_TABLES[..i]), Line(merges, id))|
  {
    hide OwnedInLine;
    hide OwnedBy;
    hide LineTold;
    hide Line;
    if i == 0 {
      assert SetOf(HISTORY_TABLES[..0]) == {};
      NoTable(s0.owned, Line(merges, id));
    } else {
      var table := HISTORY_TABLES[i - 1];
      HistoriesInLine(s0, s, owner, merges, id, i - 1);
      HistoryListedOnce(i - 1);
      hide SetOf;
      OwnedNow(s0.owned, s.owned, ALL_TABLES, table, owner, merges, id);
      OneTableMore(s0.owned, SetOf(HISTORY_TABLES[..i - 1]), table, Line(merges, id));
      assert HISTORY_TABLES[..i][..i - 1] == HISTORY_TABLES[..i - 1];
    }
  }

  lemma SummedStep(autoflush: bool, s0: View, s: View, owner: map<Id, Id>, merges: seq<Merged>, tally: Tally,
                   counts: MoveCounts, source: Id, target: Id)
    requires Everywhere(s0, s, owner, autoflush) && InLine(owner, merges) && Summed(s0, merges, tally)
    requires counts == MoveCounts(CountOwned(s.owned, HISTORY_TABLES, source),
                                  |OwnedBy(s.owned, SearchResults, source)|,
                                  |OwnedBy(s.owned, LifecycleEvents, source)|, |RowsOf(s.rows.stored, source)|)
    ensures Summed(s0, merges + [Merged(source, target)], tally.Add(counts))
  {
    KnownOwners(s0, s, owner, autoflush, merges, source);
    var m := Merged(source, target);
    TotalsGrow(s0.owned, SetOf(HISTORY_TABLES), s0.rows.stored, merges, m);
    TotalsGrow(s0.owned, {SearchResults}, s0.rows.stored, merges, m);
    TotalsGrow(s0.owned, {LifecycleEvents}, s0.rows.stored, merges, m);
    hide Everywhere;
    hide Image;
    hide Redirected;
    hide OwnedInLine;
    hide LineTold;
    hide Mentioned;
    hide SlotsInLine;
    OwnedNow(s0.owned, s.owned, ALL_TABLES, SearchResults, owner, merges, source);
    OwnedNow(s0.owned, s.owned, ALL_TABLES, LifecycleEvents, owner, merges, source);
    HistoriesInLine(s0, s, owner, merges, source, |HISTORY_TABLES|);
    assert HISTORY_TABLES[..|HISTORY_TABLES|] == HISTORY_TABLES;
    RowsNow(s0.rows.stored, s.rows.stored, owner, merges, autoflush, source);
  }

  lemma KnownOwners(s0: View, s: View, owner: map<Id, Id>, autoflush: bool, merges: seq<Merged>, id: Id)
    requires Everywhere(s0, s, owner, autoflush) && InLine(owner, merges)
    ensures s.owned == Redirected(s0.owned, ALL_TABLES, owner) && LineTold(s0.owned, owner, Line(merges, id), id)
    ensures Image(s0.rows.stored, s.rows.stored, RowOwners(s0.rows.stored, owner), autoflush)
    ensures forall r :: r in s0.rows.stored
                        ==> (s0.rows.stored[r].identity in Line(merges, id)
                             <==> Own(owner, s0.rows.stored[r].identity) == id)
  {
  }

  lemma SumsGrow(autoflush: bool, s0: View, s: View, kind: Id -> string, open: set<Key>, busy: set<Key>, strict: bool,
                 owner: map<Id, Id>, merges: seq<Merged>, tally: Tally, counts: MoveCounts, source: Id, target: Id)
    requires Sound(autoflush, s0, s, kind, open, busy, strict, owner) && Traced(autoflush, s0, s, owner, merges)
    requires Summed(s0, merges, tally)
    requires counts == MoveCounts(CountOwned(s.owned, HISTORY_TABLES, source),
                                  |OwnedBy(s.owned, SearchResults, source)|,
                                  |OwnedBy(s.owned, LifecycleEvents, source)|, |RowsOf(s.rows.stored, source)|)
    ensures Summed(s0, merges + [Merged(source, target)], tally.Add(counts))
  {
    SummedStep(autoflush, s0, s, owner, merges, tally, counts, source, target);
  }

  lemma RowsMeanOwner(t: Table, x: Id)
    ensures |RowsOf(t, x)| > 0 <==> x in Owners(t)
  {
    if x in Owners(t) {
      var r :| r in t && t[r].identity == x;
      assert r in RowsOf(t, x);
    }
    if RowsOf(t, x) != {} {
      var r :| r in RowsOf(t, x);
      assert t[r].identity in Owners(t);
    }
  }

  function TitleScore(t: Table, ids: set<Id>, x: Id): Score {
    Score(|RowsOf(t, x)|, if x in ids then 1 else 0, 0)
  }

  function CodeScore(t: Table, refs: RefTable, ids: set<Id>, x: Id): Score {
    Score(|RowsOf(t, x)|, |RefsOf(refs, x)|, if x in ids then 1 else 0)
  }

  lemma NoneBelowEmpty(t: Table, members: set<Id>, target: Id)
    requires forall x :: x in members ==> |RowsOf(t, x)| <= |RowsOf(t, target)|
    ensures forall x :: x in members && x in Owners(t) ==> target in Owners(t)
  {
    RowsMeanOwner(t, target);
    forall x | x in members && x in Owners(t)
      ensures target in Owners(t)
    {
      RowsMeanOwner(t, x);
    }
  }

  function TitleScores(t: Table, ids: set<Id>, members: set<Id>): map<Id, Score> {
    map x | x in members :: TitleScore(t, ids, x)
  }

  /** The members as the script sorts them: by most rows, then by presence in MEDIA_IDENTITY. */
  method RankByTitle(db: Session, members: set<Id>) returns (order: seq<Id>)
    requires |members| > 0
    ensures Ranked(order, TitleScores(db.rows.stored, db.identities.Keys, members)) && |order| == |members|
    ensures order != [] && order[0] in members && Unrepeated(order) && Rest(order, 1) == members - {order[0]}
    ensures forall x :: x in members && x in Owners(db.rows.stored) ==> order[0] in Owners(db.rows.stored)
    ensures forall i, j ::
              0 <= i < j < |order|
              ==> |RowsOf(db.rows.stored, order[j])| < |RowsOf(db.rows.stored, order[i])|
                  || (|RowsOf(db.rows.stored, order[j])| == |RowsOf(db.rows.stored, order[i])|
                      && (order[j] in db.identities ==> order[i] in db.identities))
  {
    var candidates := TitleScores(db.rows.stored, db.identities.Keys, members);
    assert candidates.Keys == members;
    order := SortScored(candidates);
    RankedWhole(order, candidates);
    NoneBelowEmpty(db.rows.stored, members, order[0]);
  }

  /** The moves of one title group. */
  method MergeTitle(db: Session, key: Key, order: seq<Id>, tally: Tally, ghost s0: View, ghost kind: Id -> string,
                    ghost open: set<Key>, ghost strict: bool, ghost owner0: map<Id, Id>, ghost merges0: seq<Merged>)
    returns (after: Tally, ghost owner: map<Id, Id>)
    requires Sound(db.autoflush, s0, ViewOf(db), kind, open, {key}, strict, owner0)
    requires Traced(db.autoflush, s0, ViewOf(db), owner0, merges0)
    requires |order| >= 2 && Unrepeated(order) && Summed(s0, merges0, tally)
    requires TitleGroup(Settleable(db.autoflush, s0, kind), s0.rows.stored, db.rows.stored, key, Rest(order, 1),
                        order[0])
    requires !strict ==> db.rows.stored == s0.rows.stored
    requires key !in open && forall k :: k in open ==> k.title != ""
    modifies db
    ensures Sound(db.autoflush, s0, ViewOf(db), kind, open, {key}, true, owner)
    ensures TitleGroup(Settleable(db.autoflush, s0, kind), s0.rows.stored, db.rows.stored, key, {}, order[0])
    ensures Traced(db.autoflush, s0, ViewOf(db), owner, merges0 + Fan(order))
    ensures Summed(s0, merges0 + Fan(order), after)
    ensures after.SameGroups(tally) && after.merged == tally.merged + |order| - 1
  {
    hide Sound;
    hide TitleGroup;
    hide Moved;
    hide Settleable;
    hide Rest;
    hide Unrepeated;
    hide Traced;
    hide Summed;
    hide CountOwned;
    hide OwnedBy;
    hide RowsOf;
    hide Kin;
    after, owner := tally, owner0;
    ghost var moved := strict;
    assert merges0 + Fan(order[..1]) == merges0;
    for k := 1 to |order|
      invariant Sound(db.autoflush, s0, ViewOf(db), kind, open, {key}, moved, owner)
      invariant TitleGroup(Settleable(db.autoflush, s0, kind), s0.rows.stored, db.rows.stored, key, Rest(order, k),
                           order[0])
      invariant Traced(db.autoflush, s0, ViewOf(db), owner, merges0 + Fan(order[..k]))
      invariant Summed(s0, merges0 + Fan(order[..k]), after)
      invariant !moved ==> db.rows.stored == s0.rows.stored
      invariant k > 1 ==> moved
      invariant after.SameGroups(tally) && after.merged == tally.merged + k - 1
    {
      ghost var s := ViewOf(db);
      RestStep(order, k);
      SoundIsReady(db.autoflush, s0, s, kind, open, {key}, moved, owner);
      TitleSource(Settleable(db.autoflush, s0, kind), s0.rows.stored, s.rows.stored, key, Rest(order, k), order[0],
                  order[k]);
      TitleKin(s0, key, order[k], order[0]);
      FanStep(order, k);
      var counts := Move(db, order[k], order[0]);
      SumsGrow(db.autoflush, s0, s, kind, open, {key}, moved, owner, merges0 + Fan(order[..k]), after, counts, order[k],
               order[0]);
      TracedStep(db.autoflush, s0, s, ViewOf(db), owner, merges0 + Fan(order[..k]), order[k], order[0]);
      assert merges0 + Fan(order[..k]) + [Merged(order[k], order[0])] == merges0 + Fan(order[..k + 1]);
      TitleStep(db.autoflush, s0, s, ViewOf(db), kind, open, moved, owner, key, Rest(order, k), order[0], order[k]);
      owner := Redirect(owner, order[k], order[0]);
      moved := true;
      after := after.Add(counts);
    }
    assert order[..|order|] == order;
    NothingLeft(order);
  }

  lemma TitleSource(settleable: bool, t0: Table, t: Table, key: Key, rest: set<Id>, target: Id, source: Id)
    requires TitleGroup(settleable, t0, t, key, rest, target) && source in rest
    ensures source != target && key.title != "" && source in KeyOwners(t0, key) && target in KeyOwners(t0, key)
  {
  }

  lemma SoundIsReady(autoflush: bool, s0: View, s: View, kind: Id -> string, open: set<Key>, busy: set<Key>,
                     strict: bool, owner: map<Id, Id>)
    requires Sound(autoflush, s0, s, kind, open, busy, strict, owner)
    ensures s.rows.Clean() && UniqueSlots(s.rows.stored) && s.rows.BeforeStatement(autoflush) == s.rows
  {
    s.rows.CleanIsWritten();
  }

  /** Some normalised title is shared by two identities. */
  ghost predicate HasTitleGroup(t: Table) {
    exists k: Key, x, y :: k.title != "" && x in KeyOwners(t, k) && y in KeyOwners(t, k) && x != y
  }

  lemma EverywhereStarts(s: View, autoflush: bool)
    requires UniqueSlots(s.rows.stored)
    ensures Everywhere(s, s, map x | x in Mentioned(s) :: x, autoflush)
  {
    var owner := map x | x in Mentioned(s) :: x;
    assert RowOwners(s.rows.stored, owner) == Stay(s.rows.stored);
    StayImage(s.rows.stored, autoflush);
    RefStay(s.refs, owner);
  }

  lemma SoundStarts(autoflush: bool, s: View, kind: Id -> string, open: set<Key>)
    requires s.rows.Clean() && UniqueSlots(s.rows.stored)
    requires forall k :: k in open <==> k.title != "" && KeyOwners(s.rows.stored, k) != {}
    ensures Sound(autoflush, s, s, kind, open, {}, false, map x | x in Mentioned(s) :: x)
  {
    EverywhereStarts(s, autoflush);
    forall k: Key | k.title != "" && k !in open
      ensures Unambiguous(s.rows.stored, k)
    {
      assert KeyOwners(s.rows.stored, k) == {};
    }
  }

  lemma LargeGroup(t: Table) returns (key: Key)
    requires HasTitleGroup(t)
    ensures key.title != "" && |KeyOwners(t, key)| >= 2
  {
    var k: Key, x, y :| k.title != "" && x in KeyOwners(t, k) && y in KeyOwners(t, k) && x != y;
    if |KeyOwners(t, k)| < 2 {
      SmallSet(KeyOwners(t, k), x, y);
    }
    key := k;
  }

  /** One title group: either nothing to merge, or every member but the chosen one is moved. */
  method MergeTitleGroup(db: Session, key: Key, members: set<Id>, tally: Tally, ghost s0: View,
                         ghost kind: Id -> string, ghost open: set<Key>, ghost strict: bool, ghost owner0: map<Id, Id>,
                         ghost merges0: seq<Merged>)
    returns (after: Tally, ghost owner: map<Id, Id>, ghost added: seq<Merged>)
    requires Sound(db.autoflush, s0, ViewOf(db), kind, open, {}, strict, owner0)
    requires Traced(db.autoflush, s0, ViewOf(db), owner0, merges0)
    requires Summed(s0, merges0, tally)
    requires !strict ==> db.rows.stored == s0.rows.stored
    requires key in open && forall k :: k in open ==> k.title != ""
    requires members == KeyOwners(s0.rows.stored, key) && |members| >= 2
    modifies db
    ensures Sound(db.autoflush, s0, ViewOf(db), kind, open - {key}, {}, true, owner)
    ensures Traced(db.autoflush, s0, ViewOf(db), owner, merges0 + added)
    ensures FanOf(TitleScores(old(db.rows.stored), old(db.identities.Keys), members), added)
    ensures |added| == |members| - 1 && Summed(s0, merges0 + added, after)
    ensures after.SameGroups(tally.(groups := tally.groups + 1)) && after.merged == tally.merged + |members| - 1
  {
    hide Sound;
    hide Settleable;
    hide Ranked;
    hide Rest;
    hide Unrepeated;
    hide Traced;
    hide Summed;
    hide TitleScores;
    SoundIsReady(db.autoflush, s0, ViewOf(db), kind, open, {}, strict, owner0);
    TitleGroupOpens(db.autoflush, s0, ViewOf(db), kind, open, strict, owner0, key);
    db.Autoflush();
    var order := RankByTitle(db, members);
    after := tally.(groups := tally.groups + 1);
    SummedLater(s0, merges0, tally, tally.groups + 1, 0, 0);
    added := Fan(order);
    assert RankedFan(order, TitleScores(db.rows.stored, db.identities.Keys, members), added);
    after, owner := MergeTitle(db, key, order, after, s0, kind, open - {key}, strict, owner0, merges0);
    TitleGroupCloses(db.autoflush, s0, ViewOf(db), kind, open - {key}, true, owner, key, order[0]);
  }

  /** Outside `open` every group of two or more has been merged. */
  ghost predicate MergedOutside(groups: map<Key, set<Id>>, open: set<Key>, strict: bool) {
    forall k :: k in groups && k !in open && |groups[k]| >= 2 ==> strict
  }

  lemma GroupsStart(groups: map<Key, set<Id>>)
    ensures MergedOutside(groups, groups.Keys, false)
  {
  }

  lemma GroupMerged(groups: map<Key, set<Id>>, open: set<Key>, strict: bool, key: Key)
    requires MergedOutside(groups, open, strict)
    ensures MergedOutside(groups, open, true)
  {
  }

  lemma GroupDone(groups: map<Key, set<Id>>, open: set<Key>, strict: bool, key: Key)
    requires MergedOutside(groups, open, strict) && key in groups && (|groups[key]| >= 2 ==> strict)
    ensures MergedOutside(groups, open - {key}, strict)
  {
  }

  lemma AllGroupsMerged(t: Table, groups: map<Key, set<Id>>, strict: bool)
    requires TitleGroups(t, groups) && MergedOutside(groups, {}, strict)
    ensures HasTitleGroup(t) ==> strict
  {
    if HasTitleGroup(t) {
      var k := LargeGroup(t);
      assert k in groups;
    }
  }

  lemma TitlesStart(autoflush: bool, s: View, kind: Id -> string, groups: map<Key, set<Id>>)
    requires s.rows.Clean() && UniqueSlots(s.rows.stored) && TitleGroups(s.rows.stored, groups)
    ensures Sound(autoflush, s, s, kind, groups.Keys, {}, false, map x | x in Mentioned(s) :: x)
    ensures forall k :: k in groups ==> k.title != "" && groups[k] == KeyOwners(s.rows.stored, k)
  {
    SoundStarts(autoflush, s, kind, groups.Keys);
  }

  lemma LoneLater<K(!new)>(groups: map<K, set<Id>>, scores: map<K, map<Id, Score>>, untouched: bool, same: bool,
                           added: seq<Merged>)
    requires Lone(groups, scores, {}, untouched, added) && (untouched ==> same)
    ensures Lone(groups, scores, {}, same, added)
  {
  }

  function TitleScoresOf(t: Table, ids: set<Id>, groups: map<Key, set<Id>>): map<Key, map<Id, Score>> {
    map k | k in groups :: TitleScores(t, ids, groups[k])
  }

  /** A single group of two or more is merged in the descending order of its members' scores, and without one nothing is
      merged. */
  ghost predicate Lone<K(!new)>(groups: map<K, set<Id>>, scores: map<K, map<Id, Score>>, open: set<K>, untouched: bool,
                                added: seq<Merged>) {
    && (Large(groups, groups.Keys) == {} ==> untouched && added == [])
    && (forall k :: Large(groups, groups.Keys) == {k} ==>
                      k in scores && if k in open then untouched && added == [] else FanOf(scores[k], added))
  }

  lemma LoneStarts<K(!new)>(groups: map<K, set<Id>>, scores: map<K, map<Id, Score>>)
    requires scores.Keys == groups.Keys
    ensures Lone(groups, scores, groups.Keys, true, [])
  {
    forall k | Large(groups, groups.Keys) == {k}
      ensures k in groups
    {
      assert k in Large(groups, groups.Keys);
    }
  }

  lemma LoneSmall<K(!new)>(groups: map<K, set<Id>>, scores: map<K, map<Id, Score>>, open: set<K>, untouched: bool,
                           added: seq<Merged>, key: K)
    requires Lone(groups, scores, open, untouched, added) && key in groups && |groups[key]| < 2
    ensures Lone(groups, scores, open - {key}, untouched, added)
  {
    assert key !in Large(groups, groups.Keys);
  }

  lemma LoneLarge<K(!new)>(groups: map<K, set<Id>>, scores: map<K, map<Id, Score>>, open: set<K>, untouched: bool,
                           added0: seq<Merged>, added: seq<Merged>, key: K)
    requires Lone(groups, scores, open, untouched, added0) && key in open && key in groups && |groups[key]| >= 2
    requires key in scores && (untouched ==> FanOf(scores[key], added))
    ensures Lone(groups, scores, open - {key}, false, added0 + added)
  {
    assert key in Large(groups, groups.Keys);
    assert [] + added == added;
  }

  /** The first half of `consolidate` with `apply`: the groups of the titles as they were read at the start. */
  method MergeTitles(db: Session, groups: map<Key, set<Id>>, tally: Tally, ghost kind: Id -> string)
    returns (after: Tally, ghost owner: map<Id, Id>, ghost merges: seq<Merged>)
    requires db.rows.Clean() && UniqueSlots(db.rows.stored)
    requires TitleGroups(db.rows.stored, groups) && Summed(ViewOf(db), [], tally)
    modifies db
    ensures Sound(db.autoflush, old(ViewOf(db)), ViewOf(db), kind, {}, {}, HasTitleGroup(old(db.rows.stored)), owner)
    ensures Traced(db.autoflush, old(ViewOf(db)), ViewOf(db), owner, merges)
    ensures Lone(groups, TitleScoresOf(old(db.rows.stored), old(db.identities.Keys), groups), {},
                 ViewOf(db) == old(ViewOf(db)), merges)
    ensures after.SameGroups(tally.(groups := tally.groups + |Large(groups, groups.Keys)|))
    ensures after.merged == tally.merged + |merges| && Summed(old(ViewOf(db)), merges, after)
    ensures |merges| + |Large(groups, groups.Keys)| == |Grouped(groups, groups.Keys)|
  {
    hide Sound;
    hide KeyOwners;
    hide TitleGroups;
    hide HasTitleGroup;
    hide MergedOutside;
    hide Traced;
    hide UniqueSlots;
    hide Mentioned;
    hide TitleScores;
    hide Owners;
    hide Summed;
    hide FanOf;
    hide Lone;
    hide Large;
    hide Grouped;
    ghost var s0 := ViewOf(db);
    after, owner, merges := tally, map x | x in Mentioned(s0) :: x, [];
    ghost var strict := false;
    TitlesStart(db.autoflush, s0, kind, groups);
    GroupsStart(groups);
    TracedStarts(db.autoflush, s0);
    ghost var scores := TitleScoresOf(db.rows.stored, db.identities.Keys, groups);
    ghost var untouched := true;
    LoneStarts(groups, scores);
    LargeOfNone(groups);
    GroupedOfNone(groups);
    var open := groups.Keys;
    while open != {}
      invariant open <= groups.Keys
      invariant Sound(db.autoflush, s0, ViewOf(db), kind, open, {}, strict, owner)
      invariant !strict ==> db.rows.stored == s0.rows.stored
      invariant MergedOutside(groups, open, strict)
      invariant Traced(db.autoflush, s0, ViewOf(db), owner, merges)
      invariant Lone(groups, scores, open, untouched, merges) && (untouched ==> ViewOf(db) == s0)
      invariant after.merged == tally.merged + |merges| && Summed(s0, merges, after)
      invariant |merges| + |Large(groups, groups.Keys - open)| == |Grouped(groups, groups.Keys - open)|
      invariant after.SameGroups(tally.(groups := tally.groups + |Large(groups, groups.Keys - open)|))
      decreases open
    {
      var key :| key in open;
      LargeGrow(groups, groups.Keys - open, key);
      GroupedGrow(groups, groups.Keys - open, key);
      assert groups.Keys - open + {key} == groups.Keys - (open - {key});
      if |groups[key]| < 2 {
        LoneSmall(groups, scores, open, untouched, merges, key);
        SmallGroupCloses(db.autoflush, s0, ViewOf(db), kind, open, strict, owner, key);
      } else {
        ghost var added;
        after, owner, added := MergeTitleGroup(db, key, groups[key], after, s0, kind, open, strict, owner, merges);
        LoneLarge(groups, scores, open, untouched, merges, added, key);
        merges, untouched := merges + added, false;
        GroupMerged(groups, open, strict, key);
        strict := true;
      }
      GroupDone(groups, open, strict, key);
      open := open - {key};
    }
    assert groups.Keys - open == groups.Keys;
    LoneLater(groups, scores, untouched, ViewOf(db) == s0, merges);
    AllGroupsMerged(s0.rows.stored, groups, strict);
    SoundRelaxes(db.autoflush, s0, ViewOf(db), kind, {}, strict, HasTitleGroup(s0.rows.stored), owner);
  }

  function Large<K(==)>(groups: map<K, set<Id>>, keys: set<K>): set<K> {
    set k | k in keys && k in groups && |groups[k]| >= 2
  }

  /** The members of the groups of two or more, group by group. */
  function Grouped<K(==)>(groups: map<K, set<Id>>, keys: set<K>): set<(K, Id)> {
    set k, x | k in Large(groups, keys) && x in groups[k] :: (k, x)
  }

  lemma GroupedGrow<K>(groups: map<K, set<Id>>, keys: set<K>, key: K)
    requires key in groups && key !in keys
    ensures |Grouped(groups, keys + {key})|
            == |Grouped(groups, keys)| + (if |groups[key]| >= 2 then |groups[key]| else 0)
  {
    var before, after := Grouped(groups, keys), Grouped(groups, keys + {key});
    if |groups[key]| >= 2 {
      var added := set x | x in groups[key] :: (key, x);
      assert after == before + added && before !! added;
      PairsCounted(key, groups[key]);
    } else {
      assert after == before;
    }
  }

  lemma {:induction false} PairsCounted<K>(key: K, members: set<Id>)
    ensures |set x | x in members :: (key, x)| == |members|
    decreases |members|
  {
    if x :| x in members {
      var rest := members - {x};
      PairsCounted(key, rest);
      assert (set y | y in members :: (key, y)) == (set y | y in rest :: (key, y)) + {(key, x)};
    } else {
      assert (set y | y in members :: (key, y)) == {};
    }
  }

  lemma GroupedOfNone<K>(groups: map<K, set<Id>>)
    ensures |Grouped(groups, groups.Keys - groups.Keys)| == 0
  {
    assert Grouped(groups, groups.Keys - groups.Keys) == {};
  }

  lemma LargeOfNone<K>(groups: map<K, set<Id>>)
    ensures |Large(groups, groups.Keys - groups.Keys)| == 0
  {
    assert Large(groups, groups.Keys - groups.Keys) == {};
  }

  lemma LargeGrow<K>(groups: map<K, set<Id>>, keys: set<K>, key: K)
    requires key in groups && key !in keys
    ensures |Large(groups, keys + {key})| == |Large(groups, keys)| + (if |groups[key]| >= 2 then 1 else 0)
  {
    assert Large(groups, keys + {key}) == Large(groups, keys) + (if |groups[key]| >= 2 then {key} else {});
  }

  /** The same half without `apply`: the targets are chosen and printed, nothing moves. */
  method PreviewTitles(db: Session, groups: map<Key, set<Id>>, tally: Tally) returns (after: Tally)
    requires db.rows.Clean()
    modifies db`rows
    ensures db.rows == old(db.rows)
    ensures after == tally.(groups := tally.groups + |Large(groups, groups.Keys)|)
  {
    db.rows.CleanIsWritten();
    after := tally;
    var open := groups.Keys;
    while open != {}
      invariant open <= groups.Keys
      invariant db.rows == old(db.rows)
      invariant after == tally.(groups := tally.groups + |Large(groups, groups.Keys - open)|)
      decreases open
    {
      var key :| key in open;
      LargeGrow(groups, groups.Keys - open, key);
      assert groups.Keys - open + {key} == groups.Keys - (open - {key});
      if |groups[key]| >= 2 {
        db.Autoflush();
        var _ := RankByTitle(db, groups[key]);
        after := after.(groups := after.groups + 1);
      }
      open := open - {key};
    }
    assert groups.Keys - open == groups.Keys;
  }

  lemma SoundRelaxes(autoflush: bool, s0: View, s: View, kind: Id -> string, open: set<Key>, strict: bool, less: bool,
                     owner: map<Id, Id>)
    requires Sound(autoflush, s0, s, kind, open, {}, strict, owner) && (less ==> strict)
    ensures Sound(autoflush, s0, s, kind, open, {}, less, owner)
  {
  }

  // --- code groups ---

  function CodeOwners(refs: RefTable, code: string): set<Id> {
    set r | r in refs && CodeOf(refs[r]) == Some(code) :: refs[r].identity
  }

  function CodeOf(ref: ExternalRef): Option<string> {
    if IsCode(ref.externalId) then Some(NormalizeCode(ref.externalId)) else None
  }

  /** The groups as `GroupCodes` reads them. */
  ghost predicate CodeGroups(refs: RefTable, groups: map<string, set<Id>>) {
    && (forall c :: c in groups <==> CodeOwners(refs, c) != {})
    && (forall c :: c in groups ==> groups[c] == CodeOwners(refs, c))
  }

  /** The identities per media code. */
  method GroupCodes(refs: RefTable) returns (groups: map<string, set<Id>>)
    ensures CodeGroups(refs, groups)
  {
    hide CodeOf;
    hide CodeOwners;
    CodeOwnersEmpty();
    groups := map[];
    var todo := refs.Keys;
    ghost var seen: RefTable := map[];
    while todo != {}
      invariant seen.Keys !! todo && seen.Keys + todo == refs.Keys
      invariant forall r :: r in seen ==> seen[r] == refs[r]
      invariant forall c :: c in groups <==> CodeOwners(seen, c) != {}
      invariant forall c :: c in groups ==> groups[c] == CodeOwners(seen, c)
      decreases todo
    {
      var r :| r in todo;
      var found := CodeOf(refs[r]);
      CodeOwnersGrow(seen, r, refs[r]);
      if found.Some? {
        var code := found.value;
        groups := groups[code := (if code in groups then groups[code] else {}) + {refs[r].identity}];
      }
      seen := seen[r := refs[r]];
      todo := todo - {r};
    }
    assert seen == refs;
  }

  /** A group holds exactly the identities with a reference whose external id is a media code of one normal form. */
  lemma CodeGroupsExactly(refs: RefTable, groups: map<string, set<Id>>, code: string, x: Id)
    requires CodeGroups(refs, groups)
    ensures (code in groups && x in groups[code])
            <==> exists r :: r in refs && refs[r].identity == x && IsCode(refs[r].externalId)
                             && NormalizeCode(refs[r].externalId) == code
  {
    hide IsCode;
    hide NormalizeCode;
    if r :| r in refs && refs[r].identity == x && IsCode(refs[r].externalId)
            && NormalizeCode(refs[r].externalId) == code {
      assert CodeOf(refs[r]) == Some(code);
      assert x in CodeOwners(refs, code);
    }
  }

  lemma CodeOwnersEmpty()
    ensures forall c :: CodeOwners(map[], c) == {}
  {
  }

  lemma CodeOwnersGrow(refs: RefTable, r: nat, ref: ExternalRef)
    requires r !in refs
    ensures forall c ::
              CodeOwners(refs[r := ref], c)
              == CodeOwners(refs, c) + (if CodeOf(ref) == Some(c) then {ref.identity} else {})
  {
    hide CodeOf;
    forall c
      ensures CodeOwners(refs[r := ref], c)
              == CodeOwners(refs, c) + (if CodeOf(ref) == Some(c) then {ref.identity} else {})
    {
      var next := refs[r := ref];
      forall x | x in CodeOwners(refs, c)
        ensures x in CodeOwners(next, c)
      {
        var a :| a in refs && CodeOf(refs[a]) == Some(c) && refs[a].identity == x;
        assert a in next && next[a] == refs[a];
      }
      if CodeOf(ref) == Some(c) {
        assert r in next && next[r] == ref;
      }
    }
  }

  /** No identity holds references with two codes. */
  ghost predicate OneCodeEach(refs: RefTable) {
    forall a, b ::
      HasCode(refs, a) && HasCode(refs, b) && refs[a].identity == refs[b].identity
      ==> CodeOf(refs[a]) == CodeOf(refs[b])
  }

  ghost predicate HasCode(refs: RefTable, r: nat) {
    r in refs && CodeOf(refs[r]).Some?
  }

  ghost predicate CodeSettled(refs: RefTable, code: string) {
    forall x, y :: x in CodeOwners(refs, code) && y in CodeOwners(refs, code) ==> x == y
  }

  /** Codes in `open` are held by no new identity, codes outside `open` and `busy` by one identity at most. */
  ghost predicate CodesSoFar(refs0: RefTable, refs: RefTable, open: set<string>, busy: set<string>) {
    && (forall c {:trigger CodeOwners(refs, c)} :: c in open ==> CodeOwners(refs, c) <= CodeOwners(refs0, c))
    && (forall c {:trigger CodeSettled(refs, c)} :: c !in open && c !in busy ==> CodeSettled(refs, c))
  }

  lemma MoveKeepsCodes(refs: RefTable, next: RefTable, source: Id, target: Id, code: string)
    requires RefImage(refs, next, map[source := target])
    ensures forall x :: x in CodeOwners(next, code)
                        ==> exists y :: y in CodeOwners(refs, code) && x == Own(map[source := target], y)
  {
    forall x | x in CodeOwners(next, code)
      ensures exists y :: y in CodeOwners(refs, code) && x == Own(map[source := target], y)
    {
      var r :| r in next && CodeOf(next[r]) == Some(code) && next[r].identity == x;
      assert CodeOf(refs[r]) == Some(code) && refs[r].identity in CodeOwners(refs, code);
    }
  }

  lemma CodesStep(refs0: RefTable, refs: RefTable, next: RefTable, source: Id, target: Id, open: set<string>,
                  busy: set<string>)
    requires RefImage(refs, next, map[source := target]) && CodesSoFar(refs0, refs, open, busy)
    requires forall c :: c in open ==> source !in CodeOwners(refs0, c)
    ensures CodesSoFar(refs0, next, open, busy)
  {
    forall c | c in open
      ensures CodeOwners(next, c) <= CodeOwners(refs0, c)
    {
      MoveKeepsCodes(refs, next, source, target, c);
      assert CodeOwners(refs, c) <= CodeOwners(refs0, c);
    }
    forall c | c !in open && c !in busy
      ensures CodeSettled(next, c)
    {
      assert CodeSettled(refs, c);
      MoveKeepsCodes(refs, next, source, target, c);
    }
  }

  lemma CodesAreDisjoint(refs: RefTable, c: string, d: string, x: Id)
    requires OneCodeEach(refs) && x in CodeOwners(refs, c) && x in CodeOwners(refs, d)
    ensures c == d
  {
    var a :| a in refs && CodeOf(refs[a]) == Some(c) && refs[a].identity == x;
    var b :| b in refs && CodeOf(refs[b]) == Some(d) && refs[b].identity == x;
    assert HasCode(refs, a) && HasCode(refs, b);
  }

  /** The members of a code group agree on the media type wherever the promise depends on it. */
  ghost predicate SameKind(kind: Id -> string, members: set<Id>) {
    forall x, y :: x in members && y in members ==> kind(x) == kind(y)
  }

  lemma CodeOwnersAgree(t: Table, refs: RefTable, kind: Id -> string, code: string)
    requires OneTypeEach(t, refs, kind)
    ensures SameKind(kind, CodeOwners(refs, code))
  {
    forall x, y | x in CodeOwners(refs, code) && y in CodeOwners(refs, code)
      ensures kind(x) == kind(y)
    {
      var a :| a in refs && CodeOf(refs[a]) == Some(code) && refs[a].identity == x;
      var b :| b in refs && CodeOf(refs[b]) == Some(code) && refs[b].identity == y;
      assert SameCode(refs[a], refs[b]);
    }
  }

  function CodeScores(t: Table, refs: RefTable, ids: set<Id>, members: set<Id>): map<Id, Score> {
    map x | x in members :: CodeScore(t, refs, ids, x)
  }

  /** The members as the script sorts them: by most rows, then most references, then presence in MEDIA_IDENTITY. */
  method RankByCode(db: Session, members: set<Id>) returns (order: seq<Id>)
    requires |members| > 0
    ensures Ranked(order, CodeScores(db.rows.stored, db.refs, db.identities.Keys, members)) && |order| == |members|
    ensures order != [] && order[0] in members && Unrepeated(order) && Rest(order, 1) == members - {order[0]}
    ensures forall x :: x in members && x in Owners(db.rows.stored) ==> order[0] in Owners(db.rows.stored)
    ensures forall i, j ::
              0 <= i < j < |order|
              ==> |RowsOf(db.rows.stored, order[j])| < |RowsOf(db.rows.stored, order[i])|
                  || (|RowsOf(db.rows.stored, order[j])| == |RowsOf(db.rows.stored, order[i])|
                      && (|RefsOf(db.refs, order[j])| < |RefsOf(db.refs, order[i])|
                          || (|RefsOf(db.refs, order[j])| == |RefsOf(db.refs, order[i])|
                              && (order[j] in db.identities ==> order[i] in db.identities))))
  {
    var candidates := CodeScores(db.rows.stored, db.refs, db.identities.Keys, members);
    assert candidates.Keys == members;
    order := SortScored(candidates);
    RankedWhole(order, candidates);
    NoneBelowEmpty(db.rows.stored, members, order[0]);
  }

  /** The sources of a code group still to move. */
  ghost predicate CodeGroup(t: Table, rest: set<Id>, target: Id) {
    target !in rest && forall x :: x in rest && x in Owners(t) ==> target in Owners(t)
  }

  /** When identities carry one code each, the holders of the code are the target and the sources still to move, and
      the other codes are where they were. */
  ghost predicate CodeFocus(refs0: RefTable, refs: RefTable, code: string, rest: set<Id>, target: Id,
                            open: set<string>) {
    OneCodeEach(refs0) ==>
      CodesSoFar(refs0, refs, open, {code}) && CodeOwners(refs, code) <= rest + {target}
      && rest <= CodeOwners(refs0, code)
  }

  lemma CodeFocusStep(refs0: RefTable, refs: RefTable, next: RefTable, code: string, rest: set<Id>, target: Id,
                      open: set<string>, source: Id)
    requires CodeFocus(refs0, refs, code, rest, target, open) && source in rest && target !in rest && code !in open
    requires RefImage(refs, next, map[source := target])
    ensures CodeFocus(refs0, next, code, rest - {source}, target, open)
  {
    if OneCodeEach(refs0) {
      forall c | c in open
        ensures source !in CodeOwners(refs0, c)
      {
        if source in CodeOwners(refs0, c) {
          CodesAreDisjoint(refs0, c, code, source);
        }
      }
      CodesStep(refs0, refs, next, source, target, open, {code});
      MoveKeepsCodes(refs, next, source, target, code);
    }
  }

  lemma CodeGroupOpens(t: Table, members: set<Id>, target: Id)
    requires forall x :: x in members && x in Owners(t) ==> target in Owners(t)
    ensures CodeGroup(t, members - {target}, target)
  {
  }

  lemma CodeSource(t: Table, rest: set<Id>, target: Id, source: Id)
    requires CodeGroup(t, rest, target) && source in rest
    ensures source != target && target !in rest
  {
  }

  lemma MovedRefs(autoflush: bool, s: View, next: View, source: Id, target: Id)
    requires Moved(autoflush, s, next, source, target)
    ensures RefImage(s.refs, next.refs, map[source := target])
  {
  }

  lemma CodeFocusOpens(refs0: RefTable, refs: RefTable, code: string, target: Id, open: set<string>)
    requires OneCodeEach(refs0) ==> CodesSoFar(refs0, refs, open, {})
    requires code in open
    ensures CodeFocus(refs0, refs, code, CodeOwners(refs0, code) - {target}, target, open - {code})
  {
  }

  lemma CodeFocusCloses(refs0: RefTable, refs: RefTable, code: string, target: Id, open: set<string>)
    requires CodeFocus(refs0, refs, code, {}, target, open)
    ensures OneCodeEach(refs0) ==> CodesSoFar(refs0, refs, open, {})
  {
    if OneCodeEach(refs0) {
      assert CodeSettled(refs, code);
    }
  }

  lemma SmallCodeCloses(refs0: RefTable, refs: RefTable, code: string, open: set<string>)
    requires OneCodeEach(refs0) ==> CodesSoFar(refs0, refs, open, {})
    requires code in open && |CodeOwners(refs0, code)| < 2
    ensures OneCodeEach(refs0) ==> CodesSoFar(refs0, refs, open - {code}, {})
  {
    if OneCodeEach(refs0) {
      forall x, y | x in CodeOwners(refs, code) && y in CodeOwners(refs, code)
        ensures x == y
      {
        SmallSet(CodeOwners(refs0, code), x, y);
      }
      assert CodeSettled(refs, code);
    }
  }

  lemma CodesStart(refs: RefTable, groups: map<string, set<Id>>)
    requires CodeGroups(refs, groups)
    ensures CodesSoFar(refs, refs, groups.Keys, {})
    ensures forall c :: c in groups ==> groups[c] == CodeOwners(refs, c)
  {
  }

  lemma CodesEnd(refs0: RefTable, refs: RefTable)
    requires OneCodeEach(refs0) ==> CodesSoFar(refs0, refs, {}, {})
    ensures OneCodeEach(refs0) ==> forall c {:trigger CodeSettled(refs, c)} :: CodeSettled(refs, c)
  {
  }

  lemma CodeStep(autoflush: bool, s0: View, s: View, next: View, kind: Id -> string, strict: bool, owner: map<Id, Id>,
                 rest: set<Id>, target: Id, source: Id)
    requires Sound(autoflush, s0, s, kind, {}, {}, strict, owner) && Moved(autoflush, s, next, source, target)
    requires CodeGroup(s.rows.stored, rest, target) && source in rest && source in owner && target in owner
    requires Settleable(autoflush, s0, kind) && autoflush ==> kind(source) == kind(target)
    ensures Sound(autoflush, s0, next, kind, {}, {}, strict, Redirect(owner, source, target))
    ensures CodeGroup(next.rows.stored, rest - {source}, target)
  {
    hide Everywhere;
    hide OneTypeEach;
    SoundStep(autoflush, s0, s, next, kind, {}, {}, strict, owner, source, target);
    SoundRelaxes(autoflush, s0, next, kind, {}, strict || source in Owners(s.rows.stored), strict,
                 Redirect(owner, source, target));
    MoveOwners(s.rows.stored, next.rows.stored, source, target, autoflush);
  }

  method MergeCodeGroup(db: Session, code: string, members: set<Id>, tally: Tally, ghost s0: View,
                        ghost kind: Id -> string, ghost strict: bool, ghost owner0: map<Id, Id>, ghost refs0: RefTable,
                        ghost open: set<string>, ghost merges0: seq<Merged>)
    returns (after: Tally, ghost owner: map<Id, Id>, ghost added: seq<Merged>)
    requires Sound(db.autoflush, s0, ViewOf(db), kind, {}, {}, strict, owner0)
    requires Traced(db.autoflush, s0, ViewOf(db), owner0, merges0)
    requires forall x, y :: x in members && y in members ==> Reaches(Kin(s0), x, y)
    requires Summed(s0, merges0, tally)
    requires |members| >= 2 && members <= Mentioned(s0)
    requires Settleable(db.autoflush, s0, kind) && db.autoflush ==> SameKind(kind, members)
    requires members == CodeOwners(refs0, code) && code in open
    requires OneCodeEach(refs0) ==> CodesSoFar(refs0, db.refs, open, {})
    modifies db
    ensures Sound(db.autoflush, s0, ViewOf(db), kind, {}, {}, strict, owner)
    ensures OneCodeEach(refs0) ==> CodesSoFar(refs0, db.refs, open - {code}, {})
    ensures Traced(db.autoflush, s0, ViewOf(db), owner, merges0 + added)
    ensures FanOf(CodeScores(old(db.rows.stored), old(db.refs), old(db.identities.Keys), members), added)
    ensures |added| == |members| - 1 && Summed(s0, merges0 + added, after)
    ensures after.SameGroups(tally.(codeGroups := tally.codeGroups + 1)) && after.merged == tally.merged + |members| - 1
  {
    hide Sound;
    hide Settleable;
    hide Mentioned;
    hide Everywhere;
    hide CodeFocus;
    hide OneCodeEach;
    hide CodesSoFar;
    hide CodeOwners;
    hide Rest;
    hide Unrepeated;
    hide Ranked;
    hide CodeGroup;
    hide Moved;
    hide RefImage;
    hide UniqueSlots;
    hide Owners;
    hide CountOwned;
    hide OwnedBy;
    hide RowsOf;
    hide CodeScores;
    hide Traced;
    hide Summed;
    hide Kin;
    hide Reaches;
    SoundIsReady(db.autoflush, s0, ViewOf(db), kind, {}, {}, strict, owner0);
    db.Autoflush();
    var order := RankByCode(db, members);
    added := Fan(order);
    assert RankedFan(order, CodeScores(db.rows.stored, db.refs, db.identities.Keys, members), added);
    after, owner := tally.(codeGroups := tally.codeGroups + 1), owner0;
    assert merges0 + Fan(order[..1]) == merges0;
    SummedLater(s0, merges0, tally, 0, tally.codeGroups + 1, 0);
    CodeFocusOpens(refs0, db.refs, code, order[0], open);
    CodeGroupOpens(db.rows.stored, members, order[0]);
    for k := 1 to |order|
      invariant CodeFocus(refs0, db.refs, code, Rest(order, k), order[0], open - {code})
      invariant Sound(db.autoflush, s0, ViewOf(db), kind, {}, {}, strict, owner)
      invariant Traced(db.autoflush, s0, ViewOf(db), owner, merges0 + Fan(order[..k]))
      invariant Summed(s0, merges0 + Fan(order[..k]), after)
      invariant CodeGroup(db.rows.stored, Rest(order, k), order[0]) && Rest(order, k) <= members
      invariant after.SameGroups(tally.(codeGroups := tally.codeGroups + 1)) && after.merged == tally.merged + k - 1
    {
      ghost var s := ViewOf(db);
      RestStep(order, k);
      SoundIsReady(db.autoflush, s0, s, kind, {}, {}, strict, owner);
      SoundReaches(db.autoflush, s0, s, kind, {}, {}, strict, owner);
      CodeSource(s.rows.stored, Rest(order, k), order[0], order[k]);
      FanStep(order, k);
      var counts := Move(db, order[k], order[0]);
      SumsGrow(db.autoflush, s0, s, kind, {}, {}, strict, owner, merges0 + Fan(order[..k]), after, counts, order[k],
               order[0]);
      TracedStep(db.autoflush, s0, s, ViewOf(db), owner, merges0 + Fan(order[..k]), order[k], order[0]);
      assert merges0 + Fan(order[..k]) + [Merged(order[k], order[0])] == merges0 + Fan(order[..k + 1]);
      CodeStep(db.autoflush, s0, s, ViewOf(db), kind, strict, owner, Rest(order, k), order[0], order[k]);
      MovedRefs(db.autoflush, s, ViewOf(db), order[k], order[0]);
      CodeFocusStep(refs0, s.refs, db.refs, code, Rest(order, k), order[0], open - {code}, order[k]);
      owner := Redirect(owner, order[k], order[0]);
      after := after.Add(counts);
    }
    assert order[..|order|] == order;
    NothingLeft(order);
    CodeFocusCloses(refs0, db.refs, code, order[0], open - {code});
  }

  function CodeScoresOf(t: Table, refs: RefTable, ids: set<Id>, groups: map<string, set<Id>>)
    : map<string, map<Id, Score>> {
    map c | c in groups :: CodeScores(t, refs, ids, groups[c])
  }

  lemma MembersAreKin(autoflush: bool, s0: View, s: View, kind: Id -> string, strict: bool, owner: map<Id, Id>,
                      merges: seq<Merged>, groups: map<string, set<Id>>)
    requires Sound(autoflush, s0, s, kind, {}, {}, strict, owner) && Traced(autoflush, s0, s, owner, merges)
    requires CodeGroups(s.refs, groups)
    ensures forall c, x, y :: c in groups && x in groups[c] && y in groups[c] ==> Reaches(Kin(s0), x, y)
  {
    hide Image;
    hide Inherited;
    hide Mentioned;
    forall c, x, y | c in groups && x in groups[c] && y in groups[c]
      ensures Reaches(Kin(s0), x, y)
    {
      CodeKin(s0, s, owner, c, x, y);
    }
  }

  /** `_merge_code_groups` with `apply`: the groups of the references as they are when this half starts. */
  method MergeCodes(db: Session, groups: map<string, set<Id>>, tally: Tally, ghost s0: View, ghost kind: Id -> string,
                    ghost strict: bool, ghost owner0: map<Id, Id>, ghost merges0: seq<Merged>)
    returns (after: Tally, ghost owner: map<Id, Id>, ghost added: seq<Merged>)
    requires Sound(db.autoflush, s0, ViewOf(db), kind, {}, {}, strict, owner0)
    requires Traced(db.autoflush, s0, ViewOf(db), owner0, merges0)
    requires CodeGroups(db.refs, groups) && Summed(s0, merges0, tally)
    modifies db
    ensures Sound(db.autoflush, s0, ViewOf(db), kind, {}, {}, strict, owner)
    ensures Traced(db.autoflush, s0, ViewOf(db), owner, merges0 + added)
    ensures Lone(groups, CodeScoresOf(old(db.rows.stored), old(db.refs), old(db.identities.Keys), groups), {},
                 ViewOf(db) == old(ViewOf(db)), added)
    ensures OneCodeEach(old(db.refs)) ==> forall c {:trigger CodeSettled(db.refs, c)} :: CodeSettled(db.refs, c)
    ensures after.SameGroups(tally.(codeGroups := tally.codeGroups + |Large(groups, groups.Keys)|))
    ensures after.merged == tally.merged + |added| && Summed(s0, merges0 + added, after)
    ensures |added| + |Large(groups, groups.Keys)| == |Grouped(groups, groups.Keys)|
  {
    hide Sound;
    hide Settleable;
    hide SameKind;
    hide CodeOwners;
    hide Mentioned;
    hide Traced;
    hide Summed;
    hide FanOf;
    hide Lone;
    hide CodeScores;
    hide OneCodeEach;
    hide CodesSoFar;
    hide CodeSettled;
    hide CodeGroups;
    hide Large;
    hide Grouped;
    hide Reaches;
    hide Kin;
    CodesAgree(db.autoflush, s0, ViewOf(db), kind, strict, owner0, groups);
    MembersAreKin(db.autoflush, s0, ViewOf(db), kind, strict, owner0, merges0, groups);
    after, owner, added := tally, owner0, [];
    assert merges0 + added == merges0;
    ghost var s1 := ViewOf(db);
    ghost var scores := CodeScoresOf(db.rows.stored, db.refs, db.identities.Keys, groups);
    ghost var untouched := true;
    LoneStarts(groups, scores);
    LargeOfNone(groups);
    GroupedOfNone(groups);
    ghost var refs0 := db.refs;
    CodesStart(refs0, groups);
    var open := groups.Keys;
    while open != {}
      invariant open <= groups.Keys
      invariant OneCodeEach(refs0) ==> CodesSoFar(refs0, db.refs, open, {})
      invariant Sound(db.autoflush, s0, ViewOf(db), kind, {}, {}, strict, owner)
      invariant after.SameGroups(tally.(codeGroups := tally.codeGroups + |Large(groups, groups.Keys - open)|))
      invariant Traced(db.autoflush, s0, ViewOf(db), owner, merges0 + added)
      invariant Lone(groups, scores, open, untouched, added) && (untouched ==> ViewOf(db) == s1)
      invariant after.merged == tally.merged + |added| && Summed(s0, merges0 + added, after)
      invariant |added| + |Large(groups, groups.Keys - open)| == |Grouped(groups, groups.Keys - open)|
      decreases open
    {
      var code :| code in open;
      LargeGrow(groups, groups.Keys - open, code);
      GroupedGrow(groups, groups.Keys - open, code);
      assert groups.Keys - open + {code} == groups.Keys - (open - {code});
      if |groups[code]| >= 2 {
        ghost var more;
        after, owner, more :=
          MergeCodeGroup(db, code, groups[code], after, s0, kind, strict, owner, refs0, open, merges0 + added);
        LoneLarge(groups, scores, open, untouched, added, more, code);
        assert merges0 + added + more == merges0 + (added + more);
        added, untouched := added + more, false;
      } else {
        LoneSmall(groups, scores, open, untouched, added, code);
        SmallCodeCloses(refs0, db.refs, code, open);
      }
      open := open - {code};
    }
    assert groups.Keys - open == groups.Keys;
    LoneLater(groups, scores, untouched, ViewOf(db) == s1, added);
    CodesEnd(refs0, db.refs);
  }

  lemma CodesAgree(autoflush: bool, s0: View, s: View, kind: Id -> string, strict: bool, owner: map<Id, Id>,
                   groups: map<string, set<Id>>)
    requires Sound(autoflush, s0, s, kind, {}, {}, strict, owner)
    requires CodeGroups(s.refs, groups)
    ensures Settleable(autoflush, s0, kind) && autoflush ==> forall c :: c in groups ==> SameKind(kind, groups[c])
    ensures forall c :: c in groups ==> groups[c] <= Mentioned(s0)
  {
    forall c, x | c in groups && x in groups[c]
      ensures x in Mentioned(s0)
    {
      var r :| r in s.refs && CodeOf(s.refs[r]) == Some(c) && s.refs[r].identity == x;
      assert s0.refs[r].identity in Mentioned(s0);
      assert owner[s0.refs[r].identity] in owner.Values;
    }
    if Settleable(autoflush, s0, kind) && autoflush {
      forall c | c in groups
        ensures SameKind(kind, groups[c])
      {
        CodeOwnersAgree(s.rows.stored, s.refs, kind, c);
      }
    }
  }

  /** The same half without `apply`. */
  method PreviewCodes(db: Session, groups: map<string, set<Id>>, tally: Tally) returns (after: Tally)
    requires db.rows.Clean()
    modifies db`rows
    ensures db.rows == old(db.rows)
    ensures after == tally.(codeGroups := tally.codeGroups + |Large(groups, groups.Keys)|)
  {
    db.rows.CleanIsWritten();
    after := tally;
    var open := groups.Keys;
    while open != {}
      invariant open <= groups.Keys
      invariant db.rows == old(db.rows)
      invariant after == tally.(codeGroups := tally.codeGroups + |Large(groups, groups.Keys - open)|)
      decreases open
    {
      var code :| code in open;
      LargeGrow(groups, groups.Keys - open, code);
      assert groups.Keys - open + {code} == groups.Keys - (open - {code});
      if |groups[code]| >= 2 {
        db.Autoflush();
        var _ := RankByCode(db, groups[code]);
        after := after.(codeGroups := after.codeGroups + 1);
      }
      open := open - {code};
    }
    assert groups.Keys - open == groups.Keys;
  }

  // --- the whole script and the audit ---

  /** The non-blank keys with two or more owners. */
  ghost function SharedTitles(t: Table): set<Key> {
    set r | r in t && KeyOf(t[r]).title != "" && |KeyOwners(t, KeyOf(t[r]))| >= 2 :: KeyOf(t[r])
  }

  /** The media codes with two or more owners. */
  ghost function SharedCodes(refs: RefTable): set<string> {
    set r | r in refs && CodeOf(refs[r]).Some? && |CodeOwners(refs, CodeOf(refs[r]).value)| >= 2
      :: CodeOf(refs[r]).value
  }

  lemma LargeAreShared(t: Table, groups: map<Key, set<Id>>)
    requires TitleGroups(t, groups)
    ensures Large(groups, groups.Keys) == SharedTitles(t)
  {
    forall k
      ensures k in Large(groups, groups.Keys) <==> k in SharedTitles(t)
    {
      if k in groups {
        var x :| x in KeyOwners(t, k);
      }
    }
  }

  lemma LargeCodesAreShared(refs: RefTable, groups: map<string, set<Id>>)
    requires CodeGroups(refs, groups)
    ensures Large(groups, groups.Keys) == SharedCodes(refs)
  {
    forall c
      ensures c in Large(groups, groups.Keys) <==> c in SharedCodes(refs)
    {
      if c in groups {
        var x :| x in CodeOwners(refs, c);
      }
    }
  }

  lemma CodesStay(refs0: RefTable, refs: RefTable, owner: map<Id, Id>)
    requires RefImage(refs0, refs, owner)
    ensures forall r :: r in refs ==> r in refs0 && CodeOf(refs[r]) == CodeOf(refs0[r])
  {
  }

  lemma SharedCode(refs: RefTable, r: nat)
    requires r in refs && CodeOf(refs[r]).Some? && |CodeOwners(refs, CodeOf(refs[r]).value)| >= 2
    ensures CodeOf(refs[r]).value in SharedCodes(refs)
  {
  }

  /** The identities that hold references to the code once those of `owner` have been joined. */
  ghost function CodeOwnersUnder(refs: RefTable, owner: map<Id, Id>, code: string): set<Id> {
    set r | r in refs && CodeOf(refs[r]) == Some(code) :: Own(owner, refs[r].identity)
  }

  lemma CodeOwnersMoved(refs0: RefTable, refs: RefTable, owner: map<Id, Id>, code: string)
    requires RefImage(refs0, refs, owner)
    ensures CodeOwners(refs, code) == CodeOwnersUnder(refs0, owner, code)
  {
    CodesStay(refs0, refs, owner);
    forall x | x in CodeOwnersUnder(refs0, owner, code)
      ensures x in CodeOwners(refs, code)
    {
      var r :| r in refs0 && CodeOf(refs0[r]) == Some(code) && Own(owner, refs0[r].identity) == x;
      assert TripleKept(refs0, refs, owner, r);
      var r1 :| StandsFor(refs, r1, refs0[r], Own(owner, refs0[r].identity));
      assert CodeOf(refs[r1]) == Some(code) && refs[r1].identity == x;
    }
    forall x | x in CodeOwners(refs, code)
      ensures x in CodeOwnersUnder(refs0, owner, code)
    {
      var r :| r in refs && CodeOf(refs[r]) == Some(code) && refs[r].identity == x;
      assert CodeOf(refs0[r]) == Some(code) && Own(owner, refs0[r].identity) == x;
    }
  }

  /** The codes that two or more identities hold once those of `owner` have been joined. */
  ghost function SharedCodesUnder(refs: RefTable, owner: map<Id, Id>): set<string> {
    set r | r in refs && CodeOf(refs[r]).Some? && |CodeOwnersUnder(refs, owner, CodeOf(refs[r]).value)| >= 2
      :: CodeOf(refs[r]).value
  }

  ghost function CodeMembersUnder(refs: RefTable, owner: map<Id, Id>): set<(string, Id)> {
    set c, x | c in SharedCodesUnder(refs, owner) && x in CodeOwnersUnder(refs, owner, c) :: (c, x)
  }

  /** The identities with rows under a shared title key, key by key. */
  ghost function TitleMembers(t: Table): set<(Key, Id)> {
    set k, x | k in SharedTitles(t) && x in KeyOwners(t, k) :: (k, x)
  }

  /** Identities that `owner` joins hold at most one code between them. */
  ghost predicate OneCodeUnder(refs: RefTable, owner: map<Id, Id>) {
    forall a, b ::
      HasCode(refs, a) && HasCode(refs, b) && Own(owner, refs[a].identity) == Own(owner, refs[b].identity)
      ==> CodeOf(refs[a]) == CodeOf(refs[b])
  }

  lemma OneCodeMoved(refs0: RefTable, refs: RefTable, owner: map<Id, Id>)
    requires RefImage(refs0, refs, owner) && OneCodeUnder(refs0, owner)
    ensures OneCodeEach(refs)
  {
    CodesStay(refs0, refs, owner);
    hide CodeOf;
    forall a, b | HasCode(refs, a) && HasCode(refs, b) && refs[a].identity == refs[b].identity
      ensures CodeOf(refs[a]) == CodeOf(refs[b])
    {
      assert HasCode(refs0, a) && HasCode(refs0, b);
    }
  }

  /** The groups of the code half, told from the tables before the run and the owners after the title half. */
  lemma CodeGroupsUnder(refs0: RefTable, refs: RefTable, owner: map<Id, Id>, groups: map<string, set<Id>>)
    requires RefImage(refs0, refs, owner) && CodeGroups(refs, groups)
    ensures Large(groups, groups.Keys) == SharedCodesUnder(refs0, owner)
    ensures Grouped(groups, groups.Keys) == CodeMembersUnder(refs0, owner)
  {
    CodesStay(refs0, refs, owner);
    hide RefImage;
    hide CodeOf;
    forall c
      ensures CodeOwners(refs, c) == CodeOwnersUnder(refs0, owner, c)
    {
      CodeOwnersMoved(refs0, refs, owner, c);
    }
    forall c
      ensures c in Large(groups, groups.Keys) <==> c in SharedCodesUnder(refs0, owner)
    {
      CodeIsHeld(refs0, owner, c);
    }
  }

  lemma CodeIsHeld(refs: RefTable, owner: map<Id, Id>, c: string)
    ensures c in SharedCodesUnder(refs, owner) <==> |CodeOwnersUnder(refs, owner, c)| >= 2
  {
    if |CodeOwnersUnder(refs, owner, c)| >= 2 {
      var x :| x in CodeOwnersUnder(refs, owner, c);
      var r :| r in refs && CodeOf(refs[r]) == Some(c) && Own(owner, refs[r].identity) == x;
      assert CodeOf(refs[r]).value in SharedCodesUnder(refs, owner);
    }
  }

  /** The title half by itself: its owners, and how many of the merges are its own. */
  ghost predicate TitleHalf(s0: View, owner: map<Id, Id>, merges: seq<Merged>, n: nat) {
    && n <= |merges| && owner.Keys == Mentioned(s0) && InLine(owner, merges[..n])
    && n + |SharedTitles(s0.rows.stored)| == |TitleMembers(s0.rows.stored)|
  }

  /** The code half: every group of identities that hold one code after the title half is merged, and where these hold
      one code each, references with one code end with one identity. */
  ghost predicate CodeHalf(s0: View, s: View, owner: map<Id, Id>, moves: nat) {
    && moves + |SharedCodesUnder(s0.refs, owner)| == |CodeMembersUnder(s0.refs, owner)|
    && (OneCodeUnder(s0.refs, owner) ==> forall a, b ::
          a in s.refs && b in s.refs && SameCode(s.refs[a], s.refs[b]) ==> s.refs[a].identity == s.refs[b].identity)
  }

  lemma TitlesHalved(s0: View, owner: map<Id, Id>, titles: map<Key, set<Id>>, merges: seq<Merged>, added: seq<Merged>)
    requires TitleGroups(s0.rows.stored, titles) && InLine(owner, merges) && owner.Keys == Mentioned(s0)
    requires |merges| + |Large(titles, titles.Keys)| == |Grouped(titles, titles.Keys)|
    ensures TitleHalf(s0, owner, merges + added, |merges|)
  {
    hide KeyOf;
    LargeAreShared(s0.rows.stored, titles);
    assert Grouped(titles, titles.Keys) == TitleMembers(s0.rows.stored);
    assert (merges + added)[..|merges|] == merges;
  }

  lemma CodesHalved(s0: View, mid: View, s: View, owner: map<Id, Id>, codes: map<string, set<Id>>, added: seq<Merged>)
    requires RefImage(s0.refs, mid.refs, owner) && CodeGroups(mid.refs, codes)
    requires |added| + |Large(codes, codes.Keys)| == |Grouped(codes, codes.Keys)|
    requires OneCodeEach(mid.refs) ==> forall c {:trigger CodeSettled(s.refs, c)} :: CodeSettled(s.refs, c)
    ensures CodeHalf(s0, s, owner, |added|)
  {
    CodeGroupsUnder(s0.refs, mid.refs, owner, codes);
    if OneCodeUnder(s0.refs, owner) {
      OneCodeMoved(s0.refs, mid.refs, owner);
      hide RefImage;
      hide CodeOf;
      forall a, b | a in s.refs && b in s.refs && SameCode(s.refs[a], s.refs[b])
        ensures s.refs[a].identity == s.refs[b].identity
      {
        var code := CodeOf(s.refs[a]).value;
        assert CodeSettled(s.refs, code);
        assert s.refs[a].identity in CodeOwners(s.refs, code) && s.refs[b].identity in CodeOwners(s.refs, code);
      }
    }
  }

  lemma NoCodeIsShared(refs0: RefTable, refs: RefTable, owner: map<Id, Id>)
    requires RefImage(refs0, refs, owner) && SharedCodes(refs0) == {}
    ensures SharedCodes(refs) == {}
  {
    CodesStay(refs0, refs, owner);
    hide CodeOf;
    forall r | r in refs && CodeOf(refs[r]).Some?
      ensures |CodeOwners(refs, CodeOf(refs[r]).value)| < 2
    {
      var code := CodeOf(refs[r]).value;
      if |CodeOwners(refs0, code)| >= 2 {
        SharedCode(refs0, r);
      }
      forall x | x in CodeOwners(refs, code)
        ensures x == refs[r].identity
      {
        var q :| q in refs && CodeOf(refs[q]) == Some(code) && refs[q].identity == x;
        assert refs0[q].identity in CodeOwners(refs0, code);
        SmallSet(CodeOwners(refs0, code), refs0[q].identity, refs0[r].identity);
      }
      AllTheSame(CodeOwners(refs, code), refs[r].identity);
    }
  }

  lemma AllTheSame(s: set<Id>, x: Id)
    requires forall y :: y in s ==> y == x
    ensures |s| < 2
  {
    assert s <= {x};
    assert s == {} || s == {x};
  }

  /** The merges of a run over tables with at most one group: none, or the members of that group in the order of their
      scores. */
  ghost predicate AtMostOneGroup(s: View, merges: seq<Merged>) {
    var t := s.rows.stored;
    && (SharedTitles(t) == {} && SharedCodes(s.refs) == {} ==> merges == [])
    && (forall k :: SharedTitles(t) == {k} && SharedCodes(s.refs) == {} ==>
                      FanOf(TitleScores(t, s.ids, KeyOwners(t, k)), merges))
    && (forall c :: SharedTitles(t) == {} && SharedCodes(s.refs) == {c} ==>
                      FanOf(CodeScores(t, s.refs, s.ids, CodeOwners(s.refs, c)), merges))
  }

  lemma TheOneGroup(s: View, mid: View, owner: map<Id, Id>, titles: map<Key, set<Id>>, codes: map<string, set<Id>>,
                    merges: seq<Merged>, added: seq<Merged>)
    requires TitleGroups(s.rows.stored, titles) && CodeGroups(mid.refs, codes) && RefImage(s.refs, mid.refs, owner)
    requires Lone(titles, TitleScoresOf(s.rows.stored, s.ids, titles), {}, mid == s, merges)
    requires exists same :: Lone(codes, CodeScoresOf(mid.rows.stored, mid.refs, mid.ids, codes), {}, same, added)
    ensures AtMostOneGroup(s, merges + added)
  {
    hide FanOf;
    hide TitleScores;
    hide CodeScores;
    hide RefImage;
    hide KeyOwners;
    hide CodeOwners;
    LargeAreShared(s.rows.stored, titles);
    LargeCodesAreShared(mid.refs, codes);
    hide SharedTitles;
    hide SharedCodes;
    hide Large;
    assert merges + [] == merges && [] + added == added;
    if SharedCodes(s.refs) == {} {
      NoCodeIsShared(s.refs, mid.refs, owner);
    }
  }

  /** What an applied run guarantees. */
  ghost predicate Consolidated(autoflush: bool, s0: View, s: View, kind: Id -> string, owner: map<Id, Id>,
                               merges: seq<Merged>) {
    var t0, t := s0.rows.stored, s.rows.stored;
    && s.rows.Clean()
    && Everywhere(s0, s, owner, autoflush)
    && OnlyKin(s0, owner)
    && InLine(owner, merges)
    && s.ids == s0.ids - Sources(merges)
    && (!autoflush ==> Inherited(t0, t, merges))
    && Owners(t) <= Owners(t0)
    && (HasTitleGroup(t0) ==> Owners(t) < Owners(t0))
    && (Settleable(autoflush, s0, kind)
        ==> forall k: Key {:trigger Unambiguous(t, k)} :: k.title != "" ==> Unambiguous(t, k))
  }

  lemma SoundIsConsolidated(autoflush: bool, s0: View, s: View, kind: Id -> string, owner: map<Id, Id>,
                            merges: seq<Merged>)
    requires Sound(autoflush, s0, s, kind, {}, {}, HasTitleGroup(s0.rows.stored), owner)
    requires Traced(autoflush, s0, s, owner, merges)
    ensures Consolidated(autoflush, s0, s, kind, owner, merges)
    ensures s.rows.Flush() == s.rows
  {
    KinOfOwner(s0, owner);
    s.rows.CleanIsWritten();
  }

  lemma TracedLines(autoflush: bool, s0: View, s: View, owner: map<Id, Id>, merges: seq<Merged>)
    requires Traced(autoflush, s0, s, owner, merges)
    ensures InLine(owner, merges)
  {
  }

  lemma SoundRefs(autoflush: bool, s0: View, s: View, kind: Id -> string, strict: bool, owner: map<Id, Id>)
    requires Sound(autoflush, s0, s, kind, {}, {}, strict, owner)
    ensures RefImage(s0.refs, s.refs, owner)
  {
  }

  /** The script without `apply`. */
  method Preview(db: Session, titles: map<Key, set<Id>>, tally: Tally) returns (after: Tally)
    requires db.rows.Clean()
    modifies db`rows
    ensures db.rows == old(db.rows)
    ensures after
            == tally.(groups := tally.groups + |Large(titles, titles.Keys)|,
                      codeGroups := tally.codeGroups + |SharedCodes(db.refs)|)
  {
    hide SharedCodes;
    hide CodeGroups;
    hide Large;
    db.rows.CleanIsWritten();
    after := PreviewTitles(db, titles, tally);
    var codes := GroupCodes(db.refs);
    LargeCodesAreShared(db.refs, codes);
    after := PreviewCodes(db, codes, after);
    db.Commit();
  }

  /** The script with `apply`. */
  method Apply(db: Session, titles: map<Key, set<Id>>, tally: Tally, ghost kind: Id -> string)
    returns (after: Tally, ghost owner: map<Id, Id>, ghost merges: seq<Merged>, ghost titleOwner: map<Id, Id>,
             ghost n: nat)
    requires db.rows.Clean() && UniqueSlots(db.rows.stored)
    requires TitleGroups(db.rows.stored, titles) && Summed(ViewOf(db), [], tally)
    modifies db
    ensures Consolidated(db.autoflush, old(ViewOf(db)), ViewOf(db), kind, owner, merges)
    ensures after.identitiesBefore == tally.identitiesBefore
    ensures after.groups == tally.groups + |Large(titles, titles.Keys)|
    ensures TitleHalf(old(ViewOf(db)), titleOwner, merges, n)
    ensures CodeHalf(old(ViewOf(db)), ViewOf(db), titleOwner, |merges| - n)
    ensures after.codeGroups == tally.codeGroups + |SharedCodesUnder(old(db.refs), titleOwner)|
    ensures after.identitiesAfter == |Owners(db.rows.stored)|
    ensures after.merged == tally.merged + |merges| && Summed(old(ViewOf(db)), merges, after)
    ensures AtMostOneGroup(old(ViewOf(db)), merges)
  {
    hide Sound;
    hide Lone;
    hide AtMostOneGroup;
    hide RefImage;
    hide Traced;
    hide Summed;
    hide Consolidated;
    hide HasTitleGroup;
    hide TitleGroups;
    hide CodeGroups;
    hide OneCodeEach;
    hide CodeSettled;
    hide Large;
    hide Grouped;
    hide TitleHalf;
    hide CodeHalf;
    hide SharedCodesUnder;
    hide Owners;
    hide UniqueSlots;
    hide TitleScoresOf;
    hide CodeScoresOf;
    hide InLine;
    hide Mentioned;
    ghost var s0 := ViewOf(db);
    after, owner, merges := MergeTitles(db, titles, tally, kind);
    SoundIsReady(db.autoflush, s0, ViewOf(db), kind, {}, {}, HasTitleGroup(s0.rows.stored), owner);
    var codes := GroupCodes(db.refs);
    ghost var s1, added := ViewOf(db), [];
    SoundRefs(db.autoflush, s0, s1, kind, HasTitleGroup(s0.rows.stored), owner);
    titleOwner, n := owner, |merges|;
    SoundReaches(db.autoflush, s0, s1, kind, {}, {}, HasTitleGroup(s0.rows.stored), owner);
    TracedLines(db.autoflush, s0, s1, owner, merges);
    CodeGroupsUnder(s0.refs, db.refs, owner, codes);
    after, owner, added := MergeCodes(db, codes, after, s0, kind, HasTitleGroup(s0.rows.stored), owner, merges);
    TheOneGroup(s0, s1, titleOwner, titles, codes, merges, added);
    TitlesHalved(s0, titleOwner, titles, merges, added);
    CodesHalved(s0, s1, ViewOf(db), titleOwner, codes, added);
    merges := merges + added;
    SoundIsConsolidated(db.autoflush, s0, ViewOf(db), kind, owner, merges);
    db.Commit();
    SummedLater(s0, merges, after, 0, 0, |Owners(db.rows.stored)|);
    after := after.(identitiesAfter := |Owners(db.rows.stored)|);
  }

  /** `consolidate(apply)`. `kind` assigns a media type to every identity and `owner` names the final owner of every
      row; `titleOwner` and `n` are the owners and the number of merges after the title half. */
  method Consolidate(db: Session, apply: bool, ghost kind: Id -> string)
    returns (tally: Tally, ghost owner: map<Id, Id>, ghost merges: seq<Merged>, ghost titleOwner: map<Id, Id>,
             ghost n: nat)
    requires db.rows.Clean() && UniqueSlots(db.rows.stored)
    modifies db
    ensures !apply ==> ViewOf(db) == old(ViewOf(db))
    ensures apply ==> Consolidated(db.autoflush, old(ViewOf(db)), ViewOf(db), kind, owner, merges)
    ensures apply ==> AtMostOneGroup(old(ViewOf(db)), merges)
    ensures apply ==> TitleHalf(old(ViewOf(db)), titleOwner, merges, n)
    ensures apply ==> CodeHalf(old(ViewOf(db)), ViewOf(db), titleOwner, |merges| - n)
    ensures apply ==> tally.codeGroups == |SharedCodesUnder(old(db.refs), titleOwner)|
    ensures Summed(old(ViewOf(db)), merges, tally)
    ensures tally.identitiesBefore == |Owners(old(db.rows.stored))|
    ensures tally.groups == |SharedTitles(old(db.rows.stored))|
    ensures !apply ==> tally.codeGroups == |SharedCodes(old(db.refs))|
    ensures tally.identitiesAfter == if apply then |Owners(db.rows.stored)| else 0
  {
    hide Consolidated;
    hide TitleGroups;
    hide SharedTitles;
    hide SharedCodes;
    hide Large;
    hide UniqueSlots;
    hide AtMostOneGroup;
    hide TitleHalf;
    hide CodeHalf;
    hide SharedCodesUnder;
    db.rows.CleanIsWritten();
    db.Autoflush();
    tally := Tally(0, 0, 0, |Owners(db.rows.stored)|, 0, 0, 0, 0, 0);
    var titles := GroupTitles(db.rows.stored);
    LargeAreShared(db.rows.stored, titles);
    if apply {
      tally, owner, merges, titleOwner, n := Apply(db, titles, tally, kind);
    } else {
      owner, merges, titleOwner, n := map[], [], map[], 0;
      tally := Preview(db, titles, tally);
    }
  }

  /** The audit's groups: raw (TITLE, YEAR, MEDIA_TYPE) with COUNT(DISTINCT IDENTITY_ID) > 1. */
  datatype RawKey = RawKey(title: Option<string>, year: Option<string>, mediaType: string)

  function RawKeyOf(row: Snapshot): RawKey {
    RawKey(row.standing.title, row.standing.year, row.kept.mediaType)
  }

  function DuplicateTitleGroups(t: Table): set<RawKey> {
    set a, b | a in t && b in t && RawKeyOf(t[a]) == RawKeyOf(t[b]) && t[a].identity != t[b].identity :: RawKeyOf(t[a])
  }

  /** After an applied run over settleable tables the audit reports no group but those with a blank title. */
  lemma AuditFindsOnlyBlanks(autoflush: bool, s0: View, s: View, kind: Id -> string, owner: map<Id, Id>,
                             merges: seq<Merged>, group: RawKey)
    requires Consolidated(autoflush, s0, s, kind, owner, merges) && Settleable(autoflush, s0, kind)
    requires group in DuplicateTitleGroups(s.rows.stored)
    ensures NormalizeTitle(group.title.GetOr("")) == ""
  {
    var t := s.rows.stored;
    var a, b :| a in t && b in t && RawKeyOf(t[a]) == RawKeyOf(t[b]) == group && t[a].identity != t[b].identity;
    assert KeyOf(t[a]) == KeyOf(t[b]);
    assert t[a].identity in KeyOwners(t, KeyOf(t[a])) && t[b].identity in KeyOwners(t, KeyOf(t[a]));
    assert KeyOf(t[a]).title != "" ==> Unambiguous(t, KeyOf(t[a]));
  }
}
