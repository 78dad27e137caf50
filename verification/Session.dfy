/** The ORM session the identity scripts run in, reduced to the tables they rewrite. SQL statements act on the stored
    tables at once. Attribute assignments and `delete` on loaded lifecycle objects wait in the unit of work until a
    flush, and a session flushes by itself before a statement only when it was created with `autoflush`. */
module Sessions {
  import opened Wrappers
  import opened Lifecycle
  import opened SnapshotMerge
  import opened RefQuotient
  import opened Succession

  /** Tables that carry an IDENTITY_ID column which the scripts only ever re-point. */
  datatype OwnedTable =
    | DownloadHistory | TransferHistory | SearchResults | LifecycleEvents
    | MovieSubscriptions | TvSubscriptions | SubscriptionEpisodes | SubscriptionHistory

  datatype OwnedKey = OwnedKey(table: OwnedTable, id: nat)

  datatype OwnedRow = OwnedRow(identity: Option<Id>, rest: string)

  type OwnedRows = map<OwnedKey, OwnedRow>

  /** UPDATE ... SET IDENTITY_ID = target WHERE IDENTITY_ID = source, on the named tables. */
  function Repoint(rows: OwnedRows, tables: set<OwnedTable>, source: Id, target: Id): OwnedRows {
    map k | k in rows ::
      if k.table in tables && rows[k].identity == Some(source) then rows[k].(identity := Some(target)) else rows[k]
  }

  function OwnedBy(rows: OwnedRows, table: OwnedTable, id: Id): set<OwnedKey> {
    set k | k in rows && k.table == table && rows[k].identity == Some(id)
  }

  /** The rows owned are those that a re-pointing changes. */
  lemma OwnedRowsAreRepointed(rows: OwnedRows, table: OwnedTable, source: Id, target: Id, k: OwnedKey)
    requires source != target
    ensures k in OwnedBy(rows, table, source) <==> k in rows && Repoint(rows, {table}, source, target)[k] != rows[k]
    ensures k in OwnedBy(rows, table, source) ==> Repoint(rows, {table}, source, target)[k].identity == Some(target)
  {
  }

  /** What the owned rows of the named tables look like once their identities have been merged. */
  ghost function Redirected(rows: OwnedRows, tables: set<OwnedTable>, owner: map<Id, Id>): OwnedRows {
    map k | k in rows ::
      if k.table in tables && rows[k].identity.Some? then rows[k].(identity := Some(Own(owner, rows[k].identity.value)))
      else rows[k]
  }

  lemma RedirectStep(rows: OwnedRows, tables: set<OwnedTable>, owner: map<Id, Id>, next: map<Id, Id>, source: Id,
                     target: Id)
    requires forall x :: Own(next, x) == Own(map[source := target], Own(owner, x))
    ensures Repoint(Redirected(rows, tables, owner), tables, source, target) == Redirected(rows, tables, next)
  {
  }

  /** Lifecycle rows as stored, and the changes the session has not written yet. */
  datatype UnitOfWork = UnitOfWork(stored: Table, dirty: Table, doomed: set<nat>) {

    predicate Clean() {
      dirty == map[] && doomed == {}
    }

    /** What a flush would leave in the table. */
    function Written(): Table {
      map r | r in stored && r !in doomed :: if r in dirty then dirty[r] else stored[r]
    }

    function Flush(): UnitOfWork {
      UnitOfWork(Written(), map[], {})
    }

    /** The attributes of a loaded object: pending assignments hide the stored row. */
    function Load(r: nat): Snapshot
      requires r in stored
    {
      if r in dirty then dirty[r] else stored[r]
    }

    function BeforeStatement(autoflush: bool): UnitOfWork {
      if autoflush then Flush() else this
    }

    lemma CleanIsWritten()
      ensures Clean() ==> Written() == stored && Flush() == this
    {
      if Clean() {
        assert Written() == stored;
      }
    }

    lemma FlushKeepsWritten()
      ensures Flush().Written() == Written()
    {
    }
  }

  class Session {
    const autoflush: bool
    var rows: UnitOfWork
    var refs: RefTable
    var identities: map<Id, Option<Time>>  // MEDIA_IDENTITY: CREATED_AT by IDENTITY_ID
    var owned: OwnedRows

    constructor (autoflush: bool, stored: Table, refs: RefTable, identities: map<Id, Option<Time>>, owned: OwnedRows)
      ensures this.autoflush == autoflush && rows == UnitOfWork(stored, map[], {})
      ensures this.refs == refs && this.identities == identities && this.owned == owned
    {
      this.autoflush := autoflush;
      this.rows := UnitOfWork(stored, map[], {});
      this.refs := refs;
      this.identities := identities;
      this.owned := owned;
    }

    method Autoflush()
      modifies this`rows
      ensures rows == old(rows).BeforeStatement(autoflush)
    {
      if autoflush {
        rows := rows.Flush();
      }
    }

    /** Pending attribute changes are forgotten; objects marked deleted stay marked. */
    method ExpireAll()
      modifies this`rows
      ensures rows == old(rows).(dirty := map[])
    {
      rows := rows.(dirty := map[]);
    }

    method Commit()
      modifies this`rows
      ensures rows == old(rows).Flush()
    {
      rows := rows.Flush();
    }

    /** One bulk UPDATE; the result is its row count. */
    method UpdateOwned(table: OwnedTable, source: Id, target: Id) returns (count: nat)
      modifies this`rows, this`owned
      ensures rows == old(rows).BeforeStatement(autoflush)
      ensures owned == Repoint(old(owned), {table}, source, target)
      ensures count == |OwnedBy(old(owned), table, source)|
    {
      Autoflush();
      count := |OwnedBy(owned, table, source)|;
      owned := Repoint(owned, {table}, source, target);
    }

    method DeleteIdentity(id: Id)
      modifies this`rows, this`identities
      ensures rows == old(rows).BeforeStatement(autoflush)
      ensures identities == old(identities) - {id}
    {
      Autoflush();
      identities := identities - {id};
    }

    /** The rows of `source` in the reference table go to `target`, except those whose triple `target` already holds. */
    method MoveRefs(source: Id, target: Id) returns (visited: nat)
      requires source != target
      modifies this`rows, this`refs
      ensures RefImage(old(refs), refs, map[source := target]) && MovedOnce(old(refs), refs, source, target)
      ensures visited == |RefsOf(old(refs), source)|
      ensures rows == old(rows).BeforeStatement(autoflush)
    {
      Autoflush();
      rows.CleanIsWritten();
      ghost var before := refs;
      var todo := RefsOf(refs, source);
      RefsDepart(refs, source, target);
      visited := 0;
      while todo != {}
        invariant rows == old(rows).BeforeStatement(autoflush)
        invariant autoflush ==> rows.Flush() == rows
        invariant RefsMidway(before, refs, source, target, todo) && OnceMidway(before, refs, source, target, todo)
        invariant visited + |todo| == |RefsOf(before, source)|
        decreases todo
      {
        var r :| r in todo;
        RefVisit(before, refs, source, target, todo, r);
        OnceVisit(before, refs, source, target, todo, r);
        todo := todo - {r};
        Autoflush();
        if HoldsTriple(refs, target, refs[r]) {
          refs := refs - {r};
        } else {
          refs := refs[r := refs[r].(identity := target)];
        }
        visited := visited + 1;
      }
      RefsArrived(before, refs, source, target);
    }
  }

  /** The tables of a session as values; `ids` are the identities that exist. */
  datatype View = View(refs: RefTable, ids: set<Id>, owned: OwnedRows, rows: UnitOfWork, created: map<Id, Option<Time>>)

  ghost function ViewOf(db: Session): View
    reads db
  {
    View(db.refs, db.identities.Keys, db.owned, db.rows, db.identities)
  }

  // --- choosing a survivor ---

  /** The sort key of a merge candidate, compared from the first component on. */
  datatype Score = Score(rows: nat, second: nat, third: nat) {
    predicate Exceeds(other: Score) {
      rows > other.rows
      || (rows == other.rows && (second > other.second || (second == other.second && third > other.third)))
    }
  }

  /** The head of the candidates sorted by descending score; candidates that tie may come in any order. */
  method PickSurvivor(candidates: map<Id, Score>) returns (best: Id)
    requires |candidates| > 0
    ensures best in candidates
    ensures forall x :: x in candidates ==> !candidates[x].Exceeds(candidates[best])
  {
    assert candidates.Keys != {};
    best :| best in candidates.Keys;
    var rest := candidates.Keys - {best};
    while rest != {}
      invariant best in candidates && rest <= candidates.Keys
      invariant forall x :: x in candidates && x !in rest ==> !candidates[x].Exceeds(candidates[best])
      decreases rest
    {
      var x :| x in rest;
      rest := rest - {x};
      if candidates[x].Exceeds(candidates[best]) {
        best := x;
      }
    }
  }

  /** The candidates in descending order of their scores. */
  ghost predicate Ranked(order: seq<Id>, candidates: map<Id, Score>) {
    && (forall x :: x in order <==> x in candidates)
    && Unrepeated(order)
    && (forall i, j :: 0 <= i < j < |order| && order[i] in candidates && order[j] in candidates ==>
                         !candidates[order[j]].Exceeds(candidates[order[i]]))
  }

  ghost predicate Unrepeated(order: seq<Id>) {
    forall i, j :: 0 <= i < j < |order| ==> order[i] != order[j]
  }

  /** The merges of a group in descending order of the scores. */
  ghost predicate RankedFan(order: seq<Id>, scores: map<Id, Score>, added: seq<Merged>) {
    Ranked(order, scores) && order != [] && added == Fan(order)
  }

  ghost predicate FanOf(scores: map<Id, Score>, added: seq<Merged>) {
    exists order :: RankedFan(order, scores, added)
  }

  /** The scripts' `scored.sort(reverse=True)`; candidates that tie may come in any order. */
  method SortScored(candidates: map<Id, Score>) returns (order: seq<Id>)
    ensures Ranked(order, candidates) && |order| == |candidates|
  {
    order := [];
    var rest := candidates;
    while rest.Keys != {}
      invariant rest.Keys <= candidates.Keys && forall x :: x in rest ==> rest[x] == candidates[x]
      invariant forall x :: x in order <==> x in candidates && x !in rest
      invariant Unrepeated(order)
      invariant forall x, y :: x in order && y in rest ==> !candidates[y].Exceeds(candidates[x])
      invariant Ranked(order, candidates - rest.Keys)
      invariant |order| + |rest| == |candidates|
      decreases rest.Keys
    {
      var best := PickSurvivor(rest);
      order := order + [best];
      rest := rest - {best};
    }
  }

  /** The candidates from position `k` on. */
  ghost function Rest(order: seq<Id>, k: nat): set<Id> {
    set i | k <= i < |order| :: order[i]
  }

  lemma RestStep(order: seq<Id>, k: nat)
    requires Unrepeated(order) && k < |order|
    ensures order[k] in Rest(order, k) && Rest(order, k) - {order[k]} == Rest(order, k + 1)
  {
  }

  lemma NothingLeft(order: seq<Id>)
    ensures Rest(order, |order|) == {}
  {
  }

  lemma RankedWhole(order: seq<Id>, candidates: map<Id, Score>)
    requires Ranked(order, candidates) && order != []
    ensures Unrepeated(order) && order[0] in candidates && Rest(order, 1) == candidates.Keys - {order[0]}
    ensures forall x :: x in candidates ==> !candidates[x].Exceeds(candidates[order[0]])
  {
    assert order[0] in order;
    forall x | x in candidates
      ensures x == order[0] || x in Rest(order, 1)
      ensures !candidates[x].Exceeds(candidates[order[0]])
    {
      assert x in order;
    }
    forall x | x in Rest(order, 1)
      ensures x in candidates
    {
      assert x in order;
    }
  }
}
