/** f13d224bd806: the seed columns of two tables are dropped with a sparse backup, and the downgrade adds them again. */
module SeedBackup {
  import opened Wrappers

  datatype TableName = SearchResultInfo | TransferHistory

  datatype Column = SeedsEpisode | SeedsSeason | SeedsEndEpisode

  const ALL: set<Column> := {SeedsEpisode, SeedsSeason, SeedsEndEpisode}

  /** A row with the seed columns that its table has; `rest` stands for the other columns. */
  datatype Row = Row(seeds: map<Column, Option<int>>, rest: string)

  datatype Table = Table(columns: set<Column>, rows: map<nat, Row>)

  type Tables = map<TableName, Table>

  /** One row of MIGRATION_LEGACY_SEEDS_BACKUP. */
  datatype Saved = Saved(table: TableName, id: nat, values: map<Column, Option<int>>)

  ghost predicate WellFormed(tables: Tables) {
    forall name, r ::
      name in tables && r in tables[name].rows ==> tables[name].rows[r].seeds.Keys == tables[name].columns
  }

  predicate Legacy(tables: Tables) {
    exists name :: name in tables && tables[name].columns != {}
  }

  // --- the backup ---

  /** A row is saved only if one of its seed values is not NULL. */
  predicate WorthSaving(row: Row) {
    exists c :: c in row.seeds && row.seeds[c].Some?
  }

  function Narrowed(t: Table): Table {
    Table({}, map r | r in t.rows :: t.rows[r].(seeds := map[]))
  }

  function AllNarrowed(tables: Tables): Tables {
    map name | name in tables :: Narrowed(tables[name])
  }

  predicate About(e: Saved, name: TableName, r: nat) {
    e.table == name && e.id == r
  }

  predicate HasEntry(log: seq<Saved>, name: TableName, r: nat) {
    exists i :: 0 <= i < |log| && About(log[i], name, r)
  }

  /** Every entry belongs to a row worth saving and holds its values as they were in `origin`. */
  ghost predicate Faithful(origin: Tables, log: seq<Saved>) {
    forall i :: 0 <= i < |log| ==> FaithfulEntry(origin, log[i])
  }

  predicate FaithfulEntry(origin: Tables, e: Saved) {
    e.table in origin && e.id in origin[e.table].rows && e.values == origin[e.table].rows[e.id].seeds
    && WorthSaving(origin[e.table].rows[e.id])
  }

  ghost predicate TableSaved(origin: Tables, log: seq<Saved>, name: TableName) {
    name in origin
    ==> forall r :: r in origin[name].rows && WorthSaving(origin[name].rows[r]) ==> HasEntry(log, name, r)
  }

  /** The log is faithful and misses no value. */
  ghost predicate Saves(origin: Tables, log: seq<Saved>) {
    Faithful(origin, log) && forall name :: TableSaved(origin, log, name)
  }

  // --- the restoration ---

  /** The missing columns are added as NULL. */
  function Widen(row: Row): Row {
    row.(seeds := map c | c in ALL :: if c in row.seeds then row.seeds[c] else None)
  }

  function Widened(t: Table): Table {
    Table(ALL, map r | r in t.rows :: Widen(t.rows[r]))
  }

  function AllWidened(tables: Tables): Tables {
    map name | name in tables :: Widened(tables[name])
  }

  predicate Complete(tables: Tables) {
    SearchResultInfo in tables && TransferHistory in tables
  }

  /** What a downgrade has done when it fails: the first table, if it exists, has its columns. */
  function WidenedFirst(tables: Tables): Tables {
    if SearchResultInfo in tables then tables[SearchResultInfo := Widened(tables[SearchResultInfo])] else tables
  }

  /** The UPDATE for one entry; an id that no longer exists is no error. */
  function Applied(tables: Tables, e: Saved): Tables {
    if e.table in tables && e.id in tables[e.table].rows then
      var t := tables[e.table];
      tables[e.table := t.(rows := t.rows[e.id := t.rows[e.id].(seeds := t.rows[e.id].seeds + e.values)])]
    else tables
  }

  function Replay(tables: Tables, log: seq<Saved>): Tables {
    if log == [] then tables else Applied(Replay(tables, log[..|log| - 1]), log[|log| - 1])
  }

  class SeedStore {
    var tables: Tables
    var log: Option<seq<Saved>>

    /** `_backup_seed_columns` for one table. */
    method BackupTable(name: TableName, ghost origin: Tables)
      requires log.Some? && WellFormed(tables)
      modifies this
      ensures log.Some? && WellFormed(tables)
      ensures tables == if name in old(tables) then old(tables)[name := Narrowed(old(tables)[name])] else old(tables)
      ensures (name in old(tables) && name in origin && old(tables)[name] == origin[name]
               && Faithful(origin, old(log).value))
              ==> Faithful(origin, log.value) && TableSaved(origin, log.value, name)
      ensures name !in old(tables) ==> log == old(log)
      ensures old(log).value <= log.value
    {
      if name !in tables {
        return;
      }
      var t := tables[name];
      if t.columns == {} {
        NarrowedAlready(tables, name, log.value);
        assert tables[name := Narrowed(t)] == tables;
        return;
      }
      var saved := log.value;
      var todo := set r | r in t.rows && WorthSaving(t.rows[r]);
      while todo != {}
        invariant todo <= t.rows.Keys && tables == old(tables) && log == old(log)
        invariant old(log).value <= saved
        invariant name in origin && t == origin[name] && Faithful(origin, old(log).value) ==> Faithful(origin, saved)
        invariant RowsSaved(t, saved, name, todo)
        decreases todo
      {
        var r :| r in todo;
        var e := Saved(name, r, t.rows[r].seeds);
        SavedOneMore(t, saved, name, todo, e);
        saved := saved + [e];
        todo := todo - {r};
      }
      log := Some(saved);
      tables := tables[name := Narrowed(t)];
    }

    /** The seed part of `upgrade`. */
    method Upgrade()
      requires WellFormed(tables)
      modifies this
      ensures !Legacy(old(tables)) ==> tables == old(tables) && log == old(log)
      ensures Legacy(old(tables)) ==> tables == AllNarrowed(old(tables)) && log.Some?
      ensures Legacy(old(tables)) && old(log).GetOr([]) == [] ==> Saves(old(tables), log.value)
    {
      ghost var origin := tables;
      if !Legacy(tables) {
        return;
      }
      log := Some(log.GetOr([]));
      BackupTable(SearchResultInfo, origin);
      ghost var between := log.value;
      BackupTable(TransferHistory, origin);
      BothNarrowed(origin, tables);
      if old(log).GetOr([]) == [] {
        BothSaved(origin, between, log.value);
      }
    }

    /** The missing columns of one table; there is no adding columns to a table that does not exist. */
    method AddColumns(name: TableName) returns (ok: bool)
      modifies this`tables
      ensures ok <==> name in old(tables)
      ensures tables == if ok then old(tables)[name := Widened(old(tables)[name])] else old(tables)
    {
      ok := name in tables;
      if ok {
        tables := tables[name := Widened(tables[name])];
      }
    }

    /** `_restore_seed_columns`. With a backup it fails on the first table that is missing, before it restores a
        value. */
    method Downgrade() returns (ok: bool)
      modifies this
      ensures old(log).None? ==> ok && tables == old(tables) && log.None?
      ensures old(log).Some? ==> (ok <==> Complete(old(tables)))
      ensures old(log).Some? && ok ==> tables == Replay(AllWidened(old(tables)), old(log).value) && log.None?
      ensures !ok ==> log == old(log) && tables == WidenedFirst(old(tables))
    {
      if log.None? {
        return true;
      }
      ok := AddColumns(SearchResultInfo);
      if !ok {
        return;
      }
      ok := AddColumns(TransferHistory);
      if !ok {
        return;
      }
      BothWidened(old(tables));
      var entries := log.value;
      for i := 0 to |entries|
        invariant tables == Replay(AllWidened(old(tables)), entries[..i])
      {
        assert entries[..i + 1][..i] == entries[..i];
        tables := Applied(tables, entries[i]);
      }
      assert entries[..|entries|] == entries;
      log := None;
    }
  }

  lemma BothWidened(tables: Tables)
    requires Complete(tables)
    ensures WidenedFirst(tables)[TransferHistory := Widened(tables[TransferHistory])] == AllWidened(tables)
  {
    forall name | name in tables
      ensures name == SearchResultInfo || name == TransferHistory
    {
      match name
      case SearchResultInfo =>
      case TransferHistory =>
    }
  }

  lemma EntryOneMore(log: seq<Saved>, e: Saved, name: TableName, r: nat)
    ensures HasEntry(log + [e], name, r) <==> HasEntry(log, name, r) || About(e, name, r)
  {
    var longer := log + [e];
    if HasEntry(longer, name, r) && !About(e, name, r) {
      var i :| 0 <= i < |longer| && About(longer[i], name, r);
      assert About(log[i], name, r);
    }
    if HasEntry(log, name, r) {
      var i :| 0 <= i < |log| && About(log[i], name, r);
      assert About(longer[i], name, r);
    }
    assert longer[|log|] == e;
  }

  /** The rows outside `todo` that are worth saving are saved. */
  ghost predicate RowsSaved(t: Table, log: seq<Saved>, name: TableName, todo: set<nat>) {
    forall r :: r in t.rows && WorthSaving(t.rows[r]) && r !in todo ==> HasEntry(log, name, r)
  }

  lemma SavedOneMore(t: Table, log: seq<Saved>, name: TableName, todo: set<nat>, e: Saved)
    requires RowsSaved(t, log, name, todo) && e.table == name
    ensures RowsSaved(t, log + [e], name, todo - {e.id})
  {
    forall r | r in t.rows && WorthSaving(t.rows[r]) && r !in todo - {e.id}
      ensures HasEntry(log + [e], name, r)
    {
      EntryOneMore(log, e, name, r);
    }
  }

  lemma NarrowedAlready(tables: Tables, name: TableName, log: seq<Saved>)
    requires WellFormed(tables) && name in tables && tables[name].columns == {}
    ensures Narrowed(tables[name]) == tables[name] && TableSaved(tables, log, name)
  {
    var t := tables[name];
    forall r | r in t.rows
      ensures t.rows[r].seeds == map[] && !WorthSaving(t.rows[r])
    {
      assert t.rows[r].seeds.Keys == {};
    }
    assert Narrowed(t).rows == t.rows;
  }

  lemma BothNarrowed(origin: Tables, tables: Tables)
    requires tables.Keys == origin.Keys
    requires SearchResultInfo in origin ==> tables[SearchResultInfo] == Narrowed(origin[SearchResultInfo])
    requires TransferHistory in origin ==> tables[TransferHistory] == Narrowed(origin[TransferHistory])
    ensures tables == AllNarrowed(origin)
  {
    forall name | name in origin
      ensures tables[name] == Narrowed(origin[name])
    {
      match name
      case SearchResultInfo =>
      case TransferHistory =>
    }
  }

  lemma SavedLater(origin: Tables, log: seq<Saved>, longer: seq<Saved>, name: TableName)
    requires TableSaved(origin, log, name) && log <= longer
    ensures TableSaved(origin, longer, name)
  {
    forall r | HasEntry(log, name, r)
      ensures HasEntry(longer, name, r)
    {
      var i :| 0 <= i < |log| && About(log[i], name, r);
      assert About(longer[i], name, r);
    }
  }

  lemma BothSaved(origin: Tables, between: seq<Saved>, log: seq<Saved>)
    requires Faithful(origin, log) && between <= log
    requires TableSaved(origin, between, SearchResultInfo) && TableSaved(origin, log, TransferHistory)
    ensures Saves(origin, log)
  {
    SavedLater(origin, between, log, SearchResultInfo);
    forall name
      ensures TableSaved(origin, log, name)
    {
      match name
      case SearchResultInfo =>
      case TransferHistory =>
    }
  }

  // --- losslessness ---

  lemma {:induction false} ReplayedRow(origin: Tables, tables: Tables, log: seq<Saved>, name: TableName, r: nat)
    requires Faithful(origin, log) && name in tables && r in tables[name].rows
    ensures Replay(tables, log).Keys == tables.Keys && Replay(tables, log)[name].columns == tables[name].columns
    ensures Replay(tables, log)[name].rows.Keys == tables[name].rows.Keys
    ensures HasEntry(log, name, r) ==> name in origin && r in origin[name].rows
    ensures Replay(tables, log)[name].rows[r]
            == if HasEntry(log, name, r)
               then tables[name].rows[r].(seeds := tables[name].rows[r].seeds + origin[name].rows[r].seeds)
               else tables[name].rows[r]
  {
    if log != [] {
      var front, e := log[..|log| - 1], log[|log| - 1];
      ReplayedRow(origin, tables, front, name, r);
      assert log == front + [e];
      assert FaithfulEntry(origin, e);
      EntryOneMore(front, e, name, r);
    }
  }

  /** After the restoration a row that existed has its old values, and NULL in the columns its table did not have; a row
      added in between has NULL everywhere. */
  lemma RestoredRow(origin: Tables, tables: Tables, log: seq<Saved>, name: TableName, r: nat)
    requires WellFormed(origin) && Saves(origin, log) && name in tables && r in tables[name].rows
    requires tables[name].rows[r].seeds == map[]
    ensures Replay(AllWidened(tables), log).Keys == tables.Keys && Replay(AllWidened(tables), log)[name].columns == ALL
    ensures Replay(AllWidened(tables), log)[name].rows.Keys == tables[name].rows.Keys
    ensures Replay(AllWidened(tables), log)[name].rows[r].rest == tables[name].rows[r].rest
    ensures Replay(AllWidened(tables), log)[name].rows[r].seeds
            == if name in origin && r in origin[name].rows then Widen(origin[name].rows[r]).seeds
               else Widen(tables[name].rows[r]).seeds
  {
    ReplayedRow(origin, AllWidened(tables), log, name, r);
    if name in origin && r in origin[name].rows {
      assert TableSaved(origin, log, name);
      Refilled(tables[name].rows[r], origin[name].rows[r]);
    }
  }

  lemma Refilled(empty: Row, full: Row)
    requires empty.seeds == map[]
    ensures Widen(empty).seeds + full.seeds == Widen(full).seeds
    ensures !WorthSaving(full) ==> Widen(empty).seeds == Widen(full).seeds
  {
    AllColumns(full.seeds.Keys);
    forall c
      ensures c in full.seeds ==> c in ALL
    {
      assert c in full.seeds ==> c in full.seeds.Keys;
    }
    assert !WorthSaving(full) ==> forall c :: c in full.seeds ==> full.seeds[c] == None;
  }

  lemma AllColumns(columns: set<Column>)
    ensures columns <= ALL
  {
    forall c | c in columns
      ensures c in ALL
    {
      match c
      case SeedsEpisode =>
      case SeedsSeason =>
      case SeedsEndEpisode =>
    }
  }

  /** Upgrade followed by downgrade; nothing when the downgrade fails. */
  function ThereAndBack(origin: Tables, log: seq<Saved>): Option<Tables> {
    if !Legacy(origin) then Some(origin)
    else if Complete(origin) then Some(Replay(AllWidened(AllNarrowed(origin)), log))
    else None
  }

  /** When both tables exist the round trip widens each of them to all seed columns and changes nothing else; when one
      is missing and the other has a seed column, the way back fails. */
  lemma RoundTripWidens(origin: Tables, log: seq<Saved>)
    requires WellFormed(origin) && Saves(origin, log) && Legacy(origin)
    ensures Complete(origin) ==> ThereAndBack(origin, log) == Some(AllWidened(origin))
    ensures !Complete(origin) ==> ThereAndBack(origin, log) == None
  {
    if Complete(origin) {
      AllRestored(origin, log);
    }
  }

  lemma AllRestored(origin: Tables, log: seq<Saved>)
    requires WellFormed(origin) && Saves(origin, log)
    ensures Replay(AllWidened(AllNarrowed(origin)), log) == AllWidened(origin)
  {
    var narrow := AllNarrowed(origin);
    var back := Replay(AllWidened(narrow), log);
    ReplayKeeps(AllWidened(narrow), log);
    forall name | name in origin
      ensures back[name] == Widened(origin[name])
    {
      forall r | r in origin[name].rows
        ensures r in back[name].rows && back[name].rows[r] == Widen(origin[name].rows[r])
      {
        RestoredRow(origin, narrow, log, name, r);
      }
      assert back[name].rows == Widened(origin[name]).rows;
    }
  }

  lemma {:induction false} ReplayKeeps(tables: Tables, log: seq<Saved>)
    ensures Replay(tables, log).Keys == tables.Keys
    ensures forall name :: name in tables ==> Replay(tables, log)[name].columns == tables[name].columns
    ensures forall name :: name in tables ==> Replay(tables, log)[name].rows.Keys == tables[name].rows.Keys
  {
    if log != [] {
      ReplayKeeps(tables, log[..|log| - 1]);
    }
  }

  lemma WidenedAlready(tables: Tables, name: TableName)
    requires WellFormed(tables) && name in tables && tables[name].columns == ALL
    ensures Widened(tables[name]) == tables[name]
  {
    var t := tables[name];
    forall r | r in t.rows
      ensures Widen(t.rows[r]) == t.rows[r]
    {
      assert t.rows[r].seeds.Keys == ALL;
    }
    assert Widened(t).rows == t.rows;
  }

  /** So it is the identity exactly when no table had a seed column or both tables exist with all three. */
  lemma RoundTripExactly(origin: Tables, log: seq<Saved>)
    requires WellFormed(origin) && Saves(origin, log)
    ensures ThereAndBack(origin, log) == Some(origin)
            <==> !Legacy(origin) || (Complete(origin) && forall name :: name in origin ==> origin[name].columns == ALL)
  {
    if Legacy(origin) && Complete(origin) {
      RoundTripWidens(origin, log);
      if forall name :: name in origin ==> origin[name].columns == ALL {
        forall name | name in origin
          ensures Widened(origin[name]) == origin[name]
        {
          WidenedAlready(origin, name);
        }
        assert AllWidened(origin) == origin;
      } else {
        var name :| name in origin && origin[name].columns != ALL;
        assert AllWidened(origin)[name].columns == ALL;
      }
    }
  }

  /** A table with one of the three columns comes back with all of them. */
  lemma WiderExample(origin: Tables)
    requires origin.Keys == {SearchResultInfo, TransferHistory} && origin[TransferHistory] == Table({}, map[])
    requires origin[SearchResultInfo] == Table({SeedsSeason}, map[1 := Row(map[SeedsSeason := Some(5)], "")])
    ensures var log := [Saved(SearchResultInfo, 1, map[SeedsSeason := Some(5)])];
            WellFormed(origin) && Saves(origin, log) && ThereAndBack(origin, log) == Some(AllWidened(origin))
    ensures AllWidened(origin)[SearchResultInfo].columns == ALL != origin[SearchResultInfo].columns
  {
    var log := [Saved(SearchResultInfo, 1, map[SeedsSeason := Some(5)])];
    var row := origin[SearchResultInfo].rows[1];
    assert SeedsSeason in row.seeds && row.seeds[SeedsSeason].Some?;
    assert About(log[0], SearchResultInfo, 1);
    assert FaithfulEntry(origin, log[0]);
    assert SeedsEpisode in ALL && SeedsEpisode !in origin[SearchResultInfo].columns;
    assert SearchResultInfo in origin && origin[SearchResultInfo].columns != {};
    RoundTripWidens(origin, log);
  }

  /** A database without TRANSFER_HISTORY loses the columns and cannot get them back. */
  lemma MissingTableExample(origin: Tables)
    requires origin == map[SearchResultInfo := Table(ALL, map[])]
    ensures WellFormed(origin) && Saves(origin, []) && ThereAndBack(origin, []) == None
  {
    assert SeedsEpisode in origin[SearchResultInfo].columns;
    RoundTripWidens(origin, []);
  }

  /** A row is in the backup exactly when one of its seed columns holds a number. */
  lemma SavedExactly(origin: Tables, log: seq<Saved>, name: TableName, r: nat)
    requires Saves(origin, log) && name in origin && r in origin[name].rows
    ensures HasEntry(log, name, r)
            <==> exists c :: c in origin[name].rows[r].seeds && origin[name].rows[r].seeds[c] != None
  {
    var seeds := origin[name].rows[r].seeds;
    if HasEntry(log, name, r) {
      var i :| 0 <= i < |log| && About(log[i], name, r);
      assert FaithfulEntry(origin, log[i]);
      assert WorthSaving(origin[name].rows[r]);
    }
    if c :| c in seeds && seeds[c] != None {
      assert seeds[c].Some? && WorthSaving(origin[name].rows[r]);
      assert TableSaved(origin, log, name);
    }
  }

  /** After the way back each of the three columns holds what it held, or NULL if the table did not have it. */
  lemma ColumnRestored(origin: Tables, tables: Tables, log: seq<Saved>, name: TableName, r: nat, c: Column)
    requires WellFormed(origin) && Saves(origin, log) && name in tables && r in tables[name].rows
    requires tables[name].rows[r].seeds == map[]
    ensures var back := Replay(AllWidened(tables), log);
            name in back && r in back[name].rows && c in back[name].rows[r].seeds
            && back[name].rows[r].seeds[c]
               == if name in origin && r in origin[name].rows && c in origin[name].rows[r].seeds
                  then origin[name].rows[r].seeds[c] else None
  {
    RestoredRow(origin, tables, log, name, r);
    AllColumns({c});
    assert c in {c};
  }
}
