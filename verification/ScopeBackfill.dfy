/** 9dd288f9bf97: every media table receives the identity of the reference its rows carry, or of the reference its
    legacy id column stands for. */
module ScopeBackfill {
  import opened Wrappers
  import opened Titles
  import opened MetadataRefs

  datatype TableName =
    | SubscribeMovies | SubscribeTvs | SubscribeHistory | SearchResultInfo | LibraryMediaMetadata
    | MediaSyncItems | DownloadHistory | TransferHistory

  /** The columns the migration reads and writes. `rawProvider`, `rawExternal` are the anchor fields of the decoded RAW
      column, absent when RAW is no JSON object. */
  datatype Row = Row(
    anchorProvider: Option<string>,
    anchorExternal: Option<string>,
    identity: Option<Id>,
    profile: Option<string>,
    policy: Option<string>,
    tmdbId: Option<string>,
    imdbId: Option<string>,
    rawProvider: Option<string>,
    rawExternal: Option<string>)

  type Table = map<nat, Row>
  type Tables = map<TableName, Table>

  const ORDER: seq<TableName> :=
    [SubscribeMovies, SubscribeTvs, SubscribeHistory, SearchResultInfo, LibraryMediaMetadata, MediaSyncItems,
     DownloadHistory, TransferHistory]

  predicate HasPolicy(name: TableName) {
    name in {SubscribeMovies, SubscribeTvs, SubscribeHistory, SearchResultInfo, LibraryMediaMetadata}
  }

  /** The (provider, external id) a row carries itself; either may be empty. */
  function Carried(name: TableName, row: Row): (string, string) {
    if name == LibraryMediaMetadata then
      if Strip(Text(row.rawProvider)) != "" && Strip(Text(row.rawExternal)) != ""
      then (Strip(Text(row.rawProvider)), Strip(Text(row.rawExternal)))
      else ("", "")
    else (Strip(Text(row.anchorProvider)), Strip(Text(row.anchorExternal)))
  }

  /** The legacy id to parse: MEDIASYNC_ITEMS falls back to the IMDb column. */
  function LegacyId(name: TableName, row: Row): string {
    if name == MediaSyncItems && Strip(Text(row.tmdbId)) == "" then Text(row.imdbId) else Text(row.tmdbId)
  }

  /** What the migration decides for one row, before it knows the identity; None leaves the row alone. */
  function PlanOf(name: TableName, row: Row): Option<Reference> {
    var carried := Carried(name, row);
    var profile := Strip(Text(row.profile));
    var policy := if HasPolicy(name) then Strip(Text(row.policy)) else "";
    if carried.0 != "" && carried.1 != "" then
      Some(Reference(carried.0, carried.1, OrElse(profile, "default"), OrElse(policy, PolicyFor(carried.0))))
    else
      var parsed := ParseRef(LegacyId(name, row), true);
      if parsed.None? then None
      else
        var p := parsed.value;
        Some(Reference(p.provider, p.externalId, OrElse(profile, p.profile),
                       OrElse(OrElse(policy, p.policy), PolicyFor(p.provider))))
  }

  /** One column of the update: written only when its text changes. */
  function Put(current: Option<string>, value: string): Option<string> {
    if Text(current) == value then current else if value == "" then None else Some(value)
  }

  function Write(name: TableName, row: Row, plan: Reference, id: Id): Row {
    row.(anchorProvider := Put(row.anchorProvider, plan.provider),
         anchorExternal := Put(row.anchorExternal, plan.externalId),
         identity := Put(row.identity, id),
         profile := Put(row.profile, plan.profile),
         policy := if HasPolicy(name) then Put(row.policy, plan.policy) else row.policy)
  }

  // --- what one run amounts to ---

  /** Row `after` is what a run makes of row `before` under the references `refs`. */
  ghost predicate RowDone(name: TableName, before: Row, after: Row, refs: RefRows) {
    match PlanOf(name, before)
    case None => after == before
    case Some(plan) => exists id ::
                         Resolves(refs, plan.provider, plan.externalId, id) && after == Write(name, before, plan, id)
  }

  /** The references that the rows of the tables ask for. */
  ghost function Asked(tables: Tables): set<Request> {
    set name, r | name in tables && r in tables[name] && PlanOf(name, tables[name][r]).Some?
      :: (PlanOf(name, tables[name][r]).value.provider, PlanOf(name, tables[name][r]).value.externalId,
          "legacy_migration_scope")
  }

  ghost predicate Backfilled(tables: Tables, refs: RefRows, tables': Tables, refs': RefRows) {
    && tables'.Keys == tables.Keys
    && (forall name :: name in tables ==> tables'[name].Keys == tables[name].Keys)
    && (forall name, r ::
          name in tables && r in tables[name] ==> RowDone(name, tables[name][r], tables'[name][r], refs'))
    && Functional(refs') && Progress(Asked(tables), refs, refs')
  }

  lemma RowDoneLater(name: TableName, before: Row, after: Row, refs: RefRows, refs': RefRows)
    requires RowDone(name, before, after, refs) && Extends(refs, refs')
    ensures RowDone(name, before, after, refs')
  {
    var plan := PlanOf(name, before);
    if plan.Some? {
      var id :| Resolves(refs, plan.value.provider, plan.value.externalId, id)
                && after == Write(name, before, plan.value, id);
      ResolvesLater(refs, refs', plan.value.provider, plan.value.externalId, id);
    }
  }

  /** Rows of any two tables with the same effective reference receive the same identity. */
  lemma SameReferenceSameIdentity(tables: Tables, refs: RefRows, tables': Tables, refs': RefRows, m: TableName, a: nat,
                                  n: TableName, b: nat)
    requires Backfilled(tables, refs, tables', refs')
    requires m in tables && a in tables[m] && n in tables && b in tables[n]
    requires PlanOf(m, tables[m][a]).Some? && PlanOf(n, tables[n][b]).Some?
    requires PlanOf(m, tables[m][a]).value.provider == PlanOf(n, tables[n][b]).value.provider
    requires PlanOf(m, tables[m][a]).value.externalId == PlanOf(n, tables[n][b]).value.externalId
    ensures Text(tables'[m][a].identity) == Text(tables'[n][b].identity)
  {
    var p, q := PlanOf(m, tables[m][a]).value, PlanOf(n, tables[n][b]).value;
    hide PlanOf;
    var x := IdentityWritten(m, tables[m][a], tables'[m][a], refs', p);
    var y := IdentityWritten(n, tables[n][b], tables'[n][b], refs', q);
    ResolvesOnce(refs', p.provider, p.externalId, x, y);
  }

  lemma IdentityWritten(name: TableName, before: Row, after: Row, refs: RefRows, p: Reference) returns (id: Id)
    requires RowDone(name, before, after, refs) && PlanOf(name, before) == Some(p)
    ensures Resolves(refs, p.provider, p.externalId, id) && Text(after.identity) == id
  {
    id :| Resolves(refs, p.provider, p.externalId, id) && after == Write(name, before, p, id);
  }

  // --- what a row becomes, column by column ---

  /** The column has the text `value`; it is written only if its text changes, and NULL is written for the empty
      text. */
  predicate ColumnSet(before: Option<string>, after: Option<string>, value: string) {
    if before.GetOr("") == value then after == before
    else if value == "" then after == None
    else after == Some(value)
  }

  ghost predicate IdentitySet(before: Row, after: Row, refs: RefRows, provider: string, external: string) {
    exists id :: Resolves(refs, provider, external, id) && ColumnSet(before.identity, after.identity, id)
  }

  /** The row has this anchor, profile and policy, an identity its reference resolves to, and is otherwise unchanged.
      The last three tables have no policy column. */
  ghost predicate Becomes(name: TableName, before: Row, after: Row, refs: RefRows, provider: string, external: string,
                          profile: string, policy: string) {
    && ColumnSet(before.anchorProvider, after.anchorProvider, provider)
    && ColumnSet(before.anchorExternal, after.anchorExternal, external)
    && ColumnSet(before.profile, after.profile, profile)
    && (if name in {MediaSyncItems, DownloadHistory, TransferHistory} then after.policy == before.policy
        else ColumnSet(before.policy, after.policy, policy))
    && IdentitySet(before, after, refs, provider, external)
    && after.tmdbId == before.tmdbId && after.imdbId == before.imdbId
    && after.rawProvider == before.rawProvider && after.rawExternal == before.rawExternal
  }

  lemma PlannedRowBecomes(name: TableName, before: Row, after: Row, refs: RefRows, p: Reference)
    requires RowDone(name, before, after, refs) && PlanOf(name, before) == Some(p)
    ensures Becomes(name, before, after, refs, p.provider, p.externalId, p.profile, p.policy)
  {
    var id :| Resolves(refs, p.provider, p.externalId, id) && after == Write(name, before, p, id);
    assert ColumnSet(before.identity, after.identity, id);
  }

  /** The columns that hold a row's own anchor. */
  function AnchorColumns(name: TableName, row: Row): (Option<string>, Option<string>) {
    if name == LibraryMediaMetadata then (row.rawProvider, row.rawExternal)
    else (row.anchorProvider, row.anchorExternal)
  }

  /** A row with both anchor columns keeps its anchor, without the blanks around it. */
  lemma AnchoredRowKeepsIt(name: TableName, before: Row, after: Row, refs: RefRows)
    requires RowDone(name, before, after, refs)
    requires !Blank(Text(AnchorColumns(name, before).0)) && !Blank(Text(AnchorColumns(name, before).1))
    ensures var provider := Strip(Text(AnchorColumns(name, before).0));
            Becomes(name, before, after, refs, provider, Strip(Text(AnchorColumns(name, before).1)),
                    Given(before.profile, "default"), Given(before.policy, PolicyFor(provider)))
  {
    BlankIsStripped(Text(AnchorColumns(name, before).0));
    BlankIsStripped(Text(AnchorColumns(name, before).1));
    BlankIsStripped(Text(before.profile));
    BlankIsStripped(Text(before.policy));
    hide Strip;
    hide PolicyFor;
    hide Blank;
    PlannedRowBecomes(name, before, after, refs, PlanOf(name, before).value);
  }

  lemma UnanchoredPlan(name: TableName, row: Row, legacy: string)
    requires Blank(Text(AnchorColumns(name, row).0)) || Blank(Text(AnchorColumns(name, row).1))
    requires LegacyColumn(name, row, legacy)
    ensures PlanOf(name, row).None? <==> ParseRef(legacy, true).None?
    ensures PlanOf(name, row).Some?
            ==> var p, q := PlanOf(name, row).value, ParseRef(legacy, true).value;
                p.provider == q.provider && p.externalId == q.externalId && p.profile == Given(row.profile, q.profile)
                && (HasPolicy(name)
                    ==> p.policy == Given(row.policy, if q.policy != "" then q.policy else PolicyFor(q.provider)))
  {
    BlankIsStripped(Text(AnchorColumns(name, row).0));
    BlankIsStripped(Text(AnchorColumns(name, row).1));
    BlankIsStripped(Text(row.profile));
    BlankIsStripped(Text(row.policy));
    BlankIsStripped(Text(row.tmdbId));
    hide Strip;
    hide PolicyFor;
    hide ParseRef;
    hide Blank;
  }

  /** The legacy id is TMDBID; in MEDIASYNC_ITEMS it is IMDBID when TMDBID is blank. */
  predicate LegacyColumn(name: TableName, row: Row, legacy: string) {
    if name == MediaSyncItems && Blank(Text(row.tmdbId)) then Text(row.imdbId) == legacy else Text(row.tmdbId) == legacy
  }

  /** A row without an anchor receives the reference that its legacy id stands for. */
  lemma LegacyRowBecomes(name: TableName, before: Row, after: Row, refs: RefRows, b: string, prefix: string,
                         id: string, a: string)
    requires RowDone(name, before, after, refs) && Blank(b) && Blank(a) && id != ""
    requires Blank(Text(AnchorColumns(name, before).0)) || Blank(Text(AnchorColumns(name, before).1))
    requires LegacyColumn(name, before, b + prefix + id + a)
    ensures UpperAll(prefix) == "DB:" && EndsVisibly(id)
            ==> Becomes(name, before, after, refs, "douban", id, Given(before.profile, "default"),
                        Given(before.policy, "douban_primary"))
    ensures UpperAll(prefix) == "BG:" && EndsVisibly(id)
            ==> Becomes(name, before, after, refs, "bangumi", id, Given(before.profile, "anime"),
                        Given(before.policy, "bangumi_primary"))
    ensures prefix == "" && AllDigits(id)
            ==> Becomes(name, before, after, refs, "tmdb", id, Given(before.profile, "default"),
                        Given(before.policy, "tmdb_primary"))
    ensures LowerAll(prefix) == "tt" && AllDigits(id)
            ==> Becomes(name, before, after, refs, "imdb", "tt" + id, Given(before.profile, "default"),
                        Given(before.policy, ""))
  {
    LegacyIdIsRead(b, prefix, id, a, true);
    UnanchoredPlan(name, before, b + prefix + id + a);
    PolicyNames("imdb");
    hide ParseRef;
    hide Blank;
    hide Given;
    hide LegacyColumn;
    hide UpperAll;
    hide LowerAll;
    hide AllDigits;
    hide EndsVisibly;
    hide Becomes;
    hide PolicyFor;
    if PlanOf(name, before).Some? {
      PlannedRowBecomes(name, before, after, refs, PlanOf(name, before).value);
      hide PlanOf;
      PolicyIsUnused(name, before, after, refs, PlanOf(name, before).value);
    }
  }

  lemma PolicyIsUnused(name: TableName, before: Row, after: Row, refs: RefRows, p: Reference)
    requires Becomes(name, before, after, refs, p.provider, p.externalId, p.profile, p.policy)
    ensures forall policy {:trigger Becomes(name, before, after, refs, p.provider, p.externalId, p.profile, policy)} ::
              (HasPolicy(name) ==> policy == p.policy)
              ==> Becomes(name, before, after, refs, p.provider, p.externalId, p.profile, policy)
  {
  }

  /** A row without an anchor whose legacy id has no known shape is left alone. */
  lemma OtherRowsStay(name: TableName, before: Row, after: Row, refs: RefRows, b: string, value: string, a: string)
    requires RowDone(name, before, after, refs) && Blank(b) && Blank(a) && Trimmed(value)
    requires Blank(Text(AnchorColumns(name, before).0)) || Blank(Text(AnchorColumns(name, before).1))
    requires LegacyColumn(name, before, b + value + a)
    requires |value| > 3 ==> UpperAll(value[..3]) !in {"DB:", "BG:"}
    requires !AllDigits(value) && (|value| > 2 ==> LowerAll(value[..2]) != "tt" || !AllDigits(value[2..]))
    ensures after == before
  {
    OtherIdsAreNotRead(b, value, a, true);
    UnanchoredPlan(name, before, b + value + a);
  }

  // --- running twice ---

  /** The row's reference reads back as it was written. */
  predicate Stable(name: TableName, row: Row) {
    name == LibraryMediaMetadata || PlanOf(name, row).None? || Trimmed(PlanOf(name, row).value.externalId)
  }

  /** The shape of every plan. */
  predicate WellShaped(p: Reference) {
    && Visible(p.provider) && Visible(p.profile)
    && Trimmed(p.policy) && (p.policy == "" ==> PolicyFor(p.provider) == "")
    && Strip(p.externalId) != ""
  }

  lemma CarriedIsTrimmed(name: TableName, row: Row)
    ensures Trimmed(Carried(name, row).0) && Trimmed(Carried(name, row).1)
    ensures Strip(Carried(name, row).1) == Carried(name, row).1
  {
    StripTrims(Text(row.anchorProvider));
    StripTrims(Text(row.anchorExternal));
    StripTrims(Text(row.rawProvider));
    StripTrims(Text(row.rawExternal));
    StripTrims("");
  }

  lemma PoliciesAreTrimmed(provider: string)
    ensures Trimmed(PolicyFor(provider)) && Visible("default")
  {
  }

  lemma PlanIsTrimmed(name: TableName, row: Row)
    requires PlanOf(name, row).Some?
    ensures WellShaped(PlanOf(name, row).value)
  {
    hide Strip;
    hide ParseRef;
    hide Trimmed;
    hide Carried;
    hide LegacyId;
    hide PolicyFor;
    StripTrims(Text(row.profile));
    StripTrims(Text(row.policy));
    StripTrims("");
    PoliciesAreTrimmed(PlanOf(name, row).value.provider);
    var carried := Carried(name, row);
    CarriedIsTrimmed(name, row);
    if carried.0 == "" || carried.1 == "" {
      ParsedShape(LegacyId(name, row), true);
      VisibleSurvivesStrip(ParseRef(LegacyId(name, row), true).value.externalId);
    }
  }

  /** What the second run reads from a row the first run wrote. */
  lemma PlanAfterWrite(name: TableName, row: Row, id: Id)
    requires PlanOf(name, row).Some?
    ensures var p := PlanOf(name, row).value;
            PlanOf(name, Write(name, row, p, id))
            == Some(if name == LibraryMediaMetadata then p else p.(externalId := Strip(p.externalId)))
  {
    PlanIsTrimmed(name, row);
    var p := PlanOf(name, row).value;
    var next := Write(name, row, p, id);
    StripTrims(p.provider);
    StripTrims(p.profile);
    StripTrims(p.policy);
    assert Text(next.anchorProvider) == p.provider && Text(next.anchorExternal) == p.externalId
           && Text(next.profile) == p.profile;
    assert HasPolicy(name) ==> Text(next.policy) == p.policy;
    assert p.policy != "" && !HasPolicy(name) ==> p.policy == PolicyFor(p.provider) by {
      if Carried(name, row).0 == "" || Carried(name, row).1 == "" {
        ParsedShape(LegacyId(name, row), true);
      }
    }
    assert Carried(name, next)
           == if name == LibraryMediaMetadata then Carried(name, row) else (p.provider, Strip(p.externalId));
  }

  lemma WriteAgain(name: TableName, row: Row, id: Id, p: Reference)
    ensures Write(name, Write(name, row, p, id), p, id) == Write(name, row, p, id)
  {
  }

  // --- the loops ---

  /** The rows outside `todo` are done. */
  ghost predicate TableMidway(name: TableName, before: Table, now: Table, refs: RefRows, todo: set<nat>) {
    && now.Keys == before.Keys
    && (forall r :: r in todo && r in before ==> now[r] == before[r])
    && (forall r :: r in before && r !in todo ==> RowDone(name, before[r], now[r], refs))
  }

  lemma MidwayUntouched(name: TableName, before: Table, now: Table, refs: RefRows, todo: set<nat>, r: nat)
    requires TableMidway(name, before, now, refs, todo) && r in todo && r in before
    ensures now.Keys == before.Keys && now[r] == before[r]
  {
  }

  lemma RowVisited(name: TableName, before: Table, now: Table, next: Table, refs: RefRows, refs': RefRows,
                   todo: set<nat>, r: nat)
    requires TableMidway(name, before, now, refs, todo) && r in todo && r in before && Extends(refs, refs')
    requires next.Keys == now.Keys && RowDone(name, before[r], next[r], refs')
    requires forall x :: x in now && x != r ==> next[x] == now[x]
    ensures TableMidway(name, before, next, refs', todo - {r})
  {
    forall x | x in before && x !in todo - {r}
      ensures RowDone(name, before[x], next[x], refs')
    {
      if x != r {
        RowDoneLater(name, before[x], now[x], refs, refs');
      }
    }
  }

  class MediaTables {
    var tables: Tables

    method UpdateRow(name: TableName, r: nat, row: Row)
      requires name in tables && r in tables[name]
      modifies this
      ensures OnlyRow(old(tables), tables, name, r) && tables[name][r] == row
    {
      var t: Table := tables[name];
      tables := tables[name := t[r := row]];
    }

    /** One row of the loop. */
    method BackfillRow(catalog: Catalog, name: TableName, r: nat, ghost tables0: Tables, ghost refs0: RefRows)
      requires catalog.Valid() && name in tables && r in tables[name]
      requires name in tables0 && r in tables0[name] && tables[name][r] == tables0[name][r]
      requires Progress(Asked(tables0), refs0, catalog.refs)
      modifies this, catalog
      ensures CatalogGrown(old(catalog.identities), old(catalog.refs), catalog.identities, catalog.refs)
      ensures catalog.Valid() && Extends(old(catalog.refs), catalog.refs)
      ensures Progress(Asked(tables0), refs0, catalog.refs)
      ensures OnlyRow(old(tables), tables, name, r)
      ensures RowDone(name, old(tables)[name][r], tables[name][r], catalog.refs)
    {
      hide Functional;
      hide Unused;
      hide CatalogGrown;
      hide Extends;
      hide Progress;
      hide RowDone;
      hide PlanOf;
      hide Write;
      ghost var row := tables[name][r];
      var plan := PlanOf(name, tables[name][r]);
      if plan.Some? {
        var p := plan.value;
        assert (p.provider, p.externalId, "legacy_migration_scope") in Asked(tables0);
        var id, _ := ResolveWanted(catalog, p.provider, p.externalId, "legacy_migration_scope", Asked(tables0), refs0);
        WrittenIsDone(name, row, p, id, catalog.refs);
        UpdateRow(name, r, Write(name, tables[name][r], p, id));
      } else {
        SkippedIsDone(name, row, catalog.refs);
        CatalogSame(catalog.identities, catalog.refs);
        ExtendsSelf(catalog.refs);
      }
    }

    /** `_backfill_subscriptions` for one of its tables, or `_backfill_table`. */
    method BackfillTable(catalog: Catalog, name: TableName, ghost tables0: Tables, ghost refs0: RefRows)
      requires catalog.Valid()
      requires name in tables && name in tables0 && tables[name] == tables0[name]
      requires Progress(Asked(tables0), refs0, catalog.refs)
      modifies this, catalog
      ensures CatalogGrown(old(catalog.identities), old(catalog.refs), catalog.identities, catalog.refs)
      ensures catalog.Valid() && Extends(old(catalog.refs), catalog.refs)
      ensures Progress(Asked(tables0), refs0, catalog.refs)
      ensures tables.Keys == old(tables.Keys) && forall n :: n in tables && n != name ==> tables[n] == old(tables)[n]
      ensures TableMidway(name, tables0[name], tables[name], catalog.refs, {})
    {
      hide Functional;
      hide Unused;
      hide CatalogGrown;
      hide Progress;
      hide RowDone;
      hide TableMidway;
      ghost var before := tables[name];
      MidwayStarts(name, before, catalog.refs);
      CatalogSame(catalog.identities, catalog.refs);
      var todo := tables[name].Keys;
      while todo != {}
        invariant CatalogGrown(old(catalog.identities), old(catalog.refs), catalog.identities, catalog.refs)
        invariant catalog.Valid() && Extends(old(catalog.refs), catalog.refs)
        invariant Progress(Asked(tables0), refs0, catalog.refs)
        invariant todo <= before.Keys
        invariant tables.Keys == old(tables.Keys)
        invariant forall n :: n in tables && n != name ==> tables[n] == old(tables)[n]
        invariant TableMidway(name, before, tables[name], catalog.refs, todo)
        decreases todo
      {
        var r :| r in todo;
        ghost var now, refs, ids := tables[name], catalog.refs, catalog.identities;
        MidwayUntouched(name, before, now, refs, todo, r);
        BackfillRow(catalog, name, r, tables0, refs0);
        RowVisited(name, before, now, tables[name], refs, catalog.refs, todo, r);
        CatalogBoth(old(catalog.identities), old(catalog.refs), ids, refs, catalog.identities, catalog.refs);
        todo := todo - {r};
      }
    }

    /** The data part of `upgrade`: the tables in order, absent ones skipped. */
    method Upgrade(catalog: Catalog)
      requires catalog.Valid()
      modifies this, catalog
      ensures catalog.Valid()
      ensures Backfilled(old(tables), old(catalog.refs), tables, catalog.refs)
      ensures CatalogGrown(old(catalog.identities), old(catalog.refs), catalog.identities, catalog.refs)
    {
      hide Functional;
      hide Unused;
      hide CatalogGrown;
      hide Progress;
      hide TableMidway;
      ghost var tables0, refs0 := tables, catalog.refs;
      ProgressStarts(Asked(tables), catalog.refs);
      CatalogSame(catalog.identities, catalog.refs);
      for i := 0 to |ORDER|
        invariant catalog.Valid() && Progress(Asked(tables0), refs0, catalog.refs)
        invariant CatalogGrown(old(catalog.identities), old(catalog.refs), catalog.identities, catalog.refs)
        invariant tables.Keys == tables0.Keys
        invariant forall j :: i <= j < |ORDER| && ORDER[j] in tables ==> tables[ORDER[j]] == tables0[ORDER[j]]
        invariant forall j ::
                    0 <= j < i && ORDER[j] in tables
                    ==> TableMidway(ORDER[j], tables0[ORDER[j]], tables[ORDER[j]], catalog.refs, {})
      {
        if ORDER[i] in tables {
          ghost var refs, ids, now := catalog.refs, catalog.identities, tables;
          BackfillTable(catalog, ORDER[i], tables0, refs0);
          CatalogBoth(old(catalog.identities), old(catalog.refs), ids, refs, catalog.identities, catalog.refs);
          forall j | 0 <= j < i && ORDER[j] in tables
            ensures TableMidway(ORDER[j], tables0[ORDER[j]], tables[ORDER[j]], catalog.refs, {})
          {
            ListedOnce(i, j);
            MidwayLater(ORDER[j], tables0[ORDER[j]], now[ORDER[j]], refs, catalog.refs);
          }
          forall j | i < j < |ORDER|
            ensures ORDER[i] != ORDER[j]
          {
            ListedOnce(j, i);
          }
        }
      }
      Finished(tables0, refs0, tables, catalog.refs);
    }
  }

  /** Only row `r` of table `name` may differ. */
  ghost predicate OnlyRow(before: Tables, after: Tables, name: TableName, r: nat) {
    && after.Keys == before.Keys && name in after && r in after[name]
    && (forall n :: n in after && n != name ==> after[n] == before[n])
    && after[name].Keys == before[name].Keys
    && (forall x :: x in after[name] && x != r ==> after[name][x] == before[name][x])
  }

  lemma ListedOnce(i: nat, j: nat)
    requires j < i < |ORDER|
    ensures ORDER[i] != ORDER[j]
  {
  }

  lemma AllListed(name: TableName) returns (i: nat)
    ensures i < |ORDER| && ORDER[i] == name
  {
    match name
    case SubscribeMovies => i := 0;
    case SubscribeTvs => i := 1;
    case SubscribeHistory => i := 2;
    case SearchResultInfo => i := 3;
    case LibraryMediaMetadata => i := 4;
    case MediaSyncItems => i := 5;
    case DownloadHistory => i := 6;
    case TransferHistory => i := 7;
  }

  lemma MidwayLater(name: TableName, before: Table, now: Table, refs: RefRows, refs': RefRows)
    requires TableMidway(name, before, now, refs, {}) && Extends(refs, refs')
    ensures TableMidway(name, before, now, refs', {})
  {
    forall r | r in before
      ensures RowDone(name, before[r], now[r], refs')
    {
      RowDoneLater(name, before[r], now[r], refs, refs');
    }
  }

  lemma Finished(tables0: Tables, refs0: RefRows, tables: Tables, refs: RefRows)
    requires tables.Keys == tables0.Keys && Functional(refs) && Progress(Asked(tables0), refs0, refs)
    requires forall j ::
               0 <= j < |ORDER| && ORDER[j] in tables
               ==> TableMidway(ORDER[j], tables0[ORDER[j]], tables[ORDER[j]], refs, {})
    ensures Backfilled(tables0, refs0, tables, refs)
  {
    forall name | name in tables0
      ensures TableMidway(name, tables0[name], tables[name], refs, {})
    {
      var j := AllListed(name);
    }
  }

  lemma MidwayStarts(name: TableName, t: Table, refs: RefRows)
    ensures TableMidway(name, t, t, refs, t.Keys)
  {
  }

  lemma WrittenIsDone(name: TableName, row: Row, p: Reference, id: Id, refs: RefRows)
    requires PlanOf(name, row) == Some(p) && Resolves(refs, p.provider, p.externalId, id)
    ensures RowDone(name, row, Write(name, row, p, id), refs)
  {
  }

  lemma SkippedIsDone(name: TableName, row: Row, refs: RefRows)
    requires PlanOf(name, row).None?
    ensures RowDone(name, row, row, refs)
  {
  }

  // --- a second run ---

  ghost predicate AllStable(tables: Tables) {
    forall name, r :: name in tables && r in tables[name] ==> Stable(name, tables[name][r])
  }

  /** A stable row is left alone by the second run, and its reference is already known; an unstable one is rewritten. */
  lemma SecondVisit(name: TableName, row0: Row, row1: Row, row2: Row, refs1: RefRows, refs2: RefRows)
    requires RowDone(name, row0, row1, refs1) && RowDone(name, row1, row2, refs2)
    requires Extends(refs1, refs2) && Functional(refs2)
    ensures row2 == row1 <==> Stable(name, row0)
    ensures Stable(name, row0) && PlanOf(name, row1).Some? ==>
              exists id :: Resolves(refs1, PlanOf(name, row1).value.provider, PlanOf(name, row1).value.externalId, id)
  {
    if PlanOf(name, row0).Some? {
      var p := PlanOf(name, row0).value;
      var id := RowWritten(name, row0, row1, refs1, p);
      PlanAfterWrite(name, row0, id);
      StripTrims(p.externalId);
      var q := PlanOf(name, row1).value;
      hide PlanOf;
      hide Strip;
      var id2 := RowWritten(name, row1, row2, refs2, q);
      if Stable(name, row0) {
        ResolvesLater(refs1, refs2, p.provider, p.externalId, id);
        ResolvesOnce(refs2, p.provider, p.externalId, id, id2);
        WriteAgain(name, row0, id, p);
      } else {
        assert Text(row1.anchorExternal) == p.externalId && Text(row2.anchorExternal) == q.externalId;
      }
    }
  }

  lemma RowWritten(name: TableName, before: Row, after: Row, refs: RefRows, p: Reference) returns (id: Id)
    requires RowDone(name, before, after, refs) && PlanOf(name, before) == Some(p)
    ensures Resolves(refs, p.provider, p.externalId, id) && after == Write(name, before, p, id)
  {
    id :| Resolves(refs, p.provider, p.externalId, id) && after == Write(name, before, p, id);
  }

  /** A reference that the second run asks for is one the first run left resolved. */
  lemma WantedIsKnown(tables: Tables, refs: RefRows, t1: Tables, refs1: RefRows, t2: Tables, refs2: RefRows,
                      provider: string, externalId: string, linkMethod: string)
    requires Backfilled(tables, refs, t1, refs1) && Backfilled(t1, refs1, t2, refs2) && AllStable(tables)
    requires (provider, externalId, linkMethod) in Asked(t1)
    ensures exists id :: Resolves(refs1, provider, externalId, id)
  {
    var name, x :| name in t1 && x in t1[name] && PlanOf(name, t1[name][x]).Some?
                   && PlanOf(name, t1[name][x]).value.provider == provider
                   && PlanOf(name, t1[name][x]).value.externalId == externalId;
    SecondVisit(name, tables[name][x], t1[name][x], t2[name][x], refs1, refs2);
  }

  lemma NoNewReference(tables: Tables, refs: RefRows, t1: Tables, refs1: RefRows, t2: Tables, refs2: RefRows, r: nat)
    requires Backfilled(tables, refs, t1, refs1) && Backfilled(t1, refs1, t2, refs2) && AllStable(tables)
    ensures r in refs2 ==> r in refs1
  {
    if r in refs2 && (refs2[r].provider, refs2[r].externalId, refs2[r].linkMethod) in Asked(t1) {
      WantedIsKnown(tables, refs, t1, refs1, t2, refs2, refs2[r].provider, refs2[r].externalId,
                    refs2[r].linkMethod);
    }
  }

  /** The second run creates no identity and writes no row exactly when every reference of the first run reads back as
      it was written; what does not is an id with a space after its DB: or BG: prefix. */
  lemma SecondRunIdleExactly(tables: Tables, refs: RefRows, t1: Tables, ids1: set<Id>, refs1: RefRows, t2: Tables,
                             ids2: set<Id>, refs2: RefRows)
    requires Backfilled(tables, refs, t1, refs1) && Backfilled(t1, refs1, t2, refs2)
    requires CatalogGrown(ids1, refs1, ids2, refs2)
    ensures t2 == t1 && refs2 == refs1 && ids2 == ids1 <==> AllStable(tables)
  {
    forall name, r | name in tables && r in tables[name]
      ensures t2[name][r] == t1[name][r] <==> Stable(name, tables[name][r])
    {
      SecondVisit(name, tables[name][r], t1[name][r], t2[name][r], refs1, refs2);
    }
    if AllStable(tables) {
      forall r
        ensures r in refs2 ==> r in refs1
      {
        NoNewReference(tables, refs, t1, refs1, t2, refs2, r);
      }
      assert refs2 == refs1;
      forall name | name in t1
        ensures t2[name] == t1[name]
      {
        assert forall r :: r in t1[name] ==> Stable(name, tables[name][r]);
      }
      assert t2 == t1;
    }
  }

  /** Such an id, and the row it makes unstable. */
  lemma SpacedIdExample(row: Row)
    requires row.anchorProvider.None? && row.tmdbId == Some("DB: 1")
    ensures PlanOf(SubscribeMovies, row).Some? && PlanOf(SubscribeMovies, row).value.externalId == " 1"
    ensures !Stable(SubscribeMovies, row)
  {
    StripTrims("");
    assert Trimmed("") && Strip("") == "";
    assert Trimmed("DB: 1");
    StripTrims("DB: 1");
    assert UpperAll("DB: 1")[..3] == "DB:";
    assert "DB: 1"[3..] == " 1";
  }
}
