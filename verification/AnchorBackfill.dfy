/** 0d5187136482: subscriptions receive their anchor and identity, with an undo log that the downgrade replays
    backwards. */
module AnchorBackfill {
  import opened Wrappers
  import opened Titles
  import opened MetadataRefs

  datatype TableName = SubscribeMovies | SubscribeTvs

  /** The five columns the migration may write. */
  datatype Anchors = Anchors(
    provider: Option<string>,
    externalId: Option<string>,
    profile: Option<string>,
    policy: Option<string>,
    identity: Option<string>)

  datatype Row = Row(anchors: Anchors, tmdbId: Option<string>, rest: string)

  type Table = map<nat, Row>
  type Tables = map<TableName, Table>

  /** One row of MIGRATION_METADATA_BACKUP: the five columns before the write, whether the run had just created the
      identity, and the reference the identity was looked up by. */
  datatype Entry = Entry(table: TableName, row: nat, saved: Anchors, created: bool, provider: string,
                         externalId: string)

  // --- one row ---

  /** What the migration decides for one row, before it knows the identity. */
  function PlanOf(row: Row): Option<Reference> {
    var a := row.anchors;
    var provider, external := Strip(Text(a.provider)), Strip(Text(a.externalId));
    if provider == "" || external == "" then ParseRef(Text(row.tmdbId), false)
    else Some(Reference(provider, external, OrElse(Text(a.profile), "default"),
                        OrElse(Text(a.policy), PolicyFor(provider))))
  }

  function Target(plan: Reference, id: Id): Anchors {
    Anchors(Some(plan.provider), Some(plan.externalId), Some(plan.profile),
            if plan.policy == "" then None else Some(plan.policy), Some(id))
  }

  predicate SameText(a: Anchors, b: Anchors) {
    && Text(a.provider) == Text(b.provider) && Text(a.externalId) == Text(b.externalId)
    && Text(a.profile) == Text(b.profile) && Text(a.policy) == Text(b.policy) && Text(a.identity) == Text(b.identity)
  }

  function Write(row: Row, plan: Reference, id: Id): Row {
    if SameText(row.anchors, Target(plan, id)) then row else row.(anchors := Target(plan, id))
  }

  /** Row `after` is what a run makes of row `before` under the references `refs`. */
  ghost predicate RowDone(before: Row, after: Row, refs: RefRows) {
    match PlanOf(before)
    case None => after == before
    case Some(plan) => exists id ::
                         Resolves(refs, plan.provider, plan.externalId, id) && after == Write(before, plan, id)
  }

  lemma WrittenIsDone(row: Row, p: Reference, id: Id, refs: RefRows)
    requires PlanOf(row) == Some(p) && Resolves(refs, p.provider, p.externalId, id)
    ensures RowDone(row, Write(row, p, id), refs)
  {
  }

  lemma SkippedIsDone(row: Row, refs: RefRows)
    requires PlanOf(row).None?
    ensures RowDone(row, row, refs)
  {
  }

  lemma RowDoneLater(before: Row, after: Row, refs: RefRows, refs': RefRows)
    requires RowDone(before, after, refs) && Extends(refs, refs')
    ensures RowDone(before, after, refs')
  {
    var plan := PlanOf(before);
    if plan.Some? {
      var id :| Resolves(refs, plan.value.provider, plan.value.externalId, id)
                && after == Write(before, plan.value, id);
      ResolvesLater(refs, refs', plan.value.provider, plan.value.externalId, id);
    }
  }

  // --- what a row becomes, column by column ---

  predicate Holds(a: Anchors, provider: string, external: string, profile: string, policy: string, id: Id) {
    && a.provider.GetOr("") == provider && a.externalId.GetOr("") == external && a.profile.GetOr("") == profile
    && a.policy.GetOr("") == policy && a.identity.GetOr("") == id
  }

  /** The five columns hold these texts, the last an identity that the reference resolves to. A row that held them is
      not touched; otherwise all five are written, NULL for no policy. */
  ghost predicate Becomes(before: Row, after: Row, refs: RefRows, provider: string, external: string, profile: string,
                          policy: string) {
    exists id :: Resolves(refs, provider, external, id) && SetTo(before, after, provider, external, profile, policy, id)
  }

  predicate SetTo(before: Row, after: Row, provider: string, external: string, profile: string, policy: string,
                  id: Id) {
    if Holds(before.anchors, provider, external, profile, policy, id) then after == before
    else
      after.tmdbId == before.tmdbId && after.rest == before.rest
      && after.anchors == Anchors(Some(provider), Some(external), Some(profile),
                                  if policy != "" then Some(policy) else None, Some(id))
  }

  lemma PlannedRowBecomes(before: Row, after: Row, refs: RefRows, p: Reference)
    requires RowDone(before, after, refs) && PlanOf(before) == Some(p)
    ensures Becomes(before, after, refs, p.provider, p.externalId, p.profile, p.policy)
  {
    var id :| Resolves(refs, p.provider, p.externalId, id) && after == Write(before, p, id);
    assert SetTo(before, after, p.provider, p.externalId, p.profile, p.policy, id);
  }

  /** A row with both anchor columns keeps its anchor, without the blanks around it, and its profile and policy. */
  lemma AnchoredRowKeepsIt(before: Row, after: Row, refs: RefRows)
    requires RowDone(before, after, refs)
    requires !Blank(Text(before.anchors.provider)) && !Blank(Text(before.anchors.externalId))
    ensures var provider, a := Strip(Text(before.anchors.provider)), before.anchors;
            Becomes(before, after, refs, provider, Strip(Text(a.externalId)),
                    if a.profile.GetOr("") == "" then "default" else a.profile.value,
                    if a.policy.GetOr("") == "" then PolicyFor(provider) else a.policy.value)
  {
    BlankIsStripped(Text(before.anchors.provider));
    BlankIsStripped(Text(before.anchors.externalId));
    hide Strip;
    hide PolicyFor;
    hide Blank;
    hide Becomes;
    PlannedRowBecomes(before, after, refs, PlanOf(before).value);
  }

  lemma UnanchoredPlan(row: Row)
    requires Blank(Text(row.anchors.provider)) || Blank(Text(row.anchors.externalId))
    ensures PlanOf(row) == ParseRef(Text(row.tmdbId), false)
  {
    BlankIsStripped(Text(row.anchors.provider));
    BlankIsStripped(Text(row.anchors.externalId));
  }

  /** A row without an anchor receives the reference that its TMDBID stands for; IMDb ids are not understood. */
  lemma LegacyRowBecomes(before: Row, after: Row, refs: RefRows, b: string, prefix: string, id: string, a: string)
    requires RowDone(before, after, refs) && Blank(b) && Blank(a) && id != ""
    requires Blank(Text(before.anchors.provider)) || Blank(Text(before.anchors.externalId))
    requires Text(before.tmdbId) == b + prefix + id + a
    ensures UpperAll(prefix) == "DB:" && EndsVisibly(id)
            ==> Becomes(before, after, refs, "douban", id, "default", "douban_primary")
    ensures UpperAll(prefix) == "BG:" && EndsVisibly(id)
            ==> Becomes(before, after, refs, "bangumi", id, "anime", "bangumi_primary")
    ensures prefix == "" && AllDigits(id) ==> Becomes(before, after, refs, "tmdb", id, "default", "tmdb_primary")
    ensures LowerAll(prefix) == "tt" && AllDigits(id) ==> after == before
  {
    LegacyIdIsRead(b, prefix, id, a, false);
    UnanchoredPlan(before);
    hide ParseRef;
    hide Blank;
    hide UpperAll;
    hide LowerAll;
    hide AllDigits;
    hide EndsVisibly;
    hide Becomes;
    if PlanOf(before).Some? {
      PlannedRowBecomes(before, after, refs, PlanOf(before).value);
    }
  }

  /** A row without an anchor whose TMDBID has no known shape is left alone. */
  lemma OtherRowsStay(before: Row, after: Row, refs: RefRows, b: string, value: string, a: string)
    requires RowDone(before, after, refs) && Blank(b) && Blank(a) && Trimmed(value)
    requires Blank(Text(before.anchors.provider)) || Blank(Text(before.anchors.externalId))
    requires Text(before.tmdbId) == b + value + a
    requires (|value| > 3 ==> UpperAll(value[..3]) !in {"DB:", "BG:"}) && !AllDigits(value)
    ensures after == before
  {
    OtherIdsAreNotRead(b, value, a, false);
    UnanchoredPlan(before);
  }

  // --- the undo log ---

  /** The downgrade's UPDATE for one entry; an id that no longer exists is no error. */
  function Restored(tables: Tables, e: Entry): Tables {
    if e.table in tables && e.row in tables[e.table] then
      var t: Table := tables[e.table];
      tables[e.table := t[e.row := t[e.row].(anchors := e.saved)]]
    else tables
  }

  /** Replaying the log from its last entry to its first. */
  function Undo(tables: Tables, log: seq<Entry>): Tables
    decreases |log|
  {
    if log == [] then tables else Undo(Restored(tables, log[|log| - 1]), log[..|log| - 1])
  }

  predicate About(e: Entry, name: TableName, r: nat) {
    e.table == name && e.row == r
  }

  /** The entry of the row that was logged first. */
  function FirstEntry(log: seq<Entry>, name: TableName, r: nat): Option<Entry> {
    if log == [] then None
    else if About(log[0], name, r) then Some(log[0])
    else FirstEntry(log[1..], name, r)
  }

  lemma {:induction false} FirstOfLonger(log: seq<Entry>, e: Entry, name: TableName, r: nat)
    ensures FirstEntry(log + [e], name, r)
            == if FirstEntry(log, name, r).Some? then FirstEntry(log, name, r)
               else if About(e, name, r) then Some(e) else None
  {
    if log == [] {
      assert log + [e] == [e];
    } else {
      assert (log + [e])[1..] == log[1..] + [e];
      FirstOfLonger(log[1..], e, name, r);
    }
  }

  lemma {:induction false} FirstIsLogged(log: seq<Entry>, name: TableName, r: nat)
    ensures FirstEntry(log, name, r).Some?
            ==> FirstEntry(log, name, r).value in log && About(FirstEntry(log, name, r).value, name, r)
    ensures FirstEntry(log, name, r).None? ==> forall e :: e in log ==> !About(e, name, r)
  {
    if log != [] {
      FirstIsLogged(log[1..], name, r);
      assert log == [log[0]] + log[1..];
    }
  }

  /** Whatever the tables hold by now and however many entries a row has, the replay gives every surviving row the five
      columns of its first entry, leaves a row without an entry alone, and touches no other column. */
  lemma {:induction false} FirstEntryDecides(tables: Tables, log: seq<Entry>, name: TableName, r: nat)
    requires name in tables && r in tables[name]
    ensures Undo(tables, log).Keys == tables.Keys && Undo(tables, log)[name].Keys == tables[name].Keys
    ensures Undo(tables, log)[name][r]
            == match FirstEntry(log, name, r)
               case Some(e) => tables[name][r].(anchors := e.saved)
               case None => tables[name][r]
    decreases |log|
  {
    if log != [] {
      var e := log[|log| - 1];
      assert log == log[..|log| - 1] + [e];
      FirstOfLonger(log[..|log| - 1], e, name, r);
      FirstEntryDecides(Restored(tables, e), log[..|log| - 1], name, r);
    }
  }

  lemma {:induction false} UndoBoth(tables: Tables, a: seq<Entry>, b: seq<Entry>)
    ensures Undo(tables, a + b) == Undo(Undo(tables, b), a)
    decreases |b|
  {
    if b == [] {
      assert a + b == a;
    } else {
      assert (a + b)[..|a + b| - 1] == a + b[..|b| - 1];
      UndoBoth(Restored(tables, b[|b| - 1]), a, b[..|b| - 1]);
    }
  }

  // --- what one run amounts to ---

  ghost function Asked(tables: Tables): set<Request> {
    set name, r | name in tables && r in tables[name] && PlanOf(tables[name][r]).Some?
      :: (PlanOf(tables[name][r]).value.provider, PlanOf(tables[name][r]).value.externalId,
          "legacy_migration_v2")
  }

  /** The entry belongs to a row that the run changed. */
  predicate Justified(before: Tables, after: Tables, e: Entry) {
    e.table in before && e.table in after && e.row in before[e.table] && e.row in after[e.table]
    && after[e.table][e.row] != before[e.table][e.row]
  }

  /** A created identity is never the one the entry has saved. */
  ghost predicate CreatedElsewhere(e: Entry, refs: RefRows) {
    exists id :: Resolves(refs, e.provider, e.externalId, id) && e.saved.identity != Some(id)
  }

  /** The run from `tables` to `tables'` appended `entries` to the log. */
  ghost predicate Logged(tables: Tables, tables': Tables, entries: seq<Entry>, refs: RefRows) {
    && Undo(tables', entries) == tables
    && (forall e :: e in entries ==> Justified(tables, tables', e))
    && (forall e :: e in entries && e.created ==> CreatedElsewhere(e, refs))
  }

  /** The log says truthfully which references the run created: each created entry's reference resolved to nothing at
      the start, each new reference has a created entry, and no two entries claim one reference. */
  ghost predicate CreationsLogged(refs0: RefRows, refs: RefRows, entries: seq<Entry>) {
    && (forall e, x :: e in entries && e.created ==> !Resolves(refs0, e.provider, e.externalId, x))
    && (forall r :: r in refs && r !in refs0 ==> Claimed(entries, refs[r]))
    && (forall i, j ::
          0 <= i < j < |entries| && entries[i].created && entries[j].created ==> !SameClaim(entries[i], entries[j]))
  }

  predicate SameClaim(a: Entry, b: Entry) {
    a.provider == b.provider && a.externalId == b.externalId
  }

  ghost predicate Claimed(entries: seq<Entry>, row: RefRow) {
    exists i :: 0 <= i < |entries| && entries[i].created && Names(row, entries[i].provider, entries[i].externalId)
  }

  ghost predicate AllDone(tables: Tables, tables': Tables, refs: RefRows) {
    && tables'.Keys == tables.Keys
    && (forall name :: name in tables ==> tables'[name].Keys == tables[name].Keys)
    && (forall name, r :: name in tables && r in tables[name] ==> RowDone(tables[name][r], tables'[name][r], refs))
  }

  ghost predicate Ran(tables: Tables, refs: RefRows, tables': Tables, refs': RefRows, entries: seq<Entry>) {
    && AllDone(tables, tables', refs')
    && Functional(refs') && Progress(Asked(tables), refs, refs')
    && Logged(tables, tables', entries, refs') && CreationsLogged(refs, refs', entries)
  }

  /** A row the run changed has an entry, and its first entry holds the old columns; a row without one was not
      changed. */
  lemma ChangedExactlyLogged(tables: Tables, tables': Tables, entries: seq<Entry>, refs: RefRows, name: TableName,
                             r: nat)
    requires Logged(tables, tables', entries, refs) && name in tables' && r in tables'[name]
    ensures name in tables && r in tables[name]
    ensures tables'[name][r] != tables[name][r] <==> FirstEntry(entries, name, r).Some?
    ensures FirstEntry(entries, name, r).Some? ==> FirstEntry(entries, name, r).value.saved == tables[name][r].anchors
  {
    FirstEntryDecides(tables', entries, name, r);
    FirstIsLogged(entries, name, r);
  }

  /** Runs in a row log entries that together lead back to the first tables. */
  lemma RunsCompose(t0: Tables, t1: Tables, t2: Tables, a: seq<Entry>, b: seq<Entry>, refs1: RefRows, refs2: RefRows)
    requires Logged(t0, t1, a, refs1) && Logged(t1, t2, b, refs2)
    ensures Undo(t2, a + b) == t0
  {
    UndoBoth(t2, a, b);
  }

  // --- a second run ---

  predicate Stable(row: Row) {
    PlanOf(row).Some? ==> Trimmed(PlanOf(row).value.externalId)
  }

  ghost predicate AllStable(tables: Tables) {
    forall name, r :: name in tables && r in tables[name] ==> Stable(tables[name][r])
  }

  predicate WellShaped(p: Reference) {
    && Visible(p.provider) && p.profile != "" && Strip(p.externalId) != ""
    && (p.policy == "" ==> PolicyFor(p.provider) == "")
  }

  lemma PlanIsShaped(row: Row)
    requires PlanOf(row).Some?
    ensures WellShaped(PlanOf(row).value)
  {
    hide Strip;
    hide ParseRef;
    var a := row.anchors;
    StripTrims(Text(a.provider));
    StripTrims(Text(a.externalId));
    if Strip(Text(a.provider)) == "" || Strip(Text(a.externalId)) == "" {
      ParsedShape(Text(row.tmdbId), false);
      VisibleSurvivesStrip(PlanOf(row).value.externalId);
    }
  }

  /** What the second run reads from a row the first run has visited. */
  lemma PlanAfterWrite(row: Row, id: Id)
    requires PlanOf(row).Some?
    ensures var p := PlanOf(row).value;
            PlanOf(row.(anchors := Target(p, id))) == Some(p.(externalId := Strip(p.externalId)))
  {
    PlanIsShaped(row);
    var p := PlanOf(row).value;
    StripTrims(p.provider);
    hide Strip;
    hide ParseRef;
  }

  lemma PlanIgnoresBlanks(row: Row, p: Reference, id: Id)
    requires PlanOf(row) == Some(p) && SameText(row.anchors, Target(p, id))
    ensures PlanOf(row.(anchors := Target(p, id))) == Some(p)
  {
    PlanIsShaped(row);
    hide Strip;
    hide ParseRef;
  }

  lemma RowWritten(before: Row, after: Row, refs: RefRows, p: Reference) returns (id: Id)
    requires RowDone(before, after, refs) && PlanOf(before) == Some(p)
    ensures Resolves(refs, p.provider, p.externalId, id) && after == Write(before, p, id)
  {
    id :| Resolves(refs, p.provider, p.externalId, id) && after == Write(before, p, id);
  }

  /** Rows of either table with the same effective reference receive the same identity. */
  lemma SameReferenceSameIdentity(a0: Row, a1: Row, b0: Row, b1: Row, refs: RefRows)
    requires Functional(refs) && RowDone(a0, a1, refs) && RowDone(b0, b1, refs)
    requires PlanOf(a0).Some? && PlanOf(b0).Some?
    requires PlanOf(a0).value.provider == PlanOf(b0).value.provider
    requires PlanOf(a0).value.externalId == PlanOf(b0).value.externalId
    ensures Text(a1.anchors.identity) == Text(b1.anchors.identity)
  {
    var p, q := PlanOf(a0).value, PlanOf(b0).value;
    hide PlanOf;
    var x := RowWritten(a0, a1, refs, p);
    var y := RowWritten(b0, b1, refs, q);
    ResolvesOnce(refs, p.provider, p.externalId, x, y);
  }

  /** The second run leaves a row alone exactly when it is stable, and then asks for a reference that is known. */
  lemma SecondVisit(row0: Row, row1: Row, row2: Row, refs1: RefRows, refs2: RefRows)
    requires RowDone(row0, row1, refs1) && RowDone(row1, row2, refs2)
    requires Extends(refs1, refs2) && Functional(refs2)
    ensures row2 == row1 <==> Stable(row0)
    ensures Stable(row0) && PlanOf(row1).Some? ==>
              exists id :: Resolves(refs1, PlanOf(row1).value.provider, PlanOf(row1).value.externalId, id)
  {
    if PlanOf(row0).Some? {
      var p := PlanOf(row0).value;
      var id := RowWritten(row0, row1, refs1, p);
      PlanAfterWrite(row0, id);
      if row1 == row0 {
        PlanIgnoresBlanks(row0, p, id);
      }
      StripTrims(p.externalId);
      hide PlanOf;
      hide Strip;
      var q := PlanOf(row1).value;
      var id2 := RowWritten(row1, row2, refs2, q);
      if Stable(row0) {
        ResolvesLater(refs1, refs2, p.provider, p.externalId, id);
        ResolvesOnce(refs2, p.provider, p.externalId, id, id2);
      }
    }
  }

  lemma WantedIsKnown(t0: Tables, t1: Tables, refs1: RefRows, t2: Tables, refs2: RefRows, provider: string,
                      externalId: string, linkMethod: string)
    requires AllDone(t0, t1, refs1) && AllDone(t1, t2, refs2) && Extends(refs1, refs2) && Functional(refs2)
    requires AllStable(t0)
    requires (provider, externalId, linkMethod) in Asked(t1)
    ensures exists id :: Resolves(refs1, provider, externalId, id)
  {
    var name, x :| name in t1 && x in t1[name] && PlanOf(t1[name][x]).Some?
                   && PlanOf(t1[name][x]).value.provider == provider
                   && PlanOf(t1[name][x]).value.externalId == externalId;
    SecondVisit(t0[name][x], t1[name][x], t2[name][x], refs1, refs2);
  }

  lemma NoNewReference(t0: Tables, t1: Tables, refs1: RefRows, t2: Tables, refs2: RefRows)
    requires AllDone(t0, t1, refs1) && AllDone(t1, t2, refs2) && Progress(Asked(t1), refs1, refs2) && Functional(refs2)
    requires AllStable(t0)
    ensures refs2 == refs1
  {
    forall r
      ensures r in refs2 ==> r in refs1
    {
      if r in refs2 && (refs2[r].provider, refs2[r].externalId, refs2[r].linkMethod) in Asked(t1) {
        WantedIsKnown(t0, t1, refs1, t2, refs2, refs2[r].provider, refs2[r].externalId,
                      refs2[r].linkMethod);
      }
    }
  }

  lemma SameRows(t1: Tables, t2: Tables)
    requires t2.Keys == t1.Keys && forall name :: name in t1 ==> t2[name].Keys == t1[name].Keys
    ensures t2 == t1 <==> forall name, r :: name in t1 && r in t1[name] ==> t2[name][r] == t1[name][r]
  {
    if forall name, r :: name in t1 && r in t1[name] ==> t2[name][r] == t1[name][r] {
      forall name | name in t1
        ensures t2[name] == t1[name]
      {
      }
    }
  }

  lemma EntriesMeanChange(t1: Tables, t2: Tables, entries: seq<Entry>, refs: RefRows)
    requires Logged(t1, t2, entries, refs)
    ensures entries != [] ==> t2 != t1
  {
    if entries != [] {
      assert entries[0] in entries;
      assert Justified(t1, t2, entries[0]);
    }
  }

  /** A second run creates nothing, writes no row and logs nothing exactly when every row of the first run was
      stable. */
  lemma SecondRunIdleExactly(t0: Tables, refs0: RefRows, t1: Tables, ids1: set<Id>, refs1: RefRows, t2: Tables,
                             ids2: set<Id>, refs2: RefRows, a: seq<Entry>, b: seq<Entry>)
    requires Ran(t0, refs0, t1, refs1, a) && Ran(t1, refs1, t2, refs2, b) && CatalogGrown(ids1, refs1, ids2, refs2)
    ensures t2 == t1 && refs2 == refs1 && ids2 == ids1 && b == [] <==> AllStable(t0)
  {
    forall name, r | name in t0 && r in t0[name]
      ensures t2[name][r] == t1[name][r] <==> Stable(t0[name][r])
    {
      SecondVisit(t0[name][r], t1[name][r], t2[name][r], refs1, refs2);
    }
    SameRows(t1, t2);
    if AllStable(t0) {
      NoNewReference(t0, t1, refs1, t2, refs2);
      EntriesMeanChange(t1, t2, b, refs2);
    }
  }

  // --- the loops ---

  /** The rows outside `todo` are done, the others untouched. */
  ghost predicate TableMidway(before: Table, now: Table, refs: RefRows, todo: set<nat>) {
    && now.Keys == before.Keys
    && (forall r :: r in todo && r in before ==> now[r] == before[r])
    && (forall r :: r in before && r !in todo ==> RowDone(before[r], now[r], refs))
  }

  lemma RowVisited(before: Table, now: Table, next: Table, refs: RefRows, refs': RefRows, todo: set<nat>, r: nat)
    requires TableMidway(before, now, refs, todo) && r in todo && r in before && Extends(refs, refs')
    requires next.Keys == now.Keys && RowDone(before[r], next[r], refs')
    requires forall x :: x in now && x != r ==> next[x] == now[x]
    ensures TableMidway(before, next, refs', todo - {r})
  {
    forall x | x in before && x !in todo - {r}
      ensures RowDone(before[x], next[x], refs')
    {
      if x != r {
        RowDoneLater(before[x], now[x], refs, refs');
      }
    }
  }

  lemma MidwayLater(before: Table, now: Table, refs: RefRows, refs': RefRows)
    requires TableMidway(before, now, refs, {}) && Extends(refs, refs')
    ensures TableMidway(before, now, refs', {})
  {
    forall r | r in before
      ensures RowDone(before[r], now[r], refs')
    {
      RowDoneLater(before[r], now[r], refs, refs');
    }
  }

  /** Table `name` with row `r` replaced. */
  function Replaced(tables: Tables, name: TableName, r: nat, row: Row): Tables
    requires name in tables
  {
    var t: Table := tables[name];
    tables[name := t[r := row]]
  }

  lemma LoggedLater(tables0: Tables, tables: Tables, entries: seq<Entry>, refs: RefRows, refs': RefRows)
    requires Logged(tables0, tables, entries, refs) && Extends(refs, refs')
    ensures Logged(tables0, tables, entries, refs')
  {
    forall e | e in entries && e.created
      ensures CreatedElsewhere(e, refs')
    {
      var id :| Resolves(refs, e.provider, e.externalId, id) && e.saved.identity != Some(id);
      ResolvesLater(refs, refs', e.provider, e.externalId, id);
    }
  }

  /** Logging a row and then writing it keeps the log a way back. */
  lemma LoggedOneMore(tables0: Tables, tables: Tables, entries: seq<Entry>, refs: RefRows, name: TableName, r: nat,
                      next: Row, e: Entry)
    requires Logged(tables0, tables, entries, refs)
    requires name in tables && r in tables[name] && name in tables0 && r in tables0[name]
    requires tables[name][r] == tables0[name][r]
    requires About(e, name, r) && e.saved == tables[name][r].anchors && (e.created ==> CreatedElsewhere(e, refs))
    requires next != tables[name][r] && next == tables[name][r].(anchors := next.anchors)
    ensures Logged(tables0, Replaced(tables, name, r, next), entries + [e], refs)
  {
    var after := Replaced(tables, name, r, next);
    var longer := entries + [e];
    assert Restored(after, e) == tables by {
      assert Restored(after, e)[name] == tables[name];
    }
    assert longer[..|longer| - 1] == entries;
    forall x | x in longer
      ensures Justified(tables0, after, x)
    {
      if x in entries {
        assert Justified(tables0, tables, x);
      }
    }
  }

  /** The identities still to be generated are in no row either. */
  ghost predicate NoRowHolds(tables: Tables, ulid: nat -> Id, generated: nat) {
    forall name, r, n ::
      name in tables && r in tables[name] && n >= generated ==> tables[name][r].anchors.identity != Some(ulid(n))
  }

  lemma HoldsAfterWrite(tables: Tables, name: TableName, r: nat, next: Row, refs: RefRows, p: Reference, id: Id,
                        ulid: nat -> Id, generated: nat, generated': nat, identities: set<Id>)
    requires NoRowHolds(tables, ulid, generated) && generated' >= generated && name in tables
    requires next.anchors == Target(p, id)
    requires Unused(ulid, generated', identities, refs) && Resolves(refs, p.provider, p.externalId, id)
    ensures NoRowHolds(tables, ulid, generated') && NoRowHolds(Replaced(tables, name, r, next), ulid, generated')
  {
  }

  /** The identity a run creates for a row is not one the row had. */
  lemma CreatedIsElsewhere(tables: Tables, name: TableName, r: nat, refs: RefRows, p: Reference, id: Id,
                           ulid: nat -> Id, generated: nat, e: Entry)
    requires NoRowHolds(tables, ulid, generated) && name in tables && r in tables[name]
    requires Resolves(refs, p.provider, p.externalId, id)
    requires e == Entry(name, r, tables[name][r].anchors, e.created, p.provider, p.externalId)
    requires e.created ==> id == ulid(generated)
    ensures e.created ==> CreatedElsewhere(e, refs)
  {
  }

  /** A created identity always changes its row, so its creation is logged. */
  lemma FreshIsNotHeld(tables: Tables, name: TableName, r: nat, p: Reference, id: Id, created: bool, ulid: nat -> Id,
                       generated: nat)
    requires NoRowHolds(tables, ulid, generated) && name in tables && r in tables[name]
    requires SameText(tables[name][r].anchors, Target(p, id)) && (created ==> id == ulid(generated) && id != "")
    ensures !created
  {
    assert created ==> tables[name][r].anchors.identity != Some(ulid(generated));
  }

  lemma StaysUnresolved(refs0: RefRows, refs: RefRows, e: Entry)
    requires Extends(refs0, refs) && forall x :: !Resolves(refs, e.provider, e.externalId, x)
    ensures forall x :: !Resolves(refs0, e.provider, e.externalId, x)
  {
    forall x
      ensures !Resolves(refs0, e.provider, e.externalId, x)
    {
      if Resolves(refs0, e.provider, e.externalId, x) {
        ResolvesLater(refs0, refs, e.provider, e.externalId, x);
      }
    }
  }

  /** Earlier entries claim references that resolve by now, so a reference that does not is new to the log. */
  lemma NewClaim(refs: RefRows, tables0: Tables, tables: Tables, entries: seq<Entry>, e: Entry, i: nat)
    requires Logged(tables0, tables, entries, refs) && i < |entries| && entries[i].created
    requires forall x :: !Resolves(refs, e.provider, e.externalId, x)
    ensures !SameClaim(entries[i], e)
  {
    assert entries[i] in entries;
    var id :| Resolves(refs, entries[i].provider, entries[i].externalId, id);
  }

  lemma CreationLogged(wanted: set<Request>, refs0: RefRows, refs: RefRows, refs': RefRows, entries: seq<Entry>,
                       tables0: Tables, tables: Tables, e: Entry)
    requires CreationsLogged(refs0, refs, entries) && Progress(wanted, refs0, refs) && Extends(refs, refs')
    requires Logged(tables0, tables, entries, refs) && CreatedOrKept(refs, refs', e.provider, e.externalId, e.created)
    ensures CreationsLogged(refs0, refs', entries + [e])
  {
    hide Logged;
    hide NewRefsNeeded;
    var longer := entries + [e];
    if e.created {
      StaysUnresolved(refs0, refs, e);
    }
    forall r | r in refs' && r !in refs0
      ensures Claimed(longer, refs'[r])
    {
      if r in refs {
        ClaimKept(refs, refs', entries, e, r);
      } else {
        assert longer[|entries|].created && Names(refs'[r], longer[|entries|].provider, longer[|entries|].externalId);
      }
    }
    hide Claimed;
    hide Resolves;
    forall i, j | 0 <= i < j < |longer| && longer[i].created && longer[j].created
      ensures !SameClaim(longer[i], longer[j])
    {
      if j == |entries| {
        NewClaim(refs, tables0, tables, entries, e, i);
      }
    }
  }

  lemma ClaimKept(refs: RefRows, refs': RefRows, entries: seq<Entry>, e: Entry, r: nat)
    requires r in refs && r in refs' && refs'[r] == refs[r] && Claimed(entries, refs[r])
    ensures Claimed(entries + [e], refs'[r])
  {
    var i :| 0 <= i < |entries| && entries[i].created && Names(refs[r], entries[i].provider, entries[i].externalId);
    assert (entries + [e])[i] == entries[i];
  }

  class AnchorStore {
    var tables: Tables
    var log: seq<Entry>

    /** One row of the loop. */
    method BackfillRow(catalog: Catalog, name: TableName, r: nat, ghost tables0: Tables, ghost refs0: RefRows,
                       ghost log0: seq<Entry>)
      requires catalog.Valid() && NoRowHolds(tables, catalog.ulid, catalog.generated)
      requires name in tables && r in tables[name] && name in tables0 && r in tables0[name]
      requires tables[name][r] == tables0[name][r]
      requires Progress(Asked(tables0), refs0, catalog.refs)
      requires log0 <= log && Logged(tables0, tables, log[|log0|..], catalog.refs)
      requires CreationsLogged(refs0, catalog.refs, log[|log0|..])
      modifies this, catalog
      ensures catalog.Valid() && NoRowHolds(tables, catalog.ulid, catalog.generated)
      ensures CatalogGrown(old(catalog.identities), old(catalog.refs), catalog.identities, catalog.refs)
      ensures Extends(old(catalog.refs), catalog.refs) && Progress(Asked(tables0), refs0, catalog.refs)
      ensures log0 <= log && Logged(tables0, tables, log[|log0|..], catalog.refs)
      ensures CreationsLogged(refs0, catalog.refs, log[|log0|..])
      ensures tables.Keys == old(tables).Keys && (forall n :: n in tables && n != name ==> tables[n] == old(tables)[n])
      ensures tables[name].Keys == old(tables)[name].Keys
      ensures forall x :: x in tables[name] && x != r ==> tables[name][x] == old(tables)[name][x]
      ensures RowDone(tables0[name][r], tables[name][r], catalog.refs)
    {
      hide Progress;
      hide Functional;
      hide Unused;
      hide CatalogGrown;
      hide Extends;
      hide Logged;
      hide RowDone;
      hide Resolves;
      hide NoRowHolds;
      hide CreationsLogged;
      hide PlanOf;
      hide Target;
      var row := tables[name][r];
      var plan := PlanOf(row);
      if plan.None? {
        SkippedIsDone(row, catalog.refs);
        ExtendsSelf(catalog.refs);
        CatalogSame(catalog.identities, catalog.refs);
        return;
      }
      var p := plan.value;
      assert (p.provider, p.externalId, "legacy_migration_v2") in Asked(tables0);
      ghost var refs, generated, entries := catalog.refs, catalog.generated, log[|log0|..];
      var id, created := ResolveWanted(catalog, p.provider, p.externalId, "legacy_migration_v2", Asked(tables0), refs0);
      var next := row.(anchors := Target(p, id));
      HoldsAfterWrite(tables, name, r, next, catalog.refs, p, id, catalog.ulid, generated, catalog.generated,
                      catalog.identities);
      WrittenIsDone(row, p, id, catalog.refs);
      LoggedLater(tables0, tables, entries, refs, catalog.refs);
      if SameText(row.anchors, Target(p, id)) {
        FreshIsNotHeld(tables, name, r, p, id, created, catalog.ulid, generated);
        return;
      }
      hide CreatedOrKept;
      var e := Entry(name, r, row.anchors, created, p.provider, p.externalId);
      CreatedIsElsewhere(tables, name, r, catalog.refs, p, id, catalog.ulid, generated, e);
      LoggedOneMore(tables0, tables, entries, catalog.refs, name, r, next, e);
      CreationLogged(Asked(tables0), refs0, refs, catalog.refs, entries, tables0, tables, e);
      assert (log + [e])[|log0|..] == entries + [e];
      log := log + [e];
      tables := Replaced(tables, name, r, next);
    }

    /** The loop over the rows of one table, read when its turn comes. */
    method BackfillTable(catalog: Catalog, name: TableName, ghost tables0: Tables, ghost refs0: RefRows,
                         ghost log0: seq<Entry>)
      requires catalog.Valid() && NoRowHolds(tables, catalog.ulid, catalog.generated)
      requires name in tables && name in tables0 && tables[name] == tables0[name]
      requires Progress(Asked(tables0), refs0, catalog.refs)
      requires log0 <= log && Logged(tables0, tables, log[|log0|..], catalog.refs)
      requires CreationsLogged(refs0, catalog.refs, log[|log0|..])
      modifies this, catalog
      ensures catalog.Valid() && NoRowHolds(tables, catalog.ulid, catalog.generated)
      ensures CatalogGrown(old(catalog.identities), old(catalog.refs), catalog.identities, catalog.refs)
      ensures Extends(old(catalog.refs), catalog.refs) && Progress(Asked(tables0), refs0, catalog.refs)
      ensures log0 <= log && Logged(tables0, tables, log[|log0|..], catalog.refs)
      ensures CreationsLogged(refs0, catalog.refs, log[|log0|..])
      ensures tables.Keys == old(tables).Keys && (forall n :: n in tables && n != name ==> tables[n] == old(tables)[n])
      ensures TableMidway(tables0[name], tables[name], catalog.refs, {})
    {
      hide *;
      ghost var before := tables[name];
      MidwayStarts(before, catalog.refs);
      ExtendsSelf(catalog.refs);
      CatalogSame(catalog.identities, catalog.refs);
      var todo := tables[name].Keys;
      while todo != {}
        invariant catalog.Valid() && NoRowHolds(tables, catalog.ulid, catalog.generated)
        invariant CatalogGrown(old(catalog.identities), old(catalog.refs), catalog.identities, catalog.refs)
        invariant Extends(old(catalog.refs), catalog.refs) && Progress(Asked(tables0), refs0, catalog.refs)
        invariant log0 <= log && Logged(tables0, tables, log[|log0|..], catalog.refs)
        invariant CreationsLogged(refs0, catalog.refs, log[|log0|..])
        invariant todo <= before.Keys
        invariant tables.Keys == old(tables).Keys
        invariant (forall n :: n in tables && n != name ==> tables[n] == old(tables)[n])
        invariant TableMidway(before, tables[name], catalog.refs, todo)
        decreases todo
      {
        var r :| r in todo;
        ghost var now, refs, ids := tables[name], catalog.refs, catalog.identities;
        MidwayUntouched(before, now, refs, todo, r);
        BackfillRow(catalog, name, r, tables0, refs0, log0);
        RowVisited(before, now, tables[name], refs, catalog.refs, todo, r);
        ExtendsBoth(old(catalog.refs), refs, catalog.refs);
        CatalogBoth(old(catalog.identities), old(catalog.refs), ids, refs, catalog.identities, catalog.refs);
        todo := todo - {r};
      }
    }

    /** The data part of `upgrade`: the two tables in order, an absent one skipped. */
    method Upgrade(catalog: Catalog)
      requires catalog.Valid() && NoRowHolds(tables, catalog.ulid, catalog.generated)
      modifies this, catalog
      ensures catalog.Valid() && NoRowHolds(tables, catalog.ulid, catalog.generated)
      ensures old(log) <= log
      ensures Ran(old(tables), old(catalog.refs), tables, catalog.refs, log[|old(log)|..])
      ensures CatalogGrown(old(catalog.identities), old(catalog.refs), catalog.identities, catalog.refs)
    {
      hide Functional;
      hide Unused;
      hide CatalogGrown;
      hide Progress;
      hide Logged;
      hide NoRowHolds;
      hide CreationsLogged;
      hide TableMidway;
      hide RowDone;
      hide Asked;
      ghost var tables0, refs0, log0 := tables, catalog.refs, log;
      ProgressStarts(Asked(tables), catalog.refs);
      NothingLogged(tables, catalog.refs);
      CatalogSame(catalog.identities, catalog.refs);
      assert log[|log0|..] == [];
      if SubscribeMovies in tables {
        BackfillTable(catalog, SubscribeMovies, tables0, refs0, log0);
      }
      ghost var refs1, ids1, tables1 := catalog.refs, catalog.identities, tables;
      ExtendsSelf(catalog.refs);
      CatalogSame(catalog.identities, catalog.refs);
      if SubscribeTvs in tables {
        BackfillTable(catalog, SubscribeTvs, tables0, refs0, log0);
      }
      if SubscribeMovies in tables {
        MidwayLater(tables0[SubscribeMovies], tables1[SubscribeMovies], refs1, catalog.refs);
      }
      CatalogBoth(old(catalog.identities), refs0, ids1, refs1, catalog.identities, catalog.refs);
      BothTablesDone(tables0, tables, catalog.refs);
    }

    /** The first loop of `downgrade`. */
    method Replay()
      modifies this`tables
      ensures tables == Undo(old(tables), log)
    {
      var i := |log|;
      assert log[..i] == log;
      while i > 0
        invariant 0 <= i <= |log|
        invariant Undo(old(tables), log) == Undo(tables, log[..i])
      {
        assert log[..i][..i - 1] == log[..i - 1];
        i := i - 1;
        tables := Restored(tables, log[i]);
      }
    }

    /** The other two loops: what the log says was created is removed. */
    method Cleanup(catalog: Catalog)
      modifies catalog`refs, catalog`identities
      ensures catalog.refs == old(catalog.refs) - DeletedRefs(old(catalog.refs), log)
      ensures catalog.identities
              == old(catalog.identities) - DeletedIdentities(old(catalog.identities), catalog.refs, log)
    {
      for j := 0 to |log|
        invariant catalog.refs == old(catalog.refs) - DeletedRefs(old(catalog.refs), log[..j])
        invariant catalog.identities == old(catalog.identities)
      {
        assert log[..j + 1] == log[..j] + [log[j]];
        DeletedOneMore(old(catalog.refs), log[..j], log[j]);
        if log[j].created {
          catalog.refs := catalog.refs - (set r | r in catalog.refs && Targets(log[j], catalog.refs[r]));
        }
      }
      assert log[..|log|] == log;
      for j := 0 to |log|
        invariant catalog.refs == old(catalog.refs) - DeletedRefs(old(catalog.refs), log)
        invariant catalog.identities
                  == old(catalog.identities) - DeletedIdentities(old(catalog.identities), catalog.refs, log[..j])
      {
        assert log[..j + 1] == log[..j] + [log[j]];
        var id := Text(log[j].saved.identity);
        if log[j].created && id != "" && !Referenced(catalog.refs, id) {
          catalog.identities := catalog.identities - {id};
        }
      }
    }

    /** `downgrade`: the replay and the cleanup; the log is dropped. */
    method Downgrade(catalog: Catalog)
      modifies this, catalog`refs, catalog`identities
      ensures tables == Undo(old(tables), old(log)) && log == []
      ensures catalog.refs == old(catalog.refs) - DeletedRefs(old(catalog.refs), old(log))
      ensures catalog.identities
              == old(catalog.identities) - DeletedIdentities(old(catalog.identities), catalog.refs, old(log))
    {
      Replay();
      Cleanup(catalog);
      log := [];
    }
  }

  // --- the cleanup at the end of the downgrade ---

  /** The reference rows that the cleanup deletes for one entry: it looks under the identity the entry has saved. */
  predicate Targets(e: Entry, row: RefRow) {
    e.created && e.saved.identity == Some(row.identity) && Names(row, e.provider, e.externalId)
    && row.linkMethod == "legacy_migration_v2"
  }

  ghost function DeletedRefs(refs: RefRows, log: seq<Entry>): set<nat> {
    set r | r in refs && exists e :: e in log && Targets(e, refs[r])
  }

  /** A reference row is deleted exactly when an entry flagged as created has saved its identity and names it. */
  lemma DeletedRefsExactly(refs: RefRows, log: seq<Entry>, r: nat)
    ensures r in DeletedRefs(refs, log)
            <==> r in refs && refs[r].scope == "default" && refs[r].linkMethod == "legacy_migration_v2"
                 && exists i :: 0 <= i < |log| && log[i].created && log[i].saved.identity == Some(refs[r].identity)
                                && log[i].provider == refs[r].provider && log[i].externalId == refs[r].externalId
  {
    if r in DeletedRefs(refs, log) {
      var e :| e in log && Targets(e, refs[r]);
      var i :| 0 <= i < |log| && log[i] == e;
    }
    if i :| r in refs && refs[r].scope == "default" && refs[r].linkMethod == "legacy_migration_v2"
            && 0 <= i < |log| && log[i].created && log[i].saved.identity == Some(refs[r].identity)
            && log[i].provider == refs[r].provider && log[i].externalId == refs[r].externalId {
      assert log[i] in log && Targets(log[i], refs[r]);
    }
  }

  predicate Referenced(refs: RefRows, id: Id) {
    exists r :: r in refs && refs[r].identity == id
  }

  /** Some entry that created an identity had saved this one. */
  ghost predicate SavedByCreator(log: seq<Entry>, id: Id) {
    exists e :: e in log && e.created && Text(e.saved.identity) == id
  }

  ghost function DeletedIdentities(identities: set<Id>, refs: RefRows, log: seq<Entry>): set<Id> {
    set id | id in identities && id != "" && SavedByCreator(log, id) && !Referenced(refs, id)
  }

  /** An identity is deleted exactly when an entry flagged as created has saved it and no reference is left to it. */
  lemma DeletedIdentitiesExactly(identities: set<Id>, refs: RefRows, log: seq<Entry>, id: Id)
    ensures id in DeletedIdentities(identities, refs, log)
            <==> id in identities && id != "" && (forall r :: r in refs ==> refs[r].identity != id)
                 && exists i :: 0 <= i < |log| && log[i].created && log[i].saved.identity == Some(id)
  {
    if SavedByCreator(log, id) && id != "" {
      var e :| e in log && e.created && Text(e.saved.identity) == id;
      var i :| 0 <= i < |log| && log[i] == e;
      assert log[i].saved.identity == Some(id);
    }
    if i :| 0 <= i < |log| && log[i].created && log[i].saved.identity == Some(id) {
      assert log[i] in log && Text(log[i].saved.identity) == id;
    }
  }

  lemma DeletedOneMore(refs: RefRows, log: seq<Entry>, e: Entry)
    ensures DeletedRefs(refs, log + [e]) == DeletedRefs(refs, log) + (set r | r in refs && Targets(e, refs[r]))
  {
    forall r | r in refs
      ensures r in DeletedRefs(refs, log + [e]) <==> r in DeletedRefs(refs, log) || Targets(e, refs[r])
    {
      assert e in log + [e];
    }
  }

  /** What the cleanup is for does not happen: it removes no reference, and so no identity that a run created; the
      identities it does remove are those of earlier rows that nothing refers to. */
  lemma CleanupMissesTheCreated(refs: RefRows, identities: set<Id>, log: seq<Entry>)
    requires Functional(refs) && forall e :: e in log && e.created ==> CreatedElsewhere(e, refs)
    ensures DeletedRefs(refs, log) == {}
    ensures forall e, id :: e in log && e.created && Resolves(refs, e.provider, e.externalId, id) ==>
                              id !in DeletedIdentities(identities, refs, log)
  {
    forall r, e | r in refs && e in log
      ensures !Targets(e, refs[r])
    {
      if Targets(e, refs[r]) {
        var id :| Resolves(refs, e.provider, e.externalId, id) && e.saved.identity != Some(id);
        ResolvesOnce(refs, e.provider, e.externalId, id, refs[r].identity);
      }
    }
  }

  lemma MidwayStarts(t: Table, refs: RefRows)
    ensures TableMidway(t, t, refs, t.Keys)
  {
  }

  lemma MidwayUntouched(before: Table, now: Table, refs: RefRows, todo: set<nat>, r: nat)
    requires TableMidway(before, now, refs, todo) && r in todo && r in before
    ensures now.Keys == before.Keys && now[r] == before[r]
  {
  }

  lemma NothingLogged(tables: Tables, refs: RefRows)
    ensures Logged(tables, tables, [], refs) && CreationsLogged(refs, refs, [])
  {
  }

  lemma BothTablesDone(tables0: Tables, tables: Tables, refs: RefRows)
    requires tables.Keys == tables0.Keys
    requires SubscribeMovies in tables ==> TableMidway(tables0[SubscribeMovies], tables[SubscribeMovies], refs, {})
    requires SubscribeTvs in tables ==> TableMidway(tables0[SubscribeTvs], tables[SubscribeTvs], refs, {})
    ensures AllDone(tables0, tables, refs)
  {
    forall name | name in tables
      ensures TableMidway(tables0[name], tables[name], refs, {})
    {
      match name
      case SubscribeMovies =>
      case SubscribeTvs =>
    }
  }
}
