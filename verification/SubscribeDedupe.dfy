/** daed8ab21bd2: subscriptions become unique per anchor. Duplicates are removed row by row with a backup, and the
    downgrade inserts the backup again. */
module SubscribeDedupe {
  import opened Extremes
  import opened Wrappers
  import opened Dedupe

  datatype TableName = SubscribeMovies | SubscribeTvs

  datatype Subscription = Subscription(
    userId: Option<int>,
    anchorProvider: Option<string>,
    anchorExternalId: Option<string>,
    season: Option<string>,
    rest: string)

  type Table = map<nat, Subscription>
  type Tables = map<TableName, Table>

  /** The grouping columns. NULL compares equal to NULL in them: GROUP BY does so, and a bound None is sent as IS
      NULL. */
  datatype AnchorKey = AnchorKey(userId: Option<int>, provider: string, externalId: string, season: Option<string>)

  /** The key of an anchored row; rows without a provider or an external id take no part. */
  function AnchorOf(name: TableName, row: Subscription): Option<AnchorKey> {
    if row.anchorProvider.GetOr("") == "" || row.anchorExternalId.GetOr("") == "" then None
    else Some(AnchorKey(row.userId, row.anchorProvider.value, row.anchorExternalId.value,
                        if name == SubscribeTvs then row.season else None))
  }

  function KeyIn(name: TableName): Subscription -> Option<AnchorKey> {
    row => AnchorOf(name, row)
  }

  /** One row of MIGRATION_SUBSCRIBE_DEDUP. */
  datatype Saved = Saved(table: TableName, id: nat, row: Subscription)

  predicate SameRow(a: Saved, b: Saved) {
    a.table == b.table && a.id == b.id
  }

  ghost predicate Agrees(origin: Tables, tables: Tables) {
    tables.Keys == origin.Keys
    && forall name, r :: name in tables && r in tables[name] ==> r in origin[name] && tables[name][r] == origin[name][r]
  }

  ghost predicate NoRepeats(backup: seq<Saved>) {
    forall i, j :: 0 <= i < j < |backup| ==> !SameRow(backup[i], backup[j])
  }

  ghost predicate WasDeleted(origin: Tables, tables: Tables, e: Saved) {
    e.table in origin && e.table in tables && e.id in origin[e.table] && e.id !in tables[e.table]
    && e.row == origin[e.table][e.id]
  }

  ghost predicate InBackup(backup: seq<Saved>, name: TableName, r: nat) {
    exists e :: e in backup && e.table == name && e.id == r
  }

  ghost predicate Covered(origin: Tables, tables: Tables, backup: seq<Saved>) {
    forall name, r ::
      name in origin && name in tables && r in origin[name] && r !in tables[name] ==> InBackup(backup, name, r)
  }

  /** Tables and backup together make up the tables `origin`: every row is in exactly one of them, exactly once. */
  ghost predicate Complementary(origin: Tables, tables: Tables, backup: seq<Saved>) {
    && Agrees(origin, tables)
    && NoRepeats(backup)
    && (forall e :: e in backup ==> WasDeleted(origin, tables, e))
    && Covered(origin, tables, backup)
  }

  lemma CoverOneMore(origin: Tables, tables: Tables, backup: seq<Saved>, name: TableName, r: nat)
    requires Covered(origin, tables, backup) && name in tables && r in tables[name]
    ensures Covered(origin, tables[name := tables[name] - {r}], backup + [Saved(name, r, tables[name][r])])
  {
    var next, longer := tables[name := tables[name] - {r}], backup + [Saved(name, r, tables[name][r])];
    forall n, q | n in origin && n in next && q in origin[n] && q !in next[n]
      ensures InBackup(longer, n, q)
    {
      if n == name && q == r {
        assert longer[|backup|] in longer && longer[|backup|].id == q;
      } else {
        assert InBackup(backup, n, q);
        var e :| e in backup && e.table == n && e.id == q;
        assert e in longer;
      }
    }
  }

  /** Saving and deleting one row keeps tables and backup complementary. */
  lemma DeleteSaved(origin: Tables, tables: Tables, backup: seq<Saved>, name: TableName, r: nat)
    requires Complementary(origin, tables, backup) && name in tables && r in tables[name]
    ensures Complementary(origin, tables[name := tables[name] - {r}], backup + [Saved(name, r, tables[name][r])])
  {
    CoverOneMore(origin, tables, backup, name, r);
    hide Covered;
    var longer := backup + [Saved(name, r, tables[name][r])];
    forall i, j | 0 <= i < j < |longer|
      ensures !SameRow(longer[i], longer[j])
    {
      assert backup[i] in backup;
      assert WasDeleted(origin, tables, backup[i]);
    }
  }

  function Inserted(tables: Tables, e: Saved): Tables
    requires e.table in tables
  {
    var t: Table := map[e.id := e.row];
    tables[e.table := tables[e.table] + t]
  }

  /** The downgrade's insertions; inserting an id that exists fails. */
  function Reinsert(tables: Tables, backup: seq<Saved>): Option<Tables> {
    if backup == [] then Some(tables)
    else if backup[0].table !in tables || backup[0].id in tables[backup[0].table] then None
    else Reinsert(Inserted(tables, backup[0]), backup[1..])
  }

  lemma RestIsOther(backup: seq<Saved>, e: Saved)
    requires NoRepeats(backup) && backup != []
    ensures e in backup[1..] ==> e in backup && !SameRow(backup[0], e)
    ensures e in backup && e != backup[0] ==> e in backup[1..]
  {
    if e in backup[1..] {
      var i :| 0 <= i < |backup[1..]| && backup[1..][i] == e;
      assert backup[i + 1] == e;
    }
    if e in backup && e != backup[0] {
      var i :| 0 <= i < |backup| && backup[i] == e;
      assert backup[1..][i - 1] == e;
    }
  }

  lemma CoverOneLess(origin: Tables, tables: Tables, backup: seq<Saved>)
    requires Covered(origin, tables, backup) && NoRepeats(backup) && backup != [] && backup[0].table in tables
    ensures Covered(origin, Inserted(tables, backup[0]), backup[1..])
  {
    var next := Inserted(tables, backup[0]);
    forall n, q | n in origin && n in next && q in origin[n] && q !in next[n]
      ensures InBackup(backup[1..], n, q)
    {
      assert InBackup(backup, n, q);
      var x :| x in backup && x.table == n && x.id == q;
      RestIsOther(backup, x);
    }
  }

  lemma AgreesInserted(origin: Tables, tables: Tables, e: Saved)
    requires Agrees(origin, tables) && WasDeleted(origin, tables, e)
    ensures Agrees(origin, Inserted(tables, e))
    ensures forall x :: WasDeleted(origin, tables, x) && !SameRow(e, x) ==> WasDeleted(origin, Inserted(tables, e), x)
  {
  }

  lemma InsertSaved(origin: Tables, tables: Tables, backup: seq<Saved>)
    requires Complementary(origin, tables, backup) && backup != []
    ensures var e := backup[0]; e.table in tables && e.id !in tables[e.table]
    ensures Complementary(origin, Inserted(tables, backup[0]), backup[1..])
  {
    var e := backup[0];
    assert e in backup && WasDeleted(origin, tables, e);
    CoverOneLess(origin, tables, backup);
    AgreesInserted(origin, tables, e);
    forall x | x in backup[1..]
      ensures WasDeleted(origin, Inserted(tables, e), x)
    {
      hide Covered;
      hide Agrees;
      hide Inserted;
      RestIsOther(backup, x);
      assert WasDeleted(origin, tables, x);
    }
    hide Covered;
    hide Agrees;
    hide Inserted;
    hide WasDeleted;
    assert NoRepeats(backup[1..]);
  }

  /** Replaying a complementary backup always succeeds and gives back the original tables. */
  lemma {:induction false} ReinsertRestores(origin: Tables, tables: Tables, backup: seq<Saved>)
    requires Complementary(origin, tables, backup)
    ensures Reinsert(tables, backup) == Some(origin)
    decreases |backup|
  {
    if backup == [] {
      forall name | name in origin
        ensures tables[name] == origin[name]
      {
        forall r | r in origin[name]
          ensures r in tables[name]
        {
          assert r !in tables[name] ==> InBackup(backup, name, r);
        }
        assert tables[name].Keys == origin[name].Keys;
      }
      assert tables == origin;
    } else {
      var e := backup[0];
      InsertSaved(origin, tables, backup);
      ReinsertRestores(origin, Inserted(tables, e), backup[1..]);
    }
  }

  // --- the two migrations' loops ---

  /** Rows of a group other than the kept one. */
  function Surplus(t: Table, name: TableName, k: AnchorKey, keep: nat): set<nat> {
    set r | r in t && AnchorOf(name, t[r]) == Some(k) && r != keep
  }

  /** The groups already processed have lost their surplus, the others are complete. */
  ghost predicate GroupsDone(t0: Table, t: Table, name: TableName, open: map<AnchorKey, nat>) {
    && (forall r :: r in t ==> r in t0 && t[r] == t0[r])
    && (forall r :: r in t0 && (AnchorOf(name, t0[r]).None? || AnchorOf(name, t0[r]).value in open) ==> r in t)
    && (forall r :: r in t0 && AnchorOf(name, t0[r]).Some? && AnchorOf(name, t0[r]).value !in open
          ==> (r in t <==> Keeps(t0, KeyIn(name), true, r)))
  }

  /** KEEP_ID of every group with more than one row. */
  ghost predicate GroupHeads(t: Table, name: TableName, heads: map<AnchorKey, nat>) {
    && (forall k ::
          k in heads
          ==> heads[k] in t && AnchorOf(name, t[heads[k]]) == Some(k) && Keeps(t, KeyIn(name), true, heads[k]))
    && (forall r, q :: Twin(t, KeyIn(name), r, q) ==> AnchorOf(name, t[r]).value in heads)
  }

  function Group(t: Table, name: TableName, k: AnchorKey): set<nat> {
    set r | r in t && AnchorOf(name, t[r]) == Some(k)
  }

  function SharedKeys(t: Table, name: TableName): set<AnchorKey> {
    set r | r in t && AnchorOf(name, t[r]).Some? && |Group(t, name, AnchorOf(name, t[r]).value)| > 1
      :: AnchorOf(name, t[r]).value
  }

  function Heads(t: Table, name: TableName): map<AnchorKey, nat> {
    map k | k in SharedKeys(t, name) && |Group(t, name, k)| > 1 :: MaxId(Group(t, name, k))
  }

  lemma TwoInGroup(t: Table, name: TableName, r: nat, q: nat)
    requires Twin(t, KeyIn(name), r, q)
    ensures |Group(t, name, AnchorOf(name, t[r]).value)| > 1
  {
    var g := Group(t, name, AnchorOf(name, t[r]).value);
    assert q in g - {r} && |g| == |g - {r}| + 1;
    assert |g - {r}| > 0;
  }

  lemma HeadsAreHeads(t: Table, name: TableName)
    ensures GroupHeads(t, name, Heads(t, name))
  {
    var heads := Heads(t, name);
    forall k | k in heads
      ensures heads[k] in t && AnchorOf(name, t[heads[k]]) == Some(k) && Keeps(t, KeyIn(name), true, heads[k])
    {
      var m := heads[k];
      assert m in Group(t, name, k);
      forall q | Twin(t, KeyIn(name), m, q)
        ensures q < m
      {
        assert q in Group(t, name, k);
      }
    }
    forall r, q | Twin(t, KeyIn(name), r, q)
      ensures AnchorOf(name, t[r]).value in heads
    {
      TwoInGroup(t, name, r, q);
      assert AnchorOf(name, t[r]).value in SharedKeys(t, name);
    }
  }

  class SubscriptionStore {
    var tables: Tables
    var backup: seq<Saved>

    /** The inner loop: save the row, delete the row. */
    method DeleteRows(name: TableName, surplus: set<nat>, ghost origin: Tables)
      requires name in tables && surplus <= tables[name].Keys
      modifies this
      ensures tables.Keys == old(tables).Keys && tables[name] == old(tables)[name] - surplus
      ensures forall n :: n in tables && n != name ==> tables[n] == old(tables)[n]
      ensures old(backup) <= backup
      ensures Complementary(origin, old(tables), old(backup)) ==> Complementary(origin, tables, backup)
    {
      hide Complementary;
      ghost var tables0 := tables;
      var rows := surplus;
      while rows != {}
        invariant rows <= surplus
        invariant tables.Keys == tables0.Keys && tables[name] == tables0[name] - (surplus - rows)
        invariant forall n :: n in tables && n != name ==> tables[n] == tables0[n]
        invariant old(backup) <= backup
        invariant Complementary(origin, tables0, old(backup)) ==> Complementary(origin, tables, backup)
        decreases rows
      {
        var r :| r in rows;
        if Complementary(origin, tables, backup) {
          DeleteSaved(origin, tables, backup, name, r);
        }
        backup := backup + [Saved(name, r, tables[name][r])];
        tables := tables[name := tables[name] - {r}];
        rows := rows - {r};
        assert surplus - rows == surplus - (rows + {r}) + {r};
      }
    }

    /** `_dedupe`. The groups and their KEEP_IDs are read once; each group's rows are read when its turn comes. */
    method Dedupe(name: TableName, ghost origin: Tables)
      modifies this
      ensures tables.Keys == old(tables.Keys)
      ensures forall n :: n in tables && n != name ==> tables[n] == old(tables)[n]
      ensures name in tables ==> forall r :: r in tables[name] <==> Keeps(old(tables)[name], KeyIn(name), true, r)
      ensures name in tables
              ==> forall r :: r in tables[name] && r in old(tables)[name] ==> tables[name][r] == old(tables)[name][r]
      ensures old(backup) <= backup
      ensures Complementary(origin, old(tables), old(backup)) ==> Complementary(origin, tables, backup)
    {
      if name !in tables {
        return;
      }
      hide Complementary;
      hide GroupsDone;
      hide Keeps;
      ghost var t0 := tables[name];
      var heads := Heads(tables[name], name);
      HeadsAreHeads(t0, name);
      GroupsStart(t0, name, heads);
      var open := heads;
      while open != map[]
        invariant open.Keys <= heads.Keys && forall k :: k in open ==> open[k] == heads[k]
        invariant tables.Keys == old(tables.Keys)
        invariant forall n :: n in tables && n != name ==> tables[n] == old(tables)[n]
        invariant GroupsDone(t0, tables[name], name, open)
        invariant old(backup) <= backup
        invariant Complementary(origin, old(tables), old(backup)) ==> Complementary(origin, tables, backup)
        decreases open.Keys
      {
        var k :| k in open;
        ghost var t := tables[name];
        var rows := Surplus(tables[name], name, k, open[k]);
        DeleteRows(name, rows, origin);
        GroupDone(t0, t, name, heads, open, k);
        open := open - {k};
      }
      GroupsEnd(t0, tables[name], name);
    }

    /** The upgrade's two calls. */
    method Upgrade()
      modifies this
      ensures tables.Keys == old(tables.Keys)
      ensures forall name ::
                name in tables ==> forall r :: r in tables[name] <==> Keeps(old(tables)[name], KeyIn(name), true, r)
      ensures old(backup) == [] ==> Complementary(old(tables), tables, backup)
    {
      ghost var origin := tables;
      Dedupe(SubscribeMovies, origin);
      Dedupe(SubscribeTvs, origin);
    }

    /** The downgrade's loop over the backup in id order; the backup table is dropped at the end. */
    method Restore() returns (ok: bool)
      modifies this
      ensures ok <==> Reinsert(old(tables), old(backup)).Some?
      ensures ok ==> Some(tables) == Reinsert(old(tables), old(backup)) && backup == []
    {
      for i := 0 to |backup|
        invariant backup == old(backup)
        invariant Reinsert(old(tables), old(backup)) == Reinsert(tables, backup[i..])
      {
        var e := backup[i];
        if e.table !in tables || e.id in tables[e.table] {
          return false;
        }
        assert backup[i..][1..] == backup[i + 1..];
        tables := Inserted(tables, e);
      }
      backup := [];
      ok := true;
    }
  }

  lemma GroupsStart(t: Table, name: TableName, heads: map<AnchorKey, nat>)
    requires GroupHeads(t, name, heads)
    ensures GroupsDone(t, t, name, heads)
  {
    forall r | r in t && AnchorOf(name, t[r]).Some? && AnchorOf(name, t[r]).value !in heads
      ensures Keeps(t, KeyIn(name), true, r)
    {
      assert forall q :: !Twin(t, KeyIn(name), r, q);
    }
  }

  lemma GroupsEnd(t0: Table, t: Table, name: TableName)
    requires GroupsDone(t0, t, name, map[])
    ensures forall r :: r in t <==> Keeps(t0, KeyIn(name), true, r)
    ensures forall r :: r in t && r in t0 ==> t[r] == t0[r]
  {
  }

  lemma GroupDone(t0: Table, t: Table, name: TableName, heads: map<AnchorKey, nat>, open: map<AnchorKey, nat>,
                  k: AnchorKey)
    requires GroupHeads(t0, name, heads) && GroupsDone(t0, t, name, open)
    requires k in open && k in heads && open[k] == heads[k]
    ensures GroupsDone(t0, t - Surplus(t, name, k, open[k]), name, open - {k})
  {
    var next := t - Surplus(t, name, k, open[k]);
    forall r | r in t0 && AnchorOf(name, t0[r]) == Some(k)
      ensures r in next <==> Keeps(t0, KeyIn(name), true, r)
    {
      if r != open[k] {
        assert Twin(t0, KeyIn(name), r, open[k]) && Twin(t0, KeyIn(name), open[k], r);
      }
    }
  }

  /** After the upgrade every anchored key is held once per table, no key is gone, rows without an anchor are untouched,
      and running the rule again would delete nothing. */
  lemma UpgradeDeduplicates(before: Table, after: Table, name: TableName)
    requires forall r :: r in after <==> Keeps(before, KeyIn(name), true, r)
    requires forall r :: r in after && r in before ==> after[r] == before[r]
    ensures Deduplicated(before, after, KeyIn(name))
    ensures forall r :: r in after ==> Keeps(after, KeyIn(name), true, r)
  {
    KeepingExtremes(before, after, KeyIn(name), true);
  }

  // --- the same in the columns themselves ---

  predicate Anchored(row: Subscription) {
    row.anchorProvider.GetOr("") != "" && row.anchorExternalId.GetOr("") != ""
  }

  /** The same user, the same anchor and, for a series, the same season. */
  predicate SameSubscription(name: TableName, a: Subscription, b: Subscription) {
    && a.userId == b.userId && a.anchorProvider == b.anchorProvider && a.anchorExternalId == b.anchorExternalId
    && (name == SubscribeTvs ==> a.season == b.season)
  }

  lemma TwinsAreSame(t: Table, name: TableName, r: nat, q: nat)
    ensures Twin(t, KeyIn(name), r, q)
            <==> r in t && q in t && r != q && Anchored(t[r]) && SameSubscription(name, t[r], t[q])
  {
  }

  /** A row is deleted exactly when it is anchored and a row with a larger id is the same subscription. */
  lemma DeletedExactly(before: Table, after: Table, name: TableName, r: nat)
    requires forall x :: x in after <==> Keeps(before, KeyIn(name), true, x)
    ensures r in before && r !in after
            <==> r in before && Anchored(before[r])
                 && exists q :: q in before && q > r && SameSubscription(name, before[r], before[q])
  {
    forall q
      ensures Twin(before, KeyIn(name), r, q)
              <==> r in before && q in before && r != q && Anchored(before[r])
                   && SameSubscription(name, before[r], before[q])
    {
      TwinsAreSame(before, name, r, q);
    }
  }

  /** Two anchored rows that are left differ in the user, the anchor or, for series, the season. */
  lemma SurvivorsDiffer(before: Table, after: Table, name: TableName, a: nat, b: nat)
    requires forall x :: x in after <==> Keeps(before, KeyIn(name), true, x)
    requires a in after && b in after && a != b
    ensures a in before && b in before && (Anchored(before[a]) ==> !SameSubscription(name, before[a], before[b]))
  {
    TwinsAreSame(before, name, a, b);
    TwinsAreSame(before, name, b, a);
  }
}
