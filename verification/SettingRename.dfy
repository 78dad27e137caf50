/** 421174971bcd: one prefix of the system configuration keys is renamed, key by key, against the key set read at the
    start. */
module SettingRename {

  /** A row of SYSTEM_DICT. TYPE and KEY are not unique. */
  datatype Row = Row(kind: string, key: string, value: string)

  type Table = map<nat, Row>

  const LEGACY_PREFIX := "DefaultSubscribeSettingMOV"
  const CURRENT_PREFIX := "DefaultSubscribeSettingMovie"

  predicate IsSetting(row: Row) {
    row.kind == "SystemConfig"
  }

  function Keys(rows: Table): set<string> {
    set r | r in rows && IsSetting(rows[r]) :: rows[r].key
  }

  /** `key` with the prefix exchanged. */
  function Exchanged(key: string, source: string, target: string): string
    requires source <= key
  {
    target + key[|source|..]
  }

  /** What one simultaneous renaming makes of a row: gone if the new key is taken, renamed or untouched otherwise. */
  predicate Stays(existing: set<string>, row: Row, source: string, target: string) {
    IsSetting(row) && source <= row.key ==> Exchanged(row.key, source, target) !in existing
  }

  function Moved(row: Row, source: string, target: string): Row {
    if IsSetting(row) && source <= row.key then row.(key := Exchanged(row.key, source, target)) else row
  }

  function Renamed(rows: Table, source: string, target: string): Table {
    map r | r in rows && Stays(Keys(rows), rows[r], source, target) :: Moved(rows[r], source, target)
  }

  /** The rows still to be visited are untouched, apart from those that share their key with a visited one. */
  ghost predicate Midway(rows0: Table, rows: Table, source: string, target: string, handled: set<string>) {
    && (forall r :: r in rows ==> r in rows0)
    && (forall r :: r in rows0 && IsSetting(rows0[r]) && rows0[r].key in handled ==>
                      if r in rows
                      then Stays(Keys(rows0), rows0[r], source, target) && rows[r] == Moved(rows0[r], source, target)
                      else !Stays(Keys(rows0), rows0[r], source, target))
    && (forall r ::
          r in rows0 && !(IsSetting(rows0[r]) && rows0[r].key in handled) ==> r in rows && rows[r] == rows0[r])
  }

  function DeleteKey(rows: Table, key: string): Table {
    map r | r in rows && !(IsSetting(rows[r]) && rows[r].key == key) :: rows[r]
  }

  function UpdateKey(rows: Table, key: string, next: string): Table {
    map r | r in rows :: if IsSetting(rows[r]) && rows[r].key == key then rows[r].(key := next) else rows[r]
  }

  /** A renamed row never carries a key of the list, so no later step touches it. */
  lemma Visit(rows0: Table, rows: Table, source: string, target: string, handled: set<string>, key: string)
    requires Midway(rows0, rows, source, target, handled) && key in Keys(rows0)
    ensures var next := if !(source <= key) then rows
                        else if Exchanged(key, source, target) in Keys(rows0) then DeleteKey(rows, key)
                        else UpdateKey(rows, key, Exchanged(key, source, target));
            Midway(rows0, next, source, target, handled + {key})
  {
    forall r | r in rows && IsSetting(rows[r]) && rows[r].key in Keys(rows0)
      ensures rows[r].key == rows0[r].key
    {
    }
  }

  class SettingStore {
    var rows: Table

    /** `_rename_prefix`. The listed keys come in any order, one per row, so a shared key comes up repeatedly. */
    method RenamePrefix(source: string, target: string)
      modifies this
      ensures rows == Renamed(old(rows), source, target)
    {
      var listed := rows;
      var existing := Keys(rows);
      ghost var handled: set<string> := {};
      var todo := set r | r in listed && IsSetting(listed[r]);
      while todo != {}
        invariant forall r :: r in todo ==> r in listed && IsSetting(listed[r])
        invariant forall r :: r in listed && IsSetting(listed[r]) && r !in todo ==> listed[r].key in handled
        invariant Midway(listed, rows, source, target, handled)
        decreases todo
      {
        var r :| r in todo;
        var key := listed[r].key;
        assert key in existing;
        Visit(listed, rows, source, target, handled, key);
        if source <= key {
          var next := Exchanged(key, source, target);
          if next in existing {
            rows := DeleteKey(rows, key);
          } else {
            rows := UpdateKey(rows, key, next);
          }
        }
        handled := handled + {key};
        todo := todo - {r};
      }
      MidwayEnds(listed, rows, source, target, handled);
    }

    method Upgrade()
      modifies this
      ensures rows == Renamed(old(rows), LEGACY_PREFIX, CURRENT_PREFIX)
    {
      RenamePrefix(LEGACY_PREFIX, CURRENT_PREFIX);
    }

    method Downgrade()
      modifies this
      ensures rows == Renamed(old(rows), CURRENT_PREFIX, LEGACY_PREFIX)
    {
      RenamePrefix(CURRENT_PREFIX, LEGACY_PREFIX);
    }
  }

  lemma MidwayEnds(rows0: Table, rows: Table, source: string, target: string, handled: set<string>)
    requires Midway(rows0, rows, source, target, handled) && Keys(rows0) <= handled
    ensures rows == Renamed(rows0, source, target)
  {
    var final := Renamed(rows0, source, target);
    forall r
      ensures r in rows <==> r in final
      ensures r in rows ==> rows[r] == final[r]
    {
      if r in rows0 && IsSetting(rows0[r]) {
        assert rows0[r].key in Keys(rows0);
      }
    }
  }

  // --- what the renaming amounts to ---

  predicate Apart(a: string, b: string) {
    !(a <= b) && !(b <= a)
  }

  /** The two prefixes differ in the case of one letter, so neither begins with the other. */
  lemma ThePrefixesAreApart()
    ensures Apart(LEGACY_PREFIX, CURRENT_PREFIX)
  {
    assert LEGACY_PREFIX[24] == 'O' && CURRENT_PREFIX[24] == 'o';
  }

  lemma PrefixesOfOne(a: string, b: string, s: string)
    requires a <= s && b <= s
    ensures !Apart(a, b)
  {
    assert if |a| <= |b| then a == s[..|a|] == b[..|a|] else b == s[..|b|] == a[..|b|];
  }

  /** No setting keeps a source-prefixed key. */
  lemma NoSourceKeyLeft(rows: Table, source: string, target: string, r: nat)
    requires Apart(source, target)
    requires r in Renamed(rows, source, target) && IsSetting(Renamed(rows, source, target)[r])
    ensures !(source <= Renamed(rows, source, target)[r].key)
  {
    var key := Renamed(rows, source, target)[r].key;
    if source <= key && target <= key {
      PrefixesOfOne(source, target, key);
    }
  }

  /** Rows whose key does not begin with the source prefix survive as they were; every survivor keeps its value. */
  lemma OthersKept(rows: Table, source: string, target: string, r: nat)
    requires r in rows
    ensures !(IsSetting(rows[r]) && source <= rows[r].key)
            ==> r in Renamed(rows, source, target) && Renamed(rows, source, target)[r] == rows[r]
    ensures r in Renamed(rows, source, target) ==> Renamed(rows, source, target)[r].(key := rows[r].key) == rows[r]
  {
  }

  /** Two surviving settings share a key afterwards exactly when they shared it before. */
  lemma NoNewCollision(rows: Table, source: string, target: string, a: nat, b: nat)
    requires a in Renamed(rows, source, target) && b in Renamed(rows, source, target)
    requires IsSetting(rows[a]) && IsSetting(rows[b])
    ensures Renamed(rows, source, target)[a].key == Renamed(rows, source, target)[b].key <==> rows[a].key == rows[b].key
  {
    assert rows[a].key in Keys(rows) && rows[b].key in Keys(rows);
    if source <= rows[a].key && source <= rows[b].key
       && Moved(rows[a], source, target).key == Moved(rows[b], source, target).key
    {
      var x, y := rows[a].key, rows[b].key;
      assert x[|source|..] == Exchanged(x, source, target)[|target|..] == y[|source|..];
      assert x == source + x[|source|..] && y == source + y[|source|..];
    }
  }

  predicate HasPrefixed(rows: Table, prefix: string) {
    exists r :: r in rows && IsSetting(rows[r]) && prefix <= rows[r].key
  }

  /** Going there and back is the identity exactly when no target-prefixed setting existed. */
  lemma RoundTripExactly(rows: Table, source: string, target: string)
    requires Apart(source, target)
    ensures Renamed(Renamed(rows, source, target), target, source) == rows <==> !HasPrefixed(rows, target)
  {
    var there := Renamed(rows, source, target);
    var back := Renamed(there, target, source);
    if HasPrefixed(rows, target) {
      var r :| r in rows && IsSetting(rows[r]) && target <= rows[r].key;
      if source <= rows[r].key {
        PrefixesOfOne(source, target, rows[r].key);
      }
      assert there[r] == rows[r];
      if r in back {
        NoSourceKeyLeft(there, target, source, r);
      }
    } else {
      forall r | r in rows
        ensures r in back && back[r] == rows[r]
      {
        ThereAndBack(rows, source, target, r);
      }
    }
  }

  lemma ThereAndBack(rows: Table, source: string, target: string, r: nat)
    requires Apart(source, target) && !HasPrefixed(rows, target) && r in rows
    ensures r in Renamed(Renamed(rows, source, target), target, source)
    ensures Renamed(Renamed(rows, source, target), target, source)[r] == rows[r]
  {
    var there := Renamed(rows, source, target);
    var key := rows[r].key;
    if IsSetting(rows[r]) && source <= key {
      var next := Exchanged(key, source, target);
      assert target <= next;
      assert r in there && there[r].key == next;
      assert source + next[|target|..] == key;
      forall q | q in there && IsSetting(there[q])
        ensures there[q].key != key
      {
        NoSourceKeyLeft(rows, source, target, q);
      }
    }
  }

  // --- the two keys as they are written ---

  /** The upgrade renames the settings that begin with "DefaultSubscribeSettingMOV", unless the new key is taken, and
      the downgrade turns them back. */
  lemma KeysAsWritten(rows: Table, r: nat, rest: string)
    requires r in rows && rows[r].kind == "SystemConfig"
    ensures rows[r].key == "DefaultSubscribeSettingMOV" + rest
            && (forall q :: q in rows && rows[q].kind == "SystemConfig"
                            ==> rows[q].key != "DefaultSubscribeSettingMovie" + rest)
            ==> r in Renamed(rows, LEGACY_PREFIX, CURRENT_PREFIX)
                && Renamed(rows, LEGACY_PREFIX, CURRENT_PREFIX)[r]
                   == rows[r].(key := "DefaultSubscribeSettingMovie" + rest)
    ensures rows[r].key == "DefaultSubscribeSettingMOV" + rest
            && (exists q :: q in rows && rows[q].kind == "SystemConfig"
                            && rows[q].key == "DefaultSubscribeSettingMovie" + rest)
            ==> r !in Renamed(rows, LEGACY_PREFIX, CURRENT_PREFIX)
    ensures rows[r].key == "DefaultSubscribeSettingMovie" + rest
            && (forall q :: q in rows && rows[q].kind == "SystemConfig"
                            ==> rows[q].key != "DefaultSubscribeSettingMOV" + rest)
            ==> r in Renamed(rows, CURRENT_PREFIX, LEGACY_PREFIX)
                && Renamed(rows, CURRENT_PREFIX, LEGACY_PREFIX)[r]
                   == rows[r].(key := "DefaultSubscribeSettingMOV" + rest)
  {
    PrefixExchanged(LEGACY_PREFIX, CURRENT_PREFIX, rest);
    PrefixExchanged(CURRENT_PREFIX, LEGACY_PREFIX, rest);
    KeysAre(rows, LEGACY_PREFIX + rest);
    KeysAre(rows, CURRENT_PREFIX + rest);
  }

  lemma PrefixExchanged(source: string, target: string, rest: string)
    ensures source <= source + rest && Exchanged(source + rest, source, target) == target + rest
  {
    assert (source + rest)[|source|..] == rest;
  }

  lemma KeysAre(rows: Table, key: string)
    ensures key in Keys(rows) <==> exists q :: q in rows && rows[q].kind == "SystemConfig" && rows[q].key == key
  {
  }

  /** Rows of other kinds are left alone. */
  lemma OtherKindsStay(rows: Table, source: string, target: string, r: nat)
    requires r in rows && rows[r].kind != "SystemConfig"
    ensures r in Renamed(rows, source, target) && Renamed(rows, source, target)[r] == rows[r]
  {
  }
}
