/** How many rows a run re-points or merges in all, told from the tables before it and the merges it executes. */
module RunTotals {
  import opened Wrappers
  import opened Lifecycle
  import opened SnapshotMerge
  import opened RefQuotient
  import opened Succession
  import opened Sessions

  /** The rows of the named tables that belong to an identity of the line. */
  ghost function OwnedInLine(rows: OwnedRows, tables: set<OwnedTable>, line: seq<Id>): set<OwnedKey> {
    set k | k in rows && k.table in tables && rows[k].identity.Some? && rows[k].identity.value in line
  }

  /** Every merge re-points the rows of all identities that have come to its source. */
  ghost function OwnedTotal(rows: OwnedRows, tables: set<OwnedTable>, merges: seq<Merged>): nat {
    if merges == [] then 0
    else
      var front, last := merges[..|merges| - 1], merges[|merges| - 1];
      OwnedTotal(rows, tables, front) + |OwnedInLine(rows, tables, Line(front, last.source))|
  }

  ghost function SlotsInLine(t: Table, line: seq<Id>): set<Slot> {
    set r | r in t && t[r].identity in line :: t[r].slot
  }

  /** Every merge visits one lifecycle row for each slot of the identities that have come to its source. */
  ghost function SlotTotal(t: Table, merges: seq<Merged>): nat {
    if merges == [] then 0
    else
      var front, last := merges[..|merges| - 1], merges[|merges| - 1];
      SlotTotal(t, front) + |SlotsInLine(t, Line(front, last.source))|
  }

  lemma TotalsGrow(rows: OwnedRows, tables: set<OwnedTable>, t: Table, merges: seq<Merged>, m: Merged)
    ensures OwnedTotal(rows, tables, merges + [m])
            == OwnedTotal(rows, tables, merges) + |OwnedInLine(rows, tables, Line(merges, m.source))|
    ensures SlotTotal(t, merges + [m]) == SlotTotal(t, merges) + |SlotsInLine(t, Line(merges, m.source))|
  {
    assert (merges + [m])[..|merges|] == merges;
  }

  /** The line of `id` holds the identities that have come to it, of those that the rows mention. */
  ghost predicate LineTold(rows: OwnedRows, owner: map<Id, Id>, line: seq<Id>, id: Id) {
    forall k :: k in rows && rows[k].identity.Some?
                ==> (rows[k].identity.value in line <==> Own(owner, rows[k].identity.value) == id)
  }

  /** What belongs to an identity in the middle of a run belonged to its line at the start. */
  lemma OwnedNow(rows0: OwnedRows, rows: OwnedRows, all: set<OwnedTable>, table: OwnedTable, owner: map<Id, Id>,
                 merges: seq<Merged>, id: Id)
    requires rows == Redirected(rows0, all, owner) && table in all && LineTold(rows0, owner, Line(merges, id), id)
    ensures OwnedBy(rows, table, id) == OwnedInLine(rows0, {table}, Line(merges, id))
  {
    forall k
      ensures k in OwnedBy(rows, table, id) <==> k in OwnedInLine(rows0, {table}, Line(merges, id))
    {
      if k in rows0 && rows0[k].identity.Some? {
        var x := rows0[k].identity.value;
        assert x in Line(merges, id) <==> Own(owner, x) == id;
      }
    }
  }

  lemma OneTableMore(rows: OwnedRows, tables: set<OwnedTable>, table: OwnedTable, line: seq<Id>)
    requires table !in tables
    ensures |OwnedInLine(rows, tables + {table}, line)|
            == |OwnedInLine(rows, tables, line)| + |OwnedInLine(rows, {table}, line)|
  {
    var before, more := OwnedInLine(rows, tables, line), OwnedInLine(rows, {table}, line);
    assert OwnedInLine(rows, tables + {table}, line) == before + more && before !! more;
  }

  lemma NoTable(rows: OwnedRows, line: seq<Id>)
    ensures |OwnedInLine(rows, {}, line)| == 0
  {
    assert OwnedInLine(rows, {}, line) == {};
  }

  lemma {:induction false} SlotsCounted(t: Table, rows: set<nat>)
    requires forall r :: r in rows ==> r in t
    requires forall a, b :: a in rows && b in rows && t[a].slot == t[b].slot ==> a == b
    ensures |set r | r in rows && r in t :: t[r].slot| == |rows|
    decreases |rows|
  {
    if x :| x in rows {
      var rest := rows - {x};
      SlotsCounted(t, rest);
      assert (set r | r in rows && r in t :: t[r].slot) == (set r | r in rest && r in t :: t[r].slot) + {t[x].slot};
      assert t[x].slot !in (set r | r in rest && r in t :: t[r].slot);
    } else {
      assert rows == {};
    }
  }

  /** An identity has one row for each slot its line had at the start. */
  lemma RowsNow(t0: Table, t: Table, owner: map<Id, Id>, merges: seq<Merged>, copy: bool, id: Id)
    requires Image(t0, t, RowOwners(t0, owner), copy)
    requires forall r :: r in t0 ==> (t0[r].identity in Line(merges, id) <==> Own(owner, t0[r].identity) == id)
    ensures |RowsOf(t, id)| == |SlotsInLine(t0, Line(merges, id))|
  {
    var mine := RowsOf(t, id);
    SlotsCounted(t, mine);
    var slots := set r | r in mine && r in t :: t[r].slot;
    forall slot
      ensures slot in slots <==> slot in SlotsInLine(t0, Line(merges, id))
    {
      if slot in slots {
        var r :| r in mine && t[r].slot == slot;
        assert KeepsRow(t0, t, RowOwners(t0, owner), r);
        assert t0[r].identity in Line(merges, id);
      }
      if slot in SlotsInLine(t0, Line(merges, id)) {
        var r0 :| r0 in t0 && t0[r0].identity in Line(merges, id) && t0[r0].slot == slot;
        assert Own(owner, t0[r0].identity) == id;
        assert Answered(t0, t, RowOwners(t0, owner), copy, r0);
        var r1 :| Answers(t0, t, RowOwners(t0, owner), copy, r0, r1);
        assert r1 in mine;
      }
    }
    assert slots == SlotsInLine(t0, Line(merges, id));
  }
}
