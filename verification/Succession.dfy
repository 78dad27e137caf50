/** Which row answers for a slot after a sequence of merges that moves rows to free slots, deletes the others and never
    copies a column. */
module Succession {
  import opened Lifecycle
  import opened SnapshotMerge
  import opened RefQuotient

  /** One executed merge: everything of `source` went to `target`. */
  datatype Merged = Merged(source: Id, target: Id)

  ghost function Sources(merges: seq<Merged>): set<Id> {
    set m | m in merges :: m.source
  }

  lemma SourcesGrow(merges: seq<Merged>, m: Merged)
    ensures Sources(merges + [m]) == Sources(merges) + {m.source}
  {
    forall x
      ensures x in Sources(merges + [m]) <==> x in Sources(merges) || x == m.source
    {
      if x in Sources(merges) {
        var n :| n in merges && n.source == x;
        assert n in merges + [m];
      }
      assert m in merges + [m];
    }
  }

  /** The merges of one group: all others into the first, in order. */
  ghost function Fan(order: seq<Id>): seq<Merged>
    requires order != []
  {
    seq(|order| - 1, i requires 0 <= i < |order| - 1 => Merged(order[i + 1], order[0]))
  }

  lemma FanStep(order: seq<Id>, k: nat)
    requires 1 <= k < |order|
    ensures Fan(order[..k + 1]) == Fan(order[..k]) + [Merged(order[k], order[0])]
  {
  }

  /** The identities merged into `y`, in the order in which their rows succeed to a slot. */
  ghost function Line(merges: seq<Merged>, y: Id): seq<Id> {
    if merges == [] then [y]
    else
      var front, last := merges[..|merges| - 1], merges[|merges| - 1];
      if y == last.target then Line(front, last.target) + Line(front, last.source)
      else if y == last.source then []
      else Line(front, y)
  }

  lemma LineStep(merges: seq<Merged>, source: Id, target: Id, y: Id)
    ensures Line(merges + [Merged(source, target)], y)
            == if y == target then Line(merges, target) + Line(merges, source)
               else if y == source then []
               else Line(merges, y)
  {
    assert (merges + [Merged(source, target)])[..|merges|] == merges;
  }

  /** The line of the first member of a group is the group. */
  lemma {:induction false} LineOfFan(order: seq<Id>)
    requires order != [] && forall i, j :: 0 <= i < j < |order| ==> order[i] != order[j]
    ensures Line(Fan(order), order[0]) == order
    ensures forall y :: y !in order ==> Line(Fan(order), y) == [y]
    decreases |order|
  {
    if |order| > 1 {
      var k := |order| - 1;
      LineOfFan(order[..k]);
      assert order[..k + 1] == order;
      FanStep(order, k);
      forall y
        ensures y !in order ==> Line(Fan(order), y) == [y]
      {
        LineStep(Fan(order[..k]), order[k], order[0], y);
      }
      LineStep(Fan(order[..k]), order[k], order[0], order[0]);
    }
  }

  /** `owner` sends every identity to the one in whose line it stands. */
  ghost predicate InLine(owner: map<Id, Id>, merges: seq<Merged>) {
    forall x, y {:trigger x in Line(merges, y)} :: x in owner ==> (x in Line(merges, y) <==> owner[x] == y)
  }

  lemma InLineStarts(ids: set<Id>)
    ensures InLine(map x | x in ids :: x, [])
  {
  }

  lemma InLineStep(owner: map<Id, Id>, merges: seq<Merged>, source: Id, target: Id)
    requires InLine(owner, merges) && source != target
    ensures InLine(Redirect(owner, source, target), merges + [Merged(source, target)])
  {
    forall x, y | x in owner
      ensures x in Line(merges + [Merged(source, target)], y) <==> Redirect(owner, source, target)[x] == y
    {
      LineStep(merges, source, target, y);
    }
  }

  /** The line of an identity never leaves the identities that were merged. */
  lemma {:induction false} LineWithin(ids: set<Id>, merges: seq<Merged>, y: Id)
    requires y in ids && forall m :: m in merges ==> m.source in ids && m.target in ids
    ensures forall x :: x in Line(merges, y) ==> x in ids
    decreases |merges|
  {
    if merges != [] {
      var front, last := merges[..|merges| - 1], merges[|merges| - 1];
      assert last in merges && forall m :: m in front ==> m in merges;
      LineWithin(ids, front, y);
      LineWithin(ids, front, last.source);
      LineWithin(ids, front, last.target);
    }
  }

  // --- succession to a slot ---

  ghost predicate FirstHolder(t: Table, line: seq<Id>, slot: Slot, k: int) {
    0 <= k < |line| && Occupied(t, line[k], slot) && forall j :: 0 <= j < k ==> !Occupied(t, line[j], slot)
  }

  /** Row `r` is the row of the first identity in `line` that holds the slot. */
  ghost predicate Succeeds(t: Table, line: seq<Id>, slot: Slot, r: nat) {
    exists k :: FirstHolder(t, line, slot, k) && Holds(t, r, line[k], slot)
  }

  ghost predicate HeldInLine(t: Table, line: seq<Id>, slot: Slot) {
    exists x :: x in line && Occupied(t, x, slot)
  }

  lemma {:induction false} SomeHolder(t: Table, line: seq<Id>, slot: Slot) returns (k: int)
    requires HeldInLine(t, line, slot)
    ensures FirstHolder(t, line, slot, k)
    decreases |line|
  {
    var x :| x in line && Occupied(t, x, slot);
    var i :| 0 <= i < |line| && line[i] == x;
    k := 0;
    while !Occupied(t, line[k], slot)
      invariant 0 <= k <= i && forall j :: 0 <= j < k ==> !Occupied(t, line[j], slot)
      decreases i - k
    {
      k := k + 1;
    }
  }

  /** A slot of two lines in a row goes to the first line that holds it. */
  lemma SucceedsJoin(t: Table, a: seq<Id>, b: seq<Id>, slot: Slot, r: nat)
    ensures Succeeds(t, a + b, slot, r)
            <==> Succeeds(t, a, slot, r) || (!HeldInLine(t, a, slot) && Succeeds(t, b, slot, r))
  {
    var ab := a + b;
    if Succeeds(t, ab, slot, r) {
      var k :| FirstHolder(t, ab, slot, k) && Holds(t, r, ab[k], slot);
      if k < |a| {
        FirstInFirst(t, a, b, slot, k);
      } else {
        forall x | x in a
          ensures !Occupied(t, x, slot)
        {
          var j :| 0 <= j < |a| && a[j] == x;
          assert ab[j] == x;
        }
        FirstInSecond(t, a, b, slot, k);
      }
    }
    if Succeeds(t, a, slot, r) {
      var k :| FirstHolder(t, a, slot, k) && Holds(t, r, a[k], slot);
      FirstInFirst(t, a, b, slot, k);
    } else if !HeldInLine(t, a, slot) && Succeeds(t, b, slot, r) {
      var k :| FirstHolder(t, b, slot, k) && Holds(t, r, b[k], slot);
      FirstAfterFirst(t, a, b, slot, k);
    }
  }

  lemma FirstInFirst(t: Table, a: seq<Id>, b: seq<Id>, slot: Slot, k: int)
    requires 0 <= k < |a|
    ensures (a + b)[k] == a[k] && (FirstHolder(t, a + b, slot, k) <==> FirstHolder(t, a, slot, k))
  {
    assert forall j :: 0 <= j <= k ==> (a + b)[j] == a[j];
  }

  lemma FirstInSecond(t: Table, a: seq<Id>, b: seq<Id>, slot: Slot, k: int)
    requires FirstHolder(t, a + b, slot, k) && k >= |a|
    ensures FirstHolder(t, b, slot, k - |a|) && b[k - |a|] == (a + b)[k]
  {
    forall j | 0 <= j < k - |a|
      ensures !Occupied(t, b[j], slot)
    {
      assert (a + b)[j + |a|] == b[j];
    }
  }

  lemma FirstAfterFirst(t: Table, a: seq<Id>, b: seq<Id>, slot: Slot, k: int)
    requires FirstHolder(t, b, slot, k) && !HeldInLine(t, a, slot)
    ensures FirstHolder(t, a + b, slot, k + |a|) && (a + b)[k + |a|] == b[k]
  {
    forall j | 0 <= j < k + |a|
      ensures !Occupied(t, (a + b)[j], slot)
    {
      if j >= |a| {
        assert (a + b)[j] == b[j - |a|];
      }
    }
  }

  /** After the merges the slots of every identity are held by the rows that succeed to them, with their own columns. */
  ghost predicate Inherited(t0: Table, t: Table, merges: seq<Merged>) {
    && (forall r, y, slot {:trigger Holds(t, r, y, slot)} ::
          Holds(t, r, y, slot) <==> Succeeds(t0, Line(merges, y), slot, r))
    && (forall r :: r in t ==> r in t0 && t[r].standing == t0[r].standing)
  }

  lemma InheritedStarts(t: Table)
    ensures Inherited(t, t, [])
  {
    forall r, y, slot
      ensures Holds(t, r, y, slot) <==> Succeeds(t, [y], slot, r)
    {
      if Holds(t, r, y, slot) {
        assert FirstHolder(t, [y], slot, 0);
      }
    }
  }

  lemma OccupiedInLine(t0: Table, t: Table, merges: seq<Merged>, y: Id, slot: Slot)
    requires Inherited(t0, t, merges)
    ensures Occupied(t, y, slot) <==> HeldInLine(t0, Line(merges, y), slot)
  {
    var line := Line(merges, y);
    if r :| Holds(t, r, y, slot) {
      var k :| FirstHolder(t0, line, slot, k) && Holds(t0, r, line[k], slot);
      assert line[k] in line;
    }
    if HeldInLine(t0, line, slot) {
      var k := SomeHolder(t0, line, slot);
      var r :| Holds(t0, r, line[k], slot);
      assert Succeeds(t0, line, slot, r);
      assert Holds(t, r, y, slot);
    }
  }

  /** One merge of `source` into `target`: the target keeps its rows, and what it lacks comes from the source. */
  ghost predicate TakesOver(t: Table, next: Table, source: Id, target: Id) {
    && (forall r, y, slot {:trigger Holds(next, r, y, slot)} ::
          Holds(next, r, y, slot)
          <==> if y == target
               then Holds(t, r, target, slot) || (!Occupied(t, target, slot) && Holds(t, r, source, slot))
               else y != source && Holds(t, r, y, slot))
    && (forall r :: r in next ==> r in t && next[r].standing == t[r].standing)
  }

  lemma InheritedStep(t0: Table, t: Table, next: Table, merges: seq<Merged>, source: Id, target: Id)
    requires Inherited(t0, t, merges) && TakesOver(t, next, source, target) && source != target
    ensures Inherited(t0, next, merges + [Merged(source, target)])
  {
    hide Succeeds;
    hide HeldInLine;
    hide Occupied;
    forall r, y, slot
      ensures Holds(next, r, y, slot) <==> Succeeds(t0, Line(merges + [Merged(source, target)], y), slot, r)
    {
      LineStep(merges, source, target, y);
      OccupiedInLine(t0, t, merges, target, slot);
      SucceedsJoin(t0, Line(merges, target), Line(merges, source), slot, r);
      NoSuccessor(t0, slot, r);
    }
  }

  lemma NoSuccessor(t: Table, slot: Slot, r: nat)
    ensures !Succeeds(t, [], slot, r)
  {
  }

  // --- ranks ---

  /** The row that succeeds to the slot of row `r0` ranks at least as high. */
  ghost predicate Covered(t: Table, line: seq<Id>, r0: nat) {
    exists w :: CoveredBy(t, line, r0, w)
  }

  ghost predicate CoveredBy(t: Table, line: seq<Id>, r0: nat, w: nat) {
    r0 in t && w in t && Succeeds(t, line, t[r0].slot, w) && RankOf(t[r0].standing).AtMost(RankOf(t[w].standing))
  }

  /** A rank survives exactly when the row that succeeds to its slot ranks at least as high. */
  lemma RankKeptExactly(t0: Table, t: Table, owner: map<Id, Id>, merges: seq<Merged>, r0: nat)
    requires Inherited(t0, t, merges) && r0 in t0
    ensures RankKept(t0, t, owner, r0) <==> Covered(t0, Line(merges, Own(owner, t0[r0].identity)), r0)
  {
    hide Succeeds;
    var y, slot := Own(owner, t0[r0].identity), t0[r0].slot;
    if r1 :| KeepsRank(t0, t, owner, r0, r1) {
      assert CoveredBy(t0, Line(merges, y), r0, r1);
    }
    if w :| CoveredBy(t0, Line(merges, y), r0, w) {
      assert Holds(t, w, y, slot);
      assert KeepsRank(t0, t, owner, r0, w);
    }
  }
}
