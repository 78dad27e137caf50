/** Runs of scripts/merge_duplicate_ref_identities.py in a session without autoflush, which is how the repository
    creates its sessions: the changes of all sources but the last are forgotten. What is left in the lifecycle table,
    exactly. */
module PostponedRuns {
  import opened Lifecycle
  import opened SnapshotMerge
  import opened RefQuotient
  import opened Succession
  import opened Sessions
  import opened MergeDuplicateRefs

  lemma {:induction false} AllLostIs(t: Table, merges: seq<Merged>, r: nat)
    ensures r in AllLost(t, merges)
            <==> exists i :: 0 <= i < |merges| && r in Lost(t, merges[i].source, merges[i].target)
  {
    if merges != [] {
      var last := |merges| - 1;
      AllLostIs(t, merges[..last], r);
      if r in AllLost(t, merges[..last]) {
        var i :| 0 <= i < |merges[..last]| && r in Lost(t, merges[..last][i].source, merges[..last][i].target);
        assert merges[i] == merges[..last][i];
      }
      if i :| 0 <= i < |merges| && r in Lost(t, merges[i].source, merges[i].target) {
        if i < last {
          assert merges[..last][i] == merges[i];
        }
      }
    }
  }

  /** The unit of work that a finished run has committed. */
  lemma Committed(s0: View, s: View, owner: map<Id, Id>, merges: seq<Merged>) returns (u: UnitOfWork)
    requires RunDone(false, s0, s, owner, merges)
    ensures Postponed(s0.rows.stored, u, merges) && s.rows.stored == u.Written() && UniqueSlots(s0.rows.stored)
    ensures Orderly(s.ids, merges) && Sources(merges) == s0.ids - s.ids && Collapse(s0.ids, s.ids, owner)
  {
    u :| Postponed(s0.rows.stored, u, merges) && s.rows.stored == u.Written();
  }

  lemma SourceIndex(merges: seq<Merged>, x: Id) returns (i: nat)
    requires x in Sources(merges)
    ensures i < |merges| && merges[i].source == x
  {
    var m :| m in merges && m.source == x;
    i :| 0 <= i < |merges| && merges[i] == m;
  }

  /** A source is merged once, and the identity that merge `i` takes as its target is another one. */
  lemma MergedOnce(ids0: set<Id>, ids: set<Id>, merges: seq<Merged>, i: nat)
    requires Orderly(ids, merges) && Sources(merges) == ids0 - ids && i < |merges|
    ensures merges[i].source in ids0 && merges[i].source !in ids
    ensures i == |merges| - 1 ==> merges[i].target != merges[i].source
    ensures forall j :: 0 <= j < |merges| && merges[j].source == merges[i].source ==> j == i
  {
    assert merges[i] in merges;
    assert merges[i].source in Sources(merges);
  }

  /** A row that its merge moved to a free slot is not deleted. */
  lemma FreeIsKept(t: Table, u: UnitOfWork, ids0: set<Id>, ids: set<Id>, merges: seq<Merged>, i: nat, r: nat)
    requires Postponed(t, u, merges) && Orderly(ids, merges) && Sources(merges) == ids0 - ids && i < |merges|
    requires FreeToMove(t, r, merges[i].source, merges[i].target)
    ensures r in u.Written()
  {
    AllLostIs(t, merges, r);
    MergedOnce(ids0, ids, merges, i);
  }

  /** A row that is no source's row is not deleted and keeps its identity. */
  lemma OthersKept(t: Table, u: UnitOfWork, merges: seq<Merged>, r: nat)
    requires Postponed(t, u, merges) && r in t && t[r].identity !in Sources(merges)
    ensures r in u.Written() && u.Written()[r].identity == t[r].identity
  {
    AllLostIs(t, merges, r);
    if r in u.Written() {
      WrittenRow(t, u, merges, r);
    }
    if merges != [] {
      assert merges[|merges| - 1] in merges;
    }
  }

  // --- rows left behind ---

  /** Row `r` is left on an identity that the run deleted. */
  ghost predicate Stranded(s0: View, s: View, r: nat) {
    r in s.rows.stored && s.rows.stored[r].identity in s0.ids && s.rows.stored[r].identity !in s.ids
  }

  /** Row `r` belonged to a source that was not the last one, and its target held no row of the same slot. */
  ghost predicate MovedTooEarly(t: Table, merges: seq<Merged>, r: nat) {
    exists i :: 0 <= i < |merges| - 1 && FreeToMove(t, r, merges[i].source, merges[i].target)
  }

  /** A run strands exactly the rows it moved for any source but the last. */
  lemma StrandedExactly(s0: View, s: View, owner: map<Id, Id>, merges: seq<Merged>, r: nat)
    requires RunDone(false, s0, s, owner, merges)
    ensures Stranded(s0, s, r) <==> MovedTooEarly(s0.rows.stored, merges, r)
  {
    var u := Committed(s0, s, owner, merges);
    hide RunDone;
    if Stranded(s0, s, r) {
      StrandedWasEarly(s0, s, merges, u, r);
    }
    if MovedTooEarly(s0.rows.stored, merges, r) {
      EarlyIsStranded(s0, s, merges, u, r);
    }
  }

  lemma EarlyIsStranded(s0: View, s: View, merges: seq<Merged>, u: UnitOfWork, r: nat)
    requires Postponed(s0.rows.stored, u, merges) && s.rows.stored == u.Written()
    requires Orderly(s.ids, merges) && Sources(merges) == s0.ids - s.ids
    requires MovedTooEarly(s0.rows.stored, merges, r)
    ensures Stranded(s0, s, r)
  {
    var t := s0.rows.stored;
    var i :| 0 <= i < |merges| - 1 && FreeToMove(t, r, merges[i].source, merges[i].target);
    FreeIsKept(t, u, s0.ids, s.ids, merges, i, r);
    MergedOnce(s0.ids, s.ids, merges, i);
    WrittenRow(t, u, merges, r);
    hide Postponed;
    hide Orderly;
    hide Sources;
  }

  lemma StrandedWasEarly(s0: View, s: View, merges: seq<Merged>, u: UnitOfWork, r: nat)
    requires Postponed(s0.rows.stored, u, merges) && s.rows.stored == u.Written()
    requires Orderly(s.ids, merges) && Sources(merges) == s0.ids - s.ids
    requires Stranded(s0, s, r)
    ensures MovedTooEarly(s0.rows.stored, merges, r)
  {
    var t := s0.rows.stored;
    WrittenRow(t, u, merges, r);
    AllLostIs(t, merges, r);
    assert t[r].identity in Sources(merges);
    var i := SourceIndex(merges, t[r].identity);
    assert r !in Lost(t, merges[i].source, merges[i].target);
    assert FreeToMove(t, r, merges[i].source, merges[i].target);
    MergedOnce(s0.ids, s.ids, merges, i);
    if i == |merges| - 1 {
      LastArrives(t, u, merges, r);
    }
  }

  /** What the last merge moves to a free slot is written with its new identity. */
  lemma LastArrives(t: Table, u: UnitOfWork, merges: seq<Merged>, r: nat)
    requires Postponed(t, u, merges) && merges != [] && r in u.Written()
    requires FreeToMove(t, r, merges[|merges| - 1].source, merges[|merges| - 1].target)
    requires merges[|merges| - 1].source != merges[|merges| - 1].target
    ensures u.Written()[r].identity == merges[|merges| - 1].target && u.Written()[r].standing == t[r].standing
  {
    var m := merges[|merges| - 1];
    assert PendingRow(t, r, u.dirty[r], m.source, m.target, {});
  }

  // --- columns and ranks ---

  /** Row `w` of the last source beats row `r` of the last target. */
  ghost predicate BeatsInLast(t: Table, merges: seq<Merged>, w: nat, r: nat) {
    merges != [] && r in t && t[r].identity == merges[|merges| - 1].target
    && Holds(t, w, merges[|merges| - 1].source, t[r].slot) && Beats(t[w], t[r])
  }

  /** A surviving row has its own ten columns, unless a row of the last source beats it; then it has that row's. */
  lemma StandingExactly(s0: View, s: View, owner: map<Id, Id>, merges: seq<Merged>, r: nat)
    requires RunDone(false, s0, s, owner, merges) && r in s.rows.stored
    ensures r in s0.rows.stored
    ensures forall w ::
              BeatsInLast(s0.rows.stored, merges, w, r) ==> s.rows.stored[r].standing == s0.rows.stored[w].standing
    ensures (forall w :: !BeatsInLast(s0.rows.stored, merges, w, r))
            ==> s.rows.stored[r].standing == s0.rows.stored[r].standing
  {
    var u := Committed(s0, s, owner, merges);
    if merges != [] {
      MergedOnce(s0.ids, s.ids, merges, |merges| - 1);
    }
    hide RunDone;
    StandingWritten(s0.rows.stored, u, merges, r);
  }

  lemma StandingWritten(t: Table, u: UnitOfWork, merges: seq<Merged>, r: nat)
    requires UniqueSlots(t) && Postponed(t, u, merges) && r in u.Written()
    requires merges != [] ==> merges[|merges| - 1].source != merges[|merges| - 1].target
    ensures r in t
    ensures forall w :: BeatsInLast(t, merges, w, r) ==> u.Written()[r].standing == t[w].standing
    ensures (forall w :: !BeatsInLast(t, merges, w, r)) ==> u.Written()[r].standing == t[r].standing
  {
    if merges != [] {
      var m := merges[|merges| - 1];
      forall w | BeatsInLast(t, merges, w, r)
        ensures u.Written()[r].standing == t[w].standing
      {
        assert BeatenBy(t, r, w, m.source, {});
        assert Beaten(t, r, m.source, m.target, {});
        assert PendingRow(t, r, u.dirty[r], m.source, m.target, {});
      }
      if r in u.dirty && t[r].identity == m.target {
        assert PendingRow(t, r, u.dirty[r], m.source, m.target, {});
        var w :| BeatenBy(t, r, w, m.source, {}) && u.dirty[r] == t[r].(standing := t[w].standing);
        assert BeatsInLast(t, merges, w, r);
      }
    }
  }

  /** The rows that count for the survivor `y`: its own, and those of the last source if that went to `y`. */
  ghost predicate Counts(t: Table, merges: seq<Merged>, y: Id, w: nat) {
    w in t && (t[w].identity == y
               || (merges != [] && merges[|merges| - 1].target == y && merges[|merges| - 1].source == t[w].identity))
  }

  /** A row that counts for the survivor of row `r0` holds its slot and ranks at least as high. */
  ghost predicate Covers(t: Table, merges: seq<Merged>, owner: map<Id, Id>, r0: nat, w: nat) {
    r0 in t && Counts(t, merges, Own(owner, t[r0].identity), w) && t[w].slot == t[r0].slot
    && RankOf(t[r0].standing).AtMost(RankOf(t[w].standing))
  }

  /** A run keeps the rank of a row's slot exactly when the survivor of its identity, or the last source if that went to
      the same survivor, had a row in the slot that ranks at least as high. All other sources' winners are lost. */
  lemma RankKeptExactly(s0: View, s: View, owner: map<Id, Id>, merges: seq<Merged>, r0: nat)
    requires RunDone(false, s0, s, owner, merges) && r0 in s0.rows.stored
    ensures RankKept(s0.rows.stored, s.rows.stored, owner, r0)
            <==> exists w :: Covers(s0.rows.stored, merges, owner, r0, w)
  {
    var t := s0.rows.stored;
    var u := Committed(s0, s, owner, merges);
    hide RunDone;
    if w :| Covers(t, merges, owner, r0, w) {
      var r1 := CoveredIsKept(t, u, s0.ids, s.ids, owner, merges, r0, w);
      assert KeepsRank(t, s.rows.stored, owner, r0, r1);
    }
    if r1 :| KeepsRank(t, s.rows.stored, owner, r0, r1) {
      var w := KeptIsCovered(t, u, s0.ids, s.ids, owner, merges, r0, r1);
      assert Covers(t, merges, owner, r0, w);
    }
  }

  lemma SurvivorIsNoSource(ids0: set<Id>, ids: set<Id>, owner: map<Id, Id>, merges: seq<Merged>, x: Id)
    requires Collapse(ids0, ids, owner) && Sources(merges) == ids0 - ids
    ensures Own(owner, x) !in Sources(merges)
  {
  }

  /** What the survivor's own row ranks after the commit. */
  lemma OwnRowRises(t: Table, u: UnitOfWork, merges: seq<Merged>, w: nat)
    requires UniqueSlots(t) && Postponed(t, u, merges) && w in t && t[w].identity !in Sources(merges)
    requires merges != [] ==> merges[|merges| - 1].source != merges[|merges| - 1].target
    ensures Holds(u.Written(), w, t[w].identity, t[w].slot)
    ensures RankOf(t[w].standing).AtMost(RankOf(u.Written()[w].standing))
    ensures forall v :: BeatsInLast(t, merges, v, w) ==> u.Written()[w].standing == t[v].standing
  {
    OthersKept(t, u, merges, w);
    WrittenRow(t, u, merges, w);
    StandingWritten(t, u, merges, w);
    hide Postponed;
    hide UniqueSlots;
    if v :| BeatsInLast(t, merges, v, w) {
      WinnerOutranks(t[v], t[w]);
    }
  }

  lemma CoveredIsKept(t: Table, u: UnitOfWork, ids0: set<Id>, ids: set<Id>, owner: map<Id, Id>, merges: seq<Merged>,
                      r0: nat, w: nat)
    returns (r1: nat)
    requires UniqueSlots(t) && Postponed(t, u, merges) && Orderly(ids, merges) && Sources(merges) == ids0 - ids
    requires Collapse(ids0, ids, owner) && Covers(t, merges, owner, r0, w)
    ensures KeepsRank(t, u.Written(), owner, r0, r1)
  {
    SurvivorIsNoSource(ids0, ids, owner, merges, t[r0].identity);
    var y := Own(owner, t[r0].identity);
    if merges != [] {
      MergedOnce(ids0, ids, merges, |merges| - 1);
    }
    if t[w].identity == y {
      OwnRowRises(t, u, merges, w);
      AtMostIsTransitive(RankOf(t[r0].standing), RankOf(t[w].standing), RankOf(u.Written()[w].standing));
      r1 := w;
    } else if h :| Holds(t, h, y, t[w].slot) {
      OwnRowRises(t, u, merges, h);
      if Beats(t[w], t[h]) {
        assert BeatsInLast(t, merges, w, h);
      } else {
        WinnerOutranks(t[w], t[h]);
        AtMostIsTransitive(RankOf(t[w].standing), RankOf(t[h].standing), RankOf(u.Written()[h].standing));
      }
      AtMostIsTransitive(RankOf(t[r0].standing), RankOf(t[w].standing), RankOf(u.Written()[h].standing));
      r1 := h;
    } else {
      var m := merges[|merges| - 1];
      assert FreeToMove(t, w, m.source, m.target);
      FreeIsKept(t, u, ids0, ids, merges, |merges| - 1, w);
      LastArrives(t, u, merges, w);
      WrittenRow(t, u, merges, w);
      r1 := w;
    }
  }

  /** Every row after the commit has the columns of a row of its slot that counts for its identity. */
  lemma WrittenFrom(t: Table, u: UnitOfWork, ids0: set<Id>, ids: set<Id>, merges: seq<Merged>, r1: nat) returns (w: nat)
    requires UniqueSlots(t) && Postponed(t, u, merges) && Orderly(ids, merges) && Sources(merges) == ids0 - ids
    requires r1 in u.Written()
    ensures Counts(t, merges, u.Written()[r1].identity, w) && t[w].slot == u.Written()[r1].slot
    ensures t[w].standing == u.Written()[r1].standing
  {
    WrittenRow(t, u, merges, r1);
    if merges != [] {
      MergedOnce(ids0, ids, merges, |merges| - 1);
    }
    StandingWritten(t, u, merges, r1);
    hide Postponed;
    hide UniqueSlots;
    hide Orderly;
    if v :| BeatsInLast(t, merges, v, r1) {
      w := v;
    } else {
      w := r1;
    }
  }

  lemma KeptIsCovered(t: Table, u: UnitOfWork, ids0: set<Id>, ids: set<Id>, owner: map<Id, Id>, merges: seq<Merged>,
                      r0: nat, r1: nat)
    returns (w: nat)
    requires UniqueSlots(t) && Postponed(t, u, merges) && Orderly(ids, merges) && Sources(merges) == ids0 - ids
    requires KeepsRank(t, u.Written(), owner, r0, r1)
    ensures Covers(t, merges, owner, r0, w)
  {
    w := WrittenFrom(t, u, ids0, ids, merges, r1);
  }

  // --- two runs ---

  ghost predicate AllRanksKept(t: Table, after: Table, owner: map<Id, Id>) {
    forall r0 {:trigger RankKept(t, after, owner, r0)} :: r0 in t ==> RankKept(t, after, owner, r0)
  }

  /** A row after the run has the columns of a row that an identity linked to its own had in its slot. */
  lemma ColumnsAreLinked(s0: View, s: View, owner: map<Id, Id>, merges: seq<Merged>, x: Id, r1: nat) returns (w: nat)
    requires RunDone(false, s0, s, owner, merges) && x in s0.ids && x in owner
    requires r1 in s.rows.stored && s.rows.stored[r1].identity == owner[x]
    ensures w in s0.rows.stored && s0.rows.stored[w].identity in s0.ids
    ensures Linked(s0.refs, s0.ids, x, s0.rows.stored[w].identity)
    ensures s0.rows.stored[w].slot == s.rows.stored[r1].slot
    ensures s0.rows.stored[w].standing == s.rows.stored[r1].standing
  {
    var u := Committed(s0, s, owner, merges);
    hide RunDone;
    hide Linked;
    w := WrittenFrom(s0.rows.stored, u, s0.ids, s.ids, merges, r1);
    CountedIsLinked(s0, s, owner, merges, x, w);
  }

  /** What a run leaves in a slot of `x` ranks no higher than what another run leaves there, if that run keeps ranks. */
  lemma NoHigherThanKept(s0: View, a: View, b: View, ownerA: map<Id, Id>, ownerB: map<Id, Id>, mergesA: seq<Merged>,
                         mergesB: seq<Merged>, x: Id, ra: nat, rb: nat)
    requires RunDone(false, s0, a, ownerA, mergesA) && RunDone(false, s0, b, ownerB, mergesB) && x in s0.ids
    requires x in ownerA && x in ownerB && AllRanksKept(s0.rows.stored, b.rows.stored, ownerB)
    requires ra in a.rows.stored && a.rows.stored[ra].identity == ownerA[x]
    requires Holds(b.rows.stored, rb, ownerB[x], a.rows.stored[ra].slot)
    ensures RankOf(a.rows.stored[ra].standing).AtMost(RankOf(b.rows.stored[rb].standing))
  {
    hide Linked;
    hide RankKept;
    UniqueAfter(s0, b, ownerB, mergesB);
    RunFacts(s0, b, ownerB, mergesB);
    hide RunDone;
    var w := ColumnsAreLinked(s0, a, ownerA, mergesA, x, ra);
    OneSurvivorIsLinked(s0, b, ownerB, mergesB, x, s0.rows.stored[w].identity);
    assert RankKept(s0.rows.stored, b.rows.stored, ownerB, w);
    KeptInSlot(s0.rows.stored, b.rows.stored, ownerB, w, rb);
  }

  lemma UniqueAfter(s0: View, s: View, owner: map<Id, Id>, merges: seq<Merged>)
    requires RunDone(false, s0, s, owner, merges)
    ensures UniqueSlots(s.rows.stored)
  {
  }

  lemma KeptInSlot(t: Table, after: Table, owner: map<Id, Id>, r0: nat, r1: nat)
    requires RankKept(t, after, owner, r0) && UniqueSlots(after) && r0 in t
    requires Holds(after, r1, Own(owner, t[r0].identity), t[r0].slot)
    ensures RankOf(t[r0].standing).AtMost(RankOf(after[r1].standing))
  {
    var r :| KeepsRank(t, after, owner, r0, r);
    assert r == r1;
  }

  lemma CountedIsLinked(s0: View, s: View, owner: map<Id, Id>, merges: seq<Merged>, x: Id, w: nat)
    requires RunDone(false, s0, s, owner, merges) && x in s0.ids && x in owner
    requires Counts(s0.rows.stored, merges, owner[x], w)
    ensures s0.rows.stored[w].identity in s0.ids && Linked(s0.refs, s0.ids, x, s0.rows.stored[w].identity)
  {
    RunFacts(s0, s, owner, merges);
    hide RunDone;
    hide Linked;
    if merges != [] {
      assert merges[|merges| - 1] in merges;
    }
    OneSurvivorIsLinked(s0, s, owner, merges, x, s0.rows.stored[w].identity);
  }

  // --- what can be told before the run ---

  /** How the executed merges, the survivors and the identities hang together. */
  lemma RunFacts(s0: View, s: View, owner: map<Id, Id>, merges: seq<Merged>)
    requires RunDone(false, s0, s, owner, merges)
    ensures Collapse(s0.ids, s.ids, owner) && Orderly(s.ids, merges) && Sources(merges) == s0.ids - s.ids
    ensures Joined(s0.ids, owner, merges) && Climbs(s0.rows.stored, s0.created, owner)
  {
  }

  lemma OneSurvivorIsLinked(s0: View, s: View, owner: map<Id, Id>, merges: seq<Merged>, x: Id, y: Id)
    requires RunDone(false, s0, s, owner, merges) && x in s0.ids && y in s0.ids && owner.Keys == s0.ids
    ensures owner[x] == owner[y] <==> Linked(s0.refs, s0.ids, x, y)
  {
  }

  /** Both ends of an executed merge exist and are linked in the tables before the run. */
  lemma MergedAreLinked(s0: View, s: View, owner: map<Id, Id>, merges: seq<Merged>, i: nat)
    requires RunDone(false, s0, s, owner, merges) && i < |merges|
    ensures merges[i].source in s0.ids && merges[i].target in s0.ids
    ensures Linked(s0.refs, s0.ids, merges[i].source, merges[i].target)
  {
    RunFacts(s0, s, owner, merges);
    assert merges[i] in merges;
    OneSurvivorIsLinked(s0, s, owner, merges, merges[i].source, merges[i].target);
  }

  /** At most one identity is surplus: any two links between different identities are one link. */
  ghost predicate OneSurplus(refs: RefTable, ids: set<Id>) {
    forall x, y, v, w :: Surplus(refs, ids, x, y) && Surplus(refs, ids, v, w) ==> {x, y} == {v, w}
  }

  ghost predicate Surplus(refs: RefTable, ids: set<Id>, x: Id, y: Id) {
    x in ids && y in ids && x != y && Linked(refs, ids, x, y)
  }

  /** Linked identities have rows in the same slots. */
  ghost predicate SameSlots(t: Table, refs: RefTable, ids: set<Id>) {
    forall r, x :: r in t && Surplus(refs, ids, t[r].identity, x) ==> Occupied(t, x, t[r].slot)
  }

  lemma SourceHasSurvivor(s0: View, s: View, owner: map<Id, Id>, merges: seq<Merged>, i: nat)
    requires RunDone(false, s0, s, owner, merges) && i < |merges|
    ensures Surplus(s0.refs, s0.ids, merges[i].source, Own(owner, merges[i].source))
    ensures Own(owner, merges[i].source) in s.ids && merges[i].source !in s.ids
  {
    hide Linked;
    RunFacts(s0, s, owner, merges);
    MergedOnce(s0.ids, s.ids, merges, i);
    var x := merges[i].source;
    OneSurvivorIsLinked(s0, s, owner, merges, x, owner[x]);
  }

  lemma OneSurplusOneMerge(s0: View, s: View, owner: map<Id, Id>, merges: seq<Merged>)
    requires RunDone(false, s0, s, owner, merges) && OneSurplus(s0.refs, s0.ids)
    ensures |merges| <= 1
  {
    hide RunDone;
    hide Linked;
    RunFacts(s0, s, owner, merges);
    if |merges| >= 2 {
      SourceHasSurvivor(s0, s, owner, merges, 0);
      SourceHasSurvivor(s0, s, owner, merges, 1);
      MergedOnce(s0.ids, s.ids, merges, 0);
      TwoSurplus(s0.refs, s0.ids, merges[0].source, Own(owner, merges[0].source), merges[1].source,
                 Own(owner, merges[1].source));
    }
  }

  /** No run strands a row when at most one identity is surplus. */
  lemma OneSurplusStrandsNone(s0: View, s: View, owner: map<Id, Id>, merges: seq<Merged>, r: nat)
    requires RunDone(false, s0, s, owner, merges) && OneSurplus(s0.refs, s0.ids)
    ensures !Stranded(s0, s, r)
  {
    hide RunDone;
    hide Stranded;
    StrandedExactly(s0, s, owner, merges, r);
    OneSurplusOneMerge(s0, s, owner, merges);
  }

  /** And then every slot keeps its rank. */
  lemma OneSurplusKeepsRanks(s0: View, s: View, owner: map<Id, Id>, merges: seq<Merged>, r0: nat)
    requires RunDone(false, s0, s, owner, merges) && OneSurplus(s0.refs, s0.ids) && r0 in s0.rows.stored
    ensures RankKept(s0.rows.stored, s.rows.stored, owner, r0)
  {
    hide RunDone;
    hide RankKept;
    hide Climbs;
    RunFacts(s0, s, owner, merges);
    OneSurplusOneMerge(s0, s, owner, merges);
    RankKeptExactly(s0, s, owner, merges, r0);
    var x := s0.rows.stored[r0].identity;
    if x in s.ids || x !in s0.ids {
      assert Own(owner, x) == x;
    } else {
      var i := SourceIndex(merges, x);
      assert merges[i] in merges && Own(owner, merges[i].target) == merges[i].target;
    }
    assert Covers(s0.rows.stored, merges, owner, r0, r0);
  }

  lemma OneSurplusKeepsAll(s0: View, s: View, owner: map<Id, Id>, merges: seq<Merged>)
    requires RunDone(false, s0, s, owner, merges) && OneSurplus(s0.refs, s0.ids)
    ensures AllRanksKept(s0.rows.stored, s.rows.stored, owner)
  {
    hide RunDone;
    hide RankKept;
    hide OneSurplus;
    forall r0 | r0 in s0.rows.stored
      ensures RankKept(s0.rows.stored, s.rows.stored, owner, r0)
    {
      OneSurplusKeepsRanks(s0, s, owner, merges, r0);
    }
  }

  /** Two runs over such tables give every component the same rank in every slot. */
  lemma OneSurplusRunsAgree(s0: View, a: View, b: View, ownerA: map<Id, Id>, ownerB: map<Id, Id>, mergesA: seq<Merged>,
                            mergesB: seq<Merged>, x: Id, ra: nat, rb: nat)
    requires RunDone(false, s0, a, ownerA, mergesA) && RunDone(false, s0, b, ownerB, mergesB) && x in s0.ids
    requires OneSurplus(s0.refs, s0.ids) && x in ownerA && x in ownerB
    requires ra in a.rows.stored && a.rows.stored[ra].identity == ownerA[x]
    requires Holds(b.rows.stored, rb, ownerB[x], a.rows.stored[ra].slot)
    ensures RankOf(a.rows.stored[ra].standing) == RankOf(b.rows.stored[rb].standing)
  {
    hide RunDone;
    hide OneSurplus;
    OneSurplusKeepsAll(s0, a, ownerA, mergesA);
    OneSurplusKeepsAll(s0, b, ownerB, mergesB);
    hide AllRanksKept;
    NoHigherThanKept(s0, a, b, ownerA, ownerB, mergesA, mergesB, x, ra, rb);
    NoHigherThanKept(s0, b, a, ownerB, ownerA, mergesB, mergesA, x, rb, ra);
    AtMostIsAntisymmetric(RankOf(a.rows.stored[ra].standing), RankOf(b.rows.stored[rb].standing));
  }

  lemma TwoSurplus(refs: RefTable, ids: set<Id>, x: Id, y: Id, v: Id, w: Id)
    requires OneSurplus(refs, ids) && Surplus(refs, ids, x, y) && Surplus(refs, ids, v, w)
    ensures v == x || v == y
  {
    assert {x, y} == {v, w};
  }

  /** Nor does one when linked identities have rows in the same slots. */
  lemma SameSlotsStrandNone(s0: View, s: View, owner: map<Id, Id>, merges: seq<Merged>, r: nat)
    requires RunDone(false, s0, s, owner, merges) && SameSlots(s0.rows.stored, s0.refs, s0.ids)
    ensures !Stranded(s0, s, r)
  {
    hide RunDone;
    hide Linked;
    hide Stranded;
    StrandedExactly(s0, s, owner, merges, r);
    RunFacts(s0, s, owner, merges);
    if MovedTooEarly(s0.rows.stored, merges, r) {
      var i :| 0 <= i < |merges| - 1 && FreeToMove(s0.rows.stored, r, merges[i].source, merges[i].target);
      LaterTarget(s.ids, merges, i);
      MergedAreLinked(s0, s, owner, merges, i);
    }
  }

  lemma LaterTarget(ids: set<Id>, merges: seq<Merged>, i: nat)
    requires Orderly(ids, merges) && i < |merges|
    ensures merges[i].target != merges[i].source
  {
  }

  /** No linked identity has a row in the slot of row `r`. */
  ghost predicate Private(t: Table, refs: RefTable, ids: set<Id>, r: nat) {
    r in t && t[r].identity in ids && forall x :: Surplus(refs, ids, t[r].identity, x) ==> !Occupied(t, x, t[r].slot)
  }

  /** Every linked identity is a worse target than `y`. */
  ghost predicate Best(s0: View, y: Id) {
    y in s0.ids && forall x :: Surplus(s0.refs, s0.ids, y, x) ==> !NoBetter(s0.rows.stored, s0.created, y, x)
  }

  /** The best of the identities linked to row `r0` has a row in its slot that ranks at least as high. */
  ghost predicate BestCovers(s0: View, r0: nat, y: Id, w: nat) {
    r0 in s0.rows.stored && Best(s0, y) && Linked(s0.refs, s0.ids, y, s0.rows.stored[r0].identity)
    && Holds(s0.rows.stored, w, y, s0.rows.stored[r0].slot)
    && RankOf(s0.rows.stored[r0].standing).AtMost(RankOf(s0.rows.stored[w].standing))
  }

  /** The best of its component survives. */
  lemma BestSurvives(s0: View, s: View, owner: map<Id, Id>, merges: seq<Merged>, y: Id)
    requires RunDone(false, s0, s, owner, merges) && Best(s0, y)
    ensures y in owner && owner[y] == y
  {
    RunFacts(s0, s, owner, merges);
    var x := owner[y];
    OneSurvivorIsLinked(s0, s, owner, merges, y, x);
    hide RunDone;
    hide Linked;
    assert x == y || Surplus(s0.refs, s0.ids, y, x);
  }

  /** No run loses the rank of a row that the best identity of its component covers. */
  lemma BestKeepsRank(s0: View, s: View, owner: map<Id, Id>, merges: seq<Merged>, r0: nat, y: Id, w: nat)
    requires RunDone(false, s0, s, owner, merges) && BestCovers(s0, r0, y, w)
    requires s0.rows.stored[r0].identity in s0.ids
    ensures RankKept(s0.rows.stored, s.rows.stored, owner, r0)
  {
    var t := s0.rows.stored;
    BestSurvives(s0, s, owner, merges, y);
    RunFacts(s0, s, owner, merges);
    OneSurvivorIsLinked(s0, s, owner, merges, y, t[r0].identity);
    RankKeptExactly(s0, s, owner, merges, r0);
    hide RunDone;
    hide Linked;
    hide RankKept;
    assert Covers(t, merges, owner, r0, w);
  }

  /** So a run loses no rank when the best identity of every component covers all its slots. */
  lemma BestKeepsAllRanks(s0: View, s: View, owner: map<Id, Id>, merges: seq<Merged>)
    requires RunDone(false, s0, s, owner, merges)
    requires forall r0 :: r0 in s0.rows.stored && s0.rows.stored[r0].identity in s0.ids
                          ==> exists y, w :: BestCovers(s0, r0, y, w)
    ensures AllRanksKept(s0.rows.stored, s.rows.stored, owner)
  {
    var t := s0.rows.stored;
    forall r0 | r0 in t
      ensures RankKept(t, s.rows.stored, owner, r0)
    {
      if t[r0].identity in s0.ids {
        var y, w :| BestCovers(s0, r0, y, w);
        BestKeepsRank(s0, s, owner, merges, r0, y, w);
      } else {
        UnknownKeepsRank(s0, s, owner, merges, r0);
      }
    }
  }

  lemma UnknownKeepsRank(s0: View, s: View, owner: map<Id, Id>, merges: seq<Merged>, r0: nat)
    requires RunDone(false, s0, s, owner, merges) && r0 in s0.rows.stored
    requires s0.rows.stored[r0].identity !in s0.ids
    ensures RankKept(s0.rows.stored, s.rows.stored, owner, r0)
  {
    RunFacts(s0, s, owner, merges);
    RankKeptExactly(s0, s, owner, merges, r0);
    hide RunDone;
    hide RankKept;
    assert Covers(s0.rows.stored, merges, owner, r0, r0);
  }

  /** A linked identity is the better target: more rows, or as many and a later CREATED_AT. */
  ghost predicate Outranked(s0: View, x: Id) {
    exists y :: Surplus(s0.refs, s0.ids, x, y) && !NoBetter(s0.rows.stored, s0.created, y, x)
  }

  /** An outranked identity does not survive. */
  lemma OutrankedIsMerged(s0: View, s: View, owner: map<Id, Id>, merges: seq<Merged>, x: Id) returns (i: nat)
    requires RunDone(false, s0, s, owner, merges) && Outranked(s0, x)
    ensures i < |merges| && merges[i].source == x && Surplus(s0.refs, s0.ids, x, merges[i].target)
  {
    hide RunDone;
    hide Linked;
    hide NoBetter;
    var y :| Surplus(s0.refs, s0.ids, x, y) && !NoBetter(s0.rows.stored, s0.created, y, x);
    RunFacts(s0, s, owner, merges);
    OneSurvivorIsLinked(s0, s, owner, merges, x, y);
    assert NoBetter(s0.rows.stored, s0.created, y, owner[y]);
    i := SourceIndex(merges, x);
    MergedAreLinked(s0, s, owner, merges, i);
    LaterTarget(s.ids, merges, i);
  }

  /** Every run strands one of two rows that are private to different outranked identities: only one of these can be the
      last source. */
  lemma TwoPrivateRowsStrand(s0: View, s: View, owner: map<Id, Id>, merges: seq<Merged>, a: nat, b: nat)
    requires RunDone(false, s0, s, owner, merges)
    requires Private(s0.rows.stored, s0.refs, s0.ids, a) && Private(s0.rows.stored, s0.refs, s0.ids, b)
    requires Outranked(s0, s0.rows.stored[a].identity) && Outranked(s0, s0.rows.stored[b].identity)
    requires s0.rows.stored[a].identity != s0.rows.stored[b].identity
    ensures Stranded(s0, s, a) || Stranded(s0, s, b)
  {
    var i := OutrankedIsMerged(s0, s, owner, merges, s0.rows.stored[a].identity);
    var j := OutrankedIsMerged(s0, s, owner, merges, s0.rows.stored[b].identity);
    StrandedExactly(s0, s, owner, merges, a);
    StrandedExactly(s0, s, owner, merges, b);
    hide RunDone;
    hide Stranded;
    hide Outranked;
    hide Surplus;
    assert FreeToMove(s0.rows.stored, a, merges[i].source, merges[i].target);
    assert FreeToMove(s0.rows.stored, b, merges[j].source, merges[j].target);
  }

  /** Row `r` ranks above every row that linked identities have in its slot. */
  ghost predicate Unmatched(t: Table, refs: RefTable, ids: set<Id>, r: nat) {
    r in t && t[r].identity in ids
    && forall w :: w in t && t[w].slot == t[r].slot && Surplus(refs, ids, t[r].identity, t[w].identity)
                   ==> !RankOf(t[r].standing).AtMost(RankOf(t[w].standing))
  }

  /** The rank of an unmatched row of an outranked identity is lost unless that identity is the last source. */
  lemma LostUnlessLast(s0: View, s: View, owner: map<Id, Id>, merges: seq<Merged>, r: nat)
    requires RunDone(false, s0, s, owner, merges) && Unmatched(s0.rows.stored, s0.refs, s0.ids, r)
    requires Outranked(s0, s0.rows.stored[r].identity)
    ensures merges != []
    ensures merges[|merges| - 1].source != s0.rows.stored[r].identity
            ==> !RankKept(s0.rows.stored, s.rows.stored, owner, r)
  {
    hide RunDone;
    hide RankKept;
    hide Linked;
    var t, x := s0.rows.stored, s0.rows.stored[r].identity;
    var i := OutrankedIsMerged(s0, s, owner, merges, x);
    SourceHasSurvivor(s0, s, owner, merges, i);
    RankKeptExactly(s0, s, owner, merges, r);
    RunFacts(s0, s, owner, merges);
    if w :| Covers(t, merges, owner, r, w) {
      CoveredByLinked(s0, s, owner, merges, r, w);
    }
  }

  lemma CoveredByLinked(s0: View, s: View, owner: map<Id, Id>, merges: seq<Merged>, r: nat, w: nat)
    requires RunDone(false, s0, s, owner, merges) && Covers(s0.rows.stored, merges, owner, r, w)
    requires s0.rows.stored[r].identity in s0.ids - s.ids
    ensures s0.rows.stored[w].identity != s0.rows.stored[r].identity
            ==> Surplus(s0.refs, s0.ids, s0.rows.stored[r].identity, s0.rows.stored[w].identity)
    ensures s0.rows.stored[w].identity == s0.rows.stored[r].identity
            ==> merges != [] && merges[|merges| - 1].source == s0.rows.stored[r].identity
  {
    hide RunDone;
    hide Linked;
    hide Climbs;
    RunFacts(s0, s, owner, merges);
    var x, v := s0.rows.stored[r].identity, s0.rows.stored[w].identity;
    if merges != [] {
      assert merges[|merges| - 1] in merges;
    }
    if v in s0.ids {
      OneSurvivorIsLinked(s0, s, owner, merges, x, v);
    }
  }

  /** Every run loses the rank of one of two unmatched rows of different outranked identities. */
  lemma TwoUnmatchedRowsLoseRank(s0: View, s: View, owner: map<Id, Id>, merges: seq<Merged>, a: nat, b: nat)
    requires RunDone(false, s0, s, owner, merges)
    requires Unmatched(s0.rows.stored, s0.refs, s0.ids, a) && Unmatched(s0.rows.stored, s0.refs, s0.ids, b)
    requires Outranked(s0, s0.rows.stored[a].identity) && Outranked(s0, s0.rows.stored[b].identity)
    requires s0.rows.stored[a].identity != s0.rows.stored[b].identity
    ensures !RankKept(s0.rows.stored, s.rows.stored, owner, a) || !RankKept(s0.rows.stored, s.rows.stored, owner, b)
  {
    hide RunDone;
    hide RankKept;
    hide Outranked;
    LostUnlessLast(s0, s, owner, merges, a);
    LostUnlessLast(s0, s, owner, merges, b);
  }

  // --- a single group ---

  /** Row `r` belongs to a member between the first and the last, and the first has no row of its slot. */
  ghost predicate LeftBehind(t: Table, order: seq<Id>, r: nat) {
    exists i :: 0 < i < |order| - 1 && FreeToMove(t, r, order[i], order[0])
  }

  lemma LeftBehindIsEarly(t: Table, order: seq<Id>, r: nat)
    requires order != []
    ensures MovedTooEarly(t, Fan(order), r) <==> LeftBehind(t, order, r)
  {
    hide FreeToMove;
    var merges := Fan(order);
    if MovedTooEarly(t, merges, r) {
      var i :| 0 <= i < |merges| - 1 && FreeToMove(t, r, merges[i].source, merges[i].target);
      assert FreeToMove(t, r, order[i + 1], order[0]);
    }
    if LeftBehind(t, order, r) {
      var i :| 0 < i < |order| - 1 && FreeToMove(t, r, order[i], order[0]);
      var j := i - 1;
      assert merges[j] == Merged(order[i], order[0]);
    }
  }

  /** When one pair is shared and its members are merged in the order `order`, exactly the rows left behind are
      stranded. */
  lemma OneGroupStrandsExactly(s0: View, s: View, owner: map<Id, Id>, merges: seq<Merged>, order: seq<Id>, r: nat)
    requires RunDone(false, s0, s, owner, merges) && order != [] && merges == Fan(order)
    ensures Stranded(s0, s, r) <==> LeftBehind(s0.rows.stored, order, r)
  {
    hide RunDone;
    hide Stranded;
    hide MovedTooEarly;
    hide LeftBehind;
    StrandedExactly(s0, s, owner, merges, r);
    LeftBehindIsEarly(s0.rows.stored, order, r);
  }

  /** And the ranks kept are those that the first or the last member covers. */
  lemma OneGroupKeepsRankExactly(s0: View, s: View, owner: map<Id, Id>, merges: seq<Merged>, order: seq<Id>, r0: nat)
    requires RunDone(false, s0, s, owner, merges) && order != [] && merges == Fan(order)
    requires r0 in s0.rows.stored && s0.rows.stored[r0].identity in order
    ensures RankKept(s0.rows.stored, s.rows.stored, owner, r0)
            <==> exists w :: InGroupCovers(s0.rows.stored, order, r0, w)
  {
    hide RunDone;
    hide RankKept;
    RankKeptExactly(s0, s, owner, merges, r0);
    FirstSurvives(s0, s, owner, merges, order, s0.rows.stored[r0].identity);
    var t := s0.rows.stored;
    forall w
      ensures Covers(t, merges, owner, r0, w) <==> InGroupCovers(t, order, r0, w)
    {
      assert |order| > 1 ==> merges[|merges| - 1] == Merged(order[|order| - 1], order[0]);
    }
  }

  /** Row `w` of the first or the last member holds the slot of row `r0` and ranks at least as high. */
  ghost predicate InGroupCovers(t: Table, order: seq<Id>, r0: nat, w: nat)
    requires order != []
  {
    r0 in t && w in t && t[w].identity in {order[0], order[|order| - 1]} && t[w].slot == t[r0].slot
    && RankOf(t[r0].standing).AtMost(RankOf(t[w].standing))
  }

  lemma FanShape(order: seq<Id>, x: Id)
    requires order != [] && x in order
    ensures if |order| == 1 then Fan(order) == []
            else Fan(order) != [] && Fan(order)[|Fan(order)| - 1].target == order[0]
    ensures x == order[0] || Merged(x, order[0]) in Fan(order)
  {
    var i :| 0 <= i < |order| && order[i] == x;
    if i > 0 {
      assert Fan(order)[i - 1] == Merged(x, order[0]);
    }
  }

  lemma FirstSurvives(s0: View, s: View, owner: map<Id, Id>, merges: seq<Merged>, order: seq<Id>, x: Id)
    requires RunDone(false, s0, s, owner, merges) && order != [] && merges == Fan(order) && x in order
    ensures Own(owner, x) == order[0]
  {
    hide RunDone;
    hide Climbs;
    RunFacts(s0, s, owner, merges);
    FanShape(order, x);
    hide Fan;
    if merges == [] {
      assert Sources(merges) == {};
      assert x in owner ==> x !in s0.ids - s.ids;
    } else {
      hide Sources;
      assert Own(owner, order[0]) == order[0];
    }
  }
}
