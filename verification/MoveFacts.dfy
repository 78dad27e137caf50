/** What one executed move of an identity keeps, loses and breaks, in terms of the tables before and after it. */
module MoveFacts {
  import opened Wrappers
  import opened Lifecycle
  import opened SnapshotMerge
  import opened RefQuotient
  import opened Sessions
  import opened Titles
  import opened Consolidate

  /** No table mentions the source any more. */
  lemma NoTraceOfSource(autoflush: bool, s: View, next: View, source: Id, target: Id)
    requires Moved(autoflush, s, next, source, target) && source != target
    ensures source !in Mentioned(next)
  {
    MoveOwners(s.rows.stored, next.rows.stored, source, target, autoflush);
    forall k | k in next.owned
      ensures k.table in ALL_TABLES
    {
      match k.table {
        case DownloadHistory => case TransferHistory => case SearchResults => case LifecycleEvents =>
        case MovieSubscriptions => case TvSubscriptions => case SubscriptionEpisodes => case SubscriptionHistory =>
      }
    }
    assert forall r :: r in next.refs ==> next.refs[r].identity != source;
  }

  function TripleOf(ref: ExternalRef): (string, string, string) {
    (ref.provider, ref.externalId, ref.scope)
  }

  function Triples(refs: RefTable): set<(string, string, string)> {
    set r | r in refs :: TripleOf(refs[r])
  }

  /** The (provider, external id, scope) triples stay the same set. */
  lemma TriplesStay(autoflush: bool, s: View, next: View, source: Id, target: Id)
    requires Moved(autoflush, s, next, source, target)
    ensures Triples(next.refs) == Triples(s.refs)
  {
    forall x | x in Triples(s.refs)
      ensures x in Triples(next.refs)
    {
      var r :| r in s.refs && TripleOf(s.refs[r]) == x;
      assert TripleKept(s.refs, next.refs, map[source := target], r);
      var r1 :| StandsFor(next.refs, r1, s.refs[r], Own(map[source := target], s.refs[r].identity));
      assert TripleOf(next.refs[r1]) == x;
    }
    forall x | x in Triples(next.refs)
      ensures x in Triples(s.refs)
    {
      var r :| r in next.refs && TripleOf(next.refs[r]) == x;
      assert TripleOf(s.refs[r]) == x;
    }
  }

  // --- the media type of a reference ---

  predicate SameQuad(a: ExternalRef, b: ExternalRef) {
    SameTriple(a, b) && a.mediaType == b.mediaType
  }

  /** The unique key UQ_MEDIA_EXTERNAL_REF, which includes the media type. */
  ghost predicate UniqueQuads(refs: RefTable) {
    forall a, b :: a in refs && b in refs && SameQuad(refs[a], refs[b]) ==> a == b
  }

  ghost predicate QuadKept(after: RefTable, ref: ExternalRef) {
    exists r :: r in after && SameQuad(after[r], ref)
  }

  /** Two references that are to become the target's agree on the triple but not on the media type. */
  ghost predicate TypesClash(refs: RefTable, source: Id, target: Id, r: nat, q: nat) {
    r in refs && q in refs && refs[r].identity == source && refs[q].identity in {source, target}
    && SameTriple(refs[r], refs[q]) && refs[r].mediaType != refs[q].mediaType
  }

  lemma DeletedQuadIsLost(before: RefTable, after: RefTable, owner: map<Id, Id>, r: nat)
    requires RefImage(before, after, owner) && UniqueQuads(before) && r in before && r !in after
    ensures !QuadKept(after, before[r])
  {
  }

  lemma WithoutClashKept(before: RefTable, after: RefTable, source: Id, target: Id, r: nat)
    requires RefImage(before, after, map[source := target]) && r in before
    requires MovedOnce(before, after, source, target)
    requires forall q :: !TypesClash(before, source, target, r, q)
    ensures QuadKept(after, before[r])
  {
    if r in after {
      assert SameQuad(after[r], before[r]);
    } else {
      assert TripleKept(before, after, map[source := target], r);
      var q :| StandsFor(after, q, before[r], Own(map[source := target], before[r].identity));
      assert !TypesClash(before, source, target, r, q);
      assert before[r].identity == source;
      assert SameQuad(after[q], before[r]);
    }
  }

  lemma ClashLoses(before: RefTable, after: RefTable, source: Id, target: Id, r: nat, q: nat) returns (lost: nat)
    requires RefImage(before, after, map[source := target]) && MovedOnce(before, after, source, target)
    requires UniqueQuads(before) && TypesClash(before, source, target, r, q)
    ensures lost in before && !QuadKept(after, before[lost])
  {
    lost := if r in after then q else r;
    DeletedQuadIsLost(before, after, map[source := target], lost);
  }

  /** A move keeps every (provider, external id, scope, media type) exactly when no two references that end up with the
      target share a triple under different media types: the script compares the triple only. */
  lemma MediaTypesKeptExactly(before: RefTable, after: RefTable, source: Id, target: Id)
    requires RefImage(before, after, map[source := target]) && MovedOnce(before, after, source, target)
    requires UniqueQuads(before)
    ensures (forall r :: r in before ==> QuadKept(after, before[r]))
            <==> forall r, q :: !TypesClash(before, source, target, r, q)
  {
    hide RefImage;
    hide MovedOnce;
    hide UniqueQuads;
    hide TypesClash;
    hide QuadKept;
    if forall r, q :: !TypesClash(before, source, target, r, q) {
      forall r | r in before
        ensures QuadKept(after, before[r])
      {
        WithoutClashKept(before, after, source, target, r);
      }
    }
    if r, q :| TypesClash(before, source, target, r, q) {
      var lost := ClashLoses(before, after, source, target, r, q);
    }
  }

  /** Two references that differ in the media type only: the move drops the source's. */
  lemma MediaTypeExample(refs: RefTable, source: Id, target: Id)
    requires source != target && refs.Keys == {1, 2} && SameTriple(refs[1], refs[2])
    requires refs[1].identity == source && refs[1].mediaType == Some("tv")
    requires refs[2].identity == target && refs[2].mediaType == Some("movie")
    ensures UniqueQuads(refs) && TypesClash(refs, source, target, 1, 2)
    ensures RefImage(refs, refs - {1}, map[source := target]) && MovedOnce(refs, refs - {1}, source, target)
    ensures !QuadKept(refs - {1}, refs[1])
  {
    var after, owner := refs - {1}, map[source := target];
    assert "tv"[0] == 't' && "movie"[0] == 'm';
    forall r | r in refs
      ensures TripleKept(refs, after, owner, r)
    {
      assert StandsFor(after, 2, refs[r], Own(owner, refs[r].identity));
    }
  }

  // --- references to existing identities ---

  ghost predicate BreaksOwned(s: View, next: View, k: OwnedKey) {
    k in s.owned && k in next.owned && s.owned[k].identity.Some? && next.owned[k].identity.Some?
    && s.owned[k].identity.value in s.ids && next.owned[k].identity.value !in next.ids
  }

  ghost predicate BreaksRef(s: View, next: View, r: nat) {
    r in s.refs && r in next.refs && s.refs[r].identity in s.ids && next.refs[r].identity !in next.ids
  }

  ghost predicate BreaksSnapshot(s: View, next: View, r: nat) {
    r in s.rows.stored && r in next.rows.stored
    && s.rows.stored[r].identity in s.ids && next.rows.stored[r].identity !in next.ids
  }

  ghost predicate BreaksSomething(s: View, next: View) {
    (exists k :: BreaksOwned(s, next, k)) || (exists r :: BreaksRef(s, next, r))
    || (exists r :: BreaksSnapshot(s, next, r))
  }

  ghost predicate RefMoves(s: View, source: Id, target: Id, r: nat) {
    r in s.refs && s.refs[r].identity == source && !HoldsTriple(s.refs, target, s.refs[r])
  }

  ghost predicate SnapshotMoves(s: View, source: Id, target: Id, r: nat) {
    r in s.rows.stored && s.rows.stored[r].identity == source && !Occupied(s.rows.stored, target, s.rows.stored[r].slot)
  }

  ghost predicate OwnedMoves(s: View, source: Id, k: OwnedKey) {
    k in s.owned && s.owned[k].identity == Some(source)
  }

  /** Some row of the source survives under the target's name. */
  ghost predicate SomethingMoves(s: View, source: Id, target: Id) {
    (exists k :: OwnedMoves(s, source, k)) || (exists r :: RefMoves(s, source, target, r))
    || (exists r :: SnapshotMoves(s, source, target, r))
  }

  lemma MovedRefSurvives(s: View, next: View, source: Id, target: Id, r: nat)
    requires RefImage(s.refs, next.refs, map[source := target]) && RefMoves(s, source, target, r)
    ensures exists q :: q in next.refs && s.refs[q].identity == source && next.refs[q].identity == target
  {
    assert TripleKept(s.refs, next.refs, map[source := target], r);
    var q :| StandsFor(next.refs, q, s.refs[r], target);
  }

  lemma MovedSnapshotSurvives(autoflush: bool, s: View, next: View, source: Id, target: Id, r: nat)
    requires Image(s.rows.stored, next.rows.stored, RowOwners(s.rows.stored, map[source := target]), autoflush)
    requires SnapshotMoves(s, source, target, r)
    ensures exists q ::
              q in next.rows.stored && s.rows.stored[q].identity == source && next.rows.stored[q].identity == target
  {
    var t, owner := s.rows.stored, RowOwners(s.rows.stored, map[source := target]);
    assert Answered(t, next.rows.stored, owner, autoflush, r);
    var q :| Answers(t, next.rows.stored, owner, autoflush, r, q);
    assert KeepsRow(t, next.rows.stored, owner, q);
    assert !Holds(t, q, target, t[r].slot);
  }

  lemma BrokenRefMoved(s: View, next: View, source: Id, target: Id, r: nat)
    requires RefImage(s.refs, next.refs, map[source := target]) && MovedOnce(s.refs, next.refs, source, target)
    requires source != target && next.ids == s.ids - {source} && BreaksRef(s, next, r)
    ensures source in s.ids && target !in s.ids && RefMoves(s, source, target, r)
  {
    if q :| q in s.refs && s.refs[q].identity == target && SameTriple(s.refs[q], s.refs[r]) {
      TargetRefStays(s, next, source, target, q);
    }
  }

  lemma TargetRefStays(s: View, next: View, source: Id, target: Id, q: nat)
    requires RefImage(s.refs, next.refs, map[source := target]) && MovedOnce(s.refs, next.refs, source, target)
    requires source != target && q in s.refs && s.refs[q].identity == target
    ensures q in next.refs && next.refs[q] == s.refs[q]
  {
  }

  lemma BrokenSnapshotMoved(autoflush: bool, s: View, next: View, source: Id, target: Id, r: nat)
    requires Image(s.rows.stored, next.rows.stored, RowOwners(s.rows.stored, map[source := target]), autoflush)
    requires OthersStay(s.rows.stored, next.rows.stored, source)
    requires source != target && next.ids == s.ids - {source} && BreaksSnapshot(s, next, r)
    ensures source in s.ids && target !in s.ids && SnapshotMoves(s, source, target, r)
  {
    var t, owner := s.rows.stored, RowOwners(s.rows.stored, map[source := target]);
    assert KeepsRow(t, next.rows.stored, owner, r);
    assert forall q ::
             Holds(t, q, target, t[r].slot) ==> q in next.rows.stored && next.rows.stored[q].slot == t[q].slot;
  }

  lemma TargetMissingBreaks(autoflush: bool, s: View, next: View, source: Id, target: Id)
    requires Moved(autoflush, s, next, source, target) && source != target
    requires source in s.ids && target !in s.ids && SomethingMoves(s, source, target)
    ensures BreaksSomething(s, next)
  {
    if k :| OwnedMoves(s, source, k) {
      AllTablesListed(k.table);
      assert BreaksOwned(s, next, k);
    } else if r :| RefMoves(s, source, target, r) {
      MovedRefSurvives(s, next, source, target, r);
      var q :| q in next.refs && s.refs[q].identity == source && next.refs[q].identity == target;
      assert BreaksRef(s, next, q);
    } else {
      var r :| SnapshotMoves(s, source, target, r);
      MovedSnapshotSurvives(autoflush, s, next, source, target, r);
      var q :| q in next.rows.stored && s.rows.stored[q].identity == source && next.rows.stored[q].identity == target;
      assert BreaksSnapshot(s, next, q);
    }
  }

  /** A move makes a row that referred to an existing identity refer to a missing one exactly when the source exists,
      the chosen target does not, and some row of the source survives. */
  lemma ValidityBrokenExactly(autoflush: bool, s: View, next: View, source: Id, target: Id)
    requires Moved(autoflush, s, next, source, target) && source != target
    ensures BreaksSomething(s, next) <==> source in s.ids && target !in s.ids && SomethingMoves(s, source, target)
  {
    if BreaksSomething(s, next) {
      if k :| BreaksOwned(s, next, k) {
        AllTablesListed(k.table);
        assert OwnedMoves(s, source, k);
      } else if r :| BreaksRef(s, next, r) {
        BrokenRefMoved(s, next, source, target, r);
      } else {
        var r :| BreaksSnapshot(s, next, r);
        BrokenSnapshotMoved(autoflush, s, next, source, target, r);
      }
    }
    if source in s.ids && target !in s.ids && SomethingMoves(s, source, target) {
      TargetMissingBreaks(autoflush, s, next, source, target);
    }
  }

  /** The tables after a move whose source has the one row `r`, in a slot of its own. */
  ghost function AfterOneRow(s: View, r: nat, source: Id, target: Id): View
    requires r in s.rows.stored
  {
    var t := s.rows.stored;
    s.(ids := s.ids - {source}, owned := Repoint(s.owned, ALL_TABLES, source, target),
       rows := UnitOfWork(t[r := t[r].(identity := target)], map[], {}))
  }

  lemma OneRowColumns(t: Table, r: nat, source: Id, target: Id)
    requires r in t && (forall x :: x in t && t[x].identity == source ==> x == r) && !Occupied(t, target, t[r].slot)
    ensures Columns(t, t[r := t[r].(identity := target)], source, target, {})
  {
    forall h, w | h in t && t[h].identity == target
      ensures !BeatenBy(t, h, w, source, {})
    {
      assert t[h].slot == t[r].slot ==> Holds(t, h, target, t[r].slot);
    }
  }

  lemma OneRowMoves(autoflush: bool, s: View, r: nat, source: Id, target: Id)
    requires s.refs == map[] && UniqueSlots(s.rows.stored) && source != target
    requires RowsOf(s.rows.stored, source) == {r} && !Occupied(s.rows.stored, target, s.rows.stored[r].slot)
    ensures Moved(autoflush, s, AfterOneRow(s, r, source, target), source, target)
  {
    hide Image;
    hide Columns;
    hide Occupied;
    hide UniqueSlots;
    hide RefImage;
    hide MovedOnce;
    hide Repoint;
    var t := s.rows.stored;
    assert forall x :: x in t && t[x].identity == source ==> x in RowsOf(t, source);
    assert r in RowsOf(t, source);
    NoRefsMove(source, target);
    MovedRow(t, r, target, autoflush);
    SoleRow(t, r, source, target);
    OneRowColumns(t, r, source, target);
  }

  lemma NoRefsMove(source: Id, target: Id)
    ensures RefImage(map[], map[], map[source := target]) && MovedOnce(map[], map[], source, target)
  {
  }

  ghost predicate MissingTarget(s: View, source: Id, target: Id, standing: Standing, kept: Kept) {
    && source != target && s.ids == {source} && s.refs == map[] && s.rows.Clean()
    && s.rows.stored
       == map[1 := Snapshot(target, Slot(1, 1), standing, kept), 2 := Snapshot(target, Slot(1, 2), standing, kept),
              3 := Snapshot(source, Slot(1, 3), standing, kept)]
  }

  lemma MissingTargetRows(s: View, source: Id, target: Id, standing: Standing, kept: Kept)
    requires MissingTarget(s, source, target, standing, kept)
    ensures UniqueSlots(s.rows.stored) && 3 in s.rows.stored && !Occupied(s.rows.stored, target, s.rows.stored[3].slot)
    ensures RowsOf(s.rows.stored, target) == {1, 2} && RowsOf(s.rows.stored, source) == {3}
    ensures s.rows.stored[3].identity == source
  {
  }

  lemma MissingTargetRanked(s: View, source: Id, target: Id, standing: Standing, kept: Kept)
    requires MissingTarget(s, source, target, standing, kept)
    ensures Ranked([target, source], TitleScores(s.rows.stored, s.ids, {source, target}))
  {
    MissingTargetRows(s, source, target, standing, kept);
    assert |{1, 2}| == 2;
    hide RowsOf;
  }

  lemma MissingTargetKey(s: View, source: Id, target: Id, standing: Standing, kept: Kept)
    requires MissingTarget(s, source, target, standing, kept)
    ensures KeyOwners(s.rows.stored, KeyOf(s.rows.stored[3])) == {source, target}
  {
    var t := s.rows.stored;
    assert t[1].identity == target && t[3].identity == source;
    assert KeyOf(t[1]) == KeyOf(t[2]) == KeyOf(t[3]);
    hide KeyOf;
  }

  /** Two identities with one title. The target has more rows, so the script's order puts it first although it is
      missing in MEDIA_IDENTITY; the source's row ends on an identity that does not exist. */
  lemma MissingTargetExample(autoflush: bool, s: View, source: Id, target: Id, standing: Standing, kept: Kept)
    requires MissingTarget(s, source, target, standing, kept)
    ensures KeyOwners(s.rows.stored, KeyOf(s.rows.stored[3])) == {source, target}
    ensures Ranked([target, source], TitleScores(s.rows.stored, s.ids, {source, target}))
    ensures Moved(autoflush, s, AfterOneRow(s, 3, source, target), source, target)
    ensures BreaksSnapshot(s, AfterOneRow(s, 3, source, target), 3)
  {
    hide Moved;
    hide KeyOf;
    hide Ranked;
    hide TitleScores;
    hide KeyOwners;
    MissingTargetRows(s, source, target, standing, kept);
    MissingTargetRanked(s, source, target, standing, kept);
    MissingTargetKey(s, source, target, standing, kept);
    OneRowMoves(autoflush, s, 3, source, target);
  }

  lemma AllTablesListed(table: OwnedTable)
    ensures table in ALL_TABLES
  {
  }

  // --- the winner's columns ---

  /** Every row's slot still ranks at least as high under the row's new owner. */
  ghost predicate NoRankLost(t: Table, next: Table, source: Id, target: Id) {
    forall r0 :: r0 in t ==> RankAnswered(t, next, source, target, r0)
  }

  ghost predicate RankAnswered(t: Table, next: Table, source: Id, target: Id, r0: nat)
    requires r0 in t
  {
    exists r1 :: Answers(t, next, RowOwners(t, map[source := target]), true, r0, r1)
  }

  /** A source row outranks the target row it collides with. */
  ghost predicate SourceWins(t: Table, source: Id, target: Id, s: nat, h: nat) {
    s in t && t[s].identity == source && Holds(t, h, target, t[s].slot) && Beats(t[s], t[h])
  }

  /** Without autoflush the copied columns of a winner are dropped before they are written, so a move loses rank exactly
      when some source row wins its comparison. */
  lemma WinnersAreLostExactly(s: View, next: View, source: Id, target: Id)
    requires Moved(false, s, next, source, target) && source != target && UniqueSlots(s.rows.stored)
    ensures NoRankLost(s.rows.stored, next.rows.stored, source, target)
            <==> forall a, h :: !SourceWins(s.rows.stored, source, target, a, h)
  {
    var t, after, owner := s.rows.stored, next.rows.stored, RowOwners(s.rows.stored, map[source := target]);
    if forall a, h :: !SourceWins(t, source, target, a, h) {
      forall r0 | r0 in t
        ensures RankAnswered(t, after, source, target, r0)
      {
        LoserAnswered(t, after, source, target, r0);
      }
    }
    if a, h :| SourceWins(t, source, target, a, h) {
      WinnerUnanswered(t, after, source, target, a, h);
    }
  }

  lemma LoserAnswered(t: Table, after: Table, source: Id, target: Id, r0: nat)
    requires Image(t, after, RowOwners(t, map[source := target]), false) && OthersStay(t, after, source)
    requires UniqueSlots(t) && r0 in t && forall a, h :: !SourceWins(t, source, target, a, h)
    ensures RankAnswered(t, after, source, target, r0)
  {
    var owner := RowOwners(t, map[source := target]);
    assert Answered(t, after, owner, false, r0);
    var r1 :| Answers(t, after, owner, false, r0, r1);
    assert StandsOn(t, after, owner, false, r1) && KeepsRow(t, after, owner, r1);
    assert r1 != r0 && t[r0].identity == source ==> !SourceWins(t, source, target, r0, r1);
    assert r1 != r0 && t[r0].identity == target && r0 in after ==> r1 == r0;
    assert Answers(t, after, owner, true, r0, r1);
  }

  lemma WinnerUnanswered(t: Table, after: Table, source: Id, target: Id, a: nat, h: nat)
    requires Image(t, after, RowOwners(t, map[source := target]), false) && OthersStay(t, after, source)
    requires source != target && SourceWins(t, source, target, a, h)
    ensures !RankAnswered(t, after, source, target, a)
  {
    var owner := RowOwners(t, map[source := target]);
    assert KeepsRow(t, after, owner, h) && StandsOn(t, after, owner, false, h);
    assert forall r1 :: Holds(after, r1, target, t[a].slot) ==> r1 == h;
  }

  /** The smallest lost winner: one row each, in one slot, the source's the better one. */
  lemma LostWinnerExample(s: View, source: Id, target: Id, low: Standing, high: Standing, kept: Kept)
    requires source != target && s.refs == map[] && s.rows.Clean()
    requires s.rows.stored
             == map[1 := Snapshot(target, Slot(1, 1), low, kept), 2 := Snapshot(source, Slot(1, 1), high, kept)]
    requires low.stage == Subscribed && high.stage == InLibrary
    ensures UniqueSlots(s.rows.stored) && SourceWins(s.rows.stored, source, target, 2, 1)
    ensures var next := s.(ids := s.ids - {source}, owned := Repoint(s.owned, ALL_TABLES, source, target),
                           rows := UnitOfWork(s.rows.stored - {2}, map[], {}));
            Moved(false, s, next, source, target) && !NoRankLost(s.rows.stored, next.rows.stored, source, target)
  {
    var t := s.rows.stored;
    assert Holds(t, 1, target, t[2].slot);
    assert RowsOf(t, source) == {2};
    AbsorbedRow(t, 2, 1, target, false);
    SoleRow(t, 2, source, target);
    var next := s.(ids := s.ids - {source}, owned := Repoint(s.owned, ALL_TABLES, source, target),
                   rows := UnitOfWork(t - {2}, map[], {}));
    assert SourceWins(t, source, target, 2, 1);
    hide Image;
    WinnersAreLostExactly(s, next, source, target);
  }

  // --- which keys gain a holder ---

  /** Source row `w` beats target row `h`, and the key that `h` has with the columns of `w` belongs to a third
      identity. */
  ghost predicate GivesKeyTo(t: Table, source: Id, target: Id, key: Key, w: nat, h: nat) {
    Lends(t, source, target, key, w, h) && exists x :: x in KeyOwners(t, key) && x != source && x != target
  }

  /** What a move in a flushing session does to the key of a surviving row. */
  lemma KeyAfterMove(s: View, next: View, source: Id, target: Id, h: nat)
    requires Moved(true, s, next, source, target) && h in next.rows.stored
    ensures h in s.rows.stored && next.rows.stored[h].identity == Own(map[source := target], s.rows.stored[h].identity)
    ensures forall w :: s.rows.stored[h].identity == target && BeatenBy(s.rows.stored, h, w, source, {})
                        ==> KeyOf(next.rows.stored[h])
                            == KeyOf(s.rows.stored[h].(standing := s.rows.stored[w].standing))
    ensures (forall w :: !(s.rows.stored[h].identity == target && BeatenBy(s.rows.stored, h, w, source, {})))
            ==> KeyOf(next.rows.stored[h]) == KeyOf(s.rows.stored[h])
  {
    assert KeepsRow(s.rows.stored, next.rows.stored, RowOwners(s.rows.stored, map[source := target]), h);
    assert EndsWith(s.rows.stored, next.rows.stored[h].standing, h, source, target, {});
  }

  ghost predicate HeldBy(t: Table, key: Key, r: nat) {
    r in t && KeyOf(t[r]) == key
  }

  lemma AmbiguousRows(t: Table, key: Key)
    ensures !Unambiguous(t, key)
            <==> exists p, q :: HeldBy(t, key, p) && HeldBy(t, key, q) && t[p].identity != t[q].identity
  {
    hide KeyOf;
    if !Unambiguous(t, key) {
      var x, y :| x in KeyOwners(t, key) && y in KeyOwners(t, key) && x != y;
      var p :| p in t && KeyOf(t[p]) == key && t[p].identity == x;
      var q :| q in t && KeyOf(t[q]) == key && t[q].identity == y;
      assert HeldBy(t, key, p) && HeldBy(t, key, q);
    }
    if p, q :| HeldBy(t, key, p) && HeldBy(t, key, q) && t[p].identity != t[q].identity {
      assert t[p].identity in KeyOwners(t, key) && t[q].identity in KeyOwners(t, key);
    }
  }

  /** In a flushing session a move gives a settled key a second holder exactly when a source row beats a target row
      whose key with the copied columns belongs to a third identity. */
  lemma KeyGainsHolderExactly(s: View, next: View, source: Id, target: Id, key: Key)
    requires Moved(true, s, next, source, target) && source != target && Unambiguous(s.rows.stored, key)
    ensures !Unambiguous(next.rows.stored, key) <==> exists w, h :: GivesKeyTo(s.rows.stored, source, target, key, w, h)
  {
    hide Moved;
    hide KeyOf;
    hide Unambiguous;
    hide GivesKeyTo;
    var t, after := s.rows.stored, next.rows.stored;
    AmbiguousRows(after, key);
    if w, h :| GivesKeyTo(t, source, target, key, w, h) {
      KeyIsGiven(s, next, source, target, key, w, h);
    }
    if p, q :| HeldBy(after, key, p) && HeldBy(after, key, q) && after[p].identity != after[q].identity {
      KeyWasGiven(s, next, source, target, key, p, q);
    }
  }

  /** Rows of other identities survive a move. */
  lemma OtherSurvives(s: View, next: View, source: Id, target: Id, q: nat)
    requires Moved(true, s, next, source, target) && q in s.rows.stored && s.rows.stored[q].identity != source
    ensures q in next.rows.stored
  {
  }

  lemma KeyIsGiven(s: View, next: View, source: Id, target: Id, key: Key, w: nat, h: nat)
    requires Moved(true, s, next, source, target) && source != target
    requires GivesKeyTo(s.rows.stored, source, target, key, w, h)
    ensures !Unambiguous(next.rows.stored, key)
  {
    hide Moved;
    hide KeyOf;
    hide Unambiguous;
    var t, after := s.rows.stored, next.rows.stored;
    var x :| x in KeyOwners(t, key) && x != source && x != target;
    var q :| q in t && KeyOf(t[q]) == key && t[q].identity == x;
    OtherSurvives(s, next, source, target, h);
    OtherSurvives(s, next, source, target, q);
    KeyAfterMove(s, next, source, target, h);
    KeyAfterMove(s, next, source, target, q);
    AmbiguousRows(after, key);
    assert HeldBy(after, key, h) && HeldBy(after, key, q);
  }

  /** A row that holds the key after the move held it before, or got it from a source row. */
  lemma KeyCameFrom(s: View, next: View, source: Id, target: Id, key: Key, p: nat)
    requires Moved(true, s, next, source, target) && HeldBy(next.rows.stored, key, p)
    ensures p in s.rows.stored
    ensures HeldBy(s.rows.stored, key, p) || exists w :: Lends(s.rows.stored, source, target, key, w, p)
  {
    KeyAfterMove(s, next, source, target, p);
    hide Moved;
    hide KeyOf;
    var t := s.rows.stored;
    if w :| t[p].identity == target && BeatenBy(t, p, w, source, {}) {
      assert Lends(t, source, target, key, w, p);
    }
  }

  ghost predicate Lends(t: Table, source: Id, target: Id, key: Key, w: nat, h: nat) {
    h in t && t[h].identity == target && BeatenBy(t, h, w, source, {}) && KeyOf(t[h].(standing := t[w].standing)) == key
  }

  lemma KeyWasGiven(s: View, next: View, source: Id, target: Id, key: Key, p: nat, q: nat)
    requires Moved(true, s, next, source, target) && source != target && Unambiguous(s.rows.stored, key)
    requires HeldBy(next.rows.stored, key, p) && HeldBy(next.rows.stored, key, q)
    requires next.rows.stored[p].identity != next.rows.stored[q].identity
    ensures exists w, h :: GivesKeyTo(s.rows.stored, source, target, key, w, h)
  {
    var t := s.rows.stored;
    KeyAfterMove(s, next, source, target, p);
    KeyAfterMove(s, next, source, target, q);
    KeyCameFrom(s, next, source, target, key, p);
    KeyCameFrom(s, next, source, target, key, q);
    hide Moved;
    hide KeyOf;
    if w :| Lends(t, source, target, key, w, p) {
      LentMeetsHolder(t, source, target, key, w, p, q);
    } else if w :| Lends(t, source, target, key, w, q) {
      LentMeetsHolder(t, source, target, key, w, q, p);
    } else {
      OneHolder(t, key, p, q);
    }
  }

  lemma LentMeetsHolder(t: Table, source: Id, target: Id, key: Key, w: nat, h: nat, q: nat)
    requires Lends(t, source, target, key, w, h) && q in t && t[q].identity != source && t[q].identity != target
    requires HeldBy(t, key, q) || exists v :: Lends(t, source, target, key, v, q)
    ensures GivesKeyTo(t, source, target, key, w, h)
  {
    hide KeyOf;
    assert HeldBy(t, key, q);
    assert t[q].identity in KeyOwners(t, key);
  }

  lemma OneHolder(t: Table, key: Key, p: nat, q: nat)
    requires Unambiguous(t, key) && HeldBy(t, key, p) && HeldBy(t, key, q)
    ensures t[p].identity == t[q].identity
  {
    hide KeyOf;
    assert t[p].identity in KeyOwners(t, key) && t[q].identity in KeyOwners(t, key);
  }

  // --- why one media type per identity is needed ---

  lemma TitleX()
    ensures NormalizeTitle("x") == "x" && NormalizeTitle("") == ""
  {
    assert LowerAll("x") == "x" && WordLength("x") == 1;
    assert "x"[..1] == "x" && "x"[1..] == "";
    assert Words("x") == ["x"];
  }

  function Entry(id: Id, episode: int, stage: Stage, title: Option<string>, mediaType: string, standing: Standing,
                 kept: Kept): Snapshot {
    Snapshot(id, Slot(1, episode), standing.(stage := stage, title := title, year := None),
             kept.(mediaType := mediaType))
  }

  function UntitledRowTable(standing: Standing, kept: Kept): Table {
    map[1 := Entry("T", 1, Subscribed, None, "tv", standing, kept),
        2 := Entry("T", 2, Subscribed, Some("x"), "anime", standing, kept),
        3 := Entry("S", 1, InLibrary, Some("x"), "anime", standing, kept),
        4 := Entry("U", 1, Subscribed, Some("x"), "tv", standing, kept)]
  }

  lemma UntitledRowKeys(standing: Standing, kept: Kept)
    ensures var t := UntitledRowTable(standing, kept);
            KeyOf(t[1]) == Key("", "", "tv") && KeyOf(t[2]) == KeyOf(t[3]) == Key("x", "", "anime")
            && KeyOf(t[4]) == Key("x", "", "tv")
    ensures var next := Absorbed(UntitledRowTable(standing, kept), 3, 1, true);
            next.Keys == {1, 2, 4} && KeyOf(next[1]) == KeyOf(next[4]) == Key("x", "", "tv")
            && next[1].identity == "T" && next[4].identity == "U"
  {
    TitleX();
  }

  lemma SoleRow(t: Table, r: nat, source: Id, target: Id)
    requires RowsOf(t, source) == {r} && source != target
    ensures Reown(t, r, target) == RowOwners(t, map[source := target])
  {
    assert forall x :: x in t ==> (t[x].identity == source <==> x in RowsOf(t, source));
  }

  lemma UntitledRowImage(standing: Standing, kept: Kept)
    ensures var t := UntitledRowTable(standing, kept);
            UniqueSlots(t) && Image(t, Absorbed(t, 3, 1, true), RowOwners(t, map["S" := "T"]), true)
  {
    var t := UntitledRowTable(standing, kept);
    assert t.Keys == {1, 2, 3, 4} && t[1].identity == t[2].identity == "T" && t[3].identity == "S"
           && t[4].identity == "U";
    assert t[1].slot == t[3].slot && t[1].slot != t[2].slot;
    hide UntitledRowTable;
    hide Image;
    hide Absorbed;
    hide RowOwners;
    assert "T" != "S" && "T" != "U" && "S" != "U" by {
      assert "T"[0] != "S"[0] && "T"[0] != "U"[0] && "S"[0] != "U"[0];
    }
    assert forall r :: r in t ==> r == 1 || r == 2 || r == 3 || r == 4;
    assert Holds(t, 1, "T", t[3].slot);
    assert RowsOf(t, "S") == {3};
    AbsorbedRow(t, 3, 1, "T", true);
    SoleRow(t, 3, "S", "T");
  }

  lemma UntitledRowBefore(standing: Standing, kept: Kept)
    ensures var t := UntitledRowTable(standing, kept);
            OneKeyEach(t) && KeyOwners(t, Key("x", "", "anime")) == {"T", "S"} && Unambiguous(t, Key("x", "", "tv"))
  {
    UntitledRowKeys(standing, kept);
    var t := UntitledRowTable(standing, kept);
    assert t.Keys == {1, 2, 3, 4} && t[1].identity == t[2].identity == "T" && t[3].identity == "S"
           && t[4].identity == "U";
    hide UntitledRowTable;
    hide KeyOf;
    hide Absorbed;
    assert forall r :: r in t ==> r == 1 || r == 2 || r == 3 || r == 4;
    assert forall r :: r in t && KeyOf(t[r]) == Key("x", "", "tv") ==> r == 4;
    assert KeyOwners(t, Key("x", "", "anime")) == {"T", "S"};
  }

  /** Identity T has an untitled row of another media type. Its title group {T, S} is merged into T, the winning row of
      S lends its title to that row, and the key of U gains a second holder: one key per identity is not enough when the
      session flushes. */
  lemma UntitledRowExample(standing: Standing, kept: Kept)
    ensures var t := UntitledRowTable(standing, kept);
            var next := Absorbed(t, 3, 1, true);
            && UniqueSlots(t) && OneKeyEach(t)
            && Image(t, next, RowOwners(t, map["S" := "T"]), true)
            && KeyOwners(t, Key("x", "", "anime")) == {"T", "S"}
            && Unambiguous(t, Key("x", "", "tv")) && !Unambiguous(next, Key("x", "", "tv"))
  {
    UntitledRowKeys(standing, kept);
    UntitledRowImage(standing, kept);
    UntitledRowBefore(standing, kept);
    hide KeyOf;
    hide Image;
    hide Absorbed;
    var next := Absorbed(UntitledRowTable(standing, kept), 3, 1, true);
    assert 1 in next && 4 in next;
    assert next[1].identity in KeyOwners(next, Key("x", "", "tv"))
           && next[4].identity in KeyOwners(next, Key("x", "", "tv"));
  }
}
