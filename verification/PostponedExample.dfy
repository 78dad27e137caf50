/** One run of scripts/merge_duplicate_ref_identities.py in a session without autoflush that strands a row and loses a
    winner. Three identities share one pair. The first is the target: it has as many rows as the second and was created
    last. */
module PostponedExample {
  import opened Wrappers
  import opened Lifecycle
  import opened SnapshotMerge
  import opened RefQuotient
  import opened Succession
  import opened Sessions
  import opened MergeDuplicateRefs
  import opened PostponedRuns

  /** Names of the identities, scopes of their references, the shared pair and the columns that do not matter. */
  datatype Names = Names(a: Id, b: Id, c: Id, x: string, y: string, z: string, pair: Pair, standing: Standing,
                         kept: Kept) {
    predicate Apart() {
      a != b && a != c && b != c && x != y && x != z && y != z
    }
  }

  function Entry(id: Id, episode: int, stage: Stage, n: Names): Snapshot {
    Snapshot(id, Slot(1, episode), n.standing.(stage := stage), n.kept)
  }

  /** "b" holds episode 1 alone and has the better row of episode 3. */
  ghost predicate Rows(t: Table, n: Names) {
    && t.Keys == {1, 2, 3, 4, 5}
    && t[1] == Entry(n.a, 3, Subscribed, n) && t[2] == Entry(n.a, 4, Subscribed, n)
    && t[3] == Entry(n.b, 1, Subscribed, n) && t[4] == Entry(n.b, 3, InLibrary, n)
    && t[5] == Entry(n.c, 2, Subscribed, n)
  }

  function RefFor(id: Id, scope: string, n: Names): ExternalRef {
    ExternalRef(id, n.pair.0, n.pair.1, scope, None)
  }

  /** The references, the second and third of them held by `b` and `c`. */
  ghost predicate Refs(refs: RefTable, n: Names, b: Id, c: Id) {
    && refs.Keys == {1, 2, 3}
    && refs[1] == RefFor(n.a, n.x, n) && refs[2] == RefFor(b, n.y, n) && refs[3] == RefFor(c, n.z, n)
  }

  ghost predicate Created(created: map<Id, Option<Time>>, n: Names) {
    created.Keys == {n.a, n.b, n.c} && created[n.a] == Some(2) && created[n.b] == Some(1) && created[n.c] == None
  }

  /** The tables when the run starts. */
  ghost predicate Start(s: View, n: Names) {
    && n.Apart() && Rows(s.rows.stored, n) && Refs(s.refs, n, n.b, n.c) && Created(s.created, n)
    && s.ids == {n.a, n.b, n.c} && s.rows.Clean()
  }

  lemma RowsAre(t: Table, n: Names)
    requires Rows(t, n) && n.Apart()
    ensures UniqueSlots(t)
    ensures RowsOf(t, n.a) == {1, 2} && RowsOf(t, n.b) == {3, 4} && RowsOf(t, n.c) == {5}
  {
  }

  lemma RowsCounted(t: Table, n: Names)
    requires Rows(t, n) && n.Apart()
    ensures |RowsOf(t, n.a)| == 2 && |RowsOf(t, n.b)| == 2 && |RowsOf(t, n.c)| == 1
  {
    RowsAre(t, n);
  }

  lemma OrderOfScores(t: Table, created: map<Id, Option<Time>>, n: Names)
    requires Rows(t, n) && n.Apart() && Created(created, n)
    ensures NoBetter(t, created, n.b, n.a) && NoBetter(t, created, n.c, n.a) && NoBetter(t, created, n.c, n.b)
  {
    RowsCounted(t, n);
    hide Rows;
    hide RowsOf;
  }

  lemma MembersAndPairs(refs: RefTable, n: Names)
    requires Refs(refs, n, n.b, n.c) && n.Apart()
    ensures Members(refs, {n.a, n.b, n.c}, n.pair) == {n.a, n.b, n.c}
    ensures SharedPairs(refs) == {n.pair}
  {
    assert refs[1].identity == n.a && refs[2].identity == n.b && refs[3].identity == n.c;
    assert forall r :: r in refs ==> PairOf(refs[r]) == n.pair;
    assert SamePair(refs[1], refs[2]);
    assert n.pair in SharedPairs(refs);
  }

  lemma GroupOfThree(s: View, n: Names)
    requires Start(s, n)
    ensures Members(s.refs, s.ids, n.pair) == {n.a, n.b, n.c}
    ensures SharedPairs(s.refs) == {n.pair}
    ensures Focus(s.refs, s.ids, {n.b, n.c}, n.a, n.pair)
  {
    MembersAndPairs(s.refs, n);
    MembersAreOwners(s.refs, s.ids, n.pair);
    hide Rows;
    hide Refs;
    hide Created;
    hide Members;
    hide SharedPairs;
    hide OwnsPair;
    assert {n.b, n.c} <= s.ids;
  }

  lemma RankedAsNamed(s: View, n: Names)
    requires Start(s, n)
    ensures Ranked([n.a, n.b, n.c], ScoresOf(s.rows.stored, s.created, {n.a, n.b, n.c}))
  {
    OrderOfScores(s.rows.stored, s.created, n);
    hide Rows;
    hide Refs;
    hide RowsOf;
    hide ScoreIn;
  }

  /** There are such tables. */
  lemma SuchTables(n: Names) returns (s: View)
    requires n.Apart()
    ensures Start(s, n)
  {
    var t: Table := map[1 := Entry(n.a, 3, Subscribed, n), 2 := Entry(n.a, 4, Subscribed, n),
                        3 := Entry(n.b, 1, Subscribed, n),
                        4 := Entry(n.b, 3, InLibrary, n), 5 := Entry(n.c, 2, Subscribed, n)];
    var refs: RefTable := map[1 := RefFor(n.a, n.x, n), 2 := RefFor(n.b, n.y, n), 3 := RefFor(n.c, n.z, n)];
    s := View(refs, {n.a, n.b, n.c}, map[], UnitOfWork(t, map[], {}), map[n.a := Some(2), n.b := Some(1), n.c := None]);
  }

  // --- the two merges ---

  /** After "b" has been merged: its row 3 and the beaten row 1 are pending, its row 4 is marked deleted. */
  ghost function Between(s: View, n: Names): View
    requires Start(s, n)
  {
    var t := s.rows.stored;
    View(s.refs[2 := RefFor(n.a, n.y, n)], s.ids - {n.b}, Repoint(s.owned, MERGED_TABLES, n.b, n.a),
         UnitOfWork(t, map[3 := t[3].(identity := n.a), 1 := t[1].(standing := t[4].standing)], {4}), s.created - {n.b})
  }

  /** After "c" has been merged: only its row is pending. */
  ghost function Finished(s: View, n: Names): View
    requires Start(s, n)
  {
    var t, m := s.rows.stored, Between(s, n);
    View(m.refs[3 := RefFor(n.a, n.z, n)], m.ids - {n.c}, Repoint(m.owned, MERGED_TABLES, n.c, n.a),
         UnitOfWork(t, map[5 := t[5].(identity := n.a)], {4}), m.created - {n.c})
  }

  lemma RefMoves(refs: RefTable, r: nat, source: Id, target: Id)
    requires r in refs && refs[r].identity == source && source != target
    requires forall q :: q in refs && q != r ==> refs[q].identity != source && !SameTriple(refs[q], refs[r])
    ensures RefImage(refs, refs[r := refs[r].(identity := target)], map[source := target])
    ensures MovedOnce(refs, refs[r := refs[r].(identity := target)], source, target)
  {
    var next := refs[r := refs[r].(identity := target)];
    forall q | q in refs
      ensures TripleKept(refs, next, map[source := target], q)
    {
      assert StandsFor(next, q, refs[q], Own(map[source := target], refs[q].identity));
    }
    hide TripleKept;
  }

  lemma RefsMove(s: View, n: Names)
    requires Start(s, n)
    ensures RefImage(s.refs, Between(s, n).refs, map[n.b := n.a]) && MovedOnce(s.refs, Between(s, n).refs, n.b, n.a)
    ensures RefImage(Between(s, n).refs, Finished(s, n).refs, map[n.c := n.a])
    ensures MovedOnce(Between(s, n).refs, Finished(s, n).refs, n.c, n.a)
  {
    var between := Between(s, n).refs;
    RefMoves(s.refs, 2, n.b, n.a);
    RefMoves(between, 3, n.c, n.a);
  }

  /** What the merge of "b" finds: row 3 is free to move, row 4 collides with row 1 and beats it. */
  lemma FirstFinds(t: Table, n: Names, r: nat)
    requires Rows(t, n) && n.Apart()
    ensures FreeToMove(t, r, n.b, n.a) <==> r == 3
    ensures r in Lost(t, n.b, n.a) <==> r == 4
    ensures Beaten(t, r, n.b, n.a, {}) <==> r == 1
  {
    assert Holds(t, 1, n.a, t[4].slot);
    assert BeatenBy(t, 1, 4, n.b, {});
  }

  lemma SecondFinds(t: Table, n: Names, r: nat)
    requires Rows(t, n) && n.Apart()
    ensures FreeToMove(t, r, n.c, n.a) <==> r == 5
    ensures r !in Lost(t, n.c, n.a) && !Beaten(t, r, n.c, n.a, {})
  {
  }

  lemma FirstRows(s: View, n: Names)
    requires Start(s, n)
    ensures Deferred(s.rows.(dirty := map[]), Between(s, n).rows, n.b, n.a)
  {
    var t, u := s.rows.stored, Between(s, n).rows;
    forall r: nat
      ensures FreeToMove(t, r, n.b, n.a) <==> r == 3
      ensures r in Lost(t, n.b, n.a) <==> r == 4
      ensures Beaten(t, r, n.b, n.a, {}) <==> r == 1
    {
      FirstFinds(t, n, r);
    }
    assert BeatenBy(t, 1, 4, n.b, {});
    assert PendingRow(t, 3, u.dirty[3], n.b, n.a, {}) by {
      assert FreeToMove(t, 3, n.b, n.a);
    }
    assert PendingRow(t, 1, u.dirty[1], n.b, n.a, {});
    assert Lost(t, n.b, n.a) == {4};
    hide FreeToMove;
    hide Lost;
    hide Beaten;
    hide PendingRow;
    hide Rows;
  }

  lemma SecondRows(s: View, n: Names)
    requires Start(s, n)
    ensures Deferred(Between(s, n).rows.(dirty := map[]), Finished(s, n).rows, n.c, n.a)
  {
    var t, u := s.rows.stored, Finished(s, n).rows;
    forall r: nat
      ensures FreeToMove(t, r, n.c, n.a) <==> r == 5
      ensures r !in Lost(t, n.c, n.a) && !Beaten(t, r, n.c, n.a, {})
    {
      SecondFinds(t, n, r);
    }
    assert PendingRow(t, 5, u.dirty[5], n.c, n.a, {}) by {
      assert FreeToMove(t, 5, n.c, n.a);
    }
    assert Lost(t, n.c, n.a) == {};
    hide FreeToMove;
    hide Lost;
    hide Beaten;
    hide PendingRow;
    hide Rows;
  }

  ghost function Owners(s: View, n: Names): map<Id, Id> {
    Redirect(Redirect(map x | x in s.ids :: x, n.b, n.a), n.c, n.a)
  }

  function Order(n: Names): seq<Id> {
    [n.a, n.b, n.c]
  }

  ghost function AfterCommit(s: View, n: Names): View
    requires Start(s, n)
  {
    Finished(s, n).(rows := Finished(s, n).rows.Flush())
  }

  lemma BothMerges(s: View, n: Names)
    requires Start(s, n)
    ensures PairMerged(false, s, Between(s, n), n.b, n.a) && PairMerged(false, Between(s, n), Finished(s, n), n.c, n.a)
  {
    RefsMove(s, n);
    FirstRows(s, n);
    SecondRows(s, n);
    hide RefImage;
    hide MovedOnce;
    hide Deferred;
  }

  lemma RunIsDone(s: View, n: Names)
    requires Start(s, n)
    ensures RunDone(false, s, AfterCommit(s, n), Owners(s, n), Fan(Order(n)))
  {
    GroupOfThree(s, n);
    BothMerges(s, n);
    OrderOfScores(s.rows.stored, s.created, n);
    RowsAre(s.rows.stored, n);
    hide Rows;
    hide Refs;
    hide Running;
    hide RunDone;
    hide PairMerged;
    hide Focus;
    hide UniqueSlots;
    hide NoBetter;
    hide Redirect;
    hide SharedPairs;
    hide Members;
    hide RowsOf;
    hide Between;
    hide Finished;
    StepsOfRun(s, Between(s, n), Finished(s, n), n);
  }

  lemma StepsOfRun(s: View, m: View, f: View, n: Names)
    requires s.rows.Clean() && UniqueSlots(s.rows.stored) && s.ids == s.created.Keys && SharedPairs(s.refs) == {n.pair}
    requires Focus(s.refs, s.ids, {n.b, n.c}, n.a, n.pair) && n.b != n.c
    requires PairMerged(false, s, m, n.b, n.a) && PairMerged(false, m, f, n.c, n.a)
    requires NoBetter(s.rows.stored, s.created, n.b, n.a) && NoBetter(s.rows.stored, s.created, n.c, n.a)
    ensures RunDone(false, s, f.(rows := f.rows.Flush()), Owners(s, n), Fan(Order(n)))
  {
    hide Running;
    hide RunDone;
    hide PairMerged;
    hide Focus;
    hide UniqueSlots;
    hide NoBetter;
    hide Redirect;
    hide SharedPairs;
    var first := map x | x in s.ids :: x;
    assert {n.b, n.c} - {n.b} == {n.c} && {n.c} - {n.c} == {} && {n.pair} - {n.pair} == {};
    assert [] + [Merged(n.b, n.a)] + [Merged(n.c, n.a)] == Fan(Order(n));
    RunningStarts(false, s);
    RunningStep(false, s, s, m, first, [], {n.pair}, n.b, n.a, n.pair, {n.b, n.c});
    RunningStep(false, s, m, f, Redirect(first, n.b, n.a), [] + [Merged(n.b, n.a)], {n.pair}, n.c, n.a, n.pair, {n.c});
    FocusedIsSettled(f, n.a, n.pair);
    GroupIsSettled(false, s, f, Owners(s, n), Fan(Order(n)), {n.pair}, n.pair);
    RunningEnds(false, s, f, Owners(s, n), Fan(Order(n)));
  }

  lemma GroupIsTheScripts(s: View, n: Names)
    requires Start(s, n)
    ensures GroupMerged(s, n.pair, Fan(Order(n)))
  {
    hide Ranked;
    hide Members;
    hide SharedPairs;
    hide Focus;
    hide Rows;
    hide Refs;
    hide ScoresOf;
    GroupOfThree(s, n);
    RankedAsNamed(s, n);
    assert RankedFan(Order(n), ScoresOf(s.rows.stored, s.created, {n.a, n.b, n.c}), Fan(Order(n)));
  }

  lemma RowThreeIsLeft(t: Table, n: Names)
    requires Rows(t, n) && n.Apart()
    ensures LeftBehind(t, Order(n), 3)
  {
    FirstFinds(t, n, 3);
    hide Rows;
    hide FreeToMove;
    assert FreeToMove(t, 3, Order(n)[1], Order(n)[0]);
  }

  lemma RowFourIsUncovered(t: Table, n: Names)
    requires Rows(t, n) && n.Apart()
    ensures forall w :: !InGroupCovers(t, Order(n), 4, w)
  {
  }

  /** The run merges the members of the one shared pair in the order the script sorts them into. It leaves row 3 on the
      deleted "b", and for episode 3 the worse of its two rows. */
  lemma StrandedAndLost(s: View, n: Names)
    requires Start(s, n)
    ensures RunDone(false, s, AfterCommit(s, n), Owners(s, n), Fan(Order(n)))
    ensures SharedPairs(s.refs) == {n.pair} && GroupMerged(s, n.pair, Fan(Order(n)))
    ensures Stranded(s, AfterCommit(s, n), 3)
    ensures !RankKept(s.rows.stored, AfterCommit(s, n).rows.stored, Owners(s, n), 4)
  {
    hide RunDone;
    hide Stranded;
    hide RankKept;
    hide GroupMerged;
    hide SharedPairs;
    hide Members;
    hide Focus;
    hide Fan;
    hide LeftBehind;
    hide InGroupCovers;
    hide AfterCommit;
    hide Owners;
    RunIsDone(s, n);
    GroupOfThree(s, n);
    GroupIsTheScripts(s, n);
    RowThreeIsLeft(s.rows.stored, n);
    RowFourIsUncovered(s.rows.stored, n);
    assert s.rows.stored[4].identity == Order(n)[1];
    var after := AfterCommit(s, n);
    hide Start;
    OneGroupStrandsExactly(s, after, Owners(s, n), Fan(Order(n)), Order(n), 3);
    OneGroupKeepsRankExactly(s, after, Owners(s, n), Fan(Order(n)), Order(n), 4);
  }
}
