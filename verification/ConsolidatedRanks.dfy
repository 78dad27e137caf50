/** Which lifecycle rows and ranks a run of scripts/consolidate_lifecycle_identities.py leaves in a session without
    autoflush, which is how the repository creates its sessions. */
module ConsolidatedRanks {
  import opened Lifecycle
  import opened SnapshotMerge
  import opened Links
  import opened RefQuotient
  import opened Succession
  import opened Sessions
  import opened Consolidate

  lemma RunFacts(s0: View, s: View, kind: Id -> string, owner: map<Id, Id>, merges: seq<Merged>)
    requires Consolidated(false, s0, s, kind, owner, merges)
    ensures Inherited(s0.rows.stored, s.rows.stored, merges) && InLine(owner, merges)
    ensures owner.Keys == Mentioned(s0) && OnlyKin(s0, owner)
  {
  }

  lemma RowsAreMentioned(s: View, r: nat)
    requires r in s.rows.stored
    ensures s.rows.stored[r].identity in Mentioned(s)
  {
  }

  /** The row of a slot after the run is the row of the first identity in the survivor's line that held the slot, and it
      has its own ten columns. */
  lemma SlotsInheritedExactly(s0: View, s: View, kind: Id -> string, owner: map<Id, Id>, merges: seq<Merged>, r: nat,
                              y: Id, slot: Slot)
    requires Consolidated(false, s0, s, kind, owner, merges)
    ensures Holds(s.rows.stored, r, y, slot) <==> Succeeds(s0.rows.stored, Line(merges, y), slot, r)
    ensures r in s.rows.stored
            ==> r in s0.rows.stored && s.rows.stored[r].standing == s0.rows.stored[r].standing
  {
    RunFacts(s0, s, kind, owner, merges);
  }

  /** A run keeps the rank of a row's slot exactly when the first identity of the line that held the slot has a row
      there that ranks at least as high. */
  lemma RanksKeptExactly(s0: View, s: View, kind: Id -> string, owner: map<Id, Id>, merges: seq<Merged>, r0: nat)
    requires Consolidated(false, s0, s, kind, owner, merges) && r0 in s0.rows.stored
    ensures s0.rows.stored[r0].identity in Line(merges, Own(owner, s0.rows.stored[r0].identity))
    ensures RankKept(s0.rows.stored, s.rows.stored, owner, r0)
            <==> Covered(s0.rows.stored, Line(merges, Own(owner, s0.rows.stored[r0].identity)), r0)
  {
    hide Covered;
    hide RankKept;
    hide Inherited;
    RunFacts(s0, s, kind, owner, merges);
    hide Consolidated;
    RowsAreMentioned(s0, r0);
    RankKeptExactly(s0.rows.stored, s.rows.stored, owner, merges, r0);
  }

  // --- what can be told before the run ---

  /** Row `r0` ranks no higher than any row that identities akin to its own have in its slot. */
  ghost predicate Lowest(s: View, r0: nat) {
    r0 in s.rows.stored
    && forall w :: w in s.rows.stored && s.rows.stored[w].slot == s.rows.stored[r0].slot
                   && Reaches(Kin(s), s.rows.stored[r0].identity, s.rows.stored[w].identity)
                   ==> RankOf(s.rows.stored[r0].standing).AtMost(RankOf(s.rows.stored[w].standing))
  }

  /** No run loses the rank of such a row. */
  lemma LowestIsKept(s0: View, s: View, kind: Id -> string, owner: map<Id, Id>, merges: seq<Merged>, r0: nat)
    requires Consolidated(false, s0, s, kind, owner, merges) && Lowest(s0, r0)
    ensures RankKept(s0.rows.stored, s.rows.stored, owner, r0)
  {
    var t := s0.rows.stored;
    var x := t[r0].identity;
    RanksKeptExactly(s0, s, kind, owner, merges, r0);
    hide Consolidated;
    hide Reaches;
    hide Kin;
    var line := Line(merges, Own(owner, x));
    assert Holds(t, r0, x, t[r0].slot);
    var k := SomeHolder(t, line, t[r0].slot);
    var w :| Holds(t, w, line[k], t[r0].slot);
    assert Succeeds(t, line, t[r0].slot, w);
    assert line[k] in line;
    SameLineIsKin(s0, s, kind, owner, merges, x, line[k]);
    assert CoveredBy(t, line, r0, w);
  }

  lemma SameLineIsKin(s0: View, s: View, kind: Id -> string, owner: map<Id, Id>, merges: seq<Merged>, x: Id, y: Id)
    requires Consolidated(false, s0, s, kind, owner, merges) && x in Mentioned(s0) && y in Mentioned(s0)
    requires y in Line(merges, Own(owner, x))
    ensures Reaches(Kin(s0), x, y)
  {
    RunFacts(s0, s, kind, owner, merges);
    hide Consolidated;
    hide Reaches;
    hide Kin;
    hide Mentioned;
  }

  // --- a single group ---

  /** When the members of one group are merged in the order `order`, a rank is kept exactly when the first member that
      holds the slot has a row there that ranks at least as high. */
  lemma OneGroupRanksExactly(s0: View, s: View, kind: Id -> string, owner: map<Id, Id>, order: seq<Id>, r0: nat)
    requires order != [] && Unrepeated(order) && Consolidated(false, s0, s, kind, owner, Fan(order))
    requires r0 in s0.rows.stored
    ensures RankKept(s0.rows.stored, s.rows.stored, owner, r0)
            <==> s0.rows.stored[r0].identity !in order || Covered(s0.rows.stored, order, r0)
  {
    var x := s0.rows.stored[r0].identity;
    RanksKeptExactly(s0, s, kind, owner, Fan(order), r0);
    RunFacts(s0, s, kind, owner, Fan(order));
    RowsAreMentioned(s0, r0);
    hide Consolidated;
    hide Mentioned;
    hide Inherited;
    hide OnlyKin;
    hide RankKept;
    hide Covered;
    LineOfMember(owner, order, x);
    hide InLine;
    hide Unrepeated;
    hide Fan;
    if x !in order {
      CoversItself(s0.rows.stored, r0);
    }
  }

  lemma LineOfMember(owner: map<Id, Id>, order: seq<Id>, x: Id)
    requires order != [] && Unrepeated(order) && InLine(owner, Fan(order)) && x in owner
    ensures Line(Fan(order), owner[x]) == if x in order then order else [x]
  {
    LineOfFan(order);
    hide Line;
    hide Fan;
    if x in order {
      assert x in Line(Fan(order), order[0]);
    } else {
      assert x in Line(Fan(order), x);
    }
  }

  lemma CoversItself(t: Table, r0: nat)
    requires r0 in t
    ensures Covered(t, [t[r0].identity], r0)
  {
    assert Holds(t, r0, t[r0].identity, t[r0].slot);
    assert FirstHolder(t, [t[r0].identity], t[r0].slot, 0);
    assert CoveredBy(t, [t[r0].identity], r0, r0);
  }

  /** Over tables in which one title key and no media code is shared: the ranks lost are those that the first holder of
      the slot, in the script's order of the members, does not reach. */
  lemma OneTitleRanksExactly(s0: View, s: View, kind: Id -> string, owner: map<Id, Id>, merges: seq<Merged>, key: Key)
    returns (order: seq<Id>)
    requires Consolidated(false, s0, s, kind, owner, merges) && AtMostOneGroup(s0, merges)
    requires SharedTitles(s0.rows.stored) == {key} && SharedCodes(s0.refs) == {}
    ensures Ranked(order, TitleScores(s0.rows.stored, s0.ids, KeyOwners(s0.rows.stored, key)))
    ensures forall r0 :: r0 in s0.rows.stored ==>
                           (RankKept(s0.rows.stored, s.rows.stored, owner, r0)
                            <==> s0.rows.stored[r0].identity !in KeyOwners(s0.rows.stored, key)
                                 || Covered(s0.rows.stored, order, r0))
  {
    hide Consolidated;
    hide SharedTitles;
    hide SharedCodes;
    hide RankKept;
    hide Covered;
    hide KeyOwners;
    var t := s0.rows.stored;
    var scores := TitleScores(t, s0.ids, KeyOwners(t, key));
    assert FanOf(scores, merges);
    order :| RankedFan(order, scores, merges);
    forall r0 | r0 in t
      ensures RankKept(t, s.rows.stored, owner, r0)
              <==> t[r0].identity !in KeyOwners(t, key) || Covered(t, order, r0)
    {
      OneGroupRanksExactly(s0, s, kind, owner, order, r0);
    }
  }

  /** The same for one media code and no title key. */
  lemma OneCodeRanksExactly(s0: View, s: View, kind: Id -> string, owner: map<Id, Id>, merges: seq<Merged>,
                            code: string)
    returns (order: seq<Id>)
    requires Consolidated(false, s0, s, kind, owner, merges) && AtMostOneGroup(s0, merges)
    requires SharedTitles(s0.rows.stored) == {} && SharedCodes(s0.refs) == {code}
    ensures Ranked(order, CodeScores(s0.rows.stored, s0.refs, s0.ids, CodeOwners(s0.refs, code)))
    ensures forall r0 :: r0 in s0.rows.stored ==>
                           (RankKept(s0.rows.stored, s.rows.stored, owner, r0)
                            <==> s0.rows.stored[r0].identity !in CodeOwners(s0.refs, code)
                                 || Covered(s0.rows.stored, order, r0))
  {
    hide Consolidated;
    hide SharedTitles;
    hide SharedCodes;
    hide RankKept;
    hide Covered;
    hide CodeOwners;
    var t := s0.rows.stored;
    var scores := CodeScores(t, s0.refs, s0.ids, CodeOwners(s0.refs, code));
    assert FanOf(scores, merges);
    order :| RankedFan(order, scores, merges);
    forall r0 | r0 in t
      ensures RankKept(t, s.rows.stored, owner, r0)
              <==> t[r0].identity !in CodeOwners(s0.refs, code) || Covered(t, order, r0)
    {
      OneGroupRanksExactly(s0, s, kind, owner, order, r0);
    }
  }

  // --- whom a run leaves alone ---

  lemma {:induction false} ChainStays(links: set<(Id, Id)>, p: seq<Id>)
    requires Chain(links, p) && forall y :: (p[0], y) in links ==> y == p[0]
    ensures p[|p| - 1] == p[0]
    decreases |p|
  {
    if |p| > 1 {
      assert (p[0], p[0 + 1]) in links;
      ChainStays(links, p[1..]);
    }
  }

  /** An identity that shares no title and no media code with another shares its owner with nobody. */
  lemma StrangersStayApart(autoflush: bool, s0: View, s: View, kind: Id -> string, owner: map<Id, Id>,
                           merges: seq<Merged>, x: Id, y: Id)
    requires Consolidated(autoflush, s0, s, kind, owner, merges) && x in owner && y in owner && owner[x] == owner[y]
    requires forall z :: (x, z) in Kin(s0) ==> z == x
    ensures y == x
  {
    hide Kin;
    assert Reaches(Kin(s0), x, y);
    var p :| ChainBetween(Kin(s0), p, x, y);
    ChainStays(Kin(s0), p);
  }
}
