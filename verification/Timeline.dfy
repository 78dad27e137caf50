/** The lifecycle timeline: of each stage the last event, in stage order. */
module Timeline {
  import opened Lifecycle
  import opened Sorting

  datatype Event = Event(id: nat, stage: Stage, at: Time, rest: string)

  /** The primary key. */
  ghost predicate DistinctIds(rows: seq<Event>) {
    forall i, j :: 0 <= i < j < |rows| ==> rows[i].id != rows[j].id
  }

  predicate NotLater(a: Event, b: Event) {
    a.at < b.at || (a.at == b.at && a.id <= b.id)
  }

  function SortKey(e: Event): Key {
    (StageRank(e.stage), e.at, e.id)
  }

  /** The event of its stage with the greatest (OCCURRED_AT, ID). */
  ghost predicate LatestOf(rows: seq<Event>, e: Event) {
    e in rows && forall x :: x in rows && x.stage == e.stage ==> NotLater(x, e)
  }

  ghost predicate IsTimeline(rows: seq<Event>, timeline: seq<Event>) {
    && Sorted(timeline, SortKey) && DistinctKeys(timeline, SortKey)
    && forall e :: e in timeline <==> LatestOf(rows, e)
  }

  // --- the loop ---

  function IndexOf(latest: seq<Event>, stage: Stage): (i: nat)
    ensures i <= |latest| && (i < |latest| ==> latest[i].stage == stage)
    ensures forall j :: 0 <= j < i ==> latest[j].stage != stage
  {
    if latest == [] || latest[0].stage == stage then 0 else 1 + IndexOf(latest[1..], stage)
  }

  ghost predicate HasStage(events: seq<Event>, stage: Stage) {
    exists i :: 0 <= i < |events| && events[i].stage == stage
  }

  /** The dictionary: one entry per stage seen, in the order of first sight. */
  ghost predicate Tracks(rows: seq<Event>, latest: seq<Event>) {
    && (forall i, j :: 0 <= i < j < |latest| ==> latest[i].stage != latest[j].stage)
    && (forall e :: e in latest ==> LatestOf(rows, e))
    && (forall x :: x in rows ==> HasStage(latest, x.stage))
  }

  function Tracked(latest: seq<Event>, row: Event): seq<Event> {
    var i := IndexOf(latest, row.stage);
    if i == |latest| then latest + [row]
    else if NotLater(latest[i], row) then latest[i := row]
    else latest
  }

  lemma LatestOneMore(rows: seq<Event>, latest: seq<Event>, row: Event, e: Event)
    requires Tracks(rows, latest) && e in Tracked(latest, row)
    ensures LatestOf(rows + [row], e)
  {
    var i := IndexOf(latest, row.stage);
    if i < |latest| {
      assert latest[i] in latest;
      assert LatestOf(rows, latest[i]);
    }
    if e in latest {
      assert LatestOf(rows, e);
    }
    if i == |latest| {
      forall x | x in rows
        ensures x.stage != row.stage
      {
        assert HasStage(latest, x.stage);
      }
    }
  }

  lemma StageOneMore(latest: seq<Event>, row: Event, stage: Stage)
    requires HasStage(latest, stage) || stage == row.stage
    ensures HasStage(Tracked(latest, row), stage)
  {
    var next, i := Tracked(latest, row), IndexOf(latest, row.stage);
    if stage == row.stage {
      assert next[i].stage == stage;
    } else {
      var j :| 0 <= j < |latest| && latest[j].stage == stage;
      assert next[j].stage == stage;
    }
  }

  lemma TracksOneMore(rows: seq<Event>, latest: seq<Event>, row: Event)
    requires Tracks(rows, latest)
    ensures Tracks(rows + [row], Tracked(latest, row))
  {
    var next := Tracked(latest, row);
    forall e | e in next
      ensures LatestOf(rows + [row], e)
    {
      LatestOneMore(rows, latest, row, e);
    }
    forall x | x in rows + [row]
      ensures HasStage(next, x.stage)
    {
      StageOneMore(latest, row, x.stage);
    }
    hide LatestOf;
    hide HasStage;
  }

  lemma TracksAll(rows: seq<Event>, latest: seq<Event>)
    requires DistinctIds(rows) && Tracks(rows, latest)
    ensures DistinctKeys(latest, SortKey)
    ensures forall e :: e in latest <==> LatestOf(rows, e)
  {
    forall i, j | 0 <= i < j < |latest|
      ensures SortKey(latest[i]) != SortKey(latest[j])
    {
      assert LatestOf(rows, latest[i]) && LatestOf(rows, latest[j]);
      DifferentIds(rows, latest[i], latest[j]);
    }
    forall e | LatestOf(rows, e)
      ensures e in latest
    {
      assert HasStage(latest, e.stage);
      var i :| 0 <= i < |latest| && latest[i].stage == e.stage;
      SameLatest(rows, e, latest[i]);
    }
  }

  lemma DifferentIds(rows: seq<Event>, a: Event, b: Event)
    requires DistinctIds(rows) && a in rows && b in rows && a != b
    ensures a.id != b.id
  {
  }

  lemma SameLatest(rows: seq<Event>, a: Event, b: Event)
    requires DistinctIds(rows) && LatestOf(rows, a) && LatestOf(rows, b) && a.stage == b.stage
    ensures a == b
  {
    if a != b {
      DifferentIds(rows, a, b);
    }
  }

  /** `_collapse_timeline`. */
  method Collapse(rows: seq<Event>) returns (timeline: seq<Event>)
    requires DistinctIds(rows)
    ensures IsTimeline(rows, timeline)
  {
    var latest := [];
    for i := 0 to |rows|
      invariant Tracks(rows[..i], latest)
    {
      TracksOneMore(rows[..i], latest, rows[i]);
      assert rows[..i + 1] == rows[..i] + [rows[i]];
      latest := Tracked(latest, rows[i]);
    }
    assert rows[..|rows|] == rows;
    timeline := Sort(latest, SortKey);
    TracksAll(rows, latest);
    SortSorts(latest, SortKey);
    SortDistinct(latest, SortKey);
    forall e
      ensures e in timeline <==> e in latest
    {
      SortIn(latest, SortKey, e);
    }
  }

  // --- what a timeline is ---

  lemma {:induction false} SomeLatest(rows: seq<Event>, stage: Stage) returns (e: Event)
    requires exists x :: x in rows && x.stage == stage
    ensures LatestOf(rows, e) && e.stage == stage
  {
    var front, last := rows[..|rows| - 1], rows[|rows| - 1];
    assert rows == front + [last];
    if exists x :: x in front && x.stage == stage {
      e := SomeLatest(front, stage);
      if last.stage == stage && NotLater(e, last) {
        e := last;
      }
    } else {
      e := last;
    }
  }

  /** Every stage that occurs has exactly one event in the timeline. */
  lemma OneEventPerStage(rows: seq<Event>, timeline: seq<Event>, x: Event)
    requires DistinctIds(rows) && IsTimeline(rows, timeline) && x in rows
    ensures exists e :: e in timeline && e.stage == x.stage
    ensures forall a, b :: a in timeline && b in timeline && a.stage == b.stage ==> a == b
  {
    var e := SomeLatest(rows, x.stage);
    forall a, b | a in timeline && b in timeline && a.stage == b.stage
      ensures a == b
    {
      SameLatest(rows, a, b);
    }
  }

  /** The order of the input does not matter. */
  lemma OrderDoesNotMatter(rows: seq<Event>, shuffled: seq<Event>, a: seq<Event>, b: seq<Event>)
    requires IsTimeline(rows, a) && IsTimeline(shuffled, b)
    requires multiset(rows) == multiset(shuffled)
    ensures a == b
  {
    forall e
      ensures e in rows <==> e in shuffled
    {
      assert e in rows <==> e in multiset(rows);
      assert e in shuffled <==> e in multiset(shuffled);
    }
    forall e
      ensures LatestOf(rows, e) <==> LatestOf(shuffled, e)
    {
    }
    StrictOnce(a, b, SortKey);
  }

  /** Collapsing a timeline changes nothing. */
  lemma CollapsingTwice(rows: seq<Event>, once: seq<Event>, twice: seq<Event>)
    requires DistinctIds(rows) && IsTimeline(rows, once) && IsTimeline(once, twice)
    ensures twice == once
  {
    forall e
      ensures e in twice <==> e in once
    {
      if e in once {
        OneEventPerStage(rows, once, e);
      }
    }
    StrictOnce(twice, once, SortKey);
  }

  /** The timeline in the columns: earlier stages first, and of one stage the event with the latest time, of those with
      the greatest id. */
  lemma TimelineExactly(rows: seq<Event>, timeline: seq<Event>, i: nat, j: nat)
    requires DistinctIds(rows) && IsTimeline(rows, timeline) && i < |timeline|
    ensures timeline[i] in rows
    ensures forall x :: x in rows && x.stage == timeline[i].stage
                        ==> x.at < timeline[i].at || (x.at == timeline[i].at && x.id <= timeline[i].id)
    ensures i < j < |timeline| ==> StageRank(timeline[i].stage) <= StageRank(timeline[j].stage)
    ensures i < j < |timeline| && StageRank(timeline[i].stage) == StageRank(timeline[j].stage)
            ==> timeline[i].at < timeline[j].at || (timeline[i].at == timeline[j].at && timeline[i].id < timeline[j].id)
  {
    assert timeline[i] in timeline;
    assert LatestOf(rows, timeline[i]);
    if i < j < |timeline| {
      assert AtMost(SortKey(timeline[i]), SortKey(timeline[j]));
      assert SortKey(timeline[i]) != SortKey(timeline[j]);
    }
  }
}
