/** The episode list of an identity: its lifecycle rows, filled up with the episodes its subscriptions promise. */
module EpisodeFill {
  import opened Lifecycle
  import opened Sorting
  import opened Titles
  import opened Wrappers

  /** `rest` stands for the display fields. */
  datatype Payload = Payload(season: int, episode: int, stage: Stage, missing: bool, profile: Option<string>,
                             mediaType: Option<string>, rest: string)

  /** A subscription's summary; a missing number counts as 0. */
  datatype Summary = Summary(season: string, total: int, completed: int, missing: set<int>, profile: Option<string>)

  function SlotKey(p: Payload): Key {
    (p.season, p.episode, 0)
  }

  // --- the season of a summary ---

  function Number(text: string, soFar: nat): nat {
    if text != "" && IsDigit(text[0]) then Number(text[1..], soFar * 10 + (text[0] - '0') as nat) else soFar
  }

  /** The first run of digits. */
  function FirstNumber(text: string): Option<nat> {
    if text == "" then None
    else if IsDigit(text[0]) then Some(Number(text, 0))
    else FirstNumber(text[1..])
  }

  function Digit(d: nat): char
    requires d < 10
  {
    '0' + d as char
  }

  function Decimal(n: nat): (s: string)
    ensures s != "" && forall i :: 0 <= i < |s| ==> IsDigit(s[i])
  {
    if n < 10 then [Digit(n)] else Decimal(n / 10) + [Digit(n % 10)]
  }

  lemma {:induction false} NumberJoin(a: string, b: string, soFar: nat)
    requires forall i :: 0 <= i < |a| ==> IsDigit(a[i])
    ensures Number(a + b, soFar) == Number(b, Number(a, soFar))
    decreases |a|
  {
    if a == "" {
      assert a + b == b;
    } else {
      assert (a + b)[1..] == a[1..] + b;
      NumberJoin(a[1..], b, soFar * 10 + (a[0] - '0') as nat);
    }
  }

  lemma {:induction false} DecimalReads(n: nat)
    ensures Number(Decimal(n), 0) == n
  {
    if n >= 10 {
      DecimalReads(n / 10);
      NumberJoin(Decimal(n / 10), [Digit(n % 10)], 0);
      assert [Digit(n % 10)][1..] == "";
    } else {
      assert [Digit(n)][1..] == "";
    }
  }

  /** A season written as text without digits, the number in decimal, and more text is read as that number. */
  lemma {:induction false} SeasonIsRead(before: string, n: nat, after: string)
    requires forall i :: 0 <= i < |before| ==> !IsDigit(before[i])
    requires after == "" || !IsDigit(after[0])
    ensures FirstNumber(before + Decimal(n) + after) == Some(n)
    decreases |before|
  {
    var text := before + Decimal(n) + after;
    if before == "" {
      assert text == Decimal(n) + after;
      NumberJoin(Decimal(n), after, 0);
      DecimalReads(n);
    } else {
      assert text[1..] == before[1..] + Decimal(n) + after;
      SeasonIsRead(before[1..], n, after);
    }
  }

  // --- kept rows ---

  function Numbered(rows: seq<Payload>): (kept: seq<Payload>)
    ensures forall p :: p in kept <==> p in rows && p.episode > 0
  {
    if rows == [] then []
    else
      var front, last := Numbered(rows[..|rows| - 1]), rows[|rows| - 1];
      assert rows == rows[..|rows| - 1] + [last];
      if last.episode > 0 then front + [last] else front
  }

  /** Rows without an episode number are dropped as soon as one row has a number. */
  function Kept(rows: seq<Payload>): seq<Payload> {
    if exists p :: p in rows && p.episode > 0 then Numbered(rows) else rows
  }

  // --- one summary ---

  function SeasonFor(s: Summary, kept: seq<Payload>): (season: int)
    ensures season >= 1
  {
    var n := match FirstNumber(s.season) case Some(v) => v case None => if kept != [] then kept[0].season else 0;
    if n <= 0 then 1 else n
  }

  function Completed(s: Summary): int {
    var low := if s.completed < s.total then s.completed else s.total;
    if low < 0 then 0 else low
  }

  predicate IsMissing(s: Summary, episode: int) {
    if s.missing != {} then episode in s.missing else episode > Completed(s)
  }

  function ProfileFor(s: Summary, kept: seq<Payload>): string {
    if s.profile.GetOr("") != "" then s.profile.value
    else if kept != [] && kept[0].profile.GetOr("") != "" then kept[0].profile.value
    else "default"
  }

  function MediaTypeFor(s: Summary, kept: seq<Payload>): string {
    if ProfileFor(s, kept) == "anime" then "anime"
    else if kept != [] && kept[0].mediaType.GetOr("") != "" then kept[0].mediaType.value
    else "tv"
  }

  function Synthesized(s: Summary, kept: seq<Payload>, episode: int): Payload {
    var missing := IsMissing(s, episode);
    Payload(SeasonFor(s, kept), episode, if missing then Subscribed else InLibrary, missing,
            Some(ProfileFor(s, kept)), Some(MediaTypeFor(s, kept)), "")
  }

  /** The summary promises the slot. */
  predicate Promises(s: Summary, kept: seq<Payload>, k: Key) {
    k.0 == SeasonFor(s, kept) && 1 <= k.1 <= s.total && k.2 == 0
  }

  predicate Taken(kept: seq<Payload>, k: Key) {
    exists i :: 0 <= i < |kept| && SlotKey(kept[i]) == k
  }

  /** What a slot receives from the summaries that promise it, in order. */
  function Offers(summaries: seq<Summary>, kept: seq<Payload>, k: Key): seq<Payload> {
    if summaries == [] then []
    else
      var before, s := Offers(summaries[..|summaries| - 1], kept, k), summaries[|summaries| - 1];
      if Promises(s, kept, k) then before + [Synthesized(s, kept, k.1)] else before
  }

  // --- the loops ---

  /** What has been appended to the kept rows so far: every slot has its first offers, unless it is taken. */
  ghost predicate Appended(summaries: seq<Summary>, kept: seq<Payload>, added: seq<Payload>) {
    forall k :: Having(added, SlotKey, k) == if Taken(kept, k) then [] else Offers(summaries, kept, k)
  }

  /** Midway through summary `s`, whose episodes below `next` have been visited. */
  ghost predicate Midway(summaries: seq<Summary>, s: Summary, kept: seq<Payload>, added: seq<Payload>, next: int) {
    forall k :: Having(added, SlotKey, k)
                == if Taken(kept, k) then []
                   else if Promises(s, kept, k) && k.1 < next then Offers(summaries + [s], kept, k)
                   else Offers(summaries, kept, k)
  }

  lemma OffersStep(summaries: seq<Summary>, s: Summary, kept: seq<Payload>, k: Key)
    ensures Offers(summaries + [s], kept, k)
            == Offers(summaries, kept, k) + if Promises(s, kept, k) then [Synthesized(s, kept, k.1)] else []
  {
    assert (summaries + [s])[..|summaries|] == summaries;
  }

  lemma MidwayStarts(summaries: seq<Summary>, s: Summary, kept: seq<Payload>, added: seq<Payload>)
    requires Appended(summaries, kept, added)
    ensures Midway(summaries, s, kept, added, 1)
  {
  }

  lemma MidwayEnds(summaries: seq<Summary>, s: Summary, kept: seq<Payload>, added: seq<Payload>, next: int)
    requires Midway(summaries, s, kept, added, next) && next > s.total
    ensures Appended(summaries + [s], kept, added)
  {
    forall k
      ensures Having(added, SlotKey, k) == if Taken(kept, k) then [] else Offers(summaries + [s], kept, k)
    {
      OffersStep(summaries, s, kept, k);
    }
  }

  function WithEpisode(s: Summary, kept: seq<Payload>, added: seq<Payload>, episode: int): seq<Payload> {
    if Taken(kept, (SeasonFor(s, kept), episode, 0)) then added else added + [Synthesized(s, kept, episode)]
  }

  lemma SlotVisited(s: Summary, kept: seq<Payload>, added: seq<Payload>, episode: int, k: Key)
    ensures Having(WithEpisode(s, kept, added, episode), SlotKey, k)
            == Having(added, SlotKey, k)
               + if k == (SeasonFor(s, kept), episode, 0) && !Taken(kept, k)
                 then [Synthesized(s, kept, episode)] else []
  {
    HavingJoin(added, [Synthesized(s, kept, episode)], SlotKey, k);
    HavingOne(Synthesized(s, kept, episode), SlotKey, k);
  }

  lemma EpisodeVisited(summaries: seq<Summary>, s: Summary, kept: seq<Payload>, added: seq<Payload>, episode: int)
    requires Midway(summaries, s, kept, added, episode) && 1 <= episode <= s.total
    ensures Midway(summaries, s, kept, WithEpisode(s, kept, added, episode), episode + 1)
  {
    var next := WithEpisode(s, kept, added, episode);
    forall k: Key
      ensures Having(next, SlotKey, k)
              == if Taken(kept, k) then []
                 else if Promises(s, kept, k) && k.1 < episode + 1 then Offers(summaries + [s], kept, k)
                 else Offers(summaries, kept, k)
    {
      hide WithEpisode;
      hide Synthesized;
      hide SeasonFor;
      hide Taken;
      hide Having;
      hide Offers;
      OffersStep(summaries, s, kept, k);
      SlotVisited(s, kept, added, episode, k);
    }
  }

  /** Slot by slot, the list holds the kept rows or, where there are none, what the summaries offer. */
  ghost predicate IsEpisodeList(rows: seq<Payload>, summaries: seq<Summary>, payloads: seq<Payload>) {
    && Sorted(payloads, SlotKey)
    && forall k :: Having(payloads, SlotKey, k)
                   == if Taken(Kept(rows), k) then Having(Kept(rows), SlotKey, k) else Offers(summaries, Kept(rows), k)
  }

  /** The episode list. */
  method ListEpisodes(rows: seq<Payload>, summaries: seq<Summary>) returns (payloads: seq<Payload>)
    ensures IsEpisodeList(rows, summaries, payloads)
  {
    var kept := Kept(rows);
    var added: seq<Payload> := [];
    for i := 0 to |summaries|
      invariant Appended(summaries[..i], kept, added)
    {
      var s := summaries[i];
      assert summaries[..i + 1] == summaries[..i] + [s];
      MidwayStarts(summaries[..i], s, kept, added);
      var episode := 1;
      while episode <= s.total
        invariant episode >= 1 && Midway(summaries[..i], s, kept, added, episode)
      {
        EpisodeVisited(summaries[..i], s, kept, added, episode);
        if !Taken(kept, (SeasonFor(s, kept), episode, 0)) {
          added := added + [Synthesized(s, kept, episode)];
        }
        episode := episode + 1;
      }
      MidwayEnds(summaries[..i], s, kept, added, episode);
    }
    assert summaries[..|summaries|] == summaries;
    payloads := Sort(kept + added, SlotKey);
    SortSorts(kept + added, SlotKey);
    forall k
      ensures Having(payloads, SlotKey, k)
              == if Taken(kept, k) then Having(kept, SlotKey, k) else Offers(summaries, kept, k)
    {
      SlotFilled(summaries, kept, added, k);
    }
  }

  lemma SlotFilled(summaries: seq<Summary>, kept: seq<Payload>, added: seq<Payload>, k: Key)
    requires Appended(summaries, kept, added)
    ensures Having(Sort(kept + added, SlotKey), SlotKey, k)
            == if Taken(kept, k) then Having(kept, SlotKey, k) else Offers(summaries, kept, k)
  {
    SortIsStable(kept + added, SlotKey, k);
    HavingJoin(kept, added, SlotKey, k);
    TakenExactly(kept, k);
  }

  lemma TakenExactly(kept: seq<Payload>, k: Key)
    ensures Taken(kept, k) <==> Having(kept, SlotKey, k) != []
  {
    if Taken(kept, k) {
      var i :| 0 <= i < |kept| && SlotKey(kept[i]) == k;
      HavingIn(kept, SlotKey, k, kept[i]);
    }
    if Having(kept, SlotKey, k) != [] {
      var p := Having(kept, SlotKey, k)[0];
      HavingIn(kept, SlotKey, k, p);
    }
  }

  // --- completeness and duplicates ---

  /** The description leaves no choice. */
  lemma OneEpisodeList(rows: seq<Payload>, summaries: seq<Summary>, a: seq<Payload>, b: seq<Payload>)
    requires IsEpisodeList(rows, summaries, a) && IsEpisodeList(rows, summaries, b)
    ensures a == b
  {
    SortedOnce(a, b, SlotKey);
  }

  lemma {:induction false} OfferOf(summaries: seq<Summary>, kept: seq<Payload>, k: Key, i: nat)
    requires i < |summaries| && Promises(summaries[i], kept, k)
    ensures Synthesized(summaries[i], kept, k.1) in Offers(summaries, kept, k)
  {
    if i < |summaries| - 1 {
      OfferOf(summaries[..|summaries| - 1], kept, k, i);
    }
  }

  lemma {:induction false} OfferFrom(summaries: seq<Summary>, kept: seq<Payload>, k: Key, p: Payload) returns (i: nat)
    requires p in Offers(summaries, kept, k)
    ensures i < |summaries| && Promises(summaries[i], kept, k) && p == Synthesized(summaries[i], kept, k.1)
  {
    var n := |summaries| - 1;
    if Promises(summaries[n], kept, k) && p == Synthesized(summaries[n], kept, k.1) {
      i := n;
    } else {
      i := OfferFrom(summaries[..n], kept, k, p);
    }
  }

  /** Every row kept is listed, every promised episode is listed, and whatever else is listed is a free slot's
      synthesized row, missing as its summary says. */
  lemma ListIsComplete(rows: seq<Payload>, summaries: seq<Summary>, payloads: seq<Payload>)
    requires IsEpisodeList(rows, summaries, payloads)
    ensures forall p :: p in Kept(rows) ==> p in payloads
    ensures forall i, k :: 0 <= i < |summaries| && Promises(summaries[i], Kept(rows), k) ==> Taken(payloads, k)
    ensures forall p ::
              p in payloads
              ==> p in Kept(rows) || (!Taken(Kept(rows), SlotKey(p)) && FromSummary(summaries, Kept(rows), p))
  {
    var kept := Kept(rows);
    forall p | p in kept
      ensures p in payloads
    {
      HavingIn(kept, SlotKey, SlotKey(p), p);
      HavingIn(payloads, SlotKey, SlotKey(p), p);
      TakenExactly(kept, SlotKey(p));
    }
    forall i, k | 0 <= i < |summaries| && Promises(summaries[i], kept, k)
      ensures Taken(payloads, k)
    {
      TakenExactly(payloads, k);
      TakenExactly(kept, k);
      OfferOf(summaries, kept, k, i);
    }
    forall p | p in payloads && p !in kept
      ensures !Taken(kept, SlotKey(p)) && FromSummary(summaries, kept, p)
    {
      ListedIsOffered(rows, summaries, payloads, p);
    }
  }

  ghost predicate FromSummary(summaries: seq<Summary>, kept: seq<Payload>, p: Payload) {
    exists i ::
      0 <= i < |summaries| && Promises(summaries[i], kept, SlotKey(p))
      && p == Synthesized(summaries[i], kept, p.episode)
  }

  lemma ListedIsOffered(rows: seq<Payload>, summaries: seq<Summary>, payloads: seq<Payload>, p: Payload)
    requires IsEpisodeList(rows, summaries, payloads) && p in payloads && p !in Kept(rows)
    ensures !Taken(Kept(rows), SlotKey(p)) && FromSummary(summaries, Kept(rows), p)
  {
    var kept := Kept(rows);
    HavingIn(payloads, SlotKey, SlotKey(p), p);
    HavingIn(kept, SlotKey, SlotKey(p), p);
    if !Taken(kept, SlotKey(p)) {
      var i := OfferFrom(summaries, kept, SlotKey(p), p);
    }
  }

  /** Two summaries promise the same slot, and no row holds it. */
  ghost predicate Clash(summaries: seq<Summary>, kept: seq<Payload>) {
    exists i, j, k ::
      0 <= i < j < |summaries| && Promises(summaries[i], kept, k) && Promises(summaries[j], kept, k) && !Taken(kept, k)
  }

  lemma {:induction false} TwoOffers(summaries: seq<Summary>, kept: seq<Payload>, k: Key, i: nat, j: nat)
    requires i < j < |summaries| && Promises(summaries[i], kept, k) && Promises(summaries[j], kept, k)
    ensures |Offers(summaries, kept, k)| >= 2
  {
    var n := |summaries| - 1;
    if j < n {
      TwoOffers(summaries[..n], kept, k, i, j);
    } else {
      OfferOf(summaries[..n], kept, k, i);
    }
  }

  lemma {:induction false} TwoPromises(summaries: seq<Summary>, kept: seq<Payload>, k: Key) returns (i: nat, j: nat)
    requires |Offers(summaries, kept, k)| >= 2
    ensures i < j < |summaries| && Promises(summaries[i], kept, k) && Promises(summaries[j], kept, k)
  {
    var n := |summaries| - 1;
    if |Offers(summaries[..n], kept, k)| >= 2 {
      i, j := TwoPromises(summaries[..n], kept, k);
    } else {
      j := n;
      i := OfferFrom(summaries[..n], kept, k, Offers(summaries[..n], kept, k)[0]);
    }
  }

  /** No slot is listed twice exactly when no two rows share one and no two summaries promise the same free one. */
  lemma NoDuplicatesExactly(rows: seq<Payload>, summaries: seq<Summary>, payloads: seq<Payload>)
    requires IsEpisodeList(rows, summaries, payloads)
    ensures DistinctKeys(payloads, SlotKey) <==> DistinctKeys(Kept(rows), SlotKey) && !Clash(summaries, Kept(rows))
  {
    var kept := Kept(rows);
    DistinctByCount(payloads, SlotKey);
    DistinctByCount(kept, SlotKey);
    if DistinctKeys(payloads, SlotKey) {
      forall k
        ensures AtMostOneOf(kept, SlotKey, k)
      {
        TakenExactly(kept, k);
        assert AtMostOneOf(payloads, SlotKey, k);
      }
      if Clash(summaries, kept) {
        var i, j, k :| 0 <= i < j < |summaries| && Promises(summaries[i], kept, k) && Promises(summaries[j], kept, k)
                       && !Taken(kept, k);
        assert AtMostOneOf(payloads, SlotKey, k);
        TwoOffers(summaries, kept, k, i, j);
      }
    }
    if DistinctKeys(kept, SlotKey) && !Clash(summaries, kept) {
      forall k
        ensures AtMostOneOf(payloads, SlotKey, k)
      {
        if !Taken(kept, k) && |Offers(summaries, kept, k)| >= 2 {
          var i, j := TwoPromises(summaries, kept, k);
        }
        assert AtMostOneOf(kept, SlotKey, k);
      }
    }
  }

  /** Summaries with distinct seasons never clash. */
  lemma DistinctSeasonsNeverClash(summaries: seq<Summary>, kept: seq<Payload>)
    requires forall i, j :: 0 <= i < j < |summaries| ==> SeasonFor(summaries[i], kept) != SeasonFor(summaries[j], kept)
    ensures !Clash(summaries, kept)
  {
    forall i, j, k | 0 <= i < j < |summaries|
      ensures !(Promises(summaries[i], kept, k) && Promises(summaries[j], kept, k))
    {
    }
  }

  // --- the list in the columns themselves ---

  lemma {:induction false} NumberedJoin(a: seq<Payload>, b: seq<Payload>)
    ensures Numbered(a + b) == Numbered(a) + Numbered(b)
  {
    if b == [] {
      assert a + b == a;
    } else {
      assert (a + b)[..|a + b| - 1] == a + b[..|b| - 1];
      NumberedJoin(a, b[..|b| - 1]);
    }
  }

  /** Once a row has an episode number, the rows kept are those with one, in order; otherwise all are. */
  lemma RowsKeptExactly(a: seq<Payload>, p: Payload, b: seq<Payload>)
    ensures p.episode > 0 ==> Kept(a + [p] + b) == Numbered(a) + [p] + Numbered(b)
    ensures p.episode <= 0 && (exists q :: (q in a || q in b) && q.episode > 0)
            ==> Kept(a + [p] + b) == Numbered(a) + Numbered(b)
    ensures (forall q :: q in a + [p] + b ==> q.episode <= 0) ==> Kept(a + [p] + b) == a + [p] + b
  {
    NumberedJoin(a + [p], b);
    NumberedJoin(a, [p]);
    assert Numbered([p][..0]) == [];
    assert Numbered([p]) == if p.episode > 0 then [p] else [];
  }

  /** The season of a summary: the first number in its text, else that of the first row, and 1 where this gives none. */
  lemma SeasonOfSummary(s: Summary, kept: seq<Payload>, before: string, n: nat, after: string)
    requires forall i :: 0 <= i < |before| ==> !IsDigit(before[i])
    requires after == "" || !IsDigit(after[0])
    ensures s.season == before + Decimal(n) + after ==> SeasonFor(s, kept) == if n > 0 then n else 1
    ensures s.season == before
            ==> SeasonFor(s, kept) == if kept != [] && kept[0].season > 0 then kept[0].season else 1
  {
    SeasonIsRead(before, n, after);
    NoDigitNoSeason(before);
  }

  lemma {:induction false} NoDigitNoSeason(text: string)
    requires forall i :: 0 <= i < |text| ==> !IsDigit(text[i])
    ensures FirstNumber(text) == None
  {
    if text != "" {
      NoDigitNoSeason(text[1..]);
    }
  }

  /** The number of completed episodes, held between nothing and all. */
  ghost predicate CompletedIs(s: Summary, c: int) {
    (s.completed < 0 ==> c == 0) && (s.completed > s.total ==> c == s.total)
    && (0 <= s.completed <= s.total ==> c == s.completed)
  }

  ghost predicate FilledFrom(s: Summary, kept: seq<Payload>, p: Payload) {
    && 1 <= p.episode <= s.total && p.season == SeasonFor(s, kept)
    && (s.missing != {} ==> (p.missing <==> p.episode in s.missing))
    && (s.missing == {} ==> forall c :: CompletedIs(s, c) ==> (p.missing <==> p.episode > c))
    && p.stage.Text() == (if p.missing then "subscribed" else "in_library")
    && ProfileIs(s, kept, p.profile) && MediaTypeIs(kept, p)
  }

  /** The summary's profile, else that of the first row, else the default one. */
  ghost predicate ProfileIs(s: Summary, kept: seq<Payload>, profile: Option<string>) {
    if s.profile.GetOr("") != "" then profile == s.profile
    else if kept != [] && kept[0].profile.GetOr("") != "" then profile == kept[0].profile
    else profile == Some("default")
  }

  /** An anime for the profile of that name, else the media type of the first row, else a series. */
  ghost predicate MediaTypeIs(kept: seq<Payload>, p: Payload) {
    if p.profile == Some("anime") then p.mediaType == Some("anime")
    else if kept != [] && kept[0].mediaType.GetOr("") != "" then p.mediaType == kept[0].mediaType
    else p.mediaType == Some("tv")
  }

  /** What is listed beside the kept rows is filled from a summary, into a season and episode that no kept row has. */
  lemma FilledRowsExactly(rows: seq<Payload>, summaries: seq<Summary>, payloads: seq<Payload>, p: Payload)
    requires IsEpisodeList(rows, summaries, payloads) && p in payloads && p !in Kept(rows)
    ensures forall q :: q in Kept(rows) ==> q.season != p.season || q.episode != p.episode
    ensures exists s :: s in summaries && FilledFrom(s, Kept(rows), p)
  {
    var kept := Kept(rows);
    ListedIsOffered(rows, summaries, payloads, p);
    var i :| 0 <= i < |summaries| && Promises(summaries[i], kept, SlotKey(p))
             && p == Synthesized(summaries[i], kept, p.episode);
    assert FilledFrom(summaries[i], kept, p);
    forall q | q in kept
      ensures q.season != p.season || q.episode != p.episode
    {
      var j :| 0 <= j < |kept| && kept[j] == q;
      assert SlotKey(kept[j]) == SlotKey(q);
    }
  }

  /** Every episode a summary promises is listed, and a kept row keeps it from being filled. */
  lemma EveryEpisodeIsListed(rows: seq<Payload>, summaries: seq<Summary>, payloads: seq<Payload>, s: Summary,
                             episode: int)
    requires IsEpisodeList(rows, summaries, payloads) && s in summaries && 1 <= episode <= s.total
    ensures exists p :: p in payloads && p.season == SeasonFor(s, Kept(rows)) && p.episode == episode
  {
    var kept := Kept(rows);
    var k := (SeasonFor(s, kept), episode, 0);
    var i :| 0 <= i < |summaries| && summaries[i] == s;
    assert Promises(summaries[i], kept, k);
    ListIsComplete(rows, summaries, payloads);
    assert Taken(payloads, k);
    var j :| 0 <= j < |payloads| && SlotKey(payloads[j]) == k;
    assert payloads[j] in payloads;
  }

  /** The list is ordered by season and then by episode. */
  lemma ListIsOrdered(rows: seq<Payload>, summaries: seq<Summary>, payloads: seq<Payload>, i: nat, j: nat)
    requires IsEpisodeList(rows, summaries, payloads) && i < j < |payloads|
    ensures payloads[i].season < payloads[j].season
            || (payloads[i].season == payloads[j].season && payloads[i].episode <= payloads[j].episode)
  {
    assert AtMost(SlotKey(payloads[i]), SlotKey(payloads[j]));
  }
}
