/** The lifecycle read model: stages, their order, and one snapshot row per (identity, season, episode). */
module Lifecycle {
  import opened Wrappers

  type Id = string
  type Time = nat  // datetime.min is 0

  /** Who answers for identity `x` once the identities in `owner` have been merged. */
  function Own(owner: map<Id, Id>, x: Id): Id {
    if x in owner then owner[x] else x
  }

  /** The stage column: the stages of the lifecycle in order, or another string. */
  datatype StageColumn =
    | Identified | Subscribed | Searching | DownloadQueued | Downloading | Downloaded | TransferQueued
    | Transferring | Transferred | ScrapeQueued | Scraping | Scraped | InLibrary
    | Unrecognised(name: string)
  {
    /** The text in the column. */
    function Text(): string {
      match this
      case Identified => "identified"
      case Subscribed => "subscribed"
      case Searching => "searching"
      case DownloadQueued => "download_queued"
      case Downloading => "downloading"
      case Downloaded => "downloaded"
      case TransferQueued => "transfer_queued"
      case Transferring => "transferring"
      case Transferred => "transferred"
      case ScrapeQueued => "scrape_queued"
      case Scraping => "scraping"
      case Scraped => "scraped"
      case InLibrary => "in_library"
      case Unrecognised(name) => name
    }
  }

  const STAGES: seq<StageColumn> :=
    [Identified, Subscribed, Searching, DownloadQueued, Downloading, Downloaded, TransferQueued, Transferring,
     Transferred, ScrapeQueued, Scraping, Scraped, InLibrary]

  /** A string that names a stage is that stage. */
  predicate Proper(stage: StageColumn) {
    stage.Unrecognised? ==> forall i :: 0 <= i < |STAGES| ==> STAGES[i].Text() != stage.name
  }

  type Stage = stage: StageColumn | Proper(stage) witness Identified

  lemma TextDecidesStage(a: Stage, b: Stage)
    requires a.Text() == b.Text()
    ensures a == b
  {
    assert a.Unrecognised? || STAGES[StageRank(a)] == a;
    assert b.Unrecognised? || STAGES[StageRank(b)] == b;
    if !a.Unrecognised? && !b.Unrecognised? {
    }
  }

  /** Position of a stage in the lifecycle; an unrecognised stage ranks below all of them. */
  function StageRank(stage: Stage): (r: int)
    ensures r == -1 <==> stage.Unrecognised?
    ensures -1 <= r < |STAGES| && (r >= 0 ==> STAGES[r] == stage)
  {
    match stage
    case Identified => 0
    case Subscribed => 1
    case Searching => 2
    case DownloadQueued => 3
    case Downloading => 4
    case Downloaded => 5
    case TransferQueued => 6
    case Transferring => 7
    case Transferred => 8
    case ScrapeQueued => 9
    case Scraping => 10
    case Scraped => 11
    case InLibrary => 12
    case Unrecognised(_) => -1
  }

  /** The ten columns that a winning row copies over the row it beats. */
  datatype Standing = Standing(
    stage: Stage,
    status: string,
    progress: int,
    title: Option<string>,
    year: Option<string>,
    poster: Option<string>,
    sourceProvider: Option<string>,
    stageStartedAt: Option<Time>,
    lastEventAt: Option<Time>,
    lastError: Option<string>)

  /** The columns of a row that no merge ever copies. */
  datatype Kept = Kept(
    mediaType: string,
    runId: Option<string>,
    traceId: Option<string>,
    contentProfile: Option<string>,
    userId: Option<int>,
    nextRetryAt: Option<Time>,
    retryCount: int,
    createdAt: Time)

  datatype Slot = Slot(season: int, episode: int)

  datatype Snapshot = Snapshot(identity: Id, slot: Slot, standing: Standing, kept: Kept)

  /** What two rows of one slot compete on: the stage first, then the time of the last event. */
  datatype Rank = Rank(stage: int, at: Time) {
    predicate Below(other: Rank) {
      stage < other.stage || (stage == other.stage && at < other.at)
    }

    predicate AtMost(other: Rank) {
      this == other || Below(other)
    }
  }

  function EventTime(s: Standing): Time {
    s.lastEventAt.GetOr(s.stageStartedAt.GetOr(0))
  }

  function RankOf(s: Standing): Rank {
    Rank(StageRank(s.stage), EventTime(s))
  }
}
