# Identity merging and data migrations of a media manager

A Dafny model of the parts of the repository that rewrite tables in place and promise something about the result: the two
scripts that merge duplicate media identities and the audit they answer to, the data migrations that backfill, deduplicate,
rename and back up columns, and five smaller algorithms (menu tree, migration head, log buffer, lifecycle timeline with
episode list, bracket escaping). One module per component; `dafny verify dfyconfig.toml` checks all of them.

## How it is built

Database tables are maps from row id to row, held in a class whose methods are the original's loops. SQL statements change
them at once. `Session.dfy` also models what waits in the ORM session: attribute assignments and deletions of loaded objects
reach the table at a flush, `expire_all` drops assignments, and a statement flushes first only if the session was created
with autoflush.

* **Merging.** `SnapshotMerge.dfy` describes any sequence of merges by one map of owners and says what that map makes of
  every (season, episode) slot. `RefQuotient.dfy` does the same for references and relates owners to connected components.
  `MergeDuplicateRefs.dfy` and `Consolidate.dfy` are the two scripts. `RunTotals.dfy` counts what a run re-points.
  `PostponedRuns.dfy` says what the first of them loses in a session that does not flush, with a run in
  `PostponedExample.dfy`; `ConsolidatedRanks.dfy` says it of the second, by the succession of `Succession.dfy`, and
  `MoveFacts.dfy` what one move of it keeps and breaks. `Links.dfy` holds the chains that connect identities.
* **Migrations.** `MetadataRefs.dfy` with `ScopeBackfill.dfy` and `AnchorBackfill.dfy`, `Dedupe.dfy` with
  `SubscribeDedupe.dfy`, `SettingRename.dfy`, `SeedBackup.dfy`.
* **Walks and lists.** `Chains.dfy` holds the termination argument that `MenuTree.dfy` and `RevisionHead.dfy` share;
  `Sorting.dfy` the stable sort of `Timeline.dfy` and `EpisodeFill.dfy`; then `LogBuffer.dfy`, `ReleaseNotify.dfy`.

## Where the code and its promises part

The code is modelled as it is. These promises fail for some inputs; the lemma named says exactly for which.

* Sessions are created with `autoflush=False` (src/app/db/engine.py:49, :75). `merge_duplicate_ref_identities.py` assigns
  moves and winning columns to loaded objects and calls `expire_all` before the next source, so all but the last source's
  changes are dropped. `StrandedExactly` and `RankKeptExactly` say which rows and ranks a run loses. What can be told before
  the run: none when the references link at most one pair of identities (`OneSurplusStrandsNone`, `OneSurplusKeepsRanks`)
  and none stranded when linked identities have rows in the same slots; some in every run when two outranked identities
  have a slot to themselves (`TwoPrivateRowsStrand`, `TwoUnmatchedRowsLoseRank`); exactly which when one pair is shared
  (`OneGroupStrandsExactly`, `OneGroupKeepsRankExactly`). `StrandedAndLost` is such a run.
  `BestKeepsAllRanks` names a case in which no run loses a rank. `consolidate_lifecycle_identities.py` loses the winners'
  columns the same way: `WinnersAreLostExactly` for one move (`LostWinnerExample`), `RanksKeptExactly` for a whole run, and
  over the starting tables `LowestIsKept`, `OneTitleRanksExactly` and `OneCodeRanksExactly`. With autoflush both scripts
  keep every slot's maximum. Both modes are proved.
* The scripts compare references by (provider, external id, scope), while the unique key has included the media type since
  1b0e0cf3dccc (src/app/db/models/media_identity.py:37), so a move can drop a reference of another media type
  (`MediaTypesKeptExactly`, `MediaTypeExample`).
* `consolidate` may choose a target that is missing in MEDIA_IDENTITY because row counts come first; what it moves then
  refers to nothing (`ValidityBrokenExactly`, `MissingTargetExample`). MEDIA_EXTERNAL_REF.IDENTITY_ID is a foreign key
  (src/app/db/models/media_identity.py:42-45), so a database that enforces it rejects the move when the source has a
  reference to hand over; the lifecycle, history and subscription tables have no such key.
* One normalised key per identity is enough for the audit without autoflush. With it a winner's title reaches rows of the
  target that had none (`UntitledRowExample`); `KeyGainsHolderExactly` says when one move gives a settled key a second
  holder. One media type per identity excludes it for whole runs (`Settleable`).
* Both backfills are idempotent except for legacy ids with a space after `DB:` or `BG:` (`SecondRunIdleExactly`, twice, and
  `SpacedIdExample`).
* The downgrade of 0d5187136482 means to delete the identities it created. Its log stores the row's old identity under the
  key it deletes by, so it deletes none of them; what it may delete is an older identity without references
  (`CleanupMissesTheCreated`, `AnchorStore.Cleanup`).
* The seed backup restores every value, and also adds seed columns that a table did not have; it cannot be restored while
  one of the two tables is missing (`RoundTripExactly`, `WiderExample`, `MissingTableExample`).
* The comment in `_build_management_tree` (src/api/routers/rbac.py:691-694) speaks of a fallback to the menu code; a missing
  path has become an empty string by then, so the fallback never happens. It does not touch the tree's shape.

## Model

| member | source | states |
|---|---|---|
| SnapshotMerge.WinnerOutranks | scripts/consolidate_lifecycle_identities.py:45-62 | after the comparison the target's (stage rank, event time) is at least that of both rows |
| SnapshotMerge.LaterStageBeats | scripts/consolidate_lifecycle_identities.py:45 | a row in a later lifecycle stage wins, and a row without a known stage loses to one that has one |
| SnapshotMerge.LaterEventBeats | scripts/consolidate_lifecycle_identities.py:46-48 | within a stage the row with the later LAST_EVENT_AT wins whatever STAGE_STARTED_AT holds; a row without one competes with its STAGE_STARTED_AT, and a row with neither wins against nobody |
| SnapshotMerge.MovedRow | scripts/consolidate_lifecycle_identities.py:39-44 | handing a row to a free slot of the target keeps one row per slot and every row's slot and rank under its new owner |
| SnapshotMerge.AbsorbedRow | scripts/consolidate_lifecycle_identities.py:45-64 | a collision deletes the source row, keeps one row per slot, and the survivor carries ten columns of one of the two and ranks at least as high as both |
| SnapshotMerge.Compose | scripts/consolidate_lifecycle_identities.py:26-65 | two merge steps in a row are one merge: owners compose, one row per slot, the slot's ten columns still come from one original competitor and none outranks it |
| SnapshotMerge.SurvivorIsMaximum | scripts/merge_duplicate_ref_identities.py:33-50 | in every slot the surviving row's columns are those of one original competitor, and its rank is the lexicographic maximum over all competitors |
| SnapshotMerge.SurvivorIsLatest | scripts/merge_duplicate_ref_identities.py:33-50 | no competitor would win against the surviving row, and no competitor of its stage has had a later last event |
| SnapshotMerge.OccupiedIffContested | scripts/consolidate_lifecycle_identities.py:29-44 | a slot is held after any sequence of merges exactly when some original row competed for it |
| SnapshotMerge.OrderDoesNotMatter | scripts/consolidate_lifecycle_identities.py:26-65 | two sequences of merges with the same final owners give each slot the same rank, whatever their order |
| SnapshotMerge.WithoutTiesColumnsAgree | scripts/consolidate_lifecycle_identities.py:45-62 | without ties in a slot they agree on all ten columns |
| Sessions.Session.MoveRefs | scripts/consolidate_lifecycle_identities.py:93-108 | the loop over the source's references: every (provider, external id, scope) is still held by its row's new owner, no row is new, other identities' rows stay, and a moved row is its triple's only holder under the target |
| Sessions.OwnedRowsAreRepointed | scripts/consolidate_lifecycle_identities.py:78-92 | the rows a bulk update counts are exactly those it changes, and they go to the target |
| Sessions.PickSurvivor | scripts/consolidate_lifecycle_identities.py:188-189 | no candidate has a greater sort key than the chosen one |
| Sessions.SortScored | scripts/merge_duplicate_ref_identities.py:88 | the candidates in descending order of their sort keys, each once |
| RefQuotient.RefCompose | scripts/consolidate_lifecycle_identities.py:93-108 | moving references twice is moving them once along the composed owners; no triple is lost on the way |
| RefQuotient.SettledStep | scripts/merge_duplicate_ref_identities.py:93-114 | a (provider, external id) with one existing owner keeps one owner through every later merge |
| RefQuotient.OnlyLinkedStep | scripts/merge_duplicate_ref_identities.py:77-92 | a merge along a shared pair only ever joins identities that a chain of shared pairs connected in the original table |
| RefQuotient.ChainMeansMerged | scripts/merge_duplicate_ref_identities.py:68-92 | when every pair has one owner, all identities along a chain of shared pairs have the same survivor |
| RefQuotient.ComponentsExactly | scripts/merge_duplicate_ref_identities.py:58-92 | two original identities end in the same survivor if and only if a chain of shared (provider, external id) pairs connected them |
| MergeDuplicateRefs.SharedPairsExactly | scripts/merge_duplicate_ref_identities.py:58-67 | the groups are exactly the (provider, external id) pairs that two identities hold |
| Succession.InheritedStep | scripts/consolidate_lifecycle_identities.py:26-65 | moving rows to free slots and deleting the others without copying a column: if each slot was held by the row of the first identity in its line that had one, so it is after one more merge, with the lines joined |
| MergeDuplicateRefs.MergeSnapshots | scripts/merge_duplicate_ref_identities.py:16-53 | with autoflush the rows are merged slot by slot as above; without it nothing is written, exactly the losing rows are marked deleted, and what waits is exactly the source rows on their way to free slots and the target rows that a source row beats, with that row's ten columns; the two counters add up to the source's rows |
| MergeDuplicateRefs.MergePair | scripts/merge_duplicate_ref_identities.py:90-141 | one executed merge on all tables: references, the four re-pointed tables, lifecycle rows and what waits for them in either session mode, the deleted identity and every counter |
| MergeDuplicateRefs.RankMembers | scripts/merge_duplicate_ref_identities.py:81-89 | of two existing members the later has fewer lifecycle rows, or as many and no later CREATED_AT |
| MergeDuplicateRefs.MergeGroup | scripts/merge_duplicate_ref_identities.py:90-141 | the members after the first are merged into it one by one in that order, and what the run has kept so far still holds; the group's pair is left with one existing owner |
| MergeDuplicateRefs.MergePairOwners | scripts/merge_duplicate_ref_identities.py:68-141 | one group, re-read from the current tables: afterwards its pair has at most one existing owner and everything the run has kept so far still holds, and the group is counted exactly if two existing identities hold the pair |
| MergeDuplicateRefs.Merge | scripts/merge_duplicate_ref_identities.py:56-143 | the whole run from the group list computed once: every pair has at most one existing owner, survivors are exactly the connected components, histories are re-pointed along them, the committed lifecycle table has one row per slot, slots hold their maxima when the session flushes and otherwise what all merges deleted and the last one left waiting, a single shared pair is merged in the order of its members' scores, and the identities deleted, the events and the rows counted are those the executed merges re-point, told from the starting tables |
| MergeDuplicateRefs.EveryPairHasOneOwner | scripts/merge_duplicate_ref_identities.py:58-142 | when all references pointed to existing identities they still do, each pair has exactly one owner, and every original pair is held by the survivor of its owner |
| MergeDuplicateRefs.RunsAgree | scripts/merge_duplicate_ref_identities.py:68-88 | two flushing runs over the same tables give each component the same rank in every slot, whatever order the groups came in and whichever members survived |
| MergeDuplicateRefs.WrittenIsUnique | scripts/merge_duplicate_ref_identities.py:29-53 | what is pending without autoflush commits to one row per slot |
| PostponedRuns.StrandedExactly | scripts/merge_duplicate_ref_identities.py:115-138 | without autoflush (src/app/db/engine.py:49) a run leaves a lifecycle row on a deleted identity exactly if its source was not the last one merged and the row was on its way to a free slot |
| PostponedRuns.StandingExactly | scripts/merge_duplicate_ref_identities.py:33-50 | without autoflush a surviving row keeps its own ten columns unless a row of the last source beats it, and then has that row's |
| PostponedRuns.RankKeptExactly | scripts/merge_duplicate_ref_identities.py:33-50 | without autoflush the rank of a row's slot survives the run exactly when a row of that slot ranking at least as high belonged to the survivor or to the last source, if that went to the survivor |
| PostponedRuns.OneSurplusStrandsNone | scripts/merge_duplicate_ref_identities.py:115-138 | no row is stranded when the references link at most one pair of identities |
| PostponedRuns.OneSurplusKeepsRanks | scripts/merge_duplicate_ref_identities.py:33-50 | then no slot loses rank either |
| PostponedRuns.BestKeepsAllRanks | scripts/merge_duplicate_ref_identities.py:81-92 | nor when in every component the identity with the strictly greatest (rows, CREATED_AT) has in each slot a row ranking at least as high as the others' |
| PostponedRuns.OneSurplusRunsAgree | scripts/merge_duplicate_ref_identities.py:68-88 | and two runs without autoflush agree on every slot's rank |
| PostponedRuns.NoHigherThanKept | scripts/merge_duplicate_ref_identities.py:33-50 | what any run leaves in a slot ranks no higher than what a run leaves there that keeps all ranks |
| PostponedRuns.SameSlotsStrandNone | scripts/merge_duplicate_ref_identities.py:29-32 | no row is stranded when linked identities have rows in the same slots |
| PostponedRuns.TwoPrivateRowsStrand | scripts/merge_duplicate_ref_identities.py:81-92 | outside these cases: if two different identities, each outranked by a linked one, have rows in slots that no linked identity holds, every run strands one of the two rows |
| PostponedRuns.TwoUnmatchedRowsLoseRank | scripts/merge_duplicate_ref_identities.py:33-50 | and if the two rows rank above all rows of linked identities in their slots, every run loses one of the two ranks |
| PostponedRuns.OneGroupStrandsExactly | scripts/merge_duplicate_ref_identities.py:81-92 | when one pair is shared, the rows stranded are exactly those of members between the first and the last of the script's order whose slot the first does not hold |
| PostponedRuns.OneGroupKeepsRankExactly | scripts/merge_duplicate_ref_identities.py:81-92 | when one pair is shared, a rank survives exactly when the first or the last member of that order has a row of the slot ranking at least as high |
| PostponedExample.StrandedAndLost | scripts/merge_duplicate_ref_identities.py:81-138 | a run of the script's own order over three identities and five rows: row 3 stays on a deleted identity and the better row of episode 3 is gone |
| Titles.NormalFormOfTitles | scripts/consolidate_lifecycle_identities.py:22-23 | normalising twice is normalising once, and two titles are equal under it exactly when their lower-cased words agree |
| Titles.SpaceSeparates | scripts/consolidate_lifecycle_identities.py:22-23 | white space separates words wherever it stands |
| Titles.TextIsOneWord | scripts/consolidate_lifecycle_identities.py:22-23 | a text without white space is one word |
| Titles.CaseDoesNotMatter | scripts/consolidate_lifecycle_identities.py:22-23 | titles that differ in the case of letters are one title |
| Titles.NormalFormOfCodes | scripts/consolidate_lifecycle_identities.py:117-128 | normalising a code twice is normalising once, and being a code does not depend on how it was written |
| Titles.SeparatorsDoNotMatter | scripts/consolidate_lifecycle_identities.py:117-118 | hyphens, underscores and blanks can stand anywhere in a code |
| Titles.PlainCodeInUpperCase | scripts/consolidate_lifecycle_identities.py:117-118 | without them a code is its upper-case text |
| Titles.CodesExactly | scripts/consolidate_lifecycle_identities.py:121-128 | a media code has four to twenty letters and digits, at least one of each, and nothing else but separators |
| Consolidate.MergeSnapshots | scripts/consolidate_lifecycle_identities.py:26-65 | moves and deletions are stored at once: one row per slot, no row of another identity is deleted, winners' columns stored only with autoflush |
| Consolidate.RepointHistories | scripts/consolidate_lifecycle_identities.py:70-82 | the six history and subscription tables are re-pointed and nothing else, and the count is the rows of the source in them |
| Consolidate.Move | scripts/consolidate_lifecycle_identities.py:68-114 | one move: lifecycle rows, references, the eight re-pointed tables, the deleted identity and all four counters |
| MoveFacts.NoTraceOfSource | scripts/consolidate_lifecycle_identities.py:68-114 | no table mentions the source after a move |
| MoveFacts.TriplesStay | scripts/consolidate_lifecycle_identities.py:93-108 | the set of (provider, external id, scope) triples is the same after a move |
| MoveFacts.MediaTypesKeptExactly | scripts/consolidate_lifecycle_identities.py:96-101 | a move keeps every (provider, external id, scope, media type) exactly when no two references that end up with the target share a triple under different media types; the unique key has had the media type since 1b0e0cf3dccc |
| MoveFacts.MediaTypeExample | scripts/consolidate_lifecycle_identities.py:96-101 | a series and a film with one id: moving the series deletes its reference |
| MoveFacts.ValidityBrokenExactly | scripts/consolidate_lifecycle_identities.py:112 | a move makes a valid reference dangle exactly when the source exists in MEDIA_IDENTITY, the target does not and some row of the source survives; never when the target exists |
| MoveFacts.MissingTargetExample | scripts/consolidate_lifecycle_identities.py:183-189 | two identities with one title: the order by rows puts the one missing in MEDIA_IDENTITY first, and the move leaves a lifecycle row on it |
| MoveFacts.WinnersAreLostExactly | scripts/consolidate_lifecycle_identities.py:50-64 | without autoflush a move loses some slot's rank exactly when a source row beats the target row it collides with |
| MoveFacts.LostWinnerExample | scripts/consolidate_lifecycle_identities.py:50-64 | a library row beats a subscribed row and the slot is left with the subscribed one |
| MoveFacts.KeyGainsHolderExactly | scripts/consolidate_lifecycle_identities.py:50-64 | with autoflush a move gives a settled key a second holder exactly when a source row beats a target row whose key, with the copied columns, belongs to a third identity |
| MoveFacts.UntitledRowExample | scripts/consolidate_lifecycle_identities.py:50-62 | with autoflush one key per identity is not enough: a winner lends its title to an untitled row of another media type and a settled key gets a second holder |
| Consolidate.MoveKeepsKeys | scripts/consolidate_lifecycle_identities.py:172-176 | a move hands every title key to the new owners of its old owners and creates no key |
| Consolidate.MoveOwners | scripts/consolidate_lifecycle_identities.py:26-65 | after a move the source owns no lifecycle row, and the target owns some if the source did |
| RunTotals.OwnedNow | scripts/consolidate_lifecycle_identities.py:78-92 | what belongs to an identity in the middle of a run belonged at the start to the identities merged into it |
| RunTotals.RowsNow | scripts/consolidate_lifecycle_identities.py:26-34 | an identity has one lifecycle row for each slot that those identities had at the start |
| Consolidate.GroupTitles | scripts/consolidate_lifecycle_identities.py:162-176 | the groups hold, for every normalised non-blank key, exactly the identities with a row under it |
| Consolidate.TitleGroupsExactly | scripts/consolidate_lifecycle_identities.py:162-176 | two identities share a group exactly when rows of theirs agree on the normalised title, which is not blank, the year and the media type |
| Consolidate.RankByTitle | scripts/consolidate_lifecycle_identities.py:183-189 | of two members the later has fewer rows, or as many and is in MEDIA_IDENTITY only if the earlier is; the first has no fewer rows than any member, so a member with rows is only moved to one with rows |
| Consolidate.MergeTitleGroup | scripts/consolidate_lifecycle_identities.py:179-198 | one title group: its key ends with one owner, the other keys gain none, the members are merged into the first in descending order of their scores, merged counts one less than the members |
| Consolidate.MergeCodeGroup | scripts/consolidate_lifecycle_identities.py:137-156 | one code group: its code ends with one owner, the title keys stay settled, the members are merged into the first in descending order of their scores, merged counts one less than the members |
| Consolidate.MergeTitles | scripts/consolidate_lifecycle_identities.py:179-198 | the title half over groups read once: owners only shrink, strictly if some key had two owners, and under the hypotheses every non-blank key ends with one owner although the groups are stale; the group count is the number of keys with two or more identities at the start |
| Consolidate.PreviewTitles | scripts/consolidate_lifecycle_identities.py:191-193 | without apply nothing changes, and the count is the number of keys with two or more identities |
| Consolidate.PreviewCodes | scripts/consolidate_lifecycle_identities.py:149-151 | the same for media codes |
| Consolidate.GroupCodes | scripts/consolidate_lifecycle_identities.py:132-136 | the groups hold, for every normalised media code, exactly the identities with a reference to it |
| Consolidate.CodeGroupsExactly | scripts/consolidate_lifecycle_identities.py:132-136 | an identity is in a group exactly when one of its references has an external id that is a media code with that normal form |
| Consolidate.RankByCode | scripts/consolidate_lifecycle_identities.py:140-148 | of two members the later has fewer rows, or as many and fewer references, or as many of both and is in MEDIA_IDENTITY only if the earlier is; the first with rows if any member has some |
| Consolidate.MergeCodes | scripts/consolidate_lifecycle_identities.py:131-156 | the code half keeps what the title half achieved, and when no identity holds two codes every code ends with one owner; the group count is exact |
| Consolidate.Consolidate | scripts/consolidate_lifecycle_identities.py:159-205 | the whole script: a preview changes nothing; an applied run commits, re-points all tables along one owner map that joins only identities connected by a chain of shared titles and media codes of the starting tables, leaves in each slot the greatest rank when the session flushes and otherwise the row of the first identity in line, never adds an owner of lifecycle rows and loses one if some title group had two members, and merges every title group of the start and every code group after the title half, each counted, leaves references with one media code on one identity where identities joined by titles hold one code between them, and under one key per identity leaves every non-blank key with one owner; preview and run report the same exact number of title groups, the two identity counts are exact, merged is the number of moves, and histories, search results, events and snapshots are counted exactly, told from the starting tables; over tables with a single group the moves are those of its members in the order of their scores |
| ConsolidatedRanks.SlotsInheritedExactly | scripts/consolidate_lifecycle_identities.py:26-65 | without autoflush (src/app/db/engine.py:49) a slot of a survivor is held after the run exactly by the row of the first identity in the survivor's line that held it at the start, with its own ten columns |
| ConsolidatedRanks.RanksKeptExactly | scripts/consolidate_lifecycle_identities.py:50-64 | and a row's rank survives the run exactly when that first holder's row ranks at least as high |
| ConsolidatedRanks.LowestIsKept | scripts/consolidate_lifecycle_identities.py:50-64 | no run loses the rank of a row that ranks no higher than any row of its slot among identities connected by titles and codes |
| ConsolidatedRanks.OneGroupRanksExactly | scripts/consolidate_lifecycle_identities.py:183-198 | when the members of one group are merged in an order, the ranks kept are those that the first member holding the slot reaches, and those of all other identities |
| ConsolidatedRanks.OneTitleRanksExactly | scripts/consolidate_lifecycle_identities.py:183-198 | over tables that share one title key and no code this holds for the members sorted by their scores in the starting tables |
| ConsolidatedRanks.OneCodeRanksExactly | scripts/consolidate_lifecycle_identities.py:140-156 | and likewise over tables that share one code and no title key |
| ConsolidatedRanks.StrangersStayApart | scripts/consolidate_lifecycle_identities.py:131-198 | an identity that shares no non-blank title key and no media code with another is joined with nobody |
| Consolidate.AuditFindsOnlyBlanks | scripts/check_identity_integrity.py:64-78 | after such a run every group that the audit's raw duplicate-title query reports has a blank title |
| MetadataRefs.ParsedShape | alembic/versions/9dd288f9bf97_add_metadata_scope_columns.py:117-128 | a parsed legacy id has a provider, that provider's policy and a non-blank id, and only an id with a space after its DB: or BG: prefix is not trimmed |
| MetadataRefs.StripDropsBlanks | alembic/versions/9dd288f9bf97_add_metadata_scope_columns.py:118 | stripping drops exactly the white space around a text |
| MetadataRefs.LegacyIdIsRead | alembic/versions/9dd288f9bf97_add_metadata_scope_columns.py:117-128 | DB: in either case with an id is Douban's, BG: is Bangumi's with the anime profile, digits are TMDB's, and tt with digits is IMDb's in lower case where it is understood |
| MetadataRefs.OtherIdsAreNotRead | alembic/versions/9dd288f9bf97_add_metadata_scope_columns.py:128 | a text of no other shape is no id |
| MetadataRefs.Catalog.EnsureIdentity | alembic/versions/9dd288f9bf97_add_metadata_scope_columns.py:159-212 | the returned identity is the one the reference resolves to; it is created, together with exactly one reference row, if and only if the reference resolved to nothing; a reference keeps determining one identity |
| ScopeBackfill.PlanIsTrimmed | alembic/versions/9dd288f9bf97_add_metadata_scope_columns.py:237-252 | what is decided for a row has a visible provider and profile, a trimmed policy and an id that is not blank |
| ScopeBackfill.MediaTables.BackfillRow | alembic/versions/9dd288f9bf97_add_metadata_scope_columns.py:237-277 | one row: it becomes what its plan and the resolved identity say, no other row changes, and the reference table only grows by what is asked for |
| ScopeBackfill.MediaTables.BackfillTable | alembic/versions/9dd288f9bf97_add_metadata_scope_columns.py:279-337 | one table: every row is done, other tables are untouched |
| ScopeBackfill.MediaTables.Upgrade | alembic/versions/9dd288f9bf97_add_metadata_scope_columns.py:340-352 | all tables: every row carries its plan with an identity its reference resolves to at the end, each new reference was asked for and unresolved before, and MEDIA_IDENTITY grows by exactly the identities of the new references |
| ScopeBackfill.SameReferenceSameIdentity | alembic/versions/9dd288f9bf97_add_metadata_scope_columns.py:252-277 | rows of any two tables with the same effective reference receive the same identity |
| ScopeBackfill.AnchoredRowKeepsIt | alembic/versions/9dd288f9bf97_add_metadata_scope_columns.py:237-277 | a row with both anchor columns ends with its own anchor stripped, its profile or the default one, and its policy or that of the provider |
| ScopeBackfill.LegacyRowBecomes | alembic/versions/9dd288f9bf97_add_metadata_scope_columns.py:245-277 | a row without an anchor ends with the provider and id its legacy id means, the profile and policy of that provider where it had none, and an identity the reference resolves to; other columns stay |
| ScopeBackfill.OtherRowsStay | alembic/versions/9dd288f9bf97_add_metadata_scope_columns.py:245-247 | a row without an anchor and with a legacy id of no known shape is left alone |
| ScopeBackfill.PlanAfterWrite | alembic/versions/9dd288f9bf97_add_metadata_scope_columns.py:237-252 | a written row reads back as the plan it was written from, except that an id with a leading space reads back without it |
| ScopeBackfill.SecondRunIdleExactly | alembic/versions/9dd288f9bf97_add_metadata_scope_columns.py:230-337 | a second run creates no identity and no reference and writes no row exactly when every planned id is trimmed |
| ScopeBackfill.SpacedIdExample | alembic/versions/9dd288f9bf97_add_metadata_scope_columns.py:120-121 | the id 'DB: 1' is the kind of row that a second run rewrites |
| AnchorBackfill.PlanAfterWrite | alembic/versions/0d5187136482_consolidate_metadata_backfill.py:99-114 | a written row reads back as the plan it was written from, up to a leading space of the id |
| AnchorBackfill.AnchorStore.BackfillRow | alembic/versions/0d5187136482_consolidate_metadata_backfill.py:98-183 | one row: resolved, logged before it is written, and logged only if one of its five columns changes its text |
| AnchorBackfill.AnchorStore.BackfillTable | alembic/versions/0d5187136482_consolidate_metadata_backfill.py:93-183 | one table: every row done, the other table untouched, the log still a way back to the start of the run |
| AnchorBackfill.AnchorStore.Upgrade | alembic/versions/0d5187136482_consolidate_metadata_backfill.py:79-183 | the whole run: every row done, references functional and grown only by need, MEDIA_IDENTITY grown by exactly the identities of the new references, replaying the new entries gives back the old tables, and the created flags are truthful: a flagged reference resolved to nothing at the start, each new reference has a flagged entry, no two flagged entries name one reference |
| AnchorBackfill.SameReferenceSameIdentity | alembic/versions/0d5187136482_consolidate_metadata_backfill.py:115-156 | rows of either table with the same effective reference receive the same identity |
| AnchorBackfill.AnchoredRowKeepsIt | alembic/versions/0d5187136482_consolidate_metadata_backfill.py:89-111 | a row with both anchor columns ends with its own anchor stripped, its profile or the default one, and its policy or that of the provider |
| AnchorBackfill.LegacyRowBecomes | alembic/versions/0d5187136482_consolidate_metadata_backfill.py:53-62 | a row without an anchor ends with what its TMDBID means: DB: Douban, BG: Bangumi with the anime profile, digits TMDB; an IMDb id leaves the row alone |
| AnchorBackfill.OtherRowsStay | alembic/versions/0d5187136482_consolidate_metadata_backfill.py:90-95 | a row without an anchor and with a TMDBID of no known shape is left alone |
| AnchorBackfill.ChangedExactlyLogged | alembic/versions/0d5187136482_consolidate_metadata_backfill.py:158-183 | a row has a log entry if and only if the run changed it, and its first entry holds its five old columns |
| AnchorBackfill.RunsCompose | alembic/versions/0d5187136482_consolidate_metadata_backfill.py:160-207 | the logs of consecutive runs replayed together lead back to the tables before the first run |
| AnchorBackfill.FirstEntryDecides | alembic/versions/0d5187136482_consolidate_metadata_backfill.py:192-207 | replaying any log over any tables in descending id gives each surviving row the five columns of its first entry, however many entries it has, and changes no other row or column |
| AnchorBackfill.SecondRunIdleExactly | alembic/versions/0d5187136482_consolidate_metadata_backfill.py:89-183 | a second run creates nothing, writes nothing and logs nothing exactly when every planned id is trimmed |
| AnchorBackfill.AnchorStore.Replay | alembic/versions/0d5187136482_consolidate_metadata_backfill.py:192-207 | the loop over the log in descending id is the replay |
| AnchorBackfill.AnchorStore.Cleanup | alembic/versions/0d5187136482_consolidate_metadata_backfill.py:208-235 | the references deleted are exactly those matching an entry's saved identity and reference, the identities deleted exactly the saved ones left without a reference |
| AnchorBackfill.DeletedRefsExactly | alembic/versions/0d5187136482_consolidate_metadata_backfill.py:217-227 | a reference is deleted exactly when it is of the default scope and of this migration, and an entry flagged as created has saved its identity and names it |
| AnchorBackfill.DeletedIdentitiesExactly | alembic/versions/0d5187136482_consolidate_metadata_backfill.py:228-235 | an identity is deleted exactly when an entry flagged as created has saved it and no reference is left to it |
| AnchorBackfill.AnchorStore.Downgrade | alembic/versions/0d5187136482_consolidate_metadata_backfill.py:186-236 | replay, cleanup and an empty log |
| AnchorBackfill.CleanupMissesTheCreated | alembic/versions/0d5187136482_consolidate_metadata_backfill.py:160-235 | because an entry saves the old identity, the cleanup after an upgrade deletes no reference and no identity that the upgrade created |
| Dedupe.SelfJoinIsGroupMin | alembic/versions/7e029912f153_add_unique_constraint_to_search_result_.py:44-54 | the self-join delete and the group-by delete of d8e9f0a1b2c4 leave the same rows: those with the smallest id of their non-null key, and all rows with a null key |
| Dedupe.GroupMinKeeps | alembic/versions/d8e9f0a1b2c4_multi_user_data_permission.py:86-102 | a row survives the group-by delete exactly when its key is null or no row of its key has a smaller id |
| Dedupe.KeepingExtremes | alembic/versions/d8e9f0a1b2c4_multi_user_data_permission.py:86-102 | keeping one extreme id per key leaves keys pairwise distinct, loses no key, keeps null-keyed rows, and a second pass deletes nothing |
| Dedupe.MirrorSwapsExtremes | alembic/versions/daed8ab21bd2_switch_subscribe_uniqueness_to_anchor.py:82-108 | keeping the largest id is the self-join delete with the order of ids reversed |
| SubscribeDedupe.SubscriptionStore.DeleteRows | alembic/versions/daed8ab21bd2_switch_subscribe_uniqueness_to_anchor.py:105-108 | saving and deleting row by row removes exactly the surplus rows and keeps tables and backup complementary |
| SubscribeDedupe.SubscriptionStore.Dedupe | alembic/versions/daed8ab21bd2_switch_subscribe_uniqueness_to_anchor.py:77-108 | a row survives exactly when it is unanchored or has the largest id of its anchor key; every other row is in the backup once |
| SubscribeDedupe.SubscriptionStore.Upgrade | alembic/versions/daed8ab21bd2_switch_subscribe_uniqueness_to_anchor.py:232-244 | both tables deduplicated, tables and backup together make up the old tables |
| SubscribeDedupe.UpgradeDeduplicates | alembic/versions/daed8ab21bd2_switch_subscribe_uniqueness_to_anchor.py:77-108 | anchor keys distinct, none lost, unanchored rows untouched, and a second dedupe deletes nothing |
| SubscribeDedupe.DeletedExactly | alembic/versions/daed8ab21bd2_switch_subscribe_uniqueness_to_anchor.py:82-108 | a row is deleted exactly when its anchor columns are not blank and a row with a larger id has the same user, provider, external id and, for series, season |
| SubscribeDedupe.SurvivorsDiffer | alembic/versions/daed8ab21bd2_switch_subscribe_uniqueness_to_anchor.py:238-244 | two anchored rows left in a table differ in one of these columns |
| SubscribeDedupe.SubscriptionStore.Restore | alembic/versions/daed8ab21bd2_switch_subscribe_uniqueness_to_anchor.py:256-263 | the loop over the backup succeeds exactly when no saved id exists, and is then the re-insertion |
| SubscribeDedupe.ReinsertRestores | alembic/versions/daed8ab21bd2_switch_subscribe_uniqueness_to_anchor.py:256-263 | re-inserting the backup of a dedupe succeeds and gives back both tables exactly, by row id |
| LogBuffers.LogBuffer.Append | src/log/_buffer.py:22-35 | the queue is the last maxlen entries of everything appended, and the counter is their number |
| LogBuffers.LogBuffer.GetLogs | src/log/_buffer.py:37-47 | the answer is the part of the history after the cursor that is still held, filtered by source, and the history's length |
| LogBuffers.SelectExactly | src/log/_buffer.py:34-46 | of the entries exactly those of the source asked for, in order |
| LogBuffers.ReceivedExactly | src/log/_buffer.py:37-47 | a reader that feeds the counter back receives of every batch appended between two polls exactly the last maxlen entries of its source, in order and once |
| LogBuffers.NothingLost | src/log/_buffer.py:37-47 | with at most maxlen appends between polls it receives the whole source-filtered history |
| LogBuffers.LossIsOverflow | src/log/_buffer.py:37-47 | otherwise it misses exactly the overflow of each batch, and nothing if and only if no batch overflows |
| MenuTree.BuildTree | src/api/routers/rbac.py:643-722 | the recursion ends for every list with unique ids, and each level holds exactly the parent's children in input order, each with its own subtree |
| Chains.PathFits | src/api/routers/rbac.py:643-722 | a chain from a parentless menu has no repetition, so it is no longer than the list; this is why the recursion ends although pointers may run in circles |
| MenuTree.OneForest | src/api/routers/rbac.py:643-722 | the description of the tree leaves no choice |
| MenuTree.TreeHoldsTheRooted | src/api/routers/rbac.py:725-735 | the tree holds each menu whose parent chain reaches a parentless menu exactly once, and no other menu |
| MenuTree.LeftOutExactly | src/api/routers/rbac.py:643-651 | a menu is left out exactly when it belongs to a group in which everyone names a parent and every existing parent is in the group: cycles and dangling pointers with all that hangs below |
| RevisionHead.CollectHoldsTheLast | scripts/generate_migration.py:73-89 | the dictionary has one entry per declared revision, holding what the last of its files said |
| RevisionHead.ChildMap | scripts/generate_migration.py:101 | a revision is in the map exactly if another follows it, and of several followers the last one wins |
| RevisionHead.BaseIsFirst | scripts/generate_migration.py:94-100 | the search starts at the first revision that follows none |
| RevisionHead.ChildIsLast | scripts/generate_migration.py:101 | of several followers it takes the last |
| RevisionHead.DictionaryOrder | scripts/generate_migration.py:73-89 | revisions stand in the order in which they are first declared |
| RevisionHead.GetHead | scripts/generate_migration.py:71-105 | the search ends for every set of files; it finds nothing exactly when no revision follows none, and otherwise the end of a walk from the first base along last children |
| RevisionHead.OneWalk | scripts/generate_migration.py:100-103 | the walk, and so the result, is determined by the files |
| RevisionHead.HeadIsUnnamed | scripts/generate_migration.py:100-105 | the result hangs on a base by an unbroken chain and no revision names it as the one it follows |
| RevisionHead.LinearHead | scripts/generate_migration.py:71-105 | on a single linear chain the result is the end of the chain and the only revision that no other names |
| SettingRename.SettingStore.RenamePrefix | alembic/versions/421174971bcd_rename_movie_subscribe_setting_key.py:23-48 | the key-by-key loop against the stale key set, in any order and with shared keys, equals one simultaneous renaming |
| SettingRename.NoSourceKeyLeft | alembic/versions/421174971bcd_rename_movie_subscribe_setting_key.py:35-48 | no setting keeps a source-prefixed key when neither prefix begins with the other |
| SettingRename.ThePrefixesAreApart | alembic/versions/421174971bcd_rename_movie_subscribe_setting_key.py:19-20 | the two prefixes of the migration are such a pair |
| SettingRename.KeysAsWritten | alembic/versions/421174971bcd_rename_movie_subscribe_setting_key.py:19-56 | the upgrade turns a key DefaultSubscribeSettingMOV... into DefaultSubscribeSettingMovie... unless that exists and then drops it, and the downgrade turns it back |
| SettingRename.OtherKindsStay | alembic/versions/421174971bcd_rename_movie_subscribe_setting_key.py:29-48 | rows of another TYPE are left alone |
| SettingRename.OthersKept | alembic/versions/421174971bcd_rename_movie_subscribe_setting_key.py:35-48 | rows without the source prefix survive as they were, so existing target keys keep their values, and every survivor keeps its value |
| SettingRename.NoNewCollision | alembic/versions/421174971bcd_rename_movie_subscribe_setting_key.py:38-48 | two surviving settings share a key afterwards exactly when they shared it before |
| SettingRename.RoundTripExactly | alembic/versions/421174971bcd_rename_movie_subscribe_setting_key.py:51-56 | upgrade then downgrade is the identity if and only if no target-prefixed setting existed |
| Timeline.Collapse | src/api/routers/lifecycle.py:66-76 | the result is strictly sorted by (stage rank, time, id) and holds exactly the events that are the greatest (OCCURRED_AT, ID) of their stage |
| Timeline.OneEventPerStage | src/api/routers/lifecycle.py:68-72 | every stage that occurs has exactly one event in the timeline |
| Timeline.TimelineExactly | src/api/routers/lifecycle.py:66-76 | of each stage the event with the latest time and, among those, the greatest id; ordered by the place of the stage, then time, then id |
| Timeline.OrderDoesNotMatter | src/api/routers/lifecycle.py:66-76 | every permutation of the input gives the same timeline |
| Timeline.CollapsingTwice | src/api/routers/lifecycle.py:66-76 | collapsing a timeline changes nothing |
| Lifecycle.TextDecidesStage | src/app/domain/lifecycle.py:9-22 | two stage values with one column text are one stage |
| Sorting.SortIsStable | src/api/routers/lifecycle.py:282 | sorting keeps, for every key, the same elements in the same order |
| EpisodeFill.SeasonIsRead | src/api/routers/lifecycle.py:244-245 | a season written as other text, a decimal number and other text is read as that number |
| EpisodeFill.SeasonOfSummary | src/api/routers/lifecycle.py:244-247 | the season is the first number in the text, else that of the first row, and 1 where this gives none |
| EpisodeFill.RowsKeptExactly | src/api/routers/lifecycle.py:239-240 | once a row has an episode number the rows kept are those with one, in order; otherwise all are |
| EpisodeFill.ListEpisodes | src/api/routers/lifecycle.py:238-283 | the list is sorted by (season, episode) and holds in every slot the kept rows or, where there are none, what the summaries offer, in order |
| EpisodeFill.OneEpisodeList | src/api/routers/lifecycle.py:238-283 | that description leaves no choice |
| EpisodeFill.ListIsComplete | src/api/routers/lifecycle.py:238-283 | every kept row is listed, every episode 1..total_ep of every summary is listed, and anything else is a free slot's synthesized row, missing as the missing set or the clamped completed count says |
| EpisodeFill.FilledRowsExactly | src/api/routers/lifecycle.py:244-281 | every other row stands for an episode of a summary in a season and episode no kept row has: missing exactly if it is in the missing set, or without one beyond the completed episodes held between nothing and all; subscribed if missing and in the library if not; with the profile and media type of the summary and the first row |
| EpisodeFill.EveryEpisodeIsListed | src/api/routers/lifecycle.py:255-281 | every episode from 1 to the total of every summary is listed |
| EpisodeFill.ListIsOrdered | src/api/routers/lifecycle.py:282 | by season and then by episode |
| EpisodeFill.NoDuplicatesExactly | src/api/routers/lifecycle.py:242-281 | no slot is listed twice exactly when no two kept rows share one and no two summaries promise the same free one |
| EpisodeFill.DistinctSeasonsNeverClash | src/api/routers/lifecycle.py:244-247 | summaries with distinct effective seasons never do |
| ReleaseNotify.EscapeStrayBrackets | scripts/release_notify.py:77-94 | the index loop is total and equals the recursive description |
| ReleaseNotify.EscapedIsClean | scripts/release_notify.py:86-93 | every bracket of the output begins an allowed tag |
| ReleaseNotify.TagsExactly | scripts/release_notify.py:56-74 | a bracket may begin a closing tag, a link, or the opening and closing tags of seven names |
| ReleaseNotify.AllowedExactly | scripts/release_notify.py:86-87 | it is kept exactly when the text begins with one of these in either case |
| ReleaseNotify.UnchangedExactly | scripts/release_notify.py:81-93 | a line is left alone exactly when each of its brackets begins an allowed tag |
| ReleaseNotify.EscapingTwice | scripts/release_notify.py:77-94 | scanning the output again changes nothing |
| ReleaseNotify.ShownAsBefore | scripts/release_notify.py:81-93 | with every entity read as a bracket the output is the input, read the same way |
| ReleaseNotify.KeptInPlace | scripts/release_notify.py:81-93 | position by position: an allowed bracket and any other character is at its old place plus three for each stray bracket before it, and a stray bracket is the entity there |
| ReleaseNotify.EscapedLength | scripts/release_notify.py:91-93 | each stray bracket costs exactly three characters |
| SeedBackup.SeedStore.BackupTable | alembic/versions/f13d224bd806_align_legacy_schema_drift.py:208-233 | one table: exactly the rows with some non-null seed are saved, with all their seed values, then the columns are dropped |
| SeedBackup.SeedStore.Upgrade | alembic/versions/f13d224bd806_align_legacy_schema_drift.py:257-261 | without seed columns nothing happens; otherwise both tables lose them and the backup misses no value |
| SeedBackup.SeedStore.Downgrade | alembic/versions/f13d224bd806_align_legacy_schema_drift.py:236-254 | without a backup nothing happens; with one it succeeds exactly when both tables exist, and then the columns are added as NULL and the entries replayed; otherwise it stops at the missing table with the backup untouched |
| SeedBackup.RestoredRow | alembic/versions/f13d224bd806_align_legacy_schema_drift.py:236-254 | whatever was added or deleted in between, a row that existed has its old seed values, also when it was never saved, and a new row has NULL |
| SeedBackup.SavedExactly | alembic/versions/f13d224bd806_align_legacy_schema_drift.py:215-230 | a row is in the backup exactly when one of its seed columns is not NULL |
| SeedBackup.ColumnRestored | alembic/versions/f13d224bd806_align_legacy_schema_drift.py:236-254 | each seed column ends with the value it had, or NULL if there was none |
| SeedBackup.RoundTripWidens | alembic/versions/f13d224bd806_align_legacy_schema_drift.py:208-254 | when both tables exist the round trip restores every seed value of every row and gives each table all three columns; when one is missing and the other has a seed column, the way back fails |
| SeedBackup.RoundTripExactly | alembic/versions/f13d224bd806_align_legacy_schema_drift.py:236-262 | it succeeds as the identity if and only if no table had a seed column or both tables exist with all three |
| SeedBackup.WiderExample | alembic/versions/f13d224bd806_align_legacy_schema_drift.py:240-254 | with both tables there, one that had one of the three columns comes back with all of them |
| SeedBackup.MissingTableExample | alembic/versions/f13d224bd806_align_legacy_schema_drift.py:240-247 | a database without TRANSFER_HISTORY loses the columns and the way back fails |

## Left out

- MergeDuplicateRefs.Merge: of its counters refs and groups are not totalled over a whole run; refs is exact for one merge in `MergeDuplicateRefs.MergePair`, groups for one pair in `MergeDuplicateRefs.MergePairOwners`.
- Sessions.PickSurvivor: like Sessions.SortScored it leaves open which of several candidates with equal scores comes first; the scripts' sort is deterministic there (by identity id, or by the order of an unordered query).
- MergeDuplicateRefs.RunsAgree: stated for sessions that flush. Without autoflush two runs can differ, because ranks depend on the last merge; `PostponedRuns.RankKeptExactly` says how, and `PostponedRuns.OneSurplusRunsAgree` states the agreement where the references link at most one pair of identities.
- MoveFacts.ValidityBrokenExactly: does not model foreign keys. A database that enforces the one on MEDIA_EXTERNAL_REF.IDENTITY_ID rejects a move of references to a missing target, and the run fails there.
- The order in which rows come out of a query without ORDER BY is left open; loops over such rows pick them in any order.
- What other parts of the session do: identity map refreshes, cascades, UPDATED_AT columns, transactions that fail halfway. A flush is atomic.
- The subscription tables in `merge_duplicate_ref_identities.py`: that script does not re-point them, so the model has no such step either.
- Full transitive closure of one pass of `consolidate` over identities in several groups; its groups are stale, and the single-key hypothesis is stated instead.
- The audit's other counters (scripts/check_identity_integrity.py:31-63, 79-109): plain counts.
- Letters, digits and white space beyond ASCII: titles, codes, legacy ids, season texts and tag names compare by ASCII case only.
- Comparison of text by the database: collations, truncation to column widths, SQL NULL in unique indexes beyond the null keys of `Dedupe.dfy`.
- Freshness of generated identities: that a new ULID occurs nowhere is a hypothesis (`Unused`, `NoRowHolds`).
- Column, index and table creation, `NOT NULL` changes and the check for missing tables, except where a missing table decides a branch (`ScopeBackfill`, `AnchorBackfill`, `SubscribeDedupe`, `SeedBackup.BackupTable`).
- The early return of 0d5187136482 without the two identity tables, and columns that 9dd288f9bf97 finds missing: both are taken to exist.
- SeedBackup.SeedStore.Downgrade: what a database does with the failed migration (rolling back the columns added to the first table) is left out.
- JSON: payloads are stored and read back without loss.
- `title`, `year`, `media_type` of created identities in the backfills, and confidence columns of created references: written, never read by the migration.
- The check for duplicate TMDB subscriptions before the old unique indexes return (daed8ab21bd2:265-268), and `_backfill_episodes`, `_backfill_torrents`.
- Parsing of revision files into (revision, down_revision) and the new file that `generate_migration` writes.
- Display fields of menu items and synthesized episodes; `rest` stands for what a row carries through.
- The markdown conversion before the bracket scan (scripts/release_notify.py:25-50): regular expressions over single lines.
- `extract_source` and the clock in `LogBuffer.append`; the entry is a parameter. `__iter__`, `__getitem__`, `__len__` only read the queue.
- Threads: each method of the log buffer holds its lock, so a run is a sequence of whole calls.
- Request handlers, permissions, dependency wiring, streaming, image and HTTP code.
