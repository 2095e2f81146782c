# Verified models of RedMemo's algorithms and protocols

RedMemo archives Reddit pages, comments and media. This project models the parts of it
whose correctness cannot be seen from one function body, and proves what they keep, over
all inputs, all runs and all interleavings:

- **Progressive MP4 muxer** (`FragmentSamples`, `SampleTables`, `Bytes`, `Boxes`,
  `ProgressiveMux`, `MuxFragmented`). The target format, ISO/IEC 14496-12, is written as a
  demuxer: a walk over boxes by their sizes (4.2), chunk lookup (8.7.4), chunk offsets
  (8.7.5), sample sizes (8.7.3), time and composition runs (8.6.1.2, 8.6.1.3), sync samples
  (8.6.2). Demuxing what the muxer writes gives back the
  source samples of both tracks, and for regular input those are the samples that sections
  8.8.7 and 8.8.8 give the fragmented files.
- **Comment archive** (`CommentTree`, `MergeTrees`, `MergeOrder`, `MergeCounts`,
  `MergeStubs`, `ListedIds`, `ExpandStubs`, `ExpandOrder`, `CommentArchive`,
  `MoreChildren`). The merge of two comment trees terminates on every input although it
  jumps from one tree into the other; it is a union with exact payloads and exact order; it
  leaves nothing for the stub expansion to do; and over any run of fetches no comment is
  ever lost. Where an id is doubled, a body or a listed id lost, or a stub repeated all the
  same, the condition is exact.
- **Prefetch scheduler** (`WavePlan`, `WaveLedger`, `WavePause`, `WaveDrive`). Randomised
  bounded plans and the check that recognises them, the crash-safe ledger of waves under any
  interleaving of drivers, supersedes, depth switches, crashes, starts and failing store
  calls, what becomes of a plan whose layer is switched off, and what a driver that nothing
  disturbs gets done.
- **Repost detection** (`TitleTokens`, `Posts`, `FoldReposts`, `SearchSession`). Token
  sets, the similarity they share, in-place folding of a listing, and dedup across the
  pages of a search session.
- **Ranged downloads** (`RangedStream`), **bandwidth** (`Bandwidth`, `LimitedWriter`),
  **the priority gate** (`PrioGate`), **the rate limit** (`HrLimit`), **coalesced calls**
  (`SingleFlight`), **the ETag cache** (`ETagCache`) and **the override grammar** (`Texts`,
  `SubModes`, `SubModeReaders`).

Code that changes state step by step is modelled by methods and classes, each proved
against a function of its inputs or of the old state; the results are then lemmas about
those functions. Protocols between goroutines are state machines whose steps are the
sections that run undisturbed, and their results hold after any sequence of steps.
Random draws, clocks, network answers and database failures are parameters, so the
results hold for all of them. Floats are reals; hashes are what they hash.

## What the code does where its documentation says otherwise

- `internal/reddit/types.go:48-53` and `:62-64` put the cluster head first among the
  repost members. A better scored later variant takes the card but not the first row
  (`FoldReposts.HeadBehindFirstRow`, exact condition in `FoldReposts.HeadIsFirstRowIff`).
- `internal/media/proxy.go:866-871` speaks of retries per chunk. The count of body retries
  is kept over the whole call (`RangedStream.ThreeCutsFail`, exact condition in
  `RangedStream.BrokenIffThirdCut`).
- `internal/handler/search_session.go:144-148` says that only entries of other pages
  suppress a post. Entries made earlier in the same visit do too
  (`SearchSession.SecondCopyIsHidden`, exact condition in `SearchSession.HiddenIff`).
- `internal/archive/merge.go:166-168` speaks of stubs with the same children. Any stub of
  the same parent blocks an incoming one, and ids that only it lists are lost
  (`ListedIds.NewReplyIsLost`, exact condition in `ListedIds.ListedIdIsLostIff`).
- `internal/prefetch/scheduler.go:2181-2185` lets the sum of `splitNonUniform` fall short only
  above `waves*cap`. An uneven draw drops posts far below that
  (`WavePlan.UnevenDrawDropsPosts`, exact condition in `WavePlan.L2CoversIff`).
- `internal/prefetch/scheduler.go:658-661` and `:2296-2300` leave the waves of a layer that
  is switched off pending, to be resumed when it is on again. Every start in between retires
  them (`:462-474`; `WavePause.RestartLosesThePlan`, exact condition in
  `WavePause.PausedPlanSurvivesIffNoCrash`).
- `internal/prefetch/scheduler.go:711-720`: a failed compare-and-set is logged and the wave
  fires all the same, so a wave can fire twice (`WaveLedger.IgnoredFailureFiresTwice`).
- `internal/media/progressive_mux.go:371-374` restarts a run without a data offset at the
  base, where 8.8.8 continues behind the previous run, and `:397` converts version-0
  composition offsets to 32 signed bits; `:298-310` keeps only the last track fragment of a
  moof (`MuxFragmented.EarlierTrafIsDropped`, exact condition in
  `MuxFragmented.ReadAsStandardIff`).
- `internal/prefetch/scheduler.go:2266-2282`: a failed insert leaves a live driver without the
  row's id. Where the insert took effect all the same, the driver fires unledgered and the
  row is fired again when revived (`WaveLedger.UnsureInsertFiresTwice`).

## Model

| member | source | states |
|---|---|---|
| FragmentSamples.ParseRun | internal/media/progressive_mux.go:363-418 | one run's samples: sizes, durations, flags and offsets by the field precedence of 8.8.8, with the program's own start rule and 32-bit cast |
| FragmentSamples.ParseMoofIntoSamples | internal/media/progressive_mux.go:298-424 | a moof read box by box: the last traf and the last tfhd in it count, defaults fall back to trex, a traf without tfhd is an error and no traf is no fragment |
| FragmentSamples.SampleByTheRules | internal/media/progressive_mux.go:340-405 | the standard's side, sample by sample: each field is the sample's own where the run has them, else the track fragment header's, else trex's; sync is bit 16 of the flags in force; a sample begins where the one before it ends, and a run where its offset says, or behind the run before |
| FragmentSamples.RunAgreesIff | internal/media/progressive_mux.go:371-397 | a parsed run equals the run of 8.8.8, from the standard's own base, if and only if it is not misplaced (it has samples and starts elsewhere than the standard starts it) and no version-0 offset reaches 2^31 |
| FragmentSamples.ParsedAgreesIff | internal/media/progressive_mux.go:340-424 | all runs of a track fragment equal the standard's if and only if no run is misplaced and none wraps |
| FragmentSamples.SecondRunReadsFirstRunsData | internal/media/progressive_mux.go:371-374 | two runs without offsets: the second is read from the first one's bytes |
| SampleTables.WriteStts | internal/media/progressive_mux.go:715-741 | the time table expands to the sample durations in order and is canonical: no empty run, neighbours differ |
| SampleTables.AnalyzeCtts | internal/media/progressive_mux.go:744-760 | whether a composition table is needed, and whether version 0 can hold it, as properties of all samples |
| SampleTables.WriteCtts | internal/media/progressive_mux.go:762-810 | the composition table, read by its version, expands to the composition offsets and is canonical |
| SampleTables.WriteStss | internal/media/progressive_mux.go:812-833 | by the rule of 8.6.2.1 exactly the sync samples read as sync; the box is left out exactly when all are |
| SampleTables.WriteStsc | internal/media/progressive_mux.go:835-854 | chunk k holds as many samples as fragment k, empty fragments included, and no entry repeats the one before |
| SampleTables.WriteStsz | internal/media/progressive_mux.go:856-871 | the size table lists every sample's size in order |
| SampleTables.CanonicalUnique | internal/media/progressive_mux.go:715-741 | there is only one canonical run-length table for a sequence |
| SampleTables.CanonicalShortest | internal/media/progressive_mux.go:715-741 | no other run-length table of the same sequence has fewer entries than the canonical one |
| ProgressiveMux.WriteChunk | internal/media/progressive_mux.go:516-530 | appends exactly the bytes of the samples, end to end, and returns where they begin; fails exactly when a sample cannot be read |
| ProgressiveMux.WriteMdat | internal/media/progressive_mux.go:459-512 | chunks of both tracks alternating with uneven counts behind 16 header bytes, every chunk at its recorded offset; below 2^64 bytes a reader that weighs the header bytes by 256^k finds at the start an mdat box whose large size ends exactly where the payload does, whatever follows; fails exactly when some sample cannot be read |
| Boxes.MdatReadBack | internal/media/progressive_mux.go:500-504 | the patched header read back by weights: size 1, the type mdat, and the 64-bit total |
| Boxes.FtypReadBack | internal/media/progressive_mux.go:429-447 | the file type box read back: 32 bytes, major brand mp42, and the brands isom, mp41, mp42 and avc1 |
| ProgressiveMux.DemuxGivesSource | internal/media/progressive_mux.go:459-878 | for any two-level fragment list, any tables that describe it and any file that holds its chunks at the recorded offsets, demuxing gives bytes, size, duration, composition offset and sync flag of every source sample |
| MuxFragmented.ReadFragmentSamples | internal/media/progressive_mux.go:262-296 | the fragments of all moofs in file order; the first error ends the walk and a moof without a traf adds nothing |
| MuxFragmented.WriteTrak | internal/media/progressive_mux.go:602-878 | the sample table describes the fragment list, with ctts and stss present exactly when needed |
| MuxFragmented.MuxFragmentedMP4 | internal/media/progressive_mux.go:33-95 | succeeds exactly when both files parse, have fragments and can be read; then both tracks demux to their source samples whatever is written behind, and below 2^64 bytes a walk over box sizes finds the file type box, the media data, and then what is written behind |
| MuxFragmented.ReadAsStandardIff | internal/media/progressive_mux.go:298-424 | a moof is read as ISO/IEC 14496-12 reads it, with all its track fragments and the bases of 8.8.7.1, if and only if it is regular: all samples in the last track fragment, no misplaced run, no wrapping offset |
| MuxFragmented.EarlierTrafIsDropped | internal/media/progressive_mux.go:298-310 | a valid moof with two track fragments denotes two samples, of which the program reads the second only |
| MuxFragmented.CompilesTheDenotedTrack | internal/media/progressive_mux.go:262-424 | of a file that parses, the compiled samples are those it denotes if and only if every moof is regular |
| MuxFragmented.DemuxedIsDenoted | internal/media/progressive_mux.go:33-95 | source to target: demuxing the output gives the samples that a regular fragmented input denotes, all its track fragments counted |
| CommentTree.IndexCommentsByID | internal/archive/merge.go:8-22 | the map built in place is the index of the preorder walk |
| CommentTree.IndexIs | internal/archive/merge.go:8-22 | an id is indexed exactly when a real node has it, and it maps to the last such node of the walk |
| MergeTrees.TrimStub | internal/archive/merge.go:188-204 | a stub keeps its unknown ids in order and vanishes when none is left |
| MergeTrees.TrimmedIs | internal/archive/merge.go:188-204 | what trimming leaves, place by place, with a count that is the smaller of the old one and the number of ids listed |
| MergeTrees.OverlayTree | internal/archive/merge.go:115-142 | the recursive overlay, for every pair of trees; it ends because each jump into the incoming tree moves on in its preorder |
| MergeTrees.MergeReplies | internal/archive/merge.go:146-183 | incoming replies joined to the overlaid prior ones |
| MergeTrees.MergeCommentTrees | internal/archive/merge.go:69-110 | the merge as a function of both trees, ended on every input, duplicate and cyclic ids included |
| MergeTrees.JumpMovesOn | internal/archive/merge.go:115-142 | the measure: below an indexed copy every real node comes later in the incoming preorder |
| MergeTrees.MergeIsUnion | internal/archive/merge.go:69-183 | the merged ids are the union of both, and each node carries incoming's payload when incoming has its id and prior's otherwise |
| MergeTrees.MergedTidy | internal/archive/merge.go:69-204 | no stub anywhere in the result lists an id of either tree or counts more than it lists, and the result is well formed again |
| MergeTrees.MergeLeavesNoCoveredStub | internal/archive/merge.go:69-204 | no surviving stub lists a comment that is a real node of the result |
| MergeOrder.MergedRoots | internal/archive/merge.go:85-110 | the roots of the merged tree are the prior ones in order, then the incoming ones that are archived nowhere, in order |
| MergeOrder.MergedReplies | internal/archive/merge.go:115-183 | every comment of the merged tree has below it the replies of a comment of either tree in order, then those of the incoming copy that are not among them, in order |
| MergeCounts.MergeOccurrences | internal/archive/merge.go:69-183 | how often a comment occurs in the merged tree: as often as archived, plus once for each subtree grafted or added as a new root that holds it |
| MergeCounts.UniqueIdsSurviveIff | internal/archive/merge.go:87-183 | for trees with unique ids, the merged ids are unique if and only if every archived comment that comes as a reply is archived under that same parent |
| MergeCounts.MovedOccursTwice | internal/archive/merge.go:87-98 | an archived comment that comes under another parent is there twice after the merge |
| MergeCounts.PartialThenFullRepeats | internal/archive/merge.go:87-98 | a parent, then its reply alone, then both together: the reply is there twice |
| MergeStubs.RefetchAppendsRootStubs | internal/archive/merge.go:69-183 | merging the same fetch a second time appends its root stubs, trimmed, once more and changes nothing else |
| MergeStubs.RefetchIsIdentityIff | internal/archive/merge.go:100-107 | archiving the same fetch again is the identity if and only if each of its root stubs lists something and the two trees hold all of it |
| MergeStubs.StubsPileUp | internal/archive/merge.go:100-107 | after n more fetches of the same the tree ends with n more copies of the surviving root stubs |
| MergeStubs.OneStubPilesUp | internal/archive/merge.go:100-107 | a fetch that is one stub: archived n more times it is there n + 1 times |
| ListedIds.MergeListsIff | internal/archive/merge.go:69-204 | of the ids not archived, the merged tree lists exactly those the prior tree lists, those under a new root, and those that joining replies adds: under a reply new there, or in the first surviving stub of its parent |
| ListedIds.ListedIdIsLostIff | internal/archive/merge.go:160-183 | a listed id ends neither as a comment nor in a stub if and only if only nested stubs of the fetch list it and every join drops them |
| ListedIds.NewReplyIsLost | internal/archive/merge.go:165-180 | a stub that lists one more reply than the archived stub beside it: the new reply is lost |
| ExpandStubs.ExpandMoreFromArchive | internal/archive/merge.go:28-58 | the expansion, whenever its recursion ends |
| ExpandStubs.MergedIsFixed | internal/handler/post.go:613 | after a merge, expanding the archived tree against its own index is the identity up to stub counts |
| ExpandStubs.ReturnsIffAcyclic | internal/archive/merge.go:28-58 | every tree expands against an archive if and only if the archive's stub references are acyclic |
| ExpandStubs.ReturnsIffNoCycle | internal/archive/merge.go:28-58 | one call returns if and only if no cycle of stub references can be reached from the forest it is given |
| ExpandStubs.SelfListingNeverReturns | internal/archive/merge.go:28-58 | an unmerged first snapshot whose stub lists its own parent recurses for ever |
| ExpandStubs.MergedArchiveIsSettled | internal/archive/merge.go:69-204 | the index of a merged tree has no stub that the expansion could resolve |
| ExpandStubs.SettledIsAcyclic | internal/archive/merge.go:28-58 | so any tree at all expands against a merged archive |
| ExpandStubs.ExpandedIsExpansion | internal/archive/merge.go:28-58 | an expansion loses no real comment and puts every listed id either inline or into the trimmed stub |
| ExpandStubs.ExpandTwice | internal/archive/merge.go:28-58 | a second expansion finds nothing left to resolve |
| ExpandOrder.ExpansionPlaces | internal/archive/merge.go:28-58 | against any archive, whenever the expansion returns: in the place of each stub stand the archived comments it lists, in order, at the top and below every comment; each has its payload of the forest or of the archive; a stub that stays lists and counts exactly unarchived ids |
| CommentArchive.HasRemovedComment | internal/archive/service.go:298-311 | whether any node is marked removed |
| CommentArchive.IndexAliveComments | internal/archive/service.go:313-330 | the last alive node of each id |
| CommentArchive.MergeRemovedBodies | internal/archive/service.go:332-344 | tombstones with an alive prior copy get its body and author back and stay marked removed |
| CommentArchive.CountComments | internal/archive/service.go:346-355 | the number of real comments of a well-formed tree |
| CommentArchive.Service.ArchiveComments | internal/archive/service.go:193-237 | one call: nothing for an empty or refused fetch, else the merge of the restored fetch into the stored tree, with its count |
| CommentArchive.StepKeepsIds | internal/archive/service.go:193-237 | one call adds exactly the fetched ids and keeps the tree well formed |
| CommentArchive.RunKeepsIds | internal/archive/service.go:193-237 | after any run the archive holds exactly what it began with and all it was let to fetch |
| CommentArchive.RunGrows | internal/archive/service.go:193-237 | along a run the archived set never shrinks |
| CommentArchive.TombstoneStep | internal/archive/service.go:313-344 | a removed comment keeps the body and author of its alive prior copy, and otherwise shows the tombstone |
| CommentArchive.BodyKeptIff | internal/archive/service.go:313-344 | a step keeps what was archived if and only if the prior copy was alive or the tombstone says the same |
| CommentArchive.SecondTombstoneWins | internal/archive/service.go:318-338 | a second tombstone always replaces the body, as the restored copy counts as removed |
| CommentArchive.TwoTombstones | internal/archive/service.go:318-338 | one comment and two equal tombstones: kept, then lost |
| MoreChildren.ParseMoreChildren | internal/reddit/parser.go:612-688 | the flat list rebuilt as the forest that the results below are about, on every input, duplicate ids and cyclic parents included |
| MoreChildren.BuildTree | internal/reddit/parser.go:661-680 | the guarded build; the shared path set is put back before it returns |
| MoreChildren.IndexChildren | internal/reddit/parser.go:644-653 | children by parent and roots, in arrival order |
| MoreChildren.ForestPlacesItems | internal/reddit/parser.go:612-688 | unless two items carry an id that others name as their parent's, every node is an item with all its children below it in arrival order, under the roots in arrival order |
| MoreChildren.ForestHoldsTheRooted | internal/reddit/parser.go:655-688 | the forest has a node for a kept item if and only if its parents lead to a root; stubs may share an id or have none |
| MoreChildren.ForestIsThePayload | internal/reddit/parser.go:612-688 | of the payload itself: whatever ids repeat, a thing that has an id or is a stub has a node with its payload if its parents lead to a root; and only then, every node standing for such a thing, where the things come without replies of their own or no two carry an id that a third names as its parent's |
| MoreChildren.ForestIsInOrder | internal/reddit/parser.go:612-688 | unless two things carry an id that a third names as its parent's, the roots are the things that answer none and the replies of each node the things that answer it, all in arrival order |
| MoreChildren.ForestCounts | internal/reddit/parser.go:612-688 | with distinct ids there are exactly as many nodes as kept things whose parents lead to a root |
| MoreChildren.ForestHoldsEachOnce | internal/reddit/parser.go:655-688 | and two nodes share an id only if two items of the payload do |
| MoreChildren.LostItemsAreOnCycles | internal/reddit/parser.go:655-660 | an item is lost only if its parents come back to where they were |
| MoreChildren.CyclesAreLost | internal/reddit/parser.go:655-660 | and whenever they do |
| WavePlan.SplitL3 | internal/prefetch/scheduler.go:2104-2143 | the in-place partition as a function of the draws |
| WavePlan.SplitL3Covers | internal/prefetch/scheduler.go:2095-2143 | for all draws every chunk is in bounds and the chunks sum to the post count, or to the full capacity when that is less |
| WavePlan.EvenShares | internal/prefetch/scheduler.go:2110-2131 | before the transfers each chunk is the even share, one more where the draw gives it one of the remainder, and the cap when the posts fill all waves |
| WavePlan.NextTransfer | internal/prefetch/scheduler.go:2133-2141 | a transfer moves one post from a chunk that has one to another that has room, and changes nothing else |
| WavePlan.PlanL3WaveOffsets | internal/prefetch/scheduler.go:2151-2176 | sorted draws over the span left by the gaps, the i-th moved up by i gaps; zeros for an empty period |
| WavePlan.L3OffsetsFit | internal/prefetch/scheduler.go:2145-2176 | for all draws and counts the waves are a gap apart, in order, and inside 95 percent of the period |
| WavePlan.L3OffsetsIff | internal/prefetch/scheduler.go:2145-2176 | the offsets some draws give are exactly the lists that keep half an even share between waves and end inside the usable part, which is 95 percent of the period rounded down |
| WavePlan.PlanWaveOffsets | internal/prefetch/scheduler.go:1970-1991 | the same with a gap of a tenth of the period |
| WavePlan.L2OffsetsFit | internal/prefetch/scheduler.go:1964-1991 | the five L2 waves are a gap apart and inside the period |
| WavePlan.L2OffsetsIff | internal/prefetch/scheduler.go:1964-1991 | the offsets some draws give are exactly the lists of five that keep a tenth of the period between them and end inside it |
| WavePlan.FixedGapFitsIff | internal/prefetch/scheduler.go:2145-2150 | with that gap the last wave stays in the period if and only if the gaps alone fit: the reason L3 has its own planner |
| WavePlan.SortedUnique | internal/prefetch/scheduler.go:2171 | a sorted permutation is unique, so any sort gives the modelled one |
| WavePlan.SplitNonUniform | internal/prefetch/scheduler.go:2186-2227 | the weighted partition and its shuffle as a function of the draws |
| WavePlan.NextSwap | internal/prefetch/scheduler.go:2226 | a swap of the shuffle exchanges two chunks and changes nothing else |
| WavePlan.ResidualPositive | internal/prefetch/scheduler.go:2217-2220 | the last wave always has something left, so its lower clamp never acts |
| WavePlan.L2CoversIff | internal/prefetch/scheduler.go:2178-2227 | all chunks in bounds, never more than the posts, and all of them if and only if the residual fits the last wave; always so below cap plus waves |
| WavePlan.UnevenDrawDropsPosts | internal/prefetch/scheduler.go:2178-2227 | 150 posts for five waves of 100, and 140 planned |
| WavePlan.PlanWaves | internal/prefetch/scheduler.go:1998-2002 | the L2 plan: five chunks in bounds and five spaced offsets inside the period |
| WavePlan.PlanL3Waves | internal/prefetch/scheduler.go:2014-2028 | the L3 plan: chunks in [0,10] summing to min(postCount, 640), one wave per five posts up to 64, offsets spaced and inside 95 percent of the period |
| WavePlan.L3CycleChunksInvalid | internal/prefetch/scheduler.go:2039-2057 | rejects exactly the plans over the cap, or short of the post count where one cycle could hold it, with the right reason |
| WavePlan.L3PlanHangover | internal/prefetch/scheduler.go:2072-2093 | the same on stored rows, with the largest post count, and beyond the size of the listing round |
| WavePlan.PlansAreValid | internal/prefetch/scheduler.go:2030-2057 | whatever the draws, the check does not reject the chunks of the planner |
| WavePlan.HangoverIff | internal/prefetch/scheduler.go:2059-2093 | of a stored plan it accepts exactly the row sets that still hold every wave with work in it |
| WaveLedger.FiresAtMostOnce | internal/prefetch/scheduler.go:623-778 | over any run a ledgered wave fires at most once plus once per doubt, and while pending only as often as doubted; a doubt is a failed compare-and-set that a reclaim driver ignored or an insert that took effect though its driver was told it failed |
| WaveLedger.PendingNeverReturns | internal/store/prefetch_runs.go:130-165 | a row that left pending never returns to it, whatever crashes or fails |
| WaveLedger.SupersededNeverStarts | internal/store/prefetch_runs.go:148-165 | a pending row of a target, of another cycle than the one kept, never starts after the supersede, but for a doubt |
| WaveLedger.LedgerIsHonest | internal/prefetch/scheduler.go:409-420 | while no store write has failed since the last start, each running row has a driver of this process at work on it |
| WaveLedger.OnlyTheseTake | internal/prefetch/scheduler.go:2251-2330 | only the driver at that very wave, a supersede of its cycle or a retirement takes a row out of pending |
| WaveLedger.OthersSkip | internal/store/prefetch_runs.go:120-165 | whatever takes a pending row without a driver records it as skipped, and a running row is changed only by a start, to fail, or by a retirement |
| WaveLedger.SupersedeSkips | internal/store/prefetch_runs.go:148-165 | a supersede skips exactly the target's pending rows of other cycles |
| WaveLedger.CrashedWaveFails | internal/prefetch/scheduler.go:409-417 | a wave running when the process died is fail after the next start, and is never pending again |
| WavePause.PauseChangesNothing | internal/prefetch/scheduler.go:658-667 | a driver that finds its layer switched off changes no row |
| WavePause.PauseKeepsThePlanIff | internal/prefetch/scheduler.go:880-890 | after any steps of other targets, crashes and starts, re-enabling drives exactly the rows left pending, in wave order, if and only if no start in between retired a row of them |
| WavePause.PausedPlanSurvivesIffNoCrash | internal/prefetch/scheduler.go:409-517 | where the store calls of the starts succeed, the plan survives if and only if the process does not crash meanwhile; after a crash nothing of it is left |
| WavePause.RestartLosesThePlan | internal/prefetch/scheduler.go:462-474 | a run in which one restart with the layer off retires the paused plan |
| WaveLedger.StepAges | internal/prefetch/scheduler.go:2251-2330 | the step invariant behind the bound: each step keeps every row's account of fetches made or granted against transitions out of pending |
| WaveDrive.LiveDriverRuns | internal/prefetch/scheduler.go:2251-2330 | a live driver begun in any reachable state and disturbed by nothing, whatever all others do between its steps, ends after at most 5n + 3 steps of its own: it has fired its waves once each, in order, up to the first failed fetch; that one is fail, those before it ok, those behind it pending; with no failed fetch all n are ok |
| WaveDrive.ReclaimDriverRuns | internal/prefetch/scheduler.go:623-771 | a driver that is given n waiting rows and disturbed by nothing ends after at most 4n + 2 steps of its own: every row has been fired once, in order, and is ok exactly if its fetch was, else fail |
| WaveDrive.ResumeGivesWaiting | internal/prefetch/scheduler.go:880-890 | a resume in any reachable state in which no driver of the target is at work gives such a driver exactly the target's pending rows, in wave order, and to nobody else |
| WaveDrive.ReviveGivesWaiting | internal/prefetch/scheduler.go:409-517 | every group that a start does not discard gets such a driver, with exactly the pending rows of its cycle, in wave order, that nobody else has |
| WaveDrive.RetiringSkipsAll | internal/prefetch/scheduler.go:626-643 | a revived driver that finds its layer off ends after n + 1 steps of its own with all its rows skipped and none fired |
| WaveDrive.LateDisableSkips | internal/prefetch/scheduler.go:738-757 | a layer switched off after a revived wave was taken: that wave ends skipped, nothing is fetched, the later ones stay pending |
| WaveDrive.CancelledTakesNone | internal/prefetch/scheduler.go:2286-2295 | a cancelled driver ends without taking a further wave |
| WaveLedger.IgnoredFailureFiresTwice | internal/prefetch/scheduler.go:711-720 | a run in which one ignored failure lets one wave fire twice |
| WaveLedger.BoundIsMet | internal/prefetch/scheduler.go:711-720 | for every n a run in which n ignored failures let one wave fire n + 1 times |
| WaveLedger.UnsureInsertFiresTwice | internal/prefetch/scheduler.go:2266-2282 | a run in which an insert takes effect and fails: the driver fires without the row's id, and the revived row fires again |
| TitleTokens.TitleTokens | internal/reddit/repost.go:108-152 | the token list of a title |
| TitleTokens.TokensAre | internal/reddit/repost.go:98-152 | the tokens are the distinctive words, strictly sorted; there are none exactly when there are fewer than three |
| TitleTokens.WordsAre | internal/reddit/repost.go:112-141 | the distinctive words of a title are its maximal runs of letters and digits, in small letters, of three characters or more and no stopword |
| TitleTokens.SameWordsSameTokens | internal/reddit/repost.go:98-152 | titles with the same distinctive words get the same tokens, whatever their order, case and punctuation |
| TitleTokens.JaccardTokens | internal/reddit/repost.go:178-200 | the merge loop gives the true Jaccard index of the two sets |
| TitleTokens.ContainmentTokens | internal/reddit/repost.go:208-234 | the merge loop gives the true containment |
| TitleTokens.CountShared | internal/reddit/repost.go:182-194 | the loop of both counts the intersection of two sorted sets |
| TitleTokens.TestSimilar | internal/handler/search_session.go:204-222 | the two-way test decides the similarity that folding and dedup share |
| TitleTokens.SimilarIff | internal/handler/search_session.go:204-222 | in set sizes: posts are alike if and only if 100 times the shared words are at least 72 times all of them and the media or a known author agree, or, with one known author and fifteen words or more each, at least 55 times the shorter list |
| Posts.ResemblesIff | internal/reddit/repost.go:291-327 | the same of the posts themselves: three words or more each, and no author where the account is gone |
| TitleTokens.SimilarIsSymmetric | internal/handler/search_session.go:204-222 | similarity is symmetric |
| TitleTokens.SimilarIsReflexive | internal/handler/search_session.go:204-222 | a tokenised post resembles every post with its tokens and media key |
| FoldReposts.FoldReposts | internal/reddit/repost.go:272-366 | folding in place: the first n places are the surviving cards, the rest the annotated originals |
| FoldReposts.PlacePost | internal/reddit/repost.go:296-350 | one turn: the post joins the first cluster whose head it resembles, or starts one, and takes the head only with a strictly better score |
| FoldReposts.GroupsPartition | internal/reddit/repost.go:272-366 | each post is in exactly one cluster, members in arrival order, and each head is the first member with the best score |
| FoldReposts.NextJoinsFirst | internal/reddit/repost.go:296-350 | a post that comes next joins the first cluster whose head it resembles, or starts one, and no other cluster changes |
| FoldReposts.NothingToFold | internal/reddit/repost.go:272-366 | where no post resembles an earlier one, each keeps a card of its own, with count one and one row |
| FoldReposts.MediaKeepsApart | internal/reddit/repost.go:254-262 | the safety valve: anonymous posts whose media differ pairwise are never folded, whatever their titles |
| FoldReposts.PairFoldsIff | internal/reddit/repost.go:272-366 | two posts become one card, with both rows and the better score's post, if and only if they resemble each other |
| FoldReposts.CountsAddUp | internal/reddit/repost.go:353-365 | the repost counts of the cards sum to the number of posts |
| FoldReposts.HeadIsFirstRowIff | internal/reddit/repost.go:342-352 | the first row is the head's if and only if no member outranks the one that came first |
| FoldReposts.HeadBehindFirstRow | internal/reddit/repost.go:342-352 | a better scored copy takes the card and stays in the second row |
| FoldReposts.UnchangedHeadsApart | internal/reddit/repost.go:296-350 | clusters that kept their first head do not resemble each other |
| SearchSession.ApplySessionDedup | internal/handler/search_session.go:155-190 | one visit in place: the shown posts in order, and the seen map with this page's entries replaced |
| SearchSession.MatchesSeen | internal/handler/search_session.go:204-222 | whether any entry of the map resembles the post |
| SearchSession.DropCursor | internal/handler/search_session.go:159-166 | exactly the entries of the cursor are deleted |
| SearchSession.RevisitIsIdentity | internal/handler/search_session.go:138-190 | over any sequence of visits, revisiting a page shows what its first visit showed and leaves the map unchanged |
| SearchSession.NothingShownTwice | internal/handler/search_session.go:138-190 | no two tokenised cards shown in one session, on one page or on two, resemble each other |
| SearchSession.HiddenIff | internal/handler/search_session.go:155-190 | a post of a page is left out if and only if it resembles an entry of another cursor or a post shown earlier in the same visit |
| SearchSession.MediaIsShown | internal/handler/search_session.go:155-222 | anonymous posts whose media differ pairwise, and from the entries of other pages, are all shown, whatever their titles |
| SearchSession.PairShownIff | internal/handler/search_session.go:155-190 | of two posts on a first page the second is left out if and only if it resembles the first |
| SearchSession.SecondCopyIsHidden | internal/handler/search_session.go:155-190 | of a post listed twice on the first page only the first is shown |
| SearchSession.EnteredBeside | internal/handler/search_session.go:155-190 | entries unlike all a visit ends with do not change what it shows |
| RangedStream.StreamRangedTo | internal/media/proxy.go:872-974 | the loop and its inner retries end, and equal the turn-by-turn specification that the results below are about |
| RangedStream.UnreachableIff | internal/media/proxy.go:896-912 | over the calls to the server: a download ends without an answer if and only if three calls in a row for one offset went unanswered, or one did after the caller gave up |
| RangedStream.OneOfThreeIsReached | internal/media/proxy.go:896-912 | so against a server that answers one of any three calls in a row, never cancelled, no download ends so |
| RangedStream.MetTells | internal/media/proxy.go:912-974 | for any server: the output is the bodies met, each asked for where the ones before it end; the last answer tells a missing answer, a refusal before or after the first byte with its code, and an output over 2 GiB; the status is that of the first body or of a refusal before any byte, the total that of the first body |
| RangedStream.TurnDecreases | internal/media/proxy.go:872-974 | a turn that goes on moved bytes within the cap or used up one of two retries of the whole call |
| RangedStream.NoGapNoRepeat | internal/media/proxy.go:866-974 | against a server that honours Range, what was passed on is the content from the start on, however bodies are cut |
| RangedStream.NoErrorIsComplete | internal/media/proxy.go:912-972 | success means the whole content against a server that honours Range, refuses only past the end and, if it gives totals, never answers with an empty uncut body; if it gives none, its uncut bodies must fill their chunks |
| RangedStream.TruncatedIffLapse | internal/media/proxy.go:912-972 | success is reported on an incomplete file if and only if an answer met before the end was a refusal after the first byte, or stopped short uncut: empty, or without totals less than a chunk |
| RangedStream.BrokenIffThirdCut | internal/media/proxy.go:945-958 | the call fails over a broken body if and only if it met a third cut in the whole call, a cut at the end, a cut after the caller gave up, or any cut without totals |
| RangedStream.FailedCompleteIff | internal/media/proxy.go:942-958 | it fails with all delivered if and only if the last bytes came in a body that was cut or too large, or a request past the end got no answer |
| RangedStream.NonEmptyIsComplete | internal/media/proxy.go:926-972 | so against a server that gives totals and answers before the end with non-empty or cut 206 bodies, success means the whole content |
| RangedStream.RefusalTruncates | internal/media/proxy.go:926-932 | a refusal in mid-file is reported as success |
| RangedStream.ThreeCutsFail | internal/media/proxy.go:945-958 | three bodies cut at three different places of a file end the call |
| RangedStream.CutAtEndFails | internal/media/proxy.go:945-958 | a body cut right behind the last byte is a failure, with all delivered |
| RangedStream.WholeAnswerRepeats | internal/media/proxy.go:926-937 | a continuation answered with 200 is appended whole, and success reported |
| Bandwidth.GrantsWithinBudget | internal/media/bwlimit.go:61-84 | over any calls at any times, grants plus what is left are at most the initial tokens plus what the elapsed time accrues |
| Bandwidth.GrantsWithinRate | internal/media/bwlimit.go:61-84 | so at most capacity plus rate times time, and the tokens stay between zero and capacity |
| Bandwidth.FindsAll | internal/media/bwlimit.go:64-72 | a call finds all that accrued, or a full bucket |
| Bandwidth.GrantIsLargest | internal/media/bwlimit.go:73-80 | and is granted the largest whole number that is asked for and there |
| Bandwidth.GrantsAtLeast | internal/media/bwlimit.go:61-84 | while the bucket does not overflow, all that accrues over any calls is granted or still there, up to one token for each call |
| Bandwidth.FractionLost | internal/media/bwlimit.go:74-79 | a fraction can be paid without being granted |
| Bandwidth.WaitIsRight | internal/media/bwlimit.go:81-83 | the wait told to a refused caller is exact to the nanosecond |
| LimitedWriter.TokenBucket.Reserve | internal/media/bwlimit.go:61-84 | one call on the shared bucket: its grant, its wait and the new state |
| LimitedWriter.TokenBucket.WaitN | internal/media/bwlimit.go:87-107 | a paid wait was granted exactly n tokens, whatever other callers took in between |
| LimitedWriter.PaidCoversGrant | internal/media/bwlimit.go:74-79 | what a wait pays covers what it is granted |
| LimitedWriter.OursWithinAll | internal/media/bwlimit.go:87-107 | and is part of what the bucket grants to all |
| LimitedWriter.LimitedWriter.Write | internal/media/bwlimit.go:164-202 | what arrives downstream is a prefix of the buffer in order, all of it on success; every byte was paid for in both buckets, and every slice of 32 KiB went out only after the gate, asked before it, had opened |
| PrioGate.BetterIsTotalOrder | internal/media/prio.go:37-45 | better is a strict total order |
| PrioGate.ShortWaitsFor | internal/media/prio.go:37-45 | a download that is not long waits exactly for newer ones that are not long, and for the audio of its own generation, never for a long one |
| PrioGate.LongWaitsFor | internal/media/prio.go:37-45 | a long one waits exactly for every one that is not long, and for newer long ones and their audio |
| PrioGate.NewestGoesFirst | internal/media/prio.go:10-45 | the audio of the newest short request never waits, and its video only for audio of its generation |
| PrioGate.PrioGate.Register | internal/media/prio.go:90-100 | the locked part of register |
| PrioGate.PrioGate.Unregister | internal/media/prio.go:102-113 | the locked part of unregister, nothing for an unknown id |
| PrioGate.PrioGate.Snapshot | internal/media/prio.go:117-127 | the best entry is one that nothing registered beats |
| PrioGate.PrioGate.MayGo | internal/media/prio.go:131-137 | a writer may go exactly when nothing registered is strictly better |
| PrioGate.NoLostWakeUp | internal/media/prio.go:90-143 | a parked waiter is blocked on the current channel by an entry still registered, or its channel is closed or has a closer in flight |
| PrioGate.ClosedOnce | internal/media/prio.go:90-113 | no channel is closed twice |
| PrioGate.UnbeatenGetsThrough | internal/media/prio.go:131-143 | once the closes in flight are done, a writer that nothing beats wakes and goes |
| PrioGate.ClosersFinish | internal/media/prio.go:90-113 | the closes in flight can always be carried out |
| PrioGate.SomeoneIsUnbeaten | internal/media/prio.go:37-45 | some registered writer is beaten by none, so the gate never blocks all |
| HrLimit.BucketCap | internal/hrlimit/hrlimit.go:58-77 | in every tier no bucket holds more human calls than its threshold, and the bucket after a saturated one holds none |
| HrLimit.SpanCap | internal/hrlimit/hrlimit.go:58-77 | any m consecutive buckets hold at most m(t-1)+1 human calls for t of at least two, and (m+1)/2 for one |
| HrLimit.AdmittedIff | internal/hrlimit/hrlimit.go:58-77 | over any traffic a human call is admitted if and only if in no tier the current bucket or the one before has its threshold of calls |
| HrLimit.CooldownNeverEarlier | internal/hrlimit/hrlimit.go:72-75 | no event moves a cooldown earlier |
| HrLimit.RecordCounts | internal/hrlimit/hrlimit.go:66-71 | counters never lapse while their bucket lasts, so the script counts every call |
| HrLimit.BackoffIs | internal/hrlimit/hrlimit.go:149-160 | after k failed probes the backoff is min(2^(k-1), 30) seconds |
| HrLimit.Manager.Admit | internal/hrlimit/hrlimit.go:113-145 | refuses everything while Redis is down, probes only when the backoff is over, one answer lifts it, and the reason is the most severe tier cooling |
| HrLimit.Manager.FailClosed | internal/hrlimit/hrlimit.go:149-161 | one more failure, and the next probe a backoff away |
| HrLimit.Manager.RecordUpstream | internal/hrlimit/hrlimit.go:213-233 | every tier counts the call |
| HrLimit.Manager.RedisDownReset | internal/hrlimit/hrlimit.go:180-208 | down exactly while failures stand and the probe is not due or fails again |
| SingleFlight.OneRunPerKey | internal/handler/singleflight.go:34-72 | at most one function runs per key |
| SingleFlight.FollowersGetTheAnswer | internal/handler/singleflight.go:34-72 | a follower returns exactly its leader's value and error, a panic as an error |
| SingleFlight.AnswersItsKey | internal/handler/singleflight.go:34-45 | the call a caller leads or follows is for the key it asked for |
| SingleFlight.FollowerCanReturn | internal/handler/singleflight.go:34-72 | no follower is stuck: at most three steps of its leader and it returns |
| SingleFlight.ClosedOnce | internal/handler/singleflight.go:62-65 | a call's channel is closed once |
| ETagCache.ETagCache.Get | internal/reddit/etag.go:36-47 | a hit returns the entry and moves it to the front; list and index stay in bijection |
| ETagCache.ETagCache.Set | internal/reddit/etag.go:49-71 | the new entry in front, the old one for its path gone, the list cut to its bound |
| ETagCache.RecencyHolds | internal/reddit/etag.go:36-71 | after any run the list is within its bound and in order of last use |
| ETagCache.HoldsLastSets | internal/reddit/etag.go:36-71 | every path present holds what was last set for it |
| ETagCache.EvictsLeastRecentlyUsed | internal/reddit/etag.go:62-70 | a new path in a full cache drops exactly the path used longest ago |
| SubModes.SplitTopLevelClauses | internal/handler/settings.go:106-123 | the clauses of a text, cut at every '+' that does not join a depth |
| SubModes.IsDepthValueJoin | internal/handler/settings.go:130-152 | decides whether a '+' joins the two halves of a depth |
| SubModes.ParsePrefetchSubModes | internal/handler/settings.go:173-256 | the parsed overrides and the rejects with their reasons; a repeated name keeps its place and takes the last value |
| SubModes.CanonicalPrefetchSubModes | internal/handler/settings.go:260-282 | the canonical text |
| SubModes.ParseIsValid | internal/handler/settings.go:173-256 | whatever the text, the parsed list has distinct lower-case names, each with a valid field |
| SubModes.CanonicalSplits | internal/handler/settings.go:106-152 | the splitter recovers exactly the clauses of a canonical text |
| SubModes.WrittenParses | internal/handler/settings.go:72-256 | however a valid list is written, with time, t or timeframe, depth or d, none, off or l1, l2+l3 or l3+l2, it parses to the list and nothing is rejected |
| SubModes.FieldAnswered | internal/handler/settings.go:201-241 | a field that is not blank either sets something or is rejected and sets nothing |
| SubModes.ClauseAnswered | internal/handler/settings.go:181-246 | a clause that is not blank gives an override or a reject |
| SubModes.LaterClauseWins | internal/handler/settings.go:247-256 | a later clause for a subreddit takes the place of the earlier one, and no other override changes |
| SubModes.RoundTrip | internal/handler/settings.go:173-282 | parsing the canonical form of a valid list gives the list back and rejects nothing |
| SubModes.NormalizeIsIdempotent | internal/handler/settings.go:284-287 | for every text, normalising twice is normalising once, without rejects |
| SubModeReaders.ResolveSubParams | internal/prefetch/scheduler.go:1333-1373 | the scheduler's own scan for sort and time |
| SubModeReaders.ResolveSubDepth | internal/prefetch/scheduler.go:2819-2858 | the scheduler's own scan for the depth, with its fallbacks |
| SubModeReaders.ScannersAgree | internal/prefetch/scheduler.go:1333-1373 | from a stored text both scanners read, for every subreddit, exactly the fields the parser gave it |

## Left out

- SampleTables.WriteStts, and all box writers: sample and chunk counts are required to fit the 32-bit counts of the box format; the wrap beyond them is not modelled.
- ProgressiveMux.WriteMdat: file offsets are unbounded integers; 64-bit wrap of offsets is not modelled, but the size field written is.
- MuxFragmented.MuxFragmentedMP4: serialisation of the movie box, track and movie headers and verbatim box copies are library work; the moov follows as an arbitrary tail.
- MuxFragmented.ReadAsStandardIff: an input file holds one track; a moof with a track fragment of another track counts as invalid.
- CommentArchive.MergeRemovedBodies: the source edits the fetched tree in place; the model returns the edited tree, which is the only reference its caller keeps.
- CommentArchive.Service.ArchiveComments: loads and saves succeed, one caller at a time; JSON, the control lists and the subreddit marks are outside.
- MoreChildren.ParseMoreChildren: starts from decoded things; JSON and rendering of bodies are outside.
- WavePlan.Disperse: the draw, sort and shift loops that two planners repeat are one method; the library sort is the function Sorted, the only possible one by SortedUnique.
- WaveDrive.LiveDriverRuns: nothing disturbs a driver means that the process lives, its layer stays on, its own calls succeed and are not cancelled, its rows are not superseded, and no resume hands them to a second driver; without that the results of WaveLedger and WavePause hold.
- WaveLedger.SupersedeSkips: buckets, subreddits and cycle ids are not empty; the nulls SQL has for empty ones are outside.
- WaveLedger.FiresAtMostOnce: waves whose insert did not reach the store have no row and are outside the statement; times, sleeps, display snapshots and payloads are outside, so whether an L3 plan is malformed is a parameter of the start.
- SearchSession.ApplySessionDedup: hashes are injective; loading and saving the map is outside, and so is the time a session expires.
- TitleTokens.TitleTokens: sorting is by code point, as it is by byte on the ASCII tokens it sorts.
- Posts.MemberFrom: card rows carry permalink, title, author and score; community and times, copied alike, are dropped.
- Posts.ReadMark: author names come trimmed and lowercased, scores parsed and media keys computed; URL rewriting is outside.
- RangedStream.StreamRangedTo: headers, delays and the parsing of Content-Range are outside; the limiter around the sink has its own model.
- LimitedWriter.LimitedWriter.Write: the gate is whether it opens before the context ends; a script of the environment that ends early is an execution watched only so far.
- PrioGate.UnbeatenGetsThrough: fairness is not claimed; the gate starves low priorities on purpose.
- HrLimit.SpanCap: admission and recording of one human call happen together, Redis does not lose keys early and uses the same clock; concurrent admissions between the two are outside.
- SingleFlight.FollowerCanReturn: a function that ends its goroutine without returning or panicking is outside.
- SubModes.ParsePrefetchSubModes: letter case and white space are those of ASCII.
- Handlers, rendering, templates, cookies, configuration, SQL, OAuth, eviction and the `/random` walk.
