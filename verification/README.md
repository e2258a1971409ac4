# Self-healing event catalogue: verified model

The repository collects events from several ticket sites and Telegram channels into one catalogue and
keeps healing it: venues that are one place are merged, events that are one show are merged, events that
span several places are split.  This project models that engine and the protocols around it, and proves
what they keep.

* **Clustering.**  `UnionFind` is the path-halving union-find against the equivalence closure of its
  pairs; `MergePlan` reduces clusters to (duplicate, canonical) merges; `GuardedClusters` is the greedy
  union under the transitive contrast guard; `PlaceClusters` and `VenueClusters` instantiate it, and
  `VenueNames` says on the words of two names when the guard refuses them and when they match.
* **Tables.**  `Tables.Db` holds the occurrence, source, candidate, event and venue rows, one method per
  SQL statement.  A statement that would break the unique occurrence index demands that it does not, so
  every pass proves the index statement by statement.  `Repoint` is the fold of one owner's rows into
  another's; `EventMerge`, `VenueMerge`, `ClusterFolds` and `VenuePass` build the merges from it.
* **Matching.**  `Text`, `TitleMatch` and `VenueMatch` are the name tests on real strings, `TextLaws` and
  `TitleReading` what they read off a title, `TitleLaws` which spellings and endings they see through;
  `GreedyMatching` says when the greedy word match is complete, `WalkLimits` which answers the order of a
  set can change, `TitleLimits` where the promises of the title tests end.  `PairSearch` is the bucketed
  search for duplicate events; `SelfHeal` iterates the unattended merge and `SecondRound` shows what one
  round does and what another process still finds.
* **Resplitting.**  `ResplitPlan` plans one event, `ResplitPass` follows the whole pass on values,
  `Resplit` runs it statement by statement, `ResplitLaws` tells on rows, names and distances where the
  rows end.
* **The passes together.**  `Healing` alternates the event merge and the resplit, `VenueQuery` is the
  candidate query of the venue pass, `HealingFlow` the scheduled flow with that pass in front: what falls
  from run to run, and where it ends.  `SettledCatalogue` spells that end out on venues, distances, titles
  and rows.  Every run may be a process of its own: the runs share the ratio, but each walks its sets in
  its own order and samples its limited queries anew.
* **Protocols.**  `Crawler` (interleaved workers over one queue; `CrawlReach` runs it on a fixed graph,
  `CrawlOrder` follows its order), `LlmSlots` (leased slots in a sorted set, with lost replies, crashes
  and local fallback) and `EffectiveConfig` (a TTL cache with reads in flight) are step systems; their
  theorems hold in every reachable state or over every run.
* **Readers and printers.**  `BraceScanner` against the JSON grammar (RFC 8259, sections 4, 5 and 7),
  `ResolveDates` and `ResolveRuns`, `Paging`, `PagingRuns` and `PagingTexts`, `Prices`, `PriceRoundTrips`
  and `PriceDiscounts`, `Codes`.

What the source updates in place is a class with those fields, and each loop of the source is a method
proved against a specification function or predicate; the main results are lemmas about those.  Clocks,
server answers, name-similarity ratios and distances are parameters.

## Where the code and its documentation differ

The model follows the code.

* `same_event` at level "safe" is documented to ignore word order; the key joins the tokens in order, so a
  rearranged title is the same event exactly when the joined keys agree (`TitleLimits.SafeSeesWordOrder`);
  "Роза мира" and "Мира роза" are not (`TitleLimits.RoseOfTheWorldIsNotWorldOfTheRose`).
* `same_slot_title` guards against different numbers, but the call beside it in the pair search does not.
  `TitleLimits.SlotGuardFailsIff` says exactly when two titles with different numbers on one stage at one
  instant pass; "Дюна" and "Дюна 2" do, and a round keeps only one of them
  (`SecondRound.DuneAndItsSequelAreMerged`).
* The edition-year guard of `same_event` is not transitive.  A cluster of its matches keeps one set of years
  unless some title of the cluster names none (`TitleLimits.YearsAgreeUnlessBare`); such a title does bridge
  two editions (`TitleLimits.TitleBridgesIff`, `TitleLimits.SummerBridges`), which also makes a second
  healing round necessary (`SecondRound.OneRoundMayNotSuffice`).
* `_subset_extra` walks unordered sets greedily, and the order differs from process to process.  Some walk
  misses exactly when a word can be starved (`GreedyMatching.WalkDecidesIff`), and a walk can leave exactly
  the words some matching leaves (`GreedyMatching.WalkLeavesIff`).  On stem classes every walk finds a match
  if there is one (`GreedyMatching.GreedyIsCompleteOnClasses`), but the words left over may still differ.
  `WalkLimits.AnswerDependsOnWalkIff` says at each level which answers can be had: "март мартам" and
  "марта марте" match under one walk and not under another (`WalkLimits.MarchDependsOnTheWalk`), and
  "света концерт" and "света концерт концерта", which always match, are merged unattended under one walk
  only (`WalkLimits.EchoDependsOnTheWalk`).
* The passes are documented as idempotent, with a zero of the health check as the end.  A later process can
  still merge what an earlier one found healthy (`SecondRound.HealthDependsOnTheWalk`).  What holds is that
  few runs change anything (`SelfHeal.RoundsThatChange`, `Healing.CyclesThatChange`,
  `HealingFlow.FlowsThatChange`), that runs without end stop changing (`HealingFlow.EveryFlowSettles`), and
  that a state is left alone for good exactly when it is healthy for every walk
  (`SelfHeal.FixedForGoodIff`).
* The date resolver's comment fears an oscillation on the placeholder venue.  It can occur exactly when a
  place of the schedule bears the placeholder's name (`ResolveRuns.SettlesIffNamesAreReal`).
* The limit of the LLM semaphore is documented to be read on every acquire; it is read once per call, before
  the polling, and the local semaphore keeps the limit of its first use.  A poll claims above the limit of
  the hour exactly when the limit its call began with is higher and that many slots live
  (`LlmSlots.ClaimsAboveLimitIff`); `LlmSlots.LimitOutlivesTheNight` is such a run.  A process without Redis
  lets a call in above it exactly when its semaphore was built under a higher limit and holds that many
  (`LlmSlots.EntersAboveLimitIff`, `LlmSlots.LocalLimitOutlivesTheNight`).
* After a settings write and its `bust` the writer is documented to be fresh at once.  It can come back to a
  value that misses the write exactly when a read that missed it is still under way
  (`EffectiveConfig.FreshAfterBustIff`).
* The Timepad printer is documented to round-trip exactly and never to say free falsely.  Both fail on
  fractional prices, and the first on a range the wrong way round (`PriceRoundTrips.TimepadRoundTripsIff`,
  `PriceRoundTrips.TimepadSaysFreeIff`).
* The price parser is documented to read thousands separated by blanks; it drops the number when the blank
  is not the plain space (`PriceRoundTrips.GroupedNumberIsReadIff`).

## Model

| member | source | states |
|---|---|---|
| UnionFind.Forest.Find | pipeline/maintenance/events.py:50-55 | path halving ends, returns the root of the node's class and changes no class |
| UnionFind.Forest.Union | pipeline/maintenance/events.py:57-58 | union merges exactly the two classes; the forest stays well founded |
| UnionFind.HalvingKeepsRooted | pipeline/maintenance/venues.py:63-68 | moving a node to its grandparent keeps every class and strictly climbs, so the walk ends |
| UnionFind.RootIsWhereClimbingEnds | pipeline/maintenance/venues.py:63-68 | the class label of a node is where following the parents ends |
| UnionFind.RepresentsUnion | pipeline/maintenance/events.py:124-126 | folding one more pair gives the equivalence closure of the pairs so far: same label if and only if connected |
| MergePlan.NoDuplicateIsCanonical | pipeline/maintenance/events.py:131-134 | no id is both merged away and a merge target |
| MergePlan.EveryOtherMemberIsMerged | pipeline/maintenance/events.py:131-134 | every member but the best of its cluster is merged into the best, exactly once |
| MergePlan.MergesDoNotDependOnOrder | pipeline/maintenance/events.py:121-135 | the (duplicate, canonical) set is the same for every order, repetition and direction of the pairs |
| EventClusters.ClusterToCanon | pipeline/maintenance/events.py:121-135 | the merge list holds (d, c) if and only if d is connected to c, is not c, and c is maximal by sources, occurrences, id in that component |
| GuardedClusters.GuardedForest.GuardedUnion | pipeline/maintenance/venues.py:109-126 | the member sets mirror the union-find classes; the union happens unless a cross pair contrasts, and the answer says whether the two are together |
| GuardedClusters.MergeKeeps | pipeline/maintenance/venues.py:118-126 | an allowed union creates no contrasting pair and leaves every earlier refusal justified |
| GuardedClusters.GuardedRunIsSafeAndMaximal | pipeline/maintenance/venues.py:109-139 | over every request sequence no cluster holds a contrasting pair, and every requested pair is together or its clusters contrast |
| GuardedClusters.TogetherUnlessClash | pipeline/maintenance/venues.py:109-139 | at the end a requested pair is together if and only if no two different members of its clusters contrast |
| GuardedClusters.GuardedRunRepresents | pipeline/maintenance/venues.py:128-139 | nothing but accepted requests joins venues: the classes are the closure of a subset of the requests |
| VenueClusters.PlanVenueMerges | pipeline/maintenance/venues.py:128-148 | the candidate loop computes the guarded closure of the pairs with evidence and merges each cluster into its venue with most occurrences, lowest id on ties |
| VenueNames.PlanKeepsHallsApart | pipeline/maintenance/venues.py:109-148 | no venue is merged into one with a name of the opposite hall, nor two such venues into one, even through a bridge name: told on the words of the names |
| VenueNames.EvidenceIsFollowed | pipeline/maintenance/venues.py:109-139 | two venues with evidence end in one cluster unless their clusters hold names of opposite halls |
| VenueNames.BusiestVenueStays | pipeline/maintenance/venues.py:145-148 | the venue merged into has more rows than any other of its cluster, or as many and the lower id |
| VenueNames.ContrastsIff | core/matching/venue_match.py:46-67 | two names contrast if and only if, for one listed pair of word sets, a word of one set is in one name and a word of the other in the other |
| VenueNames.UnmarkedContrastsWithNone | core/matching/venue_match.py:65-67 | a name without a marking word contrasts with no name |
| VenueNames.GreatAndSmallHall | core/matching/venue_match.py:43-52 | "большой зал" and "малый зал" contrast; "большой зал" contrasts neither with itself nor with "зал" |
| VenueNames.NamesMatchIff | core/matching/venue_match.py:96-123 | two names are one place if and only if they are no opposite halls and reach a ratio of 85, or one is inside the other's name and address, or all its words are in the other, or they share a showing and reach 70 |
| VenueNames.NameWithinIff | core/matching/venue_match.py:82-93 | a name is inside a text if and only if all its identifying tokens are, and there are two of them or one of seven letters |
| VenueMatch.CoHostRelaxesIff | core/matching/venue_match.py:96-123 | sharing an event changes the answer if and only if the names do not contrast, none contains the other and the ratio lies between the two thresholds; it never takes a match away |
| Repoint.FoldAllKeepsKey | pipeline/maintenance/events.py:142-157 | deleting collisions and repointing, duplicate after duplicate, keeps the owner/tag key |
| Repoint.FoldAllShows | pipeline/maintenance/events.py:142-157 | after the plan a duplicate owns nothing and every other owner owns exactly its own tags and those folded into it |
| Repoint.FoldAllKeepsRows | pipeline/maintenance/venues.py:154-167 | rows of owners that are not merged keep their number and content |
| Tables.UniqueKeyViews | migrations/versions/0005_occurrence_unique.py:36-37 | the unique index over event, start and coalesced venue is the key both of the event-owned and of the venue-owned view |
| EventMerge.FoldPair | pipeline/maintenance/events.py:142-157 | each of the three statements for one pair keeps the unique index |
| EventMerge.CoverageConserved | pipeline/maintenance/events.py:142-157 | a canonical event ends with exactly the union of the (start, venue) keys of the events folded into it; merged events show nothing |
| EventMerge.SourcesConserved | pipeline/maintenance/events.py:154-157 | every source row survives with its URL, on its event or that event's canonical one |
| EventMerge.PlaceholdersAreRedundant | pipeline/maintenance/events.py:158-182 | every covered (event, venue, Moscow day) stays covered; no timed, open-ended or multi-day row is deleted |
| EventMerge.NoPlaceholderIsLeft | pipeline/maintenance/events.py:158-182 | afterwards no row of a canonical event that starts at Moscow midnight and ends that day stands beside a timed row of the same event, venue and day |
| EventMerge.DeleteMerged | pipeline/maintenance/events.py:183-188 | the closing delete cascades to no occurrence and no source |
| EventMerge.CommitEventMerges | pipeline/maintenance/events.py:138-195 | the whole commit computes the folds, the placeholder removal and the delete, and leaves no midnight stand-in beside a timed row, or with apply off changes nothing; the index holds throughout |
| VenueMerge.CoverageConserved | pipeline/maintenance/venues.py:153-167 | what was shown at any venue of a plan is shown at its canonical venue and nothing else is; rows without a venue stay |
| VenueMerge.CandidatesConserved | pipeline/maintenance/venues.py:168-171 | every candidate keeps its row and goes where the plan sends its venue |
| VenueMerge.DeleteMerged | pipeline/maintenance/venues.py:172-177 | deleting the merged venues nulls out no occurrence and no candidate |
| VenueMerge.CommitVenueMerges | pipeline/maintenance/venues.py:152-181 | repointing and deleting keeps the index at every statement and computes the folded tables, or rolls back |
| ClusterFolds.FoldIsByCluster | pipeline/maintenance/events.py:131-157 | told by clusters: the best member gets what any member had, the others end with nothing, outsiders are unchanged |
| VenuePass.MergeFuzzyVenues | pipeline/maintenance/venues.py:95-186 | plan and commit together: the tables afterwards are the fold of the guarded plan, or unchanged without apply |
| VenuePass.PassConservesBookings | pipeline/maintenance/venues.py:128-177 | every (event, start) shown anywhere in a cluster of accepted pairs ends at its canonical venue, and only there |
| TitleMatch.ComputeSubsetExtra | core/matching/title_match.py:146-156 | the loop over the words computes the greedy matching |
| TitleMatch.SubsetExtraIsSound | core/matching/title_match.py:128-156 | a non-None answer is witnessed, for any walk, by an injective stem-respecting map; the extra words are the ones it leaves out and number big minus small |
| GreedyMatching.WalkDecidesIff | core/matching/title_match.py:146-156 | some walk of the word sets finds a match if and only if there is one; some walk misses if and only if every partner of some word can be taken by other words |
| GreedyMatching.GreedyIsCompleteOnClasses | core/matching/title_match.py:146-156 | when words that share a partner share all partners, every walk finds a match if there is one |
| GreedyMatching.WalkLeavesIff | core/matching/title_match.py:146-156 | some walk leaves exactly these extra words if and only if some matching leaves them |
| WalkLimits.AnswerDependsOnWalkIff | core/matching/title_match.py:213-228 | where the words decide a fuzzy or an automatic match of two titles, equal word sets included, it can be yes if and only if some matching leaves words the level lets pass, and no if and only if a word can be starved or some matching leaves words it does not |
| WalkLimits.WhatPasses | core/matching/title_match.py:213-228 | at the fuzzy level yes needs a matching and no a starved word only; at the automatic level what passes is filler |
| WalkLimits.SlotDependsOnWalkIff | core/matching/title_match.py:159-182 | on a shared slot two titles only their words can tell can match if and only if a matching exists, and can fail to if and only if a word can be starved |
| WalkLimits.MarchDependsOnTheWalk | core/matching/title_match.py:146-156 | "март мартам" and "марта марте" are one event under one walk and two under another |
| WalkLimits.EchoDependsOnTheWalk | core/matching/title_match.py:213-228 | "света концерт" and "света концерт концерта" are stem classes, and yet the automatic level merges them under one walk and not under another |
| TitleMatch.ChainsKeepNumbers | core/matching/title_match.py:115-118 | any cluster of strict matches has one common number set, so sequels never fuse through a chain |
| TitleLaws.StemEqIff | core/matching/title_match.py:128-143 | two words are one if and only if equal, or one is the other of four letters with at most two more, or both of six differ in a final declension letter |
| TitleLaws.DocumentedStems | core/matching/title_match.py:131-135 | "владимир"/"владимира" and "сергей"/"сергея" are one word, "кошка"/"кошки" and "лев"/"льва" are two |
| TitleLaws.SpellingDoesNotMatter | core/matching/title_match.py:92-112 | spellings that differ in case or in ё have the same words and keys |
| TitleLaws.SignsDoNotMatter | core/matching/title_match.py:104-108 | a sign or blank in a title does not change its key of letters |
| TitleLaws.LatinTwinsAgree | core/matching/title_match.py:92-101 | a name spelled in Latin letters has the key of its Cyrillic twin |
| TitleLaws.PlainTitleIsItsLetters | core/matching/title_match.py:104-108 | a title of small letters and digits is its own key of letters |
| TitleLaws.AlphabetInLatin | core/matching/title_match.py:44-50 | the transliteration of each Russian letter |
| TitleLaws.YearIff | core/matching/title_match.py:52 | an edition year is four digits that make a number from 1900 to 2099 |
| TitleLimits.OneMoreWordDecides | core/matching/title_match.py:213-228 | one more word on an anchoring title is a match for review, and an automatic one if and only if the word is filler, has two letters, or the ratio reaches 92 |
| TitleLimits.RatedTitleMatches | core/matching/title_match.py:159-182 | a word and the word with an age rating pass the slot guard that refuses the word with a number |
| TitleLimits.SafeSeesWordOrder | core/matching/title_match.py:92-101 | a title and any rearrangement of its pieces are safe-equal if and only if the keys joined in order agree and are not empty |
| TitleLimits.RoseOfTheWorldIsNotWorldOfTheRose | core/matching/title_match.py:189-190 | two titles with the same words in another order that are not safe-equal |
| TitleLimits.SlotGuardFailsIff | pipeline/maintenance/events.py:102 | two events on a shared slot whose titles name different numbers are a safe pair if and only if the years do not clash and the keys agree, an anchored stem subset is found, or the ratio reaches 85 |
| TitleLimits.NumberedTitleMatchesIff | core/matching/title_match.py:159-182 | a plain word and the word with a number pass the slot test if and only if the word can anchor a match or the ratio says so, while the guard and the strict match refuse them |
| TitleLimits.DuneAndItsSequelAreSafe | pipeline/maintenance/events.py:102 | the titles "дюна" and "дюна 2" on a shared slot are a safe pair |
| TitleLimits.YearsAgreeUnlessBare | core/matching/title_match.py:201-205 | over any chain of lenient matches two titles name the same years, unless some title of their cluster names none |
| TitleLimits.TitleBridgesIff | core/matching/title_match.py:201-205 | among a plain title and its editions a title matches two different years if and only if it names none |
| TitleLimits.SummerBridges | core/matching/title_match.py:201-205 | "лето" matches "лето 2025" and "лето 2026", which do not match each other |
| PairSearch.FindPairs | pipeline/maintenance/events.py:61-118 | the bucketed search returns a pair as safe or as fuzzy if and only if the all-pairs definition does, each pair once and none in both lists; both ends are active and titled |
| PairSearch.SafePairIff | pipeline/maintenance/events.py:31-118 | told on rows and events: a safe pair is two active titled events that share a stage at one instant under titles the slot test takes for one, or a Moscow day at a venue, or without one under the same letters, with titles that match at the automatic level |
| PairSearch.FuzzyPairIff | pipeline/maintenance/events.py:31-118 | a pair for review is two active titled events, no safe pair, with a day in common and a fuzzy match |
| PairSearch.BucketMeansSharedKey | pipeline/maintenance/events.py:70-82 | a bucket holds both events of a pair if and only if rows of theirs share the bucket's key |
| SelfHeal.MergeDuplicateEvents | pipeline/maintenance/events.py:198-219 | one run unions exactly the safe pairs and the allowed fuzzy ones, and its result is the fold of their merge list |
| SelfHeal.RoundConservesCoverage | pipeline/maintenance/events.py:142-157 | after the folds, before placeholders go, a canonical event shows exactly what its whole cluster showed |
| SelfHeal.RoundConservesDays | pipeline/maintenance/events.py:198-219 | at the end of the round a canonical event covers exactly the days its whole cluster covered at each venue |
| SelfHeal.SafePairIsMerged | pipeline/maintenance/events.py:198-219 | a round keeps at most one event of each safe pair |
| SelfHeal.RoundLeavesNoStandIn | pipeline/maintenance/events.py:158-182 | after a round no midnight stand-in of a canonical event stands beside its timed row |
| SelfHeal.InactiveIsLeftAlone | pipeline/maintenance/events.py:31-43 | an event that is not active or has no title is in no merge and keeps exactly its rows and sources |
| SelfHeal.BestEventStays | pipeline/maintenance/events.py:121-135 | the event merged into has more sources than any other of its cluster, or as many and more rows, or as many of both and the higher id |
| SelfHeal.OnlyReviewedPairs | pipeline/maintenance/events.py:198-219 | beyond the safe pairs an event is merged if and only if fuzzy pairs are asked for and the pair is one, on the list if there is one |
| SelfHeal.ProductiveRoundShrinks | pipeline/maintenance/events.py:198-219 | a round with a safe pair deletes an event and leaves one |
| SelfHeal.HealthyIsFixed | pipeline/maintenance/healthcheck.py:38-45 | without safe pairs a round is the identity |
| SelfHeal.RoundIsIdleIff | pipeline/maintenance/events.py:198-219 | a round changes the tables if and only if it finds a safe pair, and each change costs an event |
| SelfHeal.RoundsThatChange | apps/worker/flows.py:592-594 | from n events at most n - 1 rounds change anything, however each process walks its sets |
| SelfHeal.EveryRunSettles | apps/worker/flows.py:592-594 | rounds without end come to a state every later process finds healthy and leaves alone |
| SelfHeal.FixedForGoodIff | pipeline/maintenance/healthcheck.py:38-45 | no run of processes with this ratio ever leaves a state if and only if it has no safe pair under any walk |
| SelfHeal.SelfHealConverges | pipeline/maintenance/healthcheck.py:38-45 | if all rounds walk alike, a run of n rounds from n events has reached the state without safe pairs, in fewer than n rounds, and stays there |
| SecondRound.OneRoundMayNotSuffice | pipeline/maintenance/events.py:198-219 | concrete tables from which every round leaves a safe pair behind |
| SecondRound.DuneAndItsSequelAreMerged | pipeline/maintenance/events.py:102 | "дюна" and "дюна 2" on a shared slot do not both survive a round |
| SecondRound.HealthDependsOnTheWalkIff | core/matching/title_match.py:146-156 | of two events on one slot that only their words can tell, some process finds a pair to merge if and only if a matching exists, and some finds none if and only if a word can be starved |
| SecondRound.HealthDependsOnTheWalk | pipeline/maintenance/events.py:198-219 | concrete tables that a round of one process leaves alone and a round of another merges |
| Healing.RoundShrinksCombinations | pipeline/maintenance/events.py:198-219 | a round never adds a combination of event and venue, and one with a safe pair removes one |
| Healing.ResplitKeepsCombinations | pipeline/maintenance/resplit.py:94-190 | a resplit never adds a combination of event and venue |
| Healing.HealOnce | apps/worker/flows.py:622-638 | merge and resplit, applied one after the other, are one cycle |
| Healing.CycleIsIdleIff | pipeline/maintenance/healthcheck.py:35-58 | merge and resplit change the tables if and only if there is a safe pair or an event over several venues |
| Healing.CyclesThatChange | apps/worker/flows.py:622-638 | over any cycles, each with walks of its own, at most one more than the combinations shown changes anything |
| Healing.EveryHealingSettles | apps/worker/flows.py:622-638 | cycles without end come to a state every later process finds clean and leaves alone |
| Healing.CleanForEveryStays | pipeline/maintenance/healthcheck.py:35-58 | a state clean under every walk is never left |
| Healing.HealingConverges | pipeline/maintenance/healthcheck.py:35-58 | if all cycles walk alike, they reach a state with no safe pair and no event over several venues, within one cycle more than the combinations shown, and stay there |
| VenueQuery.ShareSameShow | pipeline/maintenance/venues.py:74-92 | the test answers whether one of the rows it sampled, at most 200, is of two titles for one show |
| VenueQuery.FewMeetingsDecide | pipeline/maintenance/venues.py:80-92 | up to 200 such rows the answer is the same whichever the query returns first |
| VenueQuery.CandidateRows | pipeline/maintenance/venues.py:39-56 | one row for each two located, named venues within 150 m, with their distance and the answers of both show tests |
| VenuePass.MergesIffEvidence | pipeline/maintenance/venues.py:102-148 | the venue pass merges something if and only if some candidate pair carries evidence, whatever the contrast guard refuses |
| HealingFlow.MergeVenues | apps/worker/tasks/dedup.py:123-130 | the candidate query and the venue pass on its rows, applied to the tables |
| HealingFlow.SelfHealDedup | apps/worker/flows.py:622-638 | the flow merges the venues its own query finds, then the events, then resplits |
| HealingFlow.FlowIsIdleIff | apps/worker/flows.py:622-638 | a run changes the catalogue if and only if a candidate pair carries evidence, there is a safe pair, or an event is over several venues |
| HealingFlow.FlowsThatChange | apps/worker/flows.py:622-638 | over any runs, whatever each walks and samples, at most one more than the venues and combinations together changes anything |
| HealingFlow.EveryFlowSettles | apps/worker/flows.py:622-638 | repeated without end the flow comes to a catalogue no later run changes: none finds evidence, a safe pair or an event over several venues |
| HealingFlow.SettledForEveryStays | apps/worker/flows.py:622-638 | a catalogue with nothing left under any walk and any sample is never left |
| HealingFlow.FlowSettles | apps/worker/flows.py:622-638 | if all runs walk alike and equal catalogues are answered alike, the flow reaches a catalogue at which none of its passes finds anything, within a bound fixed by its venues and combinations |
| SettledCatalogue.EvidenceMeans | pipeline/maintenance/venues.py:39-139 | what counts as evidence, told on the venues: two located, named venues within 150 m that are one place by name, or within 30 m and no opposite halls with the same show under two events on one day |
| SettledCatalogue.NoEvidenceMeans | pipeline/maintenance/venues.py:39-139 | without evidence there are no two such venues, up to 200 meetings of rows |
| SettledCatalogue.MergedIntoTheBusier | pipeline/maintenance/venues.py:41-43 | a venue is merged into one with more occurrence rows, or as many and the lower id |
| SettledCatalogue.IdleFlowLeavesNoTwins | apps/worker/flows.py:622-638 | a catalogue the flow leaves as it was has no two located, named venues within 150 m that are one place by name |
| SettledCatalogue.IdleFlowLeavesNoDuplicates | pipeline/maintenance/healthcheck.py:35-58 | nor two active titled events that share an instant or a day under titles that match |
| SettledCatalogue.IdleFlowLeavesOneVenue | pipeline/maintenance/healthcheck.py:35-58 | nor an event with rows at two venues |
| PlaceClusters.ClusterBy | pipeline/maintenance/resplit.py:53-91 | the double loop computes the guarded closure of all pairs that are near or named alike, grouped by root |
| PlaceClusters.PlacesAreSafeAndMaximal | pipeline/maintenance/resplit.py:66-87 | no place holds contrasting venues, even when close or bridged; matching venues share a place unless their places contrast |
| PlaceClusters.OnlySamePairsJoin | pipeline/maintenance/resplit.py:66-87 | only chains of matching venues share a place |
| ResplitPlan.CollapsedKeepsKey | pipeline/maintenance/resplit.py:158-168 | the unique index holds whichever slots have been collapsed |
| ResplitPlan.EachShowingSurvivesOnce | pipeline/maintenance/resplit.py:149-168 | each (place, start) of the event survives exactly once, under its lowest row number |
| ResplitPlan.ResplitLeavesOneVenue | pipeline/maintenance/resplit.py:158-168 | the event and each copy end with at most one venue, and no other event gains one |
| ResplitPlan.ResplitTouchesOnlyScope | pipeline/maintenance/resplit.py:151-153 | rows without a venue and rows of other events are untouched |
| Resplit.CollapseSlot | pipeline/maintenance/resplit.py:158-168 | one group: deleting the losers first and then repointing the survivor never breaks the index |
| Resplit.MakePlan | pipeline/maintenance/resplit.py:123-144 | the plan places the event's own venues, picks the venue and the place with most rows, the lowest venue id on a tie, and gives every other place a fresh copy of the event |
| Resplit.ResplitOne | pipeline/maintenance/resplit.py:123-178 | one event: its rows are collapsed and its sources moved as the plan says |
| Resplit.ResplitAll | pipeline/maintenance/resplit.py:97-178 | after the pass every event over several venues has followed the plan of its own rows, everything else is as it was, and none is left |
| ResplitPass.PassedGrows | pipeline/maintenance/resplit.py:104-178 | a later event's step reaches no row of an event already done |
| ResplitPass.SourcesPassedGrows | pipeline/maintenance/resplit.py:170-178 | sources go with a row of their event that carries their URL, and only those of the event at hand move |
| ResplitPass.EventsPassedGrows | pipeline/maintenance/resplit.py:137-142 | copies are new, equal to their original, and no event is the target of two places |
| ResplitPass.ResplitKeepsEveryShowing | pipeline/maintenance/resplit.py:97-168 | over the whole pass each showing with a venue is left exactly once, at its place's venue and on its place's event |
| ResplitPass.SecondResplitIsIdle | pipeline/maintenance/resplit.py:97-122 | a pass that finds nothing changes no table |
| ResplitLaws.PlanPicksTheBusiest | pipeline/maintenance/resplit.py:123-126 | each place goes to its venue with most rows of the event, the event keeps the place with most rows, lowest ids on ties: told on the rows |
| ResplitLaws.HallsEndApart | pipeline/maintenance/resplit.py:77-86 | two rows of one event at opposite halls end on different events |
| ResplitLaws.NearRowsEndTogether | pipeline/maintenance/resplit.py:70-90 | two rows of one event at venues near each other or matching by name end on one event at one venue, unless their places hold opposite halls |
| ResplitLaws.SourceGoesWithItsRow | pipeline/maintenance/resplit.py:170-178 | a source of a split event ends on the event on which a row ends that bore its URL |
| ResplitLaws.OtherSourcesStay | pipeline/maintenance/resplit.py:170-178 | a source whose URL no placed row of its event bore, or whose event was at one venue, stays |
| Crawler.Crawl.TakeStep | apps/adstat/telethon_src.py:418-422 | taking, or polling in vain and leaving after three polls, is the take step |
| Crawler.Crawl.PushStep | apps/adstat/telethon_src.py:424-435 | pushing counts the channel, keeps a good row, enqueues new named ids and cuts off a full batch |
| Crawler.Crawl.FinishStep | apps/adstat/telethon_src.py:463-468 | the last batch is flushed and the returned count is the credited or the processed one |
| Crawler.StepKeepsInv | apps/adstat/telethon_src.py:396-461 | every step of every interleaving keeps the accounts, the limit and the sink balance |
| Crawler.BatchIsTwenty | apps/adstat/telethon_src.py:424-439 | the sink gets rows by twenty, but for the last batch |
| Crawler.LeavesIff | apps/adstat/telethon_src.py:441-458 | a worker leaves by its third poll in vain or a FloodWait, and not otherwise |
| Crawler.NothingTwice | apps/adstat/telethon_src.py:403-407 | a found id is in exactly one of queue, flight, pushed and dropped; no id is handed out twice |
| Crawler.StepLowersMeasure | apps/adstat/telethon_src.py:441-461 | every step lowers the lexicographic measure of live workers, take budget, phases and idle polls |
| Crawler.CrawlEnds | apps/adstat/telethon_src.py:384-468 | every crawl ends within a bound fixed by the limit and the pool, whatever the graph |
| Crawler.StuckMeansAllGone | apps/adstat/telethon_src.py:441-461 | a crawl can go on until the last worker has left, and no longer |
| Crawler.CrawlIsAccountedFor | apps/adstat/telethon_src.py:384-468 | at the end found is queued, pushed and dropped, the limit is overrun by less than the pool, every good row reached the sink once and was counted, and without FloodWait the queue is empty or the limit reached |
| Crawler.StrandedOnlyByALastFlood | apps/adstat/telethon_src.py:441-461 | work is left behind only when the very last step was a FloodWait |
| CrawlOrder.FirstInFirstOut | apps/adstat/telethon_src.py:403-422 | over any part of a run, what was queued and then what was found is, in this order, what was taken and then what is still queued |
| CrawlOrder.NobodyIsOvertaken | apps/adstat/telethon_src.py:418-422 | of two queued channels the one behind is not taken while the one before it waits |
| CrawlReach.CrawlFollows | apps/adstat/telethon_src.py:403-435 | on a fixed graph nothing is found that cannot be reached from the seeds, and all named recommendations of a pushed channel are found |
| CrawlReach.CrawlFindsAllIff | apps/adstat/telethon_src.py:384-468 | a finished crawl on a fixed graph has pushed exactly the least set holding the named seeds and closed under named recommendations if and only if nothing is queued and nothing dropped |
| Crawler.FloodCanStrandTheQueue | apps/adstat/telethon_src.py:454-458 | with a FloodWait the queue can be left full below the limit |
| LlmSlots.SlotSet.Eval | core/services/llm_limiter.py:47-55 | the atomic script reclaims stale leases and claims a slot if and only if there is room |
| LlmSlots.StepKeepsInv | core/services/llm_limiter.py:68-104 | acquire, refusal, lost reply, local fallback, release, crash and clock advance keep the bounds and every running lease |
| LlmSlots.HoldersFitBudget | core/services/llm_limiter.py:47-55 | in every reachable state the holders with a running lease fit the larger limit, as does the whole set |
| LlmSlots.InFlightFitsBudgets | core/services/llm_limiter.py:58-104 | when calls finish within their lease, everything in flight fits that limit plus the local semaphores |
| LlmSlots.SlotLeavesIff | core/services/llm_limiter.py:47-104 | a slot leaves the set if and only if its own holder releases it or a script runs at or past the end of its lease |
| LlmSlots.SlotsAreNeverRenewed | core/services/llm_limiter.py:47-104 | over any run a slot keeps its stamp until it is gone for good |
| LlmSlots.OrphansVanish | core/services/llm_limiter.py:47-49 | over any run, however a slot was left, it is gone after the first poll at or past the end of its lease |
| LlmSlots.BudgetNeverLeaks | core/services/llm_limiter.py:40-55 | whatever was lost or crashed and whatever others do meanwhile, one lease later a poll is refused only by as many slots claimed since as its limit |
| LlmSlots.CallEndsIff | core/services/llm_limiter.py:68-104 | a call is over if and only if it finishes, is abandoned while it waits, or its process crashes |
| LlmSlots.PhaseMovesIff | core/services/llm_limiter.py:68-104 | a polling call falls back if and only if its reply is lost or it gives up, gets its slot by its own poll alone, and keeps its process and limit |
| LlmSlots.BeginsUnderTheHour | core/services/llm_limiter.py:31-37 | a call takes the limit of the hour it begins in, by night from 22 to 6 |
| LlmSlots.LostReplyOrphans | core/services/llm_limiter.py:81-87 | a script that ran for a lost reply claims a slot if and only if there is room, and its call waits for the local semaphore |
| LlmSlots.CrashLeavesSlots | core/services/llm_limiter.py:9-13 | a crash takes the calls and the semaphore of its process and leaves every slot |
| LlmSlots.ClaimsAboveLimitIff | core/services/llm_limiter.py:31-37 | a poll claims a slot above the limit of the hour if and only if that many slots live and the limit its call began with is higher |
| LlmSlots.LimitOutlivesTheNight | core/services/llm_limiter.py:68-70 | a run in which a call begun at night claims the second slot when the budget is one |
| LlmSlots.EntersAboveLimitIff | core/services/llm_limiter.py:59-64 | a call passes the local semaphore above the limit of the hour if and only if its process built it under a higher limit and that many calls are in it |
| LlmSlots.LocalLimitOutlivesTheNight | core/services/llm_limiter.py:59-75 | a run in which a process that built its semaphore at night lets two calls in when the budget is one |
| LlmSlots.OverrunExceedsBudget | core/services/llm_limiter.py:41 | a call that outlives its lease exceeds the budget: the lease condition is needed |
| BraceScanner.MatchBraces | connectors/web/afisha_ru_connector.py:119-140 | the loop computes the first position where the string-aware depth returns to zero, or -1 |
| BraceScanner.ScanEndsAtTheObject | connectors/web/afisha_ru_connector.py:119-140 | from the opening brace of any RFC 8259 object, before any suffix, the scan stops at that object's last brace and nowhere before |
| BraceScanner.RunString | connectors/web/afisha_ru_connector.py:125-131 | any JSON string, with braces, escaped quotes and backslashes, leaves the depth unchanged |
| BraceScanner.TruncatedObjectIsRefused | connectors/web/afisha_ru_connector.py:141-142 | no proper prefix of an object is taken for a whole one |
| BraceScanner.ExtractsTheWholeObject | connectors/web/afisha_ru_connector.py:112-144 | the span handed to the JSON parser is exactly the object after the marker |
| ResolveDates.VenueTable.GetOrCreate | pipeline/maintenance/resolve_afisha_dates.py:33-56 | the venue is the best row of that folded name, geocoded first; a new row is added only when none has the name |
| ResolveDates.ResolveEvent | pipeline/maintenance/resolve_afisha_dates.py:119-149 | an event that shows its schedule with nothing to recover is skipped; any other gets exactly its schedule's rows, blank places at the fallback venue; either way no span of over two days is left |
| ResolveDates.BestMeans | pipeline/maintenance/resolve_afisha_dates.py:43-47 | the row found for a name bears it, has coordinates if any row of the name does, and then the lowest id |
| ResolveDates.SkipsIff | pipeline/maintenance/resolve_afisha_dates.py:119-128 | an event is skipped if and only if no row runs over two days, its starts are the schedule's, and no row is at a placeholder or the schedule names no place |
| ResolveDates.ResolvedMeans | pipeline/maintenance/resolve_afisha_dates.py:119-149 | told on the rows: afterwards the event shows its schedule without spans; one that did and had nothing to recover is as it was, any other has its sessions in order, without end, at their places or one fallback |
| ResolveDates.FallbackIsMostCommon | pipeline/maintenance/resolve_afisha_dates.py:129-133 | the fallback is the venue of some row, real if any is, and no real venue has more rows |
| ResolveDates.Resolve | pipeline/maintenance/resolve_afisha_dates.py:99-149 | over a whole run every event is skipped or rebuilt, and a place resolves to one venue throughout |
| ResolveRuns.TwoRunsSettle | pipeline/maintenance/resolve_afisha_dates.py:99-149 | with a fixed schedule in which no place bears the placeholder's name at most two rebuilds happen, from any rows and any venue table, each run with its own cache and placeholder lookup; then the starts are the schedule's, no span is left, and no row is at the placeholder if the schedule names a place |
| ResolveRuns.RunsAgreeOnPlaces | pipeline/maintenance/resolve_afisha_dates.py:33-56 | a place resolves to the same venue in every run |
| ResolveRuns.SettlesIffNamesAreReal | pipeline/maintenance/resolve_afisha_dates.py:123-132 | rebuilding settles from every table and all rows if and only if no place of the schedule bears the placeholder's name, up to case and ё |
| ResolveRuns.PlaceholderPlaceNeverSettles | pipeline/maintenance/resolve_afisha_dates.py:123-132 | a place that resolves to the placeholder makes every run rebuild |
| ResolveRuns.InsertsKeepKeyIff | pipeline/maintenance/resolve_afisha_dates.py:136-148 | deleting an event's rows and inserting new ones keeps the unique occurrence index if and only if no two new rows have the same start and venue |
| ResolveRuns.RebuiltKeepsKey | pipeline/maintenance/resolve_afisha_dates.py:136-148 | for a schedule with distinct starts the index holds after every single insert |
| Paging.Fetch | connectors/telegram/web_preview_connector.py:187-268 | the paging loop returns exactly the specified records, cursor or error for any server answers |
| Paging.ParsePage | connectors/telegram/web_preview_connector.py:74-124 | the records of a page are its new, textual posts not known to lie before the window, one per number |
| PagingRuns.BeforeFalls | connectors/telegram/web_preview_connector.py:206-243 | the before parameter strictly decreases from request to request |
| PagingRuns.FetchIsBounded | connectors/telegram/web_preview_connector.py:187-268 | records lie above the old cursor and not above the new one, newest first; the cursor never falls |
| PagingRuns.EmittedIffReached | connectors/telegram/web_preview_connector.py:206-243 | on contiguous pages a wanted post is emitted if and only if the pages reached down to it |
| PagingRuns.IncrementalReachIsOnePage | connectors/telegram/web_preview_connector.py:190-195 | once a cursor exists the reach is the floor of the newest page |
| PagingRuns.NoPostTwice | connectors/telegram/web_preview_connector.py:187-268 | over any run of fetches, failed ones included, no post is emitted twice |
| PagingRuns.OneChance | connectors/telegram/web_preview_connector.py:187-268 | the first successful fetch that wants a post is the only one that can emit it |
| PagingRuns.BudgetGoesFirst | connectors/telegram/web_preview_connector.py:251-265 | full texts are looked up for the first clipped posts in the order given, up to the budget |
| PagingTexts.RecordsCarryTheirTexts | connectors/telegram/web_preview_connector.py:74-266 | each record is a post the server showed, newest first, with the first 12000 characters of its text, or of its full text if the post is clipped, among the first 40 clipped, and the full text longer |
| PagingTexts.LastMessageIsKept | connectors/telegram/web_preview_connector.py:235-237 | of several messages under one number the last one shown on a page is kept |
| PagingTexts.PostIsEmittedIff | connectors/telegram/web_preview_connector.py:187-243 | a newer post with text inside the window of 14 days, 7 with a cursor, is emitted if and only if the pages reached down to it |
| PagingTexts.GoesOnIff | connectors/telegram/web_preview_connector.py:206-243 | the fetch asks for the page before the lowest number shown if and only if that is progress, no zoned time lies before the window and zones are not mixed; a first page without messages means the preview is off |
| PagingTexts.FirstReplyDecides | connectors/telegram/web_preview_connector.py:211-225 | a redirect, a failure, mixed zones or an empty page as first reply end in the matching exception |
| PagingTexts.CursorPassesFirstPage | connectors/telegram/web_preview_connector.py:227-234 | the new cursor is no lower than any number shown first, kept or not |
| Prices.Numbers | pipeline/normalizer/extractors.py:18-27 | the loop reads exactly the maximal digit-and-blank runs |
| Prices.YandexPrice | connectors/web/yandex_afisha_connector.py:443-465 | the loop prints the lowest minimum and the highest maximum of the tickets |
| PriceRoundTrips.ParsedRangeIsOrdered | pipeline/normalizer/extractors.py:30-62 | on any text the parsed bounds are not negative and in order |
| PriceDiscounts.DiscountReadsAsNothing | pipeline/normalizer/extractors.py:44-46 | digits, blanks and a per cent sign anywhere in a text leave its price what it is without them |
| PriceDiscounts.DiscountPhraseAddsNothing | pipeline/normalizer/extractors.py:44-50 | a closing "скидка до d%" changes the price of no text |
| PriceDiscounts.OnlyADiscount | pipeline/normalizer/extractors.py:44-49 | a text whose only number is a discount states no amount |
| PriceDiscounts.FiveHundredIsNoBound | pipeline/normalizer/extractors.py:44-52 | "500 рублей до 20%" states 500 roubles |
| PriceDiscounts.HasBoundIff | pipeline/normalizer/extractors.py:50-52 | a word bounds the price if and only if it stands on its own with a number behind it |
| PriceDiscounts.NumberlessText | pipeline/normalizer/extractors.py:15-49 | a text without numbers is free if and only if it says so in one of three ways, and else states nothing |
| PriceRoundTrips.GroupedNumberIsReadIff | pipeline/normalizer/extractors.py:12-27 | a number with blanks is read if and only if each blank is the plain space |
| PriceRoundTrips.TimepadReadsBack | connectors/web/timepad_connector.py:87-106 | for every registration the printed text parses to the whole roubles of its positive prices, case by case |
| PriceRoundTrips.TimepadRoundTripsIff | connectors/web/timepad_connector.py:87-106 | for every registration the exact round trip holds if and only if its prices are whole and, if both are given, in order |
| PriceRoundTrips.TimepadSaysFreeIff | connectors/web/timepad_connector.py:89-92 | a registration reads back as free if and only if its last stated price is below one rouble |
| PriceRoundTrips.YandexRoundTripsIff | connectors/web/yandex_afisha_connector.py:456-465 | the two prices come back in order if and only if neither is negative |
| PriceRoundTrips.YandexFreeIff | connectors/web/yandex_afisha_connector.py:460-465 | the parser says free exactly when the flag does, or for a lone highest price of nothing |
| PriceRoundTrips.ParsedRangeHugsTheTickets | connectors/web/yandex_afisha_connector.py:443-465 | whichever prices the tickets give, none of them negative at the ends, the stored range is the tightest around them, and nothing when none is given |
| PriceDiscounts.RoublesAreNearest | connectors/web/yandex_afisha_connector.py:443-456 | roubles are the nearest to the kopecks, the even ones on a tie |
| PriceRoundTrips.AfishaReadsBack | connectors/web/afisha_ru_connector.py:412-421 | the printed lowest price parses to that bound or to free, in agreement with the flag |
| EffectiveConfig.Cache.Lookup | core/config/effective.py:67-70 | an unexpired entry answers, and only that |
| EffectiveConfig.Cache.Keep | core/config/effective.py:72-76 | storing is the completing step of any read with this key, default and value: a full cache is emptied first, the entry expires one TTL later |
| EffectiveConfig.AnswersComeFromOneVersion | core/config/effective.py:65-76 | in every interleaving an answer is the default or the checked value of one version of the table, stored less than a TTL ago; the cache stays within 256 keys |
| EffectiveConfig.FetchedRowIsReturned | core/config/effective.py:65-76 | a read that reached the table while the row held a value of the default's type returns that value whenever it completes; a value of another type gives the default |
| EffectiveConfig.FailedReadGivesDefault | core/config/effective.py:52-76 | a read that failed or found no row returns the default, and the cache holds that answer for a TTL |
| EffectiveConfig.BadOverridesAreDropped | core/config/effective.py:34-49 | the JSON string "false" is no flag, a flag or a float no int, an int passes for a float |
| EffectiveConfig.StoredRowIsReturned | core/config/effective.py:67-70 | and every hit of the entry it left returns it |
| EffectiveConfig.SettledWritesAreSeen | core/config/effective.py:25 | a write older than the TTL plus the longest read is seen by every call that does not return its default |
| EffectiveConfig.FreshAfterBustIff | core/config/effective.py:79-82 | after a bust a version that misses a write of the key can come back if and only if a read of the key that missed one is in flight |
| EffectiveConfig.BustedAnswersHaveTheWrite | core/config/effective.py:79-82 | without such a read every later answer is the default or the checked value of a version that has the write |
| Codes.SymbolsSpellTheAlphabet | core/domain/codes.py:16 | the code points the model computes are the Crockford alphabet |
| Codes.EncodeNo | core/domain/codes.py:36-45 | the loop computes the padded Crockford digits |
| Codes.EncodedReadsBack | core/domain/codes.py:36-56 | decoding an encoded number gives it back, and zero for a negative one |
| Codes.TypedNumberResolvesIff | core/domain/codes.py:48-56 | blanks at the ends apart, a text resolves to the number if and only if it types it: either case, look-alike letters, separators, extra or missing leading zeros, and nothing else |
| Codes.CodeRoundTripsIff | core/domain/codes.py:59-72 | a whole code resolves to its city prefix, and to its number if and only if that is not negative |
| Codes.LookAlikes | core/domain/codes.py:16-18 | O and U read as 0, I and L as 1, small letters as capitals |
| Codes.TypedByHand | core/domain/codes.py:48-56 | dashes, dots and blanks inside a number do not count |
| Codes.DashDivides | core/domain/codes.py:66-72 | what stands before the first dash is the city, what follows it the number |
| Codes.DocumentedSpelling | core/domain/codes.py:66-72 | "msk·04pn" is number 4821 in MSK |

## Left out

- The counts the passes return for logging, and the previews printed before a commit.
- The Unicode tables: lower case is that of Latin and Russian, digits are ASCII, blanks are ASCII and the no-break space.
- The similarity ratios and the distances between venues, and with them the geometry of the venue table: inputs.
- Other writers during a pass: each pass runs alone on the tables, as one transaction would see them.
- HealingFlow.EveryFlowSettles: the catalogue changes by the flow alone; no new events or venues arrive between runs, no pass moves a venue or renames one, and the near-duplicate query of the health check is not part of it.
- ResolveRuns.TwoRunsSettle: between two runs the venue table only gains names it lacked, because other passes that rename or merge venues can change what a place resolves to.
- The columns no rule reads: prices, currencies and addresses of the rows that are moved or rebuilt, and the columns a copied event carries beside its title and status.
- Favourites and venue follows, which cascade with deleted events and venues and are not repointed.
- Exceptions of the sink, and exceptions of a crawl worker other than FloodWait.
- The reply of the single-post page scan of the preview connector: a function from post to optional full text.
- JSON number and literal grammar in the scanner proof: any text of scalar characters stands for a number or literal, which is more than the grammar allows.
- Floating-point rounding of prices and kopecks: amounts are reals, rounded half to even as the source rounds.
- The city registry behind event codes: the prefix is a parameter.
- ResolveDates.FindFallback: does not fix which of several equally common venues is taken, because the rows come in no order.
- PlaceClusters.ClusterBy: does not fix the order in which the pairs are asked, because the venues come in the order of an unordered query.
- The LLM review of merge candidates, scoring, lifecycle and pruning passes, the web and bot front ends.
