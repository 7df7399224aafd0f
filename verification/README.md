# bTB individual-based simulator: a Dafny model of its core

This project models the core of `bTB_indiv`, a stochastic simulator of bovine tuberculosis
spreading between cattle herds (farms) and badger setts (reservoirs). It models the integer
bookkeeping that the simulator performs on one scenario's population state, and proves
properties of it.

Every random draw is an explicit argument: a Poisson count, a pick index, a hypergeometric
count, a test outcome or a death draw. The model covers:

- **Units, animals and records** (`units.dfy`, `animals.dfy`, `tree.dfy`, `records.dfy`):
  - farms and setts with their constructor defaults and `changeSize`;
  - infected cows and badgers with their id-based identity and their CSV records;
  - the transmission tree, with its nodes and the node record;
  - the cattle-test, badger-test and movement rows with their comparators.
- **Mutation ids** (`snp.dfy`): the process-wide SNP counter behind `generateSnp`. It covers:
  - the seed mode;
  - the fatal negative interval;
  - the ordering guard on the step-size-dependent setters.
- **Population state** (`scenario.dfy`): one immutable value holding:
  - the units and the per-unit infected lists, which hold ids;
  - the live, culled and expired maps;
  - the id counters, the SNP counter, the transmission tree, the tallies and the record lists.

  It also holds the start-of-scenario steps: seeding the tree, the initial restrictions and the last-test dates.
- **Event application** (`amount_manager.dfy`): `performEvent` for all four species
  combinations. It covers:
  - the capacity guards;
  - the cross-species candidate loop;
  - the retry over `times`.
- **Kernel** (`kernel.dfy`): `updateKernel` and the controller's `goOn`.
- **Observer step** (`restrictions.dfy`, `culling.dfy`, `movements.dfy`, `badger_movements.dfy`,
  `mortality.dfy`, `sampling.dfy`):
  - the restriction state machine and the scheduling windows of `registerThetaEvents`;
  - `theta` and the whole-herd test;
  - `testAndRemoveIfInfected` and `testBadger`;
  - the cattle and badger movement loops;
  - slaughterhouse moves and badger deaths.
- **Tree post-processing and scoring** (`phylogeny.dfy`, `results.dfy`):
  - the year-based inclusion rule and pruning with rewiring;
  - the pairwise SNP-distance histogram;
  - the structural part of `getScore`;
  - `getExpectedValue`, the counters of `join` and the merged trees.
- **Input interpretation** (`input.dfy`): the parsers of `WPBtbClusterModel`, taken over
  already-read lines, and the acceptor's branches.

Java's exceptions and the `BroadwickException` throws become `Err` results. The string and
integer operations the code depends on are written out in `common.dfy`:

- `String.split`, which drops trailing empty fields;
- `String.trim`;
- `Integer.parseInt` and `Integer.toString`;
- zero padding;
- `String.compareTo` and `String.hashCode`;
- 32-bit wrap-around;
- truncating division.

HashMap iteration orders are parameters. A walk over a map accepts any order drawn from the
keys it walks; `Phylogeny.Prune` accepts any duplicate-free order of the tree's vertices. So
every order a HashMap can produce is covered. A statement about a whole key set requires its
order to enumerate that set, each key once; `Mortality.MovesForPeriodScheduled` and
`Phylogeny.PruneEvery` are the whole-set forms of the slaughter-schedule and pruning walks.

Two invariants appear throughout the observer proofs:

- `Culling.Sound` says that every lookup the code makes without a null check succeeds,
  except a reservoir's connected-farm ids (see below). It also
  says that each unit's infected list names exactly the live animals located there, once each,
  and that culled or expired animals are no longer live.
- `Culling.Conserves` says that an observer action only moves animals out of the live maps
  into the culled or expired maps. Such an action issues no id and adds no vertex or edge.

## Quirks of the source kept in the model

- A clear follow-up test that lifts a restriction still leaves the herd's dates as
  (unset, now), with the positive date moved to now (`src/MyMonteCarloScenarioObserver.java:131-132`).
  So the lifted herd is followed up again 60 days later and never returns to routine testing.
- The slaughter window is closed, [t, t+step]. The herd-test window is half-open, [t, t+step).
- The cross-species candidate loop in `performEvent` never evaluates the last connected unit.
  With a single connected unit, the event is always dropped. An empty connected collection is
  an error.
- The pairwise-distance histogram counts every unordered pair twice, once per ordered pair.
- Badger movement and death tests pass `capture = false`, so they never test positive and never
  sample the badger.
- Cattle moves are skipped by looking up the restriction map, not the herd-test dates.
- The sizes are adjusted after a movement only when at least one infected animal moved.
- `readReservoirDefinitions` looks up farms by their trimmed ids. It stores the ids untrimmed in
  the reservoir's connected-farm list. Those stored ids are looked up only on the reservoir
  paths (the badger side of `updateKernel` and the badger-to-cow search). So `Culling.Sound`
  does not require them to be farms. `Scenario.Covers` requires it only when the reservoir is
  included (`Scenario.Connected`).
- The acceptor never accepts after a NaN previous score. This is because every comparison
  against NaN is false.
- Tree nodes snapshot the animal's SNP set when they are created, so later mutations never
  reach the tree.

## Model

| member | source | states |
|---|---|---|
| Common.RemoveFirst | src/MyMonteCarloScenarioObserver.java:300 | removing an animal from a unit's list drops exactly one occurrence when it is listed and changes nothing otherwise |
| Common.RemoveFirstAt | src/MyMonteCarloScenarioObserver.java:300 | the occurrence removed from a unit's list is the first one; what comes before and after it stays, in order |
| Common.Wrap32 | src/InfectedCow.java:44-46 | a Java int result lies in the 32-bit range and differs from the exact value by a multiple of 2^32 |
| Common.JavaDiv | src/MyMonteCarloScenarioObserver.java:36-39 | integer division truncates toward zero: the remainder is smaller than the divisor and carries the dividend's sign |
| Common.IntToStringRoundTrip | src/WPBtbClusterModel.java:406 | printing an int and parsing the text back gives the same int |
| Common.ZeroPadValue | src/MyAmountManager.java:71 | zero padding keeps the digits' value |
| Common.SplitJoin | src/InfectedCow.java:91 | splitting a joined row at its separator gives back the fields when none contains the separator |
| Common.JoinSplit | src/WPBtbClusterModel.java:355 | joining the fields of a split string at the separator restores the string |
| Common.JavaSplit | src/WPBtbClusterModel.java:231 | a string without the separator splits to itself; otherwise the pieces are the fields between separators up to the last non-empty one, and every field dropped after it is empty |
| Common.Trim | src/WPBtbClusterModel.java:232 | trimming leaves no blank at either end and keeps the text between |
| Common.TrimIdempotent | src/WPBtbClusterModel.java:232 | a trimmed id is its own trimmed form |
| Common.JavaCompareAntisymmetric | src/CattleTest.java:71 | comparing two ids one way gives the negation of comparing them the other way |
| Common.JavaCompareZero | src/CattleTest.java:71 | two ids compare as zero exactly when they are equal |
| Common.JavaHash | src/InfectedCow.java:44-46 | an id's hash is a 32-bit int |
| Units.Increment | src/MyMonteCarloScenarioObserver.java:110 | one more observation of the bin; every other bin keeps its frequency |
| Units.KeepAtMostFreq | src/MyMonteCarloScenario.java:328-336 | the filtered distribution keeps exactly the frequencies of bins up to the unit size and drops every larger bin |
| Units.NewFarm | src/Farm.java:17-30 | a new farm has herd size -1, both test dates unset and an empty off-movement distribution |
| Units.NewReservoir | src/Reservoir.java:16-25 | a new sett has size -1, no connected farms and an empty off-movement distribution |
| Units.ChangeFarmSize | src/Farm.java:38-40 | the herd size moves by exactly the change and nothing else about the farm changes |
| Units.ChangeReservoirSize | src/Reservoir.java:54-56 | the sett size moves by exactly the change and nothing else about the sett changes |
| Units.FarmSizeInverse | src/Farm.java:38-40 | growing and shrinking a farm by the same amount gives the same farm back |
| Units.ReservoirSizeInverse | src/Reservoir.java:54-56 | growing and shrinking a sett by the same amount gives the same sett back |
| Units.ReservoirToString | src/Reservoir.java:58-61 | a sett prints as its id |
| Units.InitialiseFarmSize | src/MyMonteCarloScenario.java:319-337 | the farm gets the drawn size; with a fixed herd size its off-movement bins larger than that size are dropped, otherwise they are kept |
| Units.InitialiseReservoirSize | src/MyMonteCarloScenario.java:350-368 | the sett gets the drawn size; with a fixed sett size its off-movement bins larger than that size are dropped, otherwise they are kept |
| Animals.NewCow | src/InfectedCow.java:32-41 | a new cow keeps the given id, farm, SNPs and status, counts mutations from the given day, is unsampled (-1) and has visited only its farm |
| Animals.NewBadger | src/InfectedBadger.java:25-35 | a new badger keeps the given id, sett and SNPs, counts mutations from the given day, is unsampled (-1) and has visited only its sett |
| Animals.CowIdentity | src/InfectedCow.java:43-58 | cow equality is an equivalence decided by the id alone, and equal cows hash alike |
| Animals.BadgerIdentity | src/InfectedBadger.java:37-52 | badger equality is an equivalence decided by the id alone, and equal badgers hash alike |
| Animals.IdsDecode | src/MyAmountManager.java:71 | the counter value can be read back from the digits of a generated cow or badger id |
| Animals.IdsInjective | src/MyAmountManager.java:228 | two generated ids are equal exactly when their counter values are, and a cow id never equals a badger id |
| Animals.CowToString | src/InfectedCow.java:65-75 | the text is COW exactly for the anonymous cow; any other cow's text starts with its id followed by '[' |
| Animals.BadgerToString | src/InfectedBadger.java:71-78 | the text is BADGER exactly for the anonymous badger; any other badger's text starts with its id followed by '[' |
| Animals.CowToStringFields | src/InfectedCow.java:65-75 | for ids without brackets, the printed cow reads back: the id before '[', the farm between '[' and ']', then ':' and the name of the cow's compartment and of no other |
| Animals.BadgerToStringFields | src/InfectedBadger.java:71-78 | for ids without brackets, the printed badger reads back: the id before '[', the sett between '[' and ']', then ':INFECTIOUS' |
| Animals.AnimalRecordFields | src/InfectedCow.java:88-102 | a record splits back at the commas into the header's six columns: id, units, status, sample date and last SNP date parse back |
| Animals.SnpColumnFields | src/InfectedCow.java:95 | the SNP column splits back at ';' into one field per SNP, each parsing to that SNP |
| Animals.CowRecordFields | src/InfectedCow.java:88-98 | the cow row has six columns and its status column is the compartment's enum name |
| Animals.BadgerRecordFields | src/InfectedBadger.java:81-90 | the badger row has six columns and always reports INFECTIOUS |
| Transmission.NewNode | src/InfectionNode.java:23-31 | a new node holds exactly the given id, location, SNP snapshot, dates and species flag |
| Transmission.CopyNode | src/InfectionNode.java:33-35 | the copy constructor reproduces every field, so the copy equals the original |
| Transmission.NodeIdentity | src/InfectionNode.java:43-58 | node equality is decided by the id alone, consistent with the hash, so setting a detection date keeps the node equal to itself |
| Transmission.DateTextRoundTrip | src/InfectionNode.java:76-77 | a date column reads back as the date written, and "null" exactly when there is no date |
| Transmission.NodeRecordFields | src/InfectionNode.java:71-85 | a node record has the header's five columns: the id, the species flag as true/false and both dates read back |
| Transmission.AddVertex | src/MyAmountManager.java:86 | adding a vertex adds its id and leaves an already present vertex and every edge as they were |
| Transmission.AddChild | src/MyAmountManager.java:86-87 | a new infection adds the child vertex and exactly one edge from its source, keeping the tree well formed |
| Transmission.SetDetectionDate | src/MyMonteCarloScenarioObserver.java:589 | only the sampled animal's vertex changes, and only its detection date |
| Transmission.RemoveNode | src/MyMonteCarloScenario.java:123-133 | pruning a vertex removes it and its edges and links each of its parents to each of its children |
| Transmission.RemoveNodeWellFormed | src/MyMonteCarloScenario.java:123-133 | pruning keeps every edge between stored vertices |
| Transmission.PathSurvivesRemoval | src/MyMonteCarloScenario.java:126-133 | a path between two surviving vertices has a counterpart with the same ends after the pruning |
| Transmission.PathComesFromTree | src/MyMonteCarloScenario.java:126-133 | every path after the pruning comes from a path of the full tree with the same ends |
| Transmission.RemoveNodePreservesReach | src/MyMonteCarloScenario.java:123-133 | pruning a vertex changes no ancestry between the other vertices, in either direction |
| Settings.Range | src/ProjectSettings.java:60-62 | the ids issued after a counter are exactly the integers above it up to the new counter, as many as were issued |
| Settings.SnpCount | src/ProjectSettings.java:44-58 | seeding mode (negative rate) gives max(day, 1) SNPs; otherwise a day before the last generation fails, the same day gives none and a later day gives the Poisson draw |
| Settings.NextSnps | src/ProjectSettings.java:38-64 | a call fails exactly when the count fails; otherwise it issues the next count values of the counter and advances the counter by that count |
| Settings.GenerateSnp | src/ProjectSettings.java:60-62 | the pre-increment loop hands out exactly the batch the reference definition describes |
| Settings.SuccessiveBatchesDisjoint | src/ProjectSettings.java:61 | successive calls never issue the same SNP, and every later SNP is larger than every earlier one |
| Settings.SetStepSize | src/ProjectSettings.java:132-136 | the step size is recorded and marked as set, and the scaled rates are untouched |
| Settings.SetSigma | src/ProjectSettings.java:203-209 | refused exactly when the step size has not been set; otherwise sigma is the per-day rate times the step |
| Settings.SetBadgerDeathRate | src/ProjectSettings.java:195-201 | refused exactly when the step size has not been set; otherwise the rate is the yearly rate times the step over 365 |
| Settings.SetterOrdering | src/ProjectSettings.java:132-209 | both scaled setters fail on fresh settings and succeed, with the scaled values, once the step size is set |
| Records.CattleTestRowFields | src/CattleTest.java:33-47 | a test row splits back into the header's six columns, the result column reading TRUE exactly for a positive test |
| Records.CattleTestOrdering | src/CattleTest.java:49-86 | negatives sort before positives, then by animal id, then by date; the order is antisymmetric and ties exactly on equal result, id and date |
| Records.NewRecordBadger | src/RecordBadger.java:27-37 | every argument is kept verbatim |
| Records.RecordBadgerRowFields | src/RecordBadger.java:39-59 | a badger row splits back into eight columns, capture and result reading TRUE exactly when they hold |
| Records.BadgerRecordOrdering | src/RecordBadger.java:62-98 | the same order as cattle tests: negatives first, then id, then date, antisymmetric, ties exactly on equal keys |
| Records.CountFieldRoundTrip | src/RecordMovement.java:15-19 | a count column is empty exactly for a negative value and otherwise parses back to the value |
| Records.NewRecordMovement | src/RecordMovement.java:8-46 | unit ids and species are kept; the random-number column is empty exactly for a negative draw |
| Records.NewRecordMovementFields | src/RecordMovement.java:15-39 | each integer column is empty exactly when its argument is negative and otherwise reads back as that argument |
| Records.RecordMovementRowFields | src/RecordMovement.java:48-65 | a movement row splits back into its ten fields in header order |
| Scenario.FarmsWithRoom | src/MyAmountManager.java:57-61 | a farm has room exactly when it holds fewer infected cattle than its herd size |
| Scenario.ReservoirsWithRoom | src/MyAmountManager.java:113 | a sett has room exactly when it holds fewer infected badgers than its size |
| Scenario.UpdateCowSnps | src/MyAmountManager.java:272-282 | fails exactly when the SNP draw fails; otherwise only the cow's SNPs grow by the new batch, its last generation becomes the date and the counter advances |
| Scenario.UpdateBadgerSnps | src/MyAmountManager.java:260-270 | the badger counterpart: only the badger's SNPs, last generation date and the counter change |
| Scenario.UpdateSnpsLocated | src/MyAmountManager.java:64 | updating SNPs keeps every unit and animal lookup valid |
| Scenario.AddCow | src/MyAmountManager.java:69-87 | the cow counter advances to an id never issued before; the new cow is stored, listed on its farm and hung under its infector in the tree, and nothing else changes |
| Scenario.AddBadger | src/MyAmountManager.java:119-136 | the badger counter advances to an id never issued before; the new badger is stored, listed in its sett and hung under its infector, and nothing else changes |
| Scenario.AddCowLocated | src/MyAmountManager.java:76-77 | a new cow in a known farm keeps every lookup valid |
| Scenario.AddBadgerLocated | src/MyAmountManager.java:126-127 | a new badger in a known sett keeps every lookup valid |
| Scenario.AddCowFresh | src/MyMonteCarloScenario.java:722-724 | the next cow id is used by no animal and no vertex, and the counters stay ahead of every id in use |
| Scenario.AddBadgerFresh | src/MyMonteCarloScenario.java:726-728 | the next badger id is used by no animal and no vertex, and the counters stay ahead of every id in use |
| Scenario.RestrictAll | src/MyMonteCarloScenario.java:504-518 | restricting the drawn herds keeps the set of farms |
| Scenario.RestrictAllUntouched | src/MyMonteCarloScenario.java:504-518 | a herd that is not drawn keeps its farm record and its restriction entry or its absence |
| Scenario.RestrictAllAsDrawn | src/MyMonteCarloScenario.java:505-514 | every drawn herd ends up restricted with its drawn clear-test count, and its test dates are set as drawn (last clear or last positive, the other unset) |
| Scenario.InitialiseMovementRestrictions | src/MyMonteCarloScenario.java:502-520 | only the farms and the restriction map change |
| Scenario.SetFarmLastTestDate | src/MyMonteCarloScenario.java:817-826 | every unrestricted herd's last clear test moves back from the start date by its draw; restricted herds and the rest of the state are unchanged |
| Scenario.SeedNodes | src/MyMonteCarloScenario.java:526-538 | ROOT plus one vertex per seeded animal, each stored under its own id with its unit and SNPs and no dates |
| Scenario.SeedEdges | src/MyMonteCarloScenario.java:532-537 | exactly one edge from ROOT to every seeded animal |
| Scenario.CreateTransmissionTree | src/MyMonteCarloScenario.java:525-540 | the seeded tree is well formed and holds ROOT and every seeded animal |
| Scenario.SeededAnimalsHangFromRoot | src/MyMonteCarloScenario.java:529-538 | every seeded animal is reachable from ROOT, and every edge of the seeded tree starts at ROOT |
| Kernel.CowBadgerEntries | src/MyMonteCarloScenario.java:665-682 | one cow-to-badger entry per connected sett of the cow's farm, in list order |
| Kernel.BadgerCowEntries | src/MyMonteCarloScenario.java:701-710 | one badger-to-cow entry per farm connected to the badger's sett, in list order |
| Kernel.CowEntriesSound | src/MyMonteCarloScenario.java:629-685 | every entry a live cow contributes is a justified one: its compartment's progression at sigma or gamma, or an infection of a farm or a connected sett at susceptibles times beta |
| Kernel.BadgerEntriesSound | src/MyMonteCarloScenario.java:687-711 | every entry a live badger contributes is justified: an infection of its sett or of a connected farm at susceptibles times beta |
| Kernel.AllCowEntriesMembers | src/MyMonteCarloScenario.java:629 | the kernel part built over the live cows holds exactly the entries of the cows listed |
| Kernel.AllBadgerEntriesMembers | src/MyMonteCarloScenario.java:688 | the kernel part built over the live badgers holds exactly the entries of the badgers listed |
| Kernel.KernelMembers | src/MyMonteCarloScenario.java:608-720 | after the rebuild the kernel holds an entry exactly when some live cow, or with the reservoir included some live badger, calls for it |
| Kernel.KernelSound | src/MyMonteCarloScenario.java:608-720 | every kernel entry is justified by the current population |
| Kernel.KernelCompleteForCow | src/MyMonteCarloScenario.java:636-683 | an exposed cow finds its sigma progression, a test-sensitive cow its gamma progression, an infectious cow its farm infection and one infection per connected sett |
| Kernel.KernelCompleteForBadger | src/MyMonteCarloScenario.java:687-711 | with the reservoir included, a badger finds its own-sett infection and one infection per connected farm |
| Kernel.KernelWithoutReservoir | src/MyMonteCarloScenario.java:665-711 | without the reservoir no entry involves a badger, and only live, non-susceptible cows are sources |
| Kernel.GoOn | src/MyMonteCarloScenario.java:565-596 | go on exactly while the clock is finite and not past the end date, the kernel is non-empty and neither population exceeds its maximum; an empty kernel marks the run finished early and counts a contained outbreak, and nothing else changes |
| AmountManager.PickFrom | src/MyAmountManager.java:107-114 | the do/while search only returns a connected sett with room, and gives up when only one candidate exists |
| AmountManager.PickFromFirstRoomy | src/MyAmountManager.java:107-114 | the search fails exactly when none of the draws it looks at (all but the last) has room, and otherwise returns the first draw that has room |
| AmountManager.GrowsTransitive | src/MyAmountManager.java:31 | the effect of repeated events composes: no animal or vertex disappears and the counters only move on |
| AmountManager.CapacityAddToFarm | src/MyAmountManager.java:61-76 | adding one infection to a farm with room never takes its infected count past the herd size |
| AmountManager.CapacityAddToReservoir | src/MyAmountManager.java:161-175 | adding one infection to a sett with room never takes its infected count past its size |
| AmountManager.UpdateCowSnpsGrows | src/MyAmountManager.java:272-282 | a SNP update only grows the infector's SNPs and moves the SNP counter on |
| AmountManager.UpdateBadgerSnpsGrows | src/MyAmountManager.java:260-270 | the badger counterpart of the SNP update |
| AmountManager.InfectCow | src/MyAmountManager.java:227-250 | a new cow gets the next id, its infector's SNPs and a vertex under its infector, keeping the state consistent and every id fresh |
| AmountManager.InfectBadger | src/MyAmountManager.java:170-188 | a new badger gets the next id, its infector's SNPs and a vertex under its infector, keeping the state consistent and every id fresh |
| AmountManager.CowInfectsCowOn | src/MyAmountManager.java:61-90 | fails exactly when the infector's SNP draw fails; otherwise creates at most one animal and keeps the state consistent |
| AmountManager.CowInfectsCowOnEffect | src/MyAmountManager.java:61-90 | the new cow has a fresh id, its infector's grown SNPs and the event's status, is listed on the farm, hangs under its infector in the tree and is counted as cow-to-cow |
| AmountManager.BadgerInfectsBadgerIn | src/MyAmountManager.java:161-189 | fails exactly when the infector's SNP draw fails; otherwise creates at most one animal and keeps the state consistent |
| AmountManager.BadgerInfectsBadgerInEffect | src/MyAmountManager.java:161-189 | the new badger has a fresh id and its infector's grown SNPs, is listed in the sett, hangs under its infector and is counted as badger-to-badger |
| AmountManager.CowToCow | src/MyAmountManager.java:55-91 | a full farm leaves the state unchanged; a farm with room receives the new infection |
| AmountManager.BadgerToBadger | src/MyAmountManager.java:155-189 | a full sett leaves the state unchanged; a sett with room receives the new infection |
| AmountManager.CowInfectsBadgerIn | src/MyAmountManager.java:116-138 | fails exactly when the cow's SNP draw fails; otherwise creates at most one animal and keeps the state consistent |
| AmountManager.CowInfectsBadgerInEffect | src/MyAmountManager.java:116-138 | the new badger lands in the chosen sett with a fresh id and the cow's grown SNPs, hangs under the cow and is counted as cow-to-badger |
| AmountManager.BadgerInfectsCowOn | src/MyAmountManager.java:224-250 | fails exactly when the badger's SNP draw fails; otherwise creates at most one animal and keeps the state consistent |
| AmountManager.BadgerInfectsCowOnEffect | src/MyAmountManager.java:224-250 | the new cow lands on the chosen farm with a fresh id, the badger's grown SNPs and the event's status, hangs under the badger and is counted as badger-to-cow |
| AmountManager.CowToBadger | src/MyAmountManager.java:100-138 | a farm without connected setts is an error; otherwise the search's sett, which has room, receives the infection, or nothing happens when the search gives up |
| AmountManager.BadgerToCow | src/MyAmountManager.java:197-251 | a sett without connected farms is an error; otherwise the search's farm, which has room, receives the infection, or nothing happens when the search gives up |
| AmountManager.Progress | src/MyAmountManager.java:92-95 | disease progress changes only the cow's compartment |
| AmountManager.ProgressIdempotent | src/MyAmountManager.java:94 | progressing a cow to the same compartment twice is the same as once |
| AmountManager.PerformFromCow | src/MyAmountManager.java:33-140 | one repetition of a cow-started event keeps the state consistent and creates at most one animal |
| AmountManager.PerformFromBadger | src/MyAmountManager.java:141-253 | one repetition of a badger-started event keeps the state consistent and creates at most one animal |
| AmountManager.PerformOnce | src/MyAmountManager.java:33-41 | an event whose infector is no longer alive does nothing; any repetition keeps the state consistent and creates at most one animal |
| AmountManager.PerformEvent | src/MyAmountManager.java:31-257 | repeating an event keeps the state consistent and creates no more animals than repetitions |
| AmountManager.RepeatIdle | src/MyAmountManager.java:31 | an event that does nothing once does nothing however often it is repeated |
| AmountManager.PerformMissingSource | src/MyAmountManager.java:38-41 | an event whose infector was culled or died since the kernel was built does nothing, however often it is repeated |
| AmountManager.ProgressionOnce | src/MyAmountManager.java:92-95 | one repetition of a progression event is the progression itself |
| AmountManager.PerformProgression | src/MyAmountManager.java:30-31 | a progression event moves its cow once, and further repetitions change nothing |
| AmountManager.PerformBadgerProgression | src/MyAmountManager.java:191-195 | a badger-to-badger event naming an existing badger does nothing |
| Culling.Cull | src/MyMonteCarloScenarioObserver.java:688-705 | a reactor moves from the live map to the culled map with its sample date set, leaves its herd's list once, and its vertex gets the detection date |
| Culling.TestAndRemove | src/MyMonteCarloScenarioObserver.java:667-717 | a cow reacts exactly when it is test-sensitive or infectious and the draw is within the sensitivity; the only error is the SNP draw's; exactly one record with the cow's pre-test state is written either way |
| Culling.TestAndRemoveEffect | src/MyMonteCarloScenarioObserver.java:672-711 | a reactor is sampled and culled, a non-reactor leaves the state untouched apart from its record, and every other cow is left as it was |
| Culling.TestAndRemoveSamples | src/MyMonteCarloScenarioObserver.java:683-702 | the culled cow keeps its fields except grown SNPs and last generation and sample dates set to the test date; its vertex records the detection and it leaves its herd's list |
| Culling.CullListed | src/MyMonteCarloScenarioObserver.java:701-705 | culling a cow listed on its own herd keeps the herd lists in agreement with the live map |
| Culling.CullSound | src/MyMonteCarloScenarioObserver.java:688-705 | culling keeps the bookkeeping sound and only moves an animal out of the live map |
| Culling.UpdateCowSnpsSound | src/MyMonteCarloScenarioObserver.java:683-687 | sampling a cow's SNPs keeps the bookkeeping sound and the cow on its farm |
| Culling.TestAndRemoveSound | src/MyMonteCarloScenarioObserver.java:667-717 | testing a cow on the herd it is listed on keeps the bookkeeping sound |
| Culling.TestAndRemoveConserves | src/MyMonteCarloScenarioObserver.java:667-717 | a test only moves animals out of the live map into the culled map |
| Culling.TestAndRemoveKeys | src/MyMonteCarloScenarioObserver.java:694-705 | a test only moves the tested cow, and only from the live map to the culled map |
| Culling.TestAndRemoveCounters | src/MyMonteCarloScenarioObserver.java:683-686 | the SNP counter never goes back |
| Culling.RecordKeepsSound | src/MyMonteCarloScenarioObserver.java:713-714 | writing test records changes nothing the bookkeeping looks at |
| Culling.TestAll | src/MyMonteCarloScenarioObserver.java:623-631 | every listed cow is tested once, in order, with one record each on the test date and herd |
| Culling.TestAllClear | src/MyMonteCarloScenarioObserver.java:623-631 | with no reactor, testing a list of cows changes nothing but the test records |
| Culling.TestAllKeepsCows | src/MyMonteCarloScenarioObserver.java:623-631 | testing only removes cows: every cow still live afterwards is exactly as it was |
| Culling.TestAndRemoveKeepsCows | src/MyMonteCarloScenarioObserver.java:667-717 | one test only removes cows: every cow still live afterwards is exactly as it was |
| Culling.ReactorsAtMostTested | src/MyMonteCarloScenarioObserver.java:634-636 | there are never more reactors than cows tested |
| Culling.TestAllSound | src/MyMonteCarloScenarioObserver.java:623-631 | testing cows listed on their own herd keeps the bookkeeping sound |
| Culling.TestAllConserves | src/MyMonteCarloScenarioObserver.java:623-631 | testing a list of cows only moves animals from the live map to the culled map |
| Culling.PerformWHT | src/MyMonteCarloScenarioObserver.java:607-643 | the cows listed when the test starts are tested in order; the herd-test record holds the listed count and the reactor count, which never exceeds it, and the reactor count enters the histogram even when zero |
| Culling.PerformWHTSound | src/MyMonteCarloScenarioObserver.java:607-643 | a whole-herd test keeps the bookkeeping sound and only moves animals to the culled map |
| Culling.ThetaOne | src/MyMonteCarloScenarioObserver.java:98-138 | fails exactly when the herd test fails; the restriction follows the test outcome, and a positive reactor count enters the histogram twice |
| Culling.ThetaOneSound | src/MyMonteCarloScenarioObserver.java:98-138 | one scheduled test keeps the bookkeeping sound |
| Culling.Theta | src/MyMonteCarloScenarioObserver.java:94-144 | the step's scheduled tests, in delivery order, keep the bookkeeping sound and the set of farms |
| Restrictions.TestOutcome | src/MyMonteCarloScenarioObserver.java:106-137 | only the tested herd's restriction entry and test dates change; every other herd and entry is kept |
| Restrictions.OutcomeStanding | src/MyMonteCarloScenarioObserver.java:106-137 | any reactor restarts the restriction at zero clear tests; a clear test adds one to a restricted herd and frees it at the second; a free herd with a clear test stays free |
| Restrictions.TwoClearTestsLift | src/MyMonteCarloScenarioObserver.java:115-130 | a restriction started by a positive test is lifted by exactly two clear follow-up tests |
| Restrictions.DueDates | src/MyMonteCarloScenarioObserver.java:156-172 | a herd is due a routine test one interval after its last clear test when no positive test is on record, and a follow-up 60 days after its last positive test when no clear test is on record |
| Restrictions.OutcomeSchedules | src/MyMonteCarloScenarioObserver.java:115-136 | after a positive test, or any test of a restricted herd, only the 60-day follow-up is due; after a clear test of a free herd only the next routine test is due |
| Restrictions.HerdTests | src/MyMonteCarloScenarioObserver.java:159-170 | a herd's test is registered exactly for its due dates in the half-open step window |
| Restrictions.RegisteredTests | src/MyMonteCarloScenarioObserver.java:151-174 | a test is registered exactly when its herd is visited, the date is due and it falls in the window |
| Restrictions.RegisteredIffDue | src/MyMonteCarloScenarioObserver.java:151-174 | visiting every herd once, a test is registered exactly when its herd exists and the test is due in the current step |
| Restrictions.MovementQuota | src/MyMonteCarloScenarioObserver.java:36-39 | the per-step quota fails exactly when the movement window has no days |
| Restrictions.QuotaBounds | src/MyMonteCarloScenarioObserver.java:36-39 | for a forward window the quota is the floor of the per-step share: quota times the window's days falls short of the total by less than one day's worth |
| Movements.RelocateCow | src/MyMonteCarloScenarioObserver.java:299-305 | moving one cow touches only the cow map and the herd lists and keeps the set of cows and herds |
| Movements.RelocateCows | src/MyMonteCarloScenarioObserver.java:299-305 | moving a batch of cows touches only the cow map and the herd lists and keeps the set of cows and herds |
| Movements.RelocateCowsSound | src/MyMonteCarloScenarioObserver.java:299-305 | moving distinct cows listed on the departure herd keeps every herd list duplicate-free and in agreement with each cow's farm, and moves no animal in or out |
| Movements.RelocateCowsMoves | src/MyMonteCarloScenarioObserver.java:302-304 | each moved cow takes the destination as its farm and has it appended to its farm history; every other cow is unchanged |
| Movements.RelocateCowsLists | src/MyMonteCarloScenarioObserver.java:301 | the destination list gains the moved cows at its end, in the order they were selected |
| Movements.RelocateCowsOthers | src/MyMonteCarloScenarioObserver.java:299-305 | the lists of every herd other than the departure and destination herds are untouched |
| Movements.RelocateCowsDeparture | src/MyMonteCarloScenarioObserver.java:300 | the departure list loses exactly the moved cows, as a multiset |
| Movements.AdjustHerds | src/MyMonteCarloScenarioObserver.java:312-320 | with flexible sizes the departure herd shrinks and the destination grows by the batch; otherwise only the destination can change, and then only up to the number of infected cows it now holds; no other farm field or farm changes |
| Movements.Selection | src/MyMonteCarloScenarioObserver.java:265-266 | the k selected cows are distinct, listed on the departure herd, and can be tested |
| Movements.Settle | src/MyMonteCarloScenarioObserver.java:280-327 | after the pre-movement tests, any reactor cancels the batch (nothing moves, nothing is tallied); otherwise the whole batch counts as moved and every tested cow counts as infected moved |
| Movements.SettleSound | src/MyMonteCarloScenarioObserver.java:280-327 | settling a batch keeps the bookkeeping sound and moves no animal in or out |
| Movements.SettleRestricts | src/MyMonteCarloScenarioObserver.java:280-283 | a reactor restricts the departure herd with a zero count, unsets its last clear test date and sets its last positive test date to now |
| Movements.SettleDeliversLists | src/MyMonteCarloScenarioObserver.java:299-305 | with no reactor, the selected cows leave the departure list and join the end of the destination list; other lists stay |
| Movements.SettleDeliversCows | src/MyMonteCarloScenarioObserver.java:299-327 | with no reactor, each selected cow is relocated, the others unchanged, and the infected-moved tally grows by the batch's infected cows |
| Movements.SettleDeliversSizes | src/MyMonteCarloScenarioObserver.java:312-320 | with no reactor, restrictions stay and herd sizes change as the size rule says: by the batch with flexible sizes, otherwise the destination only grows, to at least its infected count |
| Movements.ShipCows | src/MyMonteCarloScenarioObserver.java:263-329 | pre-movement testing of k infected cows finds at most k reactors; with a reactor nothing moves, otherwise the whole batch moves with its k infected cows, which needs a known destination herd |
| Movements.ShipCowsSound | src/MyMonteCarloScenarioObserver.java:263-329 | shipping keeps the bookkeeping sound and moves no animal in or out |
| Movements.ShipCowsFrame | src/MyMonteCarloScenarioObserver.java:263-329 | shipping touches only the cattle, the herds, the tree, the SNP counter, the cattle test records, the restrictions and the infected-moved tally |
| Movements.ShipCowsKeepsRecords | src/MyMonteCarloScenarioObserver.java:263-329 | shipping itself writes no movement or herd-test record |
| Movements.ShipCowsSettles | src/MyMonteCarloScenarioObserver.java:265-273 | shipping fails exactly when a pre-movement test fails or, with no reactor, the destination herd is unknown; otherwise it is the settlement of the selected cows' test outcome |
| Movements.ShipCowsDetected | src/MyMonteCarloScenarioObserver.java:280-289 | with a reactor, the departure herd is restricted and stamped, the tally is unchanged and no surviving cow has changed |
| Movements.ShipCowsDeliversLists | src/MyMonteCarloScenarioObserver.java:299-305 | with no reactor, the destination herd is known and the selected cows go from the departure list to the end of the destination list; other lists stay |
| Movements.ShipCowsDeliversCows | src/MyMonteCarloScenarioObserver.java:299-327 | with no reactor, each selected cow is relocated with its history extended, the others are unchanged and the tally grows by k |
| Movements.ShipCowsTests | src/MyMonteCarloScenarioObserver.java:268-273 | the test records gain, after the existing ones, exactly one pre-movement record per selected cow, in selection order |
| Movements.ShipCowsReactors | src/MyMonteCarloScenarioObserver.java:268-273 | the count of reactors is the number of positive records the tests appended |
| Movements.ShipCowsSizes | src/MyMonteCarloScenarioObserver.java:312-320 | with no reactor, restrictions stay and herd sizes follow the flexible or fixed size rule |
| Movements.ShipCowsTally | src/MyMonteCarloScenarioObserver.java:327 | shipping keeps the set of herds and adds to the tally exactly the infected cows it moved |
| Movements.CattleBatch | src/MyMonteCarloScenarioObserver.java:211-334 | an unknown departure herd is an error, and so is delivering infected cows that passed their tests to an unknown destination; a batch whose hypergeometric draw is k samples k infected cows, and adds nothing to the moved count if a reactor is found and the planned batch otherwise |
| Movements.CattleBatchSound | src/MyMonteCarloScenarioObserver.java:257-334 | a batch keeps the bookkeeping sound and moves no animal in or out |
| Movements.CattleBatchRecords | src/MyMonteCarloScenarioObserver.java:257-259 | exactly one movement record is appended per batch, whether or not any infected cow is drawn |
| Movements.CattleBatchHerdTest | src/MyMonteCarloScenarioObserver.java:332 | exactly one pre-movement herd-test record is appended, with the departure herd's infected count and the reactors found, even when no infected cow was drawn |
| Movements.CattleBatchFrame | src/MyMonteCarloScenarioObserver.java:262-334 | a cattle batch leaves the badgers, setts and badger records alone, and with no infected cow drawn changes nothing but the two record lists |
| Movements.CattleBatchDetected | src/MyMonteCarloScenarioObserver.java:280-289 | a reactor restricts and stamps the departure herd and leaves the tally and every remaining cow as they were |
| Movements.CattleBatchDelivers | src/MyMonteCarloScenarioObserver.java:299-327 | with no reactor, the destination herd is known, the selected cows move lists and farms, others stay, and the tally grows by k |
| Movements.CattleBatchTally | src/MyMonteCarloScenarioObserver.java:327 | a batch keeps the set of herds and adds to the tally exactly the infected cows it moved |
| Movements.CattleMove | src/MyMonteCarloScenarioObserver.java:197-334 | an iteration touching a restricted herd, or whose batch does not go ahead, changes nothing and counts nothing; an unrestricted iteration from an unknown herd is an error; otherwise at most the departure herd's infected cows are sampled and a reactor cancels the move; no known movement is an error |
| Movements.CattleMoveSound | src/MyMonteCarloScenarioObserver.java:197-334 | one iteration keeps the bookkeeping sound and moves no animal in or out |
| Movements.CattleMoveTally | src/MyMonteCarloScenarioObserver.java:197-334 | one iteration keeps the set of herds and adds to the tally exactly the infected cows it moved |
| Movements.CattleMovements | src/MyMonteCarloScenarioObserver.java:191-342 | the loop ends with at least the quota moved, sound bookkeeping, no animal gained or lost and the tally grown by the infected cows moved; the set of herds is kept; a non-positive quota changes nothing, and a quota with every known movement restricted never ends |
| BadgerMovements.SampleBadger | src/MyMonteCarloScenarioObserver.java:730-738 | sampling a badger adds SNP ids to its set without losing any, sets its last generation and sample dates, changes no other badger and fails exactly when SNP generation fails |
| BadgerMovements.SampleBadgerSound | src/MyMonteCarloScenarioObserver.java:730-738 | sampling a badger keeps the bookkeeping sound and moves no animal in or out |
| BadgerMovements.SameSettsSound | src/MyMonteCarloScenarioObserver.java:730-738 | changing only badgers' SNPs and dates, and advancing the SNP counter, keeps the bookkeeping sound |
| BadgerMovements.TestBadger | src/MyMonteCarloScenarioObserver.java:719-745 | a badger tests positive exactly when captured and the draw is within the sensitivity; exactly one record is appended; a positive test samples the badger and a negative one changes nothing else |
| BadgerMovements.UncapturedNegative | src/MyMonteCarloScenarioObserver.java:727 | a badger that is not captured never tests positive, never fails, and only gains a negative record |
| BadgerMovements.TestBadgerSound | src/MyMonteCarloScenarioObserver.java:719-745 | testing a badger keeps the bookkeeping sound and moves no animal in or out |
| BadgerMovements.RelocateBadger | src/MyMonteCarloScenarioObserver.java:409-415 | moving one badger touches only the badgers, the sett lists and the badger records, to which one negative, uncaptured "movement" record is appended |
| BadgerMovements.RelocateBadgers | src/MyMonteCarloScenarioObserver.java:409-416 | moving a batch of badgers touches only the badgers, the sett lists and the badger records, and keeps the set of badgers and setts |
| BadgerMovements.RelocateBadgersSound | src/MyMonteCarloScenarioObserver.java:409-416 | moving distinct badgers listed in the departure sett keeps every sett list duplicate-free and in agreement with each badger's sett, and moves no animal in or out |
| BadgerMovements.RelocateBadgersMoves | src/MyMonteCarloScenarioObserver.java:412-414 | each moved badger takes the destination as its sett and has it appended to its sett history; the others are unchanged |
| BadgerMovements.RelocateBadgersLists | src/MyMonteCarloScenarioObserver.java:411 | the destination list gains the moved badgers at its end in selection order |
| BadgerMovements.RelocateBadgersOthers | src/MyMonteCarloScenarioObserver.java:409-416 | the lists of setts other than departure and destination are untouched |
| BadgerMovements.RelocateBadgersDeparture | src/MyMonteCarloScenarioObserver.java:410 | the departure list loses exactly the moved badgers, as a multiset |
| BadgerMovements.MovementTests | src/MyMonteCarloScenarioObserver.java:415 | one record per moved badger, in order, each negative, uncaptured and tagged "movement" |
| BadgerMovements.RelocateBadgersRecords | src/MyMonteCarloScenarioObserver.java:415 | moving a batch appends exactly the batch's movement test records to the badger records |
| BadgerMovements.AdjustSetts | src/MyMonteCarloScenarioObserver.java:418-428 | with flexible sizes the departure sett shrinks and the destination grows by the batch; otherwise only the destination can grow, to the number of infected badgers it holds; nothing else changes |
| BadgerMovements.SettSelection | src/MyMonteCarloScenarioObserver.java:404-405 | the k selected badgers are distinct and all live in the departure sett |
| BadgerMovements.BadgerBatch | src/MyMonteCarloScenarioObserver.java:373-437 | a batch fails exactly when its departure sett is unknown or it has infected badgers to deliver to an unknown sett; otherwise a batch with k infected badgers moves all k, detects none and adds the planned batch to the moved count |
| BadgerMovements.BadgerMove | src/MyMonteCarloScenarioObserver.java:366-437 | an unknown departure sett is an error whether or not the batch goes ahead; an iteration whose batch does not go ahead changes nothing; otherwise at most the departure sett's infected badgers move, none is detected, and the planned batch counts; no known movement is an error |
| BadgerMovements.DeliverBadgersSound | src/MyMonteCarloScenarioObserver.java:409-433 | delivering a batch and resizing the setts keeps the bookkeeping sound |
| BadgerMovements.BadgerBatchSound | src/MyMonteCarloScenarioObserver.java:400-437 | a batch keeps the bookkeeping sound and moves no animal in or out |
| BadgerMovements.BadgerMoveSound | src/MyMonteCarloScenarioObserver.java:366-437 | one iteration keeps the bookkeeping sound and moves no animal in or out |
| BadgerMovements.BadgerBatchFrame | src/MyMonteCarloScenarioObserver.java:400-437 | a batch touches only badger-side data and the movement records, appends exactly one movement record, and with no infected badger drawn changes nothing else |
| BadgerMovements.BadgerBatchLists | src/MyMonteCarloScenarioObserver.java:409-416 | the selected badgers go from the departure list to the end of the destination list; other lists stay |
| BadgerMovements.BadgerBatchBadgers | src/MyMonteCarloScenarioObserver.java:409-433 | the selected badgers are relocated, the others unchanged, their movement records appended, and the tally grows by k |
| BadgerMovements.BadgerBatchSizes | src/MyMonteCarloScenarioObserver.java:418-428 | sett sizes follow the flexible or fixed size rule |
| BadgerMovements.BadgerMoveKeys | src/MyMonteCarloScenarioObserver.java:366-437 | one iteration keeps the set of setts |
| BadgerMovements.BadgerMoveTally | src/MyMonteCarloScenarioObserver.java:433 | one iteration adds to the tally exactly the infected badgers it moved |
| BadgerMovements.BadgerMovements | src/MyMonteCarloScenarioObserver.java:360-443 | the loop ends with at least the quota moved, sound bookkeeping, no animal gained or lost and the tally grown by the infected badgers moved; the set of setts is kept; a non-positive quota changes nothing; no known movement with a positive quota is an error |
| Mortality.MovesForPeriodMembers | src/MyMonteCarloScenarioObserver.java:473-477 | a farm is in the period's slaughter list exactly when some scheduled date in the closed window from now to now plus the step lists it |
| Mortality.MovesForPeriodScheduled | src/MyMonteCarloScenarioObserver.java:473-477 | walking every scheduled date once, in whatever order the map gives, a farm is sent to slaughter exactly when some date of the closed window lists it |
| Mortality.MovesForPeriodCount | src/MyMonteCarloScenarioObserver.java:473-477 | a farm occurs in the period's slaughter list as often as it is listed across the scheduled dates in the window |
| Mortality.Dedup | src/MyMonteCarloScenarioObserver.java:479 | dropping repeats leaves a duplicate-free list with exactly the elements seen so far plus the input's, keeping what came first in front |
| Mortality.Distinctly | src/MyMonteCarloScenarioObserver.java:479 | the distinct farms are duplicate-free and are exactly the farms of the slaughter list |
| Mortality.Abattoir | src/MyMonteCarloScenarioObserver.java:517-537 | after abattoir testing, the reactors are the positive records, one "abattoir" herd-test record is appended, and no animal or other record list changes |
| Mortality.AbattoirRestricts | src/MyMonteCarloScenarioObserver.java:520-527 | a reactor restricts the farm with a zero count, unsets its last clear test date and sets its last positive test date; without one, restrictions and farms stay |
| Mortality.SlaughterBatch | src/MyMonteCarloScenarioObserver.java:510-535 | testing k infected cows at slaughter finds at most k reactors |
| Mortality.SlaughterBatchTests | src/MyMonteCarloScenarioObserver.java:510-524 | the slaughter batch fails exactly when a test fails and is otherwise the abattoir outcome of testing the selected cows, selected as if no movement record had been written |
| Mortality.SlaughterBatchSound | src/MyMonteCarloScenarioObserver.java:510-535 | a slaughter batch keeps the bookkeeping sound and moves no animal in or out |
| Mortality.SlaughterBatchRestricts | src/MyMonteCarloScenarioObserver.java:520-527 | a reactor restricts and stamps the farm; with none, restrictions and farms are unchanged |
| Mortality.SlaughterBatchRecords | src/MyMonteCarloScenarioObserver.java:510-535 | one movement record and one herd-test record are appended; the test records gain one "abattoir" record per selected cow whose positives are the reactors; the death tally is not touched per farm |
| Mortality.SlaughterFarm | src/MyMonteCarloScenarioObserver.java:484-535 | a listed id that names no farm is an error (the infected-cow list it looks up is null); a farm's removals are its listings capped at the herd size; a removal count the hypergeometric distribution refuses is an error; the reactors number at most the farm's infected cows and at most the removals |
| Mortality.SlaughterFarmBatch | src/MyMonteCarloScenarioObserver.java:484-508 | a successful slaughter is of a known farm and is the slaughter batch of the hypergeometric draw, which is at most the farm's infected cows |
| Mortality.SlaughterFarmSound | src/MyMonteCarloScenarioObserver.java:484-535 | a successful slaughter is of a known farm, keeps the bookkeeping sound, keeps the set of farms, changes no other farm and no other farm's restriction, and never lifts a restriction |
| Mortality.SlaughterFarms | src/MyMonteCarloScenarioObserver.java:483-538 | a listed id that names no farm makes the loop an error; otherwise the loop keeps the bookkeeping sound, never lifts a restriction and leaves farms it does not visit alone; no farm means no change |
| Mortality.SlaughterFarmsStep | src/MyMonteCarloScenarioObserver.java:483-538 | slaughtering the next listed farm succeeds only for a known farm and keeps what the farm loop keeps |
| Mortality.SlaughterhouseMoves | src/MyMonteCarloScenarioObserver.java:459-547 | a listed id in the window that names no farm is an error; otherwise the period's slaughterhouse moves keep the bookkeeping sound, add the reactors found to the cows-at-death tally, and leave farms with no slaughter listed alone; no listed slaughter means no change |
| Mortality.Dying | src/MyMonteCarloScenarioObserver.java:560-569 | the badgers chosen to die are drawn from those visited, at most as many, without repeats |
| Mortality.DyingIff | src/MyMonteCarloScenarioObserver.java:562-563 | a visited badger dies exactly when its draw is below the death rate |
| Mortality.DeathRecords | src/MyMonteCarloScenarioObserver.java:569-572 | one movement record per visited badger, in visiting order, dead or alive |
| Mortality.Bury | src/MyMonteCarloScenarioObserver.java:588-596 | burying a badger removes it from the live map and its sett list, stores it among the expired badgers and sets its vertex's detection date |
| Mortality.BurySound | src/MyMonteCarloScenarioObserver.java:588-596 | burying a live badger keeps the bookkeeping sound and moves no animal in or out |
| Mortality.ExpireSteps | src/MyMonteCarloScenarioObserver.java:576-596 | a badger's death is a negative "death" test record, then sampling, then burial; it fails exactly when sampling fails |
| Mortality.ExpireRemoves | src/MyMonteCarloScenarioObserver.java:580-596 | after a death the badger is gone from the live map, present among the expired, and one death test record is appended |
| Mortality.ExpireKeepsExpired | src/MyMonteCarloScenarioObserver.java:588-593 | a death leaves every other expired badger and every other vertex as it was |
| Mortality.ExpireSamples | src/MyMonteCarloScenarioObserver.java:583-590 | the dead badger keeps its SNPs and gains more, its last generation and sample dates are the death date, and its vertex's detection date is the death date |
| Mortality.ExpireSound | src/MyMonteCarloScenarioObserver.java:576-596 | a death keeps the bookkeeping sound and touches only badger-side data, the tree, the SNP counter and the badger records |
| Mortality.ExpireAll | src/MyMonteCarloScenarioObserver.java:576-597 | burying no badger changes nothing |
| Mortality.DeathTests | src/MyMonteCarloScenarioObserver.java:580 | one negative "death" test record per dying badger, in order |
| Mortality.ExpireAllSound | src/MyMonteCarloScenarioObserver.java:576-597 | the death loop keeps the bookkeeping sound and moves no animal in or out |
| Mortality.ExpireAllFrame | src/MyMonteCarloScenarioObserver.java:576-597 | the death loop touches only badger-side data, the tree, the SNP counter and the badger records |
| Mortality.ExpireAllLive | src/MyMonteCarloScenarioObserver.java:594-595 | after the death loop the live badgers are exactly those before it that did not die |
| Mortality.ExpireAllSurvivors | src/MyMonteCarloScenarioObserver.java:576-597 | survivors are unchanged |
| Mortality.ExpireAllExpired | src/MyMonteCarloScenarioObserver.java:588-593 | every dead badger is among the expired with the death date as its sample date |
| Mortality.ExpireAllDetected | src/MyMonteCarloScenarioObserver.java:590 | every dead badger's vertex carries the death date as its detection date |
| Mortality.ExpireAllKeeps | src/MyMonteCarloScenarioObserver.java:576-597 | badgers that expired earlier keep their stored record and vertex |
| Mortality.ExpireAllTests | src/MyMonteCarloScenarioObserver.java:580 | the death loop appends exactly one death test record per dying badger, in order |
| Mortality.Recorded | src/MyMonteCarloScenarioObserver.java:560-599 | the visiting pass appends one movement record per badger and the dead count grows by the number of dying badgers; nothing else changes |
| Mortality.RecordedSound | src/MyMonteCarloScenarioObserver.java:560-599 | writing the death records keeps the bookkeeping sound |
| Mortality.BadgerDeathsSteps | src/MyMonteCarloScenarioObserver.java:555-599 | badger deaths are the visiting pass followed by the death loop over the badgers that drew death |
| Mortality.BadgerDeathsSound | src/MyMonteCarloScenarioObserver.java:555-599 | badger deaths keep the bookkeeping sound and move no animal in or out |
| Mortality.BadgerDeathsFrame | src/MyMonteCarloScenarioObserver.java:555-599 | badger deaths leave the cattle side, the farms, the setts and the cattle and herd records alone, and append exactly the per-badger movement records |
| Mortality.BadgerDeathsEffect | src/MyMonteCarloScenarioObserver.java:555-599 | each visited badger survives unchanged exactly when its draw is not below the rate and is otherwise expired with the death date; its movement record sits at its visiting position; the tally grows by the number dying |
| Phylogeny.DetectionYear | src/MyMonteCarloScenario.java:744 | the detection year is the one whose 365-day span, counted from the zero year, contains the detection date (floor division, also for negative dates) |
| Phylogeny.IncludeNode | src/MyMonteCarloScenario.java:738-760 | an undetected node is never included; a detected one is included exactly when the draw is at most its species' sampling rate for its detection year, a missing year counting as rate zero |
| Phylogeny.MissingYearNeverSampled | src/MyMonteCarloScenario.java:751-753 | a node detected in a year with no sampling rate is dropped for every positive draw |
| Phylogeny.Prune | src/MyMonteCarloScenario.java:100-133 | pruning keeps a well-formed tree whose surviving vertices are unchanged, and keeps a visited vertex exactly when it is the root or is included |
| Phylogeny.PruneKeepsRoot | src/MyMonteCarloScenario.java:112 | the root always survives pruning |
| Phylogeny.PruneEvery | src/MyMonteCarloScenario.java:100-133 | visiting every vertex of the full tree once, in any order, leaves exactly the vertices that are kept |
| Phylogeny.PrunePreservesReach | src/MyMonteCarloScenario.java:121-130 | because every removed vertex's parents are wired to its children, a surviving vertex reaches another after pruning exactly when it did before |
| Phylogeny.SnpDistanceProperties | src/MyMonteCarloScenario.java:791-801 | the SNP distance of two samples is symmetric, zero exactly for equal SNP sets, and is the size of their symmetric difference |
| Phylogeny.CountSnpDifference | src/MyMonteCarloScenario.java:791-801 | counting the SNPs of each sample missing from the other, in any iteration order, gives the symmetric-difference size |
| Phylogeny.CountMissing | src/MyMonteCarloScenario.java:792-796 | the count of one sample's SNPs not in the other is the size of the set difference |
| Phylogeny.Row | src/MyMonteCarloScenario.java:788-804 | one node's row holds at most one distance per other vertex |
| Phylogeny.Tally | src/MyMonteCarloScenario.java:802 | the histogram's frequency of every value is its number of occurrences |
| Phylogeny.PairwiseDistances | src/MyMonteCarloScenario.java:769-815 | with at most one vertex the histogram is empty; otherwise each distance's frequency is its count over all ordered pairs of distinct vertices |
| Phylogeny.OrderedIsTwiceUnordered | src/MyMonteCarloScenario.java:787-805 | the ordered-pair distances are the unordered-pair distances twice over, as multisets |
| Phylogeny.UnorderedCount | src/MyMonteCarloScenario.java:787-805 | n vertices with distinct ids give n(n-1)/2 unordered pairs |
| Phylogeny.PairwiseHistogram | src/MyMonteCarloScenario.java:769-815 | with distinct ids and more than one vertex, every distance is counted exactly twice per unordered pair, and the histogram holds n(n-1) observations |
| Sampling.Hyper | src/MyMonteCarloScenarioObserver.java:248-252 | a hypergeometric draw is refused exactly for parameters the distribution rejects; an accepted draw lies in the support: at most the sample, at most the successes, and leaving no more failures drawn than exist |
| Sampling.HyperCovers | src/MyMonteCarloScenarioObserver.java:248-252 | every value in the support can be drawn |
| Sampling.SelectMany | src/MyMonteCarloScenarioObserver.java:265-266 | selecting k of a list gives k entries drawn from it, never an entry more often than it occurs |
| Sampling.SelectManyDistinct | src/MyMonteCarloScenarioObserver.java:265-266 | selecting from a duplicate-free list gives distinct members of it |
| Results.Probabilities | src/MyMonteCarloScenarioResults.java:36-45 | there is one multinomial probability per observed bin |
| Results.ProbabilitiesEmptyNaN | src/MyMonteCarloScenarioResults.java:38-45 | with no observation at all every probability is zero over zero, that is NaN |
| Results.ProbabilitiesSumToOne | src/MyMonteCarloScenarioResults.java:38-45 | with at least one observation every probability is a number and they sum to one |
| Results.SumOfShares | src/MyMonteCarloScenarioResults.java:41-45 | the bins' shares of the total add up to the bins' summed frequency over the total |
| Results.TotalZero | src/MyMonteCarloScenarioResults.java:38 | the observed total is zero exactly when every observed bin has frequency zero |
| Results.RestrictedBins | src/MyMonteCarloScenarioResults.java:304-312 | the generated histogram has exactly the observed bins, each with the simulated frequency, a missing one counting as zero |
| Results.RestrictedTotal | src/MyMonteCarloScenarioResults.java:304-315 | summed over observed bins, the generated histogram counts what the simulated one counts |
| Results.Score | src/MyMonteCarloScenarioResults.java:301-349 | a score that is not an error is a finite log-likelihood or the rejection value |
| Results.ScoreCases | src/MyMonteCarloScenarioResults.java:314-341 | the score is the rejection value exactly when the simulation has no pairwise distance in any observed bin, and an error exactly when it has some but the normalised bins do not add up to the observed count |
| Results.Reset | src/MyMonteCarloScenarioResults.java:55-107 | after a reset no likelihood is held, every counter is zero and both merged trees, full and observed, are empty |
| Results.ExpectedValue | src/MyMonteCarloScenarioResults.java:51-53 | the expected value is the rejection value exactly when no likelihood has been gathered, and finite otherwise |
| Results.AddRejected | src/MyMonteCarloScenarioResults.java:282-287 | the rejected count grows by one exactly when asked, the new count is returned, and nothing else changes |
| Results.IncrementOutbreakContained | src/MyMonteCarloScenarioResults.java:293-295 | the contained-outbreak count grows by one and nothing else changes |
| Results.Join | src/MyMonteCarloScenarioResults.java:183-275 | joining fails exactly when scoring the joined run fails |
| Results.JoinTallied | src/MyMonteCarloScenarioResults.java:183-275 | a reset result, and every successful join of one, keep the counts of gathered likelihoods and rejections within the scenario count |
| Results.JoinCounts | src/MyMonteCarloScenarioResults.java:188-274 | a join counts one more scenario, adds the run's contained outbreaks, and either gathers the run's likelihood or counts one more rejection |
| Results.JoinFinite | src/MyMonteCarloScenarioResults.java:188-193 | after gathering a finite likelihood the expected value is finite |
| Results.MergeAllCounts | src/MyMonteCarloScenarioResults.java:215-226 | in the merged tree an edge's weight is the number of joined trees holding it, and the edge is present exactly when that number is positive |
| Results.MergeAllFirstNode | src/MyMonteCarloScenarioResults.java:210-214 | the merged tree keeps the first joined tree's copy of each vertex |
| Results.MergeAllAbsent | src/MyMonteCarloScenarioResults.java:210-214 | a vertex in no joined tree is not in the merged tree |
| Input.ValidateDates | src/WPBtbClusterModel.java:85-93 | the dates are accepted exactly when the simulation and the movement windows each start no later than they end, and the simulation window is checked first |
| Input.AcceptCases | src/WPBtbClusterModel.java:181-203 | only a finite new score can be accepted; a finite score after an infinite one always is; between two finite scores the draw decides; after a NaN score nothing is |
| Input.AcceptAfterRejections | src/WPBtbClusterModel.java:181-203 | after a run of only rejected scenarios, the first run gathering a likelihood is accepted, and a run gathering none is never accepted |
| Input.CollectFails | src/WPBtbClusterModel.java:343-392 | reading a table fails exactly when some line fails to parse |
| Input.CollectLastWins | src/WPBtbClusterModel.java:343-392 | a key is in the table exactly when some line gives it, and its value is the one from the last such line |
| Input.ScheduleEntry | src/WPBtbClusterModel.java:351-357 | a '#' line gives no entry, and an entry's date lies in the simulation window |
| Input.ScheduleDates | src/WPBtbClusterModel.java:351-357 | every date in the slaughter schedule lies in the simulation window and comes from some line |
| Input.ScheduleLastWins | src/WPBtbClusterModel.java:354-355 | a later line with the same date replaces the farm list of an earlier one |
| Input.ScheduleEntryRoundTrip | src/WPBtbClusterModel.java:351-355 | the line "date:farm,farm,…" written from a date in the window and a list of farm ids reads back as that date and list |
| Input.ScheduleEntryParts | src/WPBtbClusterModel.java:351-355 | a non-comment line split at ':' into a date in the window and a rest gives the rest, trimmed and split at ',', as its farm list |
| Input.ListRoundTrip | src/WPBtbClusterModel.java:354 | a comma-joined farm list is unchanged by trimming and splits back into the list |
| Input.RateEntry | src/WPBtbClusterModel.java:378-385 | a comment or empty line gives no rate |
| Input.RatesIgnoreComments | src/WPBtbClusterModel.java:379 | adding a comment or empty line to a rate file leaves the rate table as it was |
| Input.RatesYears | src/WPBtbClusterModel.java:376-386 | a year is in the rate table exactly when some line gives it |
| Input.RatesLastWins | src/WPBtbClusterModel.java:384 | a year's rate is the one given by its last line |
| Input.FarmId | src/WPBtbClusterModel.java:231-232 | a farm id is the first comma field, trimmed, so it neither starts nor ends with blank; a line without a comma gives the whole line trimmed |
| Input.FarmDataIds | src/WPBtbClusterModel.java:225-240 | reading the farm file fails exactly when a line gives no id, and otherwise the farms are exactly the ids the lines give |
| Input.PutFarmsFarms | src/WPBtbClusterModel.java:233 | every farm read is a new farm under its own id |
| Input.PutFarmsLists | src/WPBtbClusterModel.java:234-235 | every farm read gets an empty infected-cow list and an empty connection list, replacing any earlier ones; other entries stay |
| Input.ParseMoveLine | src/WPBtbClusterModel.java:278-279 | the departure and destination of a movement line contain no '-' |
| Input.MoveLineRoundTrip | src/WPBtbClusterModel.java:278-279 | the line "departure-destination sizes" reads back as its departure, destination and size list |
| Input.AddSizesCounts | src/WPBtbClusterModel.java:285-288 | adding a line's batch sizes raises each size's off-movement frequency by the number of times it occurs |
| Input.MovesFail | src/WPBtbClusterModel.java:280-298 | reading movement lines fails exactly when a non-self line with at least one batch size departs from an unknown unit of the species (a line with no sizes still appends its pair), and otherwise keeps the set of farms and setts |
| Input.MovesPairs | src/WPBtbClusterModel.java:280-298 | each non-self line appends its pair, in file order, to the species' movement list; self-moves add nothing; another species name changes nothing |
| Input.MovesTotal | src/WPBtbClusterModel.java:285-307 | the total returned is the sum of the batch sizes over non-self lines, for a known species only |
| Input.MovesFarmFrequencies | src/WPBtbClusterModel.java:284-288 | for cattle, a farm's off-movement frequency of a size grows by the times it departs with that size on non-self lines, and nothing else about the farm changes |
| Input.MovesReservoirFrequencies | src/WPBtbClusterModel.java:290-294 | the same for badgers and setts |
| Input.ReservoirId | src/WPBtbClusterModel.java:406 | a reservoir id is the decimal text of a 32-bit integer |
| Input.ReservoirIdRoundTrip | src/WPBtbClusterModel.java:406 | "prefix_0…0n" reads as the id n, leading zeros dropped |
| Input.DefinitionLine | src/WPBtbClusterModel.java:405-411 | the farm ids used for lookups are the listed ids trimmed, while the listed ids themselves are kept as written |
| Input.DefinitionRoundTrip | src/WPBtbClusterModel.java:405-411 | a definition line written from a reservoir number and farm list reads back as that reservoir and list |
| Input.ConnectLists | src/WPBtbClusterModel.java:410-412 | connecting succeeds exactly when every trimmed farm id is known, and each farm's connection list then gains the reservoir once per listing |
| Input.DefineAllFails | src/WPBtbClusterModel.java:403-413 | reading definitions fails exactly when some line does not parse, names an unknown reservoir or lists an unknown farm |
| Input.DefineAllKeys | src/WPBtbClusterModel.java:403-413 | reading definitions keeps the sets of reservoirs and farms |
| Input.DefineAllFarms | src/WPBtbClusterModel.java:408-409 | a reservoir's connected farms grow by the farms of its definitions, in file order |
| Input.DefineAllConnections | src/WPBtbClusterModel.java:410-412 | a farm's connections grow by the reservoirs whose definitions list it, in file order |

## Left out

- The stochastic driver: the tau-leaping simulator, the transition-kernel container and the random number generator are library code. The events they fire and the draws they produce are parameters.
- Distributions: `IntegerDistribution` sampling and `normaliseBins`, the hypergeometric distribution and `selectManyOf` are library code. They are modelled by the range their results must lie in (`Sampling.Hyper`, `Sampling.SelectMany`), not by their probabilities.
- Floating point:
  - the log-likelihood formula (`lnFactorial`, `Math.log`, the 1e-15 cutoff);
  - `Math.round` of the test interval, which is taken in whole days;
  - the sensitivity and death-rate comparisons, which are taken as draws.

  Rates and probabilities are Dafny `real`s, with NaN and the infinities as explicit cases where the code relies on them.
- File reading: `FileInput`, `Double.parseDouble` and Broadwick's `toIntegerArray` are parameters or pre-parsed lines. `readReservoirData` and `readDistribution` are not part of this model.
- Output:
  - the CSV and edge-list writers;
  - the time-series `StringBuilder` appends;
  - the per-scenario output maps of `join`;
  - logging, `StopWatch`, `finalize()`.
- The SMC and MCMC observers, the calibration path generators and `WPBtbClusterModel.run` are orchestration. They are not part of this model.
- `HerdTest`, `RecordInitialSize`, `RecordInitialInfState` and `RecordInitialRestrictions` are plain field holders. They appear as plain datatypes, without their Joda date formatting.
- The rejection-resampling loop of `run` is not modelled; it has no bound in the source.
- Initial infections (`initialiseInfections`) and the per-step time series are not modelled.
- Counter overflow: the animal-id counters, the SNP counter, the tallies and the movement quota use unbounded integers. The source's 32-bit `int` could wrap only after more than two billion issues. Explicit 32-bit wrapping is modelled only in `String.hashCode`.
- `Samples` statistics: only the list of gathered likelihoods is kept; its mean is exact real arithmetic rather than a double accumulation.
- Movements.CattleMovements: the `while` loop has no termination argument in the source, so a finite list of draws stands for the random choices. Running out of draws before the quota is met is reported as an error. This stands for the source looping forever, for example when every known movement touches a restricted herd.
- BadgerMovements.BadgerMovements: the same finite-draws reading of the unbounded badger movement loop.
- Movements.CattleMovements: the tally of infected cows moved grows by each iteration's count. The source adds the loop's total once, at the end. No code between the two reads the tally.
- Mortality.BadgerDeaths: the dead-badger tally is updated before the removal loop rather than after it. The loop neither reads nor writes the tally, so the final state is the same.
- BadgerMovements.TestBadger: the source draws a random double even when the badger is not captured. That draw is not modelled, because the random stream is a parameter.
- Common.JavaCompare: Dafny characters are Unicode scalar values, while Java compares UTF-16 code units. The two orders agree only for characters of the Basic Multilingual Plane. The same holds for the code units summed by `String.hashCode`.
- Common.ParseInt: only the ASCII digits '0' to '9' are read. Java's `Integer.parseInt` also accepts the other Unicode decimal digits.
- Results.Score: the log-likelihood value itself is a parameter. Only its cases are modelled: the rejected value, the error when the normalised bins do not add up to the observed count, and a finite number otherwise.
