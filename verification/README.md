# BigData Express: a verified model of its hard parts

This project models, in Dafny 4.11, five components of the BigData Express server and agents, and
proves what they promise over every input and every run.

* **Transfer jobs** (`Wan.dfy`, `Transfer*.dfy`, `Scheduler.dfy`). A rawjob owns sjobs, an sjob owns
  blocks and flows, and the handlers `schedule`, `poll_rate` and `mld_status` move them, set up and
  tear down network paths, relaunch blocks, count retries and keep byte counters on five levels.
  `TransferSpec` gives each handler as a function of the state and of what the outside world answers;
  `TransferRuns` proves one invariant for every step of every run; `TransferTheorems` reads the
  results off it, and `TransferLeaks` what is lost and when; `TransferMeaning` says of each handler what
  it does to a job in the source's own numbers, and `TransferPhases` how states go together and how
  long a silent job lives; `Scheduler` is the object whose methods update the stored documents one by
  one and refine those functions.
* **Admission** (`Admission*.dfy`, `Matching.dfy`). Probing a path, evicting extra jobs, the greedy
  allocator, the two-sided match, `create_job`, and capacity safety over any history of admissions
  mixed with modules joining and leaving; `AdmissionWitness` is one such history. `AdmissionMeaning`
  gives the probe, the allocator and the choice of victims in terms of capacities and running rates.
  `AdmissionMachine.ResourceManager` and `Matching.MatchPathDtns` are the loops as they run.
* **Resource graph** (`ResourceGraph.dfy`, `GraphMachine.dfy`, `Registration.dfy`, `Handlers.dfy`,
  `SiteShape.dfy`). The edge map and the per-node edge lists, their consistency under any sequence of
  operations, how many gateway edges a DTN has, and which modules, links and capacities a site has.
* **JSON wire format** (`Json*.dfy`). The writer and the reader of every message, on bytes, and their
  round trip, with any blanks between tokens; the language the reader accepts; the string and number
  codecs; UTF-8 as in sections 3 and 4 of RFC 3629, escapes as in section 7 of RFC 8259.
* **Checksums and grid-mapfile** (`Checksum.dfy`, `Partition*.dfy`, `TaskCounter.dfy`,
  `GridMapfile.dfy`, `MapfilePush.dfy`). The parallel directory checksum against the sequential one,
  with the division into groups it really uses; the global thread counter under any interleaving;
  editing and reading the grid-mapfile.

`Collections.dfy` holds sums and multiset unions over sequences, `Texts.dfy` the order of strings.
`dafny verify dfyconfig.toml` checks everything.

## Assumptions of the model

* A handler of the transfer system is one atomic step. The program runs eight threads and puts no
  strand around its handlers (`server/scheduler.cc:53`, `server/scheduler.cc:2493`).
* The launcher reports "started" at most once after an accepted launch, then at most one of "error"
  or "finished"; a task that was not accepted, or whose flow was torn down, stays silent. A reported
  byte count lies between zero and the block's size. A launcher is registered when `schedule` needs
  one. A controller numbers its paths from one and reissues no number, and the circuit service reissues
  no uuid; two sites' controllers may use the same numbers. A site whose DTN needs no SDN setup answers
  zero, as often as it is asked: that succeeds, installs nothing and is never released
  (`server/scheduler.cc:2403-2410`, `server/scheduler.cc:2425`).
* `dropped`, `rolledBack`, `launches` and `task` are not stored by the program: the first three record
  history, the last is the launcher's own automaton.
* Rates are real numbers. Guids are counters or places in a table: only their being new is used.
* In `Registration`, `Handlers` and `AdmissionRuns`, one id names one kind of module and no module
  carries one of the site's own ids; `ResourceGraph.AnyOpsConsistent` needs neither.

## Where the code does not do what it seems to promise

Each of these is modelled as written, with the exact condition under which the promise holds.

* `match_path_dtns` lacks an `else`: on equal rates it also takes the last branch and steps over a
  source. It returns exactly when no proper prefix of the sources weighs as much as a proper prefix
  of the destinations (`Matching.MatchAsWritten`, `Matching.TwoEqualSharesThrow`).
* The eviction loop's test for code 3 compares the truth value of `probe != 1` and is never true: a
  request that cannot be served evicts every extra job of the storage before it fails
  (`Admission.EvictionServes`, `Admission.EvictsNothingIff`, `AdmissionWitness.EvictedInVain`).
* `create_job` looks the gateway up by its rid and not by its key: it always throws, after the job is
  in the job table (`AdmissionRuns.CreateJobAsWritten`). The run theorem uses the lookup as meant.
* `has_edge` compares rids while gateway edges are added by key, so a DTN that registers again gets a
  second gateway edge (`Registration.GatewayEdgesCount`, `Registration.ReRegisteringDuplicates`) and
  probing a storage linked to it throws (`AdmissionRuns.ProbeThrowsIff`,
  `AdmissionRuns.ForkedByHistory`). `add_edge` also has no return statement on its main path; its
  result is not used by the modelled callers.
* `DirectoryWalker::partition` drops files once every group has reached the target size, and the
  parallel checksum then throws; a directory with fewer entries and fewer bytes than threads always
  does (`Partition.ParallelReturnsIff`, `Partition.SmallDirectoriesThrow`).
* A poll that meets a task the launcher does not know drops the rawjob and site increments gathered so
  far in that rawjob's pass (`TransferTheorems.PollAbortsIff`, `TransferTheorems.AbortedPollDrops`,
  `TransferLeaks.BytesAreDropped`), and a failed checksum takes bytes back from block, flow, sjob and
  rawjob but not from the sites (`TransferTheorems.SiteBytes`, `TransferTheorems.HistoryChanges`,
  `TransferLeaks.BytesOnlySitesKeep`).
* A relaunch ignores the answer to its launch call, which can leave a live flow without a task. What
  such a flow holds can still be released if and only if its rawjob is transferring, or some sjob of
  the rawjob can be scheduled and has a block that waits, or some sjob of it has a task that may report
  and a block that waits or a retry left (`TransferLeaks.PathReclaimedIff`,
  `TransferLeaks.CircuitReclaimedIff`). A run ends in a state where none of this holds
  (`TransferLeaks.StrandedReached`): two paths stay installed for ever.
* Only the branch of `grid_mapfile_push_entries` that replaces an existing section quotes the names;
  the reader never accepts an unquoted entry, since it asks for a third field where there are two
  (`GridMapfile.FirstPushReadsIff`, `GridMapfile.OrdinaryPushUnreadable`). An entry that reads as the
  end marker makes a quoted entry after it a system entry (`MapfilePush.FirstPushKeepsSystemIff`,
  `MapfilePush.StrayEntry`).
* The JSON reader tags integers above the 32-bit maximum as unsigned (`JsonRoundTrip.RetagOnlyTags`),
  reads a lone minus sign as zero (`JsonReading.MinusIsZero`, `JsonReading.LoneMinus`,
  `JsonReading.MinusDocument`), accepts a
  closing brace after a comma that follows an empty name (`JsonReading.BraceAfterComma`,
  `JsonReading.TrailingComma`), takes any escape for the second half of a surrogate pair
  (`JsonGrammar.AfterHighSurrogate`), and ignores text after the value (`JsonReading.TrailingText`).

## Model

| member | source | states |
|---|---|---|
| `TransferTheorems.SjobBytes` | server/scheduler.cc:1669-1843 | in every reachable state an sjob's `tx_bytes` is the sum over its blocks, with or without a flow, equals that of its flow if it has one, and lies between zero and the sum of block sizes |
| `TransferTheorems.RawjobBytes` | server/scheduler.cc:1831-1842 | in every reachable state a rawjob's bytes are the sum over its sjobs less exactly what aborted polls dropped |
| `TransferTheorems.SiteBytes` | server/scheduler.cc:113-124 | the in-memory site counters always equal the stored ones, and have grown by the rawjobs' bytes plus what failed checksums took back |
| `TransferTheorems.PollAbortsIff` | server/scheduler.cc:1699-1723 | the pass over a rawjob returns early if and only if one of its live flows has a task unknown to the launcher |
| `TransferTheorems.AbortedPollDrops` | server/scheduler.cc:1702-1723 | a pass credits the rawjob with what its sjobs gained and drops nothing, unless such a task is unknown: then it credits nothing and drops all of it |
| `TransferTheorems.HistoryChanges` | server/scheduler.cc:2716-2719 | every allowed step changes what was taken back from a rawjob by exactly the size of a block that failed its checksum, and what was dropped by exactly what an aborted pass gained |
| `TransferLeaks.BytesAreDropped` | server/scheduler.cc:1702-1723 | a reachable state in which a rawjob has lost four bytes that its sjobs counted |
| `TransferLeaks.BytesOnlySitesKeep` | server/scheduler.cc:2710-2723 | a reachable state in which a rawjob is back at zero after a failed checksum while both sites have counted its ten bytes |
| `TransferLeaks.StuckRun` | server/scheduler.cc:1621-1660 | when a rawjob is not transferring and none of its sjobs can change that, it stays so over every run, and its flows without a task do not change |
| `TransferLeaks.PathReclaimedIff` | server/scheduler.cc:2904-2923 | an SDN path held by a live flow is released in some run if and only if the flow's task may report, or its rawjob is transferring, or some sjob of it can be scheduled with a waiting block, or has a task that may report and a waiting block or a retry left |
| `TransferLeaks.CircuitReclaimedIff` | server/scheduler.cc:2904-2923 | the same condition for a committed circuit to be taken down |
| `TransferLeaks.StrandedReached` | server/scheduler.cc:2904-2923 | a reachable state in which that condition fails: a relaunch was refused, then another sjob of the rawjob failed, and two paths stay installed |
| `TransferTheorems.SdnPathLifecycle` | server/scheduler.cc:1220-1279 | every SDN path a controller installed is held by exactly one live flow and unreleased, or held by none and released exactly once; answers of zero are not paths |
| `TransferTheorems.WanCircuitLifecycle` | server/scheduler.cc:1281-1326 | every circuit's calls follow the protocol and are at rest; it is committed exactly when a live flow holds it, and then exactly one does |
| `TransferTheorems.BoundedWork` | server/scheduler.cc:2725-2746 | over every run an sjob with n blocks is launched at most n + 2 times and sees at most three failed checksums |
| `TransferTheorems.EveryFinishConsumesWork` | server/scheduler.cc:2606-2925 | every finished report takes exactly one unit off a nonnegative supply of work |
| `TransferTheorems.FinishedMeansComplete` | server/scheduler.cc:2798-2845 | a finished sjob has all blocks finished and its bytes equal the sum of block sizes |
| `TransferTheorems.RawFinishedIff` | server/scheduler.cc:2810-2845 | a rawjob is finished if and only if it has sjobs and all of them are |
| `TransferTheorems.FlowBlockCoupling` | server/scheduler.cc:740-755 | an sjob has at most one flow and at most one transferring block, and a live flow points at it |
| `TransferTheorems.AssignedButUnfinishedIsDead` | server/scheduler.cc:2846-2855 | the branch for "all assigned but not finished" cannot be reached |
| `TransferTheorems.FinalStatesAbsorb` | server/sitestore.cc:286-310 | over every run an sjob in error stays in error and a finished one never changes |
| `TransferPhases.ReachablePhased` | server/scheduler.cc:2549-2925 | in every reachable state an sjob is transferring if and only if its flow is, if and only if the launcher has reported the start and no end; it is launching if and only if its flow is being set up, finished if and only if its flow waits to be torn down, and in error exactly in the remaining flow states |
| `TransferPhases.RecentJobSurvives` | server/scheduler.cc:1780-1808 | after an sjob was launched by `schedule` or seen to progress at time t, and after whatever happens from then on, no poll up to t + 300000 puts it into error unless its task is unknown to the launcher |
| `TransferPhases.StirredIsActive` | server/scheduler.cc:1780-1783 | a launch by `schedule`, and a poll that finds more bytes than before, set the time of last activity to that moment |
| `TransferMeaning.PollOutcome` | server/scheduler.cc:1669-1828 | a poll leaves an sjob alone unless it belongs to the rawjob, no lost task came before it and its flow moves; then the answer decides: unknown task, more bytes, or no more bytes for longer or not longer than 300000 |
| `TransferMeaning.PollFailsIff` | server/scheduler.cc:1780-1808 | a poll puts an sjob into error if and only if it reaches it while its flow moves, and its task is unknown, or no more bytes are reported than before and the last activity is more than 300000 ago |
| `TransferMeaning.PollRawOutcome` | server/scheduler.cc:1699-1807 | a poll puts its rawjob into error if and only if it puts one of the sjobs into error, and touches no other rawjob |
| `TransferMeaning.ScheduleOutcome` | server/scheduler.cc:700-960 | an sjob without a flow and with a waiting block sets off on its first waiting block, with the first paths answered and the time of the launch, if and only if both ends answer within three requests, a dynamic circuit is reserved and committed, one of five (thirty) pings answers and the launcher accepts; otherwise sjob and rawjob are in error |
| `TransferMeaning.StartedOutcome` | server/scheduler.cc:2555-2574 | a started report puts sjob and flow into transferring and changes nothing else |
| `TransferMeaning.FailedOutcome` | server/scheduler.cc:2575-2605 | an error report puts flow, sjob and rawjob into error, the block back into waiting, and changes no bytes |
| `TransferMeaning.FinishedOutcome` | server/scheduler.cc:2606-2925 | a finished report credits both sites with the rest of the block; a failed checksum takes the block back and sends it again unless it is the third or no launcher is there; otherwise the block is finished and the first other waiting one follows on the same flow, or the sjob is finished |
| `TransferMeaning.SubmitOutcome` | server/scheduler.cc:3021-3073 | a submission adds one rawjob, in error exactly when it has no sjobs, and its sjobs with all blocks waiting |
| `TransferMeaning.SetupInstalls` | server/scheduler.cc:1351-1619 | a setup installs exactly the answered paths with a positive number, the first of three answers at each end |
| `TransferMeaning.FailedReleases` | server/scheduler.cc:1220-1279 | an error report releases exactly the flow's paths with a positive number |
| `TransferRuns.StepKeeps` | server/scheduler.cc:680-968 | every allowed step of the system keeps the whole invariant, and no sjob goes back on what it reached |
| `TransferRuns.RunKeeps` | server/scheduler.cc:680-2932 | the same for every run of allowed steps |
| `TransferJob.ScheduleKeeps` | server/scheduler.cc:700-968 | scheduling keeps the sjob's invariant and counts no bytes |
| `TransferJob.StartedKeeps` | server/scheduler.cc:2555-2574 | a started report keeps the sjob's invariant |
| `TransferJob.FailedKeeps` | server/scheduler.cc:2575-2605 | an error report keeps the sjob's invariant and leaves it in error |
| `TransferJob.FinishKeeps` | server/scheduler.cc:2606-2925 | a finished report keeps the sjob's invariant; bytes change by what is credited less what is taken back |
| `TransferJob.FinishDecreases` | server/scheduler.cc:2725-2925 | (unfinished blocks, retries left) decreases with every finished report |
| `TransferJob.PollSjobKeeps` | server/scheduler.cc:1669-1828 | polling an sjob keeps its invariant; its bytes grow by what is reported as gained |
| `TransferNet.SetupBalances` | server/scheduler.cc:1351-1619 | whatever a setup installs or commits is owned by the flow-to-be, or was torn down or deleted already |
| `TransferNet.TeardownBalances` | server/scheduler.cc:1220-1326 | a teardown releases exactly the paths and the circuit the flow held |
| `Scheduler.ScheduleAllIsRun` | server/scheduler.cc:680-968 | one call of `schedule` over all sjobs is a run of single steps |
| `Scheduler.PollAllIsRun` | server/scheduler.cc:1621-1850 | one call of `poll_rate` over all rawjobs is a run of single steps |
| `Scheduler.Scheduler.Schedule` | server/scheduler.cc:680-968 | the in-place handler leaves the state the step function gives |
| `Scheduler.Scheduler.ScheduleSjob` | server/scheduler.cc:700-960 | one sjob: pick a block, connect, verify, launch or clean up, field by field |
| `Scheduler.Scheduler.HandleNetwork` | server/scheduler.cc:1351-1619 | circuit first, then the two SDN paths; ids are recorded on failure too |
| `Scheduler.Scheduler.ReservePath` | server/scheduler.cc:970-1166 | a site is asked at most three times and its first success is used; it counts as a path only if its number is positive |
| `Scheduler.Scheduler.Release` | server/scheduler.cc:2416-2440 | a release reaches the controller only for a positive number |
| `Scheduler.Scheduler.SetupWanPath` | server/scheduler.cc:396-485 | create, reserve, commit, with a delete when reserve or commit fails |
| `Scheduler.Scheduler.Teardown` | server/scheduler.cc:1220-1326 | both teardowns of a flow's resources |
| `Scheduler.Scheduler.CleanUp` | server/scheduler.cc:644-678 | a failed schedule releases what was set up and fails sjob and rawjob |
| `Scheduler.Scheduler.VerifyPath` | server/scheduler.cc:1168-1218 | five pings, thirty over a dynamic circuit, success at the first that answers |
| `Scheduler.Scheduler.TaskStarted` | server/scheduler.cc:2555-2574 | the in-place handler of status 1; on a known flow it leaves sjob and flow transferring |
| `Scheduler.Scheduler.TaskFailed` | server/scheduler.cc:2575-2605 | the in-place handler of status 2 |
| `Scheduler.Scheduler.TaskFinished` | server/scheduler.cc:2606-2925 | the in-place handler of status 3: credit, take back and retry, or go on to the next block, retire and settle |
| `Scheduler.Scheduler.PollRate` | server/scheduler.cc:1621-1850 | the in-place poll, with its early return |
| `Scheduler.Scheduler.IncrementSite` | server/sitestore.cc:579-600 | the stored and the in-memory counter of a site move together |
| `Wan.Tries` | server/wan.cc:168-185 | attempts stop at the first accepted call or at the limit, and at least one is made |
| `Wan.FourAttempts` | server/wan.cc:168-224 | each operation makes one to four attempts, none after the first that is accepted, and succeeds if and only if one of the first four is |
| `Wan.TeardownFollowsProtocol` | server/wan.cc:168-224 | release, terminate, delete in that order, at most four attempts each; gone exactly when all three were accepted |
| `Wan.SetupFollowsProtocol` | server/wan.cc:126-166 | committed exactly when reserve and commit were accepted; otherwise deleted, or given up after the fourth attempt |
| `Wan.Retry` | server/wan.cc:168-224 | one retry loop succeeds exactly when one of the permitted attempts is accepted, and records exactly the attempts up to it |
| `Wan.TearDown` | server/scheduler.cc:1281-1326 | release, then terminate, then delete, each only after the one before was accepted |
| `ResourceGraph.AnyOpsConsistent` | server/resourcegraph.cc:351-429 | after any sequence of operations, self-loops included, each edge is once in its source's out list and once in its destination's in list, both exist, and lists hold nothing else |
| `ResourceGraph.RemoveKeeps` | server/resourcegraph.cc:378-429 | removing a node with all edges that touch it keeps the graph consistent |
| `ResourceGraph.ConnectKeeps` | server/resourcegraph.h:148-153 | connecting a new edge keeps the graph consistent |
| `ResourceGraph.EraseIsWithout` | server/resourcegraph.cc:92-114 | erasing the first match in a duplicate-free list removes that id and nothing else |
| `GraphMachine.SweepRemoves` | server/resourcegraph.cc:409-429 | walking the node's own two lists erases exactly the node and the edges that touch it |
| `GraphMachine.RGraph.DelNode` | server/resourcegraph.cc:378-429 | the two loops of `del_node`, reserved keys and the refusal included, refine that removal |
| `GraphMachine.RGraph.GetEdge` | server/resourcegraph.cc:299-312 | the loop finds an edge with those rids if there is one |
| `GraphMachine.RGraph.AddEdge` | server/resourcegraph.cc:351-366 | an existing edge is kept, missing nodes throw, otherwise one new edge is connected |
| `GraphMachine.RGraph.EraseFirst` | server/resourcegraph.cc:92-114 | the erase loop gives the list without that id |
| `GraphMachine.RGraph.Reset` | server/resourcegraph.cc:453-459 | all nodes and edges go; identifiers are not reused |
| `Handlers.AddModules` | server/resourcemanager.cc:96-201 | both iterations, with the throw that stops the first and the links skipped in the second; on a list that clashes with nothing it does not throw, the graph stays typed, and each DTN has as many more gateway edges as the list names it |
| `Handlers.DelModules` | server/resourcemanager.cc:203-221 | throws exactly when the list names the gateway's rid; what comes before that is deleted, and the DTNs among it have no gateway edge left |
| `Handlers.AddModulesIsRun` | server/resourcemanager.cc:96-201 | `add_modules` on such a list is the sequence of its joining steps followed by its links, each allowed where it is taken |
| `Handlers.DeleteAllIsRun` | server/resourcemanager.cc:203-221 | `del_modules` is the sequence of its leaving steps up to the gateway's name |
| `Registration.TakeTyped` | server/resourcemanager.cc:96-221 | joining, linking and leaving keep storage-DTN and DTN-gateway edges the only ones, with one link per pair |
| `Registration.GatewayEdgesCount` | server/resourcegraph.cc:368-376 | after any history a DTN has as many gateway edges as it registered since it was last absent, so one if and only if it registered once |
| `Registration.ReRegisteringDuplicates` | server/resourcegraph.cc:172-185 | the history that gives a DTN two gateway edges |
| `Registration.OutListLength` | server/resourcemanager.cc:408-415 | the out list that probing tests has exactly the gateway edges |
| `Handlers.LeaveUndoesJoin` | server/resourcegraph.cc:314-429 | registering an absent DTN with any list of storages and deleting it gives the graph back |
| `SiteShape.StepMeaning` | server/resourcemanager.cc:96-221 | each joining, linking and leaving step changes exactly the nodes and edges it is meant to, with the source's capacities and keys; a second launcher or SDN agent replaces the first |
| `SiteShape.SiteSized` | server/resourcemanager.cc:124-175 | after every history each storage can carry 1000000 and each of its links 40000000000 |
| `SiteShape.ModulesPresent` | server/resourcemanager.cc:96-160 | after `add_modules` on a list that clashes with nothing every module of it is there, and no node or edge is lost |
| `SiteShape.LinksPresent` | server/resourcemanager.cc:162-192 | and a DTN is linked to a storage it names if and only if the site has that storage |
| `Admission.ProbeAdmits` | server/resourcemanager.cc:326-479 | code 1 if and only if a query for that rate would be served without evicting anybody |
| `Admission.ProbeCodes` | server/scheduler.cc:3749-3753 | 4 exactly when the rate exceeds the capacity; 1 or 2 exactly when it could be admitted with no extra job running at the site; 3 exactly when it could not |
| `AdmissionMeaning.ProbeMeaning` | server/resourcemanager.cc:326-479 | each code in terms of capacities less running rates: 1 if and only if the storage has more left than the rate and the narrower edges of its paths, counting those with at least 1000 left, add up to more; 2, 3 and 4 and the throw likewise |
| `AdmissionMeaning.ServedAtOnceIff` | server/resourcemanager.cc:481-561 | a query is answered without evicting anybody if and only if that is so |
| `AdmissionMeaning.ProvisionFills` | server/resourcemanager.cc:519-560 | the allocator fills the paths with at least 1000 left in order, passes over the others, and takes the rest from the first path that has more than is left to ask for |
| `AdmissionMeaning.RefusedHow` | server/resourcemanager.cc:493-515 | a request that cannot be served ends in the probe's throw with nobody evicted, in an empty answer at a storage that lists no job, and otherwise in the throw of the search for a victim after all extra jobs are gone |
| `AdmissionMeaning.EvictionMinimal` | server/resourcemanager.cc:493-515 | before each eviction the request would still have been refused |
| `AdmissionMeaning.SparedAreSmaller` | server/resourcegraph.cc:18-43 | an extra job of the storage that is spared is no larger than any victim |
| `Admission.Largest` | server/resourcegraph.cc:18-43 | a running extra job of greatest rate above -1, or none if there is none |
| `Admission.EvictionOrder` | server/resourcemanager.cc:493-515 | at most as many rounds as running extra jobs; victims are distinct running extra jobs of the storage in non-increasing rate order; nothing else changes |
| `AdmissionRuns.EvictionRaisesSiteRoom` | server/resourcegraph.cc:55-89 | on a safe site an eviction raises the room of every node and edge that carries the job by its rate, and of no other |
| `Admission.EvictsNothingIff` | server/resourcemanager.cc:493-515 | nobody is evicted if and only if the first probe admits or throws, or the storage has no extra job to evict |
| `Admission.DeadEndEvicts` | server/resourcemanager.cc:493-515 | at a storage whose DTNs have all left, every request gets code 3 or 4 and still evicts every extra job there |
| `AdmissionWitness.EvictedInVain` | server/resourcemanager.cc:493-515 | a history of join, join, link, an extra admission and the DTN's leave, after which any request evicts that stream in vain |
| `Admission.EvictionServes` | server/resourcemanager.cc:493-515 | room is found if and only if it would be there with all extra jobs of the storage gone; otherwise they have all been evicted in vain |
| `Admission.ProvisionExact` | server/resourcemanager.cc:519-560 | when the probe's sum exceeds the request, the shares add up to it exactly, on distinct edges, each within both edges of its path |
| `Admission.QueryRefinesProbe` | server/resourcemanager.cc:481-561 | the same for every nonempty answer of `query_path_dtns` with rate at least zero, and the storage has more room than asked for |
| `Admission.QueryServedIff` | server/resourcemanager.cc:481-561 | a nonempty answer if and only if probing returns 1 with all extra jobs of the storage gone |
| `AdmissionMachine.ResourceManager.SumJobs` | server/resourcegraph.cc:55-89 | the loops of `sum_re` and `sum_rb` |
| `AdmissionMachine.ResourceManager.FindLargestReJob` | server/resourcegraph.cc:18-43 | the search loop |
| `AdmissionMachine.ResourceManager.ProbePathRate` | server/resourcemanager.cc:326-479 | the accumulating loops, codes and throws of the probe; code 1 if and only if storage and paths have more room than the rate |
| `AdmissionMachine.ResourceManager.MakeRoom` | server/resourcemanager.cc:489-515 | the eviction loop on the shared jobs |
| `AdmissionMachine.ResourceManager.QueryPathDtns` | server/resourcemanager.cc:481-561 | eviction and greedy loop |
| `AdmissionMachine.ResourceManager.CreateJob` | server/resourcemanager.cc:637-669 | job table, three nodes, two edges, in that order, with each lookup that may throw |
| `AdmissionMachine.ResourceManager.AdmitStream` | server/scheduler.cc:3801-3858 | query, match and create at the source site refine the admission step and keep capacity safety |
| `AdmissionRuns.CreateJobAsWritten` | server/resourcemanager.cc:637-651 | as written it always throws and leaves an unattached running job in the table |
| `AdmissionRuns.CreateJobAsMeant` | server/resourcemanager.cc:637-656 | with the gateway looked up by key, the job is listed on storage, DTN, gateway and the two edges between, whichever edges the lookups find |
| `AdmissionRuns.CreateJobLists` | server/resourcemanager.cc:637-656 | with the gateway looked up by key, the job is last in the table and in the lists of storage, DTN, gateway and the two edges found, and nothing else changes |
| `AdmissionRuns.ProbeThrowsIff` | server/resourcemanager.cc:408-415 | probing throws if and only if the storage itself does not refuse and one of its DTNs does not have exactly one gateway edge |
| `AdmissionRuns.ForkedByHistory` | server/resourcegraph.cc:368-376 | that is, if and only if one of its DTNs did not register exactly once since it was last absent |
| `AdmissionRuns.GrantsGood` | server/resourcemanager.cc:525-557 | each DTN appears once among the shares |
| `AdmissionRuns.AddModulesSafe` | server/resourcemanager.cc:96-201 | a whole `add_modules` on a list that clashes with nothing keeps capacity safety |
| `AdmissionRuns.DelModulesSafe` | server/resourcemanager.cc:203-221 | a whole `del_modules` keeps capacity safety |
| `AdmissionMachine.ResourceManager.AddModules` | server/resourcemanager.cc:96-201 | the manager's own handler does |
| `AdmissionMachine.ResourceManager.DelModules` | server/resourcemanager.cc:203-221 | the manager's own handler does |
| `AdmissionRuns.AdmitTakesExactly` | server/scheduler.cc:3837-3858 | an admission that goes through takes exactly the rate from the storage and each share from both edges of its path |
| `AdmissionRuns.AdmitSafe` | server/scheduler.cc:3801-3858 | one admission, whatever the remote site reports, keeps every storage and edge within capacity |
| `AdmissionRuns.CapacitySafety` | server/resourcegraph.h:82-83 | at every moment of every history of admissions, registrations and deletions, running jobs on every storage and every edge sum to at most its capacity |
| `Matching.MatchAsWritten` | server/resourcemanager.cc:563-635 | on nonempty positive lists of equal total it ends, and returns if and only if no proper prefixes coincide; then every share on both sides is met exactly, in n + m - 1 pairs |
| `Matching.MatchAsMeant` | server/resourcemanager.cc:591-618 | with the `else` it always returns, exactly, in at most n + m - 1 pairs |
| `Matching.NeverOverdrawn` | server/resourcemanager.cc:580-630 | on any lists of nonnegative shares, in either form, no share is overdrawn |
| `Matching.TwoEqualSharesThrow` | server/resourcemanager.cc:591-601 | the smallest input on which it throws |
| `Matching.MatchPathDtns` | server/resourcemanager.cc:563-635 | the loop on the two vectors passed by reference, branch for branch |
| `Matching.GivenByName` | server/resourcemanager.cc:620-621 | when no name is repeated, the rates paired under a DTN's name are those of its place in the list |
| `JsonRoundTrip.RoundTrip` | utils/jsoncpp.cc:4216-4276 | parsing what was written succeeds exactly for values nested at most 1000 deep, and gives the value back with the reader's integer tags; deeper ones throw |
| `JsonRoundTrip.RetagOnlyTags` | utils/jsoncpp.cc:766-772 | what comes back differs from what was sent in integer tags only |
| `JsonReading.ParsedSurvives` | utils/jsoncpp.cc:290-330 | for every text, a value read without reals or the least integer can be written, and reading that gives it back, tags and all |
| `JsonSyntax.AcceptedIff` | utils/jsoncpp.cc:290-723 | a text is accepted with a value if and only if its first tokens spell out a syntax tree of that value at most 1000 high: scalars, comma-separated items, and named fields of which the last of a name counts, with a comma before the closing brace only after an empty name |
| `JsonSyntax.TreeRead` | utils/jsoncpp.cc:332-414 | a text that spells out a sound tree is read as its value, up to the end of the tree, or throws exactly when the tree is too high |
| `JsonGrammar.Symbols` | utils/jsoncpp.cc:432-444 | the six structural characters, whatever follows |
| `JsonGrammar.Words` | utils/jsoncpp.cc:466-477 | the three words, whatever follows |
| `JsonGrammar.NoToken` | utils/jsoncpp.cc:445-490 | no other byte than these, a quote, a digit and a minus starts a token |
| `JsonBlanks.SkippedIff` | utils/jsoncpp.cc:497-506 | a byte in front of a text makes no difference to its first token, whatever the text, if and only if it is a space, a tab, a carriage return or a line feed |
| `JsonBlanks.BlanksDoNotMatter` | utils/jsoncpp.cc:426-506 | for every text, accepted or not, and any blanks put between its tokens, the reader gives the same answer |
| `JsonBlanks.SpacedRoundTrip` | utils/jsoncpp.cc:332-414 | every sendable value written with any blanks between its tokens is read back as what was written |
| `JsonGrammar.InsertMeaning` | utils/jsoncpp.cc:662-670 | of two members with one name the later wins, no other member is touched, and the members stay in key order |
| `JsonGrammar.LessMeaning` | utils/jsoncpp.cc:2626-2637 | keys are in ascending order: a proper prefix, or the smaller byte where two keys first differ |
| `JsonGrammar.NumberRead` | utils/jsoncpp.cc:597-617 | a number with any fraction and exponent, of either case and sign, is one token when something foreign to numbers follows |
| `JsonGrammar.NumberForm` | utils/jsoncpp.cc:597-617 | every number token has that form |
| `JsonReading.TrailingText` | utils/jsoncpp.cc:310-313 | whatever follows a written document, the reader gives the same answer |
| `JsonReading.BraceAfterComma` | utils/jsoncpp.cc:637-645 | after a member and a comma a closing brace is accepted if and only if that member's name is empty |
| `JsonReading.TrailingComma` | utils/jsoncpp.cc:631-685 | as a document: one member and a comma are read exactly when the name is empty |
| `JsonReading.MinusIsZero` | utils/jsoncpp.cc:597-617 | a minus sign not followed by the rest of a number is read as zero |
| `JsonReading.MinusDocument` | utils/jsoncpp.cc:290-330 | the document that is a minus sign is read as zero |
| `JsonReading.LoneMinus` | utils/jsoncpp.cc:735-773 | it is the only text without a digit that is read as an integer |
| `JsonReading.DecodeNumberIff` | utils/jsoncpp.cc:735-773 | on any text: an integer exactly when all after the sign are digits and the number fits |
| `JsonMachine.Deliver` | utils/mqtt.h:88-92 | the writer object and the reader object together complete that round trip |
| `JsonMachine.FastWriter.WriteValue` | utils/jsoncpp.cc:4224-4276 | appends the text of the value to the document |
| `JsonMachine.Reader.ReadValue` | utils/jsoncpp.cc:332-414 | one value at the current position, depth limit included |
| `JsonMachine.Reader.ReadObject` | utils/jsoncpp.cc:631-685 | the member loop, with its test of the previous name |
| `JsonMachine.Reader.ReadArray` | utils/jsoncpp.cc:687-723 | the element loop |
| `JsonMachine.Reader.NextToken` | utils/jsoncpp.cc:426-495 | the tokeniser, which skips exactly the four blanks before a token |
| `JsonMachine.DecodeString` | utils/jsoncpp.cc:808-859 | the unescaping loop |
| `JsonMachine.DecodeCodePoint` | utils/jsoncpp.cc:861-888 | one escape, and a second one after a high surrogate |
| `JsonString.ScanEscaped` | utils/jsoncpp.cc:619-629 | tokenising an escaped string ends at the writer's closing quote |
| `JsonString.UnescapeEscape` | utils/jsoncpp.cc:808-859 | decoding the escaped form of any byte string gives the string |
| `JsonString.PlainEscape` | utils/jsoncpp.cc:4136-4150 | the short cut for strings without special bytes agrees with the loop |
| `JsonString.ValueToQuotedString` | utils/jsoncpp.cc:4136-4197 | short cut and loop give the quoted escaped string |
| `JsonString.Utf8WellFormed` | utils/jsoncpp.cc:104-130 | the bytes written for a code point are its well-formed UTF-8 sequence if it is a scalar value, and are not well-formed otherwise |
| `JsonString.OneEscapeDecodes` | utils/jsoncpp.cc:890-916 | one escape of a scalar value decodes to its UTF-8 form, whatever follows |
| `JsonString.SurrogatePairDecodes` | utils/jsoncpp.cc:861-888 | a surrogate pair decodes to the UTF-8 form of its scalar value, whatever follows |
| `JsonGrammar.AfterHighSurrogate` | utils/jsoncpp.cc:861-888 | after a high surrogate any second escape is taken by its low ten bits, and anything but an escape is refused |
| `JsonGrammar.FourDigits` | utils/jsoncpp.cc:890-916 | four hexadecimal digits of either case, most significant first |
| `JsonGrammar.HexTables` | utils/jsoncpp.cc:903-913 | a byte counts as a hexadecimal digit if and only if it is one, with the value of its place |
| `JsonGrammar.EscapesRead` | utils/jsoncpp.cc:821-855 | the eight two-character escapes of section 7 of RFC 8259 are read before any tail, and a backslash before anything else but `u` is refused |
| `JsonGrammar.EscapesWritten` | utils/jsoncpp.cc:4151-4193 | the seven characters written with such an escape, the control bytes written with four digits, and all others as they are |
| `JsonNumber.DecodeNumberExact` | utils/jsoncpp.cc:735-773 | exact on a digit string if and only if the number fits the limit of its sign, otherwise left to the double reader |
| `JsonNumber.DecodeIntText` | utils/jsoncpp.cc:3987-4006 | decoding inverts writing for every 64-bit integer but the least |
| `JsonNumber.Decode` | utils/jsoncpp.cc:735-773 | the accumulator loop, with no intermediate overflow |
| `JsonNumber.UintToString` | utils/jsoncpp.cc:149-155 | fills the buffer backwards with the digits and a terminator, and never leaves it |
| `JsonNumber.ValueToString` | utils/jsoncpp.cc:3987-4006 | sign and digits fit the same buffer |
| `Checksum.SortedUnique` | utils/checksum.cc:241-241 | there is one sorted permutation, so any sort gives the same list |
| `Checksum.CombinedOrderFree` | utils/checksum.cc:218-280 | the result does not depend on the order in which checksums arrive |
| `Checksum.InputDeterminesChecksums` | utils/checksum.cc:241-255 | with checksums of one length, what is digested determines the multiset of checksums, and conversely |
| `PartitionMeaning.CombinedMeaning` | utils/checksum.cc:241-255 | the checksums go into the digest end to end in ascending order, each as often as it occurs |
| `Texts.AtMostMeaning` | utils/checksum.cc:241-241 | that order: a prefix comes first, else the smaller character where two texts first differ |
| `PartitionMeaning.SumsMeaning` | utils/checksum.cc:348-370 | one checksum per regular file, in the order of the walk |
| `PartitionMeaning.RegularMeaning` | utils/checksum.cc:356-366 | the regular files are those, each as often as the walk meets it |
| `Checksum.ParallelIsSequential` | utils/checksum.cc:348-463 | for every partition and every pattern of thread-limit decisions the parallel form returns the sequential checksum |
| `Partition.FillAccounts` | utils/paths/dirwalker.cc:160-182 | every regular file is in exactly one group or dropped |
| `PartitionMeaning.GroupSizeMeaning` | utils/paths/dirwalker.cc:138-158 | the target is a k-th of the bytes, or the first sum of leading sizes that reaches it within the first k-th of the paths |
| `PartitionMeaning.FillMeaning` | utils/paths/dirwalker.cc:160-182 | the groups one after the other hold the regular files in order; a group is below the target until its last file, begun only when those before have reached it, and files are dropped only when all have |
| `Partition.DroppedIff` | utils/paths/dirwalker.cc:160-182 | files are dropped if and only if one follows after as many chunks as groups have been closed |
| `Partition.ParallelReturnsIff` | utils/checksum.cc:373-463 | the parallel checksum returns if and only if nothing overflows, and then equals the sequential one |
| `Partition.SmallDirectoriesThrow` | utils/paths/dirwalker.cc:138-158 | fewer paths and bytes than threads: the target is zero and any regular file makes it throw |
| `Partition.RoomyDirectoriesReturn` | utils/paths/dirwalker.cc:160-182 | nothing is dropped while what precedes each file is below the groups' joint target |
| `Partition.MakeGroups` | utils/paths/dirwalker.cc:130-182 | target size and filling loops |
| `Partition.ParallelDirectoryChecksum` | utils/checksum.cc:373-463 | the loops over groups, remainders and futures, and the count check |
| `TaskCounter.CounterBound` | utils/checksum.cc:389-445 | under every interleaving of n callers the counter is its start plus the tasks held, never wraps, never exceeds the limit less one plus n, and ends where it started |
| `TaskCounter.BoundAttained` | agent/dtnagent.cc:2019-2064 | for every limit and every n some interleaving reaches that bound |
| `TaskCounter.Callers.Ask` | utils/checksum.cc:397-397 | the check of one caller is the step of the model and keeps the bound |
| `TaskCounter.Callers.Launched` | utils/checksum.cc:399-407 | an increment after a passed check takes the counter up by one, stays within the bound and does not wrap |
| `TaskCounter.Callers.Collected` | utils/checksum.cc:436-445 | a decrement for a task that was counted takes the counter down by one, never below its start |
| `GridMapfile.PushThenGet` | utils/grid-mapfile.cc:222-294 | for a readable file with one section and writable entries: push then get returns exactly the new entries, keeps every line outside and all system entries, and a later push is not affected by an earlier one |
| `GridMapfile.FirstPushReadsIff` | utils/grid-mapfile.cc:227-268 | for any one-line entries, a push that creates the file or appends a section leaves a readable file if and only if every unquoted line is blank, a comment, or starts with a quote and has two pieces |
| `MapfilePush.FirstPushLines` | utils/grid-mapfile.cc:227-271 | into a file without a section, or no file: all old lines in order, then the begin marker, one line per entry in order, and the end marker |
| `MapfilePush.LaterPushLines` | utils/grid-mapfile.cc:273-294 | into a file with a section: the lines outside stay, and one quoted line per entry stands between the markers |
| `MapfilePush.NoEndThrows` | utils/grid-mapfile.cc:275-283 | a begin marker without an end marker after it makes the push throw |
| `MapfilePush.FirstPushKeepsSystemIff` | utils/grid-mapfile.cc:148-217 | a first push of harmless entries keeps the system entries if and only if no quoted entry follows one that reads as an end marker without one that reads as a begin marker between |
| `MapfilePush.StrayEntry` | utils/grid-mapfile.cc:148-184 | two entries, in key order, of which the second is read as a system entry |
| `GridMapfile.OrdinaryPushUnreadable` | utils/grid-mapfile.cc:186-210 | for ordinary DNs that means: if and only if there was nothing to push |
| `GridMapfile.ReadSomeIff` | utils/grid-mapfile.cc:148-217 | a file can be read exactly when no line of it is malformed |
| `GridMapfile.QuotedLine` | utils/grid-mapfile.cc:165-184 | a written entry is one line that parses to the entry |
| `GridMapfile.ReadSectioned` | utils/grid-mapfile.cc:148-217 | system entries come from outside the section, BDE entries from inside |
| `GridMapfile.LinesUnlines` | utils/grid-mapfile.cc:251-257 | lines written are the lines read |
| `GridMapfile.TrimMeaning` | utils/grid-mapfile.cc:48-70 | trimming cuts the spaces off both ends, all of them, and nothing else |
| `MapfilePush.TrimCuts` | utils/grid-mapfile.cc:48-70 | the same with the six characters written out: space and those from tab to carriage return |
| `GridMapfile.PiecesComplete` | utils/grid-mapfile.cc:97-125 | the pieces, end to end, are everything but the delimiters |
| `GridMapfile.EmplaceKeeps` | utils/grid-mapfile.h:13-13 | emplacing keeps key order and adds just that entry |
| `MapfilePush.EmplaceAt` | utils/grid-mapfile.h:13-13 | an entry goes after all names not above its own and before all others, so equal names stay in order of arrival |
| `GridMapfile.TrimLine` | utils/grid-mapfile.cc:48-70 | the two scans |
| `GridMapfile.SplitLine` | utils/grid-mapfile.cc:107-121 | the inner loop of the splitter |
| `GridMapfile.ReadMapfile` | utils/grid-mapfile.cc:129-217 | the read loop, with the lines that throw |
| `GridMapfile.PushMapfile` | utils/grid-mapfile.cc:222-309 | find, erase and insert by index, in the three cases of a file without a section, with one, and none at all |

## Left out

- MongoDB, MQTT, libcurl, OpenSSL and process supervision: foreign calls; store updates are abstract, the digest and the file checksum are parameters.
- Interleaving inside a transfer handler: handlers are atomic steps; the poll reads current documents and not the snapshot it fetched.
- Bootstrap of a transfer job: parsing of sources and destinations, certificates, expansion and grouping; a submission is its list of block sizes.
- Route and address entries on DTNs, sjob `stage` fields, time series, average rates, logging and sleeps: reporting, or not tracked by path id.
- JsonMachine.Reader.NextToken: does not model comments, which the source skips in most places and which here are a bad token; the writer never writes one, so no message carries one.
- JsonMachine.Reader.ReadValue: accepts as a real every number token that is not an integer in range, where the source's conversion to double rejects some (`1e`, `-.`, values out of range), because reals are kept as text here.
- JsonSyntax.AcceptedIff: does not cover texts with comments, nor the number tokens the source's conversion to double rejects, for the same two reasons.
- JsonGrammar.NoToken: counts a slash among the bytes that start no token, where the source starts a comment.
- JSON reals, `StyledWriter`, the stream writers and `OurReader`: a real is kept as its text; where a rejected document stops is not modelled.
- The least 64-bit integer: the reader's negation of it overflows in C++; `JsonNumber.DecodeNumberExact` gives its mathematical value and the round trip excludes it, as the writer cannot negate it either.
- `StorageNode::p_dtn`, queues, names and properties of nodes: not part of consistency or admission.
- `ResourceManager::construct`: it rebuilds the graph from the store with the same node and edge operations; histories start from the empty site of the constructor, with the capacities `add_modules` gives.
- Ties between extra jobs of equal rate: the source walks jobs in guid order, the model in the order of creation.
- `match_path_dtns` on an empty list: the source reads the first elements before any test, so the lists must not be empty.
- Locking of the two sites and the messages between them around an admission: the callers are compiled out; the remote shares are a parameter.
- Rounding of `double`: rates are reals, so exact sums are claims about real arithmetic.
- `DirectoryTree::divide`, the walk itself, and `size_t` overflow of total sizes: a directory is its list of paths; equal sizes may come in any order.
- Renaming and backing up the grid-mapfile: the text is replaced in one step; rename failures are not modelled.
