# Verified model of ScrapeGrid

ScrapeGrid races a single scraper against a fleet of workers and shows the distributed algorithms
behind the fleet. This project models those algorithms in Dafny and proves what they guarantee, for
all inputs, all runs and any number of nodes or workers. `dafny verify dfyconfig.toml` checks it all.

**Raft coordinator** (`Raft*.dfy`, `Subsequences.dfy`). One function per lock-protected block, the
imperative node proved against them, and two cluster models that interleave the blocks of any set of
nodes: a fine one, in which a crashed node may still start an election and a deposed one may still
send heartbeats, and a coarse one, whose runs expand step by step to fine runs. At most one leader
per term (fine), at most one leader in the whole cluster at any moment (coarse), logs as subsequences
of one history, what any requests of one term and a whole heartbeat round do to a node, and the exact
condition under which a new leader holds all of that history. Two promotions can deadlock, for ever,
exactly in clusters of three or more nodes, and only after a crash; a leader without an accepted entry
can be elected exactly in clusters of three or more.

**Scraping** (`Urls`, `Groups`, `Gathering`, `Permutations`, `RoundRobin`, `SingleNode`, `UrlPool`,
`Fleet*`, `MapReduce`, `Race`). The single scraper as a class whose loop is proved to end with
everything scraped and to starve no category. The fleet as objects, and as a state machine over
every interleaving of take, steal, requeue, block, success, report, spawn, stop and kill: no URL is
lost or scraped twice, completion stays possible, the counters are the numbers of their events, and
the summary of a completed race follows from the pool alone.

**Clocks and gossip** (`VectorClocks`, `Gossip*`). Vectors decide causality exactly. A view's keys
are exactly the nodes that a time-respecting chain of exchanges has brought there; no entry of a run
ever becomes older exactly if at each exchange the second node's copies are as new as the first's.

**Indexes and limiters** (`HashRing`, `Bloom`, `TokenBuckets`, `CircuitBreakers`). The ring depends
only on its node set and moves only the keys it must. The Bloom filter is modelled bit by bit. Window
bound and observation independence of the token bucket, and the pacing of the circuit breaker, are
tight.

Where the code changes objects, the model has classes with the same fields and loops; their methods
are proved against functions of the old state, and the theorems are about those functions. A Python
`defaultdict(int)` of counters is a multiset, whose missing members count 0. Hashes are arbitrary
functions; time is an argument that never runs backwards; whether a block fires is open, except that
it cannot at a request count of 0.

Where the code differs from its own documentation, or from the Raft paper (Ongaro and Ousterhout,
extended version, sections 5.2 and 5.4.1), the model follows the code:

- Heartbeats and `_accept_leader` raise the term without clearing `voted_for`; the vote check
  compares log lengths only; `_append_entry` checks neither term nor index (`algorithms/raft.py`).
- `BASE_DELAY` is described as the first cooldown; the first cooldown is twice that, as the failure
  is counted first (`algorithms/circuit_breaker.py:5`, `:45-56`).
- Bloom filters are described as free of false negatives; a merge compares sizes but not hash counts,
  and `Bloom.MergeKeepsMembersIff` says exactly when members stay found.
- The gossip merge lets the second node win, so a newer post can be lost to an older copy
  (`GossipFreshness.NewerPostCanBeLost`). With each entry dated by its post,
  `GossipFreshness.ExchangeKeepsFreshIff` and `GossipFreshness.NeverOlderIff` say exactly when that
  does not happen, for one exchange and for a whole run.
- The pre-pass treats a false positive as a duplicate and drops the URL for good: which URLs
  (`UrlPool.FalsePositiveIsLost`), exactly when none (`UrlPool.NothingLostIff`), and that it
  does happen (`UrlPool.FalsePositivesHappen`).

## Model

| member | source | states |
|---|---|---|
| `RaftNodeObject.RaftNode.constructor` | `algorithms/raft.py:23-45` | a fresh node is a follower at term 0 with an empty log and no vote |
| `RaftNodeObject.RaftNode.SetPeers` | `algorithms/raft.py:47-49` | the peers are exactly the listed nodes with another id, in order and as often as listed; different nodes give different peers |
| `RaftNodeObject.RaftNode.ForceCrash` | `algorithms/raft.py:77-81` | the crash block: down, and follower; nothing else changes |
| `RaftNodeObject.RaftNode.Recover` | `algorithms/raft.py:83-88` | the recovery block: up again, with the role, term, vote and log it had |
| `RaftNodeObject.RaftNode.RequestVote` | `algorithms/raft.py:114-130` | by fields, on every branch: a request that is older or reaches a crashed node changes nothing; a newer one raises the term and frees the vote even when it is refused |
| `RaftNodes.VoteGrantedIff` | `algorithms/raft.py:114-130` | a vote is granted exactly if the node is up, its log is no longer, and the request is newer, or of its term with its vote free or already given to the asker |
| `RaftNodes.OneVotePerTerm` | `algorithms/raft.py:114-130` | of any number of requests of one newer term a live node grants exactly those of one candidate, the first that came with a long enough log; refusals leave no trace in its vote |
| `RaftNodes.SecondRequest` | `algorithms/raft.py:118-130` | after a refused request of a newer term the next one needs only a long enough log; after a granted one also the same candidate |
| `RaftNodeObject.AskInTurn` | `algorithms/raft.py:114-130` | the same of the calls made on a node, one after the other |
| `RaftNodeObject.AskTwice` | `algorithms/raft.py:114-130` | the same of a pair of calls |
| `RaftNodeObject.RaftNode.ReceiveHeartbeat` | `algorithms/raft.py:140-149` | a live node at no higher term takes over term and leader and becomes a follower, with its vote and log as before; any other node keeps everything |
| `RaftNodeObject.RaftNode.AcceptLeader` | `algorithms/raft.py:151-157` | a live node at no higher term follows the leader at its term, with its vote and log as before; any other node keeps everything |
| `RaftNodeObject.RaftNode.AppendEntry` | `algorithms/raft.py:171-175` | a live peer puts whatever it is sent at the end of its log and commits it; a crashed one keeps everything |
| `RaftNodeObject.RaftNode.BecomeCandidate` | `algorithms/raft.py:91-99` | the start block, with the term and log length it captures |
| `RaftNodeObject.RaftNode.PollPeers` | `algorithms/raft.py:101-105` | every peer answers once; the votes are one plus the number of grants |
| `RaftNodeObject.RaftNode.Announce` | `algorithms/raft.py:111-112` | every peer gets the accept call with the current term |
| `RaftNodeObject.RaftNode.StartElection` | `algorithms/raft.py:90-112` | uninterrupted, the node leads afterwards exactly if it and its grants are more than half; the state of every peer is given |
| `RaftNodeObject.ElectAmongHealthy` | `algorithms/raft.py:90-157` | a candidate among live peers at no higher terms and with no longer logs is elected and followed by all |
| `RaftNodeObject.RaftNode.SendHeartbeats` | `algorithms/raft.py:132-138` | every live peer at no higher term ends as a follower of the sender at the current term, the rest of its state as before; crashed peers and peers at a higher term keep everything |
| `RaftNodeObject.RaftNode.AppendLog` | `algorithms/raft.py:159-169` | accepted exactly by a live leader; then the entry is at the end of its log and of every live peer's, each with its commit index there; crashed peers, and all if it is refused, keep everything |
| `RaftNodeObject.CountIsYes` | `algorithms/raft.py:101-105` | the count of votes is the number of peers that granted |
| `RaftRounds.BeatTells` | `algorithms/raft.py:140-149` | in the cluster models one delivery of a heartbeat brings a live node that is not ahead under the sender, with its vote and log, and leaves every other node as it was |
| `RaftRounds.HeartbeatRound` | `algorithms/raft.py:132-149` | from any reachable quiet state an undisturbed round does that to all other nodes at once |
| `RaftRounds.PromotedIff` | `algorithms/raft.py:107-110` | the end of a poll promotes exactly a candidate with more than half of the cluster's votes, and records it |
| `RaftRounds.PromotionTells` | `algorithms/raft.py:107-112` | a coarse promotion brings every live node that is not ahead under the winner |
| `RaftNodes.BlocksAreCalm` | `algorithms/raft.py:77-88` | accepting, heartbeats, crash, recovery and appends never lower a term, never change a vote even when the term rises, and never create a candidate or leader |
| `RaftCore.CalmKeepsCore` | `algorithms/raft.py:140-175` | all those blocks, on any nodes at once, keep the cluster invariant: ballots bind, polls are honest, winners have majorities |
| `RaftCore.StartKeepsCore` | `algorithms/raft.py:91-99` | starting an election keeps it |
| `RaftCore.PollKeepsCore` | `algorithms/raft.py:114-130` | one peer's vote, given to any of several interleaved candidates, keeps it |
| `RaftCore.WinnerIsNew` | `algorithms/raft.py:107-112` | a winning count means a majority of recorded ballots in the winner's term, and nobody was elected in that term before |
| `RaftCore.PromoteKeepsCore` | `algorithms/raft.py:107-112` | a promotion keeps the invariant |
| `RaftFine.StepKeepsCore` | `algorithms/raft.py:51-175` | every step of the fine model keeps the invariant |
| `RaftFine.RunKeepsCore` | `algorithms/raft.py:51-175` | so it holds in every state of every run, for any set of nodes |
| `RaftFine.ElectionSafety` | `algorithms/raft.py:90-157` | Election Safety at fine granularity: no two promotions share a term, two leaders of one term are one node |
| `RaftFine.ElectedByMajority` | `algorithms/raft.py:101-109` | every promotion ever made was backed in its term by more than half of the cluster |
| `RaftFine.FinishedTogether` | `algorithms/raft.py:101-112` | two nodes are both done with winning counts, or promoting, only at different terms, and only if the higher one found the lower one crashed |
| `RaftFine.CrashFreeOneFinishes` | `algorithms/raft.py:101-112` | without crashes at most one node is done with a winning count or promoting |
| `RaftFine.CrashFreePromotionNeverWaits` | `algorithms/raft.py:107-112` | without crashes each remaining call of a promotion can be made: no wait for another promotion's lock |
| `RaftCore.WinnerMissedFew` | `algorithms/raft.py:101-109` | a winner found more than half of the cluster up |
| `RaftDeadlock.TwoFinishedNeedThree` | `algorithms/raft.py:101-112` | two nodes are done with winning counts, or promoting, at the same time only in a cluster of three or more |
| `RaftDeadlock.DeadlockIsForever` | `algorithms/raft.py:107-112` | once two promotions wait for each other's locks, no step of any node ends it |
| `RaftDeadlock.DeadlockReached` | `algorithms/raft.py:90-157` | for any cluster of three or more and any two of its nodes, a run in which neither promotion can make any of its next calls |
| `RaftDeadlock.DeadlockIff` | `algorithms/raft.py:90-157` | two given promotions can deadlock exactly if the cluster has three or more nodes |
| `RaftCoarse.IsFineRun` | `algorithms/raft.py:51-169` | the coarse model refines the fine one: any coarse run, each promotion followed by its calls and each append by its deliveries, one per other node, is a fine run to the same state |
| `RaftSafety.MajorityRefuses` | `algorithms/raft.py:114-130` | a node of the majority behind the last promotion refuses every candidate at or below that term |
| `RaftSafety.WinnerIsNewer` | `algorithms/raft.py:107-112` | a new winner's term is above every earlier promotion's |
| `RaftSafety.StepKeepsLeaderInv` | `algorithms/raft.py:77-157` | every coarse step keeps: only the last elected leads, promotion terms rise, older elections cannot succeed |
| `RaftSafety.AtMostOneLeader` | `algorithms/raft.py:77-157` | under any crashes and recoveries at most one node of the whole cluster is leader at any moment, and promotions have strictly rising terms |
| `RaftSafety.StepKeepsLogInv` | `algorithms/raft.py:77-175` | every coarse step keeps the log invariant below and that a candidate with a complete voter is complete |
| `RaftSafety.LogsFollowHistory` | `algorithms/raft.py:159-175` | every log is a subsequence of the one accepted history, with non-decreasing terms and matching commit index; a node never crashed has all of it |
| `RaftSafety.LeaderCompleteIff` | `algorithms/raft.py:107-130` | a winner becomes leader, and its log is the whole accepted history exactly if one of its voters had missed nothing |
| `RaftSafety.LeaderCompleteness` | `algorithms/raft.py:107-130` | so while a strict majority has missed nothing, every new leader holds the whole history |
| `RaftIncomplete.SmallWinnerComplete` | `algorithms/raft.py:107-130` | with one or two nodes a winner has every vote, and is complete if any node is |
| `RaftIncomplete.IncompleteLeaderIff` | `algorithms/raft.py:90-175` | a leader without an accepted entry can be elected exactly in clusters of three or more nodes |
| `Subsequences.SubsequenceLength` | `algorithms/raft.py:125` | the length-only comparison is enough: a subsequence as long as the whole is the whole |
| `Urls.IpBlockFires` | `simulation.py:50-53` | no block at a request count of 0; open otherwise |
| `SingleNode.Distribute` | `simulation.py:162-165` | one queue per occurring category, each holding that category's URLs in the pool's order; the categories in the order in which the pool first mentions them |
| `SingleNode.SingleNodeScraper.constructor` | `simulation.py:157-180` | the scraper starts with exactly the pool, queued by category ("general" when the domain map does not know the URL), and zero counters |
| `SingleNode.SingleNodeScraper.NextCategory` | `simulation.py:207-218` | the wrapping search finds the first non-empty queue from the cursor on; it fails exactly if all are empty |
| `RoundRobin.WindowCovers` | `simulation.py:209-211` | n steps of the cursor modulo n visit every category |
| `RoundRobin.NoStarvation` | `simulation.py:207-218` | in any run of the loop, blocked or not, a category with work gets an attempt within as many turns as there are categories |
| `SingleNode.SingleNodeScraper.Turn` | `simulation.py:207-262` | a turn serves the first category with work from its own cursor on and hands on the place behind it; the queues, the scraped URL, the status and the block count are given |
| `SingleNode.SingleNodeScraper.Attempt` | `simulation.py:220-262` | a block leaves queues as they were and resets a positive counter; a success moves the head URL to scraped |
| `SingleNode.SingleNodeScraper.Run` | `simulation.py:193-262` | the loop ends; unless stopped it ends done with every URL scraped as often as the pool has it; at most twice the pool's length of attempts in any case; its turns, one after the other, go on where the last one stopped and scrape exactly what it has scraped |
| `SingleNode.ScrapeConserves` | `simulation.py:220-262` | per category, scraped then queued stays the pool's list, in order |
| `SingleNode.ScrapedWithinPool` | `simulation.py:193-262` | nothing is scraped more often than the pool has it, stopped or not |
| `SingleNode.EmptyMeansScraped` | `simulation.py:216-218` | empty queues mean the scraped URLs are the pool, as multisets |
| `UrlPool.Filter` | `simulation.py:815-825` | the pre-pass keeps exactly the URLs of the independent definition, and its counters say how many were kept and dropped |
| `UrlPool.SiftedPool` | `simulation.py:818-823` | the filtered pool has no repeats, keeps the order, and every dropped URL was covered by kept ones |
| `UrlPool.FalsePositiveIsLost` | `simulation.py:818-823` | a first occurrence that the filter reports as seen is not kept, now or later |
| `UrlPool.NothingLostIff` | `simulation.py:818-823` | no URL is lost exactly if no first occurrence is reported as seen |
| `UrlPool.SecondIsLostIff` | `simulation.py:818-823` | of two different URLs the second is lost exactly if the first has all its positions |
| `UrlPool.FalsePositivesHappen` | `simulation.py:818-823` | for every size and hash count there are a hash and a pool that lose a URL |
| `FleetObjects.Distribute` | `simulation.py:532-540` | each shard but the first is its category's URLs in the pool's order; the first one has also those of unknown categories, in the pool's order |
| `FleetRuns.OwnShard` | `simulation.py:532-540` | in the runs of the fleet too, every shard but the first starts with exactly its category's URLs, in order |
| `FleetRuns.FirstShard` | `simulation.py:532-540` | and the first one with its own and those of no shard's category, as often as the pool has them and in its order |
| `FleetObjects.Busiest` | `simulation.py:363-369` | the first of the longest other shards; none exactly if the others are empty |
| `FleetObjects.DistributedWorker.constructor` | `simulation.py:297-344` | a new worker has zero counters and is not running |
| `FleetObjects.DistributedWorker.StartLoop` | `simulation.py:346-349` | starting sets the worker running |
| `FleetObjects.DistributedWorker.StopLoop` | `simulation.py:351-352` | stopping clears the flag and nothing else |
| `FleetObjects.DistributedWorker.KillWorker` | `simulation.py:354-358` | killing sets both flags and nothing else |
| `FleetObjects.DistributedWorker.TakeUrl` | `simulation.py:398-400` | the head of the own shard is taken |
| `FleetObjects.DistributedWorker.StealUrl` | `simulation.py:363-385` | the back of the first of the longest other shards is taken; nothing exactly if the others are empty |
| `FleetObjects.DistributedWorker.NextUrl` | `simulation.py:396-409` | the head of the own shard, else the back of the busiest other one, else nothing, with the whole new state |
| `FleetObjects.DistributedWorker.Handle` | `simulation.py:414-469` | a refused URL is back at the front of the own shard; an admitted one is blocked, after earlier requests, or gives one result |
| `FleetObjects.DistributedWorker.RequeueUrl` | `simulation.py:416-419` | the URL goes to the front of the own shard |
| `FleetObjects.DistributedWorker.RecordBlock` | `simulation.py:432-438` | one block more, the domain's counter back to 0, every other counter as it was |
| `FleetObjects.DistributedWorker.RecordSuccess` | `simulation.py:451-456` | one success and one request more |
| `FleetObjects.DistributedWorker.ReportResult` | `simulation.py:461-469` | the result goes to the end of the store |
| `FleetObjects.DistributedWorker.Scrape` | `simulation.py:430-469` | by fields: a block needs earlier requests, counts one block, clears the domain's counter and puts the URL back in front; a success counts one request and stores exactly one result |
| `FleetObjects.DistributedWorker.Turn` | `simulation.py:388-469` | nothing behind a closed gate; else a URL is obtained exactly if any shard has one, and counted as a block, or as a success with its result, or put back; all of it made of the actions of the state machine |
| `FleetTraces.ReachesConserves` | `simulation.py:387-475` | whatever a worker does alone creates, copies and drops no URL |
| `FleetTraces.RequeueThenTake` | `simulation.py:398-419` | a refused URL is the next one its worker takes, and taking it restores everything |
| `FleetTraces.KilledReportsAtMostOne` | `simulation.py:354-358` | whatever a killed worker still does, it reports at most the URL it is at; back at its loop's test it touches nothing any more |
| `FleetTraces.ExitedIsSilent` | `simulation.py:387` | a worker that has left its loop changes no shard and no result |
| `Fleet.ActConserves` | `simulation.py:363-475` | no single action (take, steal, requeue, block, success, report, kill, stop, ...) creates, copies or drops a URL |
| `FleetRuns.NothingLost` | `simulation.py:354-475` | in every reachable state of any number of interleaved workers: queued + in hand + reported = pool, as multisets |
| `FleetRuns.ExactlyOnce` | `simulation.py:354-475` | from a pool without repeats no URL is reported twice, or reported while queued or in hand |
| `FleetRuns.ExitedHoldNothing` | `simulation.py:388-479` | once all workers have exited, killed or stopped, queued + reported = pool |
| `FleetRuns.CompleteIff` | `simulation.py:387-469` | the results are a permutation of the pool exactly if the shards are empty and no worker holds a URL |
| `FleetProgress.CompletionStaysPossible` | `simulation.py:387-469` | from every reachable state with one live worker some continuation reports the whole pool, whatever was killed before |
| `FleetProgress.CompletionIsNeverLost` | `simulation.py:574-600` | and from every reachable state at all, with every worker killed or gone, as another one can be spawned |
| `FleetProgress.HandCanBeEmptied` | `simulation.py:411-469` | a worker with a URL in hand, even killed, can bring it to an end |
| `FleetProgress.LiveCanGrab` | `simulation.py:363-409` | a live worker can get a URL whenever any shard has one |
| `FleetAccounts.ActBalances` | `simulation.py:430-469` | every action keeps a worker's account: blocks and open requests within successes, successes = stored results + the one about to be stored |
| `FleetAccounts.BlocksNeverExceedSuccesses` | `simulation.py:432-456` | in every reachable state, per worker and for the fleet, blocks never exceed successes; successes are the results and never exceed the pool |
| `FleetAccounts.ResultsAreAccounted` | `simulation.py:461-469` | each worker's success count is the number of its results; every result has its URL's category |
| `FleetEvents.CountersFollowEvents` | `simulation.py:432-456` | over every run: a worker's blocks, successes and steals are the numbers of its block, success and steal events, and each domain counter is the number of its successes there since its last block there |
| `FleetEvents.TotalsFollowEvents` | `simulation.py:432-456` | and the fleet's totals are the numbers of all such events |
| `FleetAccounts.FleetTotals` | `simulation.py:735-740` | the snapshot's totals are the sums over the workers |
| `Race.NoUrlIsScrapedTwice` | `simulation.py:812-823` | from the raw pool through the pre-pass and any fleet run: no URL is in the results twice, and each was in the raw pool |
| `MapReduce.Shuffle` | `simulation.py:122-124` | the groups are the results by category, in order, for exactly the categories that occur |
| `MapReduce.RunMapReduce` | `simulation.py:116-136` | one entry per occurring category, computed from exactly its results |
| `MapReduce.Reduce` | `simulation.py:127-135` | the loop's sums, rounded averages and count are those of the items |
| `MapReduce.StatsAre` | `simulation.py:127-135` | the averages are the numbers that give the sums when taken as often as there are items, then rounded; 0 for no items |
| `MapReduce.OneMoreItem` | `simulation.py:127-134` | each item adds its quality and its words to the sums |
| `MapReduce.MissingReadsAs` | `simulation.py:124-129` | missing keys read as "general" and 0 |
| `MapReduce.OrderDoesNotMatter` | `simulation.py:116-136` | the summary depends only on the multiset of results, so not on the interleaving |
| `FleetSummary.CompleteSummary` | `simulation.py:957-967` | any two complete runs over a pool have the same summary, the one computed from the pool |
| `FleetSummary.CompleteCounts` | `simulation.py:127-131` | and each item count is the number of the pool's URLs in that category |
| `FleetSummary.CompleteWords` | `simulation.py:127-133` | and each word total is that of the pages of those URLs |
| `VectorClocks.VectorClock.constructor` | `algorithms/clocks.py:44-48` | the vector starts at zero |
| `VectorClocks.VectorClock.Tick` | `algorithms/clocks.py:50-54` | the own slot rises by one, a copy is returned |
| `VectorClocks.VectorClock.Send` | `algorithms/clocks.py:56-58` | a send is a tick |
| `VectorClocks.VectorClock.Receive` | `algorithms/clocks.py:60-67` | by slots: the maximum over the common slots, then one more in the own slot |
| `VectorClocks.CompareCommonSlots` | `algorithms/clocks.py:74-87` | comparing uses only the common slots of vectors of different lengths, and swapping the vectors swaps before and after |
| `VectorClocks.OwnSlot` | `algorithms/clocks.py:50-67` | an event's own slot is its position among its process's events |
| `VectorClocks.KnowsIffPast` | `algorithms/clocks.py:50-67` | an event's vector has counted another event exactly if that lies in its causal past |
| `VectorClocks.SlotCountsPast` | `algorithms/clocks.py:50-67` | slot q is the number of process q's events in the causal past, in every run with late, lost or repeated messages |
| `VectorClocks.PastIffPath` | `algorithms/clocks.py:50-67` | the causal past is happens-before by a chain of direct causes |
| `VectorClocks.VectorsFollowPast` | `algorithms/clocks.py:74-80` | one vector is slotwise at most the other exactly if its event is in the other's causal past |
| `VectorClocks.CompareDecidesCausality` | `algorithms/clocks.py:74-87` | compare says equal, before, after, concurrent exactly when the events are the same, ordered one way, the other, or not at all |
| `Gossip.GossipProtocol.constructor` | `algorithms/gossip.py:18-22` | no views, no rounds |
| `Gossip.GossipProtocol.UpdateSelf` | `algorithms/gossip.py:24-31` | the node's own entry is set in its own view, nothing else |
| `Gossip.GossipProtocol.MergeViews` | `algorithms/gossip.py:42-54` | both views become the union, the second node's entries winning |
| `Gossip.ExchangedEntries` | `algorithms/gossip.py:42-54` | entry by entry: of two different nodes the second one's entry wins over the snapshot's, and that over the first one's; other views stay |
| `Gossip.GossipProtocol.Exchange` | `algorithms/gossip.py:33-65` | the merge, one round more, and the last twenty records |
| `Gossip.GossipProtocol.KnownNodes` | `algorithms/gossip.py:67-70` | the node's view, empty if it has none |
| `Gossip.GossipProtocol.KnownAnywhere` | `algorithms/gossip.py:75-77` | the loop collects all nodes that own a view or occur in one |
| `Gossip.GossipProtocol.CountConverged` | `algorithms/gossip.py:79` | the number of views at least as large as expected |
| `Gossip.GossipProtocol.Stats` | `algorithms/gossip.py:72-86` | rounds, number of nodes, the share of views that know all nodes, and the last five exchanges; the share is 1 exactly if there are views and all do |
| `Gossip.CompleteBySize` | `algorithms/gossip.py:78-79` | comparing sizes decides completeness, as every view is a subset of all nodes |
| `Gossip.EntriesWerePosted` | `algorithms/gossip.py:24-54` | every stored value was posted by its node and came along a chain of exchanges at rising times |
| `Gossip.KnownIffReached` | `algorithms/gossip.py:24-70` | a node is known to another exactly if such a chain leads from one of its posts there |
| `GossipFreshness.DatesErase` | `algorithms/gossip.py:24-54` | in every run each stored entry is the value of the post that its date points to |
| `GossipFreshness.ExchangeTakes` | `algorithms/gossip.py:42-54` | at both nodes an exchange leaves the second one's entry if it has one, else the first one's; other views stay |
| `GossipFreshness.ExchangeKeepsFreshIff` | `algorithms/gossip.py:52-54` | an exchange makes no entry of any node older, in any view, exactly if for every node that both know the second one's copy is at least as new |
| `GossipFreshness.SecondSurvives` | `algorithms/gossip.py:52-54` | the second node's entries always survive, at both nodes |
| `GossipFreshness.NeverOlderIff` | `algorithms/gossip.py:24-54` | in a run no entry ever becomes older exactly if each of its exchanges meets that condition |
| `GossipFreshness.OwnEntrySurvivesIff` | `algorithms/gossip.py:52-54` | the first node keeps the value of its own entry exactly if its partner has no other value for it |
| `GossipFreshness.NewerPostCanBeLost` | `algorithms/gossip.py:52-54` | after four operations a node has lost its newer post about itself to an older copy |
| `GossipConvergence.TwoSweepsConverge` | `algorithms/gossip.py:24-54` | for any number of nodes, all posts and two hub sweeps make every view complete, and later exchanges keep that |
| `GossipConvergence.CompleteIsConverged` | `algorithms/gossip.py:72-80` | then every view counts as converged |
| `HashRing.ConsistentHashRing.constructor` | `algorithms/consistent_hash.py:25-29` | an empty ring; replica i of a node lies at the hash of "node:i" |
| `HashRing.ReplicaKeyReads` | `algorithms/consistent_hash.py:37` | the hashed string is the node's name, a colon and the replica's number in decimal |
| `HashRing.ReplicaKeysDiffer` | `algorithms/consistent_hash.py:37` | different replicas, of one node or of two, have different strings |
| `HashRing.NamesByFirstDifference` | `algorithms/consistent_hash.py:38` | of points at one position the one whose name has the smaller first different code point, or is a prefix, comes first |
| `HashRing.ConsistentHashRing.AddNode` | `algorithms/consistent_hash.py:31-39` | the ring gets the node's replicas in order; it stays sorted, projected and exactly the replicas of its nodes |
| `HashRing.ConsistentHashRing.RemoveNode` | `algorithms/consistent_hash.py:41-47` | the node's points go, with the same invariant |
| `HashRing.ConsistentHashRing.GetNode` | `algorithms/consistent_hash.py:49-55` | nothing exactly if there are no points; otherwise the owner of the key's position |
| `HashRing.Insort` | `algorithms/consistent_hash.py:38` | binary insertion gives the result of linear insertion behind equal points |
| `HashRing.BisectLeft` | `algorithms/consistent_hash.py:54` | the first index whose position is not below the key's |
| `HashRing.AddedIsGood` | `algorithms/consistent_hash.py:31-39` | adding keeps the ring sorted and equal, as a multiset, to the replicas of its nodes |
| `HashRing.RemovedIsGood` | `algorithms/consistent_hash.py:41-47` | removing keeps that |
| `HashRing.HistoryIndependence` | `algorithms/consistent_hash.py:31-47` | two histories of additions and removals ending with the same nodes build identical rings |
| `HashRing.FoundIsOwner` | `algorithms/consistent_hash.py:49-55` | bisection with wrap-around finds the least (position, name) at or after the key, or the least of all |
| `HashRing.OwnerIsUnique` | `algorithms/consistent_hash.py:49-55` | a position has one owner, collisions included |
| `HashRing.OwnerIsNext` | `algorithms/consistent_hash.py:49-55` | the owner is the next point clockwise: no point lies between, and every position between has the same owner |
| `HashRing.MinimalRemapping` | `algorithms/consistent_hash.py:31-55` | with more nodes a key keeps its owner unless the new owner is a new node |
| `Bloom.BloomFilter.constructor` | `algorithms/bloom_filter.py:24-41` | no bit set; the bytes reach over every position |
| `Bloom.HashAtIs` | `algorithms/bloom_filter.py:17-20` | a position is the digest of item and seed modulo the size |
| `Bloom.BloomFilter.SetPosition` | `algorithms/bloom_filter.py:47` | one bit of one byte: exactly this position is added |
| `Bloom.BloomFilter.Add` | `algorithms/bloom_filter.py:43-48` | exactly the item's positions are added |
| `Bloom.BloomFilter.Contains` | `algorithms/bloom_filter.py:50-56` | true exactly if all the item's positions are set |
| `Bloom.BloomFilter.Merge` | `algorithms/bloom_filter.py:58-62` | refused on different sizes, otherwise exactly the union of positions |
| `Bloom.BloomFilter.FillRatio` | `algorithms/bloom_filter.py:64-67` | the number of set positions over the size, between 0 and 1 |
| `Bloom.FilledIff` | `algorithms/bloom_filter.py:43-48` | a position is set exactly if some added item has it |
| `Bloom.AddedIsFilled` | `algorithms/bloom_filter.py:50-56` | no false negatives |
| `Bloom.FilledBound` | `algorithms/bloom_filter.py:43-48` | set bits are at most the size, and at most hashes times items |
| `Bloom.OnesOfNext` | `algorithms/bloom_filter.py:64-67` | counting the ones of the bytes counts the set positions |
| `Bloom.PositionsDetermineBytes` | `algorithms/bloom_filter.py:39` | the bytes are determined by the set positions |
| `Bloom.OrderDoesNotMatter` | `algorithms/bloom_filter.py:43-48` | the bytes do not depend on order or repetition of the additions |
| `Bloom.MergeAddsBoth` | `algorithms/bloom_filter.py:58-62` | merging is adding both lists, for equal hash counts |
| `Bloom.MergeKeepsMembersIff` | `algorithms/bloom_filter.py:58-62` | with different hash counts the other's members stay found, for every hash, exactly if this filter takes no more hashes (or has one position) |
| `TokenBuckets.TokenBucket.constructor` | `algorithms/token_bucket.py:15-22` | the bucket starts full |
| `TokenBuckets.TokenBucket.Refill` | `algorithms/token_bucket.py:24-29` | elapsed time times rate is added, capped |
| `TokenBuckets.TokenBucket.Consume` | `algorithms/token_bucket.py:31-40` | refill, then grant and take, or reject |
| `TokenBuckets.TokenBucket.FillLevel` | `algorithms/token_bucket.py:42-47` | the read refills and returns the fraction |
| `TokenBuckets.TokenBucket.Available` | `algorithms/token_bucket.py:49-54` | the read refills and returns the level |
| `TokenBuckets.GrantedIff` | `algorithms/token_bucket.py:31-40` | a request is granted exactly if it fits the capacity and the wait has refilled what was missing |
| `TokenBuckets.CountersCountAnswers` | `algorithms/token_bucket.py:31-40` | over any run the two counters grow by the numbers of granted and rejected requests, and reads count nothing |
| `TokenBuckets.LevelInRange` | `algorithms/token_bucket.py:24-54` | over any run the level stays between 0 and the capacity |
| `TokenBuckets.WindowBound` | `algorithms/token_bucket.py:24-54` | in any window of any run at most capacity + rate times its length is granted |
| `TokenBuckets.WindowBoundIsTight` | `algorithms/token_bucket.py:24-54` | and that bound is reached |
| `TokenBuckets.ReadsChangeNoAnswer` | `algorithms/token_bucket.py:42-54` | any reads inserted anywhere change no answer to any request |
| `CircuitBreakers.CircuitBreaker.constructor` | `algorithms/circuit_breaker.py:18-24` | closed, with zero counts |
| `CircuitBreakers.CircuitBreaker.AllowRequest` | `algorithms/circuit_breaker.py:26-37` | in every state: refused exactly while open before the end of the cooldown; an open circuit that lets through becomes half open, nothing else changes |
| `CircuitBreakers.CircuitBreaker.RecordSuccess` | `algorithms/circuit_breaker.py:39-43` | a success clears the failures and closes a half-open circuit |
| `CircuitBreakers.CircuitBreaker.RecordFailure` | `algorithms/circuit_breaker.py:45-50` | a failure counts, and opens at the threshold |
| `CircuitBreakers.CircuitBreaker.OpenNow` | `algorithms/circuit_breaker.py:52-56` | the cooldown is half a second times two to the number of failures, the exponent at most five |
| `CircuitBreakers.ReopensAfterCooldown` | `algorithms/circuit_breaker.py:26-43` | an open circuit lets a request through exactly from the end of its cooldown, and a success then closes it |
| `CircuitBreakers.GateFollowsLastOpening` | `algorithms/circuit_breaker.py:26-56` | over any timed run and for any threshold: a gate lets its turn through exactly if nothing was opened yet or the last opening's cooldown is over, whatever turns, with or without an attempt, came since |
| `CircuitBreakers.ThroughUntilNextOpening` | `algorithms/circuit_breaker.py:26-37` | once a gate has let a turn through, every later one does until the next opening: half open never refuses |
| `CircuitBreakers.CooldownDoubles` | `algorithms/circuit_breaker.py:52-55` | the cooldowns are half a second, one, two, four, eight, sixteen, and sixteen from then on |
| `CircuitBreakers.OpensAtThreshold` | `algorithms/circuit_breaker.py:45-56` | failures in a row, whenever they come, open a closed circuit exactly with the one that reaches the threshold, and its cooldown runs from there |
| `CircuitBreakers.PlayServes` | `simulation.py:388-453` | a gated turn of the worker keeps: openings lie their cooldowns apart |
| `CircuitBreakers.OpeningsArePaced` | `algorithms/circuit_breaker.py:26-56` | a gated worker's n-th opening comes at least 2^(n-1)-1 seconds after the first for n up to 6, then 31+16(n-6) |
| `CircuitBreakers.PaceIsTight` | `algorithms/circuit_breaker.py:26-56` | a worker that fails at once each time keeps exactly that pace |

## Left out

- Raft quorum commit, Log Matching after a crash, and a truthful `leader_id` at fine granularity: the code does not provide them.
- Raft's own timers and threads: a start-election step may come at any time, also on a node that leads or is crashed in the fine model; heartbeat rounds and appends may there come from any node, which covers every stale test.
- The leader's own half of `append_log` holds no lock in the code; it is one step here, so an entry of another leader between its lines is not modelled.
- Heartbeats carry a commit index that the receiver ignores; the model drops it.
- The order of a node's peer list: polling, announcing and heartbeat loops take their peers in any order.
- SingleNode.SingleNodeScraper.Run: backoff sleeps, dead time, throughput history and the list of block events are not modelled; a stop takes effect between turns, as in the code's loop test.
- FleetObjects.DistributedWorker.StealUrl: runs without other workers in between; in FleetRuns the victim may be any other shard and may have become empty, since the code reads the lengths one after the other.
- FleetRuns.CompleteIff: no claim that the fleet terminates, as idle workers loop until stopped.
- URLs without a host part, on which `_domain_of` raises: the domain is an arbitrary total function.
- The rate limiter and the circuit breaker inside the fleet's runs: the gate and the bucket may answer either way at any time; their own behaviour is in TokenBuckets and CircuitBreakers.
- Lamport and vector stamps of results, the fleet's own wiring of vector clocks (slots modulo the fleet size, ticks only), and `LamportClock`: easy members.
- The autoscaler's thresholds and the ring's choice of a new worker's shard: a worker may be spawned on any shard at any time.
- MapReduce.RunMapReduce: exact real sums and quotients; the rounding to three and one decimals is any function of them.
- MapReduce.Reduce: exact real sums, as above.
- MapReduce.OrderDoesNotMatter: holds for exact sums; the program adds floats, whose last bits can depend on the order.
- FleetSummary.CompleteSummary: the same, for the quality averages; item counts and word totals are integers in the program too.
- Bloom.BloomFilter.constructor: takes bit size and hash count; their sizing from capacity and error rate, and false-positive rates, are not modelled.
- Gossip.GossipProtocol.Exchange: the optional snapshot comes as a map already parsed to integers; malformed entries, on which `int()` raises, are not modelled.
- Gossip.GossipProtocol.Stats: rounding of the convergence to three decimals is not modelled.
- TokenBuckets.WindowBound: real arithmetic, not floating point; rates and requested amounts are non-negative and the clock does not run backwards.
- CircuitBreakers.OpeningsArePaced: threshold one and no `probe`, as the worker uses it.
- HashRing.ConsistentHashRing.GetNode: the hash is any function to non-negative integers; 32 bits and MD5 play no role in the proofs.
- `simulation.py`'s own gossip class, whose rounds exchange nothing.
- `get_nodes`, `ring_snapshot`, status and snapshot methods, `EventLog`, `dashboard.py` and the URL generator: display and input only; the raw pool and the domain map are arbitrary.
