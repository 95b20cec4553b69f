# PacificDB: verified models

This project models the parts of PacificDB that hold their own state machines, tree
structures and codecs, and proves what they promise.

- **B+tree index** (`KeyOrder`, `BTreeStore`, `BTreeEntries`, `BTreeSplits`, `BTreeListing`,
  `BTreeShape`, `BPlusTree`, `BTreeQueries`, `BTreeAnswers`, `BTreeHistory`). The index is a class over heap nodes
  with parent pointers and a doubly linked leaf chain, changed in place. `Valid()` is the whole
  invariant: keys strictly ascending, one more child than keys, separators bounding subtrees, all
  leaves at one depth, exact parent pointers, no full node left, and a leaf chain that is the
  in-order traversal. The proof splits the heap from the reasoning: the class carries a ghost
  `store` of node records, and pure lemmas say what one record-level step does to the invariant.
  Every history of operations answers as a finite map would, and every query returns exactly
  the selected part of that map in ascending key order, although deletion leaves empty leaves
  and stale separators behind. The comparator is any total order, and the order any even number
  `2 * MIN_KEYS`; the code uses 128 and 64.
- **Raft election** (`RaftElection`, `RaftQuorum`, `RaftLogs`). Terms, votes, their durable record
  and the leader flag of any number of nodes, over all interleavings of elections, vote requests,
  stale messages, failed writes and restarts; the index the leader takes to be held by a majority;
  and the log comparison of the voters, which ties later winners to that index.
- **Local engine launcher** (`LocalEngine`, `LauncherOutcomes`). Any number of launchers interleave their file
  system actions and inspections; the lock directory is created and removed atomically, an
  inspection may report anything, any action may fail and any launcher may crash.
- **Workbench summary loader** (`SummaryLoader`, `SummaryHistory`, `WorkbenchPage`). Every synchronous piece of
  code is one event; loads, worker turns, replies, writes, view changes, database switches and the
  boot reply interleave freely, which includes every order the browser can produce. The page class
  performs the events on its fields, and `Page.Replay` carries the results over to them.
- **Query helpers** (`QueryPipeline`, `QueryMeaning`). Filters, the multi-key stable sort and the stage loop,
  with rewrites that preserve the answer in any surrounding pipeline.
- **Scanner and codecs** (`JsonScanner`, `WalFrames`, `VectorRecord`, `JsonPointer`,
  `LittleEndian`).
- **Caches and filters** (`ReadCache`, `BloomFilter`), **evidence machine** (`PowerLoss`,
  `PowerLossVerdicts`),
  **lock-free aggregate** (`RequestTiming`). `Wrappers`, with `FiniteSets`, and `PythonText`
  hold what the components share.

Defects and surprises that the proofs brought out, each with a run or an input and the exact
condition:

- **Two leaders in one term.** No term has two election winners (`RaftElection.ElectionSafety`),
  but the monitor thread raises the leader flag after the election lock is released
  (engine/src/raft_core.cpp:8376-8389). A node whose term has moved on meanwhile then acts as
  leader of a term it did not win; `RaftElection.TwoLeaders` is a run with two acting leaders of
  one term. `RaftElection.GenuineExactly`: a step keeps every acting leader the winner of its term
  if and only if the flag is raised in the term that was won (and a node configured to start as
  leader had won its stored term); in such runs there is one leader per term
  (`RaftElection.OneLeaderPerTerm`). The first condition is a comparison the node could make before
  it raises the flag; the second is about the operator's setting, and nothing a node stores tells
  it whether it won its term.
- **Half counts as a majority.** `computeQuorumIndex` picks the upper median, so for a cluster of
  even size the index may be held by half of the replicas only, down to the leader alone in a
  cluster of two (`RaftQuorum.HalfIsTaken`). It is the greatest index held by a majority if and
  only if the size is odd (`RaftQuorum.MajorityExactly`), or when the node's own address is
  listed among its peers (`RaftQuorum.SelfListed`).
- **A boot reply can bring back stale summaries.** The boot reply sets the database without the
  scope (cli/workbench/app.js:1314). If it overtakes a choice of the user, a write that is reported
  meanwhile is ignored and the old entry is shown again: `SummaryLoader.BootOvertakes` is the run.
  `SummaryLoader.BootIsSafeExactly`: the page stays sound for good if and only if the reply names
  the database in scope, or no entry and no task of the present generation is left. The freshness
  and completeness results are stated for runs with such boot replies; that entries belong to the
  scope, the bound of four requests and that no collection is asked for twice hold in every run.
- **A start lock left behind blocks every later start.** `LocalEngine.AbandonedExactly`: a
  reachable lock is abandoned if and only if it was there from the start, or its creator crashed
  or failed to remove it; from then on nobody spawns (`LocalEngine.CrashBlocksForever`).
  `LocalEngine.CrashLeavesWaiter` is such a run.
- **Spawning on an owned data root.** `LocalEngine.SpawnsExactly`: a launcher can come to spawn on
  an inspection if and only if it saw the port closed and the state neither `healthy_existing` nor
  `starting`; that includes a data root owned by another engine (`LocalEngine.SpawnDespiteOwner`).
- **Inconsistent sort comparator.** `null` and absent values each compare below the other. The
  comparator is consistent on documents with scalar sort values if and only if no two documents are
  decided by `null` against absent (`QueryPipeline.ConsistentExactly`); only then does the language
  promise anything of the sort.
- **A digest that counts as false is not compared.** `PowerLoss.PassDespiteMismatch` is a run that
  passes with unequal digests, one of them the number 0 (or `false`). `PowerLoss.MismatchSeen`:
  unequal digests fail an iteration if and only if neither is such a number.
- A put into a full read cache evicts an entry even when it only replaces the value of a key
  that is already there (`ReadCache.Cache.Put`).
- **A running engine is refused once.** A launcher that has just removed stale files treats a healthy
  engine that appeared meanwhile as an error (cli/src/local-engine.js:379-385);
  `LauncherOutcomes.HealthyReported` shows that this is the only phase in which it does.
- `null` passes `$gte 0` and `$lte 0` although it does not equal 0 (`QueryMeaning.MissingTests`).
- JSON pointers accept signed list indices, which count from the end
  (`JsonPointer.ResolvesOnlyToNodes` covers them).

## Model

| member | source | states |
|---|---|---|
| BPlusTrees.BPlusTree.constructor | engine/include/btree_index.hpp:116-119 | A new index is valid, empty, and shares no node with anything else. |
| BPlusTrees.BPlusTree.Insert | engine/include/btree_index.hpp:179-208 | Keeps the whole tree invariant; the map gains or overwrites this key and nothing else; the height grows by at most one; a packed tree stays packed. |
| BPlusTrees.BPlusTree.Remove | engine/include/btree_index.hpp:210-235 | Keeps the invariant; the map loses this key and nothing else; reports whether the key was there; leaves nodes and height alone. |
| BPlusTrees.BPlusTree.Find | engine/include/btree_index.hpp:237-250 | Returns the map's value for the key, or nothing when the key is absent. |
| BPlusTrees.BPlusTree.Contains | engine/include/btree_index.hpp:252-255 | True exactly when the map has the key. |
| BPlusTrees.BPlusTree.FindLeaf | engine/include/btree_index.hpp:329-342 | Reaches a leaf whose interval of the key space contains the key. |
| BPlusTrees.BPlusTree.SplitLeaf | engine/include/btree_index.hpp:344-378 | From a tree whose only full node is this leaf to a tree without full nodes, same map, height at most one more, new nodes fresh; packed stays packed. |
| BPlusTrees.BPlusTree.InsertInternal | engine/include/btree_index.hpp:380-393 | Given that listing the child here would restore the invariant, restores it and resolves any overflow upwards; terminates by distance to the root. |
| BPlusTrees.BPlusTree.SplitInternal | engine/include/btree_index.hpp:395-426 | The same for a full inner node: middle key moves up, moved children point at the new node. |
| BPlusTrees.BPlusTree.CutOffLeaf | engine/include/btree_index.hpp:345-360 | The heap afterwards is, record by record, the cut store: halves, both chain links, the neighbour's back link, nothing else. |
| BPlusTrees.BPlusTree.CutOffInner | engine/include/btree_index.hpp:396-413 | The heap afterwards is the cut store: keys and children around the middle key, every moved child re-parented, nothing else. |
| BPlusTrees.BPlusTree.Adopt | engine/include/btree_index.hpp:407-410 | Every child of the new node changes its parent link and nothing else. |
| BPlusTrees.BPlusTree.AddRoot | engine/include/btree_index.hpp:368-377 | The heap afterwards is the old one with both halves under a fresh root. |
| BPlusTrees.BPlusTree.LowerBound | engine/include/btree_index.hpp:382-385 | Stops after exactly the keys below the given key. |
| BPlusTrees.BPlusTree.RemoveFromLeaf | engine/include/btree_index.hpp:428-437 | Erases one entry of one leaf; invariant kept, that key gone from the map. |
| BPlusTrees.BPlusTree.Clear | engine/include/btree_index.hpp:507-511 | The index is valid and empty, with one fresh leaf. |
| BPlusTrees.BPlusTree.Height | engine/include/btree_index.hpp:463-474 | The number of levels between the root and the leaves, both included. |
| BTreeEntries.PutKeepsTree | engine/include/btree_index.hpp:197-200 | A new key placed between its neighbours in the leaf of its interval was not in the map, and gives a tree for the extended map in which only this leaf can be full. |
| BTreeEntries.SetKeepsTree | engine/include/btree_index.hpp:191-195 | Overwriting a value in a leaf gives a tree for the map overwritten at that key. |
| BTreeEntries.DropKeepsTree | engine/include/btree_index.hpp:429-436 | Erasing an entry, even the last of its leaf, gives a tree for the map without that key. |
| BTreeEntries.OneOwner | engine/include/btree_index.hpp:330-342 | No key is in the intervals of two leaves. |
| BTreeSplits.SplitLeafKeepsTree | engine/include/btree_index.hpp:345-368 | A full leaf cut in two, with its parent told, is a tree for the same map with the new leaf next in the chain; only the parent can be full. |
| BTreeSplits.SplitInnerKeepsTree | engine/include/btree_index.hpp:396-416 | The same for a full inner node; the leaf chain is unchanged. |
| BTreeSplits.GrowKeepsTree | engine/include/btree_index.hpp:368-377 | A childless-key root placed above the old root keeps the tree. |
| BTreeSplits.SplitRootLeafKeepsTree | engine/include/btree_index.hpp:368-377 | A full root leaf cut in two under a new root is a tree for the same map. |
| BTreeSplits.SplitRootInnerKeepsTree | engine/include/btree_index.hpp:416-425 | The same for a full inner root. |
| BTreeListing.ChainListsMap | engine/include/btree_index.hpp:95-97 | Following the next links from the first leaf lists the keys of the map in ascending order, each once. |
| BTreeListing.ListingUnique | engine/include/btree_index.hpp:258-327 | A set of keys has one ascending listing, so the query answers are determined. |
| BTreeShape.ChainIsInOrder | engine/include/btree_index.hpp:356-360 | The leaf chain is the in-order traversal of the tree. |
| BTreeShape.SplitLeafKeepsPacked | engine/include/btree_index.hpp:345-354 | After a leaf split below a parent every node but the root is still at least half full. |
| BTreeShape.SplitInnerKeepsPacked | engine/include/btree_index.hpp:396-413 | The same after an inner split, which leaves MIN_KEYS and MIN_KEYS - 1 keys (64 and 63). |
| BTreeShape.PackedIsLarge | engine/include/btree_index.hpp:23-24 | A packed tree of height h >= 2 holds at least 2 * MIN_KEYS^(h-1) entries, 2 * 64^(h-1) in the code. |
| BTreeQueries.Range | engine/include/btree_index.hpp:257-285 | Exactly the map's values between the bounds under the two inclusivity flags, in ascending key order, although the walk starts mid-chain and returns early. |
| BTreeQueries.LessThan | engine/include/btree_index.hpp:287-307 | Exactly the values below the key, in ascending key order. |
| BTreeQueries.GreaterThan | engine/include/btree_index.hpp:309-327 | Exactly the values above the key, in ascending key order. |
| BTreeQueries.Scan | engine/include/btree_index.hpp:476-494 | The map's pairs in ascending key order, cut at the limit; all of them for a negative limit. |
| BTreeQueries.LeftMostLeaf | engine/include/btree_index.hpp:445-452 | The first leaf of the chain. |
| BTreeAnswers.RangeMeans | engine/include/btree_index.hpp:257-285 | The answer of a range is the values of exactly the keys from the start to the end, with or without either, ascending. |
| BTreeAnswers.LessThanMeans | engine/include/btree_index.hpp:287-307 | The same for the keys below, with or without the key itself. |
| BTreeAnswers.GreaterThanMeans | engine/include/btree_index.hpp:309-327 | The same for the keys above. |
| BTreeAnswers.ScanMeans | engine/include/btree_index.hpp:476-494 | A scan holds the pairs of the least keys, ascending, as many as the limit allows; every other key of the map is greater than all of them. |
| BTreeHistory.Step | engine/include/btree_index.hpp:180-255 | One operation on the index does and answers what it does and answers on the map. |
| BTreeHistory.Replay | engine/include/btree_index.hpp:180-255 | Every history leaves the index valid, with the map's contents, answers and cardinality; without removals it stays packed. |
| BTreeHistory.BuildOnly | engine/include/btree_index.hpp:23-24 | In every run without removals on a new index, h is the height of the tree, and h >= 2 implies at least 2 * MIN_KEYS^(h-1) entries, 2 * 64^(h-1) in the code. |
| RaftElection.CampaignKeeps | engine/src/raft_core.cpp:8505-8518 | Starting an election keeps every earlier vote remembered in memory, cache and file, whichever write fails. |
| RaftElection.AskKeeps | engine/src/raft_core.cpp:7300-7346 | A vote request keeps every earlier vote remembered; a granted vote is stored first and is the only one of its term. |
| RaftElection.RaiseKeeps | engine/src/raft_core.cpp:2667-2675 | Observing a higher term forgets no vote and ends leadership. |
| RaftElection.StepsDown | engine/src/raft_core.cpp:2667-2675 | A later term is taken over without a vote and ends leadership; contact from the leader of the own term ends leadership; earlier terms change nothing. |
| RaftElection.StepKeepsInv | engine/src/raft_core.cpp:8484-8612 | Every step keeps the election invariant. |
| RaftElection.RunKeepsInv | engine/src/raft_core.cpp:8484-8612 | The invariant holds after every sequence of steps. |
| RaftElection.VotesOnce | engine/src/raft_core.cpp:7330-7343 | No node grants its vote of one term to two candidates, however often it restarts. |
| RaftElection.QuorumsMeet | engine/src/raft_core.cpp:2118-2121 | Two sets of nodes of quorum size share a node. |
| RaftElection.ElectionSafety | engine/src/raft_core.cpp:8484-8612 | No term has two winners, for any number of nodes, under crashes and failed writes. |
| RaftElection.WinnerHasContact | engine/src/raft_core.cpp:8606-8609 | The check against isolated winners never fires. |
| RaftElection.PendingWin | engine/src/raft_core.cpp:8594-8612 | A win that waits to be acted on is a win of the present term if and only if the term has not moved on. |
| RaftElection.GenuineExactly | engine/src/raft_core.cpp:8376-8389 | A step keeps every acting leader the winner of its present term if and only if a win is acted on in its own term and a node started as leader had won its stored term. |
| RaftElection.OneLeaderPerTerm | engine/src/raft_core.cpp:8376-8389 | In runs of such steps no two nodes act as leader of one term. |
| RaftElection.TwoLeaders | engine/src/raft_core.cpp:8376-8389 | A run with two acting leaders of one term. |
| RaftQuorum.ComputeQuorumIndex | engine/src/raft_core.cpp:3852-3868 | The greatest index that (n - 1) / 2 + 1 of the n entries reach. |
| RaftQuorum.GreatestMeans | engine/src/raft_core.cpp:3852-3868 | An index is held by that many exactly when it is not above the result. |
| RaftQuorum.MajorityExactly | engine/src/raft_core.cpp:3852-3868 | For a cluster size, the result is always the greatest index held by a majority if and only if the size is odd. |
| RaftQuorum.HalfIsTaken | engine/src/raft_core.cpp:3852-3868 | For every even size, replicas for which the result is held by half only. |
| RaftQuorum.SelfListed | engine/src/raft_core.cpp:2198-2201 | With the node itself listed anywhere among its peers a nonzero result is the greatest index held by a majority. |
| RaftLogs.StepKeepsLogInv | engine/src/raft_core.cpp:7300-7346 | Every step keeps: one request per candidate and term, every granted vote answers a request that was sent, and the voter's log did not end after the candidate's. |
| RaftLogs.RunKeepsLogInv | engine/src/raft_core.cpp:7300-7346 | That holds after every sequence of events, with logs that grow, are cut or are replaced at any time. |
| RaftLogs.ReachesMeans | engine/src/raft_core.cpp:7332-7334 | The comparison fails exactly against a later last term, or a later index of the same last term. |
| RaftLogs.VoteDecided | engine/src/raft_core.cpp:7300-7346 | A vote is granted if and only if the voter has recovered and fences nothing off, the request is of a later term or of its own and not against its vote, the writes succeed, and its own log does not end later by term and then index. |
| RaftLogs.BallotsAreCast | engine/src/raft_core.cpp:7332-7334 | No vote was ever cast for a candidate with an earlier last term than the voter's, or a smaller last index at the same last term. |
| RaftLogs.WinnerReachesVoters | engine/src/raft_core.cpp:7332-7334 | Every voter of a winner had, when it voted, a log that the log in the winner's request reaches. |
| RaftLogs.LaterWinnerReaches | engine/src/raft_core.cpp:7332-7334 | Once a majority has logs that end at a term and index or later, and cuts none of them below, the log of the winner of every term that opens later ends there or later, by term and then index. |
| RaftLogs.QuorumIndexBinds | engine/src/raft_core.cpp:3852-3868 | The same for the index that computeQuorumIndex reports in a cluster of odd size, with the replicas counted for it as that majority. |
| LocalEngine.StepKeepsInv | cli/src/local-engine.js:350-521 | Every step of every launcher keeps the protocol invariant. |
| LocalEngine.RunKeepsInv | cli/src/local-engine.js:350-521 | The invariant holds in every reachable world, for any number of launchers. |
| LocalEngine.MutualExclusion | cli/src/local-engine.js:389-520 | At most one launcher is between creating and removing the start lock. |
| LocalEngine.EveryEventOrderly | cli/src/local-engine.js:389-520 | In every run only the lock holder spawns, writes metadata or PID, or removes the lock; each spawn is the launcher's first and follows an inspection of its own taken under the lock that saw the port closed, no running engine of its own, and none coming up, in terms of the single observations. |
| LocalEngine.SpawnsSeparated | cli/src/local-engine.js:389-520 | Two spawns are by different launchers, and the first removed the lock in between. |
| LocalEngine.HolderStays | cli/src/local-engine.js:518-520 | The lock stays with its creator until the creator removes it. |
| LocalEngine.SpawnsExactly | cli/src/local-engine.js:409-468 | A run can end in a spawn on given observations if and only if they depend on each other as those of an inspection do, the port is closed, no engine of its own answers and none is coming up, in terms of the single observations. |
| LocalEngine.AbandonedForever | cli/src/local-engine.js:389-407 | From an abandoned lock on, it stays, and no later event is a spawn. |
| LocalEngine.AbandonedExactly | cli/src/local-engine.js:518-520 | A reachable world is abandoned if and only if the lock was there from the start, or its creator crashed or failed to remove it. |
| LocalEngine.CrashAbandons | cli/src/local-engine.js:518-520 | In every reachable world a crash under the lock abandons it. |
| LocalEngine.CrashLeavesWaiter | cli/src/local-engine.js:389-407 | A run of two launchers that ends with the lock abandoned and one of them waiting for it. |
| LocalEngine.CrashBlocksForever | cli/src/local-engine.js:389-407 | Once a launcher has crashed under the lock, no later event of the run is a spawn. |
| LocalEngine.SpawnDespiteOwner | cli/src/local-engine.js:409-468 | Some run spawns after an inspection under the lock that classified the data root as in use. |
| LocalEngine.ClassifyMeans | cli/src/local-engine.js:15-39 | Each state if and only if its observations hold: foreign data root, answering engine of its own, exited child, dead, foreign or starting recorded process, open port, unclaimed machine. |
| LauncherOutcomes.RunningMeans | cli/src/local-engine.js:350-521 | In every run whoever reports a running engine saw in its latest inspection that the protocol answered, no other engine owned the data root and a known identity was its own; it spawned once if it started the engine and never if it found it. |
| LauncherOutcomes.RefusedMeans | cli/src/local-engine.js:350-521 | Whoever is refused has the reason in its latest inspection, or lost its child. |
| LauncherOutcomes.DoorMeans | cli/src/local-engine.js:364-391 | Whoever tries the start lock found the machine unclaimed or the engine coming up, or a foreign process while it saw the start lock. |
| LauncherOutcomes.RemovesOnlyStale | cli/src/local-engine.js:370-377 | The recorded files are removed only by a launcher whose latest inspection found the recorded process dead, and outside the lock the port closed. |
| LauncherOutcomes.LeavesThroughRelease | cli/src/local-engine.js:518-520 | Whatever fails under the lock, the part that removes it is reached, unless the launcher crashes. |
| LauncherOutcomes.HealthyAtOnce | cli/src/local-engine.js:369 | In every run a launcher whose first inspection sees a running engine of its own ends as already running, for good. |
| LauncherOutcomes.HealthyReported | cli/src/local-engine.js:369-384 | A running engine of its own is reported in every phase but one: after stale files were removed it is refused. |
| LauncherOutcomes.FirstInspection | cli/src/local-engine.js:360-385 | What the first inspection decides, in terms of the single observations. |
| LauncherOutcomes.LockedInspection | cli/src/local-engine.js:409-520 | What the inspections under the lock and the exit of the child decide. |
| LauncherOutcomes.DeadlinePasses | cli/src/local-engine.js:404-407 | An engine that is still coming up at the deadline counts as unhealthy. |
| SummaryLoader.RunKeepsBase | cli/workbench/app.js:380-394 | In every run, boot replies of any kind included, entries and current tasks belong to the scope, and tasks are well formed. |
| SummaryLoader.EntriesBelongToScope | cli/workbench/app.js:380-394 | In every run every stored summary belongs to the scope. |
| SummaryLoader.StepKeepsInv | cli/workbench/app.js:380-394 | Every page event keeps the loader invariant, provided a boot reply is safe when it arrives. |
| SummaryLoader.RunKeepsInv | cli/workbench/app.js:778-810 | The loader invariant holds after every run whose boot replies are safe. |
| SummaryLoader.StoredIsFresh | cli/workbench/app.js:778-810 | In every run whose boot replies are safe, a stored summary belongs to the scope, which is the selected database, and was requested for this collection of this database after the last reported write to it. |
| SummaryLoader.AtMostFourInFlight | cli/workbench/app.js:792-802 | Never more than four summary requests are in flight, outdated ones included. |
| SummaryLoader.TaskPersists | cli/workbench/app.js:781-803 | While a task lives its list stays and its cursor only advances; a later task has a later generation. |
| SummaryLoader.AskedOnce | cli/workbench/app.js:792-794 | No task asks about a collection twice. |
| SummaryLoader.SettledIsComplete | cli/workbench/app.js:791-808 | In every run whose boot replies are safe, a task that is still current when it settles has left an entry for every collection of its list. |
| SummaryLoader.BootStep | cli/workbench/app.js:1314 | One boot reply keeps the invariant if and only if it is safe in that sense. |
| SummaryLoader.BootIsSafeExactly | cli/workbench/app.js:1314 | A boot reply leaves the page sound in every continuation if and only if it names the database in scope, or no entry and no task of the present generation is left. |
| SummaryLoader.BootOvertakes | cli/workbench/app.js:1314 | A run in which the page shows an entry that was requested before the last reported write, after a boot reply overtook the choice of a database. |
| SummaryHistory.EntryTellsReply | cli/workbench/app.js:795-799 | In every run a stored entry was brought by a reply to a request for it, and has counts if and only if that reply succeeded. |
| SummaryHistory.EntriesAfterDrops | cli/workbench/app.js:380-387 | In every run a stored entry was asked for after the last refresh and after the scope last changed. |
| SummaryHistory.LoadStarts | cli/workbench/app.js:778-792 | A load starts a task if and only if some collection has no entry: over exactly those, each once, with one worker for each up to four. |
| SummaryHistory.LoadWaits | cli/workbench/app.js:779-784 | Off the overview, without a database or while a task runs, a load starts nothing. |
| SummaryHistory.ListIsLatest | cli/workbench/app.js:344-346 | The list of collections is the last that arrived since the last switch. |
| WorkbenchPage.Page.constructor | cli/workbench/app.js:19 | The page starts in an initial state of the run model. |
| WorkbenchPage.Page.AdoptConnection | cli/workbench/app.js:1314 | Performs the boot reply: the database changes, the scope does not. |
| WorkbenchPage.Page.EnsureSummaryScope | cli/workbench/app.js:380-387 | Drops the entries and starts a generation exactly when the database changed. |
| WorkbenchPage.Page.SwitchDatabase | cli/workbench/app.js:344-346 | Performs the database switch, with the scope brought along. |
| WorkbenchPage.Page.ListCollections | cli/workbench/app.js:436-442 | Performs the arrival of a list of collections. |
| WorkbenchPage.Page.ChangeView | cli/workbench/app.js:190-192 | Performs the view change event. |
| WorkbenchPage.Page.DropSummaries | cli/workbench/app.js:902 | Performs the refresh event. |
| WorkbenchPage.Page.ForgetSummary | cli/workbench/app.js:388-391 | Performs the reported-write event. |
| WorkbenchPage.Page.MissingNames | cli/workbench/app.js:787 | The collections without an entry, in their order. |
| WorkbenchPage.Page.LoadCollectionSummaries | cli/workbench/app.js:778-792 | Performs the load event: nothing off the overview or while a task lives, else one new task over the missing collections. |
| WorkbenchPage.Page.WorkerTurn | cli/workbench/app.js:793-796 | Performs a worker's loop head: ask about the next collection, or return. |
| WorkbenchPage.Page.WorkerReply | cli/workbench/app.js:796-801 | Performs a reply or failure: stored only if the task is still current. |
| WorkbenchPage.Page.SettleTask | cli/workbench/app.js:805-809 | Performs the end of a task. |
| WorkbenchPage.Page.InvalidateSummary | cli/workbench/app.js:388-394 | A write report followed, on the overview of that database, by a load. |
| WorkbenchPage.Page.OpenDatabase | cli/workbench/app.js:343-348 | A switch followed by the change to the explorer. |
| WorkbenchPage.Page.SetCurrentView | cli/workbench/app.js:190-207 | A view change followed, on entering the overview, by a load. |
| WorkbenchPage.Page.Perform | cli/workbench/app.js:380-394 | Any event, performed on the fields. |
| WorkbenchPage.Page.Replay | cli/workbench/app.js:778-810 | After any sequence of events the fields are those of the run; at most four requests wait; with safe boot replies every entry belongs to the selected database and was requested after the last reported write to its collection. |
| QueryPipeline.NullAndAbsentClash | intelligence/queryCapabilities.js:57-62 | The value comparator is antisymmetric if and only if `null` and absent values do not meet. |
| QueryPipeline.PairOrder | intelligence/queryCapabilities.js:57-74 | Two such documents compare consistently if and only if the first key that tells them apart does not find `null` against absent. |
| QueryPipeline.ConsistentExactly | intelligence/queryCapabilities.js:64-74 | On documents with scalar sort values the comparator is antisymmetric and transitive if and only if no two documents are decided by `null` against absent. |
| QueryPipeline.DocOrder | intelligence/queryCapabilities.js:64-74 | On sortable documents the multi-key, direction-signed comparator is a total preorder. |
| QueryPipeline.SortIsStable | intelligence/queryCapabilities.js:64-74 | Wherever the comparator is consistent, the sort is an ordered permutation that keeps the order of ties. |
| QueryPipeline.StableSortUnique | intelligence/queryCapabilities.js:64-74 | Any ordered result that keeps ties is that one, so the sort's result does not depend on the algorithm. |
| QueryPipeline.TiesDecide | intelligence/queryCapabilities.js:64-74 | Two ordered sequences with the same ties are equal. |
| QueryPipeline.FilterOfStableSort | intelligence/queryCapabilities.js:100-113 | Dropping documents from a stable sort leaves a stable sort of the remaining documents. |
| QueryPipeline.BothDemanded | intelligence/queryCapabilities.js:100-113 | A filter whose `$and` lists two filters demands both, with `$and` and `$or` nested to any depth. |
| QueryPipeline.ApplyPipeline | intelligence/queryCapabilities.js:165-186 | The stage loop yields the composition of its stages, the output counts, or the first refusal. |
| QueryPipeline.RunConcat | intelligence/queryCapabilities.js:165-186 | A concatenated pipeline is the second part applied to the answer of the first. |
| QueryPipeline.FailsForGood | intelligence/queryCapabilities.js:180-182 | A refused stage decides the answer whatever follows. |
| QueryPipeline.Rewrite | intelligence/queryCapabilities.js:165-186 | A stretch of stages may be replaced by one with the same answer, in any context. |
| QueryPipeline.SortMatchSwap | intelligence/queryCapabilities.js:64-113 | Wherever the comparator is consistent, sorting then filtering equals filtering then sorting. |
| QueryPipeline.PipelineSortMatch | intelligence/queryCapabilities.js:165-186 | `$sort` and a following `$match` may trade places anywhere in a pipeline where the comparator is consistent. |
| QueryPipeline.PipelineMatchMerge | intelligence/queryCapabilities.js:165-186 | Two `$match` stages in a row equal one whose `$and` lists both filters. |
| QueryMeaning.SortedMeans | intelligence/queryCapabilities.js:57-74 | For every two documents of the sorted answer, under the first key that tells them apart numbers ascend or descend with the key, and a missing value comes first under an ascending key and last under a descending one; no document is lost. |
| QueryMeaning.TiesKeepOrder | intelligence/queryCapabilities.js:64-74 | Documents with the same values under every sort key keep the order they came in. |
| QueryMeaning.NumberTests | intelligence/queryCapabilities.js:80-86 | On a number `$gt`, `$gte`, `$lt`, `$lte`, `$eq` and `$ne` match if and only if the comparison holds. |
| QueryMeaning.MissingTests | intelligence/queryCapabilities.js:80-86 | An absent field passes no comparison; `null` compares as zero and equals no number. |
| QueryMeaning.MembershipTests | intelligence/queryCapabilities.js:87-95 | `$in` asks for one of the listed values, of a list for one of its items; `$nin` is its negation; without a list the first matches nothing and the second everything. |
| QueryMeaning.ConditionTests | intelligence/queryCapabilities.js:76-98 | A literal is `$eq`; several operators on a field are all demanded, none demands nothing. |
| QueryMeaning.OrTests | intelligence/queryCapabilities.js:100-113 | `$or` asks for one of its filters; an empty one and anything but a list match nothing. |
| QueryMeaning.PathSteps | intelligence/queryCapabilities.js:53-55 | Dotted paths descend name by name and stop at what is missing. |
| QueryMeaning.LimitAndSkip | intelligence/queryCapabilities.js:177-178 | `$limit` keeps a prefix of the asked length, at least one and at most the cap, a hundred without a number; `$skip` keeps the matching suffix. |
| QueryMeaning.LimitThenRest | intelligence/queryCapabilities.js:177-178 | Limiting and skipping by the same number takes the documents apart. |
| QueryMeaning.CountAnswers | intelligence/queryCapabilities.js:179 | `$count` leaves one document that holds the number under its name. |
| QueryMeaning.MatchAndProject | intelligence/queryCapabilities.js:174-175 | `$match` keeps exactly the matching documents, `$project` maps each one. |
| QueryMeaning.StageRefusals | intelligence/queryCapabilities.js:172-182 | A stage without an operator is invalid and an unknown one not certified, whatever follows. |
| JsonScanner.FindEnd | cli/src/shell.js:137-152 | The one-pass loop with its three flags finds the end that the character-by-character scan defines. |
| JsonScanner.JsonValues | cli/src/shell.js:132-158 | The outer loop cuts off the requested number of values or refuses as the scan defines. |
| JsonScanner.ReadsJson | cli/src/shell.js:142-152 | A complete JSON value inside the scanned one leaves the scanner's state unchanged, whatever brackets, quotes and escapes it holds. |
| JsonScanner.ValueEnds | cli/src/shell.js:137-152 | An array or object is cut exactly at its own closing bracket, whatever follows. |
| JsonScanner.SplitsExactly | cli/src/shell.js:132-158 | Any arrays and objects written one after the other, with white space between, are cut apart exactly; the remainder is returned trimmed. |
| JsonScanner.EndOfPrefix | cli/src/shell.js:142-152 | A cut text ends where the whole one does, or not at all. |
| JsonScanner.CutShort | cli/src/shell.js:153 | Every proper prefix of an array or object is reported incomplete. |
| JsonScanner.SplitsJsonTexts | cli/src/shell.js:132-158 | The same splitting with any JSON white space between the values. |
| JsonScanner.TrimMeans | cli/src/shell.js:134 | Trimming removes the white space at both ends, all of it, and nothing else. |
| JsonScanner.RequiresValue | cli/src/shell.js:136 | A value is required exactly where a text does not begin with a bracket. |
| ReadCache.Cache.constructor | engine/include/read_cache.hpp:39-40 | A new cache is empty and agrees with the empty history. |
| ReadCache.Cache.Get | engine/include/read_cache.hpp:42-63 | Hits exactly when an unexpired entry is there, and then returns the latest put's value and version, neither invalidated nor expired; hits plus misses is the number of gets. |
| ReadCache.Cache.Put | engine/include/read_cache.hpp:65-79 | Keeps the size at most max(1, maxEntries); the victim, if any, was last used no later than any other entry. |
| ReadCache.Cache.EvictOne | engine/include/read_cache.hpp:107-117 | Removes exactly one entry with the least access time, or nothing from an empty cache. |
| ReadCache.Cache.Invalidate | engine/include/read_cache.hpp:81-85 | Removes this key alone. |
| ReadCache.Cache.InvalidateAll | engine/include/read_cache.hpp:87-90 | Removes every key. |
| ReadCache.LatestIs | engine/include/read_cache.hpp:42-90 | The put at position i is the latest one when nothing after it puts or invalidates its key. |
| ReadCache.LatestFrom | engine/include/read_cache.hpp:42-90 | Conversely, the latest put has such a position. |
| ReadCache.LastTouchIs | engine/include/read_cache.hpp:57-58 | The last touch of a key is its last put or its last hit, by position. |
| BloomFilter.SetBit | engine/include/read_cache.hpp:153 | Or-ing a mask into a byte sets that bit and no other. |
| BloomFilter.HashVectors | engine/include/read_cache.hpp:198-205 | The published FNV-1a values of the empty text and of "a". |
| BloomFilter.KeyInside | engine/include/read_cache.hpp:150-156 | The probes of an added key are among the probes of all added keys. |
| BloomFilter.ProbesSize | engine/include/read_cache.hpp:150-156 | At most one probe per hash function and added key. |
| BloomFilter.Filter.constructor | engine/include/read_cache.hpp:146-147 | A new filter's bits are the probes of no key. |
| BloomFilter.Filter.Mark | engine/include/read_cache.hpp:152-153 | One packed bit is set, the others stay. |
| BloomFilter.Filter.Add | engine/include/read_cache.hpp:150-156 | The packed bits are again exactly the union of the probes of all keys added since the last clear. |
| BloomFilter.Filter.MightContain | engine/include/read_cache.hpp:158-166 | True exactly when the key's probes are among those of the added keys, hence for every added key. |
| BloomFilter.Filter.CountSetBits | engine/include/read_cache.hpp:177-184 | The number of distinct probes, at most one per bit and at most numHashes * itemCount. |
| BloomFilter.Filter.Clear | engine/include/read_cache.hpp:168-171 | Forgets every key. |
| PowerLoss.CheckIteration | scripts/power_loss_harness.py:132-157 | No blocking reason exactly when the iteration is complete with a changed boot; no failure exactly when it does not fail. |
| PowerLoss.CheckHardware | scripts/power_loss_harness.py:103-118 | No reason exactly when all eight fields are there, the cache policy is known and the cut is physical. |
| PowerLoss.CheckHeader | scripts/power_loss_harness.py:85-118 | No reason exactly when the header is complete, its phase supported, its root absolute and its hardware section in order. |
| PowerLoss.ValidateEvidence | scripts/power_loss_harness.py:85-163 | FAIL exactly when a judged iteration fails, else PASS exactly when nothing is open, with reasons exactly when not PASS. |
| PowerLoss.Harness.constructor | scripts/power_loss_harness.py:199-234 | Prepared evidence: blocked, no iterations. |
| PowerLoss.Harness.RunArm | scripts/power_loss_harness.py:237-301 | Accepts and changes the evidence as the arm transition does. |
| PowerLoss.Harness.RunVerify | scripts/power_loss_harness.py:304-333 | Accepts and changes the evidence as the verify transition does, verdict included. |
| PowerLoss.ApplyKeepsInv | scripts/power_loss_harness.py:237-333 | Every command keeps the invariant and every verified iteration. |
| PowerLoss.RunKeepsInv | scripts/power_loss_harness.py:199-333 | The invariant holds after every sequence of commands. |
| PowerLoss.VerifiedNeverChanges | scripts/power_loss_harness.py:237-333 | Iterations never exceed the required number, and a verified one never changes. |
| PowerLoss.FailureIsFinal | scripts/power_loss_harness.py:158-163 | After a FAIL verdict every later verdict is FAIL. |
| PowerLoss.PassMeans | scripts/power_loss_harness.py:132-163 | PASS implies a complete header and, for every required iteration, a changed boot ID, a PASS recovery, and equal digests unless one is a number that counts as false. |
| PowerLoss.MismatchSeen | scripts/power_loss_harness.py:153-156 | Unequal digests fail an iteration if and only if neither is a number that counts as false. |
| PowerLoss.PassDespiteMismatch | scripts/power_loss_harness.py:153-156 | A run that passes with unequal digests, one of them zero. |
| PowerLossVerdicts.FailsExactly | scripts/power_loss_harness.py:150-163 | Whenever a verdict stands, it is FAIL if and only if some accepted verify command reported a recovery that is neither empty nor PASS, or two unequal digests that do not count as false. |
| PowerLossVerdicts.GoodRunPasses | scripts/power_loss_harness.py:132-163 | A run with a complete header whose accepted commands leave nothing open passes as soon as every required iteration is verified. |
| PowerLossVerdicts.GoodRoundsPass | scripts/power_loss_harness.py:237-333 | An operator who carries out the required rounds in order gets PASS. |
| PowerLossVerdicts.ForbiddenWorkload | scripts/power_loss_harness.py:245-249 | A power-control command is refused and leaves the evidence alone. |
| PowerLossVerdicts.UnknownPolicies | scripts/power_loss_harness.py:114-116 | A cache policy that is blank or says that it is not known, in other cases and behind white space, is not one. |
| PowerLossVerdicts.SomeHeader | scripts/power_loss_harness.py:85-118 | A header that is in order exists. |
| PythonText.AsciiSpaces | scripts/power_loss_harness.py:81-82 | Which ASCII characters count as white space. |
| RequestTiming.StepKeepsInv | engine/include/request_timing.hpp:76-89 | Every atomic step keeps the invariant and does not lower the maximum. |
| RequestTiming.RunKeepsInv | engine/include/request_timing.hpp:76-89 | The invariant holds under every interleaving. |
| RequestTiming.MaxIsMonotone | engine/include/request_timing.hpp:85-88 | The maximum never goes down. |
| RequestTiming.MaxIsAccounted | engine/include/request_timing.hpp:85-88 | The maximum is 0 or some call's value, and at least the value of every returned call. |
| RequestTiming.QuietIsExact | engine/include/request_timing.hpp:76-89 | When every call has returned, count, total and maximum are exact, the first two modulo 2^64. |
| LittleEndian.ReadsBack | engine/fuzz/wal_fuzz.cpp:13-18 | Reading four little-endian bytes inverts writing them. |
| LittleEndian.ReadWeighs | engine/fuzz/wal_fuzz.cpp:13-18 | Byte i weighs 256^i. |
| LittleEndian.EncodeWeighs | engine/include/native_vector_record.hpp:20 | The same of the bytes written. |
| WalFrames.WalkBinaryWal | engine/fuzz/wal_fuzz.cpp:20-34 | The loop visits the frames that the recursive walk defines, at most 128, and never reads past the end. |
| WalFrames.TornTail | engine/fuzz/wal_fuzz.cpp:20-34 | On every prefix of an encoded log the walk visits exactly the frames wholly inside it, unchanged, up to its limit. |
| WalFrames.WholeIsMost | engine/fuzz/wal_fuzz.cpp:24-34 | That number of frames fits the prefix and one more does not. |
| VectorRecord.Pack | engine/include/native_vector_record.hpp:13-24 | Accepts exactly 1 byte to 16 MiB; the packed size is nine plus the shorter of raw and compressed; unpacking gives the record back under a lossless codec. |
| VectorRecord.Unpack | engine/include/native_vector_record.hpp:25-33 | Whatever is accepted has the magic word, a flag of 0 or 1 and exactly the header's length in range; an uncompressed envelope is the only encoding of its record. |
| VectorRecord.EncodesBack | engine/include/native_vector_record.hpp:27 | Writing the length that four bytes spell gives the four bytes. |
| JsonPointer.TwoPasses | scripts/validate_operations.py:74 | The two replacement passes, in the code's order, decode every token as one simultaneous pass does. |
| JsonPointer.OtherOrderFails | scripts/validate_operations.py:74 | The passes in the other order turn the escaped form of `~1` into a slash. |
| JsonPointer.DecodesEscape | scripts/validate_operations.py:74 | Decoding inverts escaping for every name. |
| JsonPointer.SplitsPointer | scripts/validate_operations.py:73 | Splitting a pointer at its slashes gives back the escaped names. |
| JsonPointer.ParsesDecimal | scripts/validate_operations.py:76 | Reading a canonical index gives the index, although white space, signs, underscores and other decimal digits are accepted too. |
| JsonPointer.Resolve | scripts/validate_operations.py:67-79 | The loop subscripts by the decoded tokens in turn, with the code's errors. |
| JsonPointer.PointerFollowsNames | scripts/validate_operations.py:67-79 | The escaped pointer of any names subscripts the document by exactly those names, in success and in failure. |
| JsonPointer.PointerReachesPath | scripts/validate_operations.py:67-79 | Every path of keys and in-range indices is reached by its escaped pointer. |
| JsonPointer.ResolvesOnlyToNodes | scripts/validate_operations.py:67-79 | Whatever pointer resolves reaches a node of the document, which its canonical pointer reaches too. |
| JsonPointer.FromTheEnd | scripts/validate_operations.py:75-76 | A negative index counts from the end of a list. |
| JsonPointer.AcceptsSignAndSpace | scripts/validate_operations.py:76 | A sign and white space before an index are accepted. |
| JsonPointer.AcceptsUnderscore | scripts/validate_operations.py:76 | An underscore is accepted between digits and not before them. |
| JsonPointer.Refusals | scripts/validate_operations.py:68-79 | Which error a missing key, an index out of range, a malformed index, a scalar and a pointer without a slash give. |

## Left out

- Raft log replication, snapshots and commit beyond the quorum index, the LSM tree, WAL writer, manifest, recovery manager, task queues, HNSW and lexical indexes and the index manager: outside this model.
- RaftElection: terms are unbounded, every node knows the same members and lists each of them once, and a damaged consensus file or a return to the older term and vote files is not modelled; a voter's lease and recovery are given per request.
- RaftLogs: a log is the term and index of its last entry; the entries themselves and the replication that sends them are outside this model, so that the counted replicas keep their logs is a condition of LaterWinnerReaches and not a result.
- B+tree `mutex_` is left out, and `prefixSearch`, `scanReverse`, `toJson` and `fromJson` have no body.
- B+tree `bulkLoad`: as written it holds the mutex and calls `insert`, which locks the same non-recursive mutex.
- B+tree weak pointers: parent links are modelled as plain references, and node reclamation is not modelled.
- Launcher early returns (TLS, remote host, no auto-start), sockets, process queries and file contents; an inspection is an arbitrary record of its observations. Stale PID and metadata files are also removed before the lock is taken, and no claim says otherwise.
- Workbench rendering, requests and the rest of the UI; failures inside rendering are not modelled.
- SummaryLoader: lists of collections are taken to name each collection once, as the server sends them.
- QueryPipeline: scalars stand for one totally ordered type; JavaScript's mixed-type comparison, strings' own properties and the identity of arrays and objects are not modelled, and `$project` is an arbitrary function of a document.
- QueryPipeline.SortIsStable: the language leaves the order open where the comparator is inconsistent, so nothing is stated there; array and object sort values are not modelled.
- JsonScanner: parsing of the cut text into a value; the texts themselves are compared.
- ReadCache: counters are unbounded, the clock is a parameter, and the mutex is left out.
- BloomFilter: floating-point sizing in the constructor (bit and hash counts are given, at least 64 and 1 to 16) and the fill ratio.
- PowerLoss: file system, subprocess and hashing work; lists and objects in place of scalars, on which the membership tests raise, and an evidence file without a list of iterations.
- RequestTiming: the per-request context, averages and export.
- VectorRecord: MessagePack bytes are the record, and LZ4 is a pair of functions assumed lossless where the contract says so.
- WalFrames: what the fuzz target does with a payload, and the integrity-record branch.
- JsonPointer: the interpreter's cap on the number of digits of an integer.
- Prometheus export, metrics formatting, benchmark, packaging and report scripts, command-line handling and natural-language queries: outside this model.
