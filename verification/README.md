# A verified model of the data-centre network simulator

The repository simulates a data-centre network with ns-3 (`ns3/scratch/DCN.cc`) and replays the packets of a
run in a browser (`frontend/app/page.tsx`). Simulator and browser share no code: each numbers the nodes, builds
the links, searches for shortest paths and sizes the queues for itself, and the only thing that passes between
them is one text file per link. This project models both sides and proves that they compute the right things
and the same things. It also covers three helpers of the ns-3 tree that hold a real protocol or algorithm: the
test runner's worker pool, the load order of the Python bindings, and the statistics of a benchmark.

## How it is organised

* **Shortest paths.** `Graphs` defines distances by walks, with no algorithm in sight; `Bfs` proves both
  breadth-first searches against it on every graph, and `HopTable` proves the simulator's two tables against a
  statement about shortest walks.
* **The networks.** `DcnTopo` holds the simulator's numbering and links; `FatTree` and `TwoTier` prove the hop
  tables' closed forms for every size, degenerate sizes included.
* **The browser's copy.** `FrontendIds`, `FrontendTopology`, `FrontendTwoTier` and `Capacity` hold the string
  ids, the builders and the capacity table; `Network` puts both programs side by side on one configuration.
* **From trace to view.** `Traces` is the state machine of the trace callbacks, `Csv` the files, `QueueSeries`
  and `QueueGraph` the queue graph, `Flights` the packets in flight, `Playback` the animation cursors, and `EndToEnd` joins them: whatever a run
  logs, read back, meets every assumption that graph and playback make, and the two show the same queue.
* **Traffic.** `SendLoop` is the application that generates messages and hands them to sockets.
* **Helpers of the ns-3 tree.** `WorkerPool`, `ModuleOrder`, `Welford`.
* `Arith`, `Lists`, `Text` and `Sorting` hold what several of these need.

Code that changes things in place is modelled in place: the searches, builders and sweeps are methods with
loops, and the logger, trace sinks, cursors, application and sorter are classes. Each is proved against a
specification, and what matters about the specification is proved as lemmas. The worker pool is a state machine
over the steps of its threads, so that every interleaving is a run. Random choices, clock readings, what a
socket accepts and how a job ends are arbitrary inputs.

## What the proofs found

* The simulator's capacity clamp at 2^32 - 1 bytes has no counterpart in the browser: the two agree on a link
  exactly when its round trip is below 2^32 bytes (`Capacity.CapacitiesAgree`, `FrontendTopology.BytesAgree`);
  `Capacity.CapacitiesDiffer` gives a configuration in which they do not.
* The browser's two-layer builder replaces a count of 0 by 1, the simulator does not: the tables agree exactly
  when all three counts are at least 1 (`Network.TwoTierOnBothSides`). The simulator takes a count of 0 from its
  command line; the browser's form never sends one, because it raises every number to its minimum
  (frontend/components/TopologyWizard.tsx:519).
* The trace sinks use dequeue time 0 for "not dequeued", so a packet that leaves its queue at time 0 and is
  received is never logged (`Traces.DequeuedAtZero`). With a clock that does not run backwards, a packet has a
  row exactly when it went through enqueue, dequeue at a time other than 0, and receive, in this order
  (`Traces.LoggedWhenPassed`).
* A pool without workers waits for ever as soon as there is a job; with one worker or more it never does
  (`WorkerPool.StuckWithoutWorkers`, `WorkerPool.NeverStuck`). It takes a negative `--jobs` to get there: 0 means
  all processors (ns3/test.py:1612-1617).
* An interrupt does not stop a job that is already running. A worker looks at the flag once, before it runs a
  job, so a return code, even one that the interrupt itself caused, is collected and counted as the test's own
  (`WorkerPool.RunningJobOutlivesInterrupt`); a result is marked as a break exactly if its worker's look at the
  flag came after the interrupt (`WorkerPool.ResultsAreEarned`).
* The playback's list of packets in flight is independent of the frames shown before if and only if no packet id
  is ever ahead of itself: by no time has it arrived more often than it was dequeued
  (`Flights.TracelessIffNeverAhead`). Ids may repeat; it is enough that no packet arrives before it is dequeued,
  which holds of the simulator's files (`EndToEnd.ViewIsSound`). If an id is ahead at some frame, a packet is
  still on the screen when everything has arrived, while a direct seek shows none (`Flights.Trace`,
  `Flights.NothingSought`).
* The module sort succeeds exactly when the dependency map is closed over its keys and no dependency chain is
  longer than the recursion depth allows; with as many levels as there are modules, that is exactly when the map
  is closed and acyclic (`ModuleOrder.SortToDependencies`). With a cycle no depth suffices.
* `ns3/test.py` drops an interrupted result without counting it (ns3/test.py:1966-1967). The model's
  `interrupted` tally counts those drops, so that the counts can be shown to add up.

## Model

| member | source | states |
|---|---|---|
| Bfs.Adjacency | ns3/scratch/DCN.cc:438-450 | the neighbour lists contain v at u exactly when some link joins the two, in either direction, and both are in range |
| Bfs.ListedInOrder | ns3/scratch/DCN.cc:438-450 | each list names the neighbours in the order in which the links name them |
| Bfs.BuildAdjacency | ns3/scratch/DCN.cc:438-450 | the loop over the links builds exactly those lists |
| Bfs.Distances | ns3/scratch/DCN.cc:401-419 | on every graph the queue-based search terminates and fills in, for each node, the length of a shortest walk from the source, -1 exactly where there is no walk |
| Bfs.DistancesByHead | frontend/app/page.tsx:482-494 | the browser's head-index search computes the same distances on every graph |
| Bfs.LabelNeighbour | ns3/scratch/DCN.cc:472-481 | labelling a neighbour and queueing it keeps the frontier invariant: queued distances never decrease and span at most two consecutive values |
| Bfs.EndScan | ns3/scratch/DCN.cc:470-481 | once a node's neighbours have been scanned, it is settled and the frontier invariant holds for the rest of the queue |
| Bfs.Exhausted | ns3/scratch/DCN.cc:470-482 | an empty queue means that every label is the distance and every unlabelled node is unreachable |
| Graphs.LevelsAreDistances | ns3/scratch/DCN.cc:464-482 | a table that is 0 at the source alone, rises by at most 1 along links and reaches each level from the one below is the table of shortest-walk lengths |
| Graphs.DistSymmetric | ns3/scratch/DCN.cc:396-397 | because links go both ways, the distance from u to v is that from v to u |
| Graphs.RelabelDist | frontend/app/page.tsx:477-494 | distances survive any renaming of the nodes that carries links to links |
| Bfs.NeighboursOnce | ns3/scratch/DCN.cc:438-450 | if no two links are the same in either direction and none is a loop, no neighbour is listed twice |
| HopTable.KeyHalves | ns3/scratch/DCN.cc:432-436 | the upper half of a packed key is the source, the lower half the target |
| HopTable.KeysAreInjective | ns3/scratch/DCN.cc:432-436 | on 32-bit target ids two directed links have the same packed key only if they are the same link |
| HopTable.FirstHopTest | ns3/scratch/DCN.cc:494-501 | the comparison of two distances holds exactly when some shortest walk to the destination starts with the link |
| HopTable.AllDistances | ns3/scratch/DCN.cc:462-482 | one row of shortest-walk lengths per node |
| HopTable.LongestDownstream | ns3/scratch/DCN.cc:488-502 | the scan finds the largest distance to a host that a shortest walk starting with the link serves, and at least 1 |
| HopTable.ComputeMaxDownstreamHostHopsPerDirectedLink | ns3/scratch/DCN.cc:452-508 | for any link list the table has one entry per directed link and no other key, each the longest shortest walk to a host that can start on that link |
| HopTable.ComputeMaxHostToHostHops | ns3/scratch/DCN.cc:385-430 | the result is the largest shortest-walk length between two hosts, and at least 1; also with fewer than two hosts and with unreachable hosts |
| HopTable.DiameterIsLargestHostEntry | ns3/scratch/DCN.cc:385-508 | on any graph the host-to-host maximum bounds every table entry of a link that leaves a host and, if above 1, is one of them |
| HopTable.LongestViaUnique | ns3/scratch/DCN.cc:484-505 | a directed link has only one correct entry |
| HopTable.RelabelLongestVia | frontend/app/page.tsx:504-523 | a renaming that matches links and hosts carries every correct entry over |
| DcnTopo.FatTreeSizes | ns3/scratch/DCN.cc:534-568 | with k = 2 * half there are 2 half^3 hosts, 2 half^2 ToR and aggregation switches each and half^2 cores, and the divisions lose nothing |
| DcnTopo.IdThenPlace | ns3/scratch/DCN.cc:570-592 | each position's id is below the total, has the node kind of that position and leads back to it: the four id functions are injective with disjoint ranges |
| DcnTopo.PlaceThenId | ns3/scratch/DCN.cc:570-592 | every number below the total is the id of a position, so the ranges tile it; hosts come first |
| DcnTopo.HostLinks | ns3/scratch/DCN.cc:602-608 | the first nested loops list one link per host, from the host to its own ToR, in order |
| DcnTopo.TorLinks | ns3/scratch/DCN.cc:610-613 | the second nested loops list every ToR with every aggregation switch of its pod |
| DcnTopo.AggLinks | ns3/scratch/DCN.cc:615-618 | the third nested loops list every aggregation switch with every core of its group |
| DcnTopo.BuildTwoTierLinks | ns3/scratch/DCN.cc:620-634 | the list, in order: ToR by ToR the links from its block of hosts, then those to all aggregation switches |
| DcnTopo.TwoTierMembers | ns3/scratch/DCN.cc:620-634 | the links of that list are exactly: each host with the ToR of its block, each ToR with each aggregation switch |
| DcnTopo.TwoTierLinksDistinct | ns3/scratch/DCN.cc:620-634 | no link of it is listed twice, in either direction |
| DcnTopo.SingleTorLinks | ns3/scratch/DCN.cc:635-641 | the single-ToR list is the two-layer list of one ToR and no aggregation switch |
| DcnTopo.BuildLinks | ns3/scratch/DCN.cc:594-643 | the exact link list of each of the three topologies |
| FatTree.JoinedIffNeighbours | ns3/scratch/DCN.cc:602-619 | two ids are joined by the list exactly when their positions are neighbours in the tree |
| FatTree.LinksDistinct | ns3/scratch/DCN.cc:602-619 | no link is listed twice, in either direction, so there are 3k^3/4 different links |
| FatTree.Regular | ns3/scratch/DCN.cc:438-619 | in the neighbour lists of the built links a host has one neighbour and every switch k, all different and exactly the nodes next to it in the tree; each core's list has exactly one switch of each pod, the aggregation switch of its group |
| FatTree.HostDistances | ns3/scratch/DCN.cc:464-482 | the distance of every node from every host, by their positions |
| FatTree.TableEntry | ns3/scratch/DCN.cc:484-505 | the correct entry of every directed link, by the kinds of its ends |
| FatTree.FatTreeTable | ns3/scratch/DCN.cc:452-508 | for every even k >= 2 the computed table is host to ToR 6, ToR to aggregation 5, aggregation to core 4, core to aggregation 3, aggregation to ToR 2, ToR to host 1 |
| FatTree.FatTreeDiameter | ns3/scratch/DCN.cc:385-430 | for every even k >= 2 the host-to-host maximum is 6 |
| TwoTier.AdjacencyIsTwoTier | ns3/scratch/DCN.cc:620-641 | the neighbour lists of one- and two-layer topologies |
| TwoTier.HostDistances | ns3/scratch/DCN.cc:464-482 | the distance of every node from every host, -1 between ToRs when there is no aggregation switch |
| TwoTier.TwoTierTable | ns3/scratch/DCN.cc:452-508 | for all counts: 4, 3, 2, 1 with two ToRs, an aggregation switch and servers, and the exact entries of every degenerate case and of the single-ToR tree |
| TwoTier.TwoTierDiameter | ns3/scratch/DCN.cc:385-430 | the host-to-host maximum for all counts: 4, 2 or 1 |
| Text.DecimalRoundTrip | frontend/app/page.tsx:421-435 | a number's decimal numeral is a non-empty digit string of its own value, and only 0 starts with a zero |
| Text.SomeNumerals | frontend/app/page.tsx:529-529 | numerals as they are written: 0, 7, 90, 128 |
| Text.LinkNameReadsBack | frontend/app/page.tsx:411-418 | a link's name, split at its dash, gives two numerals: the link's source first, then its target |
| Text.LinkNameInjective | frontend/app/page.tsx:529-529 | two directed links have the same "from-to" name only if they are the same link |
| FrontendIds.PodNameSplits | frontend/app/page.tsx:421-435 | a switch id of a pod, split at its dashes, is the word pod, the pod, the layer and the index |
| FrontendIds.HostNameSplits | frontend/app/page.tsx:421-435 | a host id, split at its dashes, is pod, the pod, host, the ToR and the position |
| FrontendIds.NumericRoundTrip | frontend/app/page.tsx:388-435 | for every even k and every node number, translating it to a string id and back gives the number |
| FrontendIds.SvgRoundTrip | frontend/app/page.tsx:388-435 | every id the fat-tree builder emits, translated to a number and back, is the same string |
| FrontendIds.NameToId | frontend/app/page.tsx:421-435 | the browser's number for a position's string id is the simulator's id of that position |
| FrontendIds.PatternsExclusive | frontend/app/page.tsx:421-435 | no string matches two of the four id patterns, so their order does not matter |
| FrontendIds.TwoTierRoundTrip | frontend/app/page.tsx:765-802 | the two-layer ids, likewise: number to string and back is the identity |
| Capacity.RateIsOfLayer | ns3/scratch/DCN.cc:657-677 | a link between neighbouring layers has its layer's rate in both directions and in both programs |
| Capacity.RateOtherwise | frontend/app/page.tsx:536-556 | any other link gets the server rate in the simulator and the slowest rate in the browser |
| Capacity.SlowestIsLeast | frontend/components/TopologyWizard.tsx:166-173 | the slowest rate is the least of the rates of the layers the configuration has |
| Capacity.QueueHoldsRoundTrip | ns3/scratch/DCN.cc:510-519 | a queue holds one round trip's worth of bytes rounded down, but at least 1 and at most 2^32 - 1; the browser's figure is the same without the upper bound |
| Capacity.CapacitiesAgree | frontend/app/page.tsx:525-529 | both programs compute the same bytes exactly when a round trip is below 2^32 bytes; from there on the simulator is at its clamp and the browser above it |
| Capacity.CapacitiesDiffer | ns3/scratch/DCN.cc:515-517 | a rate, hop count and delay for which they differ: 4294967295 against 150000000000 bytes |
| Capacity.IndexOf | frontend/app/page.tsx:465-466 | every node id leads to the last node that carries it, and nothing else is in the map |
| Capacity.IndexIds | frontend/app/page.tsx:465-466 | the loop builds that map |
| Capacity.NamedGraphIsAdjacency | frontend/app/page.tsx:467-475 | the lists hold v at u exactly when a link names the two ids; links with an unknown end are skipped |
| Capacity.NamedAdjacency | frontend/app/page.tsx:467-475 | the loop over the named links builds those lists |
| Capacity.FindHosts | frontend/app/page.tsx:496-499 | exactly the indices of the hosts, ascending |
| Capacity.LongestServed | frontend/app/page.tsx:514-523 | the browser's scan over its own host order finds the same maximum as the simulator's specification |
| Capacity.ComputeQueueCapacityBytesByDirectedLink | frontend/app/page.tsx:458-534 | for any nodes, links and id resolution: both directions of every resolvable link have an entry, no other key does, and every entry is the capacity of the last link that writes it |
| FrontendTopology.BuildFatTree | frontend/lib/topology.ts:17-98 | an error exactly for odd k or k < 2; otherwise every node of the tree once, with its id and kind, and every link once |
| FrontendTopology.SameNetworkRelabels | frontend/lib/topology.ts:49-95 | if the browser's description denotes the simulator's network, its numbering is an isomorphism of the two graphs |
| FrontendTopology.TablesAgree | frontend/app/page.tsx:458-534 | two descriptions of one network give the same directed-link keys, hop counts and bytes, whatever the order of nodes and links |
| FrontendTopology.BytesAgree | frontend/app/page.tsx:525-529 | with equal tables, a link shows the capacity the simulator configured exactly when its round trip is below 2^32 bytes |
| FrontendTopology.FatTreeIsSameNetwork | frontend/lib/topology.ts:49-95 | the browser's fat tree, node for node and link for link, is the simulator's |
| FrontendTopology.AllNumbersOnce | frontend/lib/topology.ts:39-95 | a list without repeats that hits every number below n and no other has n entries |
| FrontendTopology.NeighbourKinds | ns3/scratch/DCN.cc:657-677 | links join neighbouring layers only: the fallback rate is never used |
| FrontendTwoTier.BuildTwoLayerTopology | frontend/app/page.tsx:582-612 | every node and every link of the two-layer network once, after counts below 1 have become 1 |
| FrontendTwoTier.TwoTierIsSameNetwork | frontend/app/page.tsx:582-612 | with counts of at least 1 that is the simulator's network |
| FrontendTwoTier.AlwaysShown | frontend/app/page.tsx:582-612 | whatever the counts, the browser's table has the links of its first ToR to its first host and first aggregation switch |
| FrontendTwoTier.CountsDisagree | frontend/app/page.tsx:582-612 | if a count is 0, one of these links does not exist in the simulator, so the tables differ |
| Network.Simulate | ns3/scratch/DCN.cc:742-746 | for every layer count: the link list, the directed-link table and the host-to-host maximum belong to one and the same graph |
| Network.FatTreeOnBothSides | ns3/scratch/DCN.cc:742-746 | the two models on one configuration, any even k: closed-form table, maximum 6, and the browser's table equal to the simulator's key for key; under the string "x-y" the browser shows the bytes for the closed-form hop count of the link from x to y |
| Network.TwoTierOnBothSides | frontend/app/page.tsx:816-819 | the two models on one configuration, any two-layer counts: closed-form table, and the two tables are equal if and only if all counts are at least 1; then the string "x-y" leads to the bytes for the closed-form hop count of the link from x to y |
| Csv.CsvLogger.constructor | ns3/scratch/CSVLogger.h:16-16 | no file is open yet and the disk is as it was |
| Csv.CsvLogger.GetFile | ns3/scratch/CSVLogger.h:40-54 | a key seen for the first time gets an empty file; any other key changes nothing |
| Csv.CsvLogger.Log | ns3/scratch/CSVLogger.h:19-29 | the key's file gains its header first if new, then exactly this row at its end; every other file is unchanged |
| Csv.CsvLogger.CloseAll | ns3/scratch/CSVLogger.h:31-34 | the files keep their text and none stays open |
| Csv.FileNameHoldsKey | ns3/scratch/CSVLogger.h:44-44 | the key is exactly what stands between the directory's `/packets_` and `.csv` |
| Csv.FileNameInjective | ns3/scratch/CSVLogger.h:44-44 | different keys have different files |
| Csv.KeysAreSeparate | ns3/scratch/CSVLogger.h:19-54 | after any interleaving of calls the rows kept per key are that key's calls in order |
| Csv.LogCalls | ns3/scratch/CSVLogger.h:19-54 | after any interleaving of calls to a fresh logger the text of each key's file is the header and that key's rows in call order, and no other file has changed |
| Csv.HeaderNamesColumns | ns3/scratch/CSVLogger.h:21-28 | the header names the five columns in the order in which a row's values are written |
| Csv.ParsePacketCsv | frontend/app/page.tsx:187-221 | the packets of all lines after the first, in order, leaving out blank, short and non-numeric lines |
| Csv.IntegerRoundTrip | frontend/app/page.tsx:199-205 | a printed integer, negative or not, is read back as itself |
| Csv.NumberForms | frontend/app/page.tsx:195-199 | a numeral may have a sign before it or spaces around it, and a blank column is 0 |
| Csv.LeftOut | frontend/app/page.tsx:193-209 | exactly which lines are left out: blank, short, or with a column that is no number |
| Csv.PacketTimes | frontend/app/page.tsx:211-217 | a packet's times, multiplied by 10^9, are the row's nanoseconds |
| Csv.LineParses | frontend/app/page.tsx:193-219 | a printed row is read back as that row, times scaled to seconds |
| Csv.CsvRoundTrip | frontend/app/page.tsx:187-221 | the text of any list of rows, parsed, is exactly these rows in order |
| Traces.TraceSinks.constructor | ns3/scratch/DCN.cc:323-369 | nothing is known about any packet |
| Traces.TraceSinks.ArrivalTrace | ns3/scratch/DCN.cc:323-333 | the first enqueue of a packet makes its entry; later ones change nothing |
| Traces.TraceSinks.DequeueTrace | ns3/scratch/DCN.cc:335-352 | sets the dequeue time of a known packet that is not logged; anything else is ignored |
| Traces.TraceSinks.MacRxTrace | ns3/scratch/DCN.cc:354-369 | a dequeued packet that is not logged is marked and its row goes to its link's file; anything else is ignored |
| Traces.TraceSinks.Dispatch | ns3/scratch/DCN.cc:323-369 | any callback is one step of the specified state machine |
| Traces.TraceSinks.Replay | ns3/scratch/DCN.cc:323-369 | after any sequence of callbacks the entries and the files are those of the specified run |
| Traces.StateExplained | ns3/scratch/DCN.cc:323-369 | what an entry holds, from the events alone: absent, or size and time of the first enqueue, the last dequeue so far, and logged exactly if a receive followed a dequeue at a time other than 0 |
| Traces.RowsDescribeRun | ns3/scratch/DCN.cc:354-369 | a row is logged if and only if it describes the first delivery of a packet in the run |
| Traces.LoggedOnce | ns3/scratch/DCN.cc:361-365 | no two rows of a link have the same packet id, whatever the events |
| Traces.LoggedIsFinal | ns3/scratch/DCN.cc:343-345 | a logged entry never changes again |
| Traces.RowsWellTimed | ns3/scratch/DCN.cc:323-369 | with a clock that does not run backwards every row satisfies 0 <= enqueue <= dequeue <= arrive |
| Traces.LoggedWhenPassed | ns3/scratch/DCN.cc:354-369 | with such a clock a packet has a row exactly if it was enqueued, dequeued at a time other than 0 and received, in this order |
| Traces.DequeuedAtZero | ns3/scratch/DCN.cc:362-363 | a run in which a packet is enqueued, dequeued at time 0 and received, and no row is logged |
| Sorting.SortingMembers | frontend/app/page.tsx:847-853 | sorting keeps exactly the same elements |
| Sorting.SortBy | frontend/app/page.tsx:847-853 | the result is in the order of the key, has the same elements, and leaves equal ones in their order |
| Sorting.SortingDetermined | frontend/app/page.tsx:847-853 | only one list is such a sorting |
| Sorting.SumPermuted | frontend/app/page.tsx:305-305 | totals do not depend on the order |
| QueueSeries.EventsOf | frontend/app/page.tsx:292-305 | the two events per packet total to the packets' own change in every time window, at exactly the packets' times |
| QueueSeries.GroupChange | frontend/app/page.tsx:324-330 | the inner loop takes in all events of one time, no other, and adds up their changes |
| QueueSeries.BuildQueueSeries | frontend/app/page.tsx:284-350 | one snapshot per distinct event time up to the end, each the one before changed by that time's packets, and the line drawn through them to the end, each point with the delay in which the link sends its bytes |
| QueueSeries.QueueingDelayIsSendingTime | frontend/app/page.tsx:237-240 | with a positive rate, delay times rate is 8 bits for every byte waiting; otherwise the delay is 0 |
| QueueSeries.PolylineDelays | frontend/app/page.tsx:318-346 | so it is at every point of the line |
| QueueSeries.TotalPermuted | frontend/app/page.tsx:305-305 | the order in which equal times are sorted does not matter |
| QueueGraph.FindLastSnapshotAtOrBeforeTime | frontend/app/page.tsx:242-254 | the binary search returns the last snapshot at or before the time, the first one if all are later |
| QueueGraph.ChangeIsQueued | frontend/app/page.tsx:292-337 | bytes enqueued minus bytes dequeued by a time are the bytes of the packets then waiting, never negative |
| QueueGraph.SnapshotIsQueued | frontend/app/page.tsx:332-337 | every snapshot is the direct sum over the packets at its time; the clamps at 0 never change anything |
| QueueGraph.HoldsUntilNext | frontend/app/page.tsx:242-254 | the snapshot found for any time up to the end gives the bytes and packets waiting at that time |
| QueueGraph.QueueAt | frontend/app/page.tsx:995-999 | build, then look up: for any time from 0 to the end exactly the packets with enqueue <= t < dequeue, and the time in which the link sends them |
| QueueGraph.SeriesEndsEmpty | frontend/app/page.tsx:284-350 | if the end is at or after every dequeue, the last snapshot shows no bytes and no packets |
| QueueGraph.AreaIsWaiting | frontend/app/page.tsx:284-350 | the area under the drawn line from 0 to the end is the sum over the packets of size times time in the queue by then |
| QueueGraph.LowerBoundQueuePoint | frontend/app/page.tsx:256-268 | splits the points into those before the time and the rest |
| QueueGraph.UpperBoundQueuePoint | frontend/app/page.tsx:270-282 | splits the points into those up to the time and the rest |
| QueueGraph.WindowFound | frontend/app/page.tsx:355-357 | the two splits bound exactly the points of the window and the one just before it |
| QueueGraph.StrideCovers | frontend/app/page.tsx:361-361 | the stride is the least of which m cover n points, or one if m is 0 |
| QueueGraph.Thin | frontend/app/page.tsx:360-369 | every ceil(n / m)-th point and the last one, at most m + 1 points (2 if m is 0) |
| QueueGraph.SampleQueuePoints | frontend/app/page.tsx:352-370 | of points in the order of time: the whole window if it is small enough, otherwise such a selection of it |
| QueueGraph.PolylineInOrder | frontend/app/page.tsx:284-350 | the points of a line that the series is drawn with are in the order of time, between 0 and the end |
| QueueGraph.PointsToDraw | frontend/app/page.tsx:959-982 | build, then sample: the window or an even selection of it, from the point before the start to the end |
| Playback.PrepareLink | frontend/app/page.tsx:847-853 | the four event lists are the link's packets sorted by the right times |
| Playback.LinkAnimationCursor.AddEnqueued | frontend/app/page.tsx:890-896 | moves past exactly the enqueues up to the time and adds their sizes |
| Playback.LinkAnimationCursor.SubtractDequeued | frontend/app/page.tsx:898-904 | moves past exactly the dequeues up to the time and subtracts their sizes |
| Playback.LinkAnimationCursor.StartFlights | frontend/app/page.tsx:906-912 | appends exactly the packets dequeued since the last frame, in order |
| Playback.LinkAnimationCursor.EndFlights | frontend/app/page.tsx:914-924 | for each packet arrived since the last frame, in order, takes out the first one with its id, if any |
| Playback.LinkAnimationCursor.Advance | frontend/app/page.tsx:890-924 | the four loops bring a cursor from any earlier time to the frame's time, starting and taking out exactly the packets in between, for any packets |
| Playback.CursorMeaning | frontend/app/page.tsx:890-924 | a cursor at a time holds bytes enqueued minus bytes dequeued by then; if no id is ever ahead of itself, the packets in flight are those of a direct seek, and with distinct ids and no arrival before its dequeue those with dequeue <= t < arrive, in dequeue order |
| Flights.FlightsMembers | frontend/app/page.tsx:906-924 | a packet is listed in flight if and only if dequeue <= t < arrive |
| Flights.TracelessIffNeverAhead | frontend/app/page.tsx:861-943 | the packets in flight depend on the last frame alone, for all sequences of frames, if and only if by no time any id has arrived more often than it was dequeued |
| Flights.StartsAgain | frontend/app/page.tsx:862-882 | the first frame, a frame back in time and a frame at 0 forget all frames before; any other goes on from the one before |
| Flights.NoTrace | frontend/app/page.tsx:906-924 | under that condition any sequence of frames, with the rebuilds it contains, leaves what a direct seek to the last frame leaves |
| Flights.Trace | frontend/app/page.tsx:906-924 | if an id is ahead of itself at a frame, a packet is still shown at every later frame at which everything has happened |
| Flights.NothingSought | frontend/app/page.tsx:906-924 | a direct seek to such a frame shows nothing in flight |
| Flights.OrderedIsNeverAhead | frontend/app/page.tsx:906-924 | if no packet arrives before its dequeue no id is ever ahead, repeated or not |
| Playback.HistoryIsForgotten | frontend/app/page.tsx:861-943 | two cursors at the same time are equal field by field, however they got there; the packets in flight if no id is ever ahead of itself |
| Playback.Animation.NewCursors | frontend/app/page.tsx:868-881 | one new cursor per link, behind every time |
| Playback.Animation.AdvanceAll | frontend/app/page.tsx:887-939 | every link's cursor reaches the frame's time and its depth is the direct sum, clamped at 0 |
| Playback.Animation.Frame | frontend/app/page.tsx:861-943 | one frame, forward or backward in time: all cursors stand at its time and the depths shown are the direct sums |
| Playback.Animation.Play | frontend/app/page.tsx:861-943 | after any sequence of frames every link has the depth of the last frame's time; if no id is ever ahead, the packets in flight of a direct seek, and with distinct ids and no arrival before its dequeue exactly those in flight at that time |
| Playback.PlayOrSeek | frontend/app/page.tsx:861-943 | playing any frames, or going straight to the last one, leaves cursors that are equal but for the packets in flight; these are the specified ones on both sides for any packets, and equal if no id is ever ahead |
| Playback.ArrivesBeforeDequeue | frontend/app/page.tsx:906-924 | the simplest such link, on the cursors themselves: one packet that arrives before its dequeue, with a frame in between and without |
| Playback.DepthIsQueued | frontend/app/page.tsx:926-926 | for well-timed packets the depth shown is the bytes waiting, so the clamp changes nothing |
| EndToEnd.ViewIsSound | frontend/app/page.tsx:187-221 | for every run with a clock that does not run backwards: reading a link's file gives its rows back, well timed, with distinct ids, no arrival before its dequeue |
| EndToEnd.SimEndTime | frontend/app/page.tsx:809-814 | the end is positive and at or after every arrival; it is an arrival if one is after 0, otherwise 10 |
| EndToEnd.GraphEndsEmpty | frontend/app/page.tsx:809-814 | for every such run each link's graph, drawn to that end, ends with an empty queue |
| EndToEnd.GraphAgreesWithPlayback | frontend/app/page.tsx:995-997 | for every such run and every time the graph's snapshot and the playback cursor show the same bytes, those of the packets waiting |
| SendLoop.PoissonWorkloadApp.constructor | ns3/scratch/DCN.cc:143-164 | not running, no sockets, nothing pending |
| SendLoop.PoissonWorkloadApp.StartApplication | ns3/scratch/DCN.cc:166-194 | one new socket per host but the source, these are the destinations, ascending, and nothing is pending |
| SendLoop.PoissonWorkloadApp.StopApplication | ns3/scratch/DCN.cc:196-213 | every socket is closed, with what it has accepted by then, and all three lists are cleared |
| SendLoop.PoissonWorkloadApp.FindDestinationHostId | ns3/scratch/DCN.cc:267-275 | finds the host of a socket, and reports none exactly if the socket is unknown |
| SendLoop.OffersAre | ns3/scratch/DCN.cc:285-286 | every call offers the bytes left, or 65536 of them if more are left |
| SendLoop.WholePieces | ns3/scratch/DCN.cc:283-291 | a socket that takes every offer whole sees ceil(pending / 65536) calls, all of 65536 bytes but the last, which offers the rest |
| SendLoop.PoissonWorkloadApp.OfferAll | ns3/scratch/DCN.cc:283-291 | each call offers what is left, at most 64 KiB; the calls end at the first refusal and otherwise only with nothing left; the bytes leaving the pending count are those accepted |
| SendLoop.PoissonWorkloadApp.TrySend | ns3/scratch/DCN.cc:277-292 | the same for one destination, with every other destination and socket untouched and nothing done for the source host |
| SendLoop.PoissonWorkloadApp.GenerateMessage | ns3/scratch/DCN.cc:226-247 | the message's bytes are added to the chosen destination and offered; without destinations or when stopped nothing happens |
| SendLoop.PoissonWorkloadApp.HandleSend | ns3/scratch/DCN.cc:249-254 | drains the destination of that socket and no other; an unknown socket changes nothing |
| SendLoop.PoissonWorkloadApp.HandleConnect | ns3/scratch/DCN.cc:256-261 | likewise on connection |
| SendLoop.PoissonWorkloadApp.Handle | ns3/scratch/DCN.cc:196-261 | one event: adds exactly its bytes to its destination's, a stop closes every socket, and a stopped application ignores it |
| SendLoop.PoissonWorkloadApp.RunStopped | ns3/scratch/DCN.cc:226-275 | after a stop no message or callback, from whichever socket, touches a socket, adds bytes or makes any pending |
| SendLoop.PoissonWorkloadApp.Run | ns3/scratch/DCN.cc:143-306 | after any sequence of messages, callbacks and stops: while running, bytes generated = bytes accepted + bytes pending for every destination and none pending for the source; once stopped, every socket is closed and has accepted what it had accepted when it was closed |
| WorkerPool.RunKeepsInv | ns3/test.py:1087-1171 | the pool's invariant holds in every state of every interleaving |
| WorkerPool.StepKeepsInv | ns3/test.py:1087-1171 | every step of the main thread, a worker or an interrupt keeps it |
| WorkerPool.NothingLost | ns3/test.py:1936-1967 | any quantity counted per job: queued + held by workers + put out + collected = dispatched |
| WorkerPool.JobInOnePlace | ns3/test.py:1936-1967 | every dispatched job is at every moment in exactly one place |
| WorkerPool.FirstInFirstOut | ns3/test.py:1585-1586 | in every run the i-th job taken is the i-th one dispatched, the jobs not yet taken wait in the order of their dispatch with the break jobs behind them, and results are collected in the order in which workers put them out |
| WorkerPool.CollectsLast | ns3/test.py:1936-1967 | the main thread collects only after it has dispatched all jobs and all break jobs |
| WorkerPool.NoEarlyExit | ns3/test.py:1090-1096 | when a worker has exited, all jobs have been dispatched and no real job is left in the queue |
| WorkerPool.NeverStuck | ns3/test.py:1963-1967 | with a worker, or without jobs, no reachable state blocks before the end: the collector never waits in vain |
| WorkerPool.StuckWithoutWorkers | ns3/test.py:1940-1943 | without workers and with a job no run comes to an end, and some run reaches a state where nothing but an interrupt can happen |
| WorkerPool.StepUsesWork | ns3/test.py:1087-1171 | a measure falls with every step of a thread, and an interrupt leaves it as it is |
| WorkerPool.RunsAreShort | ns3/test.py:1936-2001 | no run takes more than six steps per job, two per worker and one, interrupts aside |
| WorkerPool.ResultsAreEarned | ns3/test.py:1101-1171 | in every run each result goes back to a worker's look at the flag for that very job: marked as a break exactly if an interrupt had come by then, otherwise skipped as planned, or run by that worker and carrying the code it later returned, whether or not an interrupt came meanwhile |
| WorkerPool.RunningJobOutlivesInterrupt | ns3/test.py:1101-1171 | for every return code there is a run in which the interrupt comes while the job runs and the code is collected and counted, none as interrupted |
| WorkerPool.CountsOutcome | ns3/test.py:1974-2000 | a result raises the count of its own outcome by one and no other |
| WorkerPool.CountsByCode | ns3/test.py:1966-2000 | which count that is: by the marks first, then return code 0 passed, 1 failed, 2 a memory error, any other a crash |
| WorkerPool.AtTheEnd | ns3/test.py:2128-2129 | once the workers are joined both queues are empty, each job was collected exactly once, and the outcome counts add up to the number of jobs |
| ModuleOrder.ModulesThatCanBeLoaded | ns3/bindings/python/ns__init__.py:444-455 | the pending modules all of whose dependencies have been placed, in the order in which they are pending |
| ModuleOrder.ReadyMembers | ns3/bindings/python/ns__init__.py:444-455 | which modules these are, if and only if, and that none is repeated |
| ModuleOrder.ReadyInOrder | ns3/bindings/python/ns__init__.py:444-455 | they stand in the order of the pending list |
| ModuleOrder.Sorter.constructor | ns3/bindings/python/ns__init__.py:475-477 | no layer placed, every module pending |
| ModuleOrder.Sorter.PlaceLayer | ns3/bindings/python/ns__init__.py:462-469 | one level of the recursion places exactly the next layer, after its dependencies and in the given order |
| ModuleOrder.Sorter.MoveAll | ns3/bindings/python/ns__init__.py:463-469 | the found modules move from the pending to the current list and into the step, the others staying in order |
| ModuleOrder.Sorter.DependencyOrder | ns3/bindings/python/ns__init__.py:457-472 | succeeds exactly if all modules fit into the layers that the recursion depth allows, and then none is pending |
| ModuleOrder.LayerIsLongestChain | ns3/bindings/python/ns__init__.py:457-472 | a module's step number is the length of its longest dependency chain |
| ModuleOrder.PlaceableIffShortChains | ns3/bindings/python/ns__init__.py:457-472 | all modules fit into n layers if and only if the map is closed over its keys and no chain has more than n modules |
| ModuleOrder.CycleIsNeverPlaced | ns3/bindings/python/ns__init__.py:470-472 | no module on a dependency cycle is ever placed |
| ModuleOrder.AcyclicIffShortChains | ns3/bindings/python/ns__init__.py:457-472 | a map is acyclic if and only if no dependency chain has more modules than there are |
| ModuleOrder.CyclesAreRejected | ns3/bindings/python/ns__init__.py:470-472 | with a cycle the condition for success fails at every recursion depth |
| ModuleOrder.SortToDependencies | ns3/bindings/python/ns__init__.py:474-479 | succeeds if and only if the map is closed and no chain exceeds the depth, and with a depth of at least the number of modules if and only if it is closed and acyclic; then the result is a permutation of the modules, each after its dependencies, stepped by longest chain, and within a step in the given order |
| Welford.Accumulate | ns3/utils/bench-scheduler.cc:345-349 | if average and second moment are those of a field of some samples, they are afterwards those of one sample more, also when that is the first sample again |
| Welford.AccumulateAll | ns3/utils/bench-scheduler.cc:351-356 | the same for all six fields at once |
| Welford.DeviationsShift | ns3/utils/bench-scheduler.cc:345-349 | how the sum of squared deviations changes with its centre |
| Welford.MomentStep | ns3/utils/bench-scheduler.cc:345-349 | adding the product of the two deviations turns the moment about the old mean into the one about the new mean |
| Welford.AccumulateStep | ns3/utils/bench-scheduler.cc:338-359 | one loop iteration keeps average and moment those of the samples so far, also when the first sample is processed again |
| Welford.Log | ns3/utils/bench-scheduler.cc:319-359 | with at least two results, and only then, each field's average is the arithmetic mean and its moment the sum of squared deviations from that mean |

## Left out

- 32-bit wrap-around of node ids, of sizes such as k * k * k and of pending bytes, and JavaScript's limit of 2^53: numbers are unbounded. `Network` states where ids must fit in 32 bits.
- Floating-point rounding: rates, delays, times in seconds and statistics are exact numbers. Nanosecond times are integers.
- Parsing of rate and delay strings and their units: both programs receive the same bits per second and seconds.
- Node coordinates, labels and colours, and the browser's own single-ToR builder with its ids; the simulator's single-ToR tree is covered.
- k that is not an integer: the browser rejects it and the simulator cannot receive it.
- JSON, React state, drawing, and everything else in the frontend that is not a computation on the topology or the packets.
- The trace sinks' other metrics: queue length, sojourn totals and drops.
- Csv.ParsePacketCsv: a column is a number if it is a blank or an optionally signed run of decimal digits. Fractions, exponents, hexadecimal and `Infinity`, which JavaScript also accepts and the logger never writes, count as not a number.
- Csv.CsvLogger.Log: writing to a file never fails, and the text is on disk at once.
- Playback.Animation.Frame: the link data stays the same while playing, and every link of it has its packets (the browser leaves out links whose end nodes it cannot find); the positions of the dots and the thinning of dots on crowded links are left out.
- QueueGraph.SampleQueuePoints: of points that are not in the order of time it promises nothing; those the browser draws always are (`QueueGraph.PointsToDraw`).
- SendLoop.PoissonWorkloadApp.GenerateMessage: which destination and how many bytes are inputs, and so is when the next message comes.
- SendLoop.PoissonWorkloadApp.TrySend: a socket returns between -1 and what it was offered and does not call back from within `Send`.
- WorkerPool.RunKeepsInv: a job call always returns; exceptions in a worker, the job's output, valgrind, XML and HTML reports and the list of failed jobs are left out.
- ModuleOrder.SortToDependencies: the dependency map is given, and Python's recursion limit is the parameter `depth`; reading the linked libraries and loading them is left out.
- Welford.Log: the square root, the division by the number of samples and the printing.
- backend/main.py, the other examples and scripts under ns3, and the ns-3 library itself.
