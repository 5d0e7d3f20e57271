# xltop in Dafny

A model of xltop, the monitor that shows which hosts, jobs and clusters use which Lustre servers and file systems, and
proofs about it. The model covers the master's flow-accounting engine, its top queries, the collector that feeds it,
the HTTP connection between them, the query strings they exchange, and the hash tables underneath.
`dafny verify dfyconfig.toml` verifies the whole project.

Code that works in place is modelled in place: `XNode`, `KNode`, `Master`, `Lnet`, `KHeap`, `Query`, `Lxt`,
`Collector`, `NBuf`, `Conn` and `StrTable` are classes whose methods update fields and arrays as the C functions do.
Each method is proved to do what a function on values says, and the laws are proved about those functions, step by
step. `MasterRuns.Run` and `CollectorRuns.Run` then run the two daemons' objects from initialisation over any sequence
of callbacks, so that the laws hold of whole runs, and `EndToEnd` follows what the collectors read until it is in the
master's table.

## The parts

**Rates** (`Ewma`, `Accounting`, `Rates`). Each pair of a consumer and a provider has counters and a decayed average
rate, which are only brought up to date when somebody looks. Doubles are reals and `exp(-k_tick / k_window)` is a
constant `q` strictly between 0 and 1. One catch-up over n ticks equals n catch-ups over one tick, and a read in between
does not show, if and only if no statistic flushes to a negative rate: the branch for `rate <= 0` forgets a negative
average instead of decaying it, so the law has exactly that condition, and a concrete input shows it failing. With
non-negative reports the lazy numbers are those of an eager accountant who keeps one bucket per tick, and the rate is
the weighted average of the buckets in closed form (`Rates`).

**Two trees and a table** (`XNodes`, `Hierarchy`, `FlowTable`, `Machine`, `Reachable`, `Results`, `Counting`, `Pruning`,
`Masters`, `Lnets`, `MasterRuns`, `Puts`). Hosts hang below jobs, jobs below clusters, clusters below the universe U;
servers below file systems below V. A table holds a node for each pair that ever carried traffic. `Machine.Step` lists
what the event loop can do: configuration, a line about a host's traffic, a line moving a host to a job, a job's timer,
a query. `FlowTable.Inv` is kept by every step: the trees are well-formed, jobs are alive, and the table is an index
over a log of all reports, each logged with the ancestors in force when it came in. The log is history that no step
reads. Statements that require `Inv` therefore speak about every reachable state. `Masters.Master` is the C state; its
methods end with `Stepped`, which says that the call was the step of that name. `Lnets.Lnet` is the table that leads
from a server's line to a host, and `Puts` takes a PUT's body line by line. Removing a node prunes at the first pair
that is missing: for a consumer nothing is lost by that, for a provider exactly the pairs of hosts whose job is not
tracked with it stay behind, and a node with children leaves the trees out of shape. The program only removes empty
jobs. A run is given by events with names and texts as they come in; `MasterRuns.Asked` says for each of them which step
it asks for, in the state it meets, and when it asks for none, and every event does exactly that (`MasterRuns.History`).
So after any events whatever, the k_nodes in memory are an index over the reports that these events give
(`MasterRuns.TableIsIndex`).

**Top queries** (`Ordering`, `Heaps`, `Walks`, `Tops`, `Listings`). A pruned and filtered walk over the product of the
trees freshens pairs and offers them to a bounded min-heap of references, which is then sorted in place. The keys are
fields that the walk itself changes, so the proof carries through the whole walk that the nodes already in the heap are
not touched again. A host that has just moved to a new job keeps its pairs but is missed by every walk that starts above
that job; that is stated as it is, with the exact condition and a run in which it happens.

**Collector** (`Readings`, `Places`, `Collectors`, `CollectorRuns`). Absolute counters of each target's clients become
deltas per client. Every reading is logged; what is printed for a client, plus what failed prints lose, telescopes to
last counter minus first counter over each target record's lifetime. For whole runs this is stated without the tables:
the reference takes only what /proc showed in each cycle, tells targets apart by name and first cycle, and what a
collector prints and sends is what it says, cycle by cycle. What a failed print or PUT loses is exactly that cycle's
part.

**End to end** (`EndToEnd`, `PutRequests`). From the bytes of a PUT its body is read as the lines it was made of. If a
server's lines arrive, with anything else in between, then the k_node of any consumer and that server is there if and
only if a line came for a host below it, and sums up exactly those lines: for a host the lines with its NID, for U all
of them. With the collector's law, the master's sums of a host and a server are last counter minus first counter over
all lifetimes of the server's targets, but for what cycles missed whose print or PUT failed.

**HTTP connection** (`NBufs`, `Http`, `Requests`, `Botz`). A sliding buffer and one exchange slot, driven by callbacks
that read and write in arbitrary amounts. What is handled agrees with a batch parser that sees the whole stream, and
that parser finds any request as it was written.

**Query strings, sort keys, hash tables** (`Strings`, `Numbers`, `Queries`, `Parsing`, `RoundTrips`, `SortKeys`,
`TopQueries`, `TopGets`, `TopRequests`, `Hashes`). query_parse works in place: strsep puts NULs into the string and
q_decode shortens what lies between them. It does not notice the end of an empty value, leaves its NUL, and decodes what
follows once too often; if that becomes shorter, a gap stays behind the string, and a later empty value at the end is
harmless. So parsing undoes building under an exact condition. A top request is followed from the user's words through
query string, fields, value parsers and verdict to the arguments of the query: it is served as asked unless it has more
than ten keys or an empty owner. It is also followed through HTTP: the batch parser finds the query string in the bytes
of the client's GET, and bx_handle answers it with top_get_cb. The chained table refines a finite map.

Where the code says something else than one might expect, the model follows the code: `struct lxt` stores its type in
one bit (`src/servd.c:83`), so an OST is stored as 0; `q_decode` looks at the byte it stopped at only after writing
the final NUL (`src/query.c:50-52`), so a malformed escape is reported only after a good one; `Content-Length:` counts
only when white space separates it from its value (`src/botz.c:249-264`).

## Model

| member | source | states |
|---|---|---|
| Ewma.FreshenCompose | src/x_node.c:317-345 | A freshen at t1 followed by one at t2 >= t1 equals one at t2, if and only if t1 covers no tick, or all of them, or no statistic flushes to a negative rate |
| Ewma.BatchedIsTickByTick | src/x_node.c:317-345 | One freshen over n missed ticks equals n freshens, one at each tick boundary, if and only if n <= 1 or no statistic flushes to a negative rate |
| Ewma.ReadShowsExample | src/x_node.c:334-343 | An input for which the law fails: after a correction of -10, reading after one tick gives rate 0 one tick later, not reading gives -0.5 |
| Ewma.BatchShowsExample | src/x_node.c:334-343 | The same input: two single ticks give 0, a batch of two gives -0.5 |
| Ewma.FreshenCatchesUp | src/x_node.c:317-345 | Afterwards k_t <= now < k_t + tick, and a second freshen at the same time changes nothing |
| Ewma.TicksBounds | src/x_node.c:322 | The floor counts whole ticks: n ticks are over and the next is not |
| Accounting.LazyIsEager | src/x_node.c:317-361 | After any run of non-negative reports and reads, the freshened node shows the eager accountant's books: time on the last tick boundary, pending the current tick's reports, rate the fold of one bucket per earlier tick, sum everything |
| Accounting.ReadsInvisible | src/x_node.c:317-361 | Erasing every read from a run leaves the node the same once freshened |
| Accounting.AverageBounds | src/x_node.c:327-344 | The average folded from buckets stays between zero and the largest per-tick rate among them |
| Accounting.RateBounds | src/x_node.c:317-361 | Over any run of non-negative reports and reads, the rate shown at any later time lies between zero and the largest per-tick rate reported |
| Accounting.AverageDecays | src/x_node.c:341-343 | Each tick without reports multiplies a non-negative rate by q |
| Ewma.FreshenMeans | src/x_node.c:317-345 | In terms of the clock and the old numbers: with no tick over nothing changes; otherwise what was pending, per tick, replaces a rate that is not positive and is else mixed in with weight 1 - q, and each further tick multiplies by q |
| Rates.AverageIsWeighted | src/x_node.c:334-343 | The average folded tick by tick in closed form: q^(m-1-k) times the rate of tick k, the first with a positive amount, plus (1-q) q^(m-1-j) times the rate of each later tick j |
| Rates.RateIsWeighted | src/x_node.c:317-361 | After any run of non-negative reports and reads, that is the rate shown at any later time, over the ticks that are over |
| Rates.RateBetween | src/x_node.c:317-361 | It lies between the least and the greatest rate of these ticks |
| Rates.SteadyRate | src/x_node.c:317-361 | A constant amount b in every tick shows as exactly b per tick |
| Rates.FlowRateIsWeighted | src/x_node.c:317-361 | In every reachable state with non-negative reports, a tracked pair shows the weighted average of what the reports that cover it brought in each tick |
| Rates.FlowRateBetween | src/x_node.c:317-361 | In every reachable state it lies between the least and the greatest rate of the ticks that are over |
| XNodes.KNode.Freshen | src/x_node.c:317-345 | The in-place loop computes Ewma.Freshen of the old numbers |
| XNodes.KNode.Update | src/x_node.c:347-366 | The report is added to sum and pending after the catch-up |
| Hierarchy.AddNodeTree | src/x_node.c:61-92 | Hanging a new node below a parent one level up keeps both trees, child counts and name tables right |
| Hierarchy.LookupTree | src/x_node.c:146-169 | Find-or-create keeps the trees right, returns a node of the type and name asked for, and loses no node and no name |
| Hierarchy.SetParentForest | src/x_node.c:94-111 | Moving a node to another parent of the right level keeps parent pointers, child lists and child counts in agreement |
| Hierarchy.AddClusTree | src/clus.c:43-83 | A new cluster and its idle job keep the trees right |
| Hierarchy.ClusForHostIs | src/clus.c:85-99 | The search ends at the cluster of the part behind the first dot behind which there is a known domain, and at the default cluster if there is no such dot |
| Hierarchy.ClusForHostIsClus | src/clus.c:85-99 | Whatever the host's name, the suffix search ends at a live cluster |
| Hierarchy.HostLookupTree | src/host.c:8-44 | A host that is not known yet can be placed below an idle job, and ends up live |
| Hierarchy.MoveHostTree | src/clus.c:134-148 | Moving a host to a job and ending the job it left keeps the trees right |
| Hierarchy.ClusMessageTree | src/clus.c:101-149 | A whole line, with whatever it creates, keeps the trees right |
| Hierarchy.ClusMessageLifecycle | src/clus.c:126-148 | After the line every job is fake, or has a host, or has its timer armed, and every cluster has its idle job |
| Hierarchy.RemoveTree | src/x_node.c:125-143 | Destroying an empty job keeps the trees right and removes that node only |
| Hierarchy.DestroyedShape | src/x_node.c:115-144 | x_destroy hands children to the top, two or more levels too high for it: the levels stay right if and only if the node had no children |
| Hierarchy.ZombieTree | src/job.c:8-28 | A job's timer keeps the trees right |
| Hierarchy.ZombieLifecycle | src/job.c:8-28 | The timer frees the job if and only if it is not fake and has no hosts, and leaves every other job alive |
| FlowTable.HostChain | src/x_node.c:246 | From a host the parent pointers run through exactly four nodes: host, job, cluster, U |
| FlowTable.ServChain | src/x_node.c:247 | From a server they run through exactly three: server, file system, V |
| FlowTable.ReportKeepsInv | src/x_node.c:241-254 | Counting a report keeps the whole invariant, the table's index over the log included |
| FlowTable.TouchKeepsInv | src/k_heap.c:156 | Freshening any pairs keeps the whole invariant |
| FlowTable.GrowthKeepsTable | src/clus.c:101-149 | Steps that only create nodes or move hosts keep the table an index over the log |
| FlowTable.RemoveKeepsTable | src/x_node.c:115-144 | Destroying an empty job with its pairs keeps the table an index over the log, and nr_k its size |
| Machine.StepKeepsInv | src/x_node.c:241-315 | Every step of the event loop keeps the invariant |
| Machine.StartInv | src/x_node.c:207-239 | The invariant holds after initialisation |
| Machine.After | src/x_node.c:241-315 | It holds after every run |
| Reachable.IndexOverLog | src/x_node.c:241-290 | After any run from the start, moves and reapings included: a live pair is tracked if and only if some report had both nodes among its ancestors then, and its sums are exactly those reports' sums |
| Reachable.TrackedSum | src/x_node.c:241-290 | The same for every state with the invariant |
| Reachable.FlowIsEager | src/x_node.c:317-361 | With non-negative reports a tracked pair freshened at any later time shows the eager books for the reports that cover it |
| Reachable.FlowRateBounds | src/x_node.c:317-361 | In every reachable state with non-negative reports, the rate a tracked pair shows at any later time lies between zero and the largest per-tick rate of the reports that cover it |
| Reachable.TrackedAbove1 | src/x_node.c:246-252 | A tracked pair's provider ancestors are tracked with the same consumer |
| Reachable.TrackedAbove0 | src/x_node.c:246-252 | From job level up, a tracked pair's consumer ancestors are tracked with the same provider |
| Reachable.MovedHostUntrackedAbove | src/clus.c:143 | That fails for hosts: after a move to a job that did not exist, the job has no pair at all while the host keeps its own |
| Reachable.OnlyEmptyJobsGo | src/job.c:8-28 | A step frees a node if and only if it is the timer of a job that is not fake and has no hosts; never a cluster's idle job |
| Reachable.NamesStay | src/x_node.c:146-169 | No step makes the name of a host, server, cluster or file system lead to another node |
| Reachable.Conservation | src/x_node.c:241-254 | In every reachable state, for every provider: the sums over all hosts, over all clusters, and of U are the same, and are the total of all reports to it |
| Reachable.UniverseCountsAll | src/x_node.c:241-254 | The pair (U, V) has counted every report |
| Reachable.QueriesInvisible | src/k_heap.c:156 | Erasing every query from a run leaves a possible run with the same trees, table, nr_k and sums, and with non-negative reports the same flows once freshened |
| Results.NewHostHangs | src/host.c:25-44 | A line of a server or of a network's file: a host not known before is new under its name and hangs below the idle job of the cluster of its domain; every other node is as before, and a known host changes nothing |
| Results.DomainTakesEffect | src/clus.c:16-21 | After a domain has been set to a cluster, the next new host of that domain hangs below that cluster's idle job, if no longer suffix of its name is a domain |
| Results.ClusLineMeans | src/clus.c:101-149 | What a line of a cluster leaves: a new job has the name, cluster and owner of the line; the host hangs below the line's job; the job it left is armed if empty and not fake; all other nodes, and all numbers, are as before |
| Results.ZombieMeans | src/job.c:8-28 | What a job's timer leaves: a fake job unarmed, a job with hosts armed again, and otherwise the state without the job, its name and its pairs, all else as before |
| Results.AddClusterMeans | src/clus.c:43-83 | What a new cluster leaves: its node below U, and the job IDLE@ and its name as its idle job, fake, new with owner NONE or found |
| Results.AddFsMeans | src/master.c:155 | A new file system hangs below V, a known one changes nothing |
| Results.AddServMeans | src/serv.c:9-31 | A new server hangs below its file system, a known one changes nothing |
| Results.QueryMeans | src/k_heap.c:156 | A query catches up exactly the pairs it names, and changes nothing else but the clock |
| Counting.GridCounts | src/x_node.c:241-254 | The nested loops over both chains of ancestors count each pair once, in whatever order |
| Counting.ReportCountsTwelve | src/x_node.c:246-252 | A report for a host and a server counts for exactly four times three pairs |
| Pruning.DestroyGetsAll | src/x_node.c:292-315 | Although k_destroy stops at the first missing pair, from (x, V) it removes exactly all pairs of x, in every reachable state |
| Pruning.DestroyLeaves | src/x_node.c:308-314 | From (U, x) for a provider x it does not: it leaves exactly the pairs of hosts whose present job is not tracked with x |
| Masters.Master.constructor | src/x_node.c:207-239 | The two universes, the default cluster and its idle job: the machine's start state, in fresh nodes |
| Masters.Master.XInit | src/x_node.c:61-92 | In place, with or without a parent: the parent's list and count, the name table and the new node |
| Masters.Master.XSetParent | src/x_node.c:94-111 | In place: leaves the old parent's list if there is one, joins the new one's if there is one, nothing else changes; nothing at all if the parent is the same |
| Masters.Master.XLookup | src/x_node.c:146-169 | With L_CREATE: an existing node is returned wherever it hangs; otherwise a fresh one is created below the parent given. XFind is the look-up without |
| Masters.Master.KLookup | src/x_node.c:256-290 | Creates a zeroed node and counts it exactly if the pair is new and its sides are right; null exactly if new and they are not |
| Masters.Master.KUpdate | src/x_node.c:347-366 | Only that pair's flow changes |
| Masters.Master.KFreshen | src/x_node.c:317-345 | Only that pair's flow changes |
| Masters.Master.CountPair | src/x_node.c:248-251 | One pair takes the report, created if need be, with nr_k following the table |
| Masters.Master.UpdateRow | src/x_node.c:247-252 | One consumer takes the report with every provider ancestor |
| Masters.Master.XUpdate | src/x_node.c:241-254 | Every pair of ancestors takes the report, in the order of the loops |
| Masters.Master.CountReport | src/x_node.c:241-254 | Seen at once: each pair of ancestors takes the report exactly once |
| Masters.Master.KFree | src/x_node.c:304-306 | One pair goes, and nr_k stays the table's size |
| Masters.Master.KDestroy | src/x_node.c:292-315 | For either side: exactly the pairs go that are reached from (x0, x1) downward, on the side walked, through pairs that are tracked |
| Masters.Master.KDestroyBelow | src/x_node.c:308-314 | The same for the loop over the children |
| Masters.Master.EndJob | src/job.c:62-71 | Arms the timer, except for fake jobs |
| Masters.Master.MoveToJob | src/clus.c:134-148 | The host changes parent, and the job it left is ended if that leaves it empty |
| Masters.Master.FindLineNodes | src/clus.c:126-132 | The job first, then the host below it, each found or created |
| Masters.Master.ClusMsg | src/clus.c:101-149 | The whole line; the flow table is untouched |
| Masters.Master.NewClus | src/clus.c:58-82 | The cluster, and its idle job marked fake |
| Masters.Master.ClusLookup | src/clus.c:43-83 | With L_CREATE: a known cluster changes nothing; a new one comes with its idle job. ClusFind is the look-up without |
| Masters.Master.ClusLookupForHost | src/clus.c:85-99 | The loop ends at the cluster of the longest proper dotted suffix that is a known domain, and at the default cluster if none is |
| Masters.Master.XHostLookup | src/host.c:8-44 | A known host is returned wherever it hangs; a new one starts below the parent given, or else below the idle job of its domain's cluster; null exactly if it is new and not to be created or has no place |
| Masters.Master.RecordAt | src/x_node.c:241-254 | A report in place is the machine's report step |
| Masters.Master.ServHost | src/lnet.c:55-56 | The host of that name is found or created; flows are untouched |
| Masters.Master.ServMsg | src/serv.c:45-52 | With the host's name: the host is created even if the numbers turn out garbled; otherwise the report counts |
| Lnets.Lnet.LookupNid | src/lnet.c:42-66 | A known NID leads to its host, whatever the host is called; an unknown one becomes the name of a host found or created, and leads to it from then on |
| Lnets.Lnet.ServMsgCb | src/serv.c:33-53 | The whole line, split by wsep: dropped unless it has two words; otherwise it is the step of the machine for the host the NID leads to |
| Lnets.Lnet.ReadLine | src/lnet.c:85-101 | A line of a network's file, cut at #: without two words nothing happens; otherwise the named host is found or created, as one step of the machine, and the NID leads to it from then on |
| Lnets.Lnet.SetNid | src/lnet.c:94-101 | The same for the two words |
| Lnets.WsepMeans | src/string1.h:12-25 | The first word of a line, whatever white space comes before, and what follows the character behind it |
| Lnets.NidLineMeans | src/lnet.c:89-92 | A line says its NID first and the host's name second, up to a comment |
| Lnets.HostByName | src/lnet.c:52-56 | A host the table leads to is found under its own name |
| Lnets.Lnet.HostsStay | src/lnet.c:52-53 | Whatever step the master takes, the NIDs go on leading to live hosts |
| MasterRuns.Run | src/master.c:438 | From initialisation on, for any sequence of configuration, network files, lines, timers and queries whose times do not go back: there is a history of states that starts with the start state and an empty NID table, goes from each to the next by exactly the step the event in between asks for, if any, and ends with what is in memory |
| MasterRuns.Dispatch | src/master.c:438 | The callback takes the step its event asks for: with the nodes found under the names it gives, the host its NID leads to or names, the numbers that its line's rest reads as, its time and its owner; no step exactly if a node it names does not exist, a timer is not armed or a line has no two words; the NID table learns what it should and nothing else |
| MasterRuns.ClusWordsMeans | src/clus.c:109-119 | A line of a cluster says host, job and owner; without an owner it is NONE, and without a job the line is dropped |
| MasterRuns.HistoryRuns | src/master.c:438 | A history is a run of the machine, so that what is proved of reachable states holds of the memory at its end |
| MasterRuns.TurnsLog | src/serv.c:45-52 | An event adds a report to the log exactly if it is a line of a known server with two words and readable numbers; the report has the ancestors of the line's host and server at that moment, its time and its numbers |
| MasterRuns.LogIsReports | src/x_node.c:241-254 | The log of a history is the reports that its events give, in order |
| MasterRuns.TableIsIndex | src/x_node.c:241-290 | So after any events a pair of live nodes has a k_node if and only if a report among these events covered it, and that node's sums are exactly the sums of those reports |
| MasterRuns.NidStays | src/lnet.c:52-53 | Only a line of a network's file makes a known NID lead elsewhere |
| Puts.ServPutCb | src/serv.c:83-97 | The loop over a PUT's body: its lines are taken in order, each as one event, and no line is left |
| PutRequests.PutArrives | src/servd.c:505-527 | In the bytes of the collector's PUT, with any harmless headers and anything behind, a batch parser finds a request for the server whose body is read as exactly the lines printed |
| PutRequests.TakeBody | src/botz.c:620-630 | serv_put_cb on a body that shares the memory of the connection's buffer: all its lines are taken in order, and what follows the body in the buffer stays |
| PutRequests.Handle | src/botz.c:470-492 | A PUT to a known server that is ready: its lines are events of the master in order, its response is queued, and exactly its body leaves the buffer |
| EndToEnd.TextRead | src/serv.c:40-42 | wsep takes a printed line apart into NID and numbers |
| EndToEnd.PutDelivers | src/servd.c:424 | A PUT's body is read as exactly the lines that were printed into it |
| EndToEnd.ReportServer | src/x_node.c:247 | Whatever report a history logs covers a server if and only if it came in a line of that server |
| EndToEnd.LinesArrive | src/serv.c:45-52 | If a server's lines arrive, with any other events in between: for any live consumer that is above the line's host, when a line comes, exactly for certain NIDs, its k_node with the server is there if and only if a line has one of these NIDs, and sums up exactly the lines that do |
| EndToEnd.HostSums | src/serv.c:45-52 | So for a host to which among the lines' NIDs exactly one leads: its sums are those of the lines with that NID |
| EndToEnd.UniverseSums | src/x_node.c:246-252 | And for U, without any condition: those of all the server's lines |
| EndToEnd.LedByTable | src/lnet.c:42-66 | If networks' files are read before the server's lines come, the NID table in the end shows where all the lines went |
| EndToEnd.CountersArrive | src/servd.c:289-298 | For a collector's run and a master's run in which the lines it sent arrive: the k_node's sum plus what the cycles missed whose print or PUT failed is last counter minus first counter over all lifetimes of the server's targets, and the sum alone if none failed |
| Masters.Master.LeaveParent | src/x_node.c:125-129 | The node leaves its parent's list and count, and has no parent |
| Masters.Master.HandChildren | src/x_node.c:131-132 | The loop moves every child to the top, in order |
| Masters.Master.Detach | src/x_node.c:125-143 | The node leaves its parent and the name table, and its children go to the top, in order |
| Masters.Master.DropPairs | src/x_node.c:120-123 | For a consumer or a provider: exactly the pairs of the node go that k_destroy reaches from the top of the other side |
| Masters.Master.XDestroy | src/x_node.c:115-144 | Both together, for any consumer or provider, with or without children |
| Masters.Master.ReapJob | src/job.c:24 | For a childless job of a reachable state: exactly the job and all its pairs go |
| Masters.Master.JobZombie | src/job.c:8-28 | The three branches of the timer callback |
| Masters.Master.AddCluster | src/clus.c:43-83 | As one step of the machine; the invariant holds afterwards |
| Masters.Master.AddDomain | src/clus.c:16-21 | As one step of the machine |
| Masters.Master.AddFs | src/master.c:155 | As one step of the machine |
| Masters.Master.AddServ | src/serv.c:9-31 | As one step of the machine |
| Masters.Master.OnClusLine | src/clus.c:101-149 | As one step of the machine |
| Masters.Master.OnServLine | src/serv.c:45-52 | With the host's name, as one step of the machine |
| Masters.Master.OnZombie | src/job.c:8-28 | As one step of the machine |
| Ordering.OneKey | src/k_heap.c:170-176 | Under one key the comparison is that of the rates, sums or pending amounts of that statistic, or of the times |
| Ordering.LessMeans | src/k_heap.c:161-180 | The comparison is lexicographic: less exactly if the first key on which the nodes differ is less, equal exactly if they agree on all keys, and antisymmetric |
| Ordering.CmpTrans | src/k_heap.c:161-180 | It is transitive |
| Ordering.CmpTotal | src/k_heap.c:161-180 | It is total and reflexive |
| Ordering.KTopCmp | src/k_heap.c:161-180 | The loop over t_spec, which ends at the first offset beyond the node, computes it |
| Heaps.KHeap.constructor | src/k_heap.c:13-23 | An empty heap of the given limit |
| Heaps.KHeap.LesserChild | src/k_heap.c:33-62 | The child that is no greater than its sibling, if there is one |
| Heaps.KHeap.SiftDown | src/k_heap.c:33-62 | From a heap with one entry too great at the root, a permutation that is a heap |
| Heaps.KHeap.SiftUp | src/k_heap.c:64-88 | From a heap with one entry too small at the end, a permutation that is a heap |
| Heaps.KHeap.AddFull | src/k_heap.c:33-62 | A full heap replaces its least entry if and only if the new node compares greater |
| Heaps.KHeap.Add | src/k_heap.c:64-88 | If the heap held the greatest `limit` of the candidates so far, it holds the greatest `limit` of those and the new one |
| Heaps.KHeap.Order | src/k_heap.c:90-125 | Sorting in place leaves a permutation in which no entry compares greater than one before it |
| Heaps.RootIsLeast | src/k_heap.c:33-62 | In a heap no entry compares less than the root |
| Heaps.TopOfSkip | src/k_heap.c:33-62 | Leaving out a candidate no greater than the root of a full heap keeps the greatest |
| Heaps.TopOfReplace | src/k_heap.c:33-62 | Putting a greater candidate in the root's place keeps the greatest |
| Walks.WalkReaches | src/k_heap.c:127-159 | The walk ends at (a, b) if and only if a is d0 below x0, b is d1 below x1, every pair on the way is tracked, and every consumer on the way passes the filter |
| Walks.VisitDistinct | src/k_heap.c:127-159 | No pair is visited twice |
| Walks.NothingMissed | src/k_heap.c:127-159 | In every reachable state a walk that ends at job level or above visits every tracked pair at its depth |
| Walks.HostsFound | src/k_heap.c:127-159 | In every reachable state a walk ending at hosts visits a tracked pair below its start if and only if it starts at the host or the host's present job is tracked with x1 |
| Walks.HostsFoundAbove | src/k_heap.c:127-159 | The same in terms of all the host's ancestors, from any level |
| Walks.MovedHostMissed | src/k_heap.c:127-159 | So a host just moved to a new job is missed by every walk from above that job |
| Walks.MovedHostExample | src/clus.c:134-148 | A run in which that happens: a report, then a line naming a new job; the pair is tracked and lies below (U, server), and the walk from there does not visit it |
| Walks.OwnerFilter | src/top.c:80-92 | From job level or above to job level or below, the filter keeps exactly the visited pairs whose job has that owner |
| Walks.VisitSelects | src/k_heap.c:127-159 | The pairs visited, each once: those d0 and d1 below the start with every pair on the way tracked and, if an owner is given, every job on the way the owner's |
| Walks.SelectedJobs | src/top.c:80-92 | From job level or above to job level or below, with an owner given exactly those whose job is the owner's |
| Tops.Limit | src/top.c:120-123 | Between 1 and 4096: a limit in that range is kept, and for none and for larger ones it is 4096 |
| Tops.Query.constructor | src/top.c:125-128 | Before the walk nothing is freshened and the heap is empty |
| Tops.Query.Offer | src/k_heap.c:156-157 | Freshening one more node and offering it keeps the heap right, although nodes in it are shared with the table |
| Tops.Query.Walk | src/k_heap.c:127-159 | After the walk exactly the visited pairs are freshened and the heap holds the greatest of them |
| Tops.Query.Walk0 | src/k_heap.c:149-151 | The same for the loop over consumers |
| Tops.Query.Walk1 | src/k_heap.c:152-154 | The same for the loop over providers |
| Tops.Query.Answer | src/top.c:136-141 | The list printed after sorting answers the query |
| Tops.Query.Run | src/top.c:135-141 | Walk, sort and list together |
| Tops.SortedHeapAnswers | src/top.c:135-141 | A sorted heap of the greatest candidates lists min(limit, candidates) distinct candidates, none less than a later one, none less than one left out |
| Tops.Ask | src/top.c:135-141 | Only flows change, and only those of visited pairs |
| Tops.TopOfNodes | src/top.c:94-145 | End to end for nodes that exist, as one step of the machine |
| Tops.TopQuery | src/top.c:94-145 | End to end, unknown nodes included: not found exactly for those |
| Listings.ListingShows | src/serv.c:55-72 | In every reachable state a server's listing shows a host if and only if the host and its present job are both tracked with the server |
| Listings.ServGetR | src/serv.c:55-72 | The recursion lists and freshens what a walk from x0 down to the hosts visits, in that order |
| Listings.ServGetBelow | src/serv.c:67-70 | The same for the loop over the children |
| Listings.ServGet | src/serv.c:74-81 | From the universe: each listed pair is freshened, nothing else changes, and it is one step of the machine |
| Places.CycleMeans | src/servd.c:341-375 | What a cycle reads and keeps, in terms of what the three directories show: exactly one reading for each client of each target that could be read, with the target's and client's names and counters, in the order of directories, targets and clients; the targets kept are those that could be read somewhere and those found for the first time |
| Readings.Telescopes | src/servd.c:289-298 | Over any sequence of readings, the differences to the readings before add up, over all target records, to last counter minus first counter |
| Collectors.TelescopingDeltas | src/servd.c:244-299 | Between cycles, what was printed for a client plus what failed prints lost is last minus first over all target records there ever were; the printed deltas alone if and only if the lost ones add up to zero |
| Collectors.SentDeltas | src/servd.c:505-527 | The deltas sent to the master for a client are last minus first if and only if those of failed prints and of failed PUTs add up to zero |
| Collectors.CountsAgree | src/servd.c:176-242 | ss_nr_nid is the number of clients, ss_nr_mdt + ss_nr_ost the number of targets, and outside a cycle list and table hold the same targets |
| Collectors.ReadingTaken | src/servd.c:256-298 | One reading keeps tables, records, counts and books right |
| Collectors.CycleOpened | src/servd.c:284-287 | At a time not used before no client is held from an earlier cycle |
| Collectors.CycleEnds | src/servd.c:393-444 | Printing settles every delta of the cycle, as printed or as lost |
| Collectors.Credit | src/servd.c:284-290 | Deltas start from zero in each cycle and grow by the difference |
| Collectors.Collector.constructor | src/servd.c:60-61 | Nothing known, printed or sent; the clock is as given |
| Collectors.Collector.Lookup | src/servd.c:200-242 | A known target is returned unchanged; a new one is listed first, hashed and counted by its type |
| Collectors.Collector.Create | src/servd.c:210-233 | The new target has no records, and every other is as before |
| Collectors.Collector.CreditClient | src/servd.c:273-290 | The client's deltas of this cycle grow by the difference, and the client is counted when new |
| Collectors.Collector.Difference | src/servd.c:269-290 | A target's first reading of a client credits nothing; a later one the difference to the one before |
| Collectors.Collector.CollectNid | src/servd.c:244-299 | A failed reading changes nothing; a good one becomes the record and enters the books |
| Collectors.Collector.Collect | src/servd.c:301-329 | Exactly the readings of the target's clients, in order; none if the directory cannot be opened |
| Collectors.Collector.CollectEntry | src/servd.c:351-368 | The target is found or created under its name and type, read, and kept if it could be read or is new |
| Collectors.Collector.CollectDir | src/servd.c:350-368 | The same for all entries of a directory |
| Collectors.Collector.ListMove | src/servd.c:366-367 | The target heads the list of those seen and is on no other list, wherever it was before |
| Collectors.Collector.Delete | src/servd.c:176-198 | The target leaves the table, the list and its count, with its records |
| Collectors.Collector.Unsee | src/servd.c:337-339 | Every target is unseen and the cycle begins |
| Collectors.Collector.See | src/servd.c:341-375 | The targets kept are those that could be read or are new; the readings are those of all directories, in order |
| Collectors.Collector.DeleteUnseen | src/servd.c:377-381 | Exactly the targets not kept go |
| Collectors.Collector.CollectAll | src/servd.c:331-382 | After the cycle the table holds exactly the targets that could be read in one of the three directories and those seen for the first time; the log has one more reading for each client of each of them, in order; a new target's type is that of the first directory it shows up in |
| Collectors.Collector.Sweep | src/servd.c:407-426 | One line for each client seen this cycle whose deltas are not all zero; exactly the others not seen are forgotten |
| Collectors.Collector.PrintStats | src/servd.c:393-444 | The same with its failures: without a stream nothing changes, and what a failed print loses is exactly the deltas the clients held |
| Collectors.Collector.SendStats | src/servd.c:505-527 | What was printed is sent, or lost to the master if the PUT fails; nothing is sent if printing failed |
| Collectors.Collector.SetClock | src/servd.c:540-548 | The master's reply becomes interval and offset; the timer starts again exactly if one of them changes |
| Collectors.Collector.Clock | src/servd.c:529-551 | One cycle: readings, survivors, the clock set by the reply, and all invariants hold again; the lines printed and sent, or lost, add up to exactly what the cycle's readings add; new targets are fresh |
| CollectorRuns.Run | src/servd.c:693-697 | A new collector, after any sequence of cycles at times of their own: what it has printed and sent for a client is what the cycles that went well report, as a function of what /proc showed in them |
| CollectorRuns.Turn | src/servd.c:529-551 | One more cycle keeps that |
| CollectorRuns.RunTelescopes | src/servd.c:244-299 | After any run: printed plus what the cycles that failed to print missed, and sent plus what those missed that failed to print or send, are last counter minus first counter over all lifetimes of targets; exactly that is printed if every print succeeds |
| CollectorRuns.RunPrints | src/servd.c:244-299 | The same for the collector's own log of readings and its targets, if every print succeeds |
| CollectorRuns.ReportedIsGain | src/servd.c:244-299 | What is reported is last minus first if and only if what is missed adds up to zero |
| CollectorRuns.GrownRenamed | src/servd.c:289-298 | What readings add up to does not depend on how targets are told apart |
| CollectorRuns.TurnedMeans | src/servd.c:331-382 | The reference for whole runs, cycle by cycle, in terms of what the directories show |
| CollectorRuns.ThreeExample | src/servd.c:73-77 | A run in which each of the three directories contributes its difference |
| CollectorRuns.LossExample | src/servd.c:393-444 | A run in which deltas are lost: two cycles show a counter, and the second fails to print |
| NBufs.NBuf.constructor | src/n_buf.c:10-23 | An empty buffer of the given size |
| NBufs.NBuf.Length | src/n_buf.h:39-43 | The number of bytes held |
| NBufs.NBuf.Clear | src/n_buf.h:33-37 | Nothing is held |
| NBufs.NBuf.Pullup | src/n_buf.h:51-60 | The contents move to the front unchanged |
| NBufs.NBuf.Fill | src/n_buf.c:25-52 | What is read is appended as far as there is room; a full buffer is an error; end of file and error are told apart |
| NBufs.NBuf.Append | src/n_buf.c:154-156 | The contents grow by exactly those bytes |
| NBufs.NBuf.Write | src/n_buf.c:145-161 | A prefix is appended; less than all only if the buffer is full afterwards |
| NBufs.NBuf.Drain | src/n_buf.c:54-79 | The bytes written are taken from the front, none on an error; eof exactly if nothing is left; no error if there was nothing to write |
| NBufs.NBuf.Get | src/n_buf.c:81-95 | Exactly len bytes, or none if there are fewer |
| NBufs.NBuf.GetMsg | src/n_buf.c:97-117 | The first line without its newline, or none exactly if there is no newline |
| Http.LineRead | src/botz.c:245-271 | Taking one line from the input and running the read callback changes nothing of what a batch parser would find |
| Http.HeaderRead | src/botz.c:245-271 | The same for a header line |
| Http.StartRead | src/botz.c:494-522 | The same for a request line, blank lines and refusals included |
| Http.AgreesMore | src/botz.c:576 | Agreement with the batch parser survives more input |
| Http.AgreesLine | src/botz.c:596-599 | It survives taking and reading one line |
| Http.AgreesHandled | src/botz.c:620-633 | It survives handling a request and consuming exactly its body |
| Http.NothingYet | src/botz.c:586-600 | With no whole line, or not all of the body, a batch parser finds nothing more either |
| Requests.RequestRead | src/botz.c:494-522 | A batch parser finds any request as it was written: method, path, query string, and exactly the bytes of its body, whose length stands among harmless headers; what follows is left, or not looked at if the connection is to be closed |
| Requests.BlankSkipped | src/botz.c:498-500 | Blank lines before a request are skipped |
| Requests.RequestRefused | src/botz.c:273-295 | A request line of one or two words is refused with 400, a method known to HTTP only with 405, any other with 501 |
| Requests.LengthRead | src/botz.c:264 | strtoul reads lengths as %zu writes them, below 2^64 |
| Requests.ExpectRead | src/botz.c:267-269 | Exactly Expect: 100-continue, in whatever case, asks for the note to go on |
| Botz.AgreesWithBatch | src/botz.c:524-655 | At a callback boundary with no response pending, what was handled is exactly what a batch parser finds in the whole input; with one pending, that and what the rest gives |
| Botz.ChunkingInvisible | src/botz.c:524-655 | Two connections with the same input have handled the same requests, or one a beginning of the other's, however the bytes were cut into reads and mixed with writes |
| Botz.SettledFounded | src/botz.c:586-633 | Everything handled is a beginning of what a batch parser finds |
| Botz.TakesLine | src/botz.c:596-599 | One line keeps the connection on track |
| Botz.TakesRequest | src/botz.c:620-633 | The body given to the handler lies within the buffer, and handling keeps the connection on track |
| Botz.Conn.constructor | src/botz.c:214-224 | A fresh connection is settled |
| Botz.Conn.ReadLines | src/botz.c:586-600 | Reads until the request is ready or the input is used up; a request has begun exactly if a line was not blank |
| Botz.Conn.Send | src/botz.c:539-553 | Exactly the bytes write(2) takes leave, header before body; sent exactly if both are out and the response was ready |
| Botz.Conn.Handle | src/botz.c:620-630 | The request asked for is the one handled, its response is queued, and exactly its body leaves the buffer whatever the handler reads |
| Botz.Conn.Advance | src/botz.c:539-572 | Goes on exactly if no response is pending or its last byte just left; closes exactly on a write error or after the last response |
| Botz.Conn.AtEnd | src/botz.c:602-611 | At the end of input the connection closes exactly if no request has begun; otherwise the request is there or is refused |
| Botz.Conn.Continue | src/botz.c:613-618 | The note to go on is queued exactly if asked for and the request is not ready |
| Botz.Conn.Feed | src/botz.c:574-611 | Takes as much input as there is room for, and closes exactly on a read error, a full buffer, or an end of input where no request has begun |
| Botz.Conn.Serve | src/botz.c:574-654 | The second half of the callback: what is complete is handled, and the connection is settled |
| Botz.Conn.IoCb | src/botz.c:524-655 | The whole callback: exactly when it closes, which bytes it takes and writes, what it queues, how many responses it counts as sent; otherwise it leaves the connection settled and waiting for the right events |
| Queries.QueryEscape | src/xltop.c:106-126 | The write pointer leaves the escaped string in a buffer three times as long |
| Queries.EscapeFree | src/xltop.c:112-121 | An escaped string contains no separator, and is empty only for the empty string |
| Queries.DecodeEscape | src/query.c:30-53 | Decoding undoes escaping, whatever follows |
| Queries.QueryAdd | src/xltop.c:128-153 | The query string is the one for all fields so far and the new one |
| Queries.QDecode | src/query.c:30-53 | The in-place loop, which looks for the end only after the first character, leaves the decoded string, touches nothing outside, and reports failure exactly if decoding stopped early after at least one escape |
| Queries.HexMeans | src/query.c:43-47 | Hexadecimal digits of either case are read, and those of upper case written |
| Queries.DecodeMeans | src/query.c:35-47 | A plus is a space, a percent sign and two digits the byte they stand for, any other character itself |
| Queries.DecodeChar | src/query.c:35-47 | One round of the loop decodes one character |
| Queries.PutEnd | src/query.c:50-52 | The final NUL is put before the byte is looked at that tells failure |
| Parsing.StrSep | src/query.c:62 | strsep in place: a NUL is put at the first separator, and both halves of the string are where they were |
| Parsing.DecodeAt | src/query.c:30-53 | Wherever it starts, q_decode turns the C string there into the decoded one; of an empty string it leaves the NUL, and it is the string behind that NUL that is decoded; memory behind the end of that string is untouched |
| Parsing.Piece | src/query.c:59-77 | One round of the loop in place: which field is found, where it lies, and what is left for the next round |
| Parsing.HereStill | src/query.c:66-75 | Later rounds do not touch the fields found before |
| Parsing.ParseFields | src/query.c:59-93 | The loop in place: what the parsers are given, in order, whether all accept it, which fields are set; the fields lie in memory as the parsers saw them |
| Parsing.QueryParse | src/query.c:55-103 | Passes if and only if every field found is known and accepted and every required one is given; told apart is the case of an empty value at the end of the string's memory, where q_decode would read on behind it |
| RoundTrips.QueryRoundTrip | src/query.c:55-77 | For any list of fields without NULs, empty ones included: parsing what query_add builds finds exactly these fields, and reads nothing behind them, if and only if no name is empty, after an empty value names and values are free of & ; % + (names of = too), and the last value is not empty or some field after an empty value needs escapes |
| RoundTrips.RawRead | src/query.c:59-84 | A string that was decoded once too often still yields the fields if and only if they are all plain and the last value is not empty or there is memory behind the string |
| RoundTrips.FieldsFit | src/query.c:55-77 | For any string without NULs: the fields found weigh no more than it does; and as much only if they are all plain and the last value is not empty or there is memory behind the string |
| RoundTrips.FoundFits | src/query.c:55-77 | The server never finds more than the client added |
| RoundTrips.Separators | src/query.c:62 | An ampersand and a semicolon separate fields alike |
| RoundTrips.EmptyValueExample | src/query.c:34-48 | An input for which the round trip fails: limit= and sort=%72 are read as limit= and sort=r |
| RoundTrips.GapExample | src/query.c:34-48 | Inputs for which it holds although the last value may be empty: an earlier empty value and an escape leave a gap |
| TopQueries.MakeTopQuery | src/xltop.c:905-948 | From the user's words to the query string: nodes by type and name, depths and limit in decimal, keys, owner |
| TopQueries.ValuesArrive | src/query.c:55-77 | Fields with names and values are found as they were sent; if the last value is empty, all but the last, reading on behind the end |
| Numbers.DecimalRead | src/query.c:23-28 | strtoull in base 0 reads what %zu writes, for all numbers below 2^64 |
| TopGets.NodeArgRead | src/x_node.c:190-205 | A node's argument leads to its type and name, whatever the name contains |
| TopGets.NodeArgMeans | src/x_node.c:190-205 | The seven types by their names, with a colon or an equals sign before the node's name |
| TopGets.XLookupStr | src/x_node.c:190-205 | The loop over the types finds the node that the argument names, or null |
| TopGets.ArgsArrive | src/top.c:155-162 | The value parsers set the nodes, numbers, comparison and owner the user asked for |
| TopGets.ArgsMean | src/top.c:152-162 | The last field of each of the seven names sets its argument; without one depths and limit are 0, and comparison and owner are the default |
| TopGets.PassedMeans | src/top.c:152-169 | A query passes if and only if it has no other fields than the seven, each sort argument can be read, both nodes are given, and its string is not read past the end |
| TopGets.RequestJudged | src/top.c:166-169 | A request is refused if and only if it has more than ten keys; otherwise it passes if and only if its owner is not an empty string |
| TopGets.RequestServed | src/top.c:147-172 | End to end: for a request that passes, top_query_cb is called with exactly what the user asked for, and compares by exactly the keys asked for, in order, or by the default ones if there are none |
| TopGets.TopQueryCb | src/top.c:94-145 | The nodes are looked up, and the answer lists the best of the pairs selected by depths and owner, as one step of the machine |
| TopGets.TopGet | src/top.c:147-172 | Any query string: refused without effect exactly if query_parse refuses it, and answered according to its fields if it passes |
| TopRequests.RequestFound | src/botz.c:494-522 | In the bytes of the client's GET, whatever headers follow, a batch parser finds path and query string as the client built them |
| TopRequests.TopPath | src/master.c:412 | The client's path leads to the entry for top queries |
| TopRequests.Get | src/top.c:147-172 | The handler on a request's query string, in memory of its own, or on none at all |
| TopRequests.Handle | src/botz.c:470-492 | A request that is ready: a GET whose path leads to the top entry is answered with what top_get_cb answers to its query string; for anything else the master's state stays as it is |
| TopRequests.UserServed | src/top.c:147-172 | For what any user asks for with at most ten keys and no empty owner, the GET is answered by the best of the pairs selected: at the depths asked for below the nodes asked for, tracked all the way, and of the owner's jobs if an owner is given; in the order asked for, as one step of the machine |
| SortKeys.TopParse | src/top.c:41-78 | The server takes up to ten words, each a key, and rejects anything else |
| SortKeys.DefaultSpec | src/top.c:22-39 | Without a sort argument: rates, sums, pending amounts, time |
| SortKeys.WordKey | src/top.c:47-71 | Each key's word is read as that key |
| SortKeys.SortKeysArrive | src/top.c:41-78 | The server compares by exactly the keys the client sent, in order, and rejects them if and only if there are more than ten |
| SortKeys.ParseSortKey | src/xltop.c:950-991 | The user's words become a sort argument the server reads as the keys they stand for; none if all are blank |
| SortKeys.KeyWords | src/top.c:47-71 | A key is a letter and a digit: r, s and p for rates, sums and pending amounts, and t for the time |
| SortKeys.UserKeyMeans | src/xltop.c:957-980 | A word stands for bytes written if it starts with a w, for requests if there is a q in it, and else for bytes read; for a rate if there is a slash in it or rates are wanted, and else for a sum; blanks stand for nothing |
| SortKeys.UserKeysKnown | src/xltop.c:975-980 | Every word stands for keys the server knows |
| Strings.SameMeans | src/botz.c:260-268 | strcasecmp: the same characters but for the case of letters |
| Strings.PiecesJoin | src/query.c:62 | Splitting undoes joining: a piece without separators, put behind a separator, is the last piece of the split and the others stay |
| Hashes.StrTable.constructor | src/hash.c:10-36 | The length is 2^shift, the least from 16 on that is at least twice the hint as far as shifts go; all chains are empty |
| Hashes.StrTable.Find | src/hash.c:50-69 | The index is in range, and the entry found is the first of its chain with that key |
| Hashes.StrTable.Ref | src/hash.c:106-111 | What the map has for the key |
| Hashes.StrTable.Set | src/hash.c:95-104 | The map updated at that key and nowhere else; keys stay unique |
| Hashes.EntriesAreMap | src/hash.c:50-93 | All entries together are the map: each key once, with its value |
| Hashes.StrTable.ForEach | src/hash.h:41-66 | One call yields the next of the entries still to come, or nothing exactly if there are none |
| Hashes.StrTable.All | src/clus.c:23-35 | Calling it from (0, NULL) until it stops yields every entry once |

## Left out

- Ewma: doubles are reals and ints unbounded; rounding, NaN and 64-bit wrap-around of counters are not modelled.
- Allocation failure: every allocation succeeds, and a fresh node is one that never existed; reuse of a freed address is not modelled.
- Lnets.Lnet.LookupNid: one network.
- Lnets.Lnet.ReadLine: the line is given; opening the file and getline are not modelled, and tables do not run out of memory.
- Lnets.Lnet.ServMsgCb: what sscanf makes of the numbers is a parameter.
- Masters.Master.OnClusLine: a job's title and start time are not kept, nor when a cluster was last heard of.
- Masters.Master.OnZombie: libev's timer is a step that can be taken whenever it is armed; that it fires after 300 seconds is not modelled.
- Masters.Master: the name tables, the pair table and the collector's tables are maps; that a chained table refines a map is proved once, in Hashes.
- Subscriptions (src/sub.c): nothing in the repository creates one, so the lists walked for them are empty.
- XNodes.KNode.Freshen: the numbers of a k_node are one record field, assigned part by part.
- Tops.TopQuery: printing the results' numbers is not modelled.
- Collectors.Collector.Clock: what /proc shows, parsed, is an input, and so is whether a PUT arrives and what the master replies; the status line's own numbers about the machine are not modelled.
- Collectors.Collector.Sweep: clients come in an arbitrary order rather than in the order of the hash chains.
- Botz.Conn.IoCb: looking up the path (the static entry table and the entries' own lookups) and running the handler are an answer given as an input, except for top queries in TopRequests.Handle and lines of servers in PutRequests.Handle; the header text is given whole, and the capacity of its buffer is not modelled.
- Botz.Conn.Serve: the connection's timeout is not modelled.
- Http.Message: a stream that ends in the middle of a request is answered with status 400, which a batch parser does not see; agreement is stated up to there.
- EndToEnd.CountersArrive: that sscanf with %lf reads integers as printf wrote them is a premise (EndToEnd.ReadsBack); NIDs have no white space in them.
- PutRequests.Handle: the path leads to the server directly; that botz keeps the entry once found is not modelled.
- TopRequests.Handle: paths with .. and paths through other entries are not followed; what is printed of the k_nodes and of the status is a function given as a parameter, and so is the answer to any other request.
- Parsing.ParseFields: value parsers are a test of the field; q_k_top_parse also cuts the sort value's own memory in place, which is not modelled.
- Parsing.QueryParse: where q_decode would read behind the string's memory, the verdict is PastEnd and not what that memory would give; the flag to ignore unknown fields is off, as in its only use (src/query.h:63); value parsers are a test of the field, and what they store is read off the fields in order (TopGets.ArgsOf).
- SortKeys.TopParse: atoi is unbounded.
- TopQueries.MakeTopQuery: depths are not negative; the client's conversion of a negative int to size_t is not modelled.
- MasterRuns.Run: one network; a configuration file is a sequence of events, and what sscanf makes of a line's numbers is a function given as a parameter.
- Hashes.StrTable.Find: how evenly keys are spread is not modelled; masking with 2^shift - 1 is written as the remainder.
- The terminal interface of src/xltop.c, configuration files, sockets, signals and the command line.
