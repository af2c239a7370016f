# The event engine of the workflow framework, modelled and proved

The repository is a small asynchronous task framework: a poller with timers, a load-balancing
connection scheduler, client connections, an HTTP/1 parser and encoder, queues, a thread pool and
fork-join workflows. This project models its in-memory data structures and its protocols in Dafny
and proves what they are for. `dafny verify dfyconfig.toml` checks all of it.

Sequential code that works in place is written as classes and arrays, one module a component;
code in which threads meet is written as a state machine whose steps are the regions the source
protects by a mutex (or a single unlocked access), with an invariant proved of every reachable
state and theorems about every run.

| Module | Source | What is proved |
|---|---|---|
| `RbShape`, `RbTree` | `rbtree.c` | insertion and deletion in place restore every red-black rule and keep the in-order sequence; the height bound; the iterators |
| `PollerIndex` | `poller.c`, under its mutex | the comparison of deadlines is the order of time; the two-tier deadline index is a multiset of deadlines; the timer is never late; what a timeout takes out, and in which order |
| `PollerProtocol`, `PollerOutcomes` | `poller.c`, all threads | one place and one callback for each node, no stale event, deletion by pipe; each callback reports what took the node out |
| `CommScheduler` | `CommScheduler.cc` | the indexed heap under add, remove, acquire, wait and release; never overfilled; the least loaded member is chosen |
| `RouteManager` | `RouteManager.cc` | the circuit breaker keeps its counters exact, never empties the group and forgets no target, while requests come and go |
| `ConnLifecycle` | `Communicator.cc`, client side | each session is handled once, each connection freed once and forgotten by then; when its mutex can still be held; no deadlock |
| `ConnReuse`, `ConnOutcomes` | `Communicator.cc`, client side | a new connection only when none is idle, else the newest that is still linked; runs in which connections are reused; a session is told of success if and only if its reply was complete |
| `HttpSyntax`, `HttpParsing`, `HttpParserObject` | `http_parser.c` | the parser object refines a function for which splitting the input makes no difference |
| `HttpGrammar`, `HttpFolding`, `HttpFraming` | `http_parser.c` | exactly which lines are taken and which refused, how folded values are read, where a message ends and whether its connection is kept |
| `HttpRoundTrip`, `HttpMessageOut`, `SendVectors`, `HttpDelivery` | `HttpMessage.cc`, `Communicator.cc`, `poller.c` | what encode lays out is sent once, from its first byte on, fails only with the socket, and is read back unchanged |
| `HttpChunks`, `HttpChunkCoding` | `HttpUtil.cc`, `http_parser.c` | when the chunk cursor reads what the parser stepped over, and when it is lost; a body put into chunks is read back |
| `MsgQueue` | `msgqueue.c` | one FIFO, no lost wakeup, the bound on pending messages |
| `ThreadPool` | `thrdpool.c` | chain-join shutdown: every task once and in order, at most one more each once it begins, every worker joined once, freed last |
| `SeriesQueue`, `ForkJoin`, `TreeChanges` | `Workflow.cc`, `SubTask.cc` | the ring is a deque; tasks run once and in order, also while tasks are pushed and series canceled; a parallel task ends after all its series, and everything comes to rest |

What comes from outside is an input: epoll, the pipe, writev and connect answer as they like within
their contracts, the clock is a parameter, allocation succeeds. Integers are unbounded except where the
source's width shows: `(size_t)-1` as a length, the wrap of `maxlen - 1`, the clamp of `strtol`.

Where the code does not do what its documentation, or a reader, would expect, the model follows the code:

- `msgqueue.h` promises at most twice `maxlen` pending messages. With `maxlen` 0 the limit wraps and
  there is none: `MsgQueue.BoundedIffRoom` proves the promise for exactly the other queues, and
  `MsgQueue.BoundReached` that the factor of two is needed.
- `HttpChunkCursor` searches the carriage return of a chunk-size line with `strchr`. A NUL byte in the
  line, which the parser lets pass, ends the search, and the source goes on from a null pointer:
  `HttpChunks.LostOnNul` is such a body. `HttpChunks.ReadsAllIffClean` proves, of every body the parser
  accepts, that the cursor returns the parser's chunks and ends if and only if no size line holds a
  NUL byte, the last one aside, where it does no harm (`HttpChunks.NulInLastLine`).
- A connection is not always released at a reference count of 0. `ConnLifecycle.FreedOnce` proves that the
  count is 0 if and only if the connection's connect has been answered for, so that it came to read or
  write, and 1 otherwise; `ConnLifecycle.FailedConnect` is a run that ends in a release at 1.
- `handle_incoming_reply` unlocks the target's mutex before the connection's (`Communicator.cc:629-630`). When a
  connection ends with its reply complete but not announced yet, the handler that sees the end leaves the connection to
  the one that has the announcement, which needs the target's mutex only: it may serve the session, drop the last
  reference and release the connection, with the mutex it destroys still held. `ConnLifecycle.HeldRun` is such a run.
  `ConnLifecycle.HeldAtRelease` proves of every run that the mutex is held at a release if and only if another handler
  stands between the two unlocks, and `ConnLifecycle.HeldIffTwoHandlers` that this happens in some run if and only if
  there are at least two handler threads.

## Model

| member | source | states |
|---|---|---|
| RbShape.PlugRedBlack | src/struct/rbtree.c:65-128 | a tree put together at any place is red-black if and only if the part below the place is balanced and fits what the rest demands there; the rebalancing arguments rest on it |
| RbShape.HeightBound | src/struct/rbtree.c:65-363 | a red-black tree of n nodes is at most 2·log2(n+1) high |
| RbTree.RotatedShape | src/struct/rbtree.c:25-63 | a rotation keeps the nodes and their in-order sequence |
| RbTree.RotateLeft | src/struct/rbtree.c:25-43 | the pointer writes leave exactly the links of the rotated tree, parent pointers and root included, and nothing else changes |
| RbTree.RotateRight | src/struct/rbtree.c:45-63 | its mirror image |
| RbTree.RotateLayout | src/struct/rbtree.c:25-63 | the memory after a rotation is the memory layout of the rotated tree, wherever in a larger tree it happens |
| RbTree.LinkNode | src/struct/rbtree.h:140-148 | a node hung at an empty place stands in order between what is before and after that place |
| RbTree.InsertColor | src/struct/rbtree.c:65-128 | from a tree whose only fault is a red node under a red parent the loop ends with a red-black tree over the same nodes in the same order, all pointers consistent |
| RbTree.EraseColor | src/struct/rbtree.c:130-220 | from a tree that is one black node short at one place the loop ends with a red-black tree over the same nodes in the same order |
| RbTree.Unlink | src/struct/rbtree.c:242-289 | a node with at most one child is replaced by that child in all links |
| RbTree.Replace | src/struct/rbtree.c:256-272 | the successor takes over place, links and colour of the deleted node |
| RbTree.EraseInner | src/struct/rbtree.c:232-274 | deleting a node with two children: the order lacks just that node, and the tree is red-black or one black node short where the fixing starts |
| RbTree.Erase | src/struct/rbtree.c:222-294 | deleting any node of a red-black tree leaves a red-black tree whose in-order sequence lacks exactly that node |
| RbTree.First | src/struct/rbtree.c:299-309 | the first node of the in-order sequence, null for the empty tree |
| RbTree.Last | src/struct/rbtree.c:311-321 | the last one |
| RbTree.Next | src/struct/rbtree.c:323-344 | the in-order successor, null at the end |
| RbTree.Prev | src/struct/rbtree.c:346-363 | the in-order predecessor, null at the beginning |
| RbTree.CmpIsTime | src/poller/poller.c:139-148 | comparing seconds first and nanoseconds after is comparing the times in nanoseconds |
| RbTree.Later | src/poller/poller.c:1380-1386 | the deadline of a timer is the time now and the time given, added up in nanoseconds |
| RbTree.Deadline | src/poller/poller.c:1089-1099 | the deadline of a node is the time now and the milliseconds given, added up in nanoseconds |
| PollerIndex.Poller.TreeInsert | src/poller/poller.c:150-187 | the node enters after all deadlines no later than its own and before all later ones; tree_first and tree_last are again the ends |
| PollerIndex.Poller.TreeErase | src/poller/poller.c:189-200 | exactly that node leaves the sorted sequence; the cached ends follow |
| PollerIndex.Poller.InsertNode | src/poller/poller.c:1060-1087 | one deadline more in the index, whichever tier it goes to, and the timer is still no later than any |
| PollerIndex.Poller.Detach | src/poller/poller.c:212-215 | the in_rbtree flag leads to the container the node is in; it leaves and nothing else does |
| PollerIndex.Poller.TimerNeverLate | src/poller/poller.c:1080-1086 | in every state of the index the timer is armed for a time, in nanoseconds, no later than any pending deadline |
| PollerIndex.Poller.SetTimer | src/poller/poller.c:819-846 | arms the pending deadline that is least in nanoseconds, or disarms when there is none |
| PollerIndex.Poller.HandleTimeout | src/poller/poller.c:762-806 | takes out the list nodes due by now, in nanoseconds, and the tree nodes due before it, no others, each once, list first, both in deadline order; nodes forgets them |
| PollerIndex.Poller.Add | src/poller/poller.c:1173-1188 | refused if the descriptor has a node, else linked, indexed by descriptor, and its deadline pending |
| PollerIndex.Poller.Del | src/poller/poller.c:1209-1236 | the node of the descriptor, if any, leaves container and index |
| PollerIndex.Poller.Mod | src/poller/poller.c:1278-1314 | the new node takes the old one's place in index and deadlines, or nothing happens if there was none |
| PollerIndex.Poller.SetTimeout | src/poller/poller.c:1339-1357 | the node changes its deadline or loses it, and nothing else about the index changes |
| PollerIndex.Poller.AddTimer | src/poller/poller.c:1388-1390 | a timer is pending without a descriptor |
| PollerProtocol.OnePlaceEach | src/poller/poller.c:1138-1441 | in every reachable state each node ever added is in just one of tree, lists, pipe, the poller thread's hands, or delivered, and nodes[fd] points to it exactly while it is linked |
| PollerProtocol.NeverStale | src/poller/poller.c:858-911 | no event in the poller thread's hands refers to a node that has been called back for |
| PollerProtocol.StopDeliversAll | src/poller/poller.c:1397-1441 | when poller_stop returns every node ever added has been called back for exactly once |
| PollerProtocol.DeletedStaysDeleted | src/poller/poller.c:1199-1240 | whatever races with it, a node deleted in a running poller is delivered as deleted |
| PollerOutcomes.ReportsItsFate | src/poller/poller.c:1199-1441 | in every run what a callback reports is what took the node out of its container: deleted by del, modified by mod, finished or failed by its event, failed by the timeout, stopped by the stop; and only one of them does, whatever races with it |
| PollerProtocol.StateStays | src/poller/poller.c:202-222 | the state of a removed node is never overwritten |
| PollerProtocol.Kept | src/poller/poller.c:733-921 | every step of the poller thread, of a caller and of the stopping thread keeps the invariant |
| PollerProtocol.Always | src/poller/poller.c:733-1441 | the invariant holds throughout every run |
| CommScheduler.CmpIsRatio | src/net/CommScheduler.cc:155-167 | cross-multiplying orders targets as their ratios of load to limit do |
| CommScheduler.RootIsLeast | src/net/CommScheduler.cc:169-189 | in a heap ordered by load the root is least loaded |
| CommScheduler.SumDominated | src/net/CommScheduler.cc:383-425 | if every member is at its limit the group is at its own: the pigeonhole behind acquire |
| CommScheduler.CommSchedGroup.RootHasRoom | src/net/CommScheduler.cc:408-415 | below its limit the group's heap is not empty and its root is a least loaded member with room |
| CommScheduler.CommSchedGroup.HeapAdjust | src/net/CommScheduler.cc:169-189 | the climb permutes the heap, back-pointers and all, and restores the order towards the root; swapping on equal it ends strictly below a less loaded parent, and otherwise only members with more load than the target have moved |
| CommScheduler.CommSchedGroup.Heapify | src/net/CommScheduler.cc:192-247 | sinking a position restores the order of the whole heap |
| CommScheduler.CommSchedGroup.HeapInsert | src/net/CommScheduler.cc:249-270 | one member more, the array doubled when full, order and back-pointers kept |
| CommScheduler.CommSchedGroup.HeapRemove | src/net/CommScheduler.cc:272-285 | the last element fills the gap and climbs, then sinks: order and back-pointers are whole again |
| CommScheduler.CommSchedGroup.Add | src/net/CommScheduler.cc:328-357 | exactly the free targets without waiters are admitted; the sums grow by theirs; one who waits for the group is signalled if there is room then; every refusal leaves the group alone, signals nobody and says why |
| CommScheduler.CommSchedGroup.Remove | src/net/CommScheduler.cc:359-381 | exactly a member without waiters leaves, with its share of the sums |
| CommScheduler.CommSchedGroup.Acquire | src/net/CommScheduler.cc:389-424 | below its limit the group grants a member of least load that had room, which alone is charged; at it the caller waits, and is counted, or is denied |
| CommScheduler.CommSchedGroup.Woken | src/net/CommScheduler.cc:397-415 | back from a wait it is granted if there is room, also when the wait has timed out, else waits again or is denied; the count of waiters follows |
| CommScheduler.CommSchedTarget.Acquire | src/net/CommScheduler.cc:79-124 | granted exactly below the limit, the group's heap and sums following; at it the caller waits or is denied; of the other members nothing changes but heap places |
| CommScheduler.CommSchedTarget.Woken | src/net/CommScheduler.cc:96-114 | back from a wait the same, the count of waiters following |
| CommScheduler.CommSchedTarget.Release | src/net/CommScheduler.cc:127-153 | one load less for target and group and no other change but heap places; kept alive, the target ends above all its equals on the way, and otherwise no member that is not more loaded gives way to it; those who wait for the target are signalled before those who wait for the group |
| CommScheduler.CommSchedGroup.constructor | src/net/CommScheduler.cc:289-319 | an empty group is in order |
| RouteManager.RouteResultEntry.Request | src/net/CommScheduler.h:94-109 | a request through the route's group gets one of the route's targets exactly when the group has room, and leaves the breaker in order |
| RouteManager.RouteResultEntry.Woken | src/net/CommScheduler.cc:397-415 | so does a request that has waited |
| RouteManager.RouteResultEntry.Release | src/net/CommScheduler.cc:127-153 | releasing a target leaves the breaker in order, also if the target has left the group since |
| RouteManager.RouteResultEntry.NotifyUnavailable | src/manager/RouteManager.cc:215-239 | a member leaves and gets a breaker node, unless it is the last one |
| RouteManager.RouteResultEntry.NotifyAvailable | src/manager/RouteManager.cc:241-253 | the target is in the group, and no other target moves |
| RouteManager.RouteResultEntry.CheckBreaker | src/manager/RouteManager.cc:255-281 | the targets whose breaker has timed out are back, their nodes gone, the other nodes kept in order |
| RouteManager.RouteResultEntry.EveryoneBack | src/manager/RouteManager.cc:255-281 | once all breakers have timed out one check makes the group complete |
| RouteManager.RouteResultEntry.AddGroupTargets | src/manager/RouteManager.cc:153-184 | a target for each address, counted in nleft and all in the group, if each can be created; else none of them stays in it |
| ConnLifecycle.ServedAtMostOnce | src/net/Communicator.cc:567-645 | in no interleaving is a session released or handled twice |
| ConnLifecycle.EveryoneServed | src/net/Communicator.cc:723-772 | when all results are delivered and handled each accepted session has been released and handled exactly once, a refused one never |
| ConnLifecycle.NothingLeaks | src/net/Communicator.cc:567-772 | by then every connection has been freed |
| ConnLifecycle.FreedIsForgotten | src/net/Communicator.cc:309-317 | a freed connection is on no list and no event of it is to come but of replaced nodes; no thread is at it but for those events and, its mutex still held, a handler between the unlocks of handle_incoming_reply |
| ConnLifecycle.HeldAtRelease | src/net/Communicator.cc:620-643 | in every run the mutex is held when release_conn destroys it if and only if another handler stands between its two unlocks, having left the connection to this one |
| ConnLifecycle.HeldRun | src/net/Communicator.cc:575-643 | from any start with a requester and two handlers, a run to such a release |
| ConnLifecycle.HeldIffTwoHandlers | src/net/Communicator.cc:622-630 | that a mutex is held at its release happens in some run if and only if there are at least two handler threads |
| ConnLifecycle.NeverStuck | src/net/Communicator.cc:567-645 | the target's mutex, the connections' mutexes and the poller's wait never block one another: as long as a thread is at work, or a node, an event or a result is left, some step can be taken without anything from outside |
| ConnLifecycle.FreedOnce | src/net/Communicator.cc:642-643 | release_conn is called once for a live connection, at 0 references if and only if its connect has been answered for, else at 1 |
| ConnLifecycle.FailedConnect | src/net/Communicator.cc:867-926 | a run in which a refused connect leads to a release at 1 |
| ConnLifecycle.ListAndPollerInStep | src/net/Communicator.cc:606-612 | list_del is called only for an entry on the idle list, mpoller_add only for a socket without a node |
| ConnLifecycle.StepKept | src/net/Communicator.cc:1303-1405 | every step of request, of the result handlers and of the poller keeps the invariant |
| ConnReuse.OpensOnlyWithoutIdle | src/net/Communicator.cc:1309-1327 | in every run a thread about to open a connection has looked at the idle list for this session, found it empty, and not looked again |
| ConnReuse.TakesNewest | src/net/Communicator.cc:1309-1316 | in every run a request that finds idle connections takes, of all idle ones, the one that became idle last |
| ConnReuse.IdleIsAlive | src/net/Communicator.cc:585-598 | in every run each connection on the idle list is in state idle and one that its last reply has left alive |
| ConnReuse.TakesLinkedOrOpens | src/net/Communicator.cc:1309-1340 | from every reachable state a request that nobody keeps waiting goes on by its own steps to the first idle connection that is still linked, giving up those before it, with its session there and no connection more; or to opening one when none is linked |
| ConnReuse.ReuseRun | src/net/Communicator.cc:1303-1405 | from any start with a requester and a handler a run in which a second session is served on the connection of the first, the only one there is |
| ConnReuse.WrittenRun | src/net/Communicator.cc:411-465 | such a run also when neither message goes out at once: the poller writes the rest of the first after the connect and that of the second in place of the idle read |
| ConnOutcomes.SuccessIffAnswered | src/net/Communicator.cc:567-644 | in every run a session that has been served was told of success if its reply had been completed and of failure if not, never of both, whatever befell its connection |
| HttpSyntax.StartLineStable | src/protocol/http_parser.c:234-295 | what the stage makes of some bytes it makes of any longer input beginning with them |
| HttpSyntax.HeaderNameStable | src/protocol/http_parser.c:297-330 | likewise for a header name |
| HttpSyntax.HeaderValueStable | src/protocol/http_parser.c:332-402 | likewise for a header value, which looks one byte ahead for a folded line |
| HttpSyntax.ChunkDataStable | src/protocol/http_parser.c:432-480 | likewise for a chunk |
| HttpSyntax.TrailerPartStable | src/protocol/http_parser.c:482-510 | likewise for a trailer line |
| HttpParsing.AppendCounts | src/protocol/http_parser.c:561-634 | the count handed back never underflows nor exceeds what was handed in |
| HttpParsing.AppendSplit | src/protocol/http_parser.c:561-634 | two calls agree with one call on both pieces |
| HttpParsing.SplitIndependent | src/protocol/http_parser.c:561-634 | verdict, start line, header fields, flags and offsets do not depend on how a message is cut up, nor do bytes consumed and body of a complete one |
| HttpParserObject.HttpParser.ScanStartLine | src/protocol/http_parser.c:234-295 | the loop over the fixed buffer finds the start line the grammar says, or that more is needed, or a fault |
| HttpParserObject.HttpParser.ScanHeaderName | src/protocol/http_parser.c:297-330 | the same for a name, which is left in namebuf as a C string |
| HttpParserObject.HttpParser.ScanHeaderValue | src/protocol/http_parser.c:332-394 | the same for a value with its folded lines joined and trailing blanks cut |
| HttpParserObject.HttpParser.ParseMessageHeader | src/protocol/http_parser.c:404-428 | the loop over the stages reaches the state and verdict of the specification |
| HttpParserObject.HttpParser.CheckMessageHeader | src/protocol/http_parser.c:177-232 | switching on the name's length and comparing with strncasecmp does what looking the name up among the known ones, in any case, does |
| HttpParserObject.NameByLength | src/protocol/http_parser.c:181-229 | the switch on the length leaves out no name and takes none for another |
| HttpRoundTrip.LastTransferEncoding | src/protocol/http_parser.c:221-229 | of any number of fields the last Transfer-Encoding decides whether the body is chunked: it is unless that says identity |
| HttpRoundTrip.LastContentLength | src/protocol/http_parser.c:206-219 | the length is that of the last Content-Length that begins with a digit and is at most 15 long |
| HttpParserObject.HttpParser.SetMessageHeader | src/protocol/http_parser.c:64-102 | the first field of that name, in any case, has the new value and a name equal but for case; a missing one is appended; all others stay |
| HttpParsing.FieldSetSets | src/protocol/http_parser.c:64-102 | the same of the specification, said of the first index with that name and without it |
| HttpParserObject.LineReads | src/protocol/http_parser.c:38-102 | a line, however often rewritten in place, reads as name, colon, space, value, CRLF |
| HttpParserObject.HttpParser.ScanChunkData | src/protocol/http_parser.c:432-480 | the chunk-size line and its data are recognised as the grammar says |
| HttpParserObject.HttpParser.ParseChunk | src/protocol/http_parser.c:512-534 | chunks and trailer up to where the bytes end |
| HttpParserObject.HttpParser.Store | src/protocol/http_parser.c:572-589 | the new bytes follow the old ones, in a larger buffer if need be |
| HttpParserObject.HttpParser.AppendMessage | src/protocol/http_parser.c:561-634 | return value, count and the whole new state are those of the specification of which SplitIndependent and RoundTrip are proved |
| HttpRoundTrip.RoundTrip | src/protocol/HttpMessage.cc:97-184 | parsing an encoded message gives back its start line, its fields in order and its body, with nothing left over |
| HttpRoundTrip.RoundTripInPieces | src/protocol/HttpMessage.cc:97-184 | the same when the bytes come in any pieces |
| HttpRoundTrip.ContentLengthSizes | src/protocol/http_parser.c:206-220 | a Content-Length that spells the body's size is one the round trip asks for |
| HttpRoundTrip.DigitsRead | src/protocol/http_parser.c:210-216 | reading back a number's digits gives the number |
| HttpMessageOut.HttpMessage.AppendOutputBody | src/protocol/HttpMessage.cc:17-50 | the body grows by the bytes given |
| HttpMessageOut.HttpMessage.CombineFrom | src/protocol/HttpMessage.cc:67-95 | the blocks from a place on become one, and the body stays what it was |
| HttpMessageOut.HttpMessage.EncodeHead | src/protocol/HttpMessage.cc:126-164 | the vectors concatenate to start line, header lines and the empty line, or overflow exactly when they do not fit |
| HttpMessageOut.HttpMessage.Encode | src/protocol/HttpMessage.cc:97-184 | at most max vectors that concatenate to the message RoundTrip speaks of; when it fails and with which error |
| HttpGrammar.StartLineTaken | src/protocol/http_parser.c:234-295 | a start line is taken if and only if it is one line of text within the limit that comes apart at its first two spaces |
| HttpGrammar.StartLineRefused | src/protocol/http_parser.c:234-295 | it is refused if and only if the bytes so far can begin no such line: a NUL byte, a bare carriage return, too few spaces, or too long |
| HttpGrammar.HeaderNameTaken | src/protocol/http_parser.c:297-330 | a field name is taken if and only if it is text up to a colon within the limit |
| HttpGrammar.HeaderNameRefused | src/protocol/http_parser.c:297-330 | it is refused if and only if a byte that is no text, or the limit, comes before a colon |
| HttpGrammar.TrailerTaken | src/protocol/http_parser.c:482-510 | any line within the limit is a trailer line, and exactly the empty one ends the trailer |
| HttpGrammar.TrailerRefused | src/protocol/http_parser.c:482-510 | refused if and only if too long or with a bare carriage return |
| HttpGrammar.ChunkTaken | src/protocol/http_parser.c:432-480 | a chunk is taken if and only if its size line reads as a permitted size and its data and two bytes are there; it is the last if and only if the size is 0 |
| HttpGrammar.ChunkRefused | src/protocol/http_parser.c:432-480 | refused if and only if the size line is too long, has a bare carriage return, or no permitted size |
| HttpFolding.FoldedValueReads | src/protocol/http_parser.c:332-402 | however a value is folded and whatever blanks surround its lines, their texts are read joined by single spaces, up to the line that does not begin with a blank |
| HttpFolding.BadByteRefused | src/protocol/http_parser.c:332-402 | after any lines and text, a byte that is no text or a bare carriage return is refused |
| HttpFolding.LongValueRefused | src/protocol/http_parser.c:332-402 | a value longer than the limit, however folded, is refused |
| HttpFraming.KnownByName | src/protocol/http_parser.c:177-232 | the five fields the parser knows are known by their names in any case, and nothing else is taken for them |
| HttpFraming.Framing | src/protocol/http_parser.c:561-634 | behind any header a message ends where the header says: at once (1xx, 204, 304, a request without a length), after the content length, with the chunks, or, a response without either, never before the connection does |
| HttpFraming.ChunkedFraming | src/protocol/http_parser.c:605-633 | a message with a chunked body, extensions and trailer included, ends exactly with it, whatever follows |
| HttpFraming.Persistence | src/protocol/http_parser.c:104-232 | the connection is kept as the last Connection field with a decision says, and without one unless the version is HTTP/1.0 or HTTP/0 |
| HttpFraming.FieldsNoted | src/protocol/http_parser.c:177-232 | the flags for Connection, Keep-Alive, Content-Length and an expectation are set if and only if such a field is there, and the fields are kept in order |
| SendVectors.BreaksIff | src/net/Communicator.cc:342-349 | sending breaks if and only if the socket does while bytes are left; what is left is what the replies before leave |
| SendVectors.RoomSuffices | src/net/Communicator.cc:335-365 | up to IOV_MAX vectors are all sent if and only if the replies before a failure have room for all their bytes |
| SendVectors.CallsSuffice | src/net/Communicator.cc:335-365 | any number of vectors is sent if each reply takes what it is offered and there are as many as it takes |
| SendVectors.CutIsSuffix | src/net/Communicator.cc:351-364 | stepping over n accepted bytes leaves vectors for exactly the rest |
| SendVectors.Advance | src/poller/poller.c:414-430 | the in-place cut of the vector array, everything outside it untouched |
| SendVectors.SendMessageSync | src/net/Communicator.cc:335-365 | what the socket has taken and the vectors left make up the message, also on failure; -1 only if the reply it stopped at was an error, a count only if the socket would block |
| SendVectors.WriteNode.HandleWrite | src/poller/poller.c:377-458 | the same for a write event: complete exactly when no vector is left, failed only on an error, blocked or partial only if the socket would block |
| SendVectors.SendMessage | src/net/Communicator.cc:415-487 | over all writes the socket takes a prefix of the message, and all of it, once, when the result is complete; with write events for every time it blocks, the result is complete if and only if the replies leave nothing over and failed if and only if one breaks it |
| HttpDelivery.Send | src/net/Communicator.cc:467-487 | when sending is complete, what the socket took, cut up in any way, makes a new parser read the method, URI and version, or version, code and phrase, the fields and the body that were to be sent; and sending is complete whenever the socket's replies take it all |
| HttpChunks.SameChunk | src/util/HttpUtil.cc:432-446 | on a chunk the parser accepted, with no NUL byte in its size line, the cursor's strtol and strchr find the same size and the same data |
| HttpChunks.SameSize | src/util/HttpUtil.cc:435-440 | NUL byte or not, the cursor's strtol finds the parser's size, so the last chunk is never missed |
| HttpChunks.CarriageReturnFoundIffClean | src/util/HttpUtil.cc:435-443 | the cursor's search finds the end of the size line if and only if no NUL byte comes first |
| HttpChunks.ReadsAllIffClean | src/util/HttpUtil.cc:419-447 | on every body the parser accepts, next returns exactly the parser's chunks and comes to an end if and only if no size line but the last holds a NUL byte; else it returns the chunks before that line |
| HttpChunks.LostOnNul | src/util/HttpUtil.cc:442-445 | an accepted body of one chunk on which next is lost at once |
| HttpChunks.NulInLastLine | src/util/HttpUtil.cc:436-440 | an accepted body with a NUL byte in its last size line that is read to the end |
| HttpChunks.ChunkedMessageAccepted | src/protocol/http_parser.c:605-633 | every body the parser completes in chunks, in whatever pieces it came, is one the cursor is made for |
| HttpChunks.HttpChunkCursor.Next | src/util/HttpUtil.cc:419-447 | on every accepted body: returns the parser's next chunk, or the end when there is none, or is lost, exactly at a size line strchr fails on |
| HttpChunks.DecodeChunkedBody | src/util/HttpUtil.cc:77-94 | comes to an end if and only if the size lines are clean, with the concatenation of the chunks the parser stepped over |
| HttpChunkCoding.StrtolReads | src/util/HttpUtil.cc:435 | the digits got by dividing by 16, in either case, are read back as the number, white space, a sign and a 0x before them aside, as near as a long comes to it, and nothing of what follows |
| HttpChunkCoding.StrtolReadsNothing | src/protocol/http_parser.c:453 | white space and a sign with no digit behind them are no number |
| HttpChunkCoding.ChunkRoundTrip | src/protocol/http_parser.c:432-534 | a body put together from any blocks, with extensions and a trailer, is accepted; its chunks are the blocks, and the cursor gives them back |
| HttpChunkCoding.Decode | src/util/HttpUtil.cc:77-94 | decoding a body put into chunks gives the concatenation of the blocks |
| MsgQueue.FirstInFirstOut | src/common/msgqueue.c:47-102 | in every run the messages got are a prefix of the messages put |
| MsgQueue.GetMeansNext | src/common/msgqueue.c:84-102 | a get takes the message that has waited longest, and gives up only in nonblocking mode with nothing pending |
| MsgQueue.NoLostWakeup | src/common/msgqueue.c:33-82 | a sleeper sleeps rightly, or whoever will wake it is on its way |
| MsgQueue.BlockingBound | src/common/msgqueue.c:47-102 | while blocking, at most twice maxlen messages are pending, if maxlen is at least 1 |
| MsgQueue.BoundedIffRoom | src/common/msgqueue.h:13-17 | the documented bound holds of exactly the queues with maxlen at least 1 |
| MsgQueue.BoundReached | src/common/msgqueue.h:13-17 | a run in which twice maxlen messages are pending |
| MsgQueue.Kept | src/common/msgqueue.c:33-102 | every step keeps lists, counts, locks and wakeups in order, also while the two heads are one cell |
| ThreadPool.EveryTaskOnce | src/common/thrdpool.c:220-244 | tasks are queued, started or handed to pending, each once, and when destroy returns none is queued |
| ThreadPool.FirstScheduledFirst | src/common/thrdpool.c:36-46 | in every run tasks are taken out, to be run or to be handed to pending, in the order in which they were scheduled |
| ThreadPool.AtMostOneMoreEach | src/common/thrdpool.c:36-66 | once the pool is to terminate, each worker starts at most the one task it was about to get |
| ThreadPool.EveryWorkerJoinedOnce | src/common/thrdpool.c:55-66 | no worker is joined twice or before its end; when destroy returns each has been joined but the one that destroyed the pool |
| ThreadPool.TerminateBeforeSignal | src/common/thrdpool.c:69-90 | a worker that leaves finds terminate set and its waiter waiting |
| ThreadPool.CountsTellsDestroyed | src/common/thrdpool.c:47-52 | back from a task, the count is 0 exactly for the worker whose task destroyed the pool |
| ThreadPool.NothingAfterFree | src/common/thrdpool.c:220-244 | when the pool is freed all workers are gone and nothing can happen to it any more |
| ThreadPool.NeverStuck | src/common/thrdpool.c:55-90 | a destruction that has begun can always go on until the pool is freed |
| ThreadPool.Kept | src/common/thrdpool.c:27-90 | every step keeps counts, tasks and the chain of joins in order |
| SeriesQueue.SeriesWork.ExpandQueue | src/factory/Workflow.cc:44-66 | a full ring moves to one twice as long with its order kept |
| SeriesQueue.SeriesWork.PushFront | src/factory/Workflow.cc:68-80 | the deque grows at its front |
| SeriesQueue.SeriesWork.PushBack | src/factory/Workflow.cc:82-94 | the deque grows at its back |
| SeriesQueue.SeriesWork.PopTask | src/factory/Workflow.cc:113-143 | the front of the deque, then the last task, then the end and one callback |
| SeriesQueue.SeriesWork.Pop | src/factory/Workflow.cc:96-111 | as long as the series is not canceled its next task; once it is, all that is left is given up, the last task included |
| ForkJoin.DispatchedOnceInOrder | src/task/SubTask.cc:3-28 | in every completion order, whatever is pushed or canceled meanwhile, a task is dispatched and done at most once, and only after all before it in its series are done |
| ForkJoin.JoinAfterAll | src/task/SubTask.cc:3-46 | nleft counts the sub-series not finished; a parallel task is done only when all are, and never while dispatch still touches it |
| ForkJoin.EverythingDone | src/task/SubTask.cc:3-46 | when nothing is left to do every task of the whole tree has been dispatched and done exactly once |
| ForkJoin.SubsDone | src/factory/Workflow.cc:202-216 | a parallel task that is done has all tasks of all its sub-series done |
| ForkJoin.NobodyWaits | src/task/SubTask.cc:3-46 | when nothing is left to do no task waits for another |
| ForkJoin.NeverStuck | src/task/SubTask.cc:3-46 | a task that is at work, and not only waiting for its sub-series, can always go on by a step of its own |
| ForkJoin.ActsBounded | src/task/SubTask.cc:3-46 | a run has at most four steps for each task of the tree it ends with, whatever was pushed, canceled or added meanwhile |
| ForkJoin.Kept | src/task/SubTask.cc:3-46 | every step keeps the tree of tasks in order |
| ForkJoin.RearrangedKept | src/factory/Workflow.cc:68-111 | so does every change to the part of the tree that has not begun |
| TreeChanges.PushAllowed | src/factory/Workflow.cc:68-94 | pushing a new task, or a new parallel work with all its series and everything below them, at any place behind those taken out of a series that has not ended is such a change |
| TreeChanges.AddSeriesAllowed | src/factory/Workflow.cc:190-200 | so is adding a new series, with everything below it, to a parallel work that has not begun |
| TreeChanges.CancelAllowed | src/factory/Workflow.cc:96-111 | and dropping all that a canceled series has left, with everything below it |

## Left out

- CommScheduler.CommSchedTarget.Woken: which waiter a signal wakes and when a wait times out are inputs; no claim about fairness or lost wakeups of targets and groups.
- CommScheduler.CommSchedTarget.Release: the product of load and limit is unbounded, so an overflow of size_t is not modelled.
- PollerIndex.Poller.Add: the registration with epoll succeeds; the clock is read before, and the deadline is what RbTree.Deadline makes of it.
- PollerIndex.Poller.HandleTimeout: only the part under the mutex; the callbacks are in PollerProtocol.
- PollerProtocol.OnePlaceEach: one poller thread, and epoll reports only what is registered; a short write to the pipe is not modelled.
- ConnOutcomes.SuccessIffAnswered: tells success from failure; the two kinds of failure, and the error numbers, are left out.
- ConnReuse.TakesLinkedOrOpens: with the mutexes free; that they become free again is NeverStuck's matter.
- ConnLifecycle.NeverStuck: says that some step is possible, not that the peer ever answers.
- ConnLifecycle.EveryoneServed: the client side of one target; servers, streams, the timeouts of next_timeout and the error numbers are not modelled.
- HttpParserObject.HttpParser.AppendMessage: allocation succeeds and appending goes on until the message is complete or refused; http_parser_get_body with its NUL byte, and http_parser_deinit, are left out.
- HttpRoundTrip.RoundTrip: names and values as a peer may send them (section 3.2 of RFC 7230) within the parser's buffers; Content-Length sizes up to 15 digits in ContentLengthSizes, as the parser reads no more.
- HttpMessageOut.HttpMessage.Encode: max is at least 6, as the source stores the start line's vectors without looking; blocks of the body are sequences, so who frees a block is not modelled.
- HttpChunks.HttpChunkCursor.Next: for bodies that the parser completed, as the constructor's message is; where the source would go on from a null pointer the model stops.
- RouteManager.RouteResultEntry.AddGroupTargets: which targets can be created is an input, and a target that is deleted just leaves the group; the single-address route and the tree of routes keyed by a digest are left out, and the thread safety of the breaker mutex is taken for granted.
- ThreadPool.NeverStuck: the number of workers is fixed; thrdpool_increase and a failing thrdpool_create are left out, and the queue is the FIFO that MsgQueue proves it to be.
- ForkJoin.DispatchedOnceInOrder: the deletion of works by dismissal is left out, and a nested dispatch is let go on by itself, which only adds behaviours.
- SendVectors.SendMessage: no bound on the total time of sending; the connection's timeouts are left out.
- The size limit of HttpMessage::append, and expect-continue handling.
- ParallelWork::expand_buf: an array that doubles, easier than the ring.
- SSL, kernel and library calls, failure of malloc and of pthread primitives.
- rb_replace_node, URIParser, StringUtil, the status phrases, WFGlobal, WFServer, WFTaskFactory and the examples: tables, glue or easier members.
