/**
  src/poller/poller.c as seen by several threads: the poller thread, callers of poller_add, del,
  mod, set_timeout and add_timer, and the one that stops the poller.

  A step is a region under poller->mutex, or one action of the poller thread between two of
  them.  Which container poller_insert_node picks and which nodes have expired is left open
  here; PollerIndex says which.  The pipe is a FIFO that one read empties.
 */
module PollerProtocol {
  import opened Collections

  type Node = nat

  datatype Entry = Gone(node: Node) | Quit

  datatype Place = InTree | InTimeoList | InNoTimeoList

  datatype Outcome = Pending | Finished | Failed | Deleted | Modified | Stopped

  // Where the poller thread stands.
  datatype Pc =
    | Idle                                               // no thread
    | Polling                                            // about to call epoll_wait
    | Batch(events: seq<Node>, sawPipe: bool)            // events still to be handled
    | Holding(node: Node, events: seq<Node>, sawPipe: bool)  // removed node, about to call back
    | Draining(got: seq<Entry>, quit: bool)              // in __poller_handle_pipe
    | Checking                                           // about to look for timeouts
    | Expiring(due: seq<Node>)                           // calling back for timed out nodes
    | Exited

  datatype Stopper = Nobody | Joining | Closing

  datatype State = State(
    fd: map<Node, int>,          // data.fd of every node ever added, -1 for a timer
    inRbtree: set<Node>,
    removed: set<Node>,
    outcome: map<Node, Outcome>,
    nodes: map<int, Node>,
    tree: multiset<Node>,
    timeoList: multiset<Node>,
    noTimeoList: multiset<Node>,
    epoll: set<Node>,            // what epoll_wait may return
    pipe: seq<Entry>,
    stopped: bool,
    pc: Pc,
    stopper: Stopper,
    delivered: multiset<Node>)   // history: terminal callbacks

  datatype Action =
    | Add(node: Node, fd: int, into: Place)
    | AddTimer(node: Node, into: Place)
    | Del(fd: int)
    | Mod(fd: int, node: Node, into: Place)
    | SetTimeout(fd: int, into: Place)
    | Start
    | Fetch(events: seq<Node>, sawPipe: bool)
    | Skip
    | Finish(result: Outcome)
    | CallBack
    | EndBatch
    | DrainOne
    | EndDrain
    | Expire(fromList: seq<Node>, fromTree: seq<Node>)
    | ExpireOne
    | EndExpire
    | StartStop
    | Joined
    | Close

  predicate Init(s: State) {
    && s.fd == map[] && s.inRbtree == {} && s.removed == {} && s.outcome == map[] && s.nodes == map[]
    && s.tree == s.timeoList == s.noTimeoList == s.delivered == multiset{}
    && s.epoll == {} && s.pipe == [] && s.stopped && s.pc == Idle && s.stopper == Nobody
  }

  predicate Enabled(s: State, a: Action) {
    match a
    // poller.c:1174 and 1180; where these fail poller_add changes nothing
    case Add(node, fd, into) => node !in s.fd && fd >= 0 && fd !in s.nodes
    case AddTimer(node, into) => node !in s.fd && !into.InNoTimeoList?
    case Del(fd) => fd in s.nodes
    case Mod(fd, node, into) => fd in s.nodes && node !in s.fd
    case SetTimeout(fd, into) => fd in s.nodes
    case Start => s.pc.Idle?
    case Fetch(events, sawPipe) =>
      s.pc.Polling? && NoDuplicates(events) && (forall n :: n in events ==> n in s.epoll) && (sawPipe ==> s.pipe != [])
    case Skip => s.pc.Batch? && s.pc.events != []
    case Finish(result) => s.pc.Batch? && s.pc.events != [] && (result.Finished? || result.Failed?)
    case CallBack => s.pc.Holding?
    case EndBatch => s.pc.Batch? && s.pc.events == []
    case DrainOne => s.pc.Draining? && s.pc.got != []
    case EndDrain => s.pc.Draining? && s.pc.got == []
    case Expire(fromList, fromTree) => s.pc.Checking? && multiset(fromList) <= s.timeoList && multiset(fromTree) <= s.tree
    case ExpireOne => s.pc.Expiring? && s.pc.due != []
    case EndExpire => s.pc.Expiring? && s.pc.due == []
    case StartStop => !s.pc.Idle? && s.stopper.Nobody?
    case Joined => s.pc.Exited? && s.stopper.Joining?
    case Close => s.stopper.Closing?
  }

  // list_add, list_add_tail or __poller_tree_insert
  function Linked(s: State, n: Node, into: Place): (s': State)
    ensures s'.pc == s.pc && s'.removed == s.removed && s'.outcome == s.outcome
  {
    match into
    case InTree => s.(tree := s.tree + multiset{n}, inRbtree := s.inRbtree + {n})
    case InTimeoList => s.(timeoList := s.timeoList + multiset{n})
    case InNoTimeoList => s.(noTimeoList := s.noTimeoList + multiset{n})
  }

  // poller.c:212-215: __poller_tree_erase or list_del, by the node's flag
  function Unlinked(s: State, n: Node): (s': State)
    ensures s'.fd == s.fd && s'.nodes == s.nodes
    ensures s'.pc == s.pc && s'.removed == s.removed && s'.outcome == s.outcome
  {
    if n in s.inRbtree then s.(tree := s.tree - multiset{n}, inRbtree := s.inRbtree - {n})
    else if n in s.timeoList then s.(timeoList := s.timeoList - multiset{n})
    else s.(noTimeoList := s.noTimeoList - multiset{n})
  }

  // poller.c:1222-1233: what happens to a node that del or mod took out
  function Retired(s: State, n: Node, why: Outcome): (s': State)
    ensures s'.fd == s.fd && s'.nodes == s.nodes
    ensures s'.pc == s.pc && s.removed <= s'.removed <= s.removed + {n} && s'.outcome == s.outcome[n := why]
  {
    if s.stopped then s.(outcome := s.outcome[n := why], delivered := s.delivered + multiset{n})
    else s.(outcome := s.outcome[n := why], removed := s.removed + {n}, pipe := s.pipe + [Gone(n)])
  }

  // Clears nodes[fd] and the epoll registration of the nodes in gone.
  function Forgotten(s: State, gone: set<Node>): State {
    s.(nodes := s.nodes - (set f | f in s.nodes && s.nodes[f] in gone), epoll := s.epoll - gone)
  }

  function NodesOf(es: seq<Entry>): (ns: multiset<Node>)
    ensures forall n :: n in ns <==> Gone(n) in es
  {
    if es == [] then multiset{}
    else NodesOf(es[..|es| - 1]) + if es[|es| - 1].Gone? then multiset{es[|es| - 1].node} else multiset{}
  }

  // poller.c:1173-1185
  function AddNode(s: State, n: Node, fd: int, into: Place): State {
    Linked(s, n, into).(fd := s.fd[n := fd], outcome := s.outcome[n := Pending],
                        nodes := s.nodes[fd := n], epoll := s.epoll + {n})
  }

  // poller.c:1388-1390
  function AddTimerNode(s: State, n: Node, into: Place): State {
    Linked(s, n, into).(fd := s.fd[n := -1], outcome := s.outcome[n := Pending])
  }

  // The node leaves its container, nodes and epoll.
  function Detached(s: State, n: Node, fd: int): (s': State)
    ensures s'.fd == s.fd && s'.nodes == s.nodes - {fd}
    ensures s'.pc == s.pc && s'.removed == s.removed && s'.outcome == s.outcome
  {
    Unlinked(s.(nodes := s.nodes - {fd}, epoll := s.epoll - {n}), n)
  }

  // poller.c:1209-1238
  function DelNode(s: State, fd: int): State
    requires fd in s.nodes
  {
    var n := s.nodes[fd];
    Retired(Detached(s, n, fd), n, Deleted)
  }

  // poller.c:1278-1314
  function ModNode(s: State, fd: int, n: Node, into: Place): State
    requires fd in s.nodes
  {
    var prev := s.nodes[fd];
    AddNode(Retired(Detached(s, prev, fd), prev, Modified), n, fd, into)
  }

  // poller.c:1339-1359
  function Retimed(s: State, fd: int, into: Place): State
    requires fd in s.nodes
  {
    Linked(Unlinked(s, s.nodes[fd]), s.nodes[fd], into)
  }

  // __poller_remove_node and what follows up to the callback (poller.c:202-222, 351-363)
  function FinishNode(s: State, result: Outcome): State
    requires s.pc.Batch? && s.pc.events != []
  {
    var n, rest := s.pc.events[0], s.pc.events[1..];
    if n in s.removed then s.(pc := Batch(rest, s.pc.sawPipe))
    else Detached(s, n, if n in s.fd then s.fd[n] else -1)
         .(pc := Holding(n, rest, s.pc.sawPipe), outcome := s.outcome[n := result])
  }

  // __poller_handle_pipe (poller.c:740-750): one entry
  function Drained(s: State): State
    requires s.pc.Draining? && s.pc.got != []
  {
    match s.pc.got[0]
    case Gone(n) => s.(pc := Draining(s.pc.got[1..], s.pc.quit), delivered := s.delivered + multiset{n})
    case Quit => s.(pc := Draining(s.pc.got[1..], true))
  }

  // __poller_handle_timeout under the mutex (poller.c:762-806)
  function Expired(s: State, fromList: seq<Node>, fromTree: seq<Node>): State {
    Forgotten(s, set n | n in fromList + fromTree)
    .(timeoList := s.timeoList - multiset(fromList), tree := s.tree - multiset(fromTree), pc := Expiring(fromList + fromTree))
  }

  // The state of the nodes in rest becomes PR_ST_STOPPED.
  ghost function Stopping(outcome: map<Node, Outcome>, rest: multiset<Node>): (after: map<Node, Outcome>)
    ensures after.Keys == outcome.Keys
    ensures forall n :: n in outcome ==> after[n] == if n in rest then Stopped else outcome[n]
    decreases outcome.Keys
  {
    if outcome == map[] then map[]
    else
      var n :| n in outcome;
      Stopping(outcome - {n}, rest)[n := if n in rest then Stopped else outcome[n]]
  }

  // poller_stop under the mutex (poller.c:1407-1440)
  ghost function Closed(s: State): State {
    var rest := s.tree + s.timeoList + s.noTimeoList;
    Forgotten(s, set n | n in rest)
    .(delivered := s.delivered + NodesOf(s.pipe) + rest, pipe := [],
      tree := multiset{}, timeoList := multiset{}, noTimeoList := multiset{},
      outcome := Stopping(s.outcome, rest),
      pc := Idle, stopper := Nobody)
  }

  function CalledBack(s: State): State
    requires s.pc.Holding?
  {
    s.(pc := Batch(s.pc.events, s.pc.sawPipe), delivered := s.delivered + multiset{s.pc.node})
  }

  // poller.c:904-908: the read takes all there is
  function BatchEnded(s: State): State
    requires s.pc.Batch?
  {
    if s.pc.sawPipe then s.(pc := Draining(s.pipe, false), pipe := []) else s.(pc := Checking)
  }

  // poller.c:807-816: one node
  function TimedOut(s: State): State
    requires s.pc.Expiring? && s.pc.due != []
  {
    s.(pc := Expiring(s.pc.due[1..]), delivered := s.delivered + multiset{s.pc.due[0]},
       outcome := s.outcome[s.pc.due[0] := Failed])
  }

  ghost function Next(s: State, a: Action): State
    requires Enabled(s, a)
  {
    match a
    case Add(node, fd, into) => AddNode(s, node, fd, into)
    case AddTimer(node, into) => AddTimerNode(s, node, into)
    case Del(fd) => DelNode(s, fd)
    case Mod(fd, node, into) => ModNode(s, fd, node, into)
    case SetTimeout(fd, into) => Retimed(s, fd, into)
    case Start => s.(pc := Polling, stopped := false)
    case Fetch(events, sawPipe) => s.(pc := Batch(events, sawPipe))
    case Skip => s.(pc := Batch(s.pc.events[1..], s.pc.sawPipe))
    case Finish(result) => FinishNode(s, result)
    case CallBack => CalledBack(s)
    case EndBatch => BatchEnded(s)
    case DrainOne => Drained(s)
    case EndDrain => s.(pc := if s.pc.quit then Exited else Checking)
    case Expire(fromList, fromTree) => Expired(s, fromList, fromTree)
    case ExpireOne => TimedOut(s)
    case EndExpire => s.(pc := Polling)
    case StartStop => s.(pipe := s.pipe + [Quit], stopper := Joining)
    case Joined => s.(stopped := true, stopper := Closing)
    case Close => Closed(s)
  }

  // ---------------------------------------------------------------------------------

  function InHand(pc: Pc): multiset<Node> {
    match pc
    case Holding(node, _, _) => multiset{node}
    case Draining(got, _) => NodesOf(got)
    case Expiring(due) => multiset(due)
    case _ => multiset{}
  }

  // In the tree or on one of the two lists
  function Live(s: State): multiset<Node> {
    s.tree + s.timeoList + s.noTimeoList
  }

  // Every place a node can be, counted.
  function Census(s: State): multiset<Node> {
    Live(s) + NodesOf(s.pipe) + InHand(s.pc) + s.delivered
  }

  ghost predicate OnePlace(s: State) {
    Census(s) == multiset(s.fd.Keys)
  }

  // nodes[fd] points to a node exactly while that node is linked, and then epoll knows it too.
  ghost predicate Index(live: multiset<Node>, fd: map<Node, int>, nodes: map<int, Node>, epoll: set<Node>) {
    && (forall f :: f in nodes ==> f >= 0 && nodes[f] in live && nodes[f] in fd && fd[nodes[f]] == f)
    && (forall n :: n in live && n in fd && fd[n] >= 0 ==> fd[n] in nodes && nodes[fd[n]] == n)
    && (forall n :: n in epoll <==> n in live && n in fd && fd[n] >= 0)
  }

  ghost predicate Indexed(s: State) {
    Index(Live(s), s.fd, s.nodes, s.epoll)
  }

  // The flag of a node in a container tells which kind it is.
  predicate Flagged(s: State, n: Node) {
    n in s.inRbtree <==> n in s.tree
  }

  ghost predicate Flags(s: State) {
    && (forall n :: n in Live(s) ==> Flagged(s, n))
    && (forall n :: n in Live(s) ==> n !in s.removed)
    && (forall n :: n in NodesOf(s.pipe) ==> n in s.removed)
    && s.inRbtree <= s.fd.Keys && s.removed <= s.fd.Keys
  }

  function EventsOf(pc: Pc): seq<Node> {
    if pc.Batch? || pc.Holding? then pc.events else []
  }

  // A fetched node is still linked, or waits in the pipe.
  ghost predicate Fetched(s: State) {
    && NoDuplicates(EventsOf(s.pc))
    && forall n :: n in EventsOf(s.pc) ==> n in Live(s) || n in NodesOf(s.pipe)
  }

  predicate Phases(s: State) {
    && (s.pc.Idle? ==> s.stopped && s.pipe == [] && s.stopper.Nobody?)
    && (!s.pc.Idle? && !s.pc.Exited? ==> !s.stopped)
    && (s.pc.Exited? ==> !s.stopper.Nobody?)
    && (s.stopper.Closing? ==> s.pc.Exited? && s.stopped)
    && (Quit in s.pipe ==> !s.stopper.Nobody?)
    && (s.pc.Draining? && (s.pc.quit || Quit in s.pc.got) ==> !s.stopper.Nobody?)
  }

  ghost predicate Inv(s: State) {
    OnePlace(s) && Indexed(s) && Flags(s) && Fetched(s) && Phases(s)
  }

  lemma Once(s: State, n: Node)
    requires OnePlace(s)
    ensures Live(s)[n] + NodesOf(s.pipe)[n] + InHand(s.pc)[n] + s.delivered[n] == if n in s.fd then 1 else 0
  {
    assert Census(s)[n] == multiset(s.fd.Keys)[n];
  }

  lemma NodesOfAppend(es: seq<Entry>, e: Entry)
    ensures NodesOf(es + [e]) == NodesOf(es) + NodesOf([e])
  {
    assert (es + [e])[..|es|] == es;
    assert NodesOf([e]) == NodesOf([]) + if e.Gone? then multiset{e.node} else multiset{};
  }

  lemma {:induction false} NodesOfFirst(es: seq<Entry>)
    requires es != []
    ensures NodesOf(es) == NodesOf(es[1..]) + if es[0].Gone? then multiset{es[0].node} else multiset{}
  {
    var n := |es| - 1;
    if n == 0 {
      assert es[..n] == [] && es[1..] == [];
    } else {
      NodesOfFirst(es[..n]);
      assert es[1..][..n - 1] == es[..n][1..];
    }
  }

  // s' differs from s in where nodes are linked and in nothing else.
  predicate Relinked(s: State, s': State) {
    s' == s.(tree := s'.tree, timeoList := s'.timeoList, noTimeoList := s'.noTimeoList, inRbtree := s'.inRbtree)
  }

  lemma LinkedPlace(s: State, n: Node, into: Place)
    requires forall m :: m in Live(s) ==> Flagged(s, m)
    requires n !in s.inRbtree && n !in Live(s)
    ensures Relinked(s, Linked(s, n, into)) && Live(Linked(s, n, into)) == Live(s) + multiset{n}
    ensures forall m :: m in Live(Linked(s, n, into)) ==> Flagged(Linked(s, n, into), m)
    ensures Linked(s, n, into).inRbtree <= s.inRbtree + {n}
  {
  }

  lemma UnlinkedLive(s: State, n: Node)
    requires Flagged(s, n) && n in Live(s)
    ensures Live(Unlinked(s, n)) == Live(s) - multiset{n}
  {
    var s' := Unlinked(s, n);
    if n in s.inRbtree {
      assert s'.tree == s.tree - multiset{n};
    } else if n in s.timeoList {
      assert s'.timeoList == s.timeoList - multiset{n};
    } else {
      assert s'.noTimeoList == s.noTimeoList - multiset{n};
    }
  }

  lemma UnlinkedFlag(s: State, n: Node, m: Node)
    requires Flagged(s, m) && Flagged(s, n) && m != n
    ensures Flagged(Unlinked(s, n), m)
  {
  }

  lemma UnlinkedPlace(s: State, n: Node)
    requires forall m :: m in Live(s) ==> Flagged(s, m)
    requires Live(s)[n] == 1
    ensures Relinked(s, Unlinked(s, n)) && Live(Unlinked(s, n)) == Live(s) - multiset{n}
    ensures forall m :: m in Live(Unlinked(s, n)) ==> Flagged(Unlinked(s, n), m)
    ensures Unlinked(s, n).inRbtree == s.inRbtree - {n} && n !in Live(Unlinked(s, n))
  {
    hide Flagged, Live;
    assert Flagged(s, n);
    UnlinkedLive(s, n);
    forall m | m in Live(Unlinked(s, n)) ensures Flagged(Unlinked(s, n), m) { UnlinkedFlag(s, n, m); }
  }

  lemma IndexEnter(live: multiset<Node>, fd: map<Node, int>, nodes: map<int, Node>, epoll: set<Node>, n: Node, f: int)
    requires Index(live, fd, nodes, epoll) && n !in fd && n !in live && f >= 0 && f !in nodes
    ensures Index(live + multiset{n}, fd[n := f], nodes[f := n], epoll + {n})
  {
  }

  lemma IndexTimer(live: multiset<Node>, fd: map<Node, int>, nodes: map<int, Node>, epoll: set<Node>, n: Node)
    requires Index(live, fd, nodes, epoll) && n !in fd && n !in live
    ensures Index(live + multiset{n}, fd[n := -1], nodes, epoll)
  {
  }

  lemma IndexLeave(live: multiset<Node>, fd: map<Node, int>, nodes: map<int, Node>, epoll: set<Node>, n: Node)
    requires Index(live, fd, nodes, epoll) && n in fd && live[n] == 1
    ensures Index(live - multiset{n}, fd, nodes - {fd[n]}, epoll - {n})
  {
  }

  lemma AddKept(s: State, n: Node, fd: int, into: Place)
    requires Inv(s) && n !in s.fd && fd >= 0 && fd !in s.nodes
    ensures Inv(AddNode(s, n, fd, into))
  {
    hide OnePlace, Fetched, Phases, Index, NodesOf, InHand;
    Once(s, n);
    LinkedPlace(s, n, into);
    IndexEnter(Live(s), s.fd, s.nodes, s.epoll, n, fd);
    Joins(s, AddNode(s, n, fd, into), n);
  }

  lemma AddTimerKept(s: State, n: Node, into: Place)
    requires Inv(s) && n !in s.fd
    ensures Inv(AddTimerNode(s, n, into))
  {
    hide OnePlace, Fetched, Phases, Index, NodesOf, InHand;
    Once(s, n);
    LinkedPlace(s, n, into);
    IndexTimer(Live(s), s.fd, s.nodes, s.epoll, n);
    Joins(s, AddTimerNode(s, n, into), n);
  }

  // A new node joins.
  lemma JoinsFlags(s: State, s': State, n: Node)
    requires Flags(s) && n !in s.fd
    requires Live(s') == Live(s) + multiset{n} && s'.fd.Keys == s.fd.Keys + {n} && s'.removed == s.removed && s'.pipe == s.pipe
    requires s'.inRbtree <= s.inRbtree + {n} && forall m :: m in Live(s') ==> Flagged(s', m)
    ensures Flags(s')
  {
    hide Live, NodesOf, Flagged;
    assert n !in s.removed;
  }

  lemma Joins(s: State, s': State, n: Node)
    requires OnePlace(s) && Flags(s) && Fetched(s) && Phases(s) && n !in s.fd
    requires Live(s') == Live(s) + multiset{n} && s'.fd.Keys == s.fd.Keys + {n} && s'.removed == s.removed
    requires s'.pipe == s.pipe && s'.pc == s.pc && s'.delivered == s.delivered
    requires s'.stopped == s.stopped && s'.stopper == s.stopper
    requires s'.inRbtree <= s.inRbtree + {n} && forall m :: m in Live(s') ==> Flagged(s', m)
    ensures OnePlace(s') && Flags(s') && Fetched(s') && Phases(s')
  {
    hide Live, NodesOf, InHand, EventsOf, Flags;
    JoinsFlags(s, s', n);
    assert multiset(s'.fd.Keys) == multiset(s.fd.Keys) + multiset{n};
  }

  lemma DetachedPlace(s: State, n: Node, fd: int)
    requires OnePlace(s) && Indexed(s) && Flags(s) && n in Live(s) && n in s.fd && s.fd[n] == fd
    ensures var t := Detached(s, n, fd);
      Live(t) == Live(s) - multiset{n} && n !in Live(t) && Indexed(t) && t.inRbtree == s.inRbtree - {n}
    ensures forall m :: m in Live(Detached(s, n, fd)) ==> Flagged(Detached(s, n, fd), m)
    ensures var t := Detached(s, n, fd);
      t == s.(tree := t.tree, timeoList := t.timeoList, noTimeoList := t.noTimeoList, inRbtree := t.inRbtree,
              nodes := t.nodes, epoll := t.epoll)
  {
    Once(s, n);
    var s1 := s.(nodes := s.nodes - {fd}, epoll := s.epoll - {n});
    assert forall m :: m in Live(s1) ==> Flagged(s1, m) by {
      assert forall m :: Flagged(s1, m) <==> Flagged(s, m);
    }
    UnlinkedPlace(s1, n);
    IndexLeave(Live(s), s.fd, s.nodes, s.epoll, n);
  }

  // A linked node goes into the pipe.
  lemma ToPipe(s: State, s': State, n: Node)
    requires Inv(s) && !s.stopped && Live(s)[n] == 1 && n in s.fd
    requires Live(s') == Live(s) - multiset{n} && Indexed(s') && s'.inRbtree <= s.inRbtree
    requires forall m :: m in Live(s') ==> Flagged(s', m)
    requires s'.fd == s.fd && s'.removed == s.removed + {n} && s'.pipe == s.pipe + [Gone(n)] && s'.delivered == s.delivered
    requires s'.pc == s.pc && s'.stopped == s.stopped && s'.stopper == s.stopper
    ensures Inv(s')
  {
    NodesOfAppend(s.pipe, Gone(n));
    assert NodesOf([Gone(n)]) == multiset{n} by { NodesOfFirst([Gone(n)]); }
    hide Live, NodesOf, Flagged, InHand, EventsOf, Index;
    CensusToPipe(s, s', n);
    FlagsToPipe(s, s', n);
    FetchedToPipe(s, s', n);
    hide OnePlace, Flags, Fetched;
  }

  lemma CensusToPipe(s: State, s': State, n: Node)
    requires OnePlace(s) && Live(s)[n] == 1 && Live(s') == Live(s) - multiset{n}
    requires NodesOf(s'.pipe) == NodesOf(s.pipe) + multiset{n} && s'.pc == s.pc && s'.delivered == s.delivered && s'.fd == s.fd
    ensures OnePlace(s')
  {
    hide Live, NodesOf, InHand;
    Shift(Live(s), NodesOf(s.pipe), InHand(s.pc), s.delivered, n);
  }

  lemma FlagsToPipe(s: State, s': State, n: Node)
    requires Flags(s) && Live(s') == Live(s) - multiset{n} && Live(s)[n] == 1 && n in s.fd
    requires NodesOf(s'.pipe) == NodesOf(s.pipe) + multiset{n} && s'.removed == s.removed + {n} && s'.fd == s.fd
    requires s'.inRbtree <= s.inRbtree && forall m :: m in Live(s') ==> Flagged(s', m)
    ensures Flags(s')
  {
    hide Live, NodesOf, Flagged;
    assert forall m :: m in Live(s') ==> m in Live(s) && m != n;
  }

  lemma FetchedToPipe(s: State, s': State, n: Node)
    requires Fetched(s) && Live(s') == Live(s) - multiset{n} && s'.pc == s.pc
    requires NodesOf(s'.pipe) == NodesOf(s.pipe) + multiset{n}
    ensures Fetched(s')
  {
    hide Live, NodesOf, EventsOf;
  }

  lemma Shift(a: multiset<Node>, b: multiset<Node>, c: multiset<Node>, d: multiset<Node>, n: Node)
    requires n in a
    ensures (a - multiset{n}) + (b + multiset{n}) + c + d == a + b + c + d
  {
  }

  // A linked node is delivered on the spot, the poller being stopped.
  lemma ToCaller(s: State, s': State, n: Node)
    requires Inv(s) && s.stopped && Live(s)[n] == 1 && n in s.fd
    requires Live(s') == Live(s) - multiset{n} && Indexed(s') && s'.inRbtree <= s.inRbtree
    requires forall m :: m in Live(s') ==> Flagged(s', m)
    requires s'.fd == s.fd && s'.removed == s.removed && s'.pipe == s.pipe && s'.delivered == s.delivered + multiset{n}
    requires s'.pc == s.pc && s'.stopped == s.stopped && s'.stopper == s.stopper
    ensures Inv(s')
  {
    assert Census(s') == Census(s);
  }

  lemma RetiredKept(s: State, n: Node, fd: int, why: Outcome)
    requires Inv(s) && n in Live(s) && n in s.fd && s.fd[n] == fd
    ensures Inv(Retired(Detached(s, n, fd), n, why))
  {
    var t := Detached(s, n, fd);
    DetachedPlace(s, n, fd);
    Once(s, n);
    SameFlags(t, Retired(t, n, why));
    if s.stopped { ToCaller(s, Retired(t, n, why), n); } else { ToPipe(s, Retired(t, n, why), n); }
  }

  lemma SameFlags(s: State, s': State)
    requires s'.tree == s.tree && s'.timeoList == s.timeoList && s'.noTimeoList == s.noTimeoList && s'.inRbtree == s.inRbtree
    ensures Live(s') == Live(s)
    ensures (forall m :: m in Live(s) ==> Flagged(s, m)) ==> forall m :: m in Live(s') ==> Flagged(s', m)
  {
    assert forall m :: Flagged(s', m) <==> Flagged(s, m);
  }

  lemma DelKept(s: State, fd: int)
    requires Inv(s) && fd in s.nodes
    ensures Inv(DelNode(s, fd))
  {
    RetiredKept(s, s.nodes[fd], fd, Deleted);
  }

  lemma ModKept(s: State, fd: int, n: Node, into: Place)
    requires Inv(s) && fd in s.nodes && n !in s.fd
    ensures Inv(ModNode(s, fd, n, into))
  {
    RetiredKept(s, s.nodes[fd], fd, Modified);
    AddKept(Retired(Detached(s, s.nodes[fd], fd), s.nodes[fd], Modified), n, fd, into);
  }

  lemma RetimedKept(s: State, fd: int, into: Place)
    requires Inv(s) && fd in s.nodes
    ensures Inv(Retimed(s, fd, into))
  {
    var n := s.nodes[fd];
    var t := Unlinked(s, n);
    var s' := Retimed(s, fd, into);
    Once(s, n);
    UnlinkedPlace(s, n);
    LinkedPlace(t, n, into);
    assert Live(s') == Live(s);
    StillLive(s, s', n);
  }

  // A node has moved to another container.
  lemma StillLive(s: State, s': State, n: Node)
    requires Inv(s) && Live(s') == Live(s) && Relinked(s, s') && n in s.fd && s'.inRbtree <= s.inRbtree + {n}
    requires forall m :: m in Live(s') ==> Flagged(s', m)
    ensures Inv(s')
  {
    hide Live, NodesOf, InHand, Flagged, EventsOf, Index;
    assert Census(s') == Census(s);
  }

  lemma FinishKept(s: State, result: Outcome)
    requires Inv(s) && s.pc.Batch? && s.pc.events != []
    ensures Inv(FinishNode(s, result))
  {
    var n := s.pc.events[0];
    Once(s, n);
    if n in s.removed {
      PassedKept(s, FinishNode(s, result));
    } else {
      var t := Detached(s, n, s.fd[n]);
      DetachedPlace(s, n, s.fd[n]);
      SameFlags(t, FinishNode(s, result));
      hide Inv, Census, Live, NodesOf, InHand, Flagged, Detached;
      ToHand(s, FinishNode(s, result), n);
    }
  }

  // The node is in the pipe already: the thread passes over it.
  lemma PassedKept(s: State, s': State)
    requires Inv(s) && s.pc.Batch? && s.pc.events != [] && s' == s.(pc := Batch(s.pc.events[1..], s.pc.sawPipe))
    ensures Inv(s')
  {
    SkipKept(s);
  }

  // The poller thread takes a linked node into its hands.
  lemma ToHand(s: State, s': State, n: Node)
    requires Inv(s) && Live(s)[n] == 1 && n in s.fd
    requires s.pc.Batch? && s.pc.events != [] && n == s.pc.events[0]
    requires s'.pc == Holding(n, s.pc.events[1..], s.pc.sawPipe)
    requires Live(s') == Live(s) - multiset{n} && Indexed(s') && s'.inRbtree <= s.inRbtree
    requires forall m :: m in Live(s') ==> Flagged(s', m)
    requires s'.fd == s.fd && s'.removed == s.removed && s'.pipe == s.pipe && s'.delivered == s.delivered
    requires s'.stopped == s.stopped && s'.stopper == s.stopper
    ensures Inv(s')
  {
    assert Census(s') == Census(s);
    assert forall m :: m in s'.pc.events ==> m in s.pc.events && m != n;
  }

  // The poller thread moves on; what is linked stays.
  lemma ThreadStep(s: State, s': State)
    requires Inv(s) && Phases(s') && Fetched(s')
    requires s' == s.(pc := s'.pc, pipe := s'.pipe, stopped := s'.stopped, delivered := s'.delivered,
                      outcome := s'.outcome, stopper := s'.stopper)
    requires forall n :: n in NodesOf(s'.pipe) ==> n in NodesOf(s.pipe)
    requires NodesOf(s'.pipe) + InHand(s'.pc) + s'.delivered == NodesOf(s.pipe) + InHand(s.pc) + s.delivered
    ensures Inv(s')
  {
    SameFlags(s, s');
    hide Live, NodesOf, Flagged, InHand, Phases, Fetched;
    Regroup(Live(s), NodesOf(s'.pipe), InHand(s'.pc), s'.delivered);
    Regroup(Live(s), NodesOf(s.pipe), InHand(s.pc), s.delivered);
  }

  lemma Regroup(a: multiset<Node>, b: multiset<Node>, c: multiset<Node>, d: multiset<Node>)
    ensures a + b + c + d == a + (b + c + d)
  {
  }

  lemma Handed(a: multiset<Node>, b: multiset<Node>, c: multiset<Node>, n: Node)
    ensures a + b + (c + multiset{n}) == a + (b + multiset{n}) + c
  {
  }

  lemma FetchKept(s: State, events: seq<Node>, sawPipe: bool)
    requires Inv(s) && s.pc.Polling? && NoDuplicates(events) && forall n :: n in events ==> n in s.epoll
    ensures Inv(s.(pc := Batch(events, sawPipe)))
  {
    ThreadStep(s, s.(pc := Batch(events, sawPipe)));
  }

  lemma SkipKept(s: State)
    requires Inv(s) && s.pc.Batch? && s.pc.events != []
    ensures Inv(s.(pc := Batch(s.pc.events[1..], s.pc.sawPipe)))
  {
    ThreadStep(s, s.(pc := Batch(s.pc.events[1..], s.pc.sawPipe)));
  }

  lemma CalledBackKept(s: State)
    requires Inv(s) && s.pc.Holding?
    ensures Inv(CalledBack(s))
  {
    ThreadStep(s, CalledBack(s));
  }

  lemma BatchEndedKept(s: State)
    requires Inv(s) && s.pc.Batch? && s.pc.events == []
    ensures Inv(BatchEnded(s))
  {
    if s.pc.sawPipe {
      PipeRead(s, BatchEnded(s));
    } else {
      ThreadStep(s, BatchEnded(s));
    }
  }

  lemma PipeRead(s: State, s': State)
    requires Inv(s) && s.pc.Batch? && s' == s.(pc := Draining(s.pipe, false), pipe := [])
    ensures Inv(s')
  {
    ThreadStep(s, s');
  }

  lemma DrainedKept(s: State)
    requires Inv(s) && s.pc.Draining? && s.pc.got != []
    ensures Inv(Drained(s))
  {
    var got := s.pc.got;
    NodesOfFirst(got);
    if got[0].Gone? {
      DrainedNode(s, Drained(s), got[0].node);
    } else {
      DrainedQuit(s, Drained(s));
    }
  }

  lemma DrainedQuit(s: State, s': State)
    requires Inv(s) && s.pc.Draining? && Quit in s.pc.got && NodesOf(s.pc.got) == NodesOf(s.pc.got[1..])
    requires s' == s.(pc := Draining(s.pc.got[1..], true))
    ensures Inv(s')
  {
    ThreadStep(s, s');
  }

  lemma DrainedNode(s: State, s': State, n: Node)
    requires Inv(s) && s.pc.Draining? && s.pc.got != [] && NodesOf(s.pc.got) == NodesOf(s.pc.got[1..]) + multiset{n}
    requires s' == s.(pc := Draining(s.pc.got[1..], s.pc.quit), delivered := s.delivered + multiset{n})
    ensures Inv(s')
  {
    hide NodesOf, Flagged, Index, NoDuplicates;
    Handed(NodesOf(s.pipe), NodesOf(s.pc.got[1..]), s.delivered, n);
    ThreadStep(s, s');
  }

  lemma TimedOutKept(s: State)
    requires Inv(s) && s.pc.Expiring? && s.pc.due != []
    ensures Inv(TimedOut(s))
  {
    var due := s.pc.due;
    assert due == [due[0]] + due[1..];
    assert multiset(due) == multiset(due[1..]) + multiset{due[0]};
    Handed(NodesOf(s.pipe), multiset(due[1..]), s.delivered, due[0]);
    ThreadStep(s, TimedOut(s));
  }

  lemma NodesOfQuit()
    ensures NodesOf([Quit]) == multiset{}
  {
    NodesOfFirst([Quit]);
  }

  lemma StartStopKept(s: State)
    requires Inv(s) && !s.pc.Idle? && s.stopper.Nobody?
    ensures Inv(s.(pipe := s.pipe + [Quit], stopper := Joining))
  {
    hide NodesOf, Flagged, Index, NoDuplicates;
    NodesOfAppend(s.pipe, Quit);
    NodesOfQuit();
    assert NodesOf(s.pipe + [Quit]) == NodesOf(s.pipe);
    ThreadStep(s, s.(pipe := s.pipe + [Quit], stopper := Joining));
  }

  // Steps that change nothing but where the threads stand.
  lemma MovedKept(s: State, s': State)
    requires Inv(s) && s' == s.(pc := s'.pc, stopped := s'.stopped, stopper := s'.stopper) && Phases(s')
    requires EventsOf(s'.pc) == [] && InHand(s'.pc) == InHand(s.pc) == multiset{}
    ensures Inv(s')
  {
    ThreadStep(s, s');
  }

  // ---------------------------------------------------------------------------------
  // Steps that forget many nodes at once

  lemma IndexForget(s: State, live: multiset<Node>, gone: set<Node>)
    requires Indexed(s) && live <= Live(s)
    requires forall n :: n in Live(s) ==> (n in live <==> n !in gone)
    ensures Index(live, s.fd, Forgotten(s, gone).nodes, Forgotten(s, gone).epoll)
  {
  }

  lemma InvParts(s: State)
    requires Inv(s)
    ensures OnePlace(s) && Indexed(s) && Flags(s)
  {
    hide OnePlace, Indexed, Flags, Fetched, Phases;
  }

  lemma ExpiredKept(s: State, fromList: seq<Node>, fromTree: seq<Node>)
    requires Inv(s) && Enabled(s, Expire(fromList, fromTree))
    ensures Inv(Expired(s, fromList, fromTree))
  {
    hide Inv, OnePlace, Flags, Live, Flagged, Index;
    InvParts(s);
    var s' := Expired(s, fromList, fromTree);
    var due := fromList + fromTree;
    DueIsLive(s, fromList, fromTree);
    IndexForget(s, Live(s'), set n | n in due);
    ToHands(s, s', due);
  }

  lemma DueIsLive(s: State, fromList: seq<Node>, fromTree: seq<Node>)
    requires OnePlace(s) && Flags(s) && multiset(fromList) <= s.timeoList && multiset(fromTree) <= s.tree
    ensures var s' := Expired(s, fromList, fromTree); var due := fromList + fromTree;
      multiset(due) <= Live(s) && Live(s') == Live(s) - multiset(due) && Live(s') <= Live(s)
    ensures forall n :: n in Live(s) ==> (n in Live(Expired(s, fromList, fromTree)) <==> n !in fromList + fromTree)
    ensures forall n :: n in Live(Expired(s, fromList, fromTree)) ==> Flagged(Expired(s, fromList, fromTree), n)
  {
    var s', due := Expired(s, fromList, fromTree), fromList + fromTree;
    var a, b := multiset(fromList), multiset(fromTree);
    assert multiset(due) == a + b;
    assert Live(s') == (s.tree - b) + (s.timeoList - a) + s.noTimeoList;
    forall n | n in Live(s)
      ensures n in Live(s') <==> n !in due
      ensures n in Live(s') ==> Flagged(s', n)
    {
      Once(s, n);
      assert n in due <==> n in multiset(due);
    }
  }

  lemma ToHands(s: State, s': State, due: seq<Node>)
    requires Inv(s) && s.pc.Checking? && multiset(due) <= Live(s)
    requires Live(s') == Live(s) - multiset(due) && Indexed(s')
    requires forall m :: m in Live(s') ==> Flagged(s', m)
    requires s' == s.(pc := Expiring(due), tree := s'.tree, timeoList := s'.timeoList, nodes := s'.nodes, epoll := s'.epoll)
    ensures Inv(s')
  {
    CensusToHands(s, s', due);
    FlagsLess(s, s');
  }

  lemma CensusToHands(s: State, s': State, due: seq<Node>)
    requires s.pc.Checking? && multiset(due) <= Live(s) && Live(s') == Live(s) - multiset(due)
    requires s'.pc == Expiring(due) && s'.pipe == s.pipe && s'.delivered == s.delivered
    ensures Census(s') == Census(s)
  {
    ShiftAll(Live(s), multiset(due), NodesOf(s.pipe), s.delivered);
  }

  lemma FlagsLess(s: State, s': State)
    requires Flags(s) && (forall m :: m in Live(s') ==> m in Live(s) && Flagged(s', m))
    requires s'.removed == s.removed && s'.inRbtree == s.inRbtree && s'.fd == s.fd && s'.pipe == s.pipe
    ensures Flags(s')
  {
  }

  lemma ShiftAll(a: multiset<Node>, g: multiset<Node>, b: multiset<Node>, d: multiset<Node>)
    requires g <= a
    ensures (a - g) + b + g + d == a + b + multiset{} + d
  {
  }

  lemma ClosedKept(s: State)
    requires Inv(s) && s.stopper.Closing?
    ensures Inv(Closed(s))
    ensures Closed(s).delivered == multiset(s.fd.Keys)
  {
    IndexForget(s, multiset{}, set n | n in Live(s));
    assert Live(Closed(s)) == multiset{};
    CensusEmptied(s, Closed(s));
    assert s.stopped;
    Emptied(s, Closed(s));
  }

  lemma Emptied(s: State, s': State)
    requires Flags(s) && Phases(s) && s.stopper.Closing?
    requires s'.pipe == [] && s'.pc == Idle && s'.stopper == Nobody && Live(s') == multiset{}
    requires s'.fd == s.fd && s'.inRbtree == s.inRbtree && s'.removed == s.removed && s'.stopped
    ensures Flags(s') && Fetched(s') && Phases(s')
  {
  }

  lemma CensusEmptied(s: State, s': State)
    requires InHand(s.pc) == multiset{} && Live(s') == multiset{} && s'.pipe == [] && s'.pc == Idle
    requires s'.delivered == s.delivered + NodesOf(s.pipe) + Live(s)
    ensures Census(s') == Census(s) == s'.delivered
  {
    Gather(Live(s), NodesOf(s.pipe), s.delivered);
  }

  lemma Gather(a: multiset<Node>, b: multiset<Node>, d: multiset<Node>)
    ensures d + b + a == a + b + multiset{} + d
  {
  }

  // ---------------------------------------------------------------------------------
  // Every step, every run

  lemma CallKept(s: State, a: Action)
    requires Inv(s) && Enabled(s, a) && (a.Add? || a.AddTimer? || a.Del? || a.Mod? || a.SetTimeout?)
    ensures Inv(Next(s, a))
  {
    match a
    case Add(node, fd, into) => AddKept(s, node, fd, into);
    case AddTimer(node, into) => AddTimerKept(s, node, into);
    case Del(fd) => DelKept(s, fd);
    case Mod(fd, node, into) => ModKept(s, fd, node, into);
    case SetTimeout(fd, into) => RetimedKept(s, fd, into);
  }

  lemma EndDrainKept(s: State)
    requires Inv(s) && Enabled(s, EndDrain)
    ensures Inv(Next(s, EndDrain))
  {
    hide OnePlace, Flags, Index, NoDuplicates;
    MovedKept(s, Next(s, EndDrain));
  }

  lemma HandlingKept(s: State, a: Action)
    requires Inv(s) && Enabled(s, a)
    requires a.Fetch? || a.Skip? || a.Finish? || a.CallBack? || a.EndBatch? || a.DrainOne? || a.EndDrain?
    ensures Inv(Next(s, a))
  {
    hide Inv;
    match a
    case Fetch(events, sawPipe) => FetchKept(s, events, sawPipe);
    case Skip => SkipKept(s);
    case Finish(result) => FinishKept(s, result);
    case CallBack => CalledBackKept(s);
    case EndBatch => BatchEndedKept(s);
    case DrainOne => DrainedKept(s);
    case EndDrain => EndDrainKept(s);
  }

  lemma EndExpireKept(s: State)
    requires Inv(s) && Enabled(s, EndExpire)
    ensures Inv(Next(s, EndExpire))
  {
    MovedKept(s, Next(s, EndExpire));
  }

  lemma ExpiryKept(s: State, a: Action)
    requires Inv(s) && Enabled(s, a) && (a.Expire? || a.ExpireOne? || a.EndExpire?)
    ensures Inv(Next(s, a))
  {
    hide Inv;
    match a
    case Expire(fromList, fromTree) => ExpiredKept(s, fromList, fromTree);
    case ExpireOne => TimedOutKept(s);
    case EndExpire => EndExpireKept(s);
  }

  lemma StartStopCloseKept(s: State, a: Action)
    requires Inv(s) && Enabled(s, a) && (a.Start? || a.StartStop? || a.Joined? || a.Close?)
    ensures Inv(Next(s, a))
  {
    match a
    case Start => MovedKept(s, Next(s, a));
    case StartStop => StartStopKept(s);
    case Joined => MovedKept(s, Next(s, a));
    case Close => ClosedKept(s);
  }

  lemma Kept(s: State, a: Action)
    requires Inv(s) && Enabled(s, a)
    ensures Inv(Next(s, a))
  {
    if a.Add? || a.AddTimer? || a.Del? || a.Mod? || a.SetTimeout? {
      CallKept(s, a);
    } else if a.Fetch? || a.Skip? || a.Finish? || a.CallBack? || a.EndBatch? || a.DrainOne? || a.EndDrain? {
      HandlingKept(s, a);
    } else if a.Expire? || a.ExpireOne? || a.EndExpire? {
      ExpiryKept(s, a);
    } else {
      StartStopCloseKept(s, a);
    }
  }

  // A run: each action is enabled where it is taken.
  ghost predicate Run(s: State, actions: seq<Action>, end: State)
    decreases |actions|
  {
    if actions == [] then s == end
    else Enabled(s, actions[0]) && Run(Next(s, actions[0]), actions[1..], end)
  }

  lemma {:induction false} Always(s: State, actions: seq<Action>, end: State)
    requires Inv(s) && Run(s, actions, end)
    ensures Inv(end)
    decreases |actions|
  {
    hide Inv, Enabled, Next;
    if actions != [] {
      Kept(s, actions[0]);
      Always(Next(s, actions[0]), actions[1..], end);
    }
  }

  lemma Reached(init: State, actions: seq<Action>, s: State)
    requires Init(init) && Run(init, actions, s)
    ensures Inv(s)
  {
    assert Inv(init);
    hide Inv, Init;
    Always(init, actions, s);
  }

  // A node that was added is in one place only, called back for at most once, and nodes[fd]
  // points to it exactly as long as it is linked.
  lemma OnePlaceEach(init: State, actions: seq<Action>, s: State, n: Node)
    requires Init(init) && Run(init, actions, s) && n in s.fd
    ensures s.tree[n] + s.timeoList[n] + s.noTimeoList[n] + NodesOf(s.pipe)[n] + InHand(s.pc)[n] + s.delivered[n] == 1
    ensures s.fd[n] >= 0 ==>
      (n in s.tree + s.timeoList + s.noTimeoList <==> s.fd[n] in s.nodes && s.nodes[s.fd[n]] == n)
  {
    Reached(init, actions, s);
    Once(s, n);
  }

  // The poller thread never touches a node that has been called back for.
  lemma NeverStale(init: State, actions: seq<Action>, s: State, n: Node)
    requires Init(init) && Run(init, actions, s) && (n in EventsOf(s.pc) || n in InHand(s.pc))
    ensures n in s.fd && n !in s.delivered
  {
    Reached(init, actions, s);
    Once(s, n);
  }

  // When poller_stop returns every node ever added has been called back for exactly once.
  lemma StopDeliversAll(init: State, actions: seq<Action>, s: State)
    requires Init(init) && Run(init, actions, s) && Enabled(s, Close)
    ensures Next(s, Close).delivered == multiset(Next(s, Close).fd.Keys)
  {
    Reached(init, actions, s);
    ClosedKept(s);
  }

  // ---------------------------------------------------------------------------------
  // A node that poller_del or poller_mod took is called back for with the state they gave it

  // Timed out nodes were not taken by a caller.
  predicate Timely(s: State) {
    s.pc.Expiring? ==> forall n :: n in s.pc.due ==> n !in s.removed
  }

  lemma TimelyKept(s: State, a: Action)
    requires Inv(s) && Timely(s) && Enabled(s, a)
    ensures Timely(Next(s, a))
  {
    if a.Del? || a.Mod? {
      TimelyAfterCall(s, a);
    } else if a.Expire? {
      forall n | n in a.fromList + a.fromTree ensures n !in s.removed {
        assert n in multiset(a.fromList) || n in multiset(a.fromTree);
        assert n in Live(s);
      }
    } else {
      SameDue(s, a);
    }
  }

  lemma TimelyAfterCall(s: State, a: Action)
    requires Inv(s) && Timely(s) && Enabled(s, a) && (a.Del? || a.Mod?)
    ensures Timely(Next(s, a))
  {
    if s.pc.Expiring? { TakenIsNotDue(s, s.nodes[a.fd]); }
  }

  lemma SameDue(s: State, a: Action)
    requires Timely(s) && Enabled(s, a) && !a.Del? && !a.Mod? && !a.Expire?
    ensures Timely(Next(s, a))
  {
    if a.ExpireOne? {
      assert forall n :: n in s.pc.due[1..] ==> n in s.pc.due;
    }
  }

  lemma TakenIsNotDue(s: State, n: Node)
    requires Inv(s) && s.pc.Expiring? && n in Live(s)
    ensures n !in s.pc.due
  {
    Once(s, n);
    assert n in s.pc.due <==> n in multiset(s.pc.due);
  }

  lemma StateSticks(s: State, a: Action, n: Node)
    requires Inv(s) && Timely(s) && Enabled(s, a) && n in s.removed && n in s.outcome
    ensures n in Next(s, a).removed && n in Next(s, a).outcome && Next(s, a).outcome[n] == s.outcome[n]
  {
    assert n !in Live(s) && n in s.fd;
    if a.Add? || a.AddTimer? || a.Del? || a.Mod? || a.SetTimeout? {
      StateSticksInCall(s, a, n);
    } else if s.pc.Expiring? && a.ExpireOne? {
      assert s.pc.due[0] in s.pc.due;
    } else {
      StateSticksElse(s, a, n);
    }
  }

  lemma StateSticksInCall(s: State, a: Action, n: Node)
    requires Indexed(s) && Enabled(s, a) && n in s.removed && n in s.outcome && n !in Live(s) && n in s.fd
    requires a.Add? || a.AddTimer? || a.Del? || a.Mod? || a.SetTimeout?
    ensures n in Next(s, a).removed && n in Next(s, a).outcome && Next(s, a).outcome[n] == s.outcome[n]
  {
    if a.Del? || a.Mod? { assert s.nodes[a.fd] in Live(s); }
  }

  lemma StateSticksElse(s: State, a: Action, n: Node)
    requires Enabled(s, a) && n in s.removed && n in s.outcome && n !in Live(s)
    requires !a.Add? && !a.AddTimer? && !a.Del? && !a.Mod? && !a.SetTimeout? && !a.ExpireOne?
    ensures n in Next(s, a).removed && n in Next(s, a).outcome && Next(s, a).outcome[n] == s.outcome[n]
  {
    hide NodesOf;
  }

  lemma DelMarks(s: State, fd: int)
    requires Enabled(s, Del(fd)) && !s.stopped
    ensures var n, s' := s.nodes[fd], Next(s, Del(fd)); n in s'.removed && n in s'.outcome && s'.outcome[n] == Deleted
  {
    var n := s.nodes[fd];
    var t := Detached(s, n, fd);
    assert Next(s, Del(fd)) == Retired(t, n, Deleted);
    assert t.stopped == s.stopped;
  }

  lemma {:induction false} AlwaysTimely(s: State, actions: seq<Action>, end: State)
    requires Inv(s) && Timely(s) && Run(s, actions, end)
    ensures Inv(end) && Timely(end)
    decreases |actions|
  {
    hide Inv, Timely, Enabled, Next;
    if actions != [] {
      Kept(s, actions[0]);
      TimelyKept(s, actions[0]);
      AlwaysTimely(Next(s, actions[0]), actions[1..], end);
    }
  }

  ghost predicate Marked(s: State, n: Node, why: Outcome) {
    n in s.removed && n in s.outcome && s.outcome[n] == why
  }

  lemma {:induction false} MarkStays(s: State, actions: seq<Action>, end: State, n: Node, why: Outcome)
    requires Inv(s) && Timely(s) && Run(s, actions, end) && Marked(s, n, why)
    ensures Marked(end, n, why)
    decreases |actions|
  {
    hide Inv, Timely, Enabled, Next;
    if actions != [] {
      Kept(s, actions[0]);
      TimelyKept(s, actions[0]);
      StateSticks(s, actions[0], n);
      MarkStays(Next(s, actions[0]), actions[1..], end, n, why);
    }
  }

  // Once a node is marked removed nothing that happens afterwards changes its state.
  lemma StateStays(init: State, actions: seq<Action>, s: State, more: seq<Action>, s': State, n: Node)
    requires Init(init) && Run(init, actions, s) && Run(s, more, s') && n in s.removed && n in s.outcome
    ensures n in s'.removed && n in s'.outcome && s'.outcome[n] == s.outcome[n]
  {
    Reached(init, [], init);
    AlwaysTimely(init, actions, s);
    MarkStays(s, more, s', n, s.outcome[n]);
  }

  // Whatever events, timeouts and other calls race with it, a node deleted in a running
  // poller keeps the state PR_ST_DELETED up to its callback and ever after.
  lemma DeletedStaysDeleted(init: State, actions: seq<Action>, s: State, fd: int, more: seq<Action>, s': State)
    requires Init(init) && Run(init, actions, s) && !s.stopped
    requires Enabled(s, Del(fd)) && Run(Next(s, Del(fd)), more, s')
    ensures s.nodes[fd] in s'.outcome && s'.outcome[s.nodes[fd]] == Deleted
  {
    Reached(init, [], init);
    AlwaysTimely(init, actions, s);
    Kept(s, Del(fd));
    TimelyKept(s, Del(fd));
    DelMarks(s, fd);
    MarkStays(Next(s, Del(fd)), more, s', s.nodes[fd], Deleted);
  }
}
