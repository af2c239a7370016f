/**
  src/common/msgqueue.c: the queue with a get list and a put list, each behind its own mutex.

  The state machine's steps are the code between two points where another thread can be seen:
  a region under put_mutex is one step, get_mutex is held across several.  Cells are the two
  head words and the link word inside each message; next gives the contents of a cell.
 */
module MsgQueue {
  import opened Collections

  datatype Cell = Nil | Head(second: bool) | Link(msg: nat)

  // Where a thread stands.
  datatype Pc =
    | Outside
    | Getting                 // holds get_mutex, about to test *get_head (line 89)
    | Swapping(spare: Cell)   // has moved get_head, about to enter put_mutex (line 53)
    | Asleep(spare: Cell)     // waits for get_cond (line 55)
    | Taking                  // a message is there (line 91)
    | Leaving                 // about to drop get_mutex (line 100)
    | Putting(msg: nat)       // about to enter put_mutex (line 73)
    | Waiting(msg: nat)       // waits for put_cond (line 75)
    | Signalling              // has put its message, about to signal get_cond (line 81)
    | Unblocking              // has set nonblock, about to enter put_mutex (line 36)

  datatype State = State(
    msgMax: nat,
    next: map<Cell, Cell>,
    getHead: Cell,
    putHead: Cell,
    putTail: Cell,
    msgCnt: nat,
    nonblock: bool,
    threads: map<nat, Pc>,
    // history: the messages linked in at line 77 and those handed out at line 91
    puts: seq<nat>,
    gets: seq<nat>)

  datatype Action =
    | StartGet
    | Look
    | Swap
    | Take
    | Leave
    | StartPut(msg: nat)
    | Put
    | Signal(woken: nat)
    | StartUnblock
    | Unblock(woken: nat)
    | SetBlock
    | Wake

  const SIZE_MAX := 0xFFFF_FFFF_FFFF_FFFF

  function At(next: map<Cell, Cell>, c: Cell): Cell {
    if c in next then next[c] else Nil
  }

  // msg_cnt > msg_max - 1 in size_t: a limit of zero wraps to no limit.
  predicate Full(s: State) {
    s.msgCnt > if s.msgMax == 0 then SIZE_MAX else s.msgMax - 1
  }

  predicate HoldsGet(pc: Pc) {
    pc.Getting? || pc.Swapping? || pc.Asleep? || pc.Taking? || pc.Leaving?
  }

  predicate Sends(pc: Pc, msg: nat) {
    (pc.Putting? || pc.Waiting?) && pc.msg == msg
  }

  // msgqueue_create (msgqueue.c:124-132)
  predicate Init(s: State) {
    && s.next == map[Head(false) := Nil, Head(true) := Nil]
    && s.getHead == Head(false) && s.putHead == Head(true) && s.putTail == Head(true)
    && s.msgCnt == 0 && !s.nonblock && s.puts == [] && s.gets == []
    && forall t :: t in s.threads ==> s.threads[t] == Outside
  }

  // A message is put only by its owner: it is neither in the queue nor on its way there.
  predicate Free(s: State, msg: nat) {
    && (|s.gets| <= |s.puts| ==> msg !in s.puts[|s.gets|..])
    && forall t :: t in s.threads ==> !Sends(s.threads[t], msg)
  }

  // pthread_cond_signal wakes a sleeper if there is one.
  predicate Wakeable(s: State, woken: nat) {
    (exists t :: t in s.threads && s.threads[t].Asleep?) ==> woken in s.threads && s.threads[woken].Asleep?
  }

  predicate Enabled(s: State, t: nat, a: Action) {
    && t in s.threads
    && match a
       case StartGet => s.threads[t].Outside? && forall u :: u in s.threads ==> !HoldsGet(s.threads[u])
       case Look => s.threads[t].Getting?
       case Swap => s.threads[t].Swapping?
       case Take => s.threads[t].Taking?
       case Leave => s.threads[t].Leaving?
       case StartPut(msg) => s.threads[t].Outside? && Free(s, msg)
       case Put => s.threads[t].Putting?
       case Signal(woken) => s.threads[t].Signalling? && Wakeable(s, woken)
       case StartUnblock => s.threads[t].Outside?
       case Unblock(woken) => s.threads[t].Unblocking? && Wakeable(s, woken)
       case SetBlock => s.threads[t].Outside?
       case Wake => s.threads[t].Asleep? || s.threads[t].Waiting?
  }

  // pthread_cond_broadcast(&queue->put_cond)
  ghost function Broadcast(threads: map<nat, Pc>): (woken: map<nat, Pc>)
    ensures woken.Keys == threads.Keys && forall t :: t in threads ==> woken[t] == Awake(threads[t])
    decreases threads.Keys
  {
    if threads == map[] then map[]
    else
      var t :| t in threads;
      Broadcast(threads - {t})[t := Awake(threads[t])]
  }

  function Awake(pc: Pc): Pc {
    if pc.Waiting? then Putting(pc.msg) else pc
  }

  // pthread_cond_signal(&queue->get_cond)
  function Roused(threads: map<nat, Pc>, woken: nat): map<nat, Pc> {
    if woken in threads && threads[woken].Asleep? then threads[woken := Swapping(threads[woken].spare)] else threads
  }

  ghost function Next(s: State, t: nat, a: Action): State
    requires Enabled(s, t, a)
  {
    match a
    case StartGet => s.(threads := s.threads[t := Getting])
    case Look =>
      if At(s.next, s.getHead) != Nil then s.(threads := s.threads[t := Taking])
      else s.(threads := s.threads[t := Swapping(s.getHead)], getHead := s.putHead)
    case Swap =>
      var spare := s.threads[t].spare;
      if s.msgCnt == 0 && !s.nonblock then s.(threads := s.threads[t := Asleep(spare)])
      else
        var threads := if Full(s) then Broadcast(s.threads) else s.threads;
        s.(putHead := spare, putTail := spare, msgCnt := 0,
           threads := threads[t := if s.msgCnt > 0 then Taking else Leaving])
    case Take =>
      var first := At(s.next, s.getHead);
      s.(next := s.next[s.getHead := At(s.next, first)], threads := s.threads[t := Leaving],
         gets := s.gets + [if first.Link? then first.msg else 0])
    case Leave => s.(threads := s.threads[t := Outside])
    case StartPut(msg) => s.(next := s.next[Link(msg) := Nil], threads := s.threads[t := Putting(msg)])
    case Put =>
      var msg := s.threads[t].msg;
      if Full(s) && !s.nonblock then s.(threads := s.threads[t := Waiting(msg)])
      else s.(next := s.next[s.putTail := Link(msg)], putTail := Link(msg), msgCnt := s.msgCnt + 1,
              threads := s.threads[t := Signalling], puts := s.puts + [msg])
    case Signal(woken) => s.(threads := Roused(s.threads[t := Outside], woken))
    case StartUnblock => s.(nonblock := true, threads := s.threads[t := Unblocking])
    case Unblock(woken) => s.(threads := Broadcast(Roused(s.threads[t := Outside], woken)))
    case SetBlock => s.(nonblock := false)
    case Wake =>
      var pc := s.threads[t];
      s.(threads := s.threads[t := if pc.Asleep? then Swapping(pc.spare) else Awake(pc)])
  }

  // ---------------------------------------------------------------------------------
  // What every reachable state satisfies

  // The i-th cell of the list ms that hangs off head.
  function Spot(head: Cell, ms: seq<nat>, i: nat): Cell
    requires i <= |ms|
  {
    if i == 0 then head else Link(ms[i - 1])
  }

  predicate Chain(next: map<Cell, Cell>, head: Cell, ms: seq<nat>) {
    && (forall i {:trigger Spot(head, ms, i)} :: 0 <= i < |ms| ==> At(next, Spot(head, ms, i)) == Link(ms[i]))
    && At(next, Spot(head, ms, |ms|)) == Nil
  }

  predicate Fifo(s: State) {
    |s.gets| + s.msgCnt <= |s.puts| && s.gets == s.puts[..|s.gets|]
  }

  // Messages a consumer can take, and those still on the put side.
  function Ready(s: State): seq<nat>
    requires Fifo(s)
  {
    s.puts[|s.gets|..|s.puts| - s.msgCnt]
  }

  function Fresh(s: State): seq<nat>
    requires Fifo(s)
  {
    s.puts[|s.puts| - s.msgCnt..]
  }

  predicate Parked(pc: Pc) {
    pc.Swapping? || pc.Asleep?
  }

  predicate SomeoneParked(s: State) {
    exists t :: t in s.threads && Parked(s.threads[t])
  }

  // The consumer's head is the producers' head: someone is about to swap.
  predicate Joined(s: State) {
    s.getHead == s.putHead
  }

  function Other(head: Cell): Cell
    requires head.Head?
  {
    Head(!head.second)
  }

  predicate Heads(s: State) {
    && Fifo(s) && s.getHead.Head? && s.putHead.Head? && NoDuplicates(s.puts[|s.gets|..])
    && Chain(s.next, s.putHead, Fresh(s)) && s.putTail == Spot(s.putHead, Fresh(s), s.msgCnt)
    && if Joined(s) then Ready(s) == [] && At(s.next, Other(s.putHead)) == Nil else Chain(s.next, s.getHead, Ready(s))
  }

  predicate Stances(s: State)
    requires Heads(s)
  {
    && (Joined(s) ==> SomeoneParked(s))
    && (forall t :: t in s.threads && Parked(s.threads[t]) ==> Joined(s) && s.threads[t].spare == Other(s.putHead))
    && (forall t :: t in s.threads && s.threads[t].Taking? ==> Ready(s) != [])
  }

  predicate Lists(s: State) {
    Heads(s) && Stances(s)
  }

  predicate Locks(s: State) {
    forall t, u :: t in s.threads && u in s.threads && HoldsGet(s.threads[t]) && HoldsGet(s.threads[u]) ==> t == u
  }

  // Messages on their way in have an empty link, are not in the queue, and are one producer's only.
  ghost predicate Hands(s: State) {
    && |s.gets| <= |s.puts|
    && (forall t, m :: t in s.threads && Sends(s.threads[t], m) ==> m !in s.puts[|s.gets|..] && At(s.next, Link(m)) == Nil)
    && (forall t, u, m :: t in s.threads && u in s.threads && t != u && Sends(s.threads[t], m) ==> !Sends(s.threads[u], m))
  }

  predicate SignalDue(s: State) {
    exists t :: t in s.threads && (s.threads[t].Signalling? || s.threads[t].Unblocking?)
  }

  predicate BroadcastDue(s: State) {
    exists t :: t in s.threads && s.threads[t].Unblocking?
  }

  // No wakeup is lost.
  predicate Wakes(s: State) {
    && (forall t :: t in s.threads && s.threads[t].Asleep? ==> (s.msgCnt == 0 && !s.nonblock) || SignalDue(s))
    && (forall t :: t in s.threads && s.threads[t].Waiting? ==> (Full(s) && !s.nonblock) || BroadcastDue(s))
  }

  ghost predicate Inv(s: State) {
    Lists(s) && Locks(s) && Hands(s) && Wakes(s)
  }

  lemma InitInv(s: State)
    requires Init(s)
    ensures Inv(s)
  {
  }

  // A step of one thread does no more to another than wake it.
  predicate Stirred(pc: Pc, pc': Pc) {
    || pc' == pc
    || pc' == Awake(pc)
    || (pc.Asleep? && pc' == Swapping(pc.spare))
  }

  lemma Bystander(s: State, t: nat, a: Action)
    requires Enabled(s, t, a)
    ensures Next(s, t, a).threads.Keys == s.threads.Keys
    ensures forall u :: u in s.threads && u != t ==> Stirred(s.threads[u], Next(s, t, a).threads[u])
  {
  }

  lemma SameThreads(s: State, t: nat, a: Action)
    requires Enabled(s, t, a)
    ensures Next(s, t, a).threads.Keys == s.threads.Keys
  {
    Bystander(s, t, a);
  }

  lemma LocksKept(s: State, t: nat, a: Action)
    requires Locks(s) && Enabled(s, t, a)
    ensures Locks(Next(s, t, a))
  {
    var s' := Next(s, t, a);
    Bystander(s, t, a);
    forall u, v | u in s'.threads && v in s'.threads && HoldsGet(s'.threads[u]) && HoldsGet(s'.threads[v]) ensures u == v {
      assert u != t ==> HoldsGet(s.threads[u]);
      assert v != t ==> HoldsGet(s.threads[v]);
      assert HoldsGet(s'.threads[t]) ==> HoldsGet(s.threads[t]) || a.StartGet?;
    }
  }

  lemma WakesKept(s: State, t: nat, a: Action)
    requires Wakes(s) && Locks(s) && Enabled(s, t, a)
    ensures Wakes(Next(s, t, a))
  {
    var s' := Next(s, t, a);
    forall u | u in s'.threads && s'.threads[u].Asleep? ensures (s'.msgCnt == 0 && !s'.nonblock) || SignalDue(s') {
      GetterWakes(s, t, a, u);
    }
    forall u | u in s'.threads && s'.threads[u].Waiting? ensures (Full(s') && !s'.nonblock) || BroadcastDue(s') {
      PutterWakes(s, t, a, u);
    }
  }

  lemma GetterWakes(s: State, t: nat, a: Action, u: nat)
    requires Wakes(s) && Locks(s) && Enabled(s, t, a) && u in s.threads && Next(s, t, a).threads[u].Asleep?
    ensures var s' := Next(s, t, a); (s'.msgCnt == 0 && !s'.nonblock) || SignalDue(s')
  {
    hide Broadcast;
    var s' := Next(s, t, a);
    Bystander(s, t, a);
    if u != t && SignalDue(s) {
      var v :| v in s.threads && (s.threads[v].Signalling? || s.threads[v].Unblocking?);
      assert v != t ==> s'.threads[v] == s.threads[v];
    }
    if a.Put? || a.StartUnblock? {
      assert s'.threads[t].Signalling? || s'.threads[t].Unblocking? || s'.msgCnt == s.msgCnt;
    }
  }

  lemma PutterWakes(s: State, t: nat, a: Action, u: nat)
    requires Wakes(s) && Enabled(s, t, a) && u in s.threads && Next(s, t, a).threads[u].Waiting?
    ensures var s' := Next(s, t, a); (Full(s') && !s'.nonblock) || BroadcastDue(s')
  {
    var s' := Next(s, t, a);
    Bystander(s, t, a);
    if u != t && BroadcastDue(s) {
      var v :| v in s.threads && s.threads[v].Unblocking?;
      assert v != t ==> s'.threads[v] == s.threads[v];
    }
    if a.StartUnblock? {
      assert s'.threads[t].Unblocking?;
    }
  }

  lemma SendsKept(s: State, t: nat, a: Action, u: nat, m: nat)
    requires Enabled(s, t, a) && u in s.threads
    ensures u in Next(s, t, a).threads
    ensures Sends(Next(s, t, a).threads[u], m) ==> Sends(s.threads[u], m) || (u == t && a == StartPut(m))
    ensures u == t && Next(s, t, a).puts != s.puts ==> !Sends(Next(s, t, a).threads[u], m)
  {
    Bystander(s, t, a);
  }

  lemma PendingKept(s: State, t: nat, a: Action, m: nat)
    requires Lists(s) && Enabled(s, t, a)
    ensures |Next(s, t, a).gets| <= |Next(s, t, a).puts|
    ensures m in Next(s, t, a).puts[|Next(s, t, a).gets|..] ==>
              m in s.puts[|s.gets|..] || (Next(s, t, a).puts != s.puts && Sends(s.threads[t], m))
  {
    var s' := Next(s, t, a);
    if a.Put? && |s'.puts| > |s.puts| {
      assert s'.puts[|s.gets|..] == s.puts[|s.gets|..] + [s.threads[t].msg];
    }
    if a.Take? {
      assert s'.puts[|s'.gets|..] == s.puts[|s.gets|..][1..];
    }
  }

  lemma LinkKept(s: State, t: nat, a: Action, m: nat)
    requires Lists(s) && Enabled(s, t, a) && At(s.next, Link(m)) == Nil && m !in s.puts[|s.gets|..]
    ensures At(Next(s, t, a).next, Link(m)) == Nil
  {
    TailInQueue(s);
  }

  lemma HandKept(s: State, t: nat, a: Action, u: nat, m: nat)
    requires Hands(s) && Lists(s) && Enabled(s, t, a) && u in s.threads
    requires u in Next(s, t, a).threads && Sends(Next(s, t, a).threads[u], m)
    ensures |Next(s, t, a).gets| <= |Next(s, t, a).puts|
    ensures m !in Next(s, t, a).puts[|Next(s, t, a).gets|..] && At(Next(s, t, a).next, Link(m)) == Nil
  {
    SendsKept(s, t, a, u, m);
    PendingKept(s, t, a, m);
    if Sends(s.threads[u], m) { LinkKept(s, t, a, m); }
  }

  lemma HandsApart(s: State, t: nat, a: Action, u: nat, v: nat, m: nat)
    requires Hands(s) && Enabled(s, t, a) && u in s.threads && v in s.threads && u != v
    requires u in Next(s, t, a).threads && v in Next(s, t, a).threads && Sends(Next(s, t, a).threads[u], m)
    ensures !Sends(Next(s, t, a).threads[v], m)
  {
    SendsKept(s, t, a, u, m);
    SendsKept(s, t, a, v, m);
  }

  lemma HandsKept(s: State, t: nat, a: Action)
    requires Hands(s) && Lists(s) && Enabled(s, t, a)
    ensures Hands(Next(s, t, a))
  {
    SameThreads(s, t, a);
    PendingKept(s, t, a, 0);
    HandsFrom(s, Next(s, t, a), t, a);
  }

  lemma HandsFrom(s: State, s': State, t: nat, a: Action)
    requires Hands(s) && Lists(s) && Enabled(s, t, a) && s' == Next(s, t, a)
    requires s'.threads.Keys == s.threads.Keys && |s'.gets| <= |s'.puts|
    ensures Hands(s')
  {
    forall u, m | u in s.threads && Sends(s'.threads[u], m)
      ensures m !in s'.puts[|s'.gets|..] && At(s'.next, Link(m)) == Nil
    {
      HandKept(s, t, a, u, m);
    }
    AllApart(s, s', t, a);
  }

  lemma AllApart(s: State, s': State, t: nat, a: Action)
    requires Hands(s) && Enabled(s, t, a) && s' == Next(s, t, a) && s'.threads.Keys == s.threads.Keys
    ensures forall u, v, m :: u in s.threads && v in s.threads && u != v && Sends(s'.threads[u], m) ==> !Sends(s'.threads[v], m)
  {
    forall u, v, m | u in s.threads && v in s.threads && u != v && Sends(s'.threads[u], m) ensures !Sends(s'.threads[v], m) {
      HandsApart(s, t, a, u, v, m);
    }
  }

  lemma TailInQueue(s: State)
    requires Lists(s)
    ensures s.putTail == s.putHead || (s.putTail.Link? && s.putTail.msg in s.puts[|s.gets|..])
  {
    if s.msgCnt > 0 {
      assert s.puts[|s.gets|..][|s.puts| - |s.gets| - 1] == Fresh(s)[s.msgCnt - 1];
    }
  }

  // ---------------------------------------------------------------------------------
  // The two lists

  lemma LookLists(s: State, t: nat)
    requires Lists(s) && Locks(s) && Enabled(s, t, Look)
    ensures Lists(Next(s, t, Look))
  {
    var s' := Next(s, t, Look);
    assert !SomeoneParked(s);
    if Ready(s) == [] {
      assert At(s.next, Spot(s.getHead, Ready(s), |Ready(s)|)) == Nil;
      assert Parked(s'.threads[t]);
    } else {
      assert At(s.next, Spot(s.getHead, Ready(s), 0)) == Link(Ready(s)[0]);
    }
  }

  lemma SwapLists(s: State, t: nat)
    requires Lists(s) && Locks(s) && Enabled(s, t, Swap)
    ensures Lists(Next(s, t, Swap))
  {
    var s' := Next(s, t, Swap);
    if s.msgCnt == 0 && !s.nonblock {
      assert Parked(s'.threads[t]);
    } else {
      assert |s.gets| + s.msgCnt == |s.puts|;
      assert Ready(s') == Fresh(s) && Fresh(s') == [];
    }
  }

  lemma TakeHeads(s: State, s': State)
    requires Heads(s) && !Joined(s) && Ready(s) != []
    requires s'.next == s.next[s.getHead := At(s.next, Link(Ready(s)[0]))] && s'.gets == s.gets + [Ready(s)[0]]
    requires s'.putTail == s.putTail && s'.msgCnt == s.msgCnt && s'.puts == s.puts
    requires s'.getHead == s.getHead && s'.putHead == s.putHead
    ensures Heads(s') && Ready(s') == Ready(s)[1..]
  {
    var ready := Ready(s);
    assert Fifo(s') && Ready(s') == ready[1..] && Fresh(s') == Fresh(s);
    assert s'.puts[|s'.gets|..] == s.puts[|s.gets|..][1..];
    Popped(s.next, s.getHead, ready);
    Elsewhere(s.next, s'.next, s.putHead, Fresh(s), s.getHead);
  }

  // A consumer that sees a message there takes the one that has waited longest.
  lemma FirstIsNext(s: State)
    requires Heads(s) && !Joined(s) && Ready(s) != []
    ensures At(s.next, s.getHead) == Link(Ready(s)[0]) && Ready(s)[0] == s.puts[|s.gets|]
  {
    assert At(s.next, Spot(s.getHead, Ready(s), 0)) == Link(Ready(s)[0]);
  }

  lemma Popped(next: map<Cell, Cell>, head: Cell, ms: seq<nat>)
    requires head.Head? && ms != [] && Chain(next, head, ms)
    ensures Chain(next[head := At(next, Link(ms[0]))], head, ms[1..])
  {
    var next' := next[head := At(next, Link(ms[0]))];
    forall i | 0 <= i < |ms| ensures At(next', Spot(head, ms[1..], i)) == At(next, Spot(head, ms, i + 1)) {
    }
  }

  // Writing a cell outside a list leaves the list alone.
  lemma Elsewhere(next: map<Cell, Cell>, next': map<Cell, Cell>, head: Cell, ms: seq<nat>, c: Cell)
    requires Chain(next, head, ms) && c in next' && next' == next[c := next'[c]]
    requires forall i :: 0 <= i <= |ms| ==> Spot(head, ms, i) != c
    ensures Chain(next', head, ms)
  {
    assert forall i :: 0 <= i <= |ms| ==> At(next', Spot(head, ms, i)) == At(next, Spot(head, ms, i));
  }

  lemma Pushed(next: map<Cell, Cell>, head: Cell, ms: seq<nat>, m: nat)
    requires head.Head? && Chain(next, head, ms) && NoDuplicates(ms) && m !in ms && At(next, Link(m)) == Nil
    ensures Chain(next[Spot(head, ms, |ms|) := Link(m)], head, ms + [m])
  {
    var next' := next[Spot(head, ms, |ms|) := Link(m)];
    assert forall i :: 0 <= i <= |ms| ==> Spot(head, ms + [m], i) == Spot(head, ms, i);
    assert forall i :: 0 <= i < |ms| ==> At(next', Spot(head, ms, i)) == At(next, Spot(head, ms, i));
  }

  lemma TakeLists(s: State, t: nat)
    requires Lists(s) && Locks(s) && Enabled(s, t, Take)
    ensures Lists(Next(s, t, Take))
  {
    assert !SomeoneParked(s);
    FirstIsNext(s);
    TakeHeads(s, Next(s, t, Take));
    assert forall u :: u in s.threads && u != t ==> !s.threads[u].Taking?;
  }

  lemma Split(s: State)
    requires Fifo(s)
    ensures s.puts[|s.gets|..] == Ready(s) + Fresh(s)
  {
  }

  lemma NotQueued(s: State, msg: nat)
    requires Fifo(s) && msg !in s.puts[|s.gets|..]
    ensures msg !in Ready(s) && msg !in Fresh(s)
  {
    Split(s);
    assert forall m :: m in Ready(s) || m in Fresh(s) ==> m in Ready(s) + Fresh(s);
  }

  // No cell of the consumer's list is the last one of the producers'.
  lemma Apart(s: State, i: nat)
    requires Heads(s) && !Joined(s) && i <= |Ready(s)|
    ensures Spot(s.getHead, Ready(s), i) != s.putTail
  {
    Split(s);
    var all := Ready(s) + Fresh(s);
    if i > 0 && s.msgCnt > 0 { assert all[i - 1] != all[|all| - 1]; }
  }

  lemma StartPutLists(s: State, t: nat, msg: nat)
    requires Lists(s) && Enabled(s, t, StartPut(msg))
    ensures Lists(Next(s, t, StartPut(msg)))
  {
    var s' := Next(s, t, StartPut(msg));
    NotQueued(s, msg);
    Elsewhere(s.next, s'.next, s.putHead, Fresh(s), Link(msg));
    if Joined(s) {
      var u :| u in s.threads && Parked(s.threads[u]);
      assert Parked(s'.threads[u]);
    } else {
      Elsewhere(s.next, s'.next, s.getHead, Ready(s), Link(msg));
    }
  }

  lemma PutHeads(s: State, s': State, msg: nat)
    requires Heads(s) && msg !in s.puts[|s.gets|..] && At(s.next, Link(msg)) == Nil
    requires s'.next == s.next[s.putTail := Link(msg)] && s'.putTail == Link(msg) && s'.msgCnt == s.msgCnt + 1
    requires s'.puts == s.puts + [msg] && s'.gets == s.gets && s'.getHead == s.getHead && s'.putHead == s.putHead
    ensures Heads(s') && Ready(s') == Ready(s)
  {
    NotQueued(s, msg);
    assert Fifo(s') && Ready(s') == Ready(s) && Fresh(s') == Fresh(s) + [msg];
    assert s'.puts[|s.gets|..] == s.puts[|s.gets|..] + [msg];
    assert NoDuplicates(Fresh(s)) by { Split(s); DistinctParts(Ready(s), Fresh(s)); }
    Pushed(s.next, s.putHead, Fresh(s), msg);
    if !Joined(s) {
      forall i | 0 <= i <= |Ready(s)| ensures Spot(s.getHead, Ready(s), i) != s.putTail {
        Apart(s, i);
      }
      Elsewhere(s.next, s'.next, s.getHead, Ready(s), s.putTail);
    }
  }

  lemma DistinctParts(a: seq<nat>, b: seq<nat>)
    requires NoDuplicates(a + b)
    ensures NoDuplicates(b)
  {
    forall i, j | 0 <= i < j < |b| ensures b[i] != b[j] {
      assert (a + b)[|a| + i] != (a + b)[|a| + j];
    }
  }

  lemma PutLists(s: State, t: nat)
    requires Lists(s) && Hands(s) && Enabled(s, t, Put)
    ensures Lists(Next(s, t, Put))
  {
    var s' := Next(s, t, Put);
    if Full(s) && !s.nonblock {
      SameLists(s, s', t);
    } else {
      assert Sends(s.threads[t], s.threads[t].msg);
      PutHeads(s, s', s.threads[t].msg);
      PutStances(s, s', t);
    }
  }

  lemma PutStances(s: State, s': State, t: nat)
    requires Lists(s) && Heads(s') && Ready(s') == Ready(s) && s'.getHead == s.getHead && s'.putHead == s.putHead
    requires t in s.threads && s.threads[t].Putting? && s'.threads == s.threads[t := Signalling]
    ensures Stances(s')
  {
    if Joined(s) {
      var u :| u in s.threads && Parked(s.threads[u]);
      assert Parked(s'.threads[u]);
    }
  }

  // The other steps leave the lists as they are and no one starts or stops swapping.
  lemma Untouched(s: State, t: nat, a: Action)
    requires Lists(s) && Enabled(s, t, a) && !a.Look? && !a.Swap? && !a.Take? && !a.StartPut? && !a.Put?
    ensures Lists(Next(s, t, a))
  {
    var s' := Next(s, t, a);
    Bystander(s, t, a);
    SameLists(s, s', t);
  }

  lemma SameLists(s: State, s': State, t: nat)
    requires Lists(s) && t in s.threads && s'.threads.Keys == s.threads.Keys
    requires s'.next == s.next && s'.getHead == s.getHead && s'.putHead == s.putHead && s'.putTail == s.putTail
    requires s'.msgCnt == s.msgCnt && s'.puts == s.puts && s'.gets == s.gets
    requires forall u :: u in s.threads && u != t ==> Stirred(s.threads[u], s'.threads[u])
    requires Stirred(s.threads[t], s'.threads[t]) || (!Parked(s.threads[t]) && !Parked(s'.threads[t]) && !s'.threads[t].Taking?)
    ensures Lists(s')
  {
    assert Heads(s');
    if Joined(s) {
      var u :| u in s.threads && Parked(s.threads[u]);
      assert Parked(s'.threads[u]);
    }
  }

  lemma ListsKept(s: State, t: nat, a: Action)
    requires Inv(s) && Enabled(s, t, a)
    ensures Lists(Next(s, t, a))
  {
    match a
    case Look => LookLists(s, t);
    case Swap => SwapLists(s, t);
    case Take => TakeLists(s, t);
    case StartPut(msg) => StartPutLists(s, t, msg);
    case Put => PutLists(s, t);
    case _ => Untouched(s, t, a);
  }

  lemma Kept(s: State, t: nat, a: Action)
    requires Inv(s) && Enabled(s, t, a)
    ensures Inv(Next(s, t, a))
  {
    ListsKept(s, t, a);
    LocksKept(s, t, a);
    HandsKept(s, t, a);
    WakesKept(s, t, a);
  }

  // ---------------------------------------------------------------------------------
  // Runs

  ghost predicate Step(s: State, s': State) {
    exists t, a :: Enabled(s, t, a) && s' == Next(s, t, a)
  }

  ghost predicate Run(states: seq<State>) {
    && states != [] && Init(states[0])
    && forall i :: 0 <= i < |states| - 1 ==> Step(states[i], states[i + 1])
  }

  predicate Blocking(states: seq<State>) {
    forall i :: 0 <= i < |states| ==> !states[i].nonblock
  }

  function Pending(s: State): int {
    |s.puts| - |s.gets|
  }

  lemma {:induction false} Always(states: seq<State>, i: nat)
    requires Run(states) && i < |states|
    ensures Inv(states[i])
  {
    if i == 0 {
      InitInv(states[0]);
    } else {
      Always(states, i - 1);
      assert Step(states[i - 1], states[i]);
      var t, a :| Enabled(states[i - 1], t, a) && states[i] == Next(states[i - 1], t, a);
      Kept(states[i - 1], t, a);
    }
  }

  // The queue is one FIFO: what has been got is what was put first, in the same order.
  lemma FirstInFirstOut(states: seq<State>, i: nat)
    requires Run(states) && i < |states|
    ensures states[i].gets <= states[i].puts
  {
    Always(states, i);
  }

  // A consumer takes a message only from a list that holds one, and gives up only in
  // nonblocking mode, at a moment when every message put has been got.
  lemma GetMeansNext(states: seq<State>, t: nat)
    requires Run(states)
    ensures var s := states[|states| - 1]; Enabled(s, t, Take) ==>
      At(s.next, s.getHead).Link? && |s.gets| < |s.puts| && Next(s, t, Take).gets == s.gets + [s.puts[|s.gets|]]
    ensures var s := states[|states| - 1]; Enabled(s, t, Swap) && Next(s, t, Swap).threads[t].Leaving? ==>
      s.nonblock && s.gets == s.puts
  {
    var s := states[|states| - 1];
    Always(states, |states| - 1);
    if Enabled(s, t, Take) {
      assert !SomeoneParked(s);
      FirstIsNext(s);
    }
    if Enabled(s, t, Swap) {
      assert Parked(s.threads[t]) && Ready(s) == [];
    }
  }

  // Sleepers are right to sleep unless the thread that will wake them is on its way.
  lemma NoLostWakeup(states: seq<State>, t: nat)
    requires Run(states)
    requires var s := states[|states| - 1]; t in s.threads
    ensures var s := states[|states| - 1]; s.threads[t].Asleep? ==> (s.msgCnt == 0 && !s.nonblock) || SignalDue(s)
    ensures var s := states[|states| - 1]; s.threads[t].Waiting? ==> (Full(s) && !s.nonblock) || BroadcastDue(s)
  {
    Always(states, |states| - 1);
  }

  // ---------------------------------------------------------------------------------
  // How many messages can be pending (msgqueue.h:13-17)

  predicate Within(s: State, limit: nat) {
    s.msgMax == limit && (limit >= 1 ==> Fifo(s) && s.msgCnt <= limit && |Ready(s)| <= limit)
  }

  lemma WithinKept(s: State, t: nat, a: Action, limit: nat)
    requires Inv(s) && Within(s, limit) && !s.nonblock && Enabled(s, t, a)
    ensures Within(Next(s, t, a), limit)
  {
    ListsKept(s, t, a);
  }

  lemma WithinStep(s: State, s': State, limit: nat)
    requires Inv(s) && Within(s, limit) && !s.nonblock && Step(s, s')
    ensures Within(s', limit)
  {
    var t, a :| Enabled(s, t, a) && s' == Next(s, t, a);
    WithinKept(s, t, a, limit);
  }

  lemma {:induction false} BlockingRun(states: seq<State>, i: nat)
    requires Run(states) && Blocking(states) && i < |states|
    ensures Within(states[i], states[0].msgMax)
  {
    if i > 0 {
      BlockingRun(states, i - 1);
      assert Inv(states[i - 1]) by { Always(states, i - 1); }
      WithinStep(states[i - 1], states[i], states[0].msgMax);
    }
  }

  lemma BlockingBound(states: seq<State>, i: nat)
    requires Run(states) && Blocking(states) && i < |states| && states[0].msgMax >= 1
    ensures Pending(states[i]) <= 2 * states[0].msgMax
  {
    BlockingRun(states, i);
  }

  ghost predicate Bounded(limit: nat) {
    forall states: seq<State> :: Run(states) && Blocking(states) && states[0].msgMax == limit ==> Pending(states[|states| - 1]) <= 2 * limit
  }

  // A queue made with no room in fact never makes a producer wait, so the documented bound
  // holds of exactly the other ones.
  lemma BoundedIffRoom(limit: nat)
    ensures Bounded(limit) <==> limit >= 1
  {
    if limit >= 1 {
      forall states: seq<State> | Run(states) && Blocking(states) && states[0].msgMax == limit
        ensures Pending(states[|states| - 1]) <= 2 * limit
      {
        BlockingBound(states, |states| - 1);
      }
    } else {
      var s0 := Created(0);
      var s2 := PutOne([s0]);
    }
  }

  function Created(limit: nat): State {
    State(limit, map[Head(false) := Nil, Head(true) := Nil], Head(false), Head(true), Head(true), 0, false,
          map[0 := Outside, 1 := Outside], [], [])
  }

  // Thread 0 is free to put, nobody sleeps, and messages so far are numbered.
  predicate Open(s: State) {
    && s.threads.Keys == {0, 1} && s.threads[0] == Outside && !s.threads[1].Putting? && !s.threads[1].Waiting? && !s.threads[1].Asleep?
    && (forall i :: 0 <= i < |s.puts| ==> s.puts[i] == i) && |s.gets| <= |s.puts| && !s.nonblock
  }

  lemma PutOne(states: seq<State>) returns (states': seq<State>)
    requires Run(states) && Blocking(states) && Open(states[|states| - 1]) && !Full(states[|states| - 1])
    ensures Run(states') && Blocking(states') && states'[0] == states[0]
    ensures var s, s' := states[|states| - 1], states'[|states'| - 1];
      Open(s') && s'.msgCnt == s.msgCnt + 1 && s'.gets == s.gets && |s'.puts| == |s.puts| + 1
      && s'.threads == s.threads && s'.msgMax == s.msgMax
  {
    var s := states[|states| - 1];
    var m := |s.puts|;
    assert Enabled(s, 0, StartPut(m));
    var s1 := Next(s, 0, StartPut(m));
    assert Enabled(s1, 0, Put);
    var s2 := Next(s1, 0, Put);
    assert Enabled(s2, 0, Signal(0));
    var s3 := Next(s2, 0, Signal(0));
    states' := states + [s1, s2, s3];
    RunOn(states, s1, s2, s3);
    assert s3.threads == s.threads;
  }

  lemma {:induction false} PutMany(states: seq<State>, n: nat) returns (states': seq<State>)
    requires Run(states) && Blocking(states) && Open(states[|states| - 1])
    requires states[|states| - 1].msgCnt + n <= states[|states| - 1].msgMax
    ensures Run(states') && Blocking(states') && states'[0] == states[0]
    ensures var s, s' := states[|states| - 1], states'[|states'| - 1];
      Open(s') && s'.msgCnt == s.msgCnt + n && s'.gets == s.gets && |s'.puts| == |s.puts| + n
      && s'.threads == s.threads && s'.msgMax == s.msgMax
    decreases n
  {
    states' := states;
    if n > 0 {
      states' := PutMany(states, n - 1);
      states' := PutOne(states');
    }
  }

  // The bound of twice the limit is reached: fill the put list, let a consumer swap, fill it again.
  lemma BoundReached(limit: nat) returns (states: seq<State>)
    requires limit >= 1
    ensures Run(states) && Blocking(states) && states[0].msgMax == limit
    ensures Pending(states[|states| - 1]) == 2 * limit
  {
    states := PutMany([Created(limit)], limit);
    states := TurnOver(states);
    states := PutMany(states, limit);
  }

  // Thread 1 moves the put list over.
  lemma TurnOver(states: seq<State>) returns (states': seq<State>)
    requires Run(states) && Blocking(states)
    requires var s := states[|states| - 1]; Open(s) && s.threads[1] == Outside && s.msgCnt > 0 && |s.puts| == s.msgCnt
    ensures Run(states') && Blocking(states') && states'[0] == states[0]
    ensures var s, s' := states[|states| - 1], states'[|states'| - 1];
      Open(s') && s'.msgCnt == 0 && s'.gets == s.gets && s'.puts == s.puts && s'.msgMax == s.msgMax
  {
    hide Lists, Step;
    var s := states[|states| - 1];
    Always(states, |states| - 1);
    HeadIsEmpty(s);
    var s1, s2, s3 := ThreeSteps(s);
    states' := states + [s1, s2, s3];
    RunOn(states, s1, s2, s3);
  }

  lemma RunOn(states: seq<State>, s1: State, s2: State, s3: State)
    requires Run(states) && Blocking(states) && Step(states[|states| - 1], s1) && Step(s1, s2) && Step(s2, s3)
    requires !s1.nonblock && !s2.nonblock && !s3.nonblock
    ensures Run(states + [s1, s2, s3]) && Blocking(states + [s1, s2, s3])
  {
    hide Step, Init;
    var states' := states + [s1, s2, s3];
    forall i | 0 <= i < |states'| - 1 ensures Step(states'[i], states'[i + 1]) {
      if i < |states| - 1 { assert Step(states[i], states[i + 1]); }
    }
  }

  lemma ThreeSteps(s: State) returns (s1: State, s2: State, s3: State)
    requires Open(s) && s.threads[1] == Outside && s.msgCnt > 0 && At(s.next, s.getHead) == Nil
    ensures Step(s, s1) && Step(s1, s2) && Step(s2, s3) && !s1.nonblock && !s2.nonblock
    ensures Open(s3) && s3.msgCnt == 0 && s3.gets == s.gets && s3.puts == s.puts && s3.msgMax == s.msgMax
  {
    assert Enabled(s, 1, StartGet);
    s1 := Next(s, 1, StartGet);
    assert Enabled(s1, 1, Look);
    s2 := Next(s1, 1, Look);
    assert Enabled(s2, 1, Swap);
    s3 := Next(s2, 1, Swap);
    assert s3.threads[0] == Outside;
  }

  lemma HeadIsEmpty(s: State)
    requires Lists(s) && |s.puts| == s.msgCnt && forall t :: t in s.threads ==> !Parked(s.threads[t])
    ensures At(s.next, s.getHead) == Nil
  {
    NobodySwaps(s);
    NothingReady(s);
  }

  lemma NobodySwaps(s: State)
    requires Heads(s) && (Joined(s) ==> SomeoneParked(s)) && forall t :: t in s.threads ==> !Parked(s.threads[t])
    ensures !Joined(s)
  {
  }

  lemma NothingReady(s: State)
    requires Heads(s) && !Joined(s) && |s.puts| == s.msgCnt
    ensures At(s.next, s.getHead) == Nil
  {
    assert |Ready(s)| == 0 && Spot(s.getHead, Ready(s), 0) == s.getHead;
  }
}
