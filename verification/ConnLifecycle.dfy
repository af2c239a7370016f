/**
  src/net/Communicator.cc, client side: the life of the connections (CommConnEntry) of one
  target, from request to release_conn.

  Threads that call request and threads that handle poller results interleave with the poller.
  A step is a region under a mutex, or a piece of unlocked code that touches the entry once; where
  two mutexes are held, each is unlocked in a step of its own.
  Of the poller the model keeps, per entry, the node linked on its socket, the nodes del or mod
  have taken out, and how far the poller thread is in handling an event of that socket;
  PollerProtocol justifies this: a node taken out is called back for when the poller thread is
  done with it.  A timeout, a peer closing and a stop are results that come at any moment.
 */
module ConnLifecycle {
  import opened Collections

  type Thread = nat
  type Id = nat
  type Session = nat

  datatype Op = Connect | Read | Write

  datatype Status = Success | Finished | Failed | Deleted | Modified | Stopped

  datatype Result = Result(op: Op, status: Status)

  datatype ConnState = CONNECTING | RECEIVING | SUCCESS | IDLE | CLOSING | ERROR

  // The poller thread on this socket: what event it fetched, where it is in handling a read.
  datatype Busy = Nothing | Got(op: Op) | CreateWait | CreateCheck | Append | Emit | Fail

  // Bookkeeping for the proof, never consulted by a step: who must give up the entry's first
  // reference, where the result that announces a reply is, where an idle entry is.
  datatype Owner = ByNode | InPipe(r: Result) | Queued(r: Result) | With(t: Thread) | Passed | Dropped | Closer(t: Thread)
  datatype Notice = NoNotice | Emitting | NoticeQueued | NoticeWith(t: Thread)
  datatype Spot = Away | OnList | Taken(t: Thread)

  datatype Entry = Entry(
    state: ConnState,
    ref: int,
    session: Session,
    keepAlive: bool,             // session->timeout != 0 once the reply is in
    mutex: Option<Thread>,
    freed: bool,
    node: Option<Op>,            // the poller's node for the socket
    gone: multiset<Result>,      // taken out by del or mod, not called back for yet
    busy: Busy,
    msgOpen: bool,               // the node holds a message under construction
    queue: multiset<Result>,     // in the message queue
    // bookkeeping
    op: Op, owner: Owner, notice: Notice, guests: set<Thread>, spot: Spot, owing: bool)

  datatype After = ThenDrop | ThenWait | ThenDiscard

  // What a thread with the end of a reading connection is to do once it has left the mutexes
  datatype Way = ToServe | ToDrop | ToLeave

  datatype Pc =
    | Out
    // request (Communicator.cc:1303-1405)
    | Popping(session: Session)
    | Popped(session: Session, e: Id)       // has the target's mutex, waits for the entry's
    | Holding(session: Session, e: Id)      // has the entry's mutex
    | Sending(session: Session, e: Id)
    | Unlocking(e: Id)
    | Launching(session: Session)
    // handler threads
    | Handling(e: Id, r: Result)
    | Ending(e: Id)                         // has the target's mutex, waits for the entry's
    | Parting(e: Id, way: Way)              // has left the target's mutex, has the entry's: lines 629-630
    | Serving(e: Id, session: Session, guest: bool, after: After)  // release and handle
    | Waiting(e: Id)                        // line 764
    | Dropping(e: Id, guest: bool)          // about to drop a reference
    | Freeing(e: Id)                        // about to call release_conn, at no reference
    | Adding(e: Id)                         // line 746
    | AddingFirst(e: Id)                    // line 904
    | Discarding(e: Id)                     // line 923

  datatype Where = Asking(t: Thread) | At(e: Id) | InHands(t: Thread) | Refused | Done

  datatype State = State(
    entries: map<Id, Entry>,
    idle: seq<Id>,
    tlock: Option<Thread>,
    threads: map<Thread, Pc>,
    handlers: set<Thread>,          // constant: the threads that handle results; the others make requests,
                                    // and so stand for a handler in the requests that handle makes
    served: multiset<Session>,      // history: target->release and session->handle
    place: map<Session, Where>)     // bookkeeping

  const NOTICE := Result(Read, Success)

  datatype Action =
    | Request(t: Thread, session: Session)
    | Pop(t: Thread)
    | LockEntry(t: Thread)
    | Retime(t: Thread)
    | SendSync(t: Thread)
    | SendAsync(t: Thread)
    | SendFail(t: Thread)
    | Unlock(t: Thread)
    | Launch(t: Thread, e: Id)
    | LaunchFail(t: Thread)
    // the poller
    | Fetch(e: Id)
    | Return(e: Id)
    | Finish(e: Id, ok: bool)
    | CreateFirst(e: Id)
    | CreatePass(e: Id)
    | Create(e: Id, ok: bool)
    | Continue(e: Id)
    | AppendMore(e: Id)
    | AppendError(e: Id)
    | AppendDone(e: Id, keepAlive: bool)
    | EmitNotice(e: Id)
    | Deliver(e: Id, r: Result)
    | Expire(e: Id, status: Status)
    | Cut(e: Id)
    // handlers
    | Take(t: Thread, e: Id, r: Result)
    | Ignore(t: Thread)
    | ReadSuccess(t: Thread)
    | ReadEnd(t: Thread)
    | ReadEndLocked(t: Thread)
    | Part(t: Thread)
    | WriteFinished(t: Thread)
    | WriteEnd(t: Thread)
    | AddRead(t: Thread, ok: bool)
    | ConnectSent(t: Thread)
    | ConnectPartial(t: Thread)
    | ConnectFail(t: Thread)
    | AddFirst(t: Thread, ok: bool)
    | Serve(t: Thread)
    | WaitMutex(t: Thread)
    | Drop(t: Thread)
    | Free(t: Thread)
    | Discard(t: Thread)

  predicate Terminal(r: Result) {
    r.status != Success && r.status != Modified
  }

  // Stages of the poller thread that belong to a read event
  predicate InRead(b: Busy) {
    b == Got(Read) || b.CreateWait? || b.CreateCheck? || b.Append? || b.Emit? || b.Fail?
  }

  function About(pc: Pc): Option<Id> {
    match pc
    case Out => None
    case Popping(_) => None
    case Launching(_) => None
    case Popped(_, e) => Some(e)
    case Holding(_, e) => Some(e)
    case Sending(_, e) => Some(e)
    case Unlocking(e) => Some(e)
    case Handling(e, _) => Some(e)
    case Ending(e) => Some(e)
    case Parting(e, _) => Some(e)
    case Serving(e, _, _, _) => Some(e)
    case Waiting(e) => Some(e)
    case Dropping(e, _) => Some(e)
    case Freeing(e) => Some(e)
    case Adding(e) => Some(e)
    case AddingFirst(e) => Some(e)
    case Discarding(e) => Some(e)
  }

  // ---------------------------------------------------------------------------------
  // Steps on one entry

  // mpoller_del
  function Unlinked(x: Entry): Entry {
    if x.node.None? then x
    else var r := Result(x.node.value, Deleted);
         x.(node := None, gone := x.gone + multiset{r}, owner := InPipe(r))
  }

  // mpoller_mod to a write (Communicator.cc:441-443); without a node it says ENOENT
  function Rewritten(x: Entry): Entry {
    if x.node.None? then x.(state := RECEIVING, spot := Away)
    else x.(gone := x.gone + multiset{Result(x.node.value, Modified)}, node := Some(Write), op := Write, spot := Away)
  }

  // __poller_remove_node by the poller thread, and the callback
  function Terminated(x: Entry, o: Op, status: Status): Entry {
    if x.node != Some(o) then x.(busy := Nothing)
    else var r := Result(o, status);
         x.(busy := Nothing, node := None, msgOpen := false, queue := x.queue + multiset{r}, owner := Queued(r))
  }

  function Finishing(b: Busy): Op {
    if b.Got? then b.op else Read
  }

  // append_reply on the last piece of a reply (Communicator.cc:996-1005)
  function Replied(x: Entry, keepAlive: bool): Entry {
    var y := x.(state := SUCCESS, keepAlive := keepAlive, msgOpen := false, busy := Emit, notice := Emitting);
    if keepAlive then y else Unlinked(y)
  }

  // The poller actions, as what they do to the entry; None when they cannot happen.
  function PollerStep(x: Entry, a: Action): Option<Entry> {
    match a
    case Fetch(_) => if x.node.Some? && x.busy.Nothing? then Some(x.(busy := Got(x.node.value))) else None
    case Return(_) => if x.busy.Got? then Some(x.(busy := Nothing)) else None
    case Finish(_, ok) =>
      if x.busy.Got? || x.busy.Fail? then
        Some(Terminated(x, Finishing(x.busy), if ok && !x.busy.Fail? then Finished else Failed))
      else None
    case CreateFirst(_) =>
      if x.busy == Got(Read) && !x.msgOpen then Some(x.(busy := if x.state == IDLE then CreateWait else CreateCheck)) else None
    case CreatePass(_) => if x.busy.CreateWait? && x.mutex.None? then Some(x.(busy := CreateCheck)) else None
    case Create(_, ok) =>
      if !x.busy.CreateCheck? then None
      else if ok && x.state == RECEIVING then Some(x.(busy := Append, msgOpen := true))
      else Some(x.(busy := Fail))
    case Continue(_) => if x.busy == Got(Read) && x.msgOpen then Some(x.(busy := Append)) else None
    case AppendMore(_) => if x.busy.Append? then Some(x.(busy := Got(Read))) else None
    case AppendError(_) => if x.busy.Append? then Some(x.(busy := Fail)) else None
    case AppendDone(_, keepAlive) => if x.busy.Append? then Some(Replied(x, keepAlive)) else None
    case EmitNotice(_) =>
      if x.busy.Emit? then Some(x.(busy := Got(Read), queue := x.queue + multiset{NOTICE}, notice := NoticeQueued)) else None
    case Deliver(_, r) =>
      if x.busy.Nothing? && r in x.gone then
        Some(x.(gone := x.gone - multiset{r}, queue := x.queue + multiset{r}, msgOpen := x.msgOpen && !Terminal(r),
                owner := if Terminal(r) then Queued(r) else x.owner))
      else None
    case Expire(_, status) =>
      if x.busy.Nothing? && x.node.Some? && (status.Failed? || status.Stopped?) then
        Some(Terminated(x, x.node.value, status))
      else None
    // a delete by socket number, as the stop flag makes handlers do (lines 451, 749, 907)
    case Cut(_) => if x.node.Some? then Some(Unlinked(x)) else None
    case _ => None
  }

  function Entered(ses: Session): Entry {
    Entry(CONNECTING, 1, ses, false, None, false, Some(Connect), multiset{}, Nothing, false, multiset{},
          Connect, ByNode, NoNotice, {}, Away, true)
  }

  // ---------------------------------------------------------------------------------
  // Steps of threads

  function Goto(s: State, t: Thread, pc: Pc): State {
    s.(threads := s.threads[t := pc])
  }

  function Set(s: State, e: Id, x: Entry): State {
    s.(entries := s.entries[e := x])
  }

  // The thread takes the entry's session in hand, to release the target and call handle.
  function Claim(s: State, t: Thread, e: Id, x: Entry, guest: bool, after: After): State {
    Goto(Set(s, e, x.(owing := false)), t, Serving(e, x.session, guest, after)).(place := s.place[x.session := InHands(t)])
  }

  // request_idle_conn, Communicator.cc:1311-1351
  function RequestStep(s: State, a: Action): Option<State> {
    match a
    case Request(t, session) =>
      if t in s.threads && t !in s.handlers && s.threads[t].Out? && session !in s.place then
        Some(Goto(s, t, Popping(session)).(place := s.place[session := Asking(t)]))
      else None
    case Pop(t) =>
      if t in s.threads && s.threads[t].Popping? && s.tlock.None? then
        var session := s.threads[t].session;
        if s.idle == [] then Some(Goto(s, t, Launching(session)))
        else
          var e := s.idle[0];
          if e !in s.entries then None
          else Some(Goto(Set(s, e, s.entries[e].(spot := Taken(t))), t, Popped(session, e)).(idle := s.idle[1..], tlock := Some(t)))
      else None
    case LockEntry(t) =>
      if t in s.threads && s.threads[t].Popped? && s.threads[t].e in s.entries && s.entries[s.threads[t].e].mutex.None? then
        var e := s.threads[t].e;
        Some(Goto(Set(s, e, s.entries[e].(mutex := Some(t))), t, Holding(s.threads[t].session, e)).(tlock := None))
      else None
    case Retime(t) =>
      if t in s.threads && s.threads[t].Holding? && s.threads[t].e in s.entries then
        var e, session := s.threads[t].e, s.threads[t].session;
        var x := s.entries[e];
        if x.node.Some? then
          Some(Goto(Set(s, e, x.(session := session, owing := true)), t, Sending(session, e)).(place := s.place[session := At(e)]))
        else
          Some(Goto(Set(s, e, x.(state := CLOSING, mutex := None, spot := Away)), t, Popping(session)))
      else None
    case Launch(t, e) =>
      if t in s.threads && s.threads[t].Launching? && e !in s.entries then
        var session := s.threads[t].session;
        Some(Goto(Set(s, e, Entered(session)), t, Out).(place := s.place[session := At(e)]))
      else None
    case LaunchFail(t) =>
      if t in s.threads && s.threads[t].Launching? then
        Some(Goto(s, t, Out).(place := s.place[s.threads[t].session := Refused]))
      else None
    case _ => None
  }

  // Communicator.cc:395-409, 439-461 and 1339-1352, with the entry's mutex held
  function SendStep(s: State, a: Action): Option<State> {
    match a
    case SendSync(t) =>
      if t in s.threads && s.threads[t].Sending? && s.threads[t].e in s.entries then
        var e := s.threads[t].e;
        Some(Goto(Set(s, e, s.entries[e].(state := RECEIVING, spot := Away)), t, Unlocking(e)))
      else None
    case SendAsync(t) =>
      if t in s.threads && s.threads[t].Sending? && s.threads[t].e in s.entries then
        var e := s.threads[t].e;
        Some(Goto(Set(s, e, Rewritten(s.entries[e])), t, Unlocking(e)))
      else None
    case SendFail(t) =>
      if t in s.threads && s.threads[t].Sending? && s.threads[t].e in s.entries then
        var e := s.threads[t].e;
        Some(Goto(Set(s, e, Unlinked(s.entries[e]).(state := ERROR, spot := Away)), t, Unlocking(e)))
      else None
    case Unlock(t) =>
      if t in s.threads && s.threads[t].Unlocking? && s.threads[t].e in s.entries then
        var e := s.threads[t].e;
        Some(Goto(Set(s, e, s.entries[e].(mutex := None)), t, Out))
      else None
    case _ => None
  }

  // The thread has seen to the entry under both mutexes and unlocked the target's.
  function Parted(s: State, t: Thread, e: Id, x: Entry, way: Way): State {
    Goto(Set(s, e, x), t, Parting(e, way)).(tlock := None)
  }

  function AfterTake(x: Entry, t: Thread, r: Result): Entry {
    x.(queue := x.queue - multiset{r}, owner := if Terminal(r) then With(t) else x.owner,
       notice := if r == NOTICE then NoticeWith(t) else x.notice)
  }

  // handle_incoming_reply, Communicator.cc:575-644
  function ReadStep(s: State, a: Action): Option<State> {
    match a
    case Take(t, e, r) =>
      if t in s.threads && t in s.handlers && s.threads[t].Out? && e in s.entries && r in s.entries[e].queue then
        Some(Goto(Set(s, e, AfterTake(s.entries[e], t, r)), t, Handling(e, r)))
      else None
    case Ignore(t) =>
      if t in s.threads && s.threads[t].Handling? && s.threads[t].r.status.Modified? then Some(Goto(s, t, Out)) else None
    case ReadSuccess(t) =>
      if t in s.threads && s.threads[t].Handling? && s.threads[t].r == NOTICE && s.threads[t].e in s.entries && s.tlock.None? then
        var e := s.threads[t].e;
        var x := s.entries[e];
        if x.state == SUCCESS then
          var y := x.(ref := x.ref + 1, guests := x.guests + {t}, notice := NoNotice);
          if x.keepAlive then Some(Claim(s, t, e, y.(state := IDLE, spot := OnList), true, ThenDrop).(idle := [e] + s.idle))
          else Some(Claim(s, t, e, y.(state := CLOSING), true, ThenDrop))
        else
          Some(Claim(s, t, e, x.(owner := With(t), notice := NoNotice), false, ThenDrop))
      else None
    case ReadEnd(t) =>
      if t in s.threads && s.threads[t].Handling? && s.threads[t].r.op.Read? && Terminal(s.threads[t].r) && s.tlock.None? then
        Some(Goto(s, t, Ending(s.threads[t].e)).(tlock := Some(t)))
      else None
    case ReadEndLocked(t) =>
      if t in s.threads && s.threads[t].Ending? && s.threads[t].e in s.entries && s.entries[s.threads[t].e].mutex.None? then
        var e := s.threads[t].e;
        var x := s.entries[e].(mutex := Some(t));
        match x.state {
          case IDLE => Some(Parted(s, t, e, x.(spot := Away), ToDrop).(idle := Without(s.idle, e)))
          case ERROR => Some(Parted(s, t, e, x, ToServe))
          case RECEIVING => Some(Parted(s, t, e, x, ToServe))
          case SUCCESS => Some(Parted(s, t, e, x.(state := CLOSING, owner := Passed), ToLeave))
          case _ => Some(Parted(s, t, e, x, ToDrop))
        }
      else None
    case Part(t) =>
      if t in s.threads && s.threads[t].Parting? && s.threads[t].e in s.entries then
        var e := s.threads[t].e;
        var x := s.entries[e].(mutex := None);
        match s.threads[t].way {
          case ToServe => Some(Claim(s, t, e, x, false, ThenDrop))
          case ToDrop => Some(Goto(Set(s, e, x), t, Dropping(e, false)))
          case ToLeave => Some(Goto(Set(s, e, x), t, Out))
        }
      else None
    case _ => None
  }

  // list_del
  function Without(idle: seq<Id>, e: Id): (idle': seq<Id>)
    ensures forall f :: f in idle' <==> f in idle && f != e
  {
    if idle == [] then []
    else if idle[0] == e then Without(idle[1..], e)
    else [idle[0]] + Without(idle[1..], e)
  }

  // handle_request_result and handle_connect_result, Communicator.cc:730-770, 876-924
  function WriteStep(s: State, a: Action): Option<State> {
    match a
    case WriteFinished(t) =>
      if t in s.threads && s.threads[t].Handling? && s.threads[t].r == Result(Write, Finished) && s.threads[t].e in s.entries then
        var e := s.threads[t].e;
        Some(Goto(Set(s, e, s.entries[e].(state := RECEIVING)), t, Adding(e)))
      else None
    case WriteEnd(t) =>
      if t in s.threads && s.threads[t].Handling? && s.threads[t].r.op.Write? && Terminal(s.threads[t].r)
         && !s.threads[t].r.status.Finished? && s.threads[t].e in s.entries then
        Some(Claim(s, t, s.threads[t].e, s.entries[s.threads[t].e], false, ThenWait))
      else None
    case AddRead(t, ok) =>
      if t in s.threads && s.threads[t].Adding? && s.threads[t].e in s.entries then
        var e := s.threads[t].e;
        var x := s.entries[e];
        if ok && x.node.None? then Some(Goto(Set(s, e, x.(node := Some(Read), op := Read, owner := ByNode, msgOpen := false)), t, Out))
        else Some(Claim(s, t, e, x, false, ThenWait))
      else None
    case ConnectSent(t) =>
      if t in s.threads && s.threads[t].Handling? && s.threads[t].r == Result(Connect, Finished) && s.threads[t].e in s.entries then
        var e := s.threads[t].e;
        Some(Goto(Set(s, e, s.entries[e].(state := RECEIVING)), t, AddingFirst(e)))
      else None
    case ConnectPartial(t) =>
      if t in s.threads && s.threads[t].Handling? && s.threads[t].r == Result(Connect, Finished) && s.threads[t].e in s.entries
         && s.entries[s.threads[t].e].node.None? then
        var e := s.threads[t].e;
        Some(Goto(Set(s, e, s.entries[e].(node := Some(Write), op := Write, owner := ByNode)), t, Out))
      else None
    case ConnectFail(t) =>
      if t in s.threads && s.threads[t].Handling? && s.threads[t].r.op.Connect? && Terminal(s.threads[t].r)
         && s.threads[t].e in s.entries then
        Some(Claim(s, t, s.threads[t].e, s.entries[s.threads[t].e], false, ThenDiscard))
      else None
    case AddFirst(t, ok) =>
      if t in s.threads && s.threads[t].AddingFirst? && s.threads[t].e in s.entries then
        var e := s.threads[t].e;
        var x := s.entries[e];
        if ok && x.node.None? then Some(Goto(Set(s, e, x.(node := Some(Read), op := Read, owner := ByNode, msgOpen := false)), t, Out))
        else Some(Claim(s, t, e, x, false, ThenDiscard))
      else None
    case _ => None
  }

  function OneLess(x: Entry, t: Thread, guest: bool): Entry {
    x.(ref := x.ref - 1, guests := x.guests - {t}, owner := if guest then x.owner else Dropped)
  }

  // Communicator.cc:638-643, 762-768, 921-923
  function LeaveStep(s: State, a: Action): Option<State> {
    match a
    case Serve(t) =>
      if t in s.threads && s.threads[t].Serving? then
        var e, session, guest := s.threads[t].e, s.threads[t].session, s.threads[t].guest;
        var pc := match s.threads[t].after {
          case ThenDrop => Dropping(e, guest)
          case ThenWait => Waiting(e)
          case ThenDiscard => Discarding(e)
        };
        Some(Goto(s, t, pc).(served := s.served + multiset{session}, place := s.place[session := Done]))
      else None
    case WaitMutex(t) =>
      if t in s.threads && s.threads[t].Waiting? && s.threads[t].e in s.entries && s.entries[s.threads[t].e].mutex.None? then
        Some(Goto(s, t, Dropping(s.threads[t].e, false)))
      else None
    case Drop(t) =>
      if t in s.threads && s.threads[t].Dropping? && s.threads[t].e in s.entries then
        var e := s.threads[t].e;
        var x := s.entries[e];
        var y := OneLess(x, t, s.threads[t].guest);
        if y.ref == 0 then Some(Goto(Set(s, e, y.(owner := Closer(t))), t, Freeing(e)))
        else Some(Goto(Set(s, e, y), t, Out))
      else None
    case Free(t) =>
      if t in s.threads && s.threads[t].Freeing? && s.threads[t].e in s.entries then
        var e := s.threads[t].e;
        Some(Goto(Set(s, e, s.entries[e].(freed := true, owner := Dropped)), t, Out))
      else None
    case Discard(t) =>
      if t in s.threads && s.threads[t].Discarding? && s.threads[t].e in s.entries then
        var e := s.threads[t].e;
        Some(Goto(Set(s, e, s.entries[e].(freed := true, owner := Dropped)), t, Out))
      else None
    case _ => None
  }

  predicate IsPollerAction(a: Action) {
    a.Fetch? || a.Return? || a.Finish? || a.CreateFirst? || a.CreatePass? || a.Create? || a.Continue? || a.AppendMore?
    || a.AppendError? || a.AppendDone? || a.EmitNotice? || a.Deliver? || a.Expire? || a.Cut?
  }

  function PollerMove(s: State, a: Action): Option<State>
    requires IsPollerAction(a)
  {
    if a.e in s.entries && PollerStep(s.entries[a.e], a).Some? then Some(Set(s, a.e, PollerStep(s.entries[a.e], a).value)) else None
  }

  function Next(s: State, a: Action): Option<State> {
    if IsPollerAction(a) then PollerMove(s, a)
    else if RequestStep(s, a).Some? then RequestStep(s, a)
    else if SendStep(s, a).Some? then SendStep(s, a)
    else if ReadStep(s, a).Some? then ReadStep(s, a)
    else if WriteStep(s, a).Some? then WriteStep(s, a)
    else LeaveStep(s, a)
  }

  predicate Init(s: State) {
    && s.entries == map[] && s.idle == [] && s.tlock.None? && s.served == multiset{} && s.place == map[]
    && forall t :: t in s.threads ==> s.threads[t].Out?
  }

  // ---------------------------------------------------------------------------------
  // The invariant

  // The thread answers for the entry's first reference.
  predicate OwnerPc(pc: Pc) {
    || (pc.Handling? && Terminal(pc.r)) || pc.Ending? || (pc.Parting? && !pc.way.ToLeave?) || (pc.Serving? && !pc.guest) || pc.Waiting?
    || (pc.Dropping? && !pc.guest) || pc.Adding? || pc.AddingFirst? || pc.Discarding?
  }

  // ... and has not yet taken the session in hand.
  predicate Unclaimed(pc: Pc) {
    pc.Handling? || pc.Ending? || (pc.Parting? && pc.way.ToServe?) || pc.Adding? || pc.AddingFirst?
  }

  predicate GuestPc(pc: Pc) {
    (pc.Serving? || pc.Dropping?) && pc.guest
  }

  // The mutex has been passed: nobody will take it any more.
  predicate PastMutex(pc: Pc) {
    pc.Dropping? || pc.Discarding? || (pc.Serving? && !pc.after.ThenWait?)
  }

  function PcOf(s: State, t: Thread): Pc {
    if t in s.threads then s.threads[t] else Out
  }

  // Only a handler that has left the entry to another one can still have the mutex.
  predicate Unheld(s: State, x: Entry) {
    x.mutex.None? || (PcOf(s, x.mutex.value).Parting? && PcOf(s, x.mutex.value).way.ToLeave?)
  }

  // The entry can still produce an event that settles its session.
  predicate Live(s: State, x: Entry) {
    x.owner.ByNode? || x.owner.InPipe? || x.owner.Queued? || (x.owner.With? && Unclaimed(PcOf(s, x.owner.t)))
  }

  predicate InPoller(x: Entry) {
    x.owner.ByNode? || x.owner.InPipe? || x.owner.Queued?
  }

  // Whose turn it is, tag by tag
  ghost predicate Tags(s: State, e: Id, x: Entry) {
    && (x.owner.With? ==> OwnerPc(PcOf(s, x.owner.t)) && About(PcOf(s, x.owner.t)) == Some(e))
    && (x.owner.Closer? ==> PcOf(s, x.owner.t) == Freeing(e))
    && (x.notice.NoticeWith? ==> PcOf(s, x.notice.t) == Handling(e, NOTICE))
    && (x.spot.Taken? ==> var pc := PcOf(s, x.spot.t); (pc.Popped? || pc.Holding? || pc.Sending?) && pc.e == e)
    && (x.mutex.Some? ==> var pc := PcOf(s, x.mutex.value); (pc.Holding? || pc.Sending? || pc.Unlocking? || pc.Parting?) && pc.e == e)
    && (forall g :: g in x.guests ==> GuestPc(PcOf(s, g)) && About(PcOf(s, g)) == Some(e))
    && (x.spot.OnList? <==> e in s.idle)
  }

  // The poller's side
  ghost predicate Nodes(x: Entry) {
    && (x.node.Some? <==> x.owner.ByNode?)
    && (x.node.Some? ==> x.node.value == x.op)
    && (x.owner.InPipe? || x.owner.Queued? ==> x.owner.r.op == x.op && Terminal(x.owner.r))
    && (forall r: Result :: r.status != Modified ==> x.gone[r] == if x.owner == InPipe(r) then 1 else 0)
    && (forall r: Result :: r.status != Modified ==>
          x.queue[r] == if x.owner == Queued(r) || (x.notice.NoticeQueued? && r == NOTICE) then 1 else 0)
    && (x.notice.Emitting? <==> x.busy.Emit?)
    && (!x.busy.Nothing? ==> x.owner.ByNode? || x.owner.InPipe?)
    && (x.busy.Got? ==> x.busy.op == x.op || (x.busy.op == Read && x.op == Write))
    && (InRead(x.busy) ==> x.op == Read || (x.op == Write && x.state == IDLE))
    && (x.busy.Append? ==> x.msgOpen)
    && (x.msgOpen ==> x.state == RECEIVING && x.op == Read && (x.owner.ByNode? || x.owner.InPipe?))
  }

  // The state field against what the entry waits for
  ghost predicate States(s: State, x: Entry) {
    && (x.op == Connect && (InPoller(x) || (x.owner.With? && PcOf(s, x.owner.t).Handling?)) ==> x.state == CONNECTING)
    && (x.op == Connect ==> x.mutex.None? && x.guests == {})
    && (x.op == Write && InPoller(x) ==> x.state == IDLE || x.state == CONNECTING)
    && (x.op == Read ==> x.state != CONNECTING)
    && (x.op != Read ==> x.spot.Away? && x.notice.NoNotice?)
    && (!x.notice.NoNotice? <==> x.state == SUCCESS || x.owner.Passed?)
    && (x.state == SUCCESS ==> x.op == Read && Live(s, x))
    && (x.owner.Passed? ==> x.op == Read && x.state == CLOSING)
    && (!x.spot.Away? ==> x.state == IDLE && x.op == Read && Live(s, x))
    && (x.state == IDLE && x.op == Read && Live(s, x) ==> !x.spot.Away?)
    && (x.owner.Dropped? || x.owner.Closer? || x.owner.Passed? ==> Unheld(s, x))
    && (x.owner.With? && PastMutex(PcOf(s, x.owner.t)) ==> Unheld(s, x))
  }

  // One reference for the owner, one for each handler still at work on an earlier reply
  ghost predicate Refs(x: Entry) {
    && (!x.freed ==> x.ref == |x.guests| + if x.owner.Dropped? || x.owner.Closer? then 0 else 1)
    && (x.owner.Closer? ==> x.guests == {})
    && (x.freed <==> x.owner.Dropped? && x.guests == {})
  }

  // Whether the entry's session is still to be settled
  predicate Owes(s: State, x: Entry) {
    if x.op == Read then
      !x.notice.NoNotice? || (Live(s, x) && (x.state == RECEIVING || x.state == ERROR)) || (x.spot.Taken? && PcOf(s, x.spot.t).Sending?)
    else Live(s, x)
  }

  ghost predicate EntryOk(s: State, e: Id, x: Entry) {
    && Tags(s, e, x) && Nodes(x) && States(s, x) && Refs(x)
    && (x.owing <==> Owes(s, x))
    && (x.owing ==> x.session in s.place && s.place[x.session] == At(e))
  }

  function Settled(after: After): Op {
    if after.ThenDrop? then Read else if after.ThenWait? then Write else Connect
  }

  ghost predicate ThreadOk(s: State, t: Thread, pc: Pc) {
    && (About(pc).Some? ==> About(pc).value in s.entries)
    && match pc
       case Out => true
       case Popping(ses) => ses in s.place && s.place[ses] == Asking(t)
       case Launching(ses) => ses in s.place && s.place[ses] == Asking(t)
       case Popped(ses, e) => ses in s.place && s.place[ses] == Asking(t) && s.entries[e].spot == Taken(t) && s.tlock == Some(t)
       case Holding(ses, e) =>
         ses in s.place && s.place[ses] == Asking(t) && s.entries[e].spot == Taken(t) && s.entries[e].mutex == Some(t)
       case Sending(ses, e) => s.entries[e].spot == Taken(t) && s.entries[e].mutex == Some(t) && s.entries[e].session == ses
       case Unlocking(e) => s.entries[e].mutex == Some(t)
       case Handling(e, r) =>
         if r.status.Modified? then true
         else if r.status.Success? then r == NOTICE && s.entries[e].notice == NoticeWith(t)
         else s.entries[e].owner == With(t) && r.op == s.entries[e].op
       case Ending(e) => s.entries[e].owner == With(t) && s.entries[e].op == Read && s.tlock == Some(t)
       case Parting(e, way) =>
         && s.entries[e].mutex == Some(t)
         && (!way.ToLeave? ==> s.entries[e].owner == With(t) && s.entries[e].op == Read)
         && (way.ToServe? ==> s.entries[e].state == RECEIVING || s.entries[e].state == ERROR)
       case Serving(e, ses, guest, after) =>
         && ses in s.place && s.place[ses] == InHands(t)
         && (guest ==> t in s.entries[e].guests && after.ThenDrop?)
         && (!guest ==> s.entries[e].owner == With(t) && s.entries[e].op == Settled(after))
       case Waiting(e) => s.entries[e].owner == With(t) && s.entries[e].op == Write
       case Dropping(e, guest) =>
         if guest then t in s.entries[e].guests else s.entries[e].owner == With(t) && s.entries[e].op != Connect
       case Freeing(e) => s.entries[e].owner == Closer(t) && s.entries[e].op != Connect
       case Adding(e) => s.entries[e].owner == With(t) && s.entries[e].op == Write && s.entries[e].state == RECEIVING
       case AddingFirst(e) => s.entries[e].owner == With(t) && s.entries[e].op == Connect && s.entries[e].state == RECEIVING
       case Discarding(e) => s.entries[e].owner == With(t) && s.entries[e].op == Connect
  }

  ghost predicate SessionOk(s: State, ses: Session, w: Where) {
    && (w.Asking? ==> var pc := PcOf(s, w.t); (pc.Popping? || pc.Popped? || pc.Holding? || pc.Launching?) && pc.session == ses)
    && (w.At? ==> w.e in s.entries && s.entries[w.e].owing && s.entries[w.e].session == ses)
    && (w.InHands? ==> PcOf(s, w.t).Serving? && PcOf(s, w.t).session == ses)
  }

  ghost predicate Target(s: State) {
    && NoDuplicates(s.idle) && (forall e :: e in s.idle ==> e in s.entries)
    && (s.tlock.Some? ==> PcOf(s, s.tlock.value).Popped? || PcOf(s, s.tlock.value).Ending?)
  }

  ghost predicate Tally(s: State) {
    forall ses :: s.served[ses] == if ses in s.place && s.place[ses].Done? then 1 else 0
  }

  ghost predicate Inv(s: State) {
    && Target(s) && Tally(s)
    && (forall e :: e in s.entries ==> EntryOk(s, e, s.entries[e]))
    && (forall t :: t in s.threads ==> ThreadOk(s, t, s.threads[t]))
    && (forall ses :: ses in s.place ==> SessionOk(s, ses, s.place[ses]))
  }

  lemma InitInv(s: State)
    requires Init(s)
    ensures Inv(s)
  {
  }

  // What the invariant says of a thread and the entry it is at
  lemma Inside(s: State, t: Thread)
    requires Inv(s) && t in s.threads && About(s.threads[t]).Some?
    ensures var e := About(s.threads[t]).value; e in s.entries && EntryOk(s, e, s.entries[e])
    ensures ThreadOk(s, t, s.threads[t]) && Target(s) && Tally(s)
  {
    assert ThreadOk(s, t, s.threads[t]);
  }

  lemma HolderAt(s: State, e: Id)
    requires Inv(s) && e in s.entries && s.entries[e].mutex.Some?
    ensures var u := s.entries[e].mutex.value;
      && u in s.threads
      && (s.threads[u].Holding? || s.threads[u].Sending? || s.threads[u].Unlocking? || s.threads[u].Parting?) && s.threads[u].e == e
  {
    assert EntryOk(s, e, s.entries[e]);
    hide Nodes, States, Refs, Owes;
  }

  // ---------------------------------------------------------------------------------
  // What a step must respect to leave the other threads and entries as they are

  // What thread u relies on in its entry
  predicate Respects(x: Entry, x': Entry, u: Thread) {
    && (x.owner == With(u) ==> x'.owner == With(u) && x'.op == x.op && (x.state == RECEIVING || x.state == ERROR ==> x'.state == x.state))
    && (x.owner == Closer(u) ==> x'.owner == Closer(u) && x'.op == x.op)
    && (x.notice == NoticeWith(u) ==> x'.notice == NoticeWith(u))
    && (u in x.guests ==> u in x'.guests)
    && (x.mutex == Some(u) ==> x'.mutex == Some(u))
    && (x.spot == Taken(u) ==> x'.spot == Taken(u) && x'.session == x.session)
  }

  lemma Undisturbed(s: State, s': State, e: Id, u: Thread, pc: Pc)
    requires ThreadOk(s, u, pc) && e in s.entries && e in s'.entries && s.entries.Keys <= s'.entries.Keys
    requires forall f :: f in s.entries && f != e ==> s'.entries[f] == s.entries[f]
    requires Respects(s.entries[e], s'.entries[e], u)
    requires s.tlock == Some(u) ==> s'.tlock == Some(u)
    requires forall ses :: ses in s.place && (s.place[ses] == Asking(u) || s.place[ses] == InHands(u)) ==>
               ses in s'.place && s'.place[ses] == s.place[ses]
    ensures ThreadOk(s', u, pc)
  {
  }

  // The other entries do not depend on thread t.
  lemma Unrelated(s: State, s': State, t: Thread, f: Id, x: Entry)
    requires EntryOk(s, f, x) && s'.threads == s.threads[t := PcOf(s', t)] && t in s.threads && About(s.threads[t]) != Some(f)
    requires f in s'.idle <==> f in s.idle
    requires x.owing ==> x.session in s'.place && s'.place[x.session] == At(f)
    ensures EntryOk(s', f, x)
  {
    assert forall u :: u != t ==> PcOf(s', u) == PcOf(s, u);
  }

  predicate HasSession(pc: Pc) {
    pc.Popping? || pc.Popped? || pc.Holding? || pc.Sending? || pc.Launching? || pc.Serving?
  }

  // Nothing but session ses changes place.
  ghost predicate PlacesKept(s: State, s': State, ses: Session) {
    forall z :: z != ses ==> (z in s'.place <==> z in s.place) && (z in s.place ==> s'.place[z] == s.place[z])
  }

  // Thread t moves, changing no entry but e.
  lemma MoveKept(s: State, s': State, t: Thread, e: Id, ses: Session)
    requires Inv(s) && t in s.threads && e in s.entries && e in s'.entries
    requires s'.threads == s.threads[t := PcOf(s', t)] && s'.entries == s.entries[e := s'.entries[e]]
    requires About(s.threads[t]).None? || About(s.threads[t]) == Some(e)
    requires forall u :: u != t ==> Respects(s.entries[e], s'.entries[e], u)
    requires forall f :: f in s.entries && f != e ==> (f in s'.idle <==> f in s.idle)
    requires s.tlock.Some? && s.tlock.value != t ==> s'.tlock == s.tlock
    requires PlacesKept(s, s', ses)
    requires ses in s.place ==> s.place[ses] == Asking(t) || s.place[ses] == InHands(t) || s.place[ses] == At(e)
    requires HasSession(s.threads[t]) ==> s.threads[t].session == ses
    requires s.entries[e].owing && s.entries[e].session != ses ==> s'.entries[e].owing && s'.entries[e].session == s.entries[e].session
    requires Target(s') && Tally(s') && EntryOk(s', e, s'.entries[e]) && ThreadOk(s', t, PcOf(s', t))
    requires ses in s'.place ==> SessionOk(s', ses, s'.place[ses])
    ensures Inv(s')
  {
    hide Tags, Nodes, States, Refs, Owes;
    forall f | f in s'.entries && f != e ensures EntryOk(s', f, s'.entries[f]) {
      Unrelated(s, s', t, f, s.entries[f]);
    }
    forall u | u in s'.threads && u != t ensures ThreadOk(s', u, s'.threads[u]) {
      Undisturbed(s, s', e, u, s.threads[u]);
    }
    forall z | z in s'.place && z != ses ensures SessionOk(s', z, s'.place[z]) {
      assert ses in s.place ==> SessionOk(s, ses, s.place[ses]);
      SessionStays(s, s', t, e, z, s.place[z]);
    }
  }

  // Thread t moves without a session changing place.
  lemma SteadyKept(s: State, s': State, t: Thread, e: Id)
    requires Inv(s) && t in s.threads && e in s.entries && e in s'.entries
    requires s'.threads == s.threads[t := PcOf(s', t)] && s'.entries == s.entries[e := s'.entries[e]]
    requires About(s.threads[t]).None? || About(s.threads[t]) == Some(e)
    requires forall u :: u != t ==> Respects(s.entries[e], s'.entries[e], u)
    requires forall f :: f in s.entries && f != e ==> (f in s'.idle <==> f in s.idle)
    requires s.tlock.Some? && s.tlock.value != t ==> s'.tlock == s.tlock
    requires s'.place == s.place && s'.served == s.served && (HasSession(s.threads[t]) ==> s.threads[t].Sending?)
    requires s.entries[e].owing ==> s'.entries[e].owing && s'.entries[e].session == s.entries[e].session
    requires Target(s') && EntryOk(s', e, s'.entries[e]) && ThreadOk(s', t, PcOf(s', t))
    ensures Inv(s')
  {
    hide Tags, Nodes, States, Refs, Owes;
    forall f | f in s'.entries && f != e ensures EntryOk(s', f, s'.entries[f]) {
      Unrelated(s, s', t, f, s.entries[f]);
    }
    forall u | u in s'.threads && u != t ensures ThreadOk(s', u, s'.threads[u]) {
      Undisturbed(s, s', e, u, s.threads[u]);
    }
    forall z | z in s'.place ensures SessionOk(s', z, s'.place[z]) {
      SessionStays(s, s', t, e, z, s.place[z]);
    }
  }

  // A session that is with another thread or entry, or stays with this entry.
  lemma SessionStays(s: State, s': State, t: Thread, e: Id, z: Session, w: Where)
    requires SessionOk(s, z, w) && t in s.threads && e in s.entries && e in s'.entries
    requires s'.threads == s.threads[t := PcOf(s', t)] && s'.entries == s.entries[e := s'.entries[e]]
    requires w != Asking(t) && w != InHands(t)
    requires w == At(e) ==> s'.entries[e].owing && s'.entries[e].session == s.entries[e].session
    ensures SessionOk(s', z, w)
  {
  }

  // The poller moves on the socket of entry e.
  lemma PollerKept(s: State, e: Id, x': Entry)
    requires Inv(s) && e in s.entries && EntryOk(s, e, x')
    requires x'.session == s.entries[e].session && x'.owing == s.entries[e].owing
    requires forall u :: u in s.threads ==> Respects(s.entries[e], x', u)
    ensures Inv(Set(s, e, x'))
  {
    hide Tags, Nodes, States, Refs, Owes;
    var s' := Set(s, e, x');
    forall f | f in s'.entries ensures EntryOk(s', f, s'.entries[f]) {
      SameThreads(s, s', f, s'.entries[f]);
    }
    forall u | u in s'.threads ensures ThreadOk(s', u, s'.threads[u]) {
      Undisturbed(s, s', e, u, s.threads[u]);
    }
    forall z | z in s'.place ensures SessionOk(s', z, s'.place[z]) {
      SameSession(s, e, x', z, s.place[z]);
    }
  }

  lemma SameThreads(s: State, s': State, f: Id, x: Entry)
    requires EntryOk(s, f, x) && s'.threads == s.threads && s'.idle == s.idle && s'.place == s.place
    ensures EntryOk(s', f, x)
  {
    assert forall u :: PcOf(s', u) == PcOf(s, u);
  }

  lemma SameSession(s: State, e: Id, x': Entry, z: Session, w: Where)
    requires SessionOk(s, z, w) && e in s.entries
    requires x'.session == s.entries[e].session && x'.owing == s.entries[e].owing
    ensures SessionOk(Set(s, e, x'), z, w)
  {
  }

  // ---------------------------------------------------------------------------------
  // The poller's steps

  // The tags of x' are those of x but for the node and the announced reply.
  predicate SameTags(x: Entry, x': Entry) {
    && x'.session == x.session && x'.guests == x.guests && x'.mutex == x.mutex && x'.spot == x.spot && x'.op == x.op
    && (x'.owner == x.owner || (InPoller(x) && InPoller(x')))
    && (x'.notice == x.notice || (!x.notice.NoticeWith? && !x'.notice.NoticeWith?))
    && x'.ref == x.ref && x'.freed == x.freed && x'.owing == x.owing
  }

  // A poller step whose entry stays in order.
  lemma PollerEntry(s: State, e: Id, x: Entry, x': Entry)
    requires EntryOk(s, e, x) && SameTags(x, x') && Nodes(x')
    requires x'.state == x.state || (x.state == RECEIVING && x.op == Read && InPoller(x) && x'.state == SUCCESS)
    requires x'.state == x.state ==> (x'.notice.NoNotice? <==> x.notice.NoNotice?)
    requires x'.state != x.state ==> !x'.notice.NoNotice?
    ensures EntryOk(s, e, x') && forall u :: Respects(x, x', u)
  {
  }

  lemma UnlinkedNodes(x: Entry)
    requires Nodes(x)
    ensures Nodes(Unlinked(x)) && SameTags(x, Unlinked(x))
  {
    if x.node.Some? { assert x.gone[Result(x.node.value, Deleted)] == 0; }
  }

  lemma TerminatedNodes(x: Entry, o: Op, status: Status)
    requires Nodes(x) && !x.busy.Emit? && (x.busy.Nothing? ==> x.node == Some(o))
    requires Terminal(Result(o, status))
    ensures Nodes(Terminated(x, o, status)) && SameTags(x, Terminated(x, o, status))
    ensures Terminated(x, o, status).notice == x.notice
  {
  }

  lemma RepliedNodes(x: Entry, keepAlive: bool)
    requires Nodes(x) && x.busy.Append? && x.notice.NoNotice?
    ensures Nodes(Replied(x, keepAlive)) && SameTags(x, Replied(x, keepAlive))
  {
    var y := x.(state := SUCCESS, keepAlive := keepAlive, msgOpen := false, busy := Emit, notice := Emitting);
    assert Nodes(y);
    UnlinkedNodes(y);
  }

  lemma DeliveredNodes(x: Entry, r: Result)
    requires Nodes(x) && x.busy.Nothing? && r in x.gone
    ensures var x' := PollerStep(x, Deliver(0, r)).value; Nodes(x') && SameTags(x, x')
  {
  }

  lemma EmittedNodes(x: Entry)
    requires Nodes(x) && x.busy.Emit?
    ensures var x' := PollerStep(x, EmitNotice(0)).value; Nodes(x') && SameTags(x, x')
  {
  }

  lemma BusyNodes(x: Entry, b: Busy, open: bool)
    requires Nodes(x) && !x.busy.Emit? && !b.Emit?
    requires b.Nothing? || x.owner.ByNode? || x.owner.InPipe?
    requires b.Got? ==> b.op == x.op || (b.op == Read && InRead(x.busy))
    requires InRead(b) ==> InRead(x.busy) || b == Got(x.op)
    requires b.Append? ==> open
    requires open ==> x.msgOpen || (x.state == RECEIVING && InRead(x.busy))
    ensures var x' := x.(busy := b, msgOpen := open); Nodes(x') && SameTags(x, x')
  {
  }

  ghost predicate InOrder(s: State, e: Id, x: Entry, x': Entry) {
    EntryOk(s, e, x') && SameTags(x, x') && forall u :: Respects(x, x', u)
  }

  predicate OnlyBusy(a: Action) {
    a.Fetch? || a.Return? || a.CreateFirst? || a.CreatePass? || a.Create? || a.Continue? || a.AppendMore? || a.AppendError?
  }

  // Such a step changes what the poller thread is at, and opens or closes the message.
  lemma BusyOf(x: Entry, a: Action)
    requires Nodes(x) && OnlyBusy(a) && PollerStep(x, a).Some?
    ensures var x' := PollerStep(x, a).value; var b := x'.busy;
      && x' == x.(busy := b, msgOpen := x'.msgOpen) && !x.busy.Emit? && !b.Emit?
      && (b.Nothing? || x.owner.ByNode? || x.owner.InPipe?)
      && (b.Got? ==> b.op == x.op || (b.op == Read && InRead(x.busy)))
      && (InRead(b) ==> InRead(x.busy) || b == Got(x.op))
      && (b.Append? ==> x'.msgOpen)
      && (x'.msgOpen ==> x.msgOpen || (x.state == RECEIVING && InRead(x.busy)))
  {
    match a {
      case Fetch(_) =>
      case Return(_) =>
      case CreateFirst(_) =>
      case CreatePass(_) =>
      case Create(_, _) =>
      case Continue(_) =>
      case AppendMore(_) =>
      case AppendError(_) =>
    }
  }

  lemma BusyStepKept(s: State, e: Id, x: Entry, a: Action)
    requires EntryOk(s, e, x) && OnlyBusy(a) && PollerStep(x, a).Some?
    ensures InOrder(s, e, x, PollerStep(x, a).value)
  {
    hide Tags, States, Refs, Owes, Nodes, PollerStep;
    var x' := PollerStep(x, a).value;
    BusyOf(x, a);
    BusyNodes(x, x'.busy, x'.msgOpen);
    PollerEntry(s, e, x, x');
  }

  lemma FinishStepKept(s: State, e: Id, x: Entry, o: Op, status: Status)
    requires EntryOk(s, e, x) && !x.busy.Emit? && (x.busy.Nothing? ==> x.node == Some(o)) && Terminal(Result(o, status))
    ensures InOrder(s, e, x, Terminated(x, o, status))
  {
    TerminatedNodes(x, o, status);
    PollerEntry(s, e, x, Terminated(x, o, status));
  }

  lemma ReplyStepKept(s: State, e: Id, x: Entry, keepAlive: bool)
    requires EntryOk(s, e, x) && x.busy.Append?
    ensures InOrder(s, e, x, Replied(x, keepAlive))
  {
    RepliedNodes(x, keepAlive);
    PollerEntry(s, e, x, Replied(x, keepAlive));
  }

  lemma EmitStepKept(s: State, e: Id, x: Entry)
    requires EntryOk(s, e, x) && x.busy.Emit?
    ensures InOrder(s, e, x, PollerStep(x, EmitNotice(0)).value)
  {
    EmittedNodes(x);
    PollerEntry(s, e, x, PollerStep(x, EmitNotice(0)).value);
  }

  lemma DeliverStepKept(s: State, e: Id, x: Entry, r: Result)
    requires EntryOk(s, e, x) && x.busy.Nothing? && r in x.gone
    ensures InOrder(s, e, x, PollerStep(x, Deliver(0, r)).value)
  {
    DeliveredNodes(x, r);
    PollerEntry(s, e, x, PollerStep(x, Deliver(0, r)).value);
  }

  lemma CutStepKept(s: State, e: Id, x: Entry)
    requires EntryOk(s, e, x)
    ensures InOrder(s, e, x, Unlinked(x))
  {
    UnlinkedNodes(x);
    PollerEntry(s, e, x, Unlinked(x));
  }

  lemma PollerStepKept(s: State, e: Id, x: Entry, a: Action)
    requires EntryOk(s, e, x) && IsPollerAction(a) && PollerStep(x, a).Some?
    ensures InOrder(s, e, x, PollerStep(x, a).value)
  {
    hide Tags, Nodes, States, Refs, Owes;
    match a {
      case Finish(_, ok) => FinishStepKept(s, e, x, Finishing(x.busy), if ok && !x.busy.Fail? then Finished else Failed);
      case AppendDone(_, keepAlive) => ReplyStepKept(s, e, x, keepAlive);
      case EmitNotice(_) => EmitStepKept(s, e, x);
      case Deliver(_, r) => DeliverStepKept(s, e, x, r);
      case Expire(_, status) => FinishStepKept(s, e, x, x.node.value, status);
      case Cut(_) => CutStepKept(s, e, x);
      case _ => BusyStepKept(s, e, x, a);
    }
  }

  lemma PollerMoveKept(s: State, a: Action)
    requires Inv(s) && IsPollerAction(a) && PollerMove(s, a).Some?
    ensures Inv(PollerMove(s, a).value)
  {
    PollerStepKept(s, a.e, s.entries[a.e], a);
    PollerKept(s, a.e, PollerStep(s.entries[a.e], a).value);
  }

  // ---------------------------------------------------------------------------------
  // Steps of request

  // Thread t moves and no entry is concerned.
  lemma AloneKept(s: State, s': State, t: Thread, ses: Session)
    requires Inv(s) && t in s.threads && About(s.threads[t]).None?
    requires s'.threads == s.threads[t := PcOf(s', t)] && s'.entries == s.entries && s'.idle == s.idle && s'.tlock == s.tlock
    requires PlacesKept(s, s', ses) && (ses in s.place ==> s.place[ses] == Asking(t))
    requires HasSession(s.threads[t]) ==> s.threads[t].session == ses
    requires Tally(s') && ThreadOk(s', t, PcOf(s', t)) && (ses in s'.place ==> SessionOk(s', ses, s'.place[ses]))
    ensures Inv(s')
  {
    hide Tags, Nodes, States, Refs, Owes, ThreadOk;
    forall f | f in s'.entries ensures EntryOk(s', f, s'.entries[f]) {
      Unrelated(s, s', t, f, s.entries[f]);
    }
    forall u | u in s'.threads && u != t ensures ThreadOk(s', u, s'.threads[u]) {
      Unmoved(s, s', u, s.threads[u]);
    }
    forall z | z in s'.place && z != ses ensures SessionOk(s', z, s'.place[z]) {
      assert SessionOk(s, z, s.place[z]);
    }
  }

  lemma Unmoved(s: State, s': State, u: Thread, pc: Pc)
    requires ThreadOk(s, u, pc) && s'.entries == s.entries && s'.tlock == s.tlock
    requires forall ses :: ses in s.place && (s.place[ses] == Asking(u) || s.place[ses] == InHands(u)) ==>
               ses in s'.place && s'.place[ses] == s.place[ses]
    ensures ThreadOk(s', u, pc)
  {
  }

  lemma RequestKept(s: State, t: Thread, session: Session)
    requires Inv(s) && RequestStep(s, Request(t, session)).Some?
    ensures Inv(RequestStep(s, Request(t, session)).value)
  {
    AloneKept(s, RequestStep(s, Request(t, session)).value, t, session);
  }

  lemma PopEmptyKept(s: State, t: Thread)
    requires Inv(s) && s.idle == [] && RequestStep(s, Pop(t)).Some?
    ensures Inv(RequestStep(s, Pop(t)).value)
  {
    assert SessionOk(s, s.threads[t].session, s.place[s.threads[t].session]);
    AloneKept(s, RequestStep(s, Pop(t)).value, t, s.threads[t].session);
  }

  lemma LaunchFailKept(s: State, t: Thread)
    requires Inv(s) && RequestStep(s, LaunchFail(t)).Some?
    ensures Inv(RequestStep(s, LaunchFail(t)).value)
  {
    AloneKept(s, RequestStep(s, LaunchFail(t)).value, t, s.threads[t].session);
  }

  // Of the other threads EntryOk sees only what they are doing.
  predicate SameOthers(s: State, s': State, t: Thread) {
    t in s.threads && t in s'.threads && s'.threads == s.threads[t := s'.threads[t]]
  }

  lemma Others(s: State, s': State, t: Thread)
    requires SameOthers(s, s', t)
    ensures forall u :: u != t ==> PcOf(s', u) == PcOf(s, u)
  {
  }

  lemma PopEntry(s: State, s': State, t: Thread, e: Id, x: Entry, x': Entry)
    requires EntryOk(s, e, x) && x.spot.OnList? && SameOthers(s, s', t)
    requires s.threads[t].Popping? && s'.threads[t].Popped? && s'.threads[t].e == e
    requires x' == x.(spot := Taken(t)) && e !in s'.idle && s'.place == s.place
    ensures EntryOk(s', e, x')
  {
    Others(s, s', t);
  }

  lemma PopKept(s: State, t: Thread)
    requires Inv(s) && s.idle != [] && RequestStep(s, Pop(t)).Some?
    ensures Inv(RequestStep(s, Pop(t)).value)
  {
    hide Nodes, States, Refs, Owes;
    var s' := RequestStep(s, Pop(t)).value;
    var e := s.idle[0];
    assert EntryOk(s, e, s.entries[e]);
    assert forall f :: f in s'.idle <==> f in s.idle && f != e;
    PopEntry(s, s', t, e, s.entries[e], s'.entries[e]);
    MoveKept(s, s', t, e, s.threads[t].session);
  }

  lemma LockEntryEntry(s: State, s': State, t: Thread, e: Id, x: Entry, x': Entry)
    requires EntryOk(s, e, x) && x.spot == Taken(t) && x.mutex.None? && SameOthers(s, s', t)
    requires s.threads[t].Popped? && s'.threads[t].Holding? && s'.threads[t].e == e
    requires x' == x.(mutex := Some(t)) && s'.idle == s.idle && s'.place == s.place
    ensures EntryOk(s', e, x')
  {
    Others(s, s', t);
  }

  lemma LockEntryKept(s: State, t: Thread)
    requires Inv(s) && RequestStep(s, LockEntry(t)).Some?
    ensures Inv(RequestStep(s, LockEntry(t)).value)
  {
    hide Nodes, States, Refs, Owes;
    var s' := RequestStep(s, LockEntry(t)).value;
    var e := s.threads[t].e;
    LockEntryEntry(s, s', t, e, s.entries[e], s'.entries[e]);
    MoveKept(s, s', t, e, s.threads[t].session);
  }

  // The idle connection still has its node: it is the session's now.
  lemma RetimedEntry(s: State, s': State, t: Thread, e: Id, ses: Session, x: Entry, x': Entry)
    requires EntryOk(s, e, x) && x.spot == Taken(t) && x.mutex == Some(t) && SameOthers(s, s', t)
    requires s.threads[t] == Holding(ses, e) && s'.threads[t] == Sending(ses, e)
    requires x' == x.(session := ses, owing := true) && s'.idle == s.idle && s'.place == s.place[ses := At(e)]
    ensures EntryOk(s', e, x') && !x.owing
  {
    Others(s, s', t);
  }

  // It has lost its node: look for another one.
  lemma ForsakenEntry(s: State, s': State, t: Thread, e: Id, ses: Session, x: Entry, x': Entry)
    requires EntryOk(s, e, x) && x.spot == Taken(t) && x.mutex == Some(t) && SameOthers(s, s', t)
    requires s.threads[t] == Holding(ses, e) && s'.threads[t] == Popping(ses)
    requires x' == x.(state := CLOSING, mutex := None, spot := Away) && s'.idle == s.idle && s'.place == s.place
    ensures EntryOk(s', e, x') && !x.owing
  {
    Others(s, s', t);
  }

  lemma RetimedKept(s: State, s': State, t: Thread, e: Id)
    requires Inv(s) && RequestStep(s, Retime(t)) == Some(s') && s.threads[t].e == e && s.entries[e].node.Some?
    ensures Inv(s')
  {
    hide Inv, Nodes, States, Refs, Owes;
    Inside(s, t);
    RetimedEntry(s, s', t, e, s.threads[t].session, s.entries[e], s'.entries[e]);
    hide Tags;
    MoveKept(s, s', t, e, s.threads[t].session);
  }

  lemma ForsakenKept(s: State, s': State, t: Thread, e: Id)
    requires Inv(s) && RequestStep(s, Retime(t)) == Some(s') && s.threads[t].e == e && s.entries[e].node.None?
    ensures Inv(s')
  {
    hide Inv, Nodes, Refs, Owes;
    Inside(s, t);
    ForsakenEntry(s, s', t, e, s.threads[t].session, s.entries[e], s'.entries[e]);
    hide Tags, States;
    MoveKept(s, s', t, e, s.threads[t].session);
  }

  lemma RetimeKept(s: State, t: Thread)
    requires Inv(s) && RequestStep(s, Retime(t)).Some?
    ensures Inv(RequestStep(s, Retime(t)).value)
  {
    hide Inv;
    var s' := RequestStep(s, Retime(t)).value;
    var e := s.threads[t].e;
    if s.entries[e].node.Some? { RetimedKept(s, s', t, e); } else { ForsakenKept(s, s', t, e); }
  }

  lemma LaunchKept(s: State, t: Thread, e: Id)
    requires Inv(s) && RequestStep(s, Launch(t, e)).Some?
    ensures Inv(RequestStep(s, Launch(t, e)).value)
  {
    hide Tags, Nodes, States, Refs, Owes;
    var s' := RequestStep(s, Launch(t, e)).value;
    var ses := s.threads[t].session;
    forall f | f in s'.entries && f != e ensures EntryOk(s', f, s'.entries[f]) {
      Unrelated(s, s', t, f, s.entries[f]);
    }
    EnteredOk(s', e, ses);
    forall u | u in s'.threads && u != t ensures ThreadOk(s', u, s'.threads[u]) {
      NewEntry(s, s', e, u, s.threads[u]);
    }
    forall z | z in s'.place && z != ses ensures SessionOk(s', z, s'.place[z]) {
      assert SessionOk(s, z, s.place[z]);
    }
  }

  lemma EnteredOk(s: State, e: Id, ses: Session)
    requires e !in s.idle && ses in s.place && s.place[ses] == At(e)
    ensures EntryOk(s, e, Entered(ses))
  {
  }

  lemma NewEntry(s: State, s': State, e: Id, u: Thread, pc: Pc)
    requires ThreadOk(s, u, pc) && e !in s.entries && e in s'.entries && s'.entries == s.entries[e := s'.entries[e]]
    requires s'.tlock == s.tlock
    requires forall ses :: ses in s.place && (s.place[ses] == Asking(u) || s.place[ses] == InHands(u)) ==>
               ses in s'.place && s'.place[ses] == s.place[ses]
    ensures ThreadOk(s', u, pc)
  {
  }

  // ---------------------------------------------------------------------------------
  // Sending on an idle connection

  lemma SentEntry(s: State, s': State, t: Thread, e: Id, x: Entry, x': Entry)
    requires EntryOk(s, e, x) && x.spot == Taken(t) && x.mutex == Some(t) && SameOthers(s, s', t)
    requires s.threads[t].Sending? && s'.threads[t] == Unlocking(e) && s'.idle == s.idle && s'.place == s.place
    requires x' == x.(state := RECEIVING, spot := Away)
          || (x.node.Some? && x' == x.(node := Some(Write), op := Write, spot := Away, gone := x.gone + multiset{Result(x.node.value, Modified)}))
    ensures EntryOk(s', e, x') && x.owing && x.state == IDLE && forall u :: u != t ==> Respects(x, x', u)
  {
    Others(s, s', t);
    assert InPoller(x) || x.owner.With?;
  }

  lemma FailedEntry(s: State, s': State, t: Thread, e: Id, x: Entry, x': Entry)
    requires EntryOk(s, e, x) && x.spot == Taken(t) && x.mutex == Some(t) && SameOthers(s, s', t)
    requires s.threads[t].Sending? && s'.threads[t] == Unlocking(e) && s'.idle == s.idle && s'.place == s.place
    requires x' == Unlinked(x).(state := ERROR, spot := Away)
    ensures EntryOk(s', e, x') && x.owing && x.state == IDLE && forall u :: u != t ==> Respects(x, x', u)
  {
    Others(s, s', t);
    UnlinkedNodes(x);
  }

  lemma SendSyncKept(s: State, t: Thread)
    requires Inv(s) && SendStep(s, SendSync(t)).Some?
    ensures Inv(SendStep(s, SendSync(t)).value)
  {
    hide Inv, Nodes, States, Refs, Owes, Tally;
    Inside(s, t);
    var s' := SendStep(s, SendSync(t)).value;
    var e := s.threads[t].e;
    SentEntry(s, s', t, e, s.entries[e], s'.entries[e]);
    SteadyKept(s, s', t, e);
  }

  lemma SendAsyncKept(s: State, t: Thread)
    requires Inv(s) && SendStep(s, SendAsync(t)).Some?
    ensures Inv(SendStep(s, SendAsync(t)).value)
  {
    hide Inv, Nodes, Refs, Owes, Tally;
    Inside(s, t);
    var s' := SendStep(s, SendAsync(t)).value;
    var e := s.threads[t].e;
    SentEntry(s, s', t, e, s.entries[e], s'.entries[e]);
    SteadyKept(s, s', t, e);
  }

  lemma SendFailKept(s: State, t: Thread)
    requires Inv(s) && SendStep(s, SendFail(t)).Some?
    ensures Inv(SendStep(s, SendFail(t)).value)
  {
    hide Inv, Nodes, Refs, Owes, Tally;
    Inside(s, t);
    var s' := SendStep(s, SendFail(t)).value;
    var e := s.threads[t].e;
    FailedEntry(s, s', t, e, s.entries[e], s'.entries[e]);
    SteadyKept(s, s', t, e);
  }

  lemma UnlockKept(s: State, t: Thread)
    requires Inv(s) && SendStep(s, Unlock(t)).Some?
    ensures Inv(SendStep(s, Unlock(t)).value)
  {
    hide Inv, Nodes, States, Refs, Owes, Tally;
    Inside(s, t);
    var s' := SendStep(s, Unlock(t)).value;
    var e := s.threads[t].e;
    UnlockedEntry(s, s', t, e, s.entries[e], s'.entries[e]);
    SteadyKept(s, s', t, e);
  }

  lemma UnlockedEntry(s: State, s': State, t: Thread, e: Id, x: Entry, x': Entry)
    requires EntryOk(s, e, x) && x.mutex == Some(t) && SameOthers(s, s', t)
    requires s.threads[t] == Unlocking(e) && s'.threads[t] == Out && s'.idle == s.idle && s'.place == s.place
    requires x' == x.(mutex := None)
    ensures EntryOk(s', e, x')
  {
    Others(s, s', t);
  }

  // ---------------------------------------------------------------------------------
  // Steps of handler threads

  lemma TakenNodes(x: Entry, t: Thread, r: Result)
    requires Nodes(x) && r in x.queue
    ensures Nodes(AfterTake(x, t, r))
    ensures Terminal(r) ==> x.owner == Queued(r) && r.op == x.op
    ensures r.status.Success? ==> r == NOTICE && x.notice.NoticeQueued?
  {
  }

  lemma TakenTags(s: State, s': State, t: Thread, e: Id, x: Entry, r: Result)
    requires Tags(s, e, x) && SameOthers(s, s', t) && s.threads[t].Out? && s'.threads[t] == Handling(e, r) && s'.idle == s.idle
    ensures Tags(s', e, AfterTake(x, t, r))
  {
    Others(s, s', t);
  }

  lemma TakenEntry(s: State, s': State, t: Thread, e: Id, x: Entry, r: Result, x': Entry)
    requires EntryOk(s, e, x) && SameOthers(s, s', t) && s.threads[t].Out? && s'.threads[t] == Handling(e, r)
    requires s'.idle == s.idle && s'.place == s.place && r in x.queue
    requires x' == AfterTake(x, t, r)
    ensures EntryOk(s', e, x')
    ensures Terminal(r) ==> x.owner == Queued(r) && r.op == x.op
    ensures r.status.Success? ==> r == NOTICE && x.notice.NoticeQueued?
  {
    TakenTags(s, s', t, e, x, r);
    TakenNodes(x, t, r);
    hide Nodes;
    Others(s, s', t);
  }

  lemma TakeKept(s: State, t: Thread, e: Id, r: Result)
    requires Inv(s) && ReadStep(s, Take(t, e, r)).Some?
    ensures Inv(ReadStep(s, Take(t, e, r)).value)
  {
    hide Nodes, States, Refs, Owes;
    var s' := ReadStep(s, Take(t, e, r)).value;
    TakenEntry(s, s', t, e, s.entries[e], r, s'.entries[e]);
    SteadyKept(s, s', t, e);
  }

  lemma IgnoreKept(s: State, t: Thread)
    requires Inv(s) && ReadStep(s, Ignore(t)).Some?
    ensures Inv(ReadStep(s, Ignore(t)).value)
  {
    hide Inv, Nodes, States, Refs, Owes, Tally;
    Inside(s, t);
    var s' := ReadStep(s, Ignore(t)).value;
    var e := s.threads[t].e;
    Idler(s, s', t, e, s.entries[e]);
    SteadyKept(s, s', t, e);
  }

  lemma Idler(s: State, s': State, t: Thread, e: Id, x: Entry)
    requires EntryOk(s, e, x) && SameOthers(s, s', t) && s.threads[t].Handling? && s.threads[t].r.status.Modified?
    requires s'.idle == s.idle && s'.place == s.place
    ensures EntryOk(s', e, x)
  {
    Others(s, s', t);
  }

  lemma EndingEntry(s: State, s': State, t: Thread, e: Id, x: Entry)
    requires EntryOk(s, e, x) && SameOthers(s, s', t) && s.threads[t].Handling? && s.threads[t].e == e && s'.threads[t] == Ending(e)
    requires Terminal(s.threads[t].r) && s'.idle == s.idle && s'.place == s.place
    ensures EntryOk(s', e, x)
  {
    Others(s, s', t);
  }

  lemma ReadEndKept(s: State, t: Thread)
    requires Inv(s) && ReadStep(s, ReadEnd(t)).Some?
    ensures Inv(ReadStep(s, ReadEnd(t)).value)
  {
    hide Inv, Nodes, States, Refs, Owes, Tally;
    Inside(s, t);
    var s' := ReadStep(s, ReadEnd(t)).value;
    var e := s.threads[t].e;
    EndingEntry(s, s', t, e, s.entries[e]);
    SteadyKept(s, s', t, e);
  }

  // Thread t takes the session of entry e in hand.
  lemma ClaimKept(s: State, s': State, t: Thread, e: Id, guest: bool, after: After)
    requires Inv(s) && t in s.threads && e in s.entries && e in s'.entries && About(s.threads[t]) == Some(e) && !HasSession(s.threads[t])
    requires s.entries[e].owing && s'.place == s.place[s.entries[e].session := InHands(t)] && s'.served == s.served
    requires s'.threads == s.threads[t := Serving(e, s.entries[e].session, guest, after)]
    requires s'.entries == s.entries[e := s'.entries[e]]
    requires forall u :: u != t ==> Respects(s.entries[e], s'.entries[e], u)
    requires forall f :: f in s.entries && f != e ==> (f in s'.idle <==> f in s.idle)
    requires s.tlock.Some? && s.tlock.value != t ==> s'.tlock == s.tlock
    requires Target(s') && EntryOk(s', e, s'.entries[e]) && ThreadOk(s', t, PcOf(s', t))
    ensures Inv(s')
  {
    hide Tags, Nodes, States, Refs, Owes;
    assert EntryOk(s, e, s.entries[e]);
    MoveKept(s, s', t, e, s.entries[e].session);
  }

  lemma AnnouncedNodes(x: Entry, x': Entry)
    requires Nodes(x) && x.notice.NoticeWith? && x.state == SUCCESS
    requires x' == x.(ref := x'.ref, guests := x'.guests, notice := NoNotice, state := x'.state, spot := x'.spot, owing := false)
    ensures Nodes(x')
  {
  }

  lemma AnnouncedRefs(x: Entry, x': Entry, t: Thread)
    requires Refs(x) && t !in x.guests && !x.freed && !x.owner.Closer?
    requires x'.ref == x.ref + 1 && x'.guests == x.guests + {t} && x'.owner == x.owner && !x'.freed
    ensures Refs(x')
  {
    assert |x'.guests| == |x.guests| + 1;
  }

  lemma AnnouncedTags(s: State, s': State, t: Thread, e: Id, x: Entry, x': Entry)
    requires Tags(s, e, x) && x.spot.Away? && (e in s'.idle <==> x.keepAlive)
    requires SameOthers(s, s', t) && s.threads[t] == Handling(e, NOTICE) && x.notice == NoticeWith(t)
    requires x.state == SUCCESS && s'.threads[t] == Serving(e, x.session, true, ThenDrop)
    requires var y := x.(ref := x.ref + 1, guests := x.guests + {t}, notice := NoNotice);
      x' == (if x.keepAlive then y.(state := IDLE, spot := OnList) else y.(state := CLOSING)).(owing := false)
    ensures Tags(s', e, x')
  {
    Others(s, s', t);
  }

  lemma AnnouncedStates(s: State, s': State, t: Thread, e: Id, x: Entry, x': Entry)
    requires Tags(s, e, x) && States(s, x)
    requires SameOthers(s, s', t) && s.threads[t] == Handling(e, NOTICE) && x.notice == NoticeWith(t)
    requires x.state == SUCCESS && s'.threads[t] == Serving(e, x.session, true, ThenDrop)
    requires var y := x.(ref := x.ref + 1, guests := x.guests + {t}, notice := NoNotice);
      x' == (if x.keepAlive then y.(state := IDLE, spot := OnList) else y.(state := CLOSING)).(owing := false)
    ensures States(s', x') && !Owes(s', x') && Owes(s, x)
  {
    Others(s, s', t);
  }

  lemma AnnouncedEntry(s: State, s': State, t: Thread, e: Id, x: Entry, x': Entry)
    requires EntryOk(s, e, x) && SameOthers(s, s', t) && s.threads[t] == Handling(e, NOTICE) && x.notice == NoticeWith(t)
    requires s'.place == s.place[x.session := InHands(t)]
    requires x.state == SUCCESS && s'.threads[t] == Serving(e, x.session, true, ThenDrop)
    requires var y := x.(ref := x.ref + 1, guests := x.guests + {t}, notice := NoNotice);
      x' == (if x.keepAlive then y.(state := IDLE, spot := OnList) else y.(state := CLOSING)).(owing := false)
    requires e in s'.idle <==> x.keepAlive
    ensures EntryOk(s', e, x') && x.owing && x.spot.Away? && t !in x.guests
  {
    AnnouncedTags(s, s', t, e, x, x');
    AnnouncedStates(s, s', t, e, x, x');
    assert t !in x.guests;
    assert !x.freed && !x.owner.Closer?;
    hide Tags, States, Nodes, Refs, Owes;
    AnnouncedNodes(x, x');
    AnnouncedRefs(x, x', t);
  }

  lemma InheritedEntry(s: State, s': State, t: Thread, e: Id, x: Entry, x': Entry)
    requires EntryOk(s, e, x) && SameOthers(s, s', t) && s.threads[t] == Handling(e, NOTICE) && x.notice == NoticeWith(t)
    requires s'.place == s.place[x.session := InHands(t)] && s'.idle == s.idle
    requires x.state != SUCCESS && s'.threads[t] == Serving(e, x.session, false, ThenDrop)
    requires x' == x.(owner := With(t), notice := NoNotice, owing := false)
    ensures EntryOk(s', e, x') && x.owing && x.owner.Passed? && x.op == Read
  {
    Others(s, s', t);
  }

  // With its reply complete and not announced yet a connection is not idle.
  lemma NotListed(s: State, e: Id, x: Entry)
    requires EntryOk(s, e, x) && x.state == SUCCESS
    ensures e !in s.idle && x.spot.Away?
  {
  }

  lemma ReadSuccessSpare(s: State, s': State, t: Thread, e: Id, x: Entry, x': Entry)
    requires Inv(s) && t in s.threads && e in s.entries && s.threads[t] == Handling(e, NOTICE) && s.tlock.None?
    requires x == s.entries[e] && x.owing && e !in s.idle
    requires EntryOk(s', e, x') && t in x'.guests && forall u :: u != t ==> Respects(x, x', u)
    requires s'.threads == s.threads[t := Serving(e, x.session, true, ThenDrop)] && s'.entries == s.entries[e := x']
    requires s'.idle == (if x.keepAlive then [e] + s.idle else s.idle) && s'.place == s.place[x.session := InHands(t)]
    requires s'.served == s.served && s'.tlock == s.tlock
    ensures Inv(s')
  {
    hide EntryOk, SessionOk, Tally, Respects;
    SpareListed(s, s', e, x.keepAlive);
    hide Target;
    ClaimKept(s, s', t, e, true, ThenDrop);
  }

  lemma SpareListed(s: State, s': State, e: Id, keepAlive: bool)
    requires Target(s) && e !in s.idle && e in s.entries && s'.entries.Keys == s.entries.Keys && s.tlock.None? && s'.tlock.None?
    requires s'.idle == if keepAlive then [e] + s.idle else s.idle
    ensures Target(s') && forall f :: f != e ==> (f in s'.idle <==> f in s.idle)
  {
  }

  lemma SpareRespects(x: Entry, x': Entry, t: Thread)
    requires x.state == SUCCESS && x.spot.Away? && x.notice == NoticeWith(t)
    requires var y := x.(ref := x.ref + 1, guests := x.guests + {t}, notice := NoNotice);
      x' == (if x.keepAlive then y.(state := IDLE, spot := OnList) else y.(state := CLOSING)).(owing := false)
    ensures forall u :: u != t ==> Respects(x, x', u)
  {
  }

  lemma AnnouncedKept(s: State, s': State, t: Thread, e: Id, x: Entry, x': Entry)
    requires Inv(s) && ReadStep(s, ReadSuccess(t)) == Some(s') && s.threads[t].e == e
    requires x == s.entries[e] && x' == s'.entries[e] && x.state == SUCCESS
    ensures Inv(s')
  {
    hide Inv, Tags, Nodes, States, Refs, Owes, Tally;
    Inside(s, t);
    NotListed(s, e, x);
    AnnouncedEntry(s, s', t, e, x, x');
    SpareRespects(x, x', t);
    hide Respects, EntryOk, Target;
    ReadSuccessSpare(s, s', t, e, x, x');
  }

  lemma ReadSuccessLast(s: State, s': State, t: Thread, e: Id)
    requires Inv(s) && ReadStep(s, ReadSuccess(t)) == Some(s') && s.threads[t].e == e && s.entries[e].state != SUCCESS
    ensures Inv(s')
  {
    hide Inv, Nodes, States, Refs, Owes, Tally;
    Inside(s, t);
    InheritedEntry(s, s', t, e, s.entries[e], s'.entries[e]);
    ClaimKept(s, s', t, e, false, ThenDrop);
  }

  lemma ReadSuccessKept(s: State, t: Thread)
    requires Inv(s) && ReadStep(s, ReadSuccess(t)).Some?
    ensures Inv(ReadStep(s, ReadSuccess(t)).value)
  {
    hide Inv;
    var s' := ReadStep(s, ReadSuccess(t)).value;
    var e := s.threads[t].e;
    if s.entries[e].state == SUCCESS {
      AnnouncedKept(s, s', t, e, s.entries[e], s'.entries[e]);
    } else {
      ReadSuccessLast(s, s', t, e);
    }
  }

  // The session's reply will not come: its connection could not be used.
  lemma LostEntry(s: State, s': State, t: Thread, e: Id, x: Entry, x': Entry, after: After)
    requires EntryOk(s, e, x) && SameOthers(s, s', t) && About(s.threads[t]) == Some(e) && Unclaimed(s.threads[t]) && x.owner == With(t)
    requires !s.threads[t].Parting? && x.op == Settled(after) && x.op != Read
    requires s'.place == s.place[x.session := InHands(t)] && s'.idle == s.idle && s'.threads[t] == Serving(e, x.session, false, after)
    requires x' == x.(owing := false)
    ensures EntryOk(s', e, x') && x.owing
  {
    Others(s, s', t);
  }

  // The end of a connection with a session on it, under both mutexes
  lemma EndedEntry(s: State, s': State, t: Thread, e: Id, x: Entry, x': Entry)
    requires EntryOk(s, e, x) && SameOthers(s, s', t) && s.threads[t] == Ending(e) && x.owner == With(t) && x.op == Read && x.mutex.None?
    requires s'.place == s.place && s'.idle == s.idle && s'.threads[t] == Parting(e, ToServe)
    requires (x.state == RECEIVING || x.state == ERROR) && x' == x.(mutex := Some(t))
    ensures EntryOk(s', e, x')
  {
    Others(s, s', t);
  }

  // With the target's mutex here and the entry's free, no requester has the entry.
  lemma NotTaken(s: State, t: Thread, e: Id)
    requires Inv(s) && e in s.entries && s.entries[e].mutex.None? && s.tlock == Some(t) && PcOf(s, t).Ending?
    ensures !s.entries[e].spot.Taken?
  {
    var x := s.entries[e];
    assert EntryOk(s, e, x);
    var u := if x.spot.Taken? then x.spot.t else t;
    assert u in s.threads ==> ThreadOk(s, u, PcOf(s, u));
  }

  lemma DelistedEntry(s: State, s': State, t: Thread, e: Id, x: Entry, x': Entry)
    requires EntryOk(s, e, x) && SameOthers(s, s', t) && s.threads[t] == Ending(e) && x.owner == With(t) && x.op == Read
    requires x.mutex.None? && !x.spot.Taken?
    requires s'.place == s.place && e !in s'.idle && s'.threads[t] == Parting(e, ToDrop)
    requires x.state == IDLE && x' == x.(mutex := Some(t), spot := Away)
    ensures x.spot.OnList? && EntryOk(s', e, x') && !x.owing
  {
    Others(s, s', t);
  }

  lemma AbandonedEntry(s: State, s': State, t: Thread, e: Id, x: Entry, x': Entry)
    requires EntryOk(s, e, x) && SameOthers(s, s', t) && s.threads[t] == Ending(e) && x.owner == With(t) && x.mutex.None?
    requires s'.place == s.place && s'.idle == s.idle && s'.threads[t] == Parting(e, ToLeave)
    requires x.state == SUCCESS && x' == x.(mutex := Some(t), state := CLOSING, owner := Passed)
    ensures EntryOk(s', e, x') && x.owing
  {
    Others(s, s', t);
  }

  lemma ClosedEntry(s: State, s': State, t: Thread, e: Id, x: Entry, x': Entry)
    requires EntryOk(s, e, x) && SameOthers(s, s', t) && s.threads[t] == Ending(e) && x.owner == With(t) && x.op == Read
    requires s'.place == s.place && s'.idle == s.idle && s'.threads[t] == Parting(e, ToDrop) && x.mutex.None?
    requires (x.state == CLOSING || x.state == CONNECTING) && x' == x.(mutex := Some(t))
    ensures EntryOk(s', e, x') && !x.owing
  {
    Others(s, s', t);
  }

  lemma ReadEndIdle(s: State, t: Thread)
    requires Inv(s) && ReadStep(s, ReadEndLocked(t)).Some? && s.entries[s.threads[t].e].state == IDLE
    ensures Inv(ReadStep(s, ReadEndLocked(t)).value)
  {
    hide Inv, Nodes, States, Refs, Owes, Tally;
    Inside(s, t);
    var s' := ReadStep(s, ReadEndLocked(t)).value;
    var e := s.threads[t].e;
    NotTaken(s, t, e);
    DelistedEntry(s, s', t, e, s.entries[e], s'.entries[e]);
    WithoutDistinct(s.idle, e);
    SteadyKept(s, s', t, e);
  }

  lemma ReadEndLost(s: State, t: Thread)
    requires Inv(s) && ReadStep(s, ReadEndLocked(t)).Some?
    requires s.entries[s.threads[t].e].state == ERROR || s.entries[s.threads[t].e].state == RECEIVING
    ensures Inv(ReadStep(s, ReadEndLocked(t)).value)
  {
    hide Inv, Nodes, States, Refs, Owes, Tally;
    Inside(s, t);
    var s' := ReadStep(s, ReadEndLocked(t)).value;
    var e := s.threads[t].e;
    EndedEntry(s, s', t, e, s.entries[e], s'.entries[e]);
    SteadyKept(s, s', t, e);
  }

  lemma ReadEndSuccess(s: State, t: Thread)
    requires Inv(s) && ReadStep(s, ReadEndLocked(t)).Some? && s.entries[s.threads[t].e].state == SUCCESS
    ensures Inv(ReadStep(s, ReadEndLocked(t)).value)
  {
    hide Inv, Nodes, States, Refs, Owes, Tally;
    Inside(s, t);
    var s' := ReadStep(s, ReadEndLocked(t)).value;
    var e := s.threads[t].e;
    AbandonedEntry(s, s', t, e, s.entries[e], s'.entries[e]);
    SteadyKept(s, s', t, e);
  }

  lemma ReadEndClosed(s: State, t: Thread)
    requires Inv(s) && ReadStep(s, ReadEndLocked(t)).Some?
    requires s.entries[s.threads[t].e].state == CLOSING || s.entries[s.threads[t].e].state == CONNECTING
    ensures Inv(ReadStep(s, ReadEndLocked(t)).value)
  {
    hide Inv, Nodes, States, Refs, Owes, Tally;
    Inside(s, t);
    var s' := ReadStep(s, ReadEndLocked(t)).value;
    var e := s.threads[t].e;
    ClosedEntry(s, s', t, e, s.entries[e], s'.entries[e]);
    SteadyKept(s, s', t, e);
  }

  lemma ReadEndLockedKept(s: State, t: Thread)
    requires Inv(s) && ReadStep(s, ReadEndLocked(t)).Some?
    ensures Inv(ReadStep(s, ReadEndLocked(t)).value)
  {
    hide Inv;
    match s.entries[s.threads[t].e].state
    case IDLE => ReadEndIdle(s, t);
    case SUCCESS => ReadEndSuccess(s, t);
    case ERROR => ReadEndLost(s, t);
    case RECEIVING => ReadEndLost(s, t);
    case _ => ReadEndClosed(s, t);
  }

  // The entry's mutex unlocked, the session is taken in hand.
  lemma PartedServe(s: State, s': State, t: Thread, e: Id, x: Entry, x': Entry)
    requires EntryOk(s, e, x) && SameOthers(s, s', t) && s.threads[t] == Parting(e, ToServe) && x.owner == With(t) && x.op == Read
    requires x.mutex == Some(t) && (x.state == RECEIVING || x.state == ERROR)
    requires s'.place == s.place[x.session := InHands(t)] && s'.idle == s.idle && s'.threads[t] == Serving(e, x.session, false, ThenDrop)
    requires x' == x.(mutex := None, owing := false)
    ensures EntryOk(s', e, x') && x.owing
  {
    Others(s, s', t);
  }

  lemma PartedEntry(s: State, s': State, t: Thread, e: Id, x: Entry, x': Entry)
    requires EntryOk(s, e, x) && SameOthers(s, s', t) && s.threads[t].Parting? && s.threads[t].e == e && x.mutex == Some(t)
    requires if s.threads[t].way.ToLeave? then s'.threads[t] == Out
             else s.threads[t].way.ToDrop? && x.owner == With(t) && s'.threads[t] == Dropping(e, false)
    requires s'.place == s.place && s'.idle == s.idle && x' == x.(mutex := None)
    ensures EntryOk(s', e, x')
  {
    Others(s, s', t);
  }

  lemma PartServeKept(s: State, t: Thread)
    requires Inv(s) && ReadStep(s, Part(t)).Some? && s.threads[t].way.ToServe?
    ensures Inv(ReadStep(s, Part(t)).value)
  {
    hide Inv, Nodes, States, Refs, Owes, Tally;
    Inside(s, t);
    var s' := ReadStep(s, Part(t)).value;
    var e := s.threads[t].e;
    PartedServe(s, s', t, e, s.entries[e], s'.entries[e]);
    ClaimKept(s, s', t, e, false, ThenDrop);
  }

  lemma PartOnlyKept(s: State, s': State, t: Thread, e: Id)
    requires Inv(s) && ReadStep(s, Part(t)) == Some(s') && !s.threads[t].way.ToServe? && s.threads[t].e == e
    ensures Inv(s')
  {
    hide Inv, Nodes, States, Refs, Owes, Tally;
    Inside(s, t);
    PartedEntry(s, s', t, e, s.entries[e], s'.entries[e]);
    SteadyKept(s, s', t, e);
  }

  lemma PartKept(s: State, t: Thread)
    requires Inv(s) && ReadStep(s, Part(t)).Some?
    ensures Inv(ReadStep(s, Part(t)).value)
  {
    hide Inv;
    if s.threads[t].way.ToServe? {
      PartServeKept(s, t);
    } else {
      PartOnlyKept(s, ReadStep(s, Part(t)).value, t, s.threads[t].e);
    }
  }

  lemma {:induction false} WithoutDistinct(idle: seq<Id>, e: Id)
    requires NoDuplicates(idle)
    ensures NoDuplicates(Without(idle, e))
  {
    if idle != [] {
      WithoutDistinct(idle[1..], e);
      if idle[0] != e {
        var rest := Without(idle[1..], e);
        forall i | 0 <= i < |rest| ensures rest[i] != idle[0] {
          assert rest[i] in idle[1..];
        }
      }
    }
  }

  // ---------------------------------------------------------------------------------

  lemma WrittenEntry(s: State, s': State, t: Thread, e: Id, x: Entry, x': Entry)
    requires EntryOk(s, e, x) && SameOthers(s, s', t) && s.threads[t].Handling? && s.threads[t].e == e && x.owner == With(t)
    requires s'.place == s.place && s'.idle == s.idle && x' == x.(state := RECEIVING)
    requires (x.op == Write && s'.threads[t] == Adding(e)) || (x.op == Connect && s'.threads[t] == AddingFirst(e))
    ensures EntryOk(s', e, x') && x.owing
  {
    Others(s, s', t);
  }

  lemma AddedEntry(s: State, s': State, t: Thread, e: Id, x: Entry, x': Entry)
    requires EntryOk(s, e, x) && SameOthers(s, s', t) && About(s.threads[t]) == Some(e) && x.owner == With(t)
    requires s'.place == s.place && s'.idle == s.idle && s'.threads[t] == Out
    requires (s.threads[t].Adding? || s.threads[t].AddingFirst?) && x.state == RECEIVING && x.op != Read
    requires x' == x.(node := Some(Read), op := Read, owner := ByNode, msgOpen := false)
    ensures EntryOk(s', e, x') && x.owing
  {
    Others(s, s', t);
  }

  lemma PartialEntry(s: State, s': State, t: Thread, e: Id, x: Entry, x': Entry)
    requires EntryOk(s, e, x) && SameOthers(s, s', t) && s.threads[t].Handling? && s.threads[t].e == e && x.owner == With(t)
    requires s'.place == s.place && s'.idle == s.idle && s'.threads[t] == Out && x.op == Connect
    requires x' == x.(node := Some(Write), op := Write, owner := ByNode)
    ensures EntryOk(s', e, x') && x.owing
  {
    Others(s, s', t);
  }

  lemma WriteStepKept(s: State, t: Thread, a: Action)
    requires Inv(s) && (a == WriteFinished(t) || a == ConnectSent(t)) && WriteStep(s, a).Some?
    ensures Inv(WriteStep(s, a).value)
  {
    hide Inv, Tags, Nodes, States, Refs, Owes, Tally;
    Inside(s, t);
    var s' := WriteStep(s, a).value;
    var e := s.threads[t].e;
    WrittenEntry(s, s', t, e, s.entries[e], s'.entries[e]);
    SteadyKept(s, s', t, e);
  }

  lemma ConnectPartialKept(s: State, t: Thread)
    requires Inv(s) && WriteStep(s, ConnectPartial(t)).Some?
    ensures Inv(WriteStep(s, ConnectPartial(t)).value)
  {
    hide Inv, Nodes, States, Refs, Owes, Tally;
    Inside(s, t);
    var s' := WriteStep(s, ConnectPartial(t)).value;
    var e := s.threads[t].e;
    PartialEntry(s, s', t, e, s.entries[e], s'.entries[e]);
    SteadyKept(s, s', t, e);
  }

  lemma LostKept(s: State, s': State, t: Thread, e: Id, after: After)
    requires Inv(s) && t in s.threads && About(s.threads[t]) == Some(e) && e in s.entries
    requires match s.threads[t] {
      case Handling(_, r) => Terminal(r) && !after.ThenDrop? && r.op == Settled(after)
      case Adding(_) => after.ThenWait?
      case AddingFirst(_) => after.ThenDiscard?
      case _ => false
    }
    requires s' == Claim(s, t, e, s.entries[e], false, after)
    ensures Inv(s')
  {
    hide Inv, Tags, Nodes, States, Refs, Owes, Tally;
    Inside(s, t);
    LostEntry(s, s', t, e, s.entries[e], s'.entries[e], after);
    hide EntryOk, SameOthers;
    ClaimKept(s, s', t, e, false, after);
  }

  lemma WriteLostKept(s: State, t: Thread, a: Action, after: After)
    requires Inv(s) && ((a == WriteEnd(t) && after == ThenWait) || (a == ConnectFail(t) && after == ThenDiscard))
    requires WriteStep(s, a).Some?
    ensures Inv(WriteStep(s, a).value)
  {
    hide Inv;
    LostKept(s, WriteStep(s, a).value, t, s.threads[t].e, after);
  }

  lemma AddedKept(s: State, s': State, t: Thread, e: Id, ok: bool, a: Action)
    requires Inv(s) && t in s.threads && (s.threads[t].Adding? || s.threads[t].AddingFirst?) && s.threads[t].e == e && e in s.entries
    requires (a == AddRead(t, ok) || a == AddFirst(t, ok)) && WriteStep(s, a) == Some(s')
    requires ok && s.entries[e].node.None?
    ensures Inv(s')
  {
    hide Inv, Nodes, States, Refs, Owes, Tally;
    Inside(s, t);
    AddedEntry(s, s', t, e, s.entries[e], s'.entries[e]);
    SteadyKept(s, s', t, e);
  }

  lemma AddKept(s: State, t: Thread, ok: bool, a: Action, after: After)
    requires Inv(s) && ((a == AddRead(t, ok) && after == ThenWait) || (a == AddFirst(t, ok) && after == ThenDiscard))
    requires WriteStep(s, a).Some?
    ensures Inv(WriteStep(s, a).value)
  {
    hide Inv;
    var s' := WriteStep(s, a).value;
    var e := s.threads[t].e;
    if ok && s.entries[e].node.None? {
      AddedKept(s, s', t, e, ok, a);
    } else {
      LostKept(s, s', t, e, after);
    }
  }

  // ---------------------------------------------------------------------------------
  // Leaving the entry

  lemma ServedEntry(s: State, s': State, t: Thread, e: Id, x: Entry)
    requires EntryOk(s, e, x) && SameOthers(s, s', t) && s.threads[t].Serving? && s.threads[t].e == e
    requires ThreadOk(s, t, s.threads[t]) && x == s.entries[e]
    requires var pc := s.threads[t];
      s'.threads[t] == match pc.after { case ThenDrop => Dropping(e, pc.guest) case ThenWait => Waiting(e) case ThenDiscard => Discarding(e) }
    requires s'.idle == s.idle && s'.place == s.place[s.threads[t].session := Done]
    ensures EntryOk(s', e, x)
  {
    Others(s, s', t);
  }

  lemma ServeKept(s: State, t: Thread)
    requires Inv(s) && LeaveStep(s, Serve(t)).Some?
    ensures Inv(LeaveStep(s, Serve(t)).value)
  {
    hide Nodes, States, Refs, Owes;
    var s' := LeaveStep(s, Serve(t)).value;
    var e := s.threads[t].e;
    ServedEntry(s, s', t, e, s.entries[e]);
    MoveKept(s, s', t, e, s.threads[t].session);
  }

  lemma WaitedEntry(s: State, s': State, t: Thread, e: Id, x: Entry)
    requires EntryOk(s, e, x) && SameOthers(s, s', t) && s.threads[t] == Waiting(e) && s'.threads[t] == Dropping(e, false)
    requires x.owner == With(t) && x.mutex.None? && s'.idle == s.idle && s'.place == s.place
    ensures EntryOk(s', e, x)
  {
    Others(s, s', t);
  }

  lemma WaitMutexKept(s: State, t: Thread)
    requires Inv(s) && LeaveStep(s, WaitMutex(t)).Some?
    ensures Inv(LeaveStep(s, WaitMutex(t)).value)
  {
    hide Inv, Nodes, States, Refs, Owes, Tally;
    Inside(s, t);
    var s' := LeaveStep(s, WaitMutex(t)).value;
    var e := s.threads[t].e;
    WaitedEntry(s, s', t, e, s.entries[e]);
    SteadyKept(s, s', t, e);
  }

  lemma LastDropEntry(s: State, s': State, t: Thread, e: Id, x: Entry, x': Entry)
    requires EntryOk(s, e, x) && SameOthers(s, s', t) && s.threads[t].Dropping? && s.threads[t].e == e
    requires if s.threads[t].guest then t in x.guests else x.owner == With(t) && x.op != Connect
    requires s'.idle == s.idle && s'.place == s.place
    requires x.ref == 1 && s'.threads[t] == Freeing(e) && x' == OneLess(x, t, s.threads[t].guest).(owner := Closer(t))
    ensures x.op != Connect && EntryOk(s', e, x') && forall u :: u != t ==> Respects(x, x', u)
  {
    Others(s, s', t);
    if s.threads[t].guest {
      assert |x.guests - {t}| == |x.guests| - 1;
    } else {
      assert t !in x.guests && x.guests - {t} == x.guests;
    }
  }

  lemma DropRefs(x: Entry, t: Thread, guest: bool)
    requires Refs(x) && x.ref != 1 && if guest then t in x.guests else x.owner == With(t) && t !in x.guests
    ensures Refs(OneLess(x, t, guest))
  {
    assert |x.guests - {t}| == if guest then |x.guests| - 1 else |x.guests|;
  }

  // Changing the owner outside the poller
  lemma NodesStay(x: Entry, x': Entry)
    requires Nodes(x) && !InPoller(x) && !InPoller(x')
    requires x'.node == x.node && x'.gone == x.gone && x'.queue == x.queue && x'.busy == x.busy && x'.msgOpen == x.msgOpen
    requires x'.op == x.op && x'.state == x.state && x'.notice == x.notice
    ensures Nodes(x')
  {
  }

  lemma DropTags(s: State, s': State, t: Thread, e: Id, x: Entry, x': Entry)
    requires Tags(s, e, x)
    requires SameOthers(s, s', t) && s.threads[t].Dropping? && s.threads[t].e == e && s'.threads[t] == Out && s'.idle == s.idle
    requires if s.threads[t].guest then t in x.guests else x.owner == With(t) && x.op != Connect
    requires x' == OneLess(x, t, s.threads[t].guest)
    ensures Tags(s', e, x')
  {
    Others(s, s', t);
  }

  lemma DropStates(s: State, s': State, t: Thread, e: Id, x: Entry, x': Entry)
    requires Tags(s, e, x) && States(s, x) && (x.owing <==> Owes(s, x))
    requires SameOthers(s, s', t) && s.threads[t].Dropping? && s.threads[t].e == e && s'.threads[t] == Out && s'.idle == s.idle
    requires if s.threads[t].guest then t in x.guests else x.owner == With(t) && x.op != Connect
    requires x' == OneLess(x, t, s.threads[t].guest)
    ensures States(s', x') && (x'.owing <==> Owes(s', x'))
  {
    Others(s, s', t);
  }

  lemma DropEntry(s: State, s': State, t: Thread, e: Id, x: Entry, x': Entry)
    requires EntryOk(s, e, x) && SameOthers(s, s', t) && s.threads[t].Dropping? && s.threads[t].e == e
    requires if s.threads[t].guest then t in x.guests else x.owner == With(t) && x.op != Connect
    requires s'.idle == s.idle && s'.place == s.place
    requires x.ref != 1 && s'.threads[t] == Out && x' == OneLess(x, t, s.threads[t].guest)
    ensures EntryOk(s', e, x') && forall u :: u != t ==> Respects(x, x', u)
  {
    DropTags(s, s', t, e, x, x');
    DropStates(s, s', t, e, x, x');
    var guest := s.threads[t].guest;
    assert guest || t !in x.guests;
    DropRefs(x, t, guest);
    if !guest { NodesStay(x, x'); }
    hide Tags, States, Refs, Owes;
  }

  lemma DropKept(s: State, t: Thread)
    requires Inv(s) && LeaveStep(s, Drop(t)).Some?
    ensures Inv(LeaveStep(s, Drop(t)).value)
  {
    hide Inv, Nodes, States, Refs, Owes, Tally;
    Inside(s, t);
    var s' := LeaveStep(s, Drop(t)).value;
    var e := s.threads[t].e;
    if s.entries[e].ref == 1 {
      LastDropEntry(s, s', t, e, s.entries[e], s'.entries[e]);
      SteadyKept(s, s', t, e);
    } else {
      DropEntry(s, s', t, e, s.entries[e], s'.entries[e]);
      SteadyKept(s, s', t, e);
    }
  }

  lemma FreedEntry(s: State, s': State, t: Thread, e: Id, x: Entry, x': Entry)
    requires EntryOk(s, e, x) && SameOthers(s, s', t) && s'.threads[t] == Out && s'.idle == s.idle && s'.place == s.place
    requires (s.threads[t] == Freeing(e) && x.owner == Closer(t)) || (s.threads[t] == Discarding(e) && x.owner == With(t) && x.op == Connect)
    requires x' == x.(freed := true, owner := Dropped)
    ensures EntryOk(s', e, x')
  {
    Others(s, s', t);
  }

  lemma FreeKept(s: State, t: Thread, a: Action)
    requires Inv(s) && (a == Free(t) || a == Discard(t)) && LeaveStep(s, a).Some?
    ensures Inv(LeaveStep(s, a).value)
  {
    hide Inv, Nodes, States, Refs, Owes, Tally;
    Inside(s, t);
    var s' := LeaveStep(s, a).value;
    var e := s.threads[t].e;
    FreedEntry(s, s', t, e, s.entries[e], s'.entries[e]);
    SteadyKept(s, s', t, e);
  }

  // ---------------------------------------------------------------------------------
  // Every step, every run

  lemma RequestStepKept(s: State, a: Action)
    requires Inv(s) && RequestStep(s, a).Some?
    ensures Inv(RequestStep(s, a).value)
  {
    hide Inv;
    match a
    case Request(t, session) => RequestKept(s, t, session);
    case Pop(t) => if s.idle == [] { PopEmptyKept(s, t); } else { PopKept(s, t); }
    case LockEntry(t) => LockEntryKept(s, t);
    case Retime(t) => RetimeKept(s, t);
    case Launch(t, e) => LaunchKept(s, t, e);
    case LaunchFail(t) => LaunchFailKept(s, t);
    case _ =>
  }

  lemma SendStepKept(s: State, a: Action)
    requires Inv(s) && SendStep(s, a).Some?
    ensures Inv(SendStep(s, a).value)
  {
    hide Inv;
    match a
    case Unlock(t) => UnlockKept(s, t);
    case SendSync(t) => SendSyncKept(s, t);
    case SendAsync(t) => SendAsyncKept(s, t);
    case SendFail(t) => SendFailKept(s, t);
    case _ =>
  }

  lemma ReadStepKept(s: State, a: Action)
    requires Inv(s) && ReadStep(s, a).Some?
    ensures Inv(ReadStep(s, a).value)
  {
    hide Inv;
    match a
    case Take(t, e, r) => TakeKept(s, t, e, r);
    case Ignore(t) => IgnoreKept(s, t);
    case ReadSuccess(t) => ReadSuccessKept(s, t);
    case ReadEnd(t) => ReadEndKept(s, t);
    case ReadEndLocked(t) => ReadEndLockedKept(s, t);
    case Part(t) => PartKept(s, t);
    case _ =>
  }

  lemma AnyWriteStepKept(s: State, a: Action)
    requires Inv(s) && WriteStep(s, a).Some?
    ensures Inv(WriteStep(s, a).value)
  {
    hide Inv;
    match a
    case WriteFinished(t) => WriteStepKept(s, t, a);
    case ConnectSent(t) => WriteStepKept(s, t, a);
    case WriteEnd(t) => WriteLostKept(s, t, a, ThenWait);
    case ConnectFail(t) => WriteLostKept(s, t, a, ThenDiscard);
    case ConnectPartial(t) => ConnectPartialKept(s, t);
    case AddRead(t, ok) => AddKept(s, t, ok, a, ThenWait);
    case AddFirst(t, ok) => AddKept(s, t, ok, a, ThenDiscard);
    case _ =>
  }

  lemma LeaveStepKept(s: State, a: Action)
    requires Inv(s) && LeaveStep(s, a).Some?
    ensures Inv(LeaveStep(s, a).value)
  {
    hide Inv;
    match a
    case Serve(t) => ServeKept(s, t);
    case WaitMutex(t) => WaitMutexKept(s, t);
    case Drop(t) => DropKept(s, t);
    case Free(t) => FreeKept(s, t, a);
    case Discard(t) => FreeKept(s, t, a);
    case _ =>
  }

  lemma StepKept(s: State, a: Action)
    requires Inv(s) && Next(s, a).Some?
    ensures Inv(Next(s, a).value)
  {
    hide Inv;
    if IsPollerAction(a) { PollerMoveKept(s, a); }
    else if RequestStep(s, a).Some? { RequestStepKept(s, a); }
    else if SendStep(s, a).Some? { SendStepKept(s, a); }
    else if ReadStep(s, a).Some? { ReadStepKept(s, a); }
    else if WriteStep(s, a).Some? { AnyWriteStepKept(s, a); }
    else { LeaveStepKept(s, a); }
  }

  // A run: each action can be taken where it is.
  ghost predicate Run(s: State, actions: seq<Action>, end: State)
    decreases |actions|
  {
    if actions == [] then s == end
    else Next(s, actions[0]).Some? && Run(Next(s, actions[0]).value, actions[1..], end)
  }

  lemma {:induction false} Always(s: State, actions: seq<Action>, end: State)
    requires Inv(s) && Run(s, actions, end)
    ensures Inv(end)
    decreases |actions|
  {
    hide Inv, Next;
    if actions != [] {
      StepKept(s, actions[0]);
      Always(Next(s, actions[0]).value, actions[1..], end);
    }
  }

  lemma Reached(init: State, actions: seq<Action>, s: State)
    requires Init(init) && Run(init, actions, s)
    ensures Inv(s)
  {
    InitInv(init);
    hide Inv, Init;
    Always(init, actions, s);
  }

  // No session is released or handled twice.
  lemma ServedAtMostOnce(init: State, actions: seq<Action>, s: State, session: Session)
    requires Init(init) && Run(init, actions, s)
    ensures s.served[session] <= 1
  {
    Reached(init, actions, s);
  }

  // Everything the entry was waiting for has been called back for, and handled.
  ghost predicate Quiet(s: State) {
    && (forall t :: t in s.threads ==> s.threads[t].Out?)
    && (forall e :: e in s.entries ==> s.entries[e].node.None? && s.entries[e].busy.Nothing?)
    && (forall e, r :: e in s.entries && (r in s.entries[e].gone || r in s.entries[e].queue) ==> r.status.Modified?)
  }

  // By the time all nodes are delivered and handled, each accepted session has been released
  // and handled exactly once, and each connection has been freed.
  lemma EveryoneServed(init: State, actions: seq<Action>, s: State, session: Session)
    requires Init(init) && Run(init, actions, s) && Quiet(s) && session in s.place
    ensures s.served[session] == if s.place[session].Refused? then 0 else 1
  {
    Reached(init, actions, s);
    assert SessionOk(s, session, s.place[session]);
    if s.place[session].At? {
      QuietEntry(s, s.place[session].e);
    }
  }

  lemma QuietEntry(s: State, e: Id)
    requires Inv(s) && Quiet(s) && e in s.entries
    ensures s.entries[e].freed && !s.entries[e].owing
  {
    var x := s.entries[e];
    assert EntryOk(s, e, x);
    hide Inv;
    assert x.queue[NOTICE] == 0;
    assert x.owner.InPipe? ==> x.gone[x.owner.r] == 1;
    assert x.owner.Queued? ==> x.queue[x.owner.r] == 1;
    hide Nodes;
    assert forall g :: g in x.guests ==> GuestPc(PcOf(s, g));
    assert x.guests == {};
  }

  lemma NothingLeaks(init: State, actions: seq<Action>, s: State, e: Id)
    requires Init(init) && Run(init, actions, s) && Quiet(s) && e in s.entries
    ensures s.entries[e].freed
  {
    Reached(init, actions, s);
    QuietEntry(s, e);
  }

  // A handler that has left the entry to another one and has its mutex still to unlock
  predicate Lingers(pc: Pc, e: Id) {
    pc == Parting(e, ToLeave)
  }

  lemma DroppedAlone(s: State, e: Id, t: Thread)
    requires Inv(s) && e in s.entries && s.entries[e].freed && t in s.threads && About(s.threads[t]) == Some(e)
    ensures (s.threads[t].Handling? && s.threads[t].r.status.Modified?) || Lingers(s.threads[t], e)
  {
    assert ThreadOk(s, t, s.threads[t]);
    assert EntryOk(s, e, s.entries[e]);
    hide Nodes, Owes;
  }

  // Who can have the mutex of an entry that nobody answers for any more.
  lemma HeldByLingerer(s: State, e: Id)
    requires Inv(s) && e in s.entries && Unheld(s, s.entries[e])
    ensures s.entries[e].mutex.Some? ==> s.entries[e].mutex.value in s.threads && Lingers(s.threads[s.entries[e].mutex.value], e)
    ensures forall t :: t in s.threads && Lingers(s.threads[t], e) ==> s.entries[e].mutex == Some(t)
  {
    hide Inv;
    if s.entries[e].mutex.Some? { HolderAt(s, e); }
    forall t | t in s.threads && Lingers(s.threads[t], e) ensures s.entries[e].mutex == Some(t) {
      Inside(s, t);
      hide EntryOk, Target, Tally;
    }
  }

  // A freed connection is on no list, and the poller has nothing left of it but nodes that were
  // replaced.  No thread is at it but for those, and a handler with its mutex still to unlock.
  lemma FreedIsForgotten(init: State, actions: seq<Action>, s: State, e: Id)
    requires Init(init) && Run(init, actions, s) && e in s.entries && s.entries[e].freed
    ensures e !in s.idle
    ensures s.entries[e].node.None? && s.entries[e].busy.Nothing?
    ensures forall r :: r in s.entries[e].gone || r in s.entries[e].queue ==> r.status.Modified?
    ensures forall t :: t in s.threads && About(s.threads[t]) == Some(e) ==>
      (s.threads[t].Handling? && s.threads[t].r.status.Modified?) || Lingers(s.threads[t], e)
    ensures forall t :: t in s.threads && Lingers(s.threads[t], e) ==> s.entries[e].mutex == Some(t)
    ensures s.entries[e].mutex.Some? ==> exists t :: t in s.threads && Lingers(s.threads[t], e)
  {
    Reached(init, actions, s);
    assert EntryOk(s, e, s.entries[e]);
    HeldByLingerer(s, e);
    hide Inv;
    forall t | t in s.threads && About(s.threads[t]) == Some(e)
      ensures (s.threads[t].Handling? && s.threads[t].r.status.Modified?) || Lingers(s.threads[t], e)
    {
      DroppedAlone(s, e, t);
    }
  }

  // A thread about to call release_conn.
  predicate Releasing(pc: Pc) {
    pc.Freeing? || pc.Discarding?
  }

  lemma ReleasedByOne(s: State, t: Thread, u: Thread)
    requires t in s.threads && u in s.threads && ThreadOk(s, t, s.threads[t]) && ThreadOk(s, u, s.threads[u])
    requires t != u && Releasing(s.threads[t]) && Releasing(s.threads[u])
    ensures s.threads[u].e != s.threads[t].e
  {
  }

  // release_conn runs once for an entry.  It then has no reference left if and only if its connect
  // has been answered for, so that it came to read or write; else it has the one it was made with.
  lemma FreedOnce(init: State, actions: seq<Action>, s: State, t: Thread)
    requires Init(init) && Run(init, actions, s) && t in s.threads && Releasing(s.threads[t])
    ensures s.threads[t].e in s.entries && !s.entries[s.threads[t].e].freed
    ensures var x := s.entries[s.threads[t].e];
      && (x.ref == 0 <==> x.op != Connect)
      && (x.ref == 0 <==> s.threads[t].Freeing?)
      && (x.ref != 0 ==> x.ref == 1)
    ensures forall u :: u in s.threads && u != t && Releasing(s.threads[u]) ==> s.threads[u].e != s.threads[t].e
  {
    Reached(init, actions, s);
    assert ThreadOk(s, t, s.threads[t]);
    assert EntryOk(s, s.threads[t].e, s.entries[s.threads[t].e]);
    hide Tags, Nodes, States, Owes;
    forall u | u in s.threads && u != t && Releasing(s.threads[u]) ensures s.threads[u].e != s.threads[t].e {
      assert ThreadOk(s, u, s.threads[u]);
      ReleasedByOne(s, t, u);
    }
  }

  // When release_conn is called the mutex it destroys is held if and only if another handler
  // is between the unlocks of handle_incoming_reply (Communicator.cc:629-630).
  lemma HeldAtRelease(init: State, actions: seq<Action>, s: State, t: Thread)
    requires Init(init) && Run(init, actions, s) && t in s.threads && Releasing(s.threads[t])
    ensures var e := s.threads[t].e;
      && e in s.entries
      && (s.entries[e].mutex.Some? <==> exists u :: u in s.threads && u != t && Lingers(s.threads[u], e))
  {
    Reached(init, actions, s);
    var e := s.threads[t].e;
    assert ThreadOk(s, t, s.threads[t]);
    assert EntryOk(s, e, s.entries[e]);
    HeldByLingerer(s, e);
  }

  ghost predicate Reachable(init: State, s: State) {
    Init(init) && exists actions :: Run(init, actions, s)
  }

  lemma {:induction false} Extend(s: State, actions: seq<Action>, mid: State, a: Action, end: State)
    requires Run(s, actions, mid) && Next(mid, a) == Some(end)
    ensures Run(s, actions + [a], end)
    decreases |actions|
  {
    hide Next;
    if actions == [] {
      assert ([] + [a])[1..] == [];
    } else {
      Extend(Next(s, actions[0]).value, actions[1..], mid, a, end);
      assert (actions + [a])[1..] == actions[1..] + [a];
    }
  }

  lemma Onward(init: State, s: State, a: Action, s': State)
    requires Reachable(init, s) && Next(s, a) == Some(s')
    ensures Reachable(init, s')
  {
    hide Next, Init;
    var actions :| Run(init, actions, s);
    Extend(init, actions, s, a, s');
  }

  // Which kind of step an action is
  lemma IsReadStep(s: State, a: Action)
    requires a.Take? || a.Ignore? || a.ReadSuccess? || a.ReadEnd? || a.ReadEndLocked?
    ensures Next(s, a) == ReadStep(s, a)
  {
  }

  lemma IsWriteStep(s: State, a: Action)
    requires a.ConnectSent? || a.ConnectFail? || a.AddFirst?
    ensures Next(s, a) == WriteStep(s, a)
  {
  }

  lemma IsLeaveStep(s: State, a: Action)
    requires a.Serve? || a.Drop?
    ensures Next(s, a) == LeaveStep(s, a)
  {
  }

  // For runs that show what can happen: one thread that makes a request, two that handle results.
  datatype Cast = Cast(asker: Thread, a: Thread, b: Thread)

  ghost predicate Fits(c: Cast, s: State) {
    && c.asker in s.threads && c.a in s.threads && c.b in s.threads
    && c.asker !in s.handlers && c.a in s.handlers && c.b in s.handlers && c.a != c.b
  }

  // A state in which the three are at these places, and connection 0 is x
  ghost predicate Scene(init: State, s: State, c: Cast, x: Entry, asker: Pc, a: Pc, b: Pc) {
    && Reachable(init, s) && Fits(c, s)
    && s.threads[c.asker] == asker && s.threads[c.a] == a && s.threads[c.b] == b
    && 0 in s.entries && s.entries[0] == x
  }

  lemma Opening(init: State, c: Cast) returns (s: State)
    requires Init(init) && Fits(c, init)
    ensures Scene(init, s, c, Entered(7), Out, Out, Out) && s.tlock.None?
  {
    assert Run(init, [], init);
    var s1 := Next(init, Request(c.asker, 7)).value;
    Onward(init, init, Request(c.asker, 7), s1);
    var s2 := Next(s1, Pop(c.asker)).value;
    Onward(init, s1, Pop(c.asker), s2);
    s := Next(s2, Launch(c.asker, 0)).value;
    Onward(init, s2, Launch(c.asker, 0), s);
  }

  lemma PollerScene(init: State, s: State, c: Cast, x: Entry, act: Action, x': Entry) returns (s': State)
    requires Scene(init, s, c, x, Out, Out, Out) && IsPollerAction(act) && act.e == 0 && PollerStep(x, act) == Some(x')
    ensures Scene(init, s', c, x', Out, Out, Out) && s'.tlock == s.tlock
  {
    s' := Set(s, 0, x');
    assert Next(s, act) == Some(s');
    hide Next, PollerStep, Reachable;
    Onward(init, s, act, s');
  }

  lemma TakeScene(init: State, s: State, c: Cast, x: Entry, r: Result) returns (s': State)
    requires Scene(init, s, c, x, Out, Out, Out) && r in x.queue
    ensures Scene(init, s', c, AfterTake(x, c.a, r), Out, Handling(0, r), Out) && s'.tlock == s.tlock
  {
    hide Next, Reachable;
    IsReadStep(s, Take(c.a, 0, r));
    s' := Next(s, Take(c.a, 0, r)).value;
    Onward(init, s, Take(c.a, 0, r), s');
  }

  lemma TakeSecond(init: State, s: State, c: Cast, x: Entry, a: Pc, r: Result) returns (s': State)
    requires Scene(init, s, c, x, Out, a, Out) && r in x.queue
    ensures Scene(init, s', c, AfterTake(x, c.b, r), Out, a, Handling(0, r)) && s'.tlock == s.tlock
  {
    hide Next, Reachable;
    IsReadStep(s, Take(c.b, 0, r));
    s' := Next(s, Take(c.b, 0, r)).value;
    Onward(init, s, Take(c.b, 0, r), s');
  }

  const REFUSED := Result(Connect, Failed)
  const CONNECTED := Result(Connect, Finished)
  const LOST := Result(Read, Finished)

  // The connect is answered for.
  lemma ConnectScene(init: State, c: Cast, ok: bool) returns (s: State, x: Entry)
    requires Init(init) && Fits(c, init)
    ensures Scene(init, s, c, x, Out, Out, Out) && s.tlock.None?
    ensures x == Entered(7).(node := None, queue := multiset{if ok then CONNECTED else REFUSED},
                             owner := Queued(if ok then CONNECTED else REFUSED))
  {
    var x0 := Entered(7);
    var x1 := PollerStep(x0, Fetch(0)).value;
    x := PollerStep(x1, Finish(0, ok)).value;
    assert x0.queue + multiset{if ok then CONNECTED else REFUSED} == multiset{if ok then CONNECTED else REFUSED};
    hide PollerStep, Scene;
    s := Opening(init, c);
    s := PollerScene(init, s, c, x0, Fetch(0), x1);
    s := PollerScene(init, s, c, x1, Finish(0, ok), x);
  }

  // A connect that is refused: its connection is released with a reference left.
  lemma FailedConnect() returns (init: State, actions: seq<Action>, s: State)
    ensures Init(init) && Run(init, actions, s)
    ensures 1 in s.threads && s.threads[1] == Discarding(0) && 0 in s.entries && s.entries[0].ref == 1
  {
    var c := Cast(0, 1, 2);
    init := State(map[], [], None, map[0 := Out, 1 := Out, 2 := Out], {1, 2}, multiset{}, map[]);
    var s0, x := ConnectScene(init, c, false);
    var s1 := TakeScene(init, s0, c, x, REFUSED);
    s := RefusedScene(init, s1, c, AfterTake(x, 1, REFUSED));
    hide Run;
    actions :| Run(init, actions, s);
  }

  lemma RefusedScene(init: State, s0: State, c: Cast, x: Entry) returns (s: State)
    requires Scene(init, s0, c, x, Out, Handling(0, REFUSED), Out)
    ensures Scene(init, s, c, x.(owing := false), Out, Discarding(0), Out)
  {
    hide Next, Reachable;
    IsWriteStep(s0, ConnectFail(c.a));
    var s1 := Next(s0, ConnectFail(c.a)).value;
    Onward(init, s0, ConnectFail(c.a), s1);
    IsLeaveStep(s1, Serve(c.a));
    s := Next(s1, Serve(c.a)).value;
    Onward(init, s1, Serve(c.a), s);
  }

  // The connection reads.
  lemma ReadingScene(init: State, s0: State, c: Cast, x: Entry) returns (s: State)
    requires Scene(init, s0, c, x, Out, Handling(0, CONNECTED), Out) && x.node.None?
    ensures Scene(init, s, c, x.(state := RECEIVING, node := Some(Read), op := Read, owner := ByNode, msgOpen := false), Out, Out, Out)
    ensures s.tlock == s0.tlock
  {
    hide Next, Reachable;
    IsWriteStep(s0, ConnectSent(c.a));
    var s1 := Next(s0, ConnectSent(c.a)).value;
    Onward(init, s0, ConnectSent(c.a), s1);
    IsWriteStep(s1, AddFirst(c.a, true));
    s := Next(s1, AddFirst(c.a, true)).value;
    Onward(init, s1, AddFirst(c.a, true), s);
  }

  // The message is there.
  lemma MessageScene(init: State, s0: State, c: Cast, x: Entry) returns (s: State)
    requires Scene(init, s0, c, x, Out, Out, Out) && x.node == Some(Read) && x.busy.Nothing? && x.state == RECEIVING && !x.msgOpen
    ensures Scene(init, s, c, x.(busy := Append, msgOpen := true), Out, Out, Out) && s.tlock == s0.tlock
  {
    var x1, x2, x3 := x.(busy := Got(Read)), x.(busy := CreateCheck), x.(busy := Append, msgOpen := true);
    assert PollerStep(x, Fetch(0)) == Some(x1) && PollerStep(x1, CreateFirst(0)) == Some(x2) && PollerStep(x2, Create(0, true)) == Some(x3);
    hide PollerStep, Scene;
    s := PollerScene(init, s0, c, x, Fetch(0), x1);
    s := PollerScene(init, s, c, x1, CreateFirst(0), x2);
    s := PollerScene(init, s, c, x2, Create(0, true), x3);
  }

  // The reply is complete, and the connection at its end: both results are in the queue.
  lemma ReplyScene(init: State, s0: State, c: Cast, x: Entry) returns (s: State, x': Entry)
    requires Scene(init, s0, c, x, Out, Out, Out) && x.queue == multiset{} && x.busy.Append? && x.node == Some(Read)
    ensures Scene(init, s, c, x', Out, Out, Out) && s.tlock == s0.tlock
    ensures x'.queue == multiset{NOTICE, LOST} && x'.state == SUCCESS && x'.ref == x.ref && x'.mutex == x.mutex
  {
    hide Scene;
    var x1 := Replied(x, true);
    var x2 := x1.(busy := Got(Read), queue := multiset{NOTICE}, notice := NoticeQueued);
    x' := Terminated(x2, Read, Finished);
    assert x1.queue + multiset{NOTICE} == multiset{NOTICE};
    assert PollerStep(x, AppendDone(0, true)) == Some(x1) && PollerStep(x1, EmitNotice(0)) == Some(x2) && PollerStep(x2, Finish(0, true)) == Some(x');
    hide PollerStep;
    s := PollerScene(init, s0, c, x, AppendDone(0, true), x1);
    s := PollerScene(init, s, c, x1, EmitNotice(0), x2);
    s := PollerScene(init, s, c, x2, Finish(0, true), x');
  }

  // One handler sees to the end of the connection under both mutexes and leaves the target's.
  lemma PartingScene(init: State, s0: State, c: Cast, x: Entry) returns (s: State)
    requires Scene(init, s0, c, x, Out, Handling(0, LOST), Handling(0, NOTICE)) && s0.tlock.None?
    requires x.state == SUCCESS && x.mutex.None?
    ensures Scene(init, s, c, x.(mutex := Some(c.a), state := CLOSING, owner := Passed), Out, Parting(0, ToLeave), Handling(0, NOTICE))
    ensures s.tlock.None?
  {
    hide Next, Reachable;
    IsReadStep(s0, ReadEnd(c.a));
    var s1 := Next(s0, ReadEnd(c.a)).value;
    Onward(init, s0, ReadEnd(c.a), s1);
    IsReadStep(s1, ReadEndLocked(c.a));
    s := Next(s1, ReadEndLocked(c.a)).value;
    Onward(init, s1, ReadEndLocked(c.a), s);
  }

  // The other one takes over the session and the first reference, serves the one and drops the other.
  lemma OvertakingScene(init: State, s0: State, c: Cast, x: Entry) returns (s: State, x': Entry)
    requires Scene(init, s0, c, x, Out, Parting(0, ToLeave), Handling(0, NOTICE)) && s0.tlock.None? && x.state == CLOSING
    ensures Scene(init, s, c, x', Out, Parting(0, ToLeave), Serving(0, x.session, false, ThenDrop))
    ensures x'.mutex == x.mutex && x'.ref == x.ref && x'.session == x.session
  {
    hide Next, Reachable;
    IsReadStep(s0, ReadSuccess(c.b));
    s := Next(s0, ReadSuccess(c.b)).value;
    Onward(init, s0, ReadSuccess(c.b), s);
    x' := s.entries[0];
  }

  lemma ReleaseScene(init: State, s0: State, c: Cast, x: Entry, a: Pc) returns (s: State, x': Entry)
    requires Scene(init, s0, c, x, Out, a, Serving(0, x.session, false, ThenDrop)) && x.ref == 1
    ensures Scene(init, s, c, x', Out, a, Freeing(0)) && x'.mutex == x.mutex
  {
    hide Next, Reachable;
    IsLeaveStep(s0, Serve(c.b));
    var s1 := Next(s0, Serve(c.b)).value;
    Onward(init, s0, Serve(c.b), s1);
    IsLeaveStep(s1, Drop(c.b));
    s := Next(s1, Drop(c.b)).value;
    Onward(init, s1, Drop(c.b), s);
    x' := s.entries[0];
  }

  // Two handlers, one with each result
  lemma TwoResults(init: State, c: Cast) returns (s: State, x: Entry)
    requires Init(init) && Fits(c, init)
    ensures Scene(init, s, c, x, Out, Handling(0, LOST), Handling(0, NOTICE)) && s.tlock.None?
    ensures x.state == SUCCESS && x.mutex.None? && x.ref == 1
  {
    hide Init, Scene, Fits;
    s, x := ConnectScene(init, c, true);
    s := TakeScene(init, s, c, x, CONNECTED);
    assert multiset{CONNECTED} - multiset{CONNECTED} == multiset{};
    x := AfterTake(x, c.a, CONNECTED);
    s := ReadingScene(init, s, c, x);
    x := x.(state := RECEIVING, node := Some(Read), op := Read, owner := ByNode, msgOpen := false);
    s := MessageScene(init, s, c, x);
    s, x := ReplyScene(init, s, c, x.(busy := Append, msgOpen := true));
    s := TakeScene(init, s, c, x, LOST);
    x := AfterTake(x, c.a, LOST);
    s := TakeSecond(init, s, c, x, Handling(0, LOST), NOTICE);
    x := AfterTake(x, c.b, NOTICE);
  }

  // One calls release_conn while the other has the entry's mutex still to unlock.
  lemma HeldRun(init: State, c: Cast) returns (s: State)
    requires Init(init) && Fits(c, init)
    ensures Reachable(init, s) && c.a in s.threads && c.b in s.threads && 0 in s.entries
    ensures s.threads[c.b] == Freeing(0) && s.entries[0].mutex == Some(c.a)
  {
    var x: Entry;
    hide Init, Run;
    s, x := TwoResults(init, c);
    s := PartingScene(init, s, c, x);
    s, x := OvertakingScene(init, s, c, x.(mutex := Some(c.a), state := CLOSING, owner := Passed));
    s, x := ReleaseScene(init, s, c, x, Parting(0, ToLeave));
  }

  predicate HandlerPc(pc: Pc) {
    pc.Handling? || pc.Ending? || pc.Parting? || pc.Serving? || pc.Waiting? || pc.Dropping? || pc.Freeing?
    || pc.Adding? || pc.AddingFirst? || pc.Discarding?
  }

  // Each thread keeps to its part.
  ghost predicate Roles(s: State) {
    forall t :: t in s.threads && !s.threads[t].Out? ==> (HandlerPc(s.threads[t]) <==> t in s.handlers)
  }

  ghost predicate RolesStay(s: State, s': State) {
    (Roles(s) ==> Roles(s')) && s'.handlers == s.handlers
  }

  lemma RequestRoles(s: State, a: Action)
    requires RequestStep(s, a).Some?
    ensures RolesStay(s, RequestStep(s, a).value)
  {
  }

  lemma SendRoles(s: State, a: Action)
    requires SendStep(s, a).Some?
    ensures RolesStay(s, SendStep(s, a).value)
  {
  }

  lemma ReadRoles(s: State, a: Action)
    requires ReadStep(s, a).Some?
    ensures RolesStay(s, ReadStep(s, a).value)
  {
  }

  lemma WriteRoles(s: State, a: Action)
    requires WriteStep(s, a).Some?
    ensures RolesStay(s, WriteStep(s, a).value)
  {
  }

  lemma LeaveRoles(s: State, a: Action)
    requires LeaveStep(s, a).Some?
    ensures RolesStay(s, LeaveStep(s, a).value)
  {
  }

  lemma RolesKept(s: State, a: Action)
    requires Roles(s) && Next(s, a).Some?
    ensures Roles(Next(s, a).value) && Next(s, a).value.handlers == s.handlers
  {
    hide RequestStep, SendStep, ReadStep, WriteStep, LeaveStep, PollerStep;
    if IsPollerAction(a) {}
    else if RequestStep(s, a).Some? { RequestRoles(s, a); }
    else if SendStep(s, a).Some? { SendRoles(s, a); }
    else if ReadStep(s, a).Some? { ReadRoles(s, a); }
    else if WriteStep(s, a).Some? { WriteRoles(s, a); }
    else { LeaveRoles(s, a); }
  }

  lemma {:induction false} RolesAlways(s: State, actions: seq<Action>, end: State)
    requires Roles(s) && Run(s, actions, end)
    ensures Roles(end) && end.handlers == s.handlers
    decreases |actions|
  {
    hide Roles, Next;
    if actions != [] {
      RolesKept(s, actions[0]);
      RolesAlways(Next(s, actions[0]).value, actions[1..], end);
    }
  }

  // Some run from here comes to a release_conn with the mutex held.
  ghost predicate CanBeHeld(init: State) {
    exists s, t :: Reachable(init, s) && t in s.threads && Releasing(s.threads[t]) && s.threads[t].e in s.entries
      && s.entries[s.threads[t].e].mutex.Some?
  }

  lemma TwoOfThem(handlers: set<Thread>, a: Thread, b: Thread)
    requires a in handlers && b in handlers && a != b
    ensures |handlers| >= 2
  {
    assert {a, b} <= handlers;
    assert |handlers - {a, b}| == |handlers| - 2;
  }

  // ... which takes two handler threads, and two are enough.
  lemma HeldIffTwoHandlers(init: State)
    requires Init(init) && init.handlers < init.threads.Keys
    ensures CanBeHeld(init) <==> |init.handlers| >= 2
  {
    assert Roles(init);
    hide Next, Init, Run, Roles;
    if CanBeHeld(init) {
      var s, t :| Reachable(init, s) && t in s.threads && Releasing(s.threads[t]) && s.threads[t].e in s.entries
        && s.entries[s.threads[t].e].mutex.Some?;
      var actions :| Run(init, actions, s);
      HeldAtRelease(init, actions, s, t);
      var u :| u in s.threads && u != t && Lingers(s.threads[u], s.threads[t].e);
      RolesAlways(init, actions, s);
      TwoOfThem(init.handlers, t, u);
    }
    if |init.handlers| >= 2 {
      var a :| a in init.handlers;
      assert |init.handlers - {a}| >= 1;
      var b :| b in init.handlers - {a};
      var asker :| asker in init.threads && asker !in init.handlers;
      var s := HeldRun(init, Cast(asker, a, b));
      assert Releasing(s.threads[b]);
    }
  }

  // list_del meets an entry that is on the list, and mpoller_add a socket without a node.
  lemma ListAndPollerInStep(init: State, actions: seq<Action>, s: State, t: Thread)
    requires Init(init) && Run(init, actions, s) && t in s.threads && About(s.threads[t]).Some?
    ensures var e := About(s.threads[t]).value;
      && e in s.entries
      && (s.threads[t].Ending? && s.entries[e].mutex.None? && s.entries[e].state == IDLE ==> e in s.idle)
      && (s.threads[t].Adding? || s.threads[t].AddingFirst? || (s.threads[t].Handling? && Terminal(s.threads[t].r)) ==>
            s.entries[e].node.None? && s.entries[e].busy.Nothing?)
  {
    var e := About(s.threads[t]).value;
    Reached(init, actions, s);
    assert ThreadOk(s, t, s.threads[t]);
    assert EntryOk(s, e, s.entries[e]);
    var x := s.entries[e];
    if s.threads[t].Ending? && x.spot.Taken? {
      assert x.spot.t in s.threads && ThreadOk(s, x.spot.t, s.threads[x.spot.t]);
    }
  }

  // ---------------------------------------------------------------------------------
  // No deadlock

  // Something is left to be done: a thread is at work, or the poller or the queue has something.
  ghost predicate Unfinished(s: State) {
    || (exists t :: t in s.threads && !s.threads[t].Out?)
    || (exists e :: e in s.entries && (s.entries[e].node.Some? || !s.entries[e].busy.Nothing?
                                       || s.entries[e].gone != multiset{} || s.entries[e].queue != multiset{}))
  }

  // What comes from outside: requests, timeouts, stops
  predicate Outside(a: Action) {
    a.Request? || a.Expire? || a.Cut?
  }

  // A thread's step
  predicate CanMove(s: State, a: Action) {
    !IsPollerAction(a) && (RequestStep(s, a).Some? || SendStep(s, a).Some? || ReadStep(s, a).Some? || WriteStep(s, a).Some? || LeaveStep(s, a).Some?)
  }

  lemma MoveIsNext(s: State, a: Action)
    requires CanMove(s, a)
    ensures Next(s, a).Some?
  {
    hide RequestStep, SendStep, ReadStep, WriteStep, LeaveStep;
  }

  // Whoever has an entry's mutex can go on.
  lemma HolderGoesOn(s: State, e: Id) returns (a: Action)
    requires Inv(s) && e in s.entries && s.entries[e].mutex.Some?
    ensures CanMove(s, a) && !Outside(a)
  {
    hide Inv, WriteStep, LeaveStep;
    var u := s.entries[e].mutex.value;
    HolderAt(s, e);
    match s.threads[u]
    case Holding(_, _) => a := Retime(u);
    case Sending(_, _) => a := SendSync(u);
    case Unlocking(_) => a := Unlock(u);
    case Parting(_, _) => a := Part(u);
  }

  ghost predicate NoMutex(s: State) {
    forall e :: e in s.entries ==> s.entries[e].mutex.None?
  }

  lemma TargetHeldAt(s: State)
    requires Inv(s) && NoMutex(s) && s.tlock.Some?
    ensures var u := s.tlock.value;
      && u in s.threads && (s.threads[u].Popped? || s.threads[u].Ending?)
      && s.threads[u].e in s.entries && s.entries[s.threads[u].e].mutex.None?
  {
    hide EntryOk, SessionOk, Tally;
    assert ThreadOk(s, s.tlock.value, PcOf(s, s.tlock.value));
  }

  // Whoever has the target's mutex waits for an entry's at most.
  lemma TargetGoesOn(s: State) returns (a: Action)
    requires Inv(s) && NoMutex(s) && s.tlock.Some?
    ensures CanMove(s, a) && !Outside(a)
  {
    hide Inv, NoMutex, SendStep, WriteStep, LeaveStep;
    var u := s.tlock.value;
    TargetHeldAt(s);
    if s.threads[u].Popped? {
      hide ReadStep;
      a := LockEntry(u);
    } else {
      hide RequestStep;
      a := ReadEndLocked(u);
    }
  }

  // ... and without it there is no waiting for a mutex.
  lemma ResultGoesOn(s: State, t: Thread) returns (a: Action)
    requires t in s.threads && ThreadOk(s, t, s.threads[t]) && s.tlock.None? && s.threads[t].Handling?
    ensures CanMove(s, a) && !Outside(a)
  {
    hide RequestStep, SendStep, LeaveStep;
    var r := s.threads[t].r;
    a := if r.status.Modified? then Ignore(t)
         else if r.status.Success? then ReadSuccess(t)
         else match r.op {
           case Read => ReadEnd(t)
           case Write => if r.status.Finished? then WriteFinished(t) else WriteEnd(t)
           case Connect => ConnectFail(t)
         };
  }

  lemma AskerGoesOn(s: State, t: Thread) returns (a: Action)
    requires t in s.threads && Target(s) && s.tlock.None? && (s.threads[t].Popping? || s.threads[t].Launching?)
    ensures CanMove(s, a) && !Outside(a)
  {
    hide SendStep, ReadStep, WriteStep, LeaveStep;
    a := if s.threads[t].Popping? then Pop(t) else LaunchFail(t);
  }

  lemma AdderGoesOn(s: State, t: Thread) returns (a: Action)
    requires t in s.threads && ThreadOk(s, t, s.threads[t]) && (s.threads[t].Adding? || s.threads[t].AddingFirst?)
    ensures CanMove(s, a) && !Outside(a)
  {
    hide RequestStep, SendStep, ReadStep, LeaveStep;
    a := if s.threads[t].Adding? then AddRead(t, false) else AddFirst(t, false);
  }

  lemma LeaverGoesOn(s: State, t: Thread) returns (a: Action)
    requires t in s.threads && ThreadOk(s, t, s.threads[t]) && NoMutex(s)
    requires var pc := s.threads[t]; pc.Serving? || pc.Waiting? || pc.Dropping? || pc.Freeing? || pc.Discarding?
    ensures CanMove(s, a) && !Outside(a)
  {
    hide RequestStep, SendStep, ReadStep, WriteStep;
    assert s.threads[t].e in s.entries && s.entries[s.threads[t].e].mutex.None?;
    hide ThreadOk, NoMutex;
    var pc := s.threads[t];
    a := if pc.Serving? then Serve(t)
         else if pc.Waiting? then WaitMutex(t)
         else if pc.Dropping? then Drop(t)
         else if pc.Freeing? then Free(t)
         else Discard(t);
  }

  lemma ThreadGoesOn(s: State, t: Thread) returns (a: Action)
    requires Inv(s) && NoMutex(s) && s.tlock.None? && t in s.threads && !s.threads[t].Out?
    ensures CanMove(s, a) && !Outside(a)
  {
    var pc := s.threads[t];
    assert ThreadOk(s, t, pc) && Target(s);
    assert !pc.Popped? && !pc.Holding? && !pc.Sending? && !pc.Unlocking? && !pc.Ending? && !pc.Parting?;
    hide Inv, ThreadOk, Target, NoMutex, CanMove;
    if pc.Handling? {
      a := ResultGoesOn(s, t);
    } else if pc.Popping? || pc.Launching? {
      a := AskerGoesOn(s, t);
    } else if pc.Adding? || pc.AddingFirst? {
      a := AdderGoesOn(s, t);
    } else {
      a := LeaverGoesOn(s, t);
    }
  }

  lemma HandlerGoesOn(s: State, t: Thread, e: Id) returns (a: Action)
    requires t in s.threads && s.threads[t].Out? && t in s.handlers && e in s.entries && s.entries[e].queue != multiset{}
    ensures CanMove(s, a) && !Outside(a)
  {
    hide RequestStep, SendStep, WriteStep, LeaveStep;
    var r :| r in s.entries[e].queue;
    a := Take(t, e, r);
  }

  lemma PollerGoesOn(s: State, e: Id) returns (a: Action)
    requires e in s.entries && s.entries[e].mutex.None?
    requires !s.entries[e].busy.Nothing? || s.entries[e].node.Some? || s.entries[e].gone != multiset{}
    ensures Next(s, a).Some? && !Outside(a)
  {
    hide RequestStep, SendStep, ReadStep, WriteStep, LeaveStep;
    var x := s.entries[e];
    match x.busy
    case Got(_) => a := Return(e);
    case CreateWait => a := CreatePass(e);
    case CreateCheck => a := Create(e, true);
    case Append => a := AppendMore(e);
    case Emit => a := EmitNotice(e);
    case Fail => a := Finish(e, false);
    case Nothing =>
      if x.node.Some? {
        a := Fetch(e);
      } else {
        var r :| r in x.gone;
        a := Deliver(e, r);
      }
  }

  // The two mutexes, the poller's wait for an entry and the handlers cannot block each other:
  // as long as something is left to be done some step can be taken, without anything from outside.
  lemma NeverStuck(init: State, actions: seq<Action>, s: State) returns (a: Action)
    requires Init(init) && Run(init, actions, s) && Unfinished(s) && exists h :: h in s.handlers && h in s.threads
    ensures Next(s, a).Some? && !Outside(a)
  {
    Reached(init, actions, s);
    hide Inv, Next, Run, Init, CanMove;
    if !NoMutex(s) {
      var e :| e in s.entries && s.entries[e].mutex.Some?;
      a := HolderGoesOn(s, e);
      MoveIsNext(s, a);
    } else if s.tlock.Some? {
      a := TargetGoesOn(s);
      MoveIsNext(s, a);
    } else if t :| t in s.threads && !s.threads[t].Out? {
      a := ThreadGoesOn(s, t);
      MoveIsNext(s, a);
    } else {
      var e :| e in s.entries && (s.entries[e].node.Some? || !s.entries[e].busy.Nothing?
                                  || s.entries[e].gone != multiset{} || s.entries[e].queue != multiset{});
      if s.entries[e].queue != multiset{} {
        var h :| h in s.handlers && h in s.threads;
        a := HandlerGoesOn(s, h, e);
        MoveIsNext(s, a);
      } else {
        a := PollerGoesOn(s, e);
      }
    }
  }
}
