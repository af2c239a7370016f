/**
  src/common/thrdpool.c: workers, and one thread that destroys the pool, from outside or from
  within a task.  The message queue is the FIFO that MsgQueue shows it to be: get blocks on an
  empty queue until it is made nonblocking.
 */
module ThreadPool {
  import opened Collections

  type Thread = nat
  type Task = nat

  // Where a worker stands in __thrdpool_routine (thrdpool.c:36-66).
  datatype Pc =
    | Testing                  // line 36
    | Getting                  // line 38
    | Working(task: Task)      // line 45
    | Destroying               // inside a task that destroys the pool
    | Checking                 // line 47, back from a task
    | Leaving                  // about to lock the pool (line 56)
    | Joining(t: Thread)       // line 64
    | Gone

  // Where thrdpool_destroy stands (thrdpool.c:73-89, 226-243).
  datatype Stage =
    | NotBegun
    | Locked                   // has the mutex, line 74
    | NonblockSet              // has the mutex, line 75
    | TerminateSet             // has the mutex, line 77
    | WaitingForAll            // line 84
    | JoiningLast              // line 88
    | Draining                 // line 229
    | Releasing                // line 239-243
    | Returned

  datatype State = State(
    queue: seq<Task>,
    nonblock: bool,
    nthreads: int,
    tid: Option<Thread>,
    terminate: bool,
    workers: map<Thread, Pc>,
    stage: Stage,
    destroyer: Option<Thread>,       // the worker that destroys the pool, if one does
    freed: bool,
    // history
    scheduled: multiset<Task>, ran: multiset<Task>, pended: multiset<Task>,
    joined: multiset<Thread>,
    left: seq<Thread>,               // workers that have passed line 62, in that order
    counted: set<Thread>)            // workers that nthreads stands for

  datatype Action =
    | Schedule(task: Task)
    | Test(t: Thread)
    | Get(t: Thread)
    | Return(t: Thread)
    | DestroyInside(t: Thread)
    | DestroyOutside
    | Check(t: Thread)
    | Leave(t: Thread)
    | Join(t: Thread)
    | SetNonblock
    | SetTerminate
    | Detach
    | AllGone
    | JoinLast
    | Drain
    | Release

  predicate Init(s: State) {
    && s.queue == [] && !s.nonblock && s.tid.None? && !s.terminate && s.stage.NotBegun? && s.destroyer.None? && !s.freed
    && s.scheduled == s.ran == s.pended == multiset{} && s.joined == multiset{} && s.left == []
    && s.counted == s.workers.Keys && s.nthreads == |s.workers| && forall t :: t in s.workers ==> s.workers[t].Testing?
  }

  predicate MutexFree(s: State) {
    !s.stage.Locked? && !s.stage.NonblockSet? && !s.stage.TerminateSet?
  }

  predicate Enabled(s: State, a: Action) {
    match a
    // the pool must not be used any more once it has been destroyed
    case Schedule(task) => s.stage.NotBegun? || (exists t :: t in s.workers && s.workers[t].Working?)
    case Test(t) => t in s.workers && s.workers[t].Testing?
    case Get(t) => t in s.workers && s.workers[t].Getting? && (s.queue != [] || s.nonblock)
    case Return(t) => t in s.workers && s.workers[t].Working?
    case DestroyInside(t) => t in s.workers && s.workers[t].Working? && s.stage.NotBegun?
    case DestroyOutside => s.stage.NotBegun?
    case Check(t) => t in s.workers && s.workers[t].Checking?
    case Leave(t) => t in s.workers && s.workers[t].Leaving? && MutexFree(s)
    case Join(t) => t in s.workers && s.workers[t].Joining? && s.workers[t].t in s.workers && s.workers[s.workers[t].t].Gone?
    case SetNonblock => s.stage.Locked?
    case SetTerminate => s.stage.NonblockSet?
    case Detach => s.stage.TerminateSet?
    case AllGone => s.stage.WaitingForAll? && s.nthreads == 0
    case JoinLast => s.stage.JoiningLast? && (s.tid.Some? ==> s.tid.value in s.workers && s.workers[s.tid.value].Gone?)
    case Drain => s.stage.Draining?
    case Release => s.stage.Releasing?
  }

  function Move(s: State, t: Thread, pc: Pc): State {
    s.(workers := s.workers[t := pc])
  }

  function Next(s: State, a: Action): State
    requires Enabled(s, a)
  {
    match a
    case Schedule(task) => s.(queue := s.queue + [task], scheduled := s.scheduled + multiset{task})
    case Test(t) => Move(s, t, if s.terminate then Leaving else Getting)
    case Get(t) =>
      if s.queue == [] then Move(s, t, Leaving)
      else Move(s, t, Working(s.queue[0])).(queue := s.queue[1..], ran := s.ran + multiset{s.queue[0]})
    case Return(t) => Move(s, t, Checking)
    case DestroyInside(t) => Move(s, t, Destroying).(stage := Locked, destroyer := Some(t))
    case DestroyOutside => s.(stage := Locked)
    case Check(t) => if s.nthreads == 0 then Move(s, t, Gone).(freed := true) else Move(s, t, Testing)
    case Leave(t) =>
      Move(s, t, if s.tid.Some? then Joining(s.tid.value) else Gone)
      .(tid := Some(t), nthreads := s.nthreads - 1, left := s.left + [t], counted := s.counted - {t})
    case Join(t) => Move(s, t, Gone).(joined := s.joined + multiset{s.workers[t].t})
    case SetNonblock => s.(nonblock := true, stage := NonblockSet)
    case SetTerminate => s.(terminate := true, stage := TerminateSet)
    case Detach =>
      if s.destroyer.Some? then s.(nthreads := s.nthreads - 1, counted := s.counted - {s.destroyer.value}, stage := WaitingForAll)
      else s.(stage := WaitingForAll)
    case AllGone => s.(stage := JoiningLast)
    case JoinLast => s.(stage := Draining, joined := if s.tid.Some? then s.joined + multiset{s.tid.value} else s.joined)
    case Drain =>
      if s.queue == [] then s.(stage := Releasing)
      else s.(queue := s.queue[1..], pended := s.pended + multiset{s.queue[0]})
    case Release =>
      if s.destroyer.Some? then Move(s, s.destroyer.value, Checking).(stage := Returned)
      else s.(stage := Returned, freed := true)
  }

  // ---------------------------------------------------------------------------------

  // A worker the pool still counts is one that has not left.
  predicate Inside(pc: Pc) {
    !pc.Joining? && !pc.Gone?
  }

  // From here on the destroyer is not counted any more.
  predicate Detached(stage: Stage) {
    stage.WaitingForAll? || stage.JoiningLast? || stage.Draining? || stage.Releasing? || stage.Returned?
  }

  predicate AfterAll(stage: Stage) {
    stage.JoiningLast? || stage.Draining? || stage.Releasing? || stage.Returned?
  }

  predicate AfterJoin(stage: Stage) {
    stage.Draining? || stage.Releasing? || stage.Returned?
  }

  predicate IsDestroyer(s: State, t: Thread) {
    s.destroyer == Some(t)
  }

  ghost predicate Counts(s: State) {
    && s.nthreads == |s.counted|
    && (forall t :: t in s.counted <==>
          t in s.workers && Inside(s.workers[t]) && !(IsDestroyer(s, t) && Detached(s.stage)))
    && (AfterAll(s.stage) ==> s.counted == {})
  }

  ghost predicate Tasks(s: State) {
    && s.scheduled == multiset(s.queue) + s.ran + s.pended
    && (s.stage.Releasing? || s.stage.Returned? ==> s.queue == [])
  }

  predicate Over(s: State, t: Thread) {
    t in s.workers && s.workers[t].Gone?
  }

  // The worker that was i-th to leave joins the one that left before it, or is done with that.
  predicate Linked(s: State, i: nat)
    requires i < |s.left|
  {
    && s.left[i] in s.workers && !IsDestroyer(s, s.left[i])
    && (s.workers[s.left[i]].Gone? || (i > 0 && s.workers[s.left[i]] == Joining(s.left[i - 1])))
  }

  // The chain: nobody leaves twice, and a worker is gone only after those that left before it.
  ghost predicate Chain(s: State) {
    && (forall i, j :: 0 <= i < j < |s.left| ==> s.left[i] != s.left[j])
    && (forall i: nat :: i < |s.left| ==> Linked(s, i))
    && (forall t :: t in s.workers && (s.workers[t].Joining? || (s.workers[t].Gone? && !IsDestroyer(s, t))) ==> t in s.left)
    && (forall i, j :: 0 <= i < j < |s.left| && Over(s, s.left[j]) ==> Over(s, s.left[i]))
    && s.tid == (if s.left == [] then None else Some(s.left[|s.left| - 1]))
  }

  // How often the worker that was i-th to leave has been joined: by the one that left after it, the
  // last of all by the destroyer.
  function JoinCount(s: State, i: nat): nat
    requires i < |s.left|
  {
    if i + 1 < |s.left| then if Over(s, s.left[i + 1]) then 1 else 0
    else if AfterJoin(s.stage) then 1 else 0
  }

  ghost predicate Joins(s: State) {
    && (forall i: nat :: i < |s.left| ==> s.joined[s.left[i]] == JoinCount(s, i))
    && (forall t :: t !in s.left ==> s.joined[t] == 0)
  }

  ghost predicate Stages(s: State) {
    && (s.nonblock <==> !s.stage.NotBegun? && !s.stage.Locked?)
    && (s.terminate <==> s.stage.TerminateSet? || Detached(s.stage))
    && (s.destroyer.Some? ==> !s.stage.NotBegun? && s.destroyer.value in s.workers)
    && (forall t :: t in s.workers && s.workers[t].Destroying? ==> IsDestroyer(s, t))
    && (s.destroyer.Some? ==> var pc := s.workers[s.destroyer.value];
          if s.stage.Returned? then pc.Checking? || pc.Gone? else pc.Destroying?)
    && (forall t :: t in s.workers && (s.workers[t].Leaving? || s.workers[t].Joining?) ==> s.nonblock)
    && (s.left != [] ==> s.terminate && MutexFree(s))
    && (AfterJoin(s.stage) && s.left != [] ==> s.workers.Keys >= {s.left[|s.left| - 1]} && s.workers[s.left[|s.left| - 1]].Gone?)
    && (s.freed <==> s.stage.Returned? && (s.destroyer.Some? ==> s.workers[s.destroyer.value].Gone?))
  }

  ghost predicate Inv(s: State) {
    Counts(s) && Tasks(s) && Chain(s) && Joins(s) && Stages(s)
  }

  lemma InitInv(s: State)
    requires Init(s)
    ensures Inv(s)
  {
  }

  // Once all have left there is no task left that could schedule another.
  lemma NobodyWorks(s: State)
    requires Counts(s) && Stages(s) && AfterAll(s.stage)
    ensures forall t :: t in s.workers ==> !s.workers[t].Working?
  {
    assert forall t :: t in s.workers && Inside(s.workers[t]) ==> t !in s.counted && IsDestroyer(s, t);
  }

  lemma TasksKept(s: State, a: Action)
    requires Tasks(s) && Counts(s) && Stages(s) && Enabled(s, a)
    ensures Tasks(Next(s, a))
  {
    if AfterAll(s.stage) { NobodyWorks(s); }
    if a.Get? || a.Drain? {
      if s.queue != [] { FirstTask(s.queue, s.ran, s.pended); }
    }
  }

  lemma FirstTask(queue: seq<Task>, ran: multiset<Task>, pended: multiset<Task>)
    requires queue != []
    ensures multiset(queue[1..]) + (ran + multiset{queue[0]}) + pended == multiset(queue) + ran + pended
    ensures multiset(queue[1..]) + ran + (pended + multiset{queue[0]}) == multiset(queue) + ran + pended
  {
    assert queue == [queue[0]] + queue[1..];
  }

  // Nobody leaves, joins or goes.
  ghost predicate SamePlaces(s: State, s': State) {
    && s'.workers.Keys == s.workers.Keys && s'.left == s.left && s'.tid == s.tid && s'.joined == s.joined
    && s'.counted == s.counted && s'.nthreads == s.nthreads
    && (forall t :: t in s.workers ==> Inside(s'.workers[t]) == Inside(s.workers[t]) && s'.workers[t].Gone? == s.workers[t].Gone?)
    && (forall t :: t in s.workers && s.workers[t].Joining? ==> s'.workers[t] == s.workers[t])
  }

  lemma SameChain(s: State, s': State)
    requires Chain(s) && SamePlaces(s, s')
    requires forall t :: t in s.workers && !Inside(s.workers[t]) ==> (IsDestroyer(s', t) <==> IsDestroyer(s, t))
    ensures Chain(s')
  {
    forall i: nat | i < |s.left| ensures Linked(s', i) {
      assert Linked(s, i);
    }
    forall i, j | 0 <= i < j < |s.left| && Over(s', s.left[j]) ensures Over(s', s.left[i]) {
      assert Over(s, s.left[j]);
    }
  }

  lemma LeftIsOut(s: State, i: nat)
    requires Chain(s) && i < |s.left|
    ensures s.left[i] in s.workers && !Inside(s.workers[s.left[i]])
  {
    assert Linked(s, i);
  }

  // Nobody leaves twice.
  lemma InsideIsNew(s: State, t: Thread)
    requires Chain(s) && t in s.workers && Inside(s.workers[t])
    ensures t !in s.left
  {
    forall i: nat | i < |s.left| ensures s.left[i] != t {
      LeftIsOut(s, i);
    }
  }

  lemma SameJoins(s: State, s': State)
    requires Joins(s) && SamePlaces(s, s') && (AfterJoin(s'.stage) <==> AfterJoin(s.stage))
    ensures Joins(s')
  {
    forall i: nat | i < |s.left| ensures JoinCount(s', i) == JoinCount(s, i) {
    }
  }

  lemma SameCounts(s: State, s': State)
    requires Counts(s) && SamePlaces(s, s') && (AfterAll(s'.stage) ==> AfterAll(s.stage) || s.counted == {})
    requires forall t :: t in s.workers ==>
      (IsDestroyer(s', t) && Detached(s'.stage) <==> IsDestroyer(s, t) && Detached(s.stage))
    ensures Counts(s')
  {
  }

  // Steps of a worker that stays inside, and steps of nobody's
  predicate Harmless(a: Action) {
    a.Schedule? || a.Test? || a.Get? || a.Return? || a.DestroyOutside? || a.DestroyInside? || a.SetNonblock? || a.SetTerminate?
    || a.Drain? || a.AllGone?
  }

  lemma HarmlessPlaces(s: State, a: Action)
    requires Enabled(s, a) && Harmless(a)
    ensures SamePlaces(s, Next(s, a))
  {
    match a
    case Test(_) =>
    case Get(_) =>
    case Return(_) =>
    case DestroyInside(_) =>
    case _ =>
  }

  lemma HarmlessStages(s: State, a: Action)
    requires Stages(s) && Enabled(s, a) && Harmless(a)
    ensures Stages(Next(s, a))
  {
    match a
    case Schedule(_) =>
    case Return(_) =>
    case DestroyInside(_) =>
    case Drain =>
    case _ =>
  }

  lemma HarmlessDestroyer(s: State, a: Action)
    requires Stages(s) && Counts(s) && Enabled(s, a) && Harmless(a)
    ensures AfterJoin(Next(s, a).stage) <==> AfterJoin(s.stage)
    ensures AfterAll(Next(s, a).stage) ==> AfterAll(s.stage) || s.counted == {}
    ensures Detached(Next(s, a).stage) <==> Detached(s.stage)
    ensures Next(s, a).destroyer == s.destroyer
      || (!Detached(s.stage) && s.destroyer.None? && exists t :: t in s.workers && s.workers[t].Working? && Next(s, a).destroyer == Some(t))
  {
  }

  lemma HarmlessKept(s: State, a: Action)
    requires Inv(s) && Enabled(s, a) && Harmless(a)
    ensures Inv(Next(s, a))
  {
    TasksKept(s, a);
    HarmlessPlaces(s, a);
    HarmlessStages(s, a);
    HarmlessDestroyer(s, a);
    HarmlessRest(s, Next(s, a));
  }

  lemma HarmlessRest(s: State, s': State)
    requires Chain(s) && Joins(s) && Counts(s) && SamePlaces(s, s') && (AfterJoin(s'.stage) <==> AfterJoin(s.stage))
    requires (AfterAll(s'.stage) ==> AfterAll(s.stage) || s.counted == {}) && (Detached(s'.stage) <==> Detached(s.stage))
    requires s'.destroyer == s.destroyer
      || (!Detached(s.stage) && s.destroyer.None? && exists t :: t in s.workers && s.workers[t].Working? && s'.destroyer == Some(t))
    ensures Chain(s') && Joins(s') && Counts(s')
  {
    SameChain(s, s');
    SameJoins(s, s');
    SameCounts(s, s');
  }

  // ---------------------------------------------------------------------------------
  // Leaving and joining

  lemma LeaveKept(s: State, t: Thread)
    requires Inv(s) && Enabled(s, Leave(t))
    ensures Inv(Next(s, Leave(t)))
  {
    var s' := Next(s, Leave(t));
    LeaveIsCounted(s, t);
    InsideIsNew(s, t);
    LeaveChain(s, s', t);
    LeaveJoins(s, s', t);
    LeaveCounts(s, s', t);
    LeaveStages(s, s', t);
  }

  // Whoever leaves is one the pool waits for; so it is not too late, and terminate is set.
  lemma LeaveIsCounted(s: State, t: Thread)
    requires Inv(s) && Enabled(s, Leave(t))
    ensures t in s.counted && s.nthreads > 0 && s.terminate && !AfterAll(s.stage) && !IsDestroyer(s, t)
  {
  }

  lemma LeaveChain(s: State, s': State, t: Thread)
    requires Chain(s) && t in s.workers && s.workers[t].Leaving? && t !in s.left && !IsDestroyer(s, t) && s'.destroyer == s.destroyer
    requires s'.workers == s.workers[t := if s.tid.Some? then Joining(s.tid.value) else Gone]
    requires s'.left == s.left + [t] && s'.tid == Some(t)
    ensures Chain(s')
  {
    forall i: nat | i <= |s.left| ensures Linked(s', i) {
      if i < |s.left| { assert Linked(s, i); }
    }
    assert forall i :: 0 <= i < |s.left| ==> Over(s', s.left[i]) == Over(s, s.left[i]);
  }

  lemma LeaveJoins(s: State, s': State, t: Thread)
    requires Joins(s) && t in s.workers && t !in s.left && !AfterJoin(s.stage) && s'.stage == s.stage && s'.joined == s.joined
    requires s'.workers == s.workers[t := if s.left != [] then Joining(s.left[|s.left| - 1]) else Gone] && s'.left == s.left + [t]
    ensures Joins(s')
  {
    var n := |s.left|;
    forall i: nat | i < n ensures JoinCount(s', i) == JoinCount(s, i) && s'.left[i] == s.left[i] {
      if i + 1 == n { assert !Over(s', t); }
    }
    assert s'.left[n] == t && JoinCount(s', n) == 0 && s.joined[t] == 0;
  }

  lemma LeaveCounts(s: State, s': State, t: Thread)
    requires Counts(s) && t in s.counted && t in s.workers && s'.counted == s.counted - {t} && s'.nthreads == s.nthreads - 1
    requires t in s'.workers && !Inside(s'.workers[t]) && s'.workers == s.workers[t := s'.workers[t]]
    requires s'.destroyer == s.destroyer && s'.stage == s.stage && !AfterAll(s.stage)
    ensures Counts(s')
  {
    assert |s'.counted| == |s.counted| - 1;
  }

  lemma LeaveStages(s: State, s': State, t: Thread)
    requires Stages(s) && t in s.workers && s.workers[t].Leaving? && Enabled(s, Leave(t)) && !AfterAll(s.stage) && !IsDestroyer(s, t) && s.terminate
    requires s' == Next(s, Leave(t))
    ensures Stages(s')
  {
  }

  lemma JoinKept(s: State, t: Thread)
    requires Inv(s) && Enabled(s, Join(t))
    ensures Inv(Next(s, Join(t)))
  {
    var s' := Next(s, Join(t));
    assert t in s.left;
    var i :| 0 <= i < |s.left| && s.left[i] == t;
    JoinChain(s, s', t, i);
    JoinJoins(s, s', t, i);
    JoinOthers(s, s', t);
  }

  lemma JoinChain(s: State, s': State, t: Thread, i: nat)
    requires Chain(s) && i < |s.left| && s.left[i] == t && t in s.workers && s.workers[t].Joining?
    requires s.workers[t].t in s.workers && s.workers[s.workers[t].t].Gone?
    requires s'.workers == s.workers[t := Gone] && s'.left == s.left && s'.tid == s.tid && s'.destroyer == s.destroyer
    ensures Chain(s') && i > 0 && s.workers[t] == Joining(s.left[i - 1]) && !IsDestroyer(s, t)
  {
    assert Linked(s, i);
    forall j: nat | j < |s.left| ensures Linked(s', j) {
      assert Linked(s, j);
    }
    forall j, k | 0 <= j < k < |s.left| && Over(s', s.left[k]) ensures Over(s', s.left[j]) {
      assert k == i || Over(s, s.left[k]);
      assert Over(s, s.left[i - 1]);
    }
  }

  lemma JoinJoins(s: State, s': State, t: Thread, i: nat)
    requires Joins(s) && 0 < i < |s.left| && s.left[i] == t && t in s.workers && s.workers[t] == Joining(s.left[i - 1])
    requires forall j, k :: 0 <= j < k < |s.left| ==> s.left[j] != s.left[k]
    requires s'.workers == s.workers[t := Gone] && s'.left == s.left && s'.stage == s.stage
    requires s'.joined == s.joined + multiset{s.left[i - 1]}
    ensures Joins(s')
  {
    hide JoinCount, Over;
    JoinCountUp(s, s', t, i);
    forall j: nat | j < |s.left| && j != i - 1
      ensures s'.joined[s.left[j]] == s.joined[s.left[j]] && JoinCount(s', j) == JoinCount(s, j)
    {
      JoinCountSame(s, s', t, i, j);
    }
  }

  lemma JoinCountUp(s: State, s': State, t: Thread, i: nat)
    requires 0 < i < |s.left| && s.left[i] == t && t in s.workers && s.workers[t].Joining?
    requires s'.workers == s.workers[t := Gone] && s'.left == s.left
    ensures JoinCount(s, i - 1) == 0 && JoinCount(s', i - 1) == 1
  {
  }

  lemma JoinCountSame(s: State, s': State, t: Thread, i: nat, j: nat)
    requires 0 < i < |s.left| && s.left[i] == t && j < |s.left| && j != i - 1
    requires forall j, k :: 0 <= j < k < |s.left| ==> s.left[j] != s.left[k]
    requires s'.workers == s.workers[t := Gone] && s'.left == s.left && s'.stage == s.stage && t in s.workers
    ensures s.left[j] != s.left[i - 1] && JoinCount(s', j) == JoinCount(s, j)
  {
    if j + 1 < |s.left| { assert s.left[j + 1] != t; }
  }

  lemma JoinOthers(s: State, s': State, t: Thread)
    requires Counts(s) && Stages(s) && Tasks(s) && t in s.workers && s.workers[t].Joining? && Enabled(s, Join(t)) && s' == Next(s, Join(t))
    requires !IsDestroyer(s, t)
    ensures Counts(s') && Stages(s') && Tasks(s')
  {
  }

  // ---------------------------------------------------------------------------------
  // The destroyer

  // Back from a task a worker finds the count at 0 exactly when that task destroyed the pool.
  lemma CountsTellsDestroyed(s: State, t: Thread)
    requires Inv(s) && Enabled(s, Check(t))
    ensures s.nthreads == 0 <==> IsDestroyer(s, t)
    ensures IsDestroyer(s, t) ==> s.stage.Returned? && s.queue == [] && !s.freed
  {
    if !IsDestroyer(s, t) {
      assert t in s.counted;
    }
  }

  lemma CheckKept(s: State, t: Thread)
    requires Inv(s) && Enabled(s, Check(t))
    ensures Inv(Next(s, Check(t)))
  {
    CountsTellsDestroyed(s, t);
    TasksKept(s, Check(t));
    if IsDestroyer(s, t) {
      GoneKept(s, Next(s, Check(t)), t);
    } else {
      BackStages(s, Next(s, Check(t)), t);
      BackRest(s, Next(s, Check(t)), t);
    }
  }

  lemma BackStages(s: State, s': State, t: Thread)
    requires Stages(s) && t in s.workers && s.workers[t].Checking? && !IsDestroyer(s, t) && s' == Move(s, t, Testing)
    ensures Stages(s')
  {
  }

  lemma BackRest(s: State, s': State, t: Thread)
    requires Chain(s) && Joins(s) && Counts(s) && t in s.workers && s.workers[t].Checking? && s' == Move(s, t, Testing)
    ensures Chain(s') && Joins(s') && Counts(s')
  {
    HarmlessRest(s, s');
  }

  lemma GoneKept(s: State, s': State, t: Thread)
    requires Counts(s) && Chain(s) && Joins(s) && Stages(s) && t in s.workers && s.workers[t].Checking? && IsDestroyer(s, t) && s.stage.Returned?
    requires s' == Move(s, t, Gone).(freed := true)
    ensures Counts(s') && Chain(s') && Joins(s') && Stages(s')
  {
    InsideIsNew(s, t);
    DestroyerChain(s, s', t, Gone);
    DestroyerJoins(s, s', t, Gone);
  }

  lemma DestroyerChain(s: State, s': State, t: Thread, pc: Pc)
    requires Chain(s) && t in s.workers && t !in s.left && IsDestroyer(s, t) && !pc.Joining?
    requires s'.workers == s.workers[t := pc] && s'.left == s.left && s'.tid == s.tid && s'.destroyer == s.destroyer
    ensures Chain(s')
  {
    forall i: nat | i < |s.left| ensures Linked(s', i) {
      assert Linked(s, i);
    }
    forall i, j | 0 <= i < j < |s.left| && Over(s', s.left[j]) ensures Over(s', s.left[i]) {
      assert Over(s, s.left[j]);
    }
  }

  lemma DestroyerJoins(s: State, s': State, t: Thread, pc: Pc)
    requires Joins(s) && t in s.workers && t !in s.left && AfterJoin(s'.stage) == AfterJoin(s.stage)
    requires s'.workers == s.workers[t := pc] && s'.left == s.left && s'.joined == s.joined
    ensures Joins(s')
  {
    forall i: nat | i < |s.left| ensures JoinCount(s', i) == JoinCount(s, i) {
      if i + 1 < |s.left| { assert s.left[i + 1] != t; }
    }
  }

  lemma DetachKept(s: State)
    requires Inv(s) && Enabled(s, Detach)
    ensures Inv(Next(s, Detach))
  {
    var s' := Next(s, Detach);
    TasksKept(s, Detach);
    DetachCounts(s, s');
    DetachRest(s, s');
  }

  lemma DetachCounts(s: State, s': State)
    requires Counts(s) && Stages(s) && Enabled(s, Detach) && s' == Next(s, Detach)
    ensures Counts(s')
  {
    if s.destroyer.Some? {
      assert s.destroyer.value in s.counted;
      assert |s'.counted| == |s.counted| - 1;
    }
  }

  lemma DetachRest(s: State, s': State)
    requires Chain(s) && Joins(s) && Stages(s) && Enabled(s, Detach) && s' == Next(s, Detach)
    ensures Chain(s') && Joins(s') && Stages(s')
  {
    assert s.left == [];
  }

  lemma JoinLastKept(s: State)
    requires Inv(s) && Enabled(s, JoinLast)
    ensures Inv(Next(s, JoinLast))
  {
    var s' := Next(s, JoinLast);
    TasksKept(s, JoinLast);
    JoinLastJoins(s, s');
    JoinLastRest(s, s');
  }

  lemma JoinLastJoins(s: State, s': State)
    requires Joins(s) && s.tid == (if s.left == [] then None else Some(s.left[|s.left| - 1]))
    requires forall i, j :: 0 <= i < j < |s.left| ==> s.left[i] != s.left[j]
    requires s.stage.JoiningLast? && AfterJoin(s'.stage) && s'.left == s.left && s'.workers == s.workers
    requires s'.joined == if s.tid.Some? then s.joined + multiset{s.tid.value} else s.joined
    ensures Joins(s')
  {
    forall i: nat | i < |s.left| ensures s'.joined[s.left[i]] == JoinCount(s', i) {
      assert s.joined[s.left[i]] == JoinCount(s, i);
    }
  }

  lemma JoinLastRest(s: State, s': State)
    requires Counts(s) && Chain(s) && Stages(s) && Enabled(s, JoinLast) && s' == Next(s, JoinLast)
    ensures Counts(s') && Chain(s') && Stages(s')
  {
    forall i: nat | i < |s.left| ensures Linked(s', i) {
      assert Linked(s, i);
    }
  }

  lemma ReleaseKept(s: State)
    requires Inv(s) && Enabled(s, Release)
    ensures Inv(Next(s, Release))
  {
    var s' := Next(s, Release);
    TasksKept(s, Release);
    ReleaseStages(s, s');
    if s.destroyer.Some? {
      var t := s.destroyer.value;
      InsideIsNew(s, t);
      DestroyerChain(s, s', t, Checking);
      DestroyerJoins(s, s', t, Checking);
    } else {
      HarmlessRest(s, s');
    }
  }

  lemma ReleaseStages(s: State, s': State)
    requires Counts(s) && Stages(s) && Enabled(s, Release)
    requires s.destroyer.Some? ==> s.destroyer.value in s.workers
    requires s' == Next(s, Release)
    ensures Counts(s') && Stages(s')
  {
  }

  // ---------------------------------------------------------------------------------
  // Every step and every run

  lemma Kept(s: State, a: Action)
    requires Inv(s) && Enabled(s, a)
    ensures Inv(Next(s, a))
  {
    match a
    case Check(t) => CheckKept(s, t);
    case Leave(t) => LeaveKept(s, t);
    case Join(t) => JoinKept(s, t);
    case Detach => DetachKept(s);
    case JoinLast => JoinLastKept(s);
    case Release => ReleaseKept(s);
    case _ => HarmlessKept(s, a);
  }

  // A run: each action is enabled where it is taken.
  ghost predicate Run(s: State, actions: seq<Action>, end: State)
    decreases |actions|
  {
    if actions == [] then s == end
    else Enabled(s, actions[0]) && Run(Next(s, actions[0]), actions[1..], end)
  }

  lemma {:induction false} Always(s: State, actions: seq<Action>, end: State)
    requires Inv(s) && Run(s, actions, end)
    ensures Inv(end)
    decreases |actions|
  {
    if actions != [] {
      Kept(s, actions[0]);
      Always(Next(s, actions[0]), actions[1..], end);
    }
  }

  lemma Reached(init: State, actions: seq<Action>, s: State)
    requires Init(init) && Run(init, actions, s)
    ensures Inv(s)
  {
    InitInv(init);
    Always(init, actions, s);
  }

  // When thrdpool_destroy returns, every task ever scheduled has been run or handed to pending, once.
  lemma EveryTaskOnce(init: State, actions: seq<Action>, s: State)
    requires Init(init) && Run(init, actions, s)
    ensures s.scheduled == multiset(s.queue) + s.ran + s.pended
    ensures s.stage.Returned? ==> s.scheduled == s.ran + s.pended
  {
    Reached(init, actions, s);
  }

  // Nobody is ever joined twice, and when thrdpool_destroy returns every worker has been joined, except
  // the one that destroyed the pool, which has been detached.
  lemma EveryWorkerJoinedOnce(init: State, actions: seq<Action>, s: State, t: Thread)
    requires Init(init) && Run(init, actions, s) && t in s.workers
    ensures s.joined[t] <= 1
    ensures s.joined[t] == 1 ==> Over(s, t)
    ensures s.stage.Returned? ==> s.joined[t] == if IsDestroyer(s, t) then 0 else 1
  {
    Reached(init, actions, s);
    if t in s.left {
      var i: nat :| i < |s.left| && s.left[i] == t;
      JoinedOnce(s, i);
    } else {
      NotLeft(s, t);
    }
  }

  lemma JoinedOnce(s: State, i: nat)
    requires Inv(s) && i < |s.left|
    ensures s.joined[s.left[i]] <= 1 && !IsDestroyer(s, s.left[i])
    ensures s.joined[s.left[i]] == 1 ==> Over(s, s.left[i])
    ensures AfterJoin(s.stage) ==> s.joined[s.left[i]] == 1
  {
    assert s.joined[s.left[i]] == JoinCount(s, i);
    JoinCountTells(s, i);
  }

  lemma JoinCountTells(s: State, i: nat)
    requires Chain(s) && Stages(s) && i < |s.left|
    ensures !IsDestroyer(s, s.left[i]) && (AfterJoin(s.stage) ==> JoinCount(s, i) == 1)
    ensures JoinCount(s, i) == 1 ==> Over(s, s.left[i])
  {
    assert Linked(s, i);
    if AfterJoin(s.stage) {
      assert Over(s, s.left[|s.left| - 1]);
    }
  }

  lemma NotLeft(s: State, t: Thread)
    requires Inv(s) && t in s.workers && t !in s.left
    ensures s.joined[t] == 0 && (s.stage.Returned? ==> IsDestroyer(s, t))
  {
    if s.stage.Returned? && !IsDestroyer(s, t) {
      assert t !in s.counted;
      assert Inside(s.workers[t]);
    }
  }

  // Whoever brings the count to 0 signals a condition variable that is there, and that somebody waits on.
  lemma TerminateBeforeSignal(init: State, actions: seq<Action>, s: State, t: Thread)
    requires Init(init) && Run(init, actions, s) && Enabled(s, Leave(t))
    ensures s.terminate && s.stage.WaitingForAll?
  {
    Reached(init, actions, s);
    LeaveIsCounted(s, t);
  }

  // The pool is not freed before everyone is gone, so nothing touches it afterwards.
  lemma NothingAfterFree(init: State, actions: seq<Action>, s: State, a: Action)
    requires Init(init) && Run(init, actions, s) && s.freed
    ensures (forall t :: t in s.workers ==> Over(s, t)) && !Enabled(s, a)
  {
    Reached(init, actions, s);
    forall t | t in s.workers ensures Over(s, t) {
      if !IsDestroyer(s, t) {
        EveryWorkerJoinedOnce(init, actions, s, t);
      }
    }
  }

  // From the moment someone destroys the pool there is always a step to take until it is freed.
  lemma NeverStuck(init: State, actions: seq<Action>, s: State) returns (a: Action)
    requires Init(init) && Run(init, actions, s) && !s.stage.NotBegun? && !s.freed
    ensures Enabled(s, a)
  {
    Reached(init, actions, s);
    if s.stage.WaitingForAll? {
      a := SomeoneMoves(s);
    } else if s.stage.JoiningLast? {
      a := ChainMoves(s);
    } else if s.stage.Returned? {
      a := Check(s.destroyer.value);
    } else {
      a := if s.stage.Locked? then SetNonblock else if s.stage.NonblockSet? then SetTerminate
           else if s.stage.TerminateSet? then Detach else if s.stage.Draining? then Drain else Release;
    }
  }

  lemma SomeoneMoves(s: State) returns (a: Action)
    requires Inv(s) && s.stage.WaitingForAll?
    ensures Enabled(s, a)
  {
    if s.nthreads == 0 {
      a := AllGone;
    } else {
      assert s.counted != {};
      var t :| t in s.counted;
      a := match s.workers[t] {
        case Testing => Test(t)
        case Getting => Get(t)
        case Working(_) => Return(t)
        case Checking => Check(t)
        case _ => Leave(t)
      };
    }
  }

  lemma ChainMoves(s: State) returns (a: Action)
    requires Inv(s) && s.stage.JoiningLast?
    ensures Enabled(s, a)
  {
    var i: nat := 0;
    while i < |s.left| && Over(s, s.left[i])
      invariant i <= |s.left|
      invariant forall j :: 0 <= j < i ==> Over(s, s.left[j])
    {
      i := i + 1;
    }
    if i == |s.left| {
      a := JoinLast;
    } else {
      assert Linked(s, i);
      a := Join(s.left[i]);
    }
  }
  // ---------------------------------------------------------------------------------
  // In which order, and how many more

  // The tasks scheduled in a run, and those taken out of the queue: to be run, or to be handed to pending
  function Scheduled(s: State, actions: seq<Action>): seq<Task>
    decreases |actions|
  {
    if actions == [] || !Enabled(s, actions[0]) then []
    else (if actions[0].Schedule? then [actions[0].task] else []) + Scheduled(Next(s, actions[0]), actions[1..])
  }

  function TakenBy(s: State, a: Action): seq<Task>
    requires Enabled(s, a)
  {
    if a.Get? && Next(s, a).workers[a.t].Working? then [Next(s, a).workers[a.t].task]
    else if a.Drain? && s.queue != [] then [s.queue[0]]
    else []
  }

  function Taken(s: State, actions: seq<Action>): seq<Task>
    decreases |actions|
  {
    if actions == [] || !Enabled(s, actions[0]) then []
    else TakenBy(s, actions[0]) + Taken(Next(s, actions[0]), actions[1..])
  }

  lemma QueueStays(s: State, a: Action)
    requires Enabled(s, a) && !a.Schedule? && !a.Get? && !a.Drain?
    ensures Next(s, a).queue == s.queue && TakenBy(s, a) == []
  {
  }

  lemma HeadTaken(s: State, a: Action)
    requires Enabled(s, a) && (a.Get? || a.Drain?)
    ensures s.queue == TakenBy(s, a) + Next(s, a).queue
  {
    if s.queue != [] { assert s.queue == [s.queue[0]] + s.queue[1..]; }
  }

  lemma QueueMoves(s: State, a: Action)
    requires Enabled(s, a)
    ensures s.queue + (if a.Schedule? then [a.task] else []) == TakenBy(s, a) + Next(s, a).queue
  {
    if a.Schedule? {
      assert TakenBy(s, a) == [];
    } else {
      hide Next, TakenBy, Enabled;
      if a.Get? || a.Drain? { HeadTaken(s, a); } else { QueueStays(s, a); }
    }
  }

  lemma {:induction false} InOrderFrom(s: State, actions: seq<Action>, end: State)
    requires Run(s, actions, end)
    ensures s.queue + Scheduled(s, actions) == Taken(s, actions) + end.queue
    decreases |actions|
  {
    hide Enabled, Next, TakenBy;
    if actions == [] {
      assert s.queue + [] == [] + s.queue;
    } else {
      var a, s', rest := actions[0], Next(s, actions[0]), actions[1..];
      QueueMoves(s, a);
      InOrderFrom(s', rest, end);
      var added := if a.Schedule? then [a.task] else [];
      assert s.queue + (added + Scheduled(s', rest)) == (s.queue + added) + Scheduled(s', rest);
      assert (TakenBy(s, a) + s'.queue) + Scheduled(s', rest) == TakenBy(s, a) + (s'.queue + Scheduled(s', rest));
      assert TakenBy(s, a) + (Taken(s', rest) + end.queue) == (TakenBy(s, a) + Taken(s', rest)) + end.queue;
    }
  }

  // Tasks are started, or handed to pending, in the order in which they were scheduled.
  lemma FirstScheduledFirst(init: State, actions: seq<Action>, s: State)
    requires Init(init) && Run(init, actions, s)
    ensures Scheduled(init, actions) == Taken(init, actions) + s.queue
  {
    InOrderFrom(init, actions, s);
    assert [] + Scheduled(init, actions) == Scheduled(init, actions);
  }

  // The workers that have made up their minds to take another task
  function AboutToGet(s: State): set<Thread> {
    set t | t in s.workers && s.workers[t].Getting?
  }

  lemma GetTakesOne(s: State, t: Thread)
    requires Enabled(s, Get(t))
    ensures var s' := Next(s, Get(t));
      s'.terminate == s.terminate && AboutToGet(s') == AboutToGet(s) - {t} && t in AboutToGet(s) && |s'.ran| <= |s.ran| + 1
  {
  }

  lemma NobodyDecides(s: State, a: Action)
    requires Enabled(s, a) && !a.Get? && s.terminate
    ensures var s' := Next(s, a); s'.terminate && AboutToGet(s') <= AboutToGet(s) && s'.ran == s.ran
  {
    match a
    case Test(_) =>
    case Return(_) =>
    case DestroyInside(_) =>
    case Check(_) =>
    case Leave(_) =>
    case Join(_) =>
    case Release =>
    case _ =>
  }

  lemma FewerToGet(s: State, a: Action)
    requires Enabled(s, a) && s.terminate
    ensures Next(s, a).terminate
    ensures |Next(s, a).ran| + |AboutToGet(Next(s, a))| <= |s.ran| + |AboutToGet(s)|
  {
    hide Next, Enabled, AboutToGet;
    if a.Get? {
      GetTakesOne(s, a.t);
    } else {
      NobodyDecides(s, a);
      SubsetSize(AboutToGet(Next(s, a)), AboutToGet(s));
    }
  }

  lemma SubsetSize(a: set<Thread>, b: set<Thread>)
    requires a <= b
    ensures |a| <= |b|
  {
    assert b == a + (b - a);
  }

  // Once the pool is to terminate, no worker starts more than the one task it was about to get.
  lemma {:induction false} AtMostOneMoreEach(s: State, more: seq<Action>, end: State)
    requires s.terminate && Run(s, more, end)
    ensures |end.ran| <= |s.ran| + |AboutToGet(s)|
    decreases |more|
  {
    hide Enabled, Next, AboutToGet;
    if more != [] {
      FewerToGet(s, more[0]);
      AtMostOneMoreEach(Next(s, more[0]), more[1..], end);
    }
  }
}
