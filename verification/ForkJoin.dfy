/**
  src/task/SubTask.cc with the series and parallel works of src/factory/Workflow.cc: the driver
  that runs a finite tree of tasks, whoever finishes when.

  A step is what one thread does between two points where another can interfere: a task's done
  with the pop of its series, one turn of the loop of ParallelTask::dispatch, one atomic
  decrement of nleft.  A nested dispatch is let go on by itself, which only adds behaviours.
 */
module ForkJoin {
  import opened Collections

  type Task = nat
  type Series = nat

  // The tree: the tasks of each series and the series of each parallel task; and, as an index
  // into it, where each task and each sub-series stands.
  datatype Shape = Shape(
    tasks: map<Series, seq<Task>>,
    subs: map<Task, seq<Series>>,
    root: Series,
    home: map<Task, Series>, slot: map<Task, nat>,
    owner: map<Series, Task>, rank: map<Series, nat>,
    height: map<Task, nat>)

  predicate SlotOk(sh: Shape, x: Series, i: nat) {
    x in sh.tasks && i < |sh.tasks[x]| ==>
      var t := sh.tasks[x][i]; t in sh.home && t in sh.slot && t in sh.height && sh.home[t] == x && sh.slot[t] == i
  }

  predicate HomeOk(sh: Shape, t: Task) {
    t in sh.home ==>
      t in sh.slot && (var x := sh.home[t]; x in sh.tasks && sh.slot[t] < |sh.tasks[x]| && sh.tasks[x][sh.slot[t]] == t)
  }

  predicate SubOk(sh: Shape, p: Task, k: nat) {
    p in sh.subs && k < |sh.subs[p]| ==>
      var x := sh.subs[p][k]; x in sh.tasks && x in sh.owner && x in sh.rank && sh.owner[x] == p && sh.rank[x] == k && x != sh.root
  }

  predicate OwnerOk(sh: Shape, x: Series) {
    x in sh.owner ==>
      x in sh.rank && x in sh.tasks
      && (var p := sh.owner[x]; p in sh.subs && sh.rank[x] < |sh.subs[p]| && sh.subs[p][sh.rank[x]] == x)
  }

  predicate Lower(sh: Shape, x: Series, i: nat) {
    x in sh.owner && x in sh.tasks && i < |sh.tasks[x]| ==>
      var t, p := sh.tasks[x][i], sh.owner[x]; t in sh.height && p in sh.height && sh.height[t] < sh.height[p]
  }

  // Each task has one place in one series, each series but the root one place in one parallel
  // task that is higher than all its tasks.
  ghost predicate Tree(sh: Shape) {
    && sh.root in sh.tasks && sh.root !in sh.owner
    && (forall x {:trigger sh.tasks[x]} :: x in sh.tasks ==> sh.tasks[x] != [])
    && (forall x {:trigger x in sh.owner} :: x in sh.tasks && x != sh.root ==> x in sh.owner)
    && (forall x, i :: SlotOk(sh, x, i))
    && (forall t {:trigger HomeOk(sh, t)} :: HomeOk(sh, t))
    && (forall p {:trigger p in sh.subs} :: p in sh.subs ==> p in sh.home)
    && (forall p, k :: SubOk(sh, p, k))
    && (forall x :: OwnerOk(sh, x))
    && (forall x, i :: Lower(sh, x, i))
  }

  // What Tree says at one place
  lemma TreeAt(sh: Shape, x: Series, i: nat)
    requires Tree(sh)
    ensures SlotOk(sh, x, i) && Lower(sh, x, i) && OwnerOk(sh, x) && (x in sh.tasks ==> sh.tasks[x] != [])
    ensures sh.root in sh.tasks && sh.root !in sh.owner
  {
  }

  lemma TreeOf(sh: Shape, u: Task)
    requires Tree(sh)
    ensures HomeOk(sh, u) && (u in sh.subs ==> u in sh.home)
  {
  }

  lemma TreeBelow(sh: Shape, p: Task, j: nat)
    requires Tree(sh)
    ensures SubOk(sh, p, j)
  {
  }

  function Place(sh: Shape, x: Series, i: nat): Option<Task> {
    if x in sh.tasks && i < |sh.tasks[x]| then Some(sh.tasks[x][i]) else None
  }

  function ParentOf(sh: Shape, t: Task): Option<Task> {
    if t in sh.home && sh.home[t] in sh.owner then Some(sh.owner[sh.home[t]]) else None
  }

  datatype Status =
    | Queued
    | Running                 // dispatched, at work
    | Forking(next: nat)      // in the loop of dispatch, about to start sub-series next
    | Waiting                 // all sub-series started
    | Completing              // about to call done
    | Ended                   // was the last of its series, about to count it off
    | Over

  datatype State = State(
    status: map<Task, Status>,
    parent: map<Task, Option<Task>>,
    nleft: map<Task, int>,
    closed: set<Series>,              // series that have been counted off, or the root at its end
    popped: map<Series, nat>,         // tasks taken out of each series so far
    dispatched: multiset<Task>,       // history
    done: multiset<Task>)             // history: done() calls

  datatype Action = Fork(p: Task) | Work(t: Task) | Finish(t: Task) | CountOff(t: Task)

  // dispatch of a task: a leaf starts to run, a parallel task starts its loop (SubTask.cc:30-46)
  function Dispatched(sh: Shape, s: State, t: Task, parent: Option<Task>): State {
    var s1 := s.(parent := s.parent[t := parent], dispatched := s.dispatched + multiset{t});
    if t !in sh.subs then s1.(status := s1.status[t := Running])
    else
      var n := |sh.subs[t]|;
      s1.(nleft := s1.nleft[t := n], status := s1.status[t := if n == 0 then Completing else Forking(0)])
  }

  function Taken(s: State, series: Series, n: nat): State {
    s.(popped := s.popped[series := n])
  }

  ghost predicate Init(sh: Shape, s: State) {
    && sh.root in sh.tasks && sh.tasks[sh.root] != []
    && exists s0 :: Blank(sh, s0) && s == Dispatched(sh, Taken(s0, sh.root, 1), sh.tasks[sh.root][0], None)
  }

  ghost predicate Blank(sh: Shape, s: State) {
    && s.status.Keys == sh.home.Keys && (forall t :: t in s.status ==> s.status[t] == Queued)
    && s.parent == map[] && s.nleft == map[] && s.closed == {} && s.popped.Keys == sh.tasks.Keys
    && (forall x :: x in s.popped ==> s.popped[x] == 0) && s.dispatched == s.done == multiset{}
  }

  predicate Is(s: State, t: Task, st: Status) {
    t in s.status && s.status[t] == st
  }

  ghost predicate Enabled(sh: Shape, s: State, a: Action) {
    match a
    case Fork(p) => p in s.status && s.status[p].Forking? && p in sh.subs && s.status[p].next < |sh.subs[p]|
                    && Place(sh, sh.subs[p][s.status[p].next], 0).Some?
    case Work(t) => Is(s, t, Running)
    case Finish(t) => Is(s, t, Completing) && t in sh.home && sh.home[t] in s.popped && t in s.parent
    case CountOff(t) => Is(s, t, Ended) && t in s.parent && t in sh.home
                        && (s.parent[t].Some? ==> s.parent[t].value in s.nleft)
  }

  ghost function Next(sh: Shape, s: State, a: Action): State
    requires Enabled(sh, s, a)
  {
    match a
    case Fork(p) =>
      // SubTask.cc:38-42
      var k := s.status[p].next;
      var x := sh.subs[p][k];
      var s1 := s.(status := s.status[p := if k + 1 == |sh.subs[p]| then Waiting else Forking(k + 1)]);
      Dispatched(sh, Taken(s1, x, 1), sh.tasks[x][0], Some(p))
    case Work(t) => s.(status := s.status[t := Completing])
    case Finish(t) =>
      // SubTask.cc:10-16: done pops the series; a successor inherits the parent
      var x := sh.home[t];
      var next := Place(sh, x, s.popped[x]);
      var s1 := s.(done := s.done + multiset{t});
      if next.Some? then Dispatched(sh, Taken(s1.(status := s1.status[t := Over]), x, s.popped[x] + 1), next.value, s.parent[t])
      else s1.(status := s1.status[t := Ended])
    case CountOff(t) =>
      // SubTask.cc:17-26
      var s1 := s.(status := s.status[t := Over], closed := s.closed + {sh.home[t]});
      if s.parent[t].None? then s1
      else
        var p := s.parent[t].value;
        var left := s.nleft[p] - 1;
        s1.(nleft := s.nleft[p := left], status := if left == 0 then s1.status[p := Completing] else s1.status)
  }

  // ---------------------------------------------------------------------------------

  predicate Active(st: Status) {
    !st.Queued? && !st.Over?
  }

  // The sub-series not counted off yet
  function Open(subs: seq<Series>, closed: set<Series>): nat {
    if subs == [] then 0 else Open(subs[..|subs| - 1], closed) + if subs[|subs| - 1] in closed then 0 else 1
  }

  // How many sub-series of a parallel task have been started
  function Started(n: nat, st: Status): nat {
    match st
    case Queued => 0
    case Forking(k) => k
    case _ => n
  }

  // In a series the tasks before the one taken last are over, and those after it are queued.
  ghost predicate TaskInOrder(st: Status, i: nat, taken: nat, n: nat, closed: bool) {
    && (i >= taken <==> st.Queued?)
    && (i + 1 < taken ==> st.Over?)
    && (i + 1 == taken ==> (st.Over? <==> closed) && (st.Ended? || st.Over? ==> taken == n))
  }

  ghost predicate InOrder(sh: Shape, s: State, x: Series)
    requires x in sh.tasks && x in s.popped
  {
    var ts := sh.tasks[x];
    && s.popped[x] <= |ts| && (x in s.closed ==> s.popped[x] == |ts| && |ts| > 0)
    && forall i :: 0 <= i < |ts| ==> ts[i] in s.status && TaskInOrder(s.status[ts[i]], i, s.popped[x], |ts|, x in s.closed)
  }

  // A sub-series is untouched until its parallel task starts it.
  ghost predicate SubsInOrder(sh: Shape, s: State, p: Task)
    requires p in sh.subs && p in s.status
  {
    var xs, st := sh.subs[p], s.status[p];
    var n := Started(|xs|, st);
    && n <= |xs| && (st.Forking? ==> n < |xs|) && !st.Running?
    && (forall k :: 0 <= k < |xs| ==> xs[k] in s.popped && (s.popped[xs[k]] > 0 <==> k < n))
    && (st.Forking? || st.Waiting? ==> p in s.nleft && s.nleft[p] == Open(xs, s.closed) > 0)
    && (st.Completing? || st.Ended? || st.Over? ==> Open(xs, s.closed) == 0)
  }

  ghost predicate TaskOk(sh: Shape, s: State, t: Task)
    requires t in s.status
  {
    && (!s.status[t].Queued? ==> t in s.parent && s.parent[t] == ParentOf(sh, t))
    && (t !in sh.subs ==> !s.status[t].Forking? && !s.status[t].Waiting?)
    && s.dispatched[t] == (if s.status[t].Queued? then 0 else 1)
    && s.done[t] == (if s.status[t].Ended? || s.status[t].Over? then 1 else 0)
  }

  ghost predicate Inv(sh: Shape, s: State) {
    && Tree(sh) && s.status.Keys == sh.home.Keys && s.popped.Keys == sh.tasks.Keys && s.popped[sh.root] > 0
    && (forall x :: x in sh.tasks ==> InOrder(sh, s, x))
    && (forall p :: p in sh.subs ==> SubsInOrder(sh, s, p))
    && (forall t :: t in s.status ==> TaskOk(sh, s, t))
  }

  // ---------------------------------------------------------------------------------

  lemma {:induction false} OpenCongruent(subs: seq<Series>, a: set<Series>, b: set<Series>)
    requires forall k :: 0 <= k < |subs| ==> (subs[k] in a <==> subs[k] in b)
    ensures Open(subs, a) == Open(subs, b)
  {
    if subs != [] { OpenCongruent(subs[..|subs| - 1], a, b); }
  }

  lemma {:induction false} OpenLess(subs: seq<Series>, closed: set<Series>, k: nat)
    requires k < |subs| && subs[k] !in closed && forall i, j :: 0 <= i < j < |subs| ==> subs[i] != subs[j]
    ensures Open(subs, closed + {subs[k]}) == Open(subs, closed) - 1
  {
    var n := |subs| - 1;
    if k == n {
      OpenCongruent(subs[..n], closed, closed + {subs[k]});
    } else {
      OpenLess(subs[..n], closed, k);
    }
  }

  lemma {:induction false} OpenWitness(subs: seq<Series>, closed: set<Series>, k: nat)
    requires k < |subs| && subs[k] !in closed
    ensures Open(subs, closed) > 0
  {
    if k < |subs| - 1 { OpenWitness(subs[..|subs| - 1], closed, k); }
  }

  lemma {:induction false} OpenAll(subs: seq<Series>, closed: set<Series>)
    requires forall k :: 0 <= k < |subs| ==> subs[k] !in closed
    ensures Open(subs, closed) == |subs|
  {
    if subs != [] { OpenAll(subs[..|subs| - 1], closed); }
  }

  // The active task of a series is the one taken last.
  lemma Current(sh: Shape, s: State, t: Task)
    requires Inv(sh, s) && t in sh.home && Active(s.status[t])
    ensures t in sh.slot && sh.home[t] in sh.tasks
    ensures var x := sh.home[t]; sh.slot[t] + 1 == s.popped[x] <= |sh.tasks[x]| && sh.tasks[x][sh.slot[t]] == t && x !in s.closed
  {
    assert HomeOk(sh, t);
    assert InOrder(sh, s, sh.home[t]);
  }

  // Steps that change the status of task t only, between active stages
  ghost predicate SameStage(a: Status, b: Status) {
    (a.Queued? <==> b.Queued?) && (a.Over? <==> b.Over?) && (b.Ended? ==> a.Ended?)
  }

  lemma SeriesSame(sh: Shape, s: State, s': State, x: Series)
    requires x in sh.tasks && x in s.popped && x in s'.popped && InOrder(sh, s, x)
    requires s'.popped[x] == s.popped[x] && (x in s'.closed <==> x in s.closed)
    requires forall i :: 0 <= i < |sh.tasks[x]| ==>
      var t := sh.tasks[x][i]; t in s'.status && (t in s.status ==> SameStage(s.status[t], s'.status[t]))
    ensures InOrder(sh, s', x)
  {
  }

  lemma SubsSame(sh: Shape, s: State, s': State, p: Task)
    requires p in sh.subs && p in s.status && p in s'.status && SubsInOrder(sh, s, p) && s'.status[p] == s.status[p]
    requires forall k :: 0 <= k < |sh.subs[p]| ==>
      var x := sh.subs[p][k]; (x in s'.closed <==> x in s.closed) && x in s'.popped && (x in s.popped ==> s'.popped[x] == s.popped[x])
    requires p in s.nleft ==> p in s'.nleft && s'.nleft[p] == s.nleft[p]
    ensures SubsInOrder(sh, s', p)
  {
    OpenCongruent(sh.subs[p], s.closed, s'.closed);
  }

  lemma WorkKept(sh: Shape, s: State, t: Task)
    requires Inv(sh, s) && Enabled(sh, s, Work(t))
    ensures Inv(sh, Next(sh, s, Work(t)))
  {
    var s' := Next(sh, s, Work(t));
    forall x | x in sh.tasks ensures InOrder(sh, s', x) { SeriesSame(sh, s, s', x); }
    forall p | p in sh.subs ensures SubsInOrder(sh, s', p) {
      assert SubsInOrder(sh, s, p);
      SubsSame(sh, s, s', p);
    }
    forall u | u in s'.status ensures TaskOk(sh, s', u) { assert TaskOk(sh, s, u); }
  }

  ghost predicate Keyed(sh: Shape, s: State) {
    s.status.Keys == sh.home.Keys && s.popped.Keys == sh.tasks.Keys
  }

  // t is next in its series.
  ghost predicate IsNext(sh: Shape, s: State, t: Task) {
    && t in sh.home && t in sh.slot && sh.home[t] in sh.tasks && sh.home[t] in s.popped
    && var x := sh.home[t];
    && s.popped[x] == sh.slot[t] < |sh.tasks[x]| && x !in s.closed && sh.tasks[x][sh.slot[t]] == t
    && forall i :: 0 <= i < |sh.tasks[x]| ==>
         sh.tasks[x][i] in s.status && if i < sh.slot[t] then s.status[sh.tasks[x][i]].Over? else s.status[sh.tasks[x][i]].Queued?
  }

  function Begun(sh: Shape, s: State, t: Task): State
    requires t in sh.home && t in sh.slot
  {
    Dispatched(sh, Taken(s, sh.home[t], sh.slot[t] + 1), t, ParentOf(sh, t))
  }

  lemma BegunHome(sh: Shape, s: State, s': State, t: Task, x: Series, k: nat)
    requires x in sh.tasks && k < |sh.tasks[x]| && x !in s'.closed && x in s'.popped && s'.popped[x] == k + 1
    requires forall i :: 0 <= i < |sh.tasks[x]| ==> sh.tasks[x][i] in s.status && (sh.tasks[x][i] == t <==> i == k)
    requires forall i :: 0 <= i < |sh.tasks[x]| ==> if i < k then s.status[sh.tasks[x][i]].Over? else s.status[sh.tasks[x][i]].Queued?
    requires t in s'.status && s'.status == s.status[t := s'.status[t]]
    requires s'.status[t].Running? || s'.status[t].Forking? || s'.status[t].Completing?
    ensures InOrder(sh, s', x)
  {
  }

  lemma Elsewhere(sh: Shape, t: Task, x: Series, i: nat)
    requires Tree(sh) && t in sh.home && t in sh.slot && x in sh.tasks && i < |sh.tasks[x]|
    ensures sh.tasks[x][i] == t <==> x == sh.home[t] && i == sh.slot[t]
  {
    assert SlotOk(sh, x, i) && HomeOk(sh, t);
  }

  lemma BegunStatus(sh: Shape, s: State, t: Task)
    requires t in sh.home && t in sh.slot
    ensures var s' := Begun(sh, s, t);
      && t in s'.status && s'.status == s.status[t := s'.status[t]] && s'.closed == s.closed
      && s'.popped == s.popped[sh.home[t] := sh.slot[t] + 1]
      && (s'.status[t].Running? || s'.status[t].Forking? || s'.status[t].Completing?)
  {
  }

  lemma BegunSeries(sh: Shape, s: State, t: Task, x: Series)
    requires Tree(sh) && Keyed(sh, s) && t in sh.home && IsNext(sh, s, t) && x in sh.tasks
    requires x != sh.home[t] ==> InOrder(sh, s, x)
    ensures InOrder(sh, Begun(sh, s, t), x)
  {
    BegunStatus(sh, s, t);
    forall i | 0 <= i < |sh.tasks[x]| ensures sh.tasks[x][i] == t <==> x == sh.home[t] && i == sh.slot[t] {
      Elsewhere(sh, t, x, i);
    }
    if x == sh.home[t] {
      BegunHome(sh, s, Begun(sh, s, t), t, x, sh.slot[t]);
    } else {
      SeriesSame(sh, s, Begun(sh, s, t), x);
    }
  }

  lemma BegunSubs(sh: Shape, s: State, t: Task, p: Task)
    requires Tree(sh) && Keyed(sh, s) && t in sh.home && IsNext(sh, s, t) && p in sh.subs
    requires forall x :: x in sh.tasks && x != sh.home[t] ==> InOrder(sh, s, x)
    requires SubsInOrder(sh, Taken(s, sh.home[t], sh.slot[t] + 1), p)
    ensures SubsInOrder(sh, Begun(sh, s, t), p)
  {
    var s1 := Taken(s, sh.home[t], sh.slot[t] + 1);
    assert sh.tasks[sh.home[t]][sh.slot[t]] == t;
    if p == t {
      forall k | 0 <= k < |sh.subs[p]| ensures sh.subs[p][k] !in s.closed {
        if sh.subs[p][k] != sh.home[t] { assert InOrder(sh, s, sh.subs[p][k]); }
      }
      ForkBegins(sh, s1, Begun(sh, s, t), p);
    } else {
      SubsSame(sh, s1, Begun(sh, s, t), p);
    }
  }

  lemma BegunTask(sh: Shape, s: State, t: Task, u: Task)
    requires Tree(sh) && Keyed(sh, s) && t in sh.home && IsNext(sh, s, t) && u in s.status && TaskOk(sh, s, u)
    ensures TaskOk(sh, Begun(sh, s, t), u)
  {
    assert sh.tasks[sh.home[t]][sh.slot[t]] == t;
  }

  lemma SubsAreTasks(sh: Shape)
    requires Tree(sh)
    ensures forall p :: p in sh.subs ==> p in sh.home
  {
  }

  lemma InvKeyed(sh: Shape, s: State)
    requires Inv(sh, s)
    ensures Tree(sh) && Keyed(sh, s) && sh.root in s.popped && s.popped[sh.root] > 0
  {
  }

  // The next task of a series is dispatched: s is the state before, but for the statuses of
  // its predecessor and of the parallel task that starts it.
  lemma DispatchKept(sh: Shape, s: State, t: Task)
    requires Tree(sh) && Keyed(sh, s) && t in sh.home && IsNext(sh, s, t)
    requires sh.home[t] == sh.root || s.popped[sh.root] > 0
    requires forall x :: x in sh.tasks && x != sh.home[t] ==> InOrder(sh, s, x)
    requires forall p :: p in sh.subs ==> SubsInOrder(sh, Taken(s, sh.home[t], sh.slot[t] + 1), p)
    requires forall u :: u in s.status ==> TaskOk(sh, s, u)
    ensures Inv(sh, Begun(sh, s, t))
  {
    hide Tree, InOrder, SubsInOrder, TaskOk;
    SubsAreTasks(sh);
    var s' := Begun(sh, s, t);
    forall x | x in sh.tasks ensures InOrder(sh, s', x) { BegunSeries(sh, s, t, x); }
    forall p | p in sh.subs ensures SubsInOrder(sh, s', p) { BegunSubs(sh, s, t, p); }
    forall u | u in s'.status ensures TaskOk(sh, s', u) { BegunTask(sh, s, t, u); }
  }

  lemma ForkBegins(sh: Shape, s: State, s': State, p: Task)
    requires Tree(sh) && p in sh.subs && p in s.status && s.status[p].Queued? && SubsInOrder(sh, s, p)
    requires forall k :: 0 <= k < |sh.subs[p]| ==> sh.subs[p][k] !in s.closed
    requires s'.popped == s.popped && s'.closed == s.closed && p in s'.status && p in s'.nleft && s'.nleft[p] == |sh.subs[p]|
    requires s'.status[p] == if |sh.subs[p]| == 0 then Completing else Forking(0)
    ensures SubsInOrder(sh, s', p)
  {
    OpenAll(sh.subs[p], s.closed);
  }

  lemma ForkSeries(sh: Shape, s: State, p: Task)
    requires Inv(sh, s) && Enabled(sh, s, Fork(p))
    ensures var x := sh.subs[p][s.status[p].next];
      && x in sh.tasks && sh.tasks[x] != []
      && var t := sh.tasks[x][0];
         IsNext(sh, s, t) && sh.home[t] == x && sh.slot[t] == 0 && t != p && ParentOf(sh, t) == Some(p)
  {
    var k := s.status[p].next;
    var x := sh.subs[p][k];
    assert SubOk(sh, p, k) && SubsInOrder(sh, s, p) && InOrder(sh, s, x) && SlotOk(sh, x, 0);
  }

  // The series of other parallel tasks are other series.
  lemma ForkSubs(sh: Shape, s: State, s1: State, p: Task, q: Task)
    requires Tree(sh) && Keyed(sh, s) && p in sh.subs && q in sh.subs && SubsInOrder(sh, s, p) && SubsInOrder(sh, s, q)
    requires s.status[p].Forking?
    requires var k := s.status[p].next;
      s1 == Taken(s.(status := s.status[p := if k + 1 == |sh.subs[p]| then Waiting else Forking(k + 1)]), sh.subs[p][k], 1)
    ensures SubsInOrder(sh, s1, q)
  {
    var k := s.status[p].next;
    assert SubOk(sh, p, k);
    forall j | 0 <= j < |sh.subs[q]| ensures sh.subs[q][j] == sh.subs[p][k] <==> q == p && j == k {
      assert SubOk(sh, q, j);
    }
    if q != p { SubsSame(sh, s, s1, q); }
  }

  lemma ForkPrepared(sh: Shape, s: State, s1: State, p: Task)
    requires Inv(sh, s) && Enabled(sh, s, Fork(p))
    requires var k := s.status[p].next;
      s1 == s.(status := s.status[p := if k + 1 == |sh.subs[p]| then Waiting else Forking(k + 1)])
    ensures forall y :: y in sh.tasks ==> InOrder(sh, s1, y)
    ensures forall q :: q in sh.subs ==> SubsInOrder(sh, Taken(s1, sh.subs[p][s.status[p].next], 1), q)
    ensures forall u :: u in s1.status ==> TaskOk(sh, s1, u)
  {
    forall y | y in sh.tasks ensures InOrder(sh, s1, y) { SeriesSame(sh, s, s1, y); }
    forall q | q in sh.subs ensures SubsInOrder(sh, Taken(s1, sh.subs[p][s.status[p].next], 1), q) {
      ForkSubs(sh, s, Taken(s1, sh.subs[p][s.status[p].next], 1), p, q);
    }
    forall u | u in s1.status ensures TaskOk(sh, s1, u) { assert TaskOk(sh, s, u); }
  }

  lemma ForkKept(sh: Shape, s: State, p: Task)
    requires Inv(sh, s) && Enabled(sh, s, Fork(p))
    ensures Inv(sh, Next(sh, s, Fork(p)))
  {
    hide Inv, Tree, InOrder, SubsInOrder, TaskOk, IsNext;
    InvKeyed(sh, s);
    var k := s.status[p].next;
    var s1 := s.(status := s.status[p := if k + 1 == |sh.subs[p]| then Waiting else Forking(k + 1)]);
    ForkSeries(sh, s, p);
    var t := sh.tasks[sh.subs[p][k]][0];
    assert Inv(sh, Begun(sh, s1, t)) by {
      ForkPrepared(sh, s, s1, p);
      StillNext(sh, s, s1, t, p);
      DispatchKept(sh, s1, t);
    }
    ForkIsBegun(sh, s, s1, p, t);
  }

  lemma ForkIsBegun(sh: Shape, s: State, s1: State, p: Task, t: Task)
    requires Enabled(sh, s, Fork(p)) && t in sh.home && t in sh.slot
    requires var k := s.status[p].next;
      && s1 == s.(status := s.status[p := if k + 1 == |sh.subs[p]| then Waiting else Forking(k + 1)])
      && t == sh.tasks[sh.subs[p][k]][0] && sh.home[t] == sh.subs[p][k] && sh.slot[t] == 0 && ParentOf(sh, t) == Some(p)
    ensures Next(sh, s, Fork(p)) == Begun(sh, s1, t)
  {
  }

  // A change to an active task of another place does not concern the next task of a series.
  lemma StillNext(sh: Shape, s: State, s1: State, t: Task, p: Task)
    requires IsNext(sh, s, t) && p in s.status && Active(s.status[p]) && p in s1.status
    requires s1 == s.(status := s.status[p := s1.status[p]])
    ensures IsNext(sh, s1, t)
  {
  }

  // ---------------------------------------------------------------------------------

  lemma FinishKept(sh: Shape, s: State, t: Task)
    requires Inv(sh, s) && Enabled(sh, s, Finish(t))
    ensures Inv(sh, Next(sh, s, Finish(t)))
  {
    Current(sh, s, t);
    var x := sh.home[t];
    if s.popped[x] < |sh.tasks[x]| { FinishOne(sh, s, t); } else { FinishLast(sh, s, t); }
  }

  // The series with the status of one of its active tasks changed
  lemma OtherSeries(sh: Shape, s: State, s1: State, t: Task, y: Series)
    requires Tree(sh) && t in sh.home && t in sh.slot && y in sh.tasks && y != sh.home[t] && y in s.popped && y in s1.popped
    requires InOrder(sh, s, y)
    requires t in s1.status && s1.status == s.status[t := s1.status[t]] && s1.popped[y] == s.popped[y]
    requires y in s1.closed <==> y in s.closed
    ensures InOrder(sh, s1, y)
  {
    forall i | 0 <= i < |sh.tasks[y]| ensures sh.tasks[y][i] != t { Elsewhere(sh, t, y, i); }
    SeriesSame(sh, s, s1, y);
  }

  lemma FinishNext(sh: Shape, s: State, s1: State, t: Task)
    requires Inv(sh, s) && t in sh.home && t in sh.slot && s.status[t].Completing? && sh.home[t] in sh.tasks
    requires s.popped[sh.home[t]] < |sh.tasks[sh.home[t]]| && s1 == s.(done := s.done + multiset{t}, status := s.status[t := Over])
    ensures var u := sh.tasks[sh.home[t]][s.popped[sh.home[t]]];
      IsNext(sh, s1, u) && sh.home[u] == sh.home[t] && sh.slot[u] == s.popped[sh.home[t]] && ParentOf(sh, u) == ParentOf(sh, t)
  {
    var x := sh.home[t];
    Current(sh, s, t);
    assert InOrder(sh, s, x) && SlotOk(sh, x, s.popped[x]);
  }

  lemma FinishSubs(sh: Shape, s: State, s1: State, t: Task, q: Task)
    requires Tree(sh) && Keyed(sh, s) && q in sh.subs && SubsInOrder(sh, s, q) && t in s.status && s.status[t].Completing?
    requires t in s1.status && (s1.status[t].Over? || s1.status[t].Ended?) && s1.status == s.status[t := s1.status[t]]
    requires s1.closed == s.closed && s1.nleft == s.nleft && s1.popped.Keys == s.popped.Keys
    requires forall x :: x in s.popped ==> (s1.popped[x] > 0 <==> s.popped[x] > 0)
    ensures SubsInOrder(sh, s1, q)
  {
  }

  lemma FinishPrepared(sh: Shape, s: State, s1: State, t: Task)
    requires Inv(sh, s) && Enabled(sh, s, Finish(t)) && t in sh.slot && sh.home[t] in sh.tasks
    requires s1 == s.(done := s.done + multiset{t}, status := s.status[t := Over])
    ensures forall y :: y in sh.tasks && y != sh.home[t] ==> InOrder(sh, s1, y)
    ensures forall q :: q in sh.subs ==> SubsInOrder(sh, Taken(s1, sh.home[t], s.popped[sh.home[t]] + 1), q)
    ensures forall v :: v in s1.status ==> TaskOk(sh, s1, v)
  {
    hide Tree, InOrder, SubsInOrder;
    SubsAreTasks(sh);
    var x := sh.home[t];
    Current(sh, s, t);
    forall y | y in sh.tasks && y != x ensures InOrder(sh, s1, y) { OtherSeries(sh, s, s1, t, y); }
    forall q | q in sh.subs ensures SubsInOrder(sh, Taken(s1, x, s.popped[x] + 1), q) {
      FinishSubs(sh, s, Taken(s1, x, s.popped[x] + 1), t, q);
    }
    forall v | v in s1.status ensures TaskOk(sh, s1, v) { assert TaskOk(sh, s, v); }
  }

  lemma FinishOne(sh: Shape, s: State, t: Task)
    requires Inv(sh, s) && Enabled(sh, s, Finish(t)) && t in sh.slot && sh.home[t] in sh.tasks
    requires s.popped[sh.home[t]] < |sh.tasks[sh.home[t]]|
    ensures Inv(sh, Next(sh, s, Finish(t)))
  {
    hide Tree, InOrder, SubsInOrder;
    var s1 := s.(done := s.done + multiset{t}, status := s.status[t := Over]);
    FinishNext(sh, s, s1, t);
    FinishPrepared(sh, s, s1, t);
    assert TaskOk(sh, s, t);
    var u := sh.tasks[sh.home[t]][s.popped[sh.home[t]]];
    DispatchKept(sh, s1, u);
    assert Next(sh, s, Finish(t)) == Begun(sh, s1, u);
  }

  lemma FinishLast(sh: Shape, s: State, t: Task)
    requires Inv(sh, s) && Enabled(sh, s, Finish(t)) && t in sh.slot && sh.home[t] in sh.tasks
    requires s.popped[sh.home[t]] >= |sh.tasks[sh.home[t]]|
    ensures Inv(sh, Next(sh, s, Finish(t)))
  {
    var s' := Next(sh, s, Finish(t));
    var x := sh.home[t];
    Current(sh, s, t);
    forall y | y in sh.tasks ensures InOrder(sh, s', y) {
      if y == x { EndOfSeries(sh, s, s', t, y); } else { OtherSeries(sh, s, s', t, y); }
    }
    forall q | q in sh.subs ensures SubsInOrder(sh, s', q) { FinishSubs(sh, s, s', t, q); }
    forall v | v in s'.status ensures TaskOk(sh, s', v) { assert TaskOk(sh, s, v); }
  }

  // The last task of a series ends, and is counted off.
  lemma EndOfSeries(sh: Shape, s: State, s': State, t: Task, x: Series)
    requires x in sh.tasks && x in s.popped && InOrder(sh, s, x) && s.popped[x] == |sh.tasks[x]| > 0
    requires sh.tasks[x][s.popped[x] - 1] == t && Active(s.status[t]) && (forall i :: SlotOk(sh, x, i))
    requires t in s'.status && s'.status == s.status[t := s'.status[t]] && x in s'.popped && s'.popped[x] == s.popped[x]
    requires s'.status[t].Over? <==> x in s'.closed
    requires !s'.status[t].Queued?
    ensures InOrder(sh, s', x)
  {
    var n := s.popped[x] - 1;
    assert SlotOk(sh, x, n);
    forall i | 0 <= i < n ensures sh.tasks[x][i] != t { assert SlotOk(sh, x, i); }
  }

  // ---------------------------------------------------------------------------------

  // The parallel task that waits for the series of t has not been let go.
  lemma OwnerWaits(sh: Shape, s: State, t: Task)
    requires Inv(sh, s) && t in sh.home && s.status[t].Ended? && sh.home[t] in sh.owner
    ensures var x := sh.home[t]; var p := sh.owner[x];
      && p in sh.subs && p in s.status && x in sh.rank && sh.rank[x] < |sh.subs[p]| && sh.subs[p][sh.rank[x]] == x && x in sh.tasks
      && (s.status[p].Forking? || s.status[p].Waiting?) && p in s.nleft && s.nleft[p] == Open(sh.subs[p], s.closed) && p != t
  {
    var x := sh.home[t];
    Current(sh, s, t);
    assert OwnerOk(sh, x);
    var p := sh.owner[x];
    assert SubsInOrder(sh, s, p);
    OpenWitness(sh.subs[p], s.closed, sh.rank[x]);
    assert s.status[p].Forking? || s.status[p].Waiting?;
  }

  lemma CountedSubs(sh: Shape, s: State, s': State, p: Task, x: Series, k: nat)
    requires Tree(sh) && p in sh.subs && p in s.status && p in s'.status && SubsInOrder(sh, s, p)
    requires s.status[p].Forking? || s.status[p].Waiting?
    requires k < |sh.subs[p]| && sh.subs[p][k] == x && x !in s.closed && s'.closed == s.closed + {x} && s'.popped == s.popped
    requires forall j :: 0 <= j < |sh.subs[p]| && s.popped[sh.subs[p][j]] == 0 ==> sh.subs[p][j] !in s.closed
    requires x in s.popped && s.popped[x] > 0
    requires p in s'.nleft && s'.nleft[p] == s.nleft[p] - 1
    requires s'.status[p] == if s'.nleft[p] == 0 then Completing else s.status[p]
    ensures SubsInOrder(sh, s', p)
    ensures s'.nleft[p] == 0 ==> s.status[p].Waiting?
  {
    var xs := sh.subs[p];
    forall i, j | 0 <= i < j < |xs| ensures xs[i] != xs[j] { assert SubOk(sh, p, i) && SubOk(sh, p, j); }
    OpenLess(xs, s.closed, k);
    if s.status[p].Forking? {
      OpenWitness(xs, s'.closed, s.status[p].next);
    }
  }

  lemma CountOffKept(sh: Shape, s: State, t: Task)
    requires Inv(sh, s) && Enabled(sh, s, CountOff(t))
    ensures Inv(sh, Next(sh, s, CountOff(t)))
  {
    hide Tree, InOrder, SubsInOrder;
    SubsAreTasks(sh);
    var x := sh.home[t];
    var s' := Next(sh, s, CountOff(t));
    Current(sh, s, t);
    assert TaskOk(sh, s, t);
    if x in sh.owner { OwnerWaits(sh, s, t); }
    forall y | y in sh.tasks ensures InOrder(sh, s', y) { CountOffSeries(sh, s, t, y); }
    forall q | q in sh.subs ensures SubsInOrder(sh, s', q) { CountOffSubs(sh, s, t, q); }
    forall v | v in s'.status ensures TaskOk(sh, s', v) { assert TaskOk(sh, s, v); }
  }

  lemma CountOffSeries(sh: Shape, s: State, t: Task, y: Series)
    requires Inv(sh, s) && Enabled(sh, s, CountOff(t)) && y in sh.tasks
    ensures InOrder(sh, Next(sh, s, CountOff(t)), y)
  {
    var x := sh.home[t];
    var s' := Next(sh, s, CountOff(t));
    var s1 := s.(status := s.status[t := Over], closed := s.closed + {x});
    Current(sh, s, t);
    assert TaskOk(sh, s, t) && InOrder(sh, s, y);
    if y == x { EndOfSeries(sh, s, s1, t, y); } else { OtherSeries(sh, s, s1, t, y); }
    if x in sh.owner { OwnerWaits(sh, s, t); }
    SeriesSame(sh, s1, s', y);
  }

  lemma ClosedIsStarted(sh: Shape, s: State, x: Series)
    requires Inv(sh, s) && x in sh.tasks && x in s.closed
    ensures s.popped[x] > 0
  {
    assert InOrder(sh, s, x);
  }

  lemma CountOffSubs(sh: Shape, s: State, t: Task, q: Task)
    requires Inv(sh, s) && Enabled(sh, s, CountOff(t)) && q in sh.subs
    ensures SubsInOrder(sh, Next(sh, s, CountOff(t)), q)
  {
    hide Tree, InOrder;
    SubsAreTasks(sh);
    var x := sh.home[t];
    var s' := Next(sh, s, CountOff(t));
    Current(sh, s, t);
    assert TaskOk(sh, s, t) && SubsInOrder(sh, s, q);
    forall j | 0 <= j < |sh.subs[q]| ensures (sh.subs[q][j] == x ==> x in sh.owner && sh.owner[x] == q)
      && (s.popped[sh.subs[q][j]] == 0 ==> sh.subs[q][j] !in s.closed)
    {
      TreeBelow(sh, q, j);
      if sh.subs[q][j] in s.closed { ClosedIsStarted(sh, s, sh.subs[q][j]); }
    }
    if x in sh.owner { OwnerWaits(sh, s, t); }
    if x in sh.owner && sh.owner[x] == q {
      CountedSubs(sh, s, s', q, x, sh.rank[x]);
    } else {
      OpenCongruent(sh.subs[q], s.closed, s'.closed);
    }
  }

  // ---------------------------------------------------------------------------------
  // Runs

  lemma BlankInOrder(sh: Shape, s: State, x: Series)
    requires Tree(sh) && Blank(sh, s) && x in sh.tasks
    ensures InOrder(sh, s, x)
  {
    hide Tree;
    forall i | 0 <= i < |sh.tasks[x]| ensures sh.tasks[x][i] in s.status { TreeAt(sh, x, i); }
  }

  lemma RootTaken(sh: Shape, s: State, p: Task)
    requires Tree(sh) && Blank(sh, s) && p in sh.subs && p in s.status
    ensures SubsInOrder(sh, Taken(s, sh.root, 1), p)
  {
    hide Tree;
    forall k | 0 <= k < |sh.subs[p]| ensures sh.subs[p][k] in sh.tasks && sh.subs[p][k] != sh.root { TreeBelow(sh, p, k); }
  }

  lemma BlankTask(sh: Shape, s: State, t: Task)
    requires Blank(sh, s) && t in s.status
    ensures TaskOk(sh, s, t)
  {
  }

  lemma FirstNext(sh: Shape, s: State)
    requires Tree(sh) && Blank(sh, s)
    ensures var t := sh.tasks[sh.root][0];
      && t in sh.home && t in sh.slot && IsNext(sh, s, t) && sh.home[t] == sh.root
      && Begun(sh, s, t) == Dispatched(sh, Taken(s, sh.root, 1), t, None)
  {
    hide Tree;
    TreeAt(sh, sh.root, 0);
    BlankInOrder(sh, s, sh.root);
  }

  lemma InitInv(sh: Shape, s: State)
    requires Tree(sh) && Init(sh, s)
    ensures Inv(sh, s)
  {
    hide Tree, InOrder, SubsInOrder, TaskOk, IsNext;
    SubsAreTasks(sh);
    var s0 :| Blank(sh, s0) && s == Dispatched(sh, Taken(s0, sh.root, 1), sh.tasks[sh.root][0], None);
    var t := sh.tasks[sh.root][0];
    TreeAt(sh, sh.root, 0);
    forall x | x in sh.tasks ensures InOrder(sh, s0, x) { BlankInOrder(sh, s0, x); }
    forall p | p in sh.subs ensures SubsInOrder(sh, Taken(s0, sh.root, 1), p) { RootTaken(sh, s0, p); }
    forall u | u in s0.status ensures TaskOk(sh, s0, u) { BlankTask(sh, s0, u); }
    FirstNext(sh, s0);
    hide Begun, Dispatched;
    DispatchKept(sh, s0, t);
  }

  lemma Kept(sh: Shape, s: State, a: Action)
    requires Inv(sh, s) && Enabled(sh, s, a)
    ensures Inv(sh, Next(sh, s, a))
  {
    hide Inv;
    match a
    case Fork(p) => ForkKept(sh, s, p);
    case Work(t) => WorkKept(sh, s, t);
    case Finish(t) => FinishKept(sh, s, t);
    case CountOff(t) => CountOffKept(sh, s, t);
  }

  // ---------------------------------------------------------------------------------
  // While it runs a program pushes tasks, cancels series and adds series to a parallel task that
  // has not begun: the part of the tree that has not begun may become any other.

  predicate HasBegun(s: State, t: Task) {
    t in s.status && !s.status[t].Queued?
  }

  predicate HasStarted(s: State, x: Series) {
    x in s.popped && s.popped[x] > 0
  }

  // A task that has begun stays where it is.
  predicate TaskStays(sh: Shape, s: State, sh': Shape, s': State, t: Task)
    requires t in s.status
  {
    && t in sh.home && t in sh'.home && sh'.home[t] == sh.home[t] && t in sh.slot && t in sh'.slot && sh'.slot[t] == sh.slot[t]
    && (t in sh'.subs <==> t in sh.subs) && (t in sh.subs ==> sh'.subs[t] == sh.subs[t])
    && t in s'.status && s'.status[t] == s.status[t]
  }

  // A task that has not begun is queued, and has not run before.
  predicate TaskWaits(s: State, s': State, t: Task)
    requires t in s'.status
  {
    s'.status[t].Queued? && s.dispatched[t] == 0 && s.done[t] == 0
  }

  // A series that has been started keeps its owner and the tasks taken out of it; one whose last
  // task is through keeps all its tasks.
  predicate SeriesStays(sh: Shape, s: State, sh': Shape, s': State, x: Series)
    requires x in s.popped
  {
    && x in sh.tasks && x in sh'.tasks && (x in sh'.owner <==> x in sh.owner) && (x in sh.owner ==> sh'.owner[x] == sh.owner[x])
    && s.popped[x] <= |sh.tasks[x]| && sh.tasks[x][..s.popped[x]] <= sh'.tasks[x]
    && (x in s.closed || (s.popped[x] > 0 && Is(s, sh.tasks[x][s.popped[x] - 1], Ended)) ==> sh'.tasks[x] == sh.tasks[x])
    && x in s'.popped && s'.popped[x] == s.popped[x]
  }

  ghost predicate Rearranged(sh: Shape, s: State, sh': Shape, s': State) {
    && Tree(sh') && sh'.root == sh.root && Keyed(sh', s')
    && s' == s.(status := s'.status, popped := s'.popped)
    && (forall t {:trigger TaskStays(sh, s, sh', s', t)} :: t in s.status && !s.status[t].Queued? ==> TaskStays(sh, s, sh', s', t))
    && (forall t {:trigger TaskWaits(s, s', t)} :: t in s'.status && !HasBegun(s, t) ==> TaskWaits(s, s', t))
    && (forall x {:trigger SeriesStays(sh, s, sh', s', x)} :: x in s.popped && s.popped[x] > 0 ==> SeriesStays(sh, s, sh', s', x))
    && (forall x {:trigger s'.popped[x]} :: x in s'.popped && !HasStarted(s, x) ==> s'.popped[x] == 0 && x !in s.closed)
  }

  // Where the tasks that have begun are
  lemma BegunPlace(sh: Shape, s: State, t: Task)
    requires Inv(sh, s) && HasBegun(s, t)
    ensures t in sh.home && t in sh.slot && sh.home[t] in s.popped && sh.slot[t] < s.popped[sh.home[t]]
  {
    assert HomeOk(sh, t) && InOrder(sh, s, sh.home[t]);
    assert TaskInOrder(s.status[t], sh.slot[t], s.popped[sh.home[t]], |sh.tasks[sh.home[t]]|, sh.home[t] in s.closed);
  }

  lemma BegunIsTaken(sh: Shape, s: State, sh': Shape, s': State, x: Series, i: nat)
    requires Inv(sh, s) && Rearranged(sh, s, sh', s') && x in sh'.tasks && i < |sh'.tasks[x]|
    ensures HasBegun(s, sh'.tasks[x][i]) ==> HasStarted(s, x) && i < s.popped[x]
  {
    var t := sh'.tasks[x][i];
    assert SlotOk(sh', x, i);
    if HasBegun(s, t) {
      BegunPlace(sh, s, t);
      assert TaskStays(sh, s, sh', s', t);
    }
  }

  // The tasks of a series that are not among those taken out have not begun.
  lemma RestWaits(sh: Shape, s: State, sh': Shape, s': State, x: Series, i: nat)
    requires Inv(sh, s) && Rearranged(sh, s, sh', s') && x in sh'.tasks && i < |sh'.tasks[x]|
    requires HasStarted(s, x) ==> i >= s.popped[x]
    ensures sh'.tasks[x][i] in s'.status && s'.status[sh'.tasks[x][i]].Queued?
  {
    assert SlotOk(sh', x, i);
    BegunIsTaken(sh, s, sh', s', x, i);
    assert TaskWaits(s, s', sh'.tasks[x][i]);
  }

  lemma SeriesRearranged(sh: Shape, s: State, sh': Shape, s': State, x: Series)
    requires Inv(sh, s) && Rearranged(sh, s, sh', s') && x in sh'.tasks
    ensures InOrder(sh', s', x)
  {
    forall i | 0 <= i < |sh'.tasks[x]| && (HasStarted(s, x) ==> i >= s.popped[x])
      ensures sh'.tasks[x][i] in s'.status && s'.status[sh'.tasks[x][i]].Queued?
    {
      RestWaits(sh, s, sh', s', x, i);
    }
    if HasStarted(s, x) {
      assert SeriesStays(sh, s, sh', s', x) && InOrder(sh, s, x);
      forall i | 0 <= i < s.popped[x]
        ensures sh'.tasks[x][i] == sh.tasks[x][i] && sh'.tasks[x][i] in s'.status
        ensures s'.status[sh'.tasks[x][i]] == s.status[sh.tasks[x][i]]
      {
        assert sh.tasks[x][..s.popped[x]][i] == sh'.tasks[x][i];
        assert TaskInOrder(s.status[sh.tasks[x][i]], i, s.popped[x], |sh.tasks[x]|, x in s.closed);
        assert TaskStays(sh, s, sh', s', sh.tasks[x][i]);
      }
      StartedInOrder(sh, s, sh', s', x);
    } else {
      assert s'.popped[x] == 0;
    }
  }

  lemma StartedInOrder(sh: Shape, s: State, sh': Shape, s': State, x: Series)
    requires x in sh.tasks && x in s.popped && InOrder(sh, s, x) && s.popped[x] > 0 && SeriesStays(sh, s, sh', s', x) && s'.closed == s.closed
    requires forall i :: 0 <= i < s.popped[x] ==>
      sh'.tasks[x][i] == sh.tasks[x][i] && sh'.tasks[x][i] in s'.status && s'.status[sh'.tasks[x][i]] == s.status[sh.tasks[x][i]]
    requires forall i :: s.popped[x] <= i < |sh'.tasks[x]| ==> sh'.tasks[x][i] in s'.status && s'.status[sh'.tasks[x][i]].Queued?
    ensures InOrder(sh', s', x)
  {
    var n := s.popped[x];
    assert TaskInOrder(s.status[sh.tasks[x][n - 1]], n - 1, n, |sh.tasks[x]|, x in s.closed);
    forall i | 0 <= i < |sh'.tasks[x]| ensures TaskInOrder(s'.status[sh'.tasks[x][i]], i, n, |sh'.tasks[x]|, x in s.closed) {
      if i < n { assert TaskInOrder(s.status[sh.tasks[x][i]], i, n, |sh.tasks[x]|, x in s.closed); }
    }
  }

  // Whoever owns a started series has begun.
  lemma OwnerBegun(sh: Shape, s: State, x: Series)
    requires Inv(sh, s) && HasStarted(s, x) && x in sh.owner
    ensures HasBegun(s, sh.owner[x])
  {
    assert OwnerOk(sh, x) && SubsInOrder(sh, s, sh.owner[x]);
  }

  lemma SubsRearranged(sh: Shape, s: State, sh': Shape, s': State, p: Task)
    requires Inv(sh, s) && Rearranged(sh, s, sh', s') && p in sh'.subs
    ensures SubsInOrder(sh', s', p)
  {
    var xs := sh'.subs[p];
    assert p in s'.status;
    forall k | 0 <= k < |xs| ensures xs[k] in s'.popped && xs[k] != sh.root && sh'.owner[xs[k]] == p { assert SubOk(sh', p, k); }
    if HasBegun(s, p) {
      assert TaskStays(sh, s, sh', s', p) && SubsInOrder(sh, s, p);
      forall k | 0 <= k < |xs| ensures s'.popped[xs[k]] == s.popped[xs[k]] {
        if HasStarted(s, xs[k]) { assert SeriesStays(sh, s, sh', s', xs[k]); }
      }
    } else {
      assert TaskWaits(s, s', p);
      forall k | 0 <= k < |xs| ensures s'.popped[xs[k]] == 0 {
        if HasStarted(s, xs[k]) {
          assert SeriesStays(sh, s, sh', s', xs[k]);
          OwnerBegun(sh, s, xs[k]);
        }
      }
    }
  }

  lemma TaskRearranged(sh: Shape, s: State, sh': Shape, s': State, t: Task)
    requires Inv(sh, s) && Rearranged(sh, s, sh', s') && t in s'.status
    ensures TaskOk(sh', s', t)
  {
    if HasBegun(s, t) {
      BegunPlace(sh, s, t);
      assert TaskStays(sh, s, sh', s', t) && TaskOk(sh, s, t) && SeriesStays(sh, s, sh', s', sh.home[t]);
    } else {
      assert TaskWaits(s, s', t);
    }
  }

  lemma RearrangedKept(sh: Shape, s: State, sh': Shape, s': State)
    requires Inv(sh, s) && Rearranged(sh, s, sh', s')
    ensures Inv(sh', s')
  {
    assert SeriesStays(sh, s, sh', s', sh.root);
    hide InOrder, SubsInOrder, TaskOk;
    forall x | x in sh'.tasks ensures InOrder(sh', s', x) { SeriesRearranged(sh, s, sh', s', x); }
    forall p | p in sh'.subs ensures SubsInOrder(sh', s', p) { SubsRearranged(sh, s, sh', s', p); }
    forall t | t in s'.status ensures TaskOk(sh', s', t) { TaskRearranged(sh, s, sh', s', t); }
  }

  // ---------------------------------------------------------------------------------
  // Runs

  datatype Config = Config(sh: Shape, s: State)

  datatype Move = Act(a: Action) | Rearrange(c: Config)

  ghost predicate Possible(c: Config, m: Move) {
    match m
    case Act(a) => Enabled(c.sh, c.s, a)
    case Rearrange(c') => Rearranged(c.sh, c.s, c'.sh, c'.s)
  }

  ghost function Moved(c: Config, m: Move): Config
    requires Possible(c, m)
  {
    match m
    case Act(a) => c.(s := Next(c.sh, c.s, a))
    case Rearrange(c') => c'
  }

  ghost predicate Run(c: Config, moves: seq<Move>, end: Config)
    decreases |moves|
  {
    if moves == [] then c == end
    else Possible(c, moves[0]) && Run(Moved(c, moves[0]), moves[1..], end)
  }

  lemma {:induction false} Always(c: Config, moves: seq<Move>, end: Config)
    requires Inv(c.sh, c.s) && Run(c, moves, end)
    ensures Inv(end.sh, end.s)
    decreases |moves|
  {
    hide Inv, Enabled, Next, Rearranged;
    if moves != [] {
      if moves[0].Act? { Kept(c.sh, c.s, moves[0].a); } else { RearrangedKept(c.sh, c.s, moves[0].c.sh, moves[0].c.s); }
      Always(Moved(c, moves[0]), moves[1..], end);
    }
  }

  ghost predicate Reaches(init: Config, moves: seq<Move>, end: Config) {
    Tree(init.sh) && Init(init.sh, init.s) && Run(init, moves, end)
  }

  lemma Reached(init: Config, moves: seq<Move>, end: Config)
    requires Reaches(init, moves, end)
    ensures Inv(end.sh, end.s)
  {
    InitInv(init.sh, init.s);
    hide Inv, Tree, Init;
    Always(init, moves, end);
  }

  // A task is dispatched at most once and only when the ones before it in its series are done;
  // done is called at most once.
  lemma DispatchedOnceInOrder(init: Config, moves: seq<Move>, end: Config, t: Task)
    requires Reaches(init, moves, end) && t in end.s.status
    ensures end.s.dispatched[t] <= 1 && end.s.done[t] <= end.s.dispatched[t]
    ensures t in end.sh.home && t in end.sh.slot && end.sh.home[t] in end.sh.tasks
    ensures forall j :: 0 <= j < end.sh.slot[t] && end.s.dispatched[t] == 1 && j < |end.sh.tasks[end.sh.home[t]]| ==>
      end.s.done[end.sh.tasks[end.sh.home[t]][j]] == 1
  {
    var sh, s := end.sh, end.s;
    Reached(init, moves, end);
    assert TaskOk(sh, s, t) && HomeOk(sh, t);
    var x := sh.home[t];
    assert InOrder(sh, s, x);
    forall j | 0 <= j < sh.slot[t] && s.dispatched[t] == 1 && j < |sh.tasks[x]| ensures s.done[sh.tasks[x][j]] == 1 {
      assert SlotOk(sh, x, j) && TaskOk(sh, s, sh.tasks[x][j]);
    }
  }

  // While a parallel task is waited for, nleft is the number of its sub-series not counted off;
  // it is done only when there are none, and its loop is over by then, so that dispatch, which
  // goes back to the parallel task only to start a sub-series, never meets one that is gone.
  lemma JoinAfterAll(init: Config, moves: seq<Move>, end: Config, p: Task)
    requires Reaches(init, moves, end) && p in end.sh.subs
    ensures p in end.s.status
    ensures var s, xs := end.s, end.sh.subs[p];
      && (s.status[p].Forking? || s.status[p].Waiting? ==> p in s.nleft && s.nleft[p] == Open(xs, s.closed) > 0 && s.done[p] == 0)
      && (s.status[p].Forking? ==> s.status[p].next < |xs| && xs[s.status[p].next] !in s.closed)
      && (s.status[p].Completing? || s.done[p] == 1 ==> forall k :: 0 <= k < |xs| ==> xs[k] in s.closed)
  {
    Reached(init, moves, end);
    JoinOf(end.sh, end.s, p);
  }

  lemma JoinOf(sh: Shape, s: State, p: Task)
    requires Inv(sh, s) && p in sh.subs
    ensures p in s.status
    ensures var xs := sh.subs[p];
      && (s.status[p].Forking? || s.status[p].Waiting? ==> p in s.nleft && s.nleft[p] == Open(xs, s.closed) > 0 && s.done[p] == 0)
      && (s.status[p].Forking? ==> s.status[p].next < |xs| && xs[s.status[p].next] !in s.closed)
      && (s.status[p].Completing? || s.done[p] == 1 ==> forall k :: 0 <= k < |xs| ==> xs[k] in s.closed)
  {
    assert SubsInOrder(sh, s, p) && TaskOk(sh, s, p);
    if s.status[p].Forking? {
      var x := sh.subs[p][s.status[p].next];
      assert SubOk(sh, p, s.status[p].next) && InOrder(sh, s, x);
    }
    forall k | 0 <= k < |sh.subs[p]| && (s.status[p].Completing? || s.done[p] == 1) ensures sh.subs[p][k] in s.closed {
      if sh.subs[p][k] !in s.closed { OpenWitness(sh.subs[p], s.closed, k); }
    }
  }

  // A series is counted off when all its tasks are done.
  lemma ClosedMeansDone(sh: Shape, s: State, x: Series, i: nat)
    requires Inv(sh, s) && x in s.closed && x in sh.tasks && i < |sh.tasks[x]|
    ensures sh.tasks[x][i] in s.status && s.status[sh.tasks[x][i]].Over?
    ensures s.done[sh.tasks[x][i]] == s.dispatched[sh.tasks[x][i]] == 1
  {
    assert InOrder(sh, s, x) && TaskInOrder(s.status[sh.tasks[x][i]], i, s.popped[x], |sh.tasks[x]|, true);
    assert TaskOk(sh, s, sh.tasks[x][i]);
  }

  // A parallel task that is done has all tasks of all its sub-series done.
  lemma SubsDone(init: Config, moves: seq<Move>, end: Config, p: Task, j: nat, k: nat)
    requires Reaches(init, moves, end) && p in end.sh.subs && end.s.done[p] == 1
    requires j < |end.sh.subs[p]| && end.sh.subs[p][j] in end.sh.tasks && k < |end.sh.tasks[end.sh.subs[p][j]]|
    ensures end.s.done[end.sh.tasks[end.sh.subs[p][j]][k]] == 1
  {
    Reached(init, moves, end);
    JoinOf(end.sh, end.s, p);
    ClosedMeansDone(end.sh, end.s, end.sh.subs[p][j], k);
  }

  // No thread has anything left to do.
  ghost predicate Quiet(s: State) {
    forall t :: t in s.status ==> s.status[t].Queued? || s.status[t].Waiting? || s.status[t].Over?
  }

  // Nobody waits for ever: in a quiet state no task waits, because one of the series it waits
  // for would have to stop at a lower task that waits.
  lemma {:induction false} NobodyWaits(sh: Shape, s: State, p: Task)
    requires Inv(sh, s) && Quiet(s) && p in s.status && p in sh.height
    ensures !s.status[p].Waiting?
    decreases sh.height[p]
  {
    if s.status[p].Waiting? {
      assert TaskOk(sh, s, p) && SubsInOrder(sh, s, p);
      var k := FindOpen(sh.subs[p], s.closed);
      var x := sh.subs[p][k];
      assert SubOk(sh, p, k) && InOrder(sh, s, x);
      var j := s.popped[x] - 1;
      assert TaskInOrder(s.status[sh.tasks[x][j]], j, s.popped[x], |sh.tasks[x]|, false);
      assert SlotOk(sh, x, j) && Lower(sh, x, j);
      NobodyWaits(sh, s, sh.tasks[x][j]);
    }
  }

  lemma {:induction false} FindOpen(subs: seq<Series>, closed: set<Series>) returns (k: nat)
    requires Open(subs, closed) > 0
    ensures k < |subs| && subs[k] !in closed
  {
    var n := |subs| - 1;
    if subs[n] !in closed { k := n; } else { k := FindOpen(subs[..n], closed); }
  }

  lemma RootClosed(sh: Shape, s: State)
    requires Inv(sh, s) && Quiet(s)
    ensures sh.root in s.closed
  {
    assert InOrder(sh, s, sh.root);
    var j := s.popped[sh.root] - 1;
    var t := sh.tasks[sh.root][j];
    assert SlotOk(sh, sh.root, j) && TaskInOrder(s.status[t], j, s.popped[sh.root], |sh.tasks[sh.root]|, sh.root in s.closed);
    NobodyWaits(sh, s, t);
  }

  // Up the tree: a task's series is closed because the parallel task above it is over.
  lemma {:induction false} HomeClosed(sh: Shape, s: State, t: Task, top: nat)
    requires Inv(sh, s) && Quiet(s) && t in sh.home && (forall u :: u in sh.height ==> sh.height[u] <= top)
    ensures t in sh.slot && sh.home[t] in sh.tasks && sh.slot[t] < |sh.tasks[sh.home[t]]| && sh.tasks[sh.home[t]][sh.slot[t]] == t
    ensures sh.home[t] in s.closed
    decreases if t in sh.height then top - sh.height[t] else top
  {
    var x := sh.home[t];
    assert HomeOk(sh, t) && SlotOk(sh, x, sh.slot[t]);
    if x == sh.root {
      RootClosed(sh, s);
    } else {
      var p := sh.owner[x];
      assert OwnerOk(sh, x) && Lower(sh, x, sh.slot[t]);
      HomeClosed(sh, s, p, top);
      ClosedMeansDone(sh, s, sh.home[p], sh.slot[p]);
      JoinOf(sh, s, p);
    }
  }

  lemma {:induction false} Tallest(height: map<Task, nat>) returns (top: nat)
    ensures forall t :: t in height ==> height[t] <= top
    decreases |height|
  {
    if height == map[] {
      top := 0;
    } else {
      var t :| t in height;
      var rest := height - {t};
      assert |rest.Keys| < |height.Keys| by {
        assert rest.Keys == height.Keys - {t};
      }
      top := Tallest(rest);
      assert forall u :: u in height && u != t ==> u in rest;
      if height[t] > top { top := height[t]; }
    }
  }

  // When all threads have come to rest every task of the tree has been dispatched and done,
  // exactly once each.
  lemma EverythingDone(init: Config, moves: seq<Move>, end: Config, t: Task)
    requires Reaches(init, moves, end) && Quiet(end.s) && t in end.sh.home
    ensures end.s.dispatched[t] == 1 && end.s.done[t] == 1
  {
    Reached(init, moves, end);
    var top := Tallest(end.sh.height);
    HomeClosed(end.sh, end.s, t, top);
    ClosedMeansDone(end.sh, end.s, end.sh.home[t], end.sh.slot[t]);
  }

  // ---------------------------------------------------------------------------------
  // Progress

  // A task at work can always go on, by a step of its own.
  lemma NeverStuck(init: Config, moves: seq<Move>, end: Config, t: Task) returns (a: Action)
    requires Reaches(init, moves, end) && t in end.s.status && Active(end.s.status[t]) && !end.s.status[t].Waiting?
    ensures Enabled(end.sh, end.s, a) && a in {Fork(t), Work(t), Finish(t), CountOff(t)}
  {
    var sh, s := end.sh, end.s;
    Reached(init, moves, end);
    Current(sh, s, t);
    assert TaskOk(sh, s, t);
    match s.status[t] {
      case Forking(k) =>
        assert SubsInOrder(sh, s, t);
        TreeBelow(sh, t, k);
        TreeAt(sh, sh.subs[t][k], 0);
        a := Fork(t);
      case Running => a := Work(t);
      case Completing => a := Finish(t);
      case Ended =>
        if sh.home[t] in sh.owner { OwnerWaits(sh, s, t); }
        a := CountOff(t);
    }
  }

  // How far a task has come
  function Stage(st: Status): nat {
    match st
    case Queued => 0
    case Running => 1
    case Forking(_) => 1
    case Waiting => 1
    case Completing => 2
    case Ended => 3
    case Over => 4
  }

  ghost function Beyond(s: State, k: nat): set<Task> {
    set t | t in s.status && Stage(s.status[t]) >= k
  }

  ghost function Progress(s: State): nat {
    |Beyond(s, 1)| + |Beyond(s, 2)| + |Beyond(s, 3)| + |Beyond(s, 4)|
  }

  lemma Subset<T>(a: set<T>, b: set<T>)
    requires a <= b
    ensures |a| <= |b| && (a != b ==> |a| < |b|)
  {
    assert |b - a| == |b| - |a| by { assert a + (b - a) == b; }
    if a != b { assert exists x :: x in b - a; }
  }

  lemma ProgressBound(s: State)
    ensures Progress(s) <= 4 * |s.status|
  {
    forall k: nat ensures |Beyond(s, k)| <= |s.status| {
      Subset(Beyond(s, k), s.status.Keys);
    }
  }

  // No task that has begun is set back.
  ghost predicate Onward(s: State, s': State) {
    forall t :: t in s.status && Stage(s.status[t]) > 0 ==> t in s'.status && Stage(s'.status[t]) >= Stage(s.status[t])
  }

  lemma BeyondGrows(s: State, s': State, k: nat)
    requires Onward(s, s') && k >= 1
    ensures |Beyond(s, k)| <= |Beyond(s', k)| && (Beyond(s, k) != Beyond(s', k) ==> |Beyond(s, k)| < |Beyond(s', k)|)
  {
    Subset(Beyond(s, k), Beyond(s', k));
  }

  lemma ProgressGrows(s: State, s': State)
    requires Onward(s, s')
    ensures Progress(s') >= Progress(s)
    ensures (exists t :: t in s.status && t in s'.status && Stage(s'.status[t]) > Stage(s.status[t])) ==> Progress(s') > Progress(s)
  {
    BeyondGrows(s, s', 1);
    BeyondGrows(s, s', 2);
    BeyondGrows(s, s', 3);
    BeyondGrows(s, s', 4);
    if t :| t in s.status && t in s'.status && Stage(s'.status[t]) > Stage(s.status[t]) {
      assert t in Beyond(s', Stage(s'.status[t])) && t !in Beyond(s, Stage(s'.status[t]));
    }
  }

  // Every step brings some task forward.
  lemma StepProgress(sh: Shape, s: State, a: Action)
    requires Inv(sh, s) && Enabled(sh, s, a)
    ensures Progress(Next(sh, s, a)) > Progress(s)
  {
    hide Inv, Progress;
    match a
    case Fork(p) => ForkProgress(sh, s, p);
    case Work(t) => Advances(s, Next(sh, s, a), t);
    case Finish(t) => FinishProgress(sh, s, t);
    case CountOff(t) => CountOffProgress(sh, s, t);
  }

  lemma Advances(s: State, s': State, t: Task)
    requires Onward(s, s') && t in s.status && t in s'.status && Stage(s'.status[t]) > Stage(s.status[t])
    ensures Progress(s') > Progress(s)
  {
    ProgressGrows(s, s');
  }

  lemma NextQueued(sh: Shape, s: State, t: Task)
    requires IsNext(sh, s, t)
    ensures t in s.status && s.status[t].Queued?
  {
    assert sh.tasks[sh.home[t]][sh.slot[t]] == t;
  }

  lemma ParentKnown(sh: Shape, s: State, t: Task)
    requires Inv(sh, s) && t in s.status && Active(s.status[t])
    ensures t in s.parent && s.parent[t] == ParentOf(sh, t)
  {
    assert TaskOk(sh, s, t);
  }

  lemma ForkProgress(sh: Shape, s: State, p: Task)
    requires Inv(sh, s) && Enabled(sh, s, Fork(p))
    ensures Progress(Next(sh, s, Fork(p))) > Progress(s)
  {
    hide Inv, IsNext, Progress;
    var u := sh.tasks[sh.subs[p][s.status[p].next]][0];
    ForkSeries(sh, s, p);
    NextQueued(sh, s, u);
    Advances(s, Next(sh, s, Fork(p)), u);
  }

  lemma FinishProgress(sh: Shape, s: State, t: Task)
    requires Inv(sh, s) && Enabled(sh, s, Finish(t))
    ensures Progress(Next(sh, s, Finish(t))) > Progress(s)
  {
    hide Inv, Progress;
    Current(sh, s, t);
    var x := sh.home[t];
    if s.popped[x] < |sh.tasks[x]| {
      FinishOneProgress(sh, s, t, x, sh.tasks[x][s.popped[x]]);
    } else {
      Advances(s, Next(sh, s, Finish(t)), t);
    }
  }

  lemma FinishOneProgress(sh: Shape, s: State, t: Task, x: Series, u: Task)
    requires Inv(sh, s) && Enabled(sh, s, Finish(t)) && x == sh.home[t] && Place(sh, x, s.popped[x]) == Some(u)
    ensures Progress(Next(sh, s, Finish(t))) > Progress(s)
  {
    hide Inv, IsNext, Progress;
    Current(sh, s, t);
    var s1 := s.(done := s.done + multiset{t}, status := s.status[t := Over]);
    FinishNext(sh, s, s1, t);
    NextQueued(sh, s1, u);
    Advances(s, Next(sh, s, Finish(t)), t);
  }

  lemma CountOffProgress(sh: Shape, s: State, t: Task)
    requires Inv(sh, s) && Enabled(sh, s, CountOff(t))
    ensures Progress(Next(sh, s, CountOff(t))) > Progress(s)
  {
    hide Inv, Progress;
    Current(sh, s, t);
    ParentKnown(sh, s, t);
    if sh.home[t] in sh.owner { OwnerWaits(sh, s, t); }
    Advances(s, Next(sh, s, CountOff(t)), t);
  }

  lemma RearrangedProgress(sh: Shape, s: State, sh': Shape, s': State)
    requires Rearranged(sh, s, sh', s')
    ensures Progress(s') >= Progress(s)
  {
    forall t | t in s.status && Stage(s.status[t]) > 0 ensures t in s'.status && Stage(s'.status[t]) >= Stage(s.status[t]) {
      assert TaskStays(sh, s, sh', s', t);
    }
    ProgressGrows(s, s');
  }

  function Acts(moves: seq<Move>): nat {
    if moves == [] then 0 else (if moves[0].Act? then 1 else 0) + Acts(moves[1..])
  }

  lemma {:induction false} ActsAreProgress(c: Config, moves: seq<Move>, end: Config)
    requires Inv(c.sh, c.s) && Run(c, moves, end)
    ensures Progress(c.s) + Acts(moves) <= Progress(end.s)
    decreases |moves|
  {
    hide Inv, Enabled, Next, Rearranged, Progress;
    if moves != [] {
      if moves[0].Act? {
        Kept(c.sh, c.s, moves[0].a);
        StepProgress(c.sh, c.s, moves[0].a);
      } else {
        RearrangedKept(c.sh, c.s, moves[0].c.sh, moves[0].c.s);
        RearrangedProgress(c.sh, c.s, moves[0].c.sh, moves[0].c.s);
      }
      ActsAreProgress(Moved(c, moves[0]), moves[1..], end);
    }
  }

  // A run has no more than four steps for each task of the tree it ends with, whatever was pushed
  // and canceled on the way: with NeverStuck, a tree that is left alone comes to rest.
  lemma ActsBounded(init: Config, moves: seq<Move>, end: Config)
    requires Reaches(init, moves, end)
    ensures Acts(moves) <= 4 * |end.sh.home|
  {
    InitInv(init.sh, init.s);
    Reached(init, moves, end);
    InvKeyed(end.sh, end.s);
    hide Inv, Progress, Tree, Init;
    ActsAreProgress(init, moves, end);
    ProgressBound(end.s);
    assert |end.s.status| == |end.s.status.Keys| && |end.sh.home| == |end.sh.home.Keys|;
  }
}
