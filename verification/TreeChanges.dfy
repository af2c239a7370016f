/**
  What src/factory/Workflow.cc does to the tree of tasks while it runs: a task or a whole parallel
  work is pushed, a series is added to a parallel work, a series is canceled.  All three are
  changes that ForkJoin allows for.
 */
module TreeChanges {
  import opened Collections
  import opened ForkJoin

  // ---------------------------------------------------------------------------------
  // A tree that is to become part of another one

  // Its indexes hold nothing else.
  predicate Tidy(sub: Shape) {
    sub.slot.Keys == sub.height.Keys == sub.home.Keys && sub.rank.Keys == sub.owner.Keys
  }

  // It has no task and no series in common with the other one, its root aside, and is lower than lift.
  ghost predicate Apart(sh: Shape, sub: Shape, lift: nat) {
    && Tidy(sub)
    && (forall u {:trigger u in sub.home} {:trigger u in sh.home} :: u in sub.home ==> u !in sh.home)
    && (forall y {:trigger y in sub.tasks} {:trigger y in sh.tasks} :: y in sub.tasks && y != sub.root ==> y !in sh.tasks)
    && (forall u :: u in sub.height ==> sub.height[u] < lift)
  }

  lemma OldTask(sh: Shape, sub: Shape, lift: nat, u: Task)
    requires Tree(sub) && Apart(sh, sub, lift) && u in sh.home
    ensures u !in sub.home && u !in sub.slot && u !in sub.height && u !in sub.subs
  {
    hide Tree;
    TreeOf(sub, u);
  }

  lemma OldSeries(sh: Shape, sub: Shape, lift: nat, y: Series)
    requires Tree(sub) && Apart(sh, sub, lift) && y in sh.tasks
    ensures (y in sub.tasks ==> y == sub.root) && y !in sub.owner && y !in sub.rank
  {
    assert sub.root !in sub.owner;
    hide Tree;
    TreeAt(sub, y, 0);
  }

  lemma NewTask(sh: Shape, sub: Shape, lift: nat, u: Task)
    requires Tree(sub) && Apart(sh, sub, lift) && u in sub.home
    ensures u !in sh.home && u in sub.slot && u in sub.height && sub.height[u] < lift
  {
  }

  ghost function Raised(heights: map<Task, nat>, lift: nat): (raised: map<Task, nat>)
    ensures raised.Keys == heights.Keys && forall u :: u in heights ==> raised[u] == heights[u] + lift
    decreases heights.Keys
  {
    if heights == map[] then map[]
    else
      var u :| u in heights;
      Raised(heights - {u}, lift)[u := heights[u] + lift]
  }

  // The heights of both, those of sh above all of sub's
  ghost function Heights(sh: Shape, sub: Shape, lift: nat): map<Task, nat> {
    Raised(sh.height, lift) + sub.height
  }

  // Nothing of sub has run before.
  ghost predicate Fresh(s: State, sub: Shape) {
    && (forall u :: u in sub.home ==> s.dispatched[u] == 0 && s.done[u] == 0)
    && (forall y :: y in sub.tasks && y != sub.root ==> y !in s.closed)
  }

  // Nothing of sub runs yet.
  ghost function Joined(s: State, sub: Shape, series: set<Series>): State {
    s.(status := s.status + Everywhere(sub.home.Keys, Queued), popped := s.popped + Everywhere(series, 0))
  }

  // ---------------------------------------------------------------------------------
  // push_front and push_back (Workflow.cc:68-94)

  function Inserted(ts: seq<Task>, k: nat, t: Task): seq<Task>
    requires k <= |ts|
  {
    ts[..k] + [t] + ts[k..]
  }

  lemma InsertedAt(ts: seq<Task>, k: nat, t: Task)
    requires k <= |ts|
    ensures var ts' := Inserted(ts, k, t);
      && |ts'| == |ts| + 1 && ts'[k] == t
      && forall i :: 0 <= i < |ts| ==> ts'[if i < k then i else i + 1] == ts[i]
  {
  }

  lemma InsertedBehind(ts: seq<Task>, k: nat, t: Task, n: nat)
    requires n <= k <= |ts|
    ensures n <= |Inserted(ts, k, t)| && Inserted(ts, k, t)[..n] == ts[..n]
  {
  }

  // Task t, all there is in the root series of sub, with all that is below it, at place k of series x
  ghost function Pushed(sh: Shape, x: Series, k: nat, t: Task, sub: Shape, lift: nat): Shape
    requires x in sh.tasks && k <= |sh.tasks[x]|
  {
    sh.(tasks := sh.tasks[x := Inserted(sh.tasks[x], k, t)] + (sub.tasks - {sub.root}),
        subs := sh.subs + sub.subs, owner := sh.owner + sub.owner, rank := sh.rank + sub.rank,
        home := sh.home + sub.home[t := x],
        slot := SlotsAfter(sh, x, k, sh.slot.Keys) + sub.slot[t := k],
        height := Heights(sh, sub, lift))
  }

  function SlotAfter(sh: Shape, x: Series, k: nat, u: Task): nat
    requires u in sh.slot
  {
    if u in sh.home && sh.home[u] == x && sh.slot[u] >= k then sh.slot[u] + 1 else sh.slot[u]
  }

  // ... of all the tasks in us
  ghost function SlotsAfter(sh: Shape, x: Series, k: nat, us: set<Task>): (slots: map<Task, nat>)
    requires us <= sh.slot.Keys
    ensures slots.Keys == us && forall u :: u in us ==> slots[u] == SlotAfter(sh, x, k, u)
  {
    if us == {} then map[]
    else
      var u :| u in us;
      SlotsAfter(sh, x, k, us - {u})[u := SlotAfter(sh, x, k, u)]
  }

  ghost predicate Pushable(sh: Shape, x: Series, k: nat, t: Task, sub: Shape, lift: nat) {
    Tree(sh) && Tree(sub) && Apart(sh, sub, lift) && x in sh.tasks && k <= |sh.tasks[x]| && sub.root in sub.tasks && sub.tasks[sub.root] == [t]
  }

  // Of the tasks of sub only t is in its root series.
  lemma OnlyOne(t: Task, sub: Shape, u: Task)
    requires Tree(sub) && sub.tasks[sub.root] == [t]
    ensures t in sub.home && (u in sub.home ==> (sub.home[u] == sub.root <==> u == t))
  {
    hide Tree;
    TreeAt(sub, sub.root, 0);
    TreeOf(sub, u);
  }

  // Where the tasks, the old and the new ones, and the series are afterwards
  lemma PushedTask(sh: Shape, x: Series, k: nat, t: Task, sub: Shape, lift: nat, u: Task)
    requires Pushable(sh, x, k, t, sub, lift)
    ensures var sh' := Pushed(sh, x, k, t, sub, lift);
      && (u in sh'.home ==> u in sh.home || u in sub.home)
      && (u in sh.home && u in sh.slot && u in sh.height ==>
            u in sh'.home && u in sh'.slot && u in sh'.height
            && sh'.home[u] == sh.home[u] && sh'.slot[u] == SlotAfter(sh, x, k, u) && sh'.height[u] == sh.height[u] + lift)
      && (u in sub.home ==>
            u in sh'.home && u in sh'.slot && u in sh'.height && sh'.height[u] == sub.height[u]
            && sh'.home[u] == (if u == t then x else sub.home[u]) && sh'.slot[u] == if u == t then k else sub.slot[u])
  {
    hide Tree, Apart, Inserted, SlotAfter;
    OnlyOne(t, sub, t);
    if u in sh.home { OldTask(sh, sub, lift, u); }
    if u in sub.home { NewTask(sh, sub, lift, u); }
  }

  lemma PushedSeries(sh: Shape, x: Series, k: nat, t: Task, sub: Shape, lift: nat, y: Series)
    requires Pushable(sh, x, k, t, sub, lift)
    ensures var sh' := Pushed(sh, x, k, t, sub, lift);
      && (y in sh'.tasks <==> y in sh.tasks || (y in sub.tasks && y != sub.root))
      && (y in sh.tasks ==> sh'.tasks[y] == if y == x then Inserted(sh.tasks[x], k, t) else sh.tasks[y])
      && (y !in sh.tasks && y in sub.tasks && y != sub.root ==> sh'.tasks[y] == sub.tasks[y])
      && (y in sh'.owner ==> y in sh.owner || y in sub.owner)
      && (y in sh.tasks && y in sh.owner && y in sh.rank ==>
            y in sh'.owner && y in sh'.rank && sh'.owner[y] == sh.owner[y] && sh'.rank[y] == sh.rank[y])
      && (y in sub.owner ==> y in sh'.owner && y in sh'.rank && sh'.owner[y] == sub.owner[y] && sh'.rank[y] == sub.rank[y])
  {
    hide Tree, Inserted, SlotAfter;
    if y in sh.tasks { OldSeries(sh, sub, lift, y); }
  }

  lemma PushedSubs(sh: Shape, x: Series, k: nat, t: Task, sub: Shape, lift: nat, p: Task)
    requires Pushable(sh, x, k, t, sub, lift)
    ensures var sh' := Pushed(sh, x, k, t, sub, lift);
      && sh'.root == sh.root
      && (p in sh'.subs <==> p in sh.subs || p in sub.subs)
      && (p in sh.subs ==> sh'.subs[p] == sh.subs[p])
      && (p in sub.subs ==> sh'.subs[p] == sub.subs[p])
  {
    hide Tree, Inserted, SlotAfter;
    if p in sh.subs {
      TreeOf(sh, p);
      OldTask(sh, sub, lift, p);
    }
  }

  lemma PushedSlot(sh: Shape, x: Series, k: nat, t: Task, sub: Shape, lift: nat, y: Series, i: nat)
    requires Pushable(sh, x, k, t, sub, lift)
    ensures SlotOk(Pushed(sh, x, k, t, sub, lift), y, i)
  {
    hide Tree, Pushed;
    OnlyOne(t, sub, t);
    PushedSeries(sh, x, k, t, sub, lift, y);
    InsertedAt(sh.tasks[x], k, t);
    hide Inserted;
    if y in sh.tasks {
      var o := if y == x && i > k then i - 1 else i;
      TreeAt(sh, y, o);
      if y == x && i == k { PushedTask(sh, x, k, t, sub, lift, t); }
      else if o < |sh.tasks[y]| { PushedTask(sh, x, k, t, sub, lift, sh.tasks[y][o]); }
    } else if y in sub.tasks {
      TreeAt(sub, y, i);
      if i < |sub.tasks[y]| {
        OnlyOne(t, sub, sub.tasks[y][i]);
        PushedTask(sh, x, k, t, sub, lift, sub.tasks[y][i]);
      }
    }
  }

  lemma PushedHome(sh: Shape, x: Series, k: nat, t: Task, sub: Shape, lift: nat, u: Task)
    requires Pushable(sh, x, k, t, sub, lift)
    ensures HomeOk(Pushed(sh, x, k, t, sub, lift), u)
  {
    hide Tree, Pushed;
    OnlyOne(t, sub, u);
    PushedTask(sh, x, k, t, sub, lift, u);
    InsertedAt(sh.tasks[x], k, t);
    hide Inserted;
    if u == t {
      PushedSeries(sh, x, k, t, sub, lift, x);
    } else if u in sub.home {
      TreeOf(sub, u);
      PushedSeries(sh, x, k, t, sub, lift, sub.home[u]);
    } else if u in sh.home {
      TreeOf(sh, u);
      TreeAt(sh, sh.home[u], sh.slot[u]);
      PushedTask(sh, x, k, t, sub, lift, u);
      PushedSeries(sh, x, k, t, sub, lift, sh.home[u]);
    }
  }

  lemma PushedSub(sh: Shape, x: Series, k: nat, t: Task, sub: Shape, lift: nat, p: Task, j: nat)
    requires Pushable(sh, x, k, t, sub, lift)
    ensures SubOk(Pushed(sh, x, k, t, sub, lift), p, j)
  {
    hide Tree, Pushed;
    TreeBelow(sub, p, j);
    TreeBelow(sh, p, j);
    PushedSubs(sh, x, k, t, sub, lift, p);
    TreeAt(sh, sh.root, 0);
    if p in sub.subs && j < |sub.subs[p]| {
      TreeAt(sub, sub.subs[p][j], 0);
      PushedSeries(sh, x, k, t, sub, lift, sub.subs[p][j]);
    } else if p in sh.subs && j < |sh.subs[p]| {
      PushedSeries(sh, x, k, t, sub, lift, sh.subs[p][j]);
    }
  }

  lemma PushedOwner(sh: Shape, x: Series, k: nat, t: Task, sub: Shape, lift: nat, y: Series)
    requires Pushable(sh, x, k, t, sub, lift)
    ensures OwnerOk(Pushed(sh, x, k, t, sub, lift), y)
  {
    hide Tree, Pushed;
    TreeAt(sub, y, 0);
    TreeAt(sh, y, 0);
    PushedSeries(sh, x, k, t, sub, lift, y);
    if y in sub.owner {
      PushedSubs(sh, x, k, t, sub, lift, sub.owner[y]);
    } else if y in sh.owner {
      PushedSubs(sh, x, k, t, sub, lift, sh.owner[y]);
    }
  }

  lemma PushedLower(sh: Shape, x: Series, k: nat, t: Task, sub: Shape, lift: nat, y: Series, i: nat)
    requires Pushable(sh, x, k, t, sub, lift)
    ensures Lower(Pushed(sh, x, k, t, sub, lift), y, i)
  {
    hide Tree, Pushed;
    OnlyOne(t, sub, t);
    PushedSeries(sh, x, k, t, sub, lift, y);
    InsertedAt(sh.tasks[x], k, t);
    hide Inserted;
    TreeAt(sub, y, i);
    TreeAt(sh, y, 0);
    if y in sub.owner {
      TreeOf(sub, sub.owner[y]);
      PushedTask(sh, x, k, t, sub, lift, sub.owner[y]);
      if i < |sub.tasks[y]| { PushedTask(sh, x, k, t, sub, lift, sub.tasks[y][i]); }
    } else if y in sh.owner {
      var o := if y == x && i > k then i - 1 else i;
      TreeAt(sh, y, o);
      TreeOf(sh, sh.owner[y]);
      PushedTask(sh, x, k, t, sub, lift, sh.owner[y]);
      PushedTask(sh, x, k, t, sub, lift, if y == x && i == k then t else if o < |sh.tasks[y]| then sh.tasks[y][o] else t);
    }
  }

  lemma PushedEnds(sh: Shape, x: Series, k: nat, t: Task, sub: Shape, lift: nat, y: Series, p: Task)
    requires Pushable(sh, x, k, t, sub, lift)
    ensures var sh' := Pushed(sh, x, k, t, sub, lift);
      && sh'.root == sh.root && sh'.root in sh'.tasks && sh'.root !in sh'.owner
      && (y in sh'.tasks ==> sh'.tasks[y] != [] && (y != sh'.root ==> y in sh'.owner))
      && (p in sh'.subs ==> p in sh'.home)
  {
    assert y in sh.tasks && y != sh.root ==> y in sh.owner;
    assert y in sub.tasks && y != sub.root ==> y in sub.owner;
    hide Tree, Pushed;
    TreeAt(sh, y, 0);
    TreeAt(sub, y, 0);
    InsertedAt(sh.tasks[x], k, t);
    PushedSeries(sh, x, k, t, sub, lift, y);
    PushedSeries(sh, x, k, t, sub, lift, sh.root);
    OldSeries(sh, sub, lift, sh.root);
    PushedSubs(sh, x, k, t, sub, lift, p);
    TreeOf(sh, p);
    TreeOf(sub, p);
    PushedTask(sh, x, k, t, sub, lift, p);
  }

  lemma PushedTree(sh: Shape, x: Series, k: nat, t: Task, sub: Shape, lift: nat)
    requires Pushable(sh, x, k, t, sub, lift)
    ensures Tree(Pushed(sh, x, k, t, sub, lift))
  {
    var sh' := Pushed(sh, x, k, t, sub, lift);
    hide Pushed, Pushable, SlotOk, HomeOk, SubOk, OwnerOk, Lower;
    forall y, p ensures sh'.root in sh'.tasks && sh'.root !in sh'.owner
      && (y in sh'.tasks ==> sh'.tasks[y] != [] && (y != sh'.root ==> y in sh'.owner)) && (p in sh'.subs ==> p in sh'.home)
    {
      PushedEnds(sh, x, k, t, sub, lift, y, p);
    }
    forall y, i ensures SlotOk(sh', y, i) { PushedSlot(sh, x, k, t, sub, lift, y, i); }
    forall u ensures HomeOk(sh', u) { PushedHome(sh, x, k, t, sub, lift, u); }
    forall p, j ensures SubOk(sh', p, j) { PushedSub(sh, x, k, t, sub, lift, p, j); }
    forall y ensures OwnerOk(sh', y) { PushedOwner(sh, x, k, t, sub, lift, y); }
    forall y, i ensures Lower(sh', y, i) { PushedLower(sh, x, k, t, sub, lift, y, i); }
  }

  // The series has not come to its end.
  predicate Unfinished(sh: Shape, s: State, x: Series) {
    && x in sh.tasks && x in s.popped && x !in s.closed && s.popped[x] <= |sh.tasks[x]|
    && (s.popped[x] > 0 ==> !Is(s, sh.tasks[x][s.popped[x] - 1], Ended))
  }

  lemma PushKeepsTask(sh: Shape, x: Series, k: nat, t: Task, sub: Shape, lift: nat, s: State, s': State, u: Task)
    requires Inv(sh, s) && Pushable(sh, x, k, t, sub, lift) && x in s.popped && s.popped[x] <= k
    requires HasBegun(s, u) && u in s'.status && s'.status[u] == s.status[u]
    ensures TaskStays(sh, s, Pushed(sh, x, k, t, sub, lift), s', u)
  {
    BegunPlace(sh, s, u);
    hide Inv, Tree, Pushed;
    TreeOf(sh, u);
    TreeAt(sh, sh.home[u], sh.slot[u]);
    OldTask(sh, sub, lift, u);
    PushedTask(sh, x, k, t, sub, lift, u);
    PushedSubs(sh, x, k, t, sub, lift, u);
  }

  lemma StartedThere(sh: Shape, s: State, y: Series)
    requires Inv(sh, s) && y in s.popped
    ensures y in sh.tasks && s.popped[y] <= |sh.tasks[y]|
  {
    assert InOrder(sh, s, y);
  }

  lemma PushKeepsSeries(sh: Shape, x: Series, k: nat, t: Task, sub: Shape, lift: nat, s: State, s': State, y: Series)
    requires Inv(sh, s) && Pushable(sh, x, k, t, sub, lift) && Unfinished(sh, s, x) && s.popped[x] <= k
    requires HasStarted(s, y) && y in s'.popped && s'.popped[y] == s.popped[y]
    ensures SeriesStays(sh, s, Pushed(sh, x, k, t, sub, lift), s', y)
  {
    hide Inv, Tree, Pushed, Inserted, Apart;
    var sh' := Pushed(sh, x, k, t, sub, lift);
    StartedThere(sh, s, y);
    TreeAt(sh, y, 0);
    OldSeries(sh, sub, lift, y);
    PushedSeries(sh, x, k, t, sub, lift, y);
    InsertedBehind(sh.tasks[x], k, t, s.popped[x]);
    assert y == x ==> sh.tasks[x][..s.popped[x]] <= sh'.tasks[x];
  }

  lemma PushKeyed(sh: Shape, x: Series, k: nat, t: Task, sub: Shape, lift: nat, s: State)
    requires Inv(sh, s) && Pushable(sh, x, k, t, sub, lift)
    ensures Keyed(Pushed(sh, x, k, t, sub, lift), Joined(s, sub, sub.tasks.Keys - {sub.root}))
  {
    hide Inv, Tree, Pushed, Apart, SlotAfter, Inserted;
    var sh', s' := Pushed(sh, x, k, t, sub, lift), Joined(s, sub, sub.tasks.Keys - {sub.root});
    InvKeyed(sh, s);
    forall u ensures u in sh'.home <==> u in s'.status {
      TreeOf(sh, u);
      if u in sh.home { TreeAt(sh, sh.home[u], sh.slot[u]); }
      PushedTask(sh, x, k, t, sub, lift, u);
    }
    forall y ensures y in sh'.tasks <==> y in s'.popped { PushedSeries(sh, x, k, t, sub, lift, y); }
  }

  // What has not begun in the joined state
  lemma JoinedWaits(sh: Shape, s: State, sub: Shape, lift: nat, series: set<Series>)
    requires Inv(sh, s) && Tree(sub) && Apart(sh, sub, lift) && Fresh(s, sub)
    requires forall y :: y in series ==> y in sub.tasks && y !in sh.tasks && y !in s.closed
    ensures var s' := Joined(s, sub, series);
      && s' == s.(status := s'.status, popped := s'.popped)
      && (forall u: Task :: u in s.status && u !in sub.home ==> u in s'.status && s'.status[u] == s.status[u])
      && (forall y: Series :: y in s.popped && y !in series ==> y in s'.popped && s'.popped[y] == s.popped[y])
      && (forall u {:trigger TaskWaits(s, s', u)} :: u in s'.status && !HasBegun(s, u) ==> TaskWaits(s, s', u))
      && (forall y {:trigger s'.popped[y]} :: y in s'.popped && !HasStarted(s, y) ==> s'.popped[y] == 0 && y !in s.closed)
  {
    hide Tree;
    var s' := Joined(s, sub, series);
    NotStarted(sh, s);
    forall u | u in s'.status && !HasBegun(s, u) ensures TaskWaits(s, s', u) {
      if u !in sub.home { assert TaskOk(sh, s, u); }
    }
  }

  lemma PushedNew(sh: Shape, s: State, sub: Shape, lift: nat)
    requires Apart(sh, sub, lift) && Fresh(s, sub)
    ensures forall y :: y in sub.tasks.Keys - {sub.root} ==> y in sub.tasks && y !in sh.tasks && y !in s.closed
  {
  }

  // A task, and with a parallel work all its series and everything below them, may be put at any
  // place behind those taken out of a series that has not ended; the first task of a series is
  // not in its queue.
  lemma PushAllowed(sh: Shape, x: Series, k: nat, t: Task, sub: Shape, lift: nat, s: State)
    requires Inv(sh, s) && Unfinished(sh, s, x) && 1 <= k && s.popped[x] <= k
    requires Pushable(sh, x, k, t, sub, lift) && Fresh(s, sub)
    ensures Rearranged(sh, s, Pushed(sh, x, k, t, sub, lift), Joined(s, sub, sub.tasks.Keys - {sub.root}))
  {
    hide Inv, Tree, Pushed, Keyed, TaskStays, SeriesStays, TaskWaits, Joined, Apart, Fresh;
    var sh', s' := Pushed(sh, x, k, t, sub, lift), Joined(s, sub, sub.tasks.Keys - {sub.root});
    PushKeyed(sh, x, k, t, sub, lift, s);
    PushedTree(sh, x, k, t, sub, lift);
    PushedEnds(sh, x, k, t, sub, lift, x, t);
    PushedNew(sh, s, sub, lift);
    JoinedWaits(sh, s, sub, lift, sub.tasks.Keys - {sub.root});
    forall u | u in s.status && !s.status[u].Queued? ensures TaskStays(sh, s, sh', s', u) {
      BegunPlace(sh, s, u);
      OldTask(sh, sub, lift, u);
      PushKeepsTask(sh, x, k, t, sub, lift, s, s', u);
    }
    forall y | y in s.popped && s.popped[y] > 0 ensures SeriesStays(sh, s, sh', s', y) {
      StartedThere(sh, s, y);
      OldSeries(sh, sub, lift, y);
      PushKeepsSeries(sh, x, k, t, sub, lift, s, s', y);
    }
  }

  lemma NotStarted(sh: Shape, s: State)
    requires Inv(sh, s)
    ensures forall y :: y in s.popped && !HasStarted(s, y) ==> s.popped[y] == 0 && y !in s.closed
  {
    forall y | y in s.popped && !HasStarted(s, y) ensures s.popped[y] == 0 && y !in s.closed {
      assert InOrder(sh, s, y);
    }
  }

  // ---------------------------------------------------------------------------------
  // add_series (Workflow.cc:190-200) to a parallel work that has not begun

  // The root series of sub, with all that is below it, as the last one of parallel task q
  ghost function Grown(sh: Shape, q: Task, sub: Shape, lift: nat): Shape
    requires q in sh.subs
  {
    sh.(tasks := sh.tasks + sub.tasks, subs := sh.subs[q := sh.subs[q] + [sub.root]] + sub.subs,
        owner := sh.owner + sub.owner[sub.root := q], rank := sh.rank + sub.rank[sub.root := |sh.subs[q]|],
        home := sh.home + sub.home, slot := sh.slot + sub.slot, height := Heights(sh, sub, lift))
  }

  ghost predicate Addable(sh: Shape, q: Task, sub: Shape, lift: nat) {
    Tree(sh) && Tree(sub) && Apart(sh, sub, lift) && q in sh.subs && sub.root !in sh.tasks
  }

  lemma GrownTask(sh: Shape, q: Task, sub: Shape, lift: nat, u: Task)
    requires Addable(sh, q, sub, lift)
    ensures var sh' := Grown(sh, q, sub, lift);
      && (u in sh'.home <==> u in sh.home || u in sub.home)
      && (u in sh.home && u in sh.slot && u in sh.height ==>
            u in sh'.slot && u in sh'.height && sh'.home[u] == sh.home[u] && sh'.slot[u] == sh.slot[u] && sh'.height[u] == sh.height[u] + lift)
      && (u in sub.home ==>
            u in sh'.slot && u in sh'.height && sh'.home[u] == sub.home[u] && sh'.slot[u] == sub.slot[u] && sh'.height[u] == sub.height[u] < lift)
  {
    hide Tree;
    if u in sh.home { OldTask(sh, sub, lift, u); }
    if u in sub.home { NewTask(sh, sub, lift, u); }
  }

  lemma GrownSeries(sh: Shape, q: Task, sub: Shape, lift: nat, y: Series)
    requires Addable(sh, q, sub, lift)
    ensures var sh' := Grown(sh, q, sub, lift);
      && sh'.root == sh.root
      && (y in sh'.tasks <==> y in sh.tasks || y in sub.tasks)
      && (y in sh.tasks ==> y !in sub.tasks && sh'.tasks[y] == sh.tasks[y] && (y in sh'.owner <==> y in sh.owner))
      && (y in sub.tasks ==> y !in sh.tasks && sh'.tasks[y] == sub.tasks[y])
      && (y in sh'.owner ==> y in sh.owner || y in sub.owner || y == sub.root)
      && (y in sh.tasks && y in sh.owner && y in sh.rank ==> y in sh'.rank && sh'.owner[y] == sh.owner[y] && sh'.rank[y] == sh.rank[y])
      && (y in sub.owner ==> y in sh'.owner && y in sh'.rank && sh'.owner[y] == sub.owner[y] && sh'.rank[y] == sub.rank[y])
      && (y == sub.root ==> y in sh'.owner && y in sh'.rank && sh'.owner[y] == q && sh'.rank[y] == |sh.subs[q]|)
  {
    hide Tree, Heights, Apart;
    TreeAt(sub, y, 0);
    if y in sh.tasks { OldSeries(sh, sub, lift, y); }
  }

  lemma GrownSubs(sh: Shape, q: Task, sub: Shape, lift: nat, p: Task)
    requires Addable(sh, q, sub, lift)
    ensures var sh' := Grown(sh, q, sub, lift);
      && (p in sh'.subs <==> p in sh.subs || p in sub.subs)
      && (p in sh.subs ==> p in sh.home && sh'.subs[p] == sh.subs[p] + if p == q then [sub.root] else [])
      && (p in sub.subs ==> p in sub.home && sh'.subs[p] == sub.subs[p])
  {
    hide Tree;
    TreeOf(sub, p);
    TreeOf(sh, p);
    if p in sh.subs { OldTask(sh, sub, lift, p); }
  }

  lemma GrownSlot(sh: Shape, q: Task, sub: Shape, lift: nat, y: Series, i: nat)
    requires Addable(sh, q, sub, lift)
    ensures SlotOk(Grown(sh, q, sub, lift), y, i)
  {
    hide Tree, Grown;
    GrownSeries(sh, q, sub, lift, y);
    TreeAt(sh, y, i);
    TreeAt(sub, y, i);
    if y in sh.tasks && i < |sh.tasks[y]| { GrownTask(sh, q, sub, lift, sh.tasks[y][i]); }
    if y in sub.tasks && i < |sub.tasks[y]| { GrownTask(sh, q, sub, lift, sub.tasks[y][i]); }
  }

  lemma GrownHome(sh: Shape, q: Task, sub: Shape, lift: nat, u: Task)
    requires Addable(sh, q, sub, lift)
    ensures HomeOk(Grown(sh, q, sub, lift), u)
  {
    hide Tree, Grown;
    GrownTask(sh, q, sub, lift, u);
    TreeOf(sh, u);
    TreeOf(sub, u);
    if u in sh.home {
      TreeAt(sh, sh.home[u], sh.slot[u]);
      GrownSeries(sh, q, sub, lift, sh.home[u]);
    }
    if u in sub.home { GrownSeries(sh, q, sub, lift, sub.home[u]); }
  }

  lemma GrownSub(sh: Shape, q: Task, sub: Shape, lift: nat, p: Task, j: nat)
    requires Addable(sh, q, sub, lift)
    ensures SubOk(Grown(sh, q, sub, lift), p, j)
  {
    hide Tree, Grown;
    GrownSubs(sh, q, sub, lift, p);
    TreeBelow(sh, p, j);
    TreeBelow(sub, p, j);
    TreeAt(sh, sh.root, 0);
    TreeAt(sub, sub.root, 0);
    GrownSeries(sh, q, sub, lift, sub.root);
    if p in sh.subs {
      if j < |sh.subs[p]| { GrownSeries(sh, q, sub, lift, sh.subs[p][j]); }
    } else if p in sub.subs && j < |sub.subs[p]| { GrownSeries(sh, q, sub, lift, sub.subs[p][j]); }
  }

  lemma GrownOwner(sh: Shape, q: Task, sub: Shape, lift: nat, y: Series)
    requires Addable(sh, q, sub, lift)
    ensures OwnerOk(Grown(sh, q, sub, lift), y)
  {
    hide Tree, Grown;
    GrownSeries(sh, q, sub, lift, y);
    TreeAt(sh, y, 0);
    TreeAt(sub, y, 0);
    TreeAt(sub, sub.root, 0);
    GrownSubs(sh, q, sub, lift, if y in sub.owner then sub.owner[y] else if y in sh.owner then sh.owner[y] else q);
    GrownSubs(sh, q, sub, lift, q);
  }

  lemma GrownLower(sh: Shape, q: Task, sub: Shape, lift: nat, y: Series, i: nat)
    requires Addable(sh, q, sub, lift)
    ensures Lower(Grown(sh, q, sub, lift), y, i)
  {
    hide Tree, Grown;
    GrownSeries(sh, q, sub, lift, y);
    TreeAt(sh, y, i);
    TreeAt(sub, y, i);
    if y in sub.tasks && i < |sub.tasks[y]| {
      GrownTask(sh, q, sub, lift, sub.tasks[y][i]);
      if y in sub.owner {
        TreeOf(sub, sub.owner[y]);
        GrownTask(sh, q, sub, lift, sub.owner[y]);
      } else {
        HighTask(sh, q);
        GrownTask(sh, q, sub, lift, q);
      }
    } else if y in sh.owner && i < |sh.tasks[y]| {
      TreeOf(sh, sh.owner[y]);
      HighTask(sh, sh.owner[y]);
      GrownTask(sh, q, sub, lift, sh.tasks[y][i]);
      GrownTask(sh, q, sub, lift, sh.owner[y]);
    }
  }

  lemma HighTask(sh: Shape, u: Task)
    requires Tree(sh) && u in sh.subs
    ensures u in sh.home && u in sh.slot && u in sh.height
  {
    hide Tree;
    TreeOf(sh, u);
    TreeAt(sh, sh.home[u], sh.slot[u]);
  }

  lemma GrownEnds(sh: Shape, q: Task, sub: Shape, lift: nat, y: Series, p: Task)
    requires Addable(sh, q, sub, lift)
    ensures var sh' := Grown(sh, q, sub, lift);
      && sh'.root == sh.root && sh'.root in sh'.tasks && sh'.root !in sh'.owner
      && (y in sh'.tasks ==> sh'.tasks[y] != [] && (y != sh'.root ==> y in sh'.owner))
      && (p in sh'.subs ==> p in sh'.home)
  {
    assert y in sh.tasks && y != sh.root ==> y in sh.owner;
    assert y in sub.tasks && y != sub.root ==> y in sub.owner;
    hide Tree, Grown;
    TreeAt(sh, y, 0);
    TreeAt(sub, y, 0);
    GrownSeries(sh, q, sub, lift, y);
    GrownSeries(sh, q, sub, lift, sh.root);
    GrownSubs(sh, q, sub, lift, p);
    GrownTask(sh, q, sub, lift, p);
  }

  lemma GrownTree(sh: Shape, q: Task, sub: Shape, lift: nat)
    requires Addable(sh, q, sub, lift)
    ensures Tree(Grown(sh, q, sub, lift))
  {
    hide Grown, Apart, SlotOk, HomeOk, SubOk, OwnerOk, Lower;
    var sh' := Grown(sh, q, sub, lift);
    forall y, p ensures sh'.root in sh'.tasks && sh'.root !in sh'.owner
      && (y in sh'.tasks ==> sh'.tasks[y] != [] && (y != sh'.root ==> y in sh'.owner)) && (p in sh'.subs ==> p in sh'.home)
    {
      GrownEnds(sh, q, sub, lift, y, p);
    }
    forall y, i ensures SlotOk(sh', y, i) { GrownSlot(sh, q, sub, lift, y, i); }
    forall u ensures HomeOk(sh', u) { GrownHome(sh, q, sub, lift, u); }
    forall p, j ensures SubOk(sh', p, j) { GrownSub(sh, q, sub, lift, p, j); }
    forall y ensures OwnerOk(sh', y) { GrownOwner(sh, q, sub, lift, y); }
    forall y, i ensures Lower(sh', y, i) { GrownLower(sh, q, sub, lift, y, i); }
  }

  lemma GrowthKeyed(sh: Shape, q: Task, sub: Shape, lift: nat, s: State)
    requires Inv(sh, s) && Addable(sh, q, sub, lift)
    ensures Keyed(Grown(sh, q, sub, lift), Joined(s, sub, sub.tasks.Keys))
  {
    hide Inv, Tree, Grown, Apart;
    var sh', s' := Grown(sh, q, sub, lift), Joined(s, sub, sub.tasks.Keys);
    InvKeyed(sh, s);
    forall u ensures u in sh'.home <==> u in s'.status { GrownTask(sh, q, sub, lift, u); }
    forall y ensures y in sh'.tasks <==> y in s'.popped { GrownSeries(sh, q, sub, lift, y); }
  }

  lemma GrowthKeepsTask(sh: Shape, q: Task, sub: Shape, lift: nat, s: State, s': State, u: Task)
    requires Inv(sh, s) && Addable(sh, q, sub, lift) && !HasBegun(s, q)
    requires HasBegun(s, u) && u in s'.status && s'.status[u] == s.status[u]
    ensures TaskStays(sh, s, Grown(sh, q, sub, lift), s', u)
  {
    hide Inv, Tree, Grown, Apart;
    BegunPlace(sh, s, u);
    TreeOf(sh, u);
    TreeAt(sh, sh.home[u], sh.slot[u]);
    OldTask(sh, sub, lift, u);
    GrownTask(sh, q, sub, lift, u);
    GrownSubs(sh, q, sub, lift, u);
  }

  lemma GrowthKeepsSeries(sh: Shape, q: Task, sub: Shape, lift: nat, s: State, s': State, y: Series)
    requires Inv(sh, s) && Addable(sh, q, sub, lift) && HasStarted(s, y) && y in s'.popped && s'.popped[y] == s.popped[y]
    ensures SeriesStays(sh, s, Grown(sh, q, sub, lift), s', y)
  {
    hide Inv, Tree, Grown, Apart;
    StartedThere(sh, s, y);
    TreeAt(sh, y, 0);
    GrownSeries(sh, q, sub, lift, y);
  }

  // As long as a parallel work has not begun a series may be added to it, with everything below.
  lemma AddSeriesAllowed(sh: Shape, q: Task, sub: Shape, lift: nat, s: State)
    requires Inv(sh, s) && Addable(sh, q, sub, lift) && !HasBegun(s, q) && Fresh(s, sub) && sub.root !in s.closed
    ensures Rearranged(sh, s, Grown(sh, q, sub, lift), Joined(s, sub, sub.tasks.Keys))
  {
    hide Inv, Tree, Grown, Keyed, TaskStays, SeriesStays, TaskWaits, Joined, Apart, Fresh;
    var sh', s' := Grown(sh, q, sub, lift), Joined(s, sub, sub.tasks.Keys);
    GrowthKeyed(sh, q, sub, lift, s);
    GrownTree(sh, q, sub, lift);
    GrownEnds(sh, q, sub, lift, sh.root, q);
    PushedNew(sh, s, sub, lift);
    JoinedWaits(sh, s, sub, lift, sub.tasks.Keys);
    forall u | u in s.status && !s.status[u].Queued? ensures TaskStays(sh, s, sh', s', u) {
      BegunPlace(sh, s, u);
      OldTask(sh, sub, lift, u);
      GrowthKeepsTask(sh, q, sub, lift, s, s', u);
    }
    forall y | y in s.popped && s.popped[y] > 0 ensures SeriesStays(sh, s, sh', s', y) {
      StartedThere(sh, s, y);
      GrownSeries(sh, q, sub, lift, y);
      GrowthKeepsSeries(sh, q, sub, lift, s, s', y);
    }
  }

  // ---------------------------------------------------------------------------------
  // cancel: the next pop (Workflow.cc:96-111) gives up all the tasks that are left, and with a
  // parallel task everything below it

  // d and ds are the tasks and the series below place k of series x.
  ghost predicate Below(sh: Shape, x: Series, k: nat, d: set<Task>, ds: set<Series>) {
    && x !in ds && d <= sh.home.Keys && ds <= sh.tasks.Keys
    && (forall t :: t in sh.home && t in sh.slot ==> (t in d <==> sh.home[t] in ds || (sh.home[t] == x && sh.slot[t] >= k)))
    && (forall y :: y in sh.tasks ==> (y in ds <==> y in sh.owner && sh.owner[y] in d))
  }

  function Pruned(sh: Shape, x: Series, k: nat, d: set<Task>, ds: set<Series>): Shape
    requires x in sh.tasks && k <= |sh.tasks[x]|
  {
    sh.(tasks := sh.tasks[x := sh.tasks[x][..k]] - ds,
        subs := sh.subs - d, home := sh.home - d, slot := sh.slot - d, owner := sh.owner - ds, rank := sh.rank - ds)
  }

  lemma PrunedSlot(sh: Shape, x: Series, k: nat, d: set<Task>, ds: set<Series>, y: Series, i: nat)
    requires Tree(sh) && x in sh.tasks && k <= |sh.tasks[x]| && Below(sh, x, k, d, ds)
    ensures SlotOk(Pruned(sh, x, k, d, ds), y, i)
  {
    assert SlotOk(sh, y, i);
  }

  lemma PrunedHome(sh: Shape, x: Series, k: nat, d: set<Task>, ds: set<Series>, t: Task)
    requires Tree(sh) && x in sh.tasks && k <= |sh.tasks[x]| && Below(sh, x, k, d, ds)
    ensures HomeOk(Pruned(sh, x, k, d, ds), t)
  {
    assert HomeOk(sh, t);
  }

  lemma PrunedSub(sh: Shape, x: Series, k: nat, d: set<Task>, ds: set<Series>, p: Task, j: nat)
    requires Tree(sh) && x in sh.tasks && k <= |sh.tasks[x]| && Below(sh, x, k, d, ds)
    ensures SubOk(Pruned(sh, x, k, d, ds), p, j)
  {
    assert SubOk(sh, p, j);
  }

  lemma PrunedOwner(sh: Shape, x: Series, k: nat, d: set<Task>, ds: set<Series>, y: Series)
    requires Tree(sh) && x in sh.tasks && k <= |sh.tasks[x]| && Below(sh, x, k, d, ds)
    ensures OwnerOk(Pruned(sh, x, k, d, ds), y)
  {
    assert OwnerOk(sh, y);
  }

  lemma PrunedTree(sh: Shape, x: Series, k: nat, d: set<Task>, ds: set<Series>)
    requires Tree(sh) && x in sh.tasks && 1 <= k <= |sh.tasks[x]| && Below(sh, x, k, d, ds)
    ensures Tree(Pruned(sh, x, k, d, ds))
  {
    var sh' := Pruned(sh, x, k, d, ds);
    forall y, i ensures SlotOk(sh', y, i) { PrunedSlot(sh, x, k, d, ds, y, i); }
    forall t ensures HomeOk(sh', t) { PrunedHome(sh, x, k, d, ds, t); }
    forall p, j ensures SubOk(sh', p, j) { PrunedSub(sh, x, k, d, ds, p, j); }
    forall y ensures OwnerOk(sh', y) { PrunedOwner(sh, x, k, d, ds, y); }
    forall y, i ensures Lower(sh', y, i) { assert Lower(sh, y, i) && SlotOk(sh, y, i); }
  }

  // Nothing below a place that has not been reached has begun.
  lemma {:induction false} BelowWaits(sh: Shape, s: State, x: Series, k: nat, d: set<Task>, ds: set<Series>, t: Task, top: nat)
    requires Inv(sh, s) && x in sh.tasks && x in s.popped && s.popped[x] <= k && Below(sh, x, k, d, ds) && t in d
    requires forall u :: u in sh.height ==> sh.height[u] <= top
    ensures !HasBegun(s, t)
    decreases if t in sh.height then top - sh.height[t] else top
  {
    assert HomeOk(sh, t) && SlotOk(sh, sh.home[t], sh.slot[t]);
    var y := sh.home[t];
    if y in ds {
      assert OwnerOk(sh, y) && Lower(sh, y, sh.slot[t]);
      BelowWaits(sh, s, x, k, d, ds, sh.owner[y], top);
      BegunHomeOf(sh, s, t);
    } else {
      BegunSlotOf(sh, s, t);
    }
  }

  lemma BegunHomeOf(sh: Shape, s: State, t: Task)
    requires Inv(sh, s) && t in sh.home && sh.home[t] in sh.owner
    ensures HasBegun(s, t) ==> HasBegun(s, sh.owner[sh.home[t]])
  {
    if HasBegun(s, t) {
      BegunPlace(sh, s, t);
      OwnerBegun(sh, s, sh.home[t]);
    }
  }

  lemma BegunSlotOf(sh: Shape, s: State, t: Task)
    requires Inv(sh, s) && t in sh.home && t in sh.slot && sh.home[t] in s.popped
    ensures HasBegun(s, t) ==> sh.slot[t] < s.popped[sh.home[t]]
  {
    if HasBegun(s, t) { BegunPlace(sh, s, t); }
  }

  lemma CutKeepsSeries(sh: Shape, s: State, x: Series, d: set<Task>, ds: set<Series>, y: Series)
    requires Inv(sh, s) && Unfinished(sh, s, x) && s.popped[x] > 0 && Below(sh, x, s.popped[x], d, ds)
    requires (forall t :: t in d ==> !HasBegun(s, t)) && HasStarted(s, y)
    ensures SeriesStays(sh, s, Pruned(sh, x, s.popped[x], d, ds), s.(status := s.status - d, popped := s.popped - ds), y)
  {
    hide Inv;
    StartedThere(sh, s, y);
    if y in sh.owner { OwnerBegun(sh, s, y); }
  }

  // A canceled series loses all the tasks that have not been taken out of it.
  lemma CancelAllowed(sh: Shape, s: State, x: Series, d: set<Task>, ds: set<Series>)
    requires Inv(sh, s) && Unfinished(sh, s, x) && s.popped[x] > 0 && Below(sh, x, s.popped[x], d, ds)
    ensures Rearranged(sh, s, Pruned(sh, x, s.popped[x], d, ds), s.(status := s.status - d, popped := s.popped - ds))
  {
    hide Inv, Tree, TaskStays, TaskWaits, SeriesStays, Below;
    var k := s.popped[x];
    var sh', s' := Pruned(sh, x, k, d, ds), s.(status := s.status - d, popped := s.popped - ds);
    InvKeyed(sh, s);
    PrunedTree(sh, x, k, d, ds);
    var top := Tallest(sh.height);
    forall t | t in d ensures !HasBegun(s, t) { BelowWaits(sh, s, x, k, d, ds, t, top); }
    CutKeepsTasks(sh, s, sh', s', d);
    forall y | y in s.popped && s.popped[y] > 0 ensures SeriesStays(sh, s, sh', s', y) {
      CutKeepsSeries(sh, s, x, d, ds, y);
    }
    NotStarted(sh, s);
  }

  lemma CutKeepsTasks(sh: Shape, s: State, sh': Shape, s': State, d: set<Task>)
    requires Inv(sh, s) && (forall t :: t in d ==> !HasBegun(s, t)) && s'.status == s.status - d
    requires sh'.home == sh.home - d && sh'.slot == sh.slot - d && sh'.subs == sh.subs - d
    ensures forall t {:trigger TaskStays(sh, s, sh', s', t)} :: t in s.status && !s.status[t].Queued? ==> TaskStays(sh, s, sh', s', t)
    ensures forall t {:trigger TaskWaits(s, s', t)} :: t in s'.status && !HasBegun(s, t) ==> TaskWaits(s, s', t)
  {
    forall t | t in s.status && !s.status[t].Queued? ensures TaskStays(sh, s, sh', s', t) {
      BegunPlace(sh, s, t);
    }
    forall t | t in s'.status && !HasBegun(s, t) ensures TaskWaits(s, s', t) {
      assert TaskOk(sh, s, t);
    }
  }
}
