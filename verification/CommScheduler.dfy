/**
  src/net/CommScheduler.cc: targets with a load limit, and a group that keeps its targets in
  an indexed binary heap ordered by the ratio cur_load / max_load.
 */
module CommScheduler {
  import opened Collections

  // How a locked region of acquire ends.
  datatype Grant = Granted | Waiting | Denied

  // The condition variable a release signals
  datatype Signal = NoSignal | OfTarget | OfGroup

  class CommSchedTarget {
    var maxLoad: nat
    var curLoad: nat
    var waitCnt: nat
    var group: CommSchedGroup?
    var index: int

    constructor (maxConnections: nat)
      requires maxConnections > 0
      ensures maxLoad == maxConnections && curLoad == 0 && waitCnt == 0 && group == null
    {
      maxLoad, curLoad, waitCnt, group, index := maxConnections, 0, 0, null, 0;
    }

    // What acquire and release may touch besides the target: its group's heap.
    ghost predicate Registered()
      reads this, group, if group == null then {} else {group.tgHeap} + Elements(group.members)
    {
      Sound() && (group != null ==> group.Valid() && this in group.members)
    }

    // acquire (CommScheduler.cc:79-124) up to its end, or to its first wait for the condition,
    // which gives the mutex up.
    method Acquire(wait: bool) returns (grant: Grant)
      requires Registered()
      modifies this`curLoad, this`waitCnt
      modifies (if group == null then {} else {group})`curLoad, (if group == null then {} else {group})`members
      modifies if group == null then {} else {group.tgHeap}
      modifies (if group == null then {} else Elements(group.members))`index
      ensures Registered()
      ensures grant == if old(curLoad) < maxLoad then Granted else if wait then Waiting else Denied
      ensures Charged(old(curLoad), grant) && waitCnt == old(waitCnt) + if grant.Waiting? then 1 else 0
      ensures group != null ==> GroupCharged(old(group.curLoad), old(Elements(group.members)), grant)
    {
      hide CommSchedGroup.Valid;
      if curLoad >= maxLoad {
        if wait {
          waitCnt := waitCnt + 1;
          return Waiting;
        }
        return Denied;
      }
      TakeOne();
      return Granted;
    }

    // From the return of a wait to the end or the next wait (CommScheduler.cc:98-118); failed
    // says that the wait has timed out.
    method Woken(failed: bool) returns (grant: Grant)
      requires Registered() && waitCnt > 0
      modifies this`curLoad, this`waitCnt
      modifies (if group == null then {} else {group})`curLoad, (if group == null then {} else {group})`members
      modifies if group == null then {} else {group.tgHeap}
      modifies (if group == null then {} else Elements(group.members))`index
      ensures Registered()
      ensures grant == if old(curLoad) < maxLoad then Granted else if failed then Denied else Waiting
      ensures Charged(old(curLoad), grant) && waitCnt == old(waitCnt) - if grant.Waiting? then 0 else 1
      ensures group != null ==> GroupCharged(old(group.curLoad), old(Elements(group.members)), grant)
    {
      hide CommSchedGroup.Valid;
      waitCnt := waitCnt - 1;
      if curLoad >= maxLoad && !failed {
        waitCnt := waitCnt + 1;
        return Waiting;
      }
      if curLoad < maxLoad {
        TakeOne();
        return Granted;
      }
      return Denied;
    }

    ghost predicate Charged(was: nat, grant: Grant)
      reads this`curLoad
    {
      curLoad == was + if grant.Granted? then 1 else 0
    }

    ghost predicate GroupCharged(was: nat, members: set<CommSchedTarget>, grant: Grant)
      requires group != null
      reads this`group, group
    {
      Elements(group.members) == members && group.curLoad == was + if grant.Granted? then 1 else 0
    }

    // CommScheduler.cc:107-112
    method TakeOne()
      requires Registered() && curLoad < maxLoad
      modifies this`curLoad
      modifies (if group == null then {} else {group})`curLoad, (if group == null then {} else {group})`members
      modifies if group == null then {} else {group.tgHeap}
      modifies (if group == null then {} else Elements(group.members))`index
      ensures Registered() && curLoad == old(curLoad) + 1
      ensures group != null ==> Elements(group.members) == old(Elements(group.members)) && group.curLoad == old(group.curLoad) + 1
    {
      assert group != null ==> 0 <= index < |group.members| && group.members[index] == this;
      hide CommSchedGroup.Valid;
      if group == null {
        curLoad := curLoad + 1;
      } else {
        group.Charge(index, this);
      }
    }

    // release (CommScheduler.cc:127-153): every release follows an acquire of its own; whom it
    // signals: who waits for the target before who waits for the group.
    method Release(keepAlive: bool) returns (signal: Signal)
      requires Registered() && curLoad > 0
      modifies this`curLoad
      modifies (if group == null then {} else {group})`curLoad, (if group == null then {} else {group})`members
      modifies if group == null then {} else {group.tgHeap}
      modifies (if group == null then {} else Elements(group.members))`index
      ensures Registered() && curLoad == old(curLoad) - 1
      ensures group != null ==> Elements(group.members) == old(Elements(group.members)) && group.curLoad == old(group.curLoad) - 1
      ensures group != null && keepAlive ==> 0 <= index && StrictlyAbove(group.members, LoadsOf(group.members), index)
      ensures group != null && !keepAlive ==> HeavierMoved(old(group.members), group.members, LoadsOf(old(group.members)), this)
      ensures signal.OfTarget? <==> waitCnt > 0
      ensures signal.OfGroup? <==> waitCnt == 0 && group != null && group.waitCnt > 0
    {
      assert group != null ==> 0 <= index < |group.members| && group.members[index] == this;
      hide CommSchedGroup.Valid, HeavierMoved;
      signal := if waitCnt > 0 then OfTarget else NoSignal;
      if group == null {
        curLoad := curLoad - 1;
      } else {
        if waitCnt == 0 && group.waitCnt > 0 {
          signal := OfGroup;
        }
        group.Discharge(index, this, keepAlive);
      }
    }

    ghost predicate Sound()
      reads this`maxLoad, this`curLoad
    {
      0 < maxLoad && curLoad <= maxLoad
    }
  }

  // ---------------------------------------------------------------------------------
  // Loads and their comparison

  ghost function Load(t: CommSchedTarget): real
    requires t.maxLoad > 0
    reads t`curLoad, t`maxLoad
  {
    t.curLoad as real / t.maxLoad as real
  }

  // target_cmp (CommScheduler.cc:155-167)
  function TargetCmp(a: CommSchedTarget, b: CommSchedTarget): int
    reads a`curLoad, a`maxLoad, b`curLoad, b`maxLoad
  {
    var load1 := a.curLoad * b.maxLoad;
    var load2 := b.curLoad * a.maxLoad;
    if load1 < load2 then -1 else if load1 > load2 then 1 else 0
  }

  // Cross-multiplying compares the ratios.
  lemma CmpIsRatio(a: CommSchedTarget, b: CommSchedTarget)
    requires a.maxLoad > 0 && b.maxLoad > 0
    ensures TargetCmp(a, b) < 0 <==> Load(a) < Load(b)
    ensures TargetCmp(a, b) > 0 <==> Load(a) > Load(b)
  {
    CrossMultiply(a.curLoad, a.maxLoad, b.curLoad, b.maxLoad);
    CrossMultiply(b.curLoad, b.maxLoad, a.curLoad, a.maxLoad);
  }

  lemma CrossMultiply(p: nat, q: nat, r: nat, s: nat)
    requires q > 0 && s > 0
    ensures p * s < r * q <==> p as real / q as real < r as real / s as real
  {
    var x, y := p as real / q as real, r as real / s as real;
    var q', s' := q as real, s as real;
    assert x * q' == p as real && y * s' == r as real;
    assert (p * s) as real == x * (q' * s') by {
      assert (p * s) as real == p as real * s';
    }
    assert (r * q) as real == y * (q' * s') by {
      assert (r * q) as real == r as real * q';
    }
    Scale(x, y, q' * s');
  }

  lemma Scale(x: real, y: real, k: real)
    requires k > 0.0
    ensures x < y <==> x * k < y * k
  {
    if x < y { assert (y - x) * k > 0.0; } else { assert (x - y) * k >= 0.0; }
  }

  // ---------------------------------------------------------------------------------
  // Binary heaps over a sequence of targets, with given loads

  type Loads = map<CommSchedTarget, real>

  ghost predicate Covers(load: Loads, h: seq<CommSchedTarget>) {
    forall i :: 0 <= i < |h| ==> h[i] in load
  }

  ghost predicate Measures(load: Loads)
    reads load.Keys`curLoad, load.Keys`maxLoad
  {
    forall t :: t in load ==> t.maxLoad > 0 && load[t] == Load(t)
  }

  // The parent's load does not exceed the child's at position j.
  ghost predicate Edge(h: seq<CommSchedTarget>, load: Loads, j: nat)
    requires 0 < j < |h| && Covers(load, h)
  {
    load[h[(j - 1) / 2]] <= load[h[j]]
  }

  ghost predicate HeapOrdered(h: seq<CommSchedTarget>, load: Loads)
    requires Covers(load, h)
  {
    forall j :: 0 < j < |h| ==> Edge(h, load, j)
  }

  // Ordered except perhaps between position k and its children.
  ghost predicate BrokenBelow(h: seq<CommSchedTarget>, load: Loads, k: nat)
    requires Covers(load, h) && k < |h|
  {
    && (forall j :: 0 < j < |h| && (j - 1) / 2 != k ==> Edge(h, load, j))
    && (forall j :: 0 < j < |h| && (j - 1) / 2 == k && k > 0 ==> load[h[(k - 1) / 2]] <= load[h[j]])
  }

  // Ordered except perhaps on the edges that touch position k.
  ghost predicate BrokenAt(h: seq<CommSchedTarget>, load: Loads, k: nat)
    requires Covers(load, h) && k < |h|
  {
    && (forall j :: 0 < j < |h| && (j - 1) / 2 != k && j != k ==> Edge(h, load, j))
    && (forall j :: 0 < j < |h| && (j - 1) / 2 == k && k > 0 ==> load[h[(k - 1) / 2]] <= load[h[j]])
  }

  // Ordered except perhaps between position k and its parent.
  ghost predicate BrokenAbove(h: seq<CommSchedTarget>, load: Loads, k: nat)
    requires Covers(load, h) && k < |h|
  {
    && (forall j :: 0 < j < |h| && j != k ==> Edge(h, load, j))
    && (forall j :: 0 < j < |h| && (j - 1) / 2 == k && k > 0 ==> load[h[(k - 1) / 2]] <= load[h[j]])
  }

  // Every ancestor of position k is strictly less loaded: it suffices to look at the parent.
  ghost predicate StrictlyAbove(h: seq<CommSchedTarget>, load: Loads, k: int)
    requires Covers(load, h) && 0 <= k < |h|
  {
    k > 0 ==> load[h[(k - 1) / 2]] < load[h[k]]
  }

  // Of the others only members with more load than the target have moved.
  ghost predicate HeavierMoved(h0: seq<CommSchedTarget>, h: seq<CommSchedTarget>, load: Loads, target: CommSchedTarget)
    requires Covers(load, h0) && |h| == |h0| && target in load
  {
    forall j :: 0 <= j < |h| && h[j] != h0[j] && h0[j] != target ==> load[target] < load[h0[j]]
  }

  lemma NoneMoved(h: seq<CommSchedTarget>, load: Loads, target: CommSchedTarget)
    requires Covers(load, h) && target in load
    ensures HeavierMoved(h, h, load, target)
  {
  }

  lemma HeavierMovedOn(h0: seq<CommSchedTarget>, h: seq<CommSchedTarget>, load: Loads, k: nat)
    requires Covers(load, h0) && Covers(load, h) && |h| == |h0| && 0 < k < |h|
    requires HeavierMoved(h0, h, load, h[k]) && load[h[k]] < load[h[(k - 1) / 2]]
    ensures HeavierMoved(h0, Swapped(h, k, (k - 1) / 2), load, h[k])
  {
  }

  ghost function Swapped<T>(h: seq<T>, i: nat, j: nat): seq<T>
    requires i < |h| && j < |h|
  {
    h[i := h[j]][j := h[i]]
  }

  ghost predicate Shuffled<T>(h: seq<T>, h0: seq<T>) {
    |h| == |h0| && multiset(h) == multiset(h0)
  }

  lemma SwapShuffles<T>(h: seq<T>, i: nat, j: nat)
    requires i < |h| && j < |h|
    ensures Shuffled(Swapped(h, i, j), h)
    ensures NoDuplicates(h) ==> NoDuplicates(Swapped(h, i, j))
  {
  }


  // No need to climb further.
  lemma SiftedUp(h: seq<CommSchedTarget>, load: Loads, k: nat)
    requires Covers(load, h) && k < |h| && (k > 0 ==> Edge(h, load, k))
    ensures BrokenAt(h, load, k) ==> BrokenBelow(h, load, k)
    ensures BrokenAbove(h, load, k) ==> HeapOrdered(h, load)
  {
  }

  // One step up.
  lemma SwapUp(h: seq<CommSchedTarget>, load: Loads, k: nat)
    requires Covers(load, h) && 0 < k < |h| && BrokenAt(h, load, k) && load[h[k]] <= load[h[(k - 1) / 2]]
    ensures var h' := Swapped(h, k, (k - 1) / 2);
      Covers(load, h') && BrokenAbove(h', load, (k - 1) / 2) && BrokenAt(h', load, (k - 1) / 2)
  {
    var p, h' := (k - 1) / 2, Swapped(h, k, (k - 1) / 2);
    assert p > 0 ==> Edge(h, load, p);
    forall j | 0 < j < |h| && j != p ensures Edge(h', load, j) {
      if (j - 1) / 2 == p && j != k { assert Edge(h, load, j); }
      if (j - 1) / 2 != p && (j - 1) / 2 != k { assert Edge(h, load, j); }
    }
    forall j | 0 < j < |h| && (j - 1) / 2 == p && p > 0 ensures load[h'[(p - 1) / 2]] <= load[h'[j]] {
      if j != k { assert Edge(h, load, j); }
    }
  }

  // ---------------------------------------------------------------------------------
  // Sums over the members

  ghost function SumOf(h: seq<CommSchedTarget>, f: map<CommSchedTarget, nat>): nat
    requires forall t :: t in h ==> t in f
  {
    if h == [] then 0 else SumOf(h[..|h| - 1], f) + f[h[|h| - 1]]
  }

  lemma {:induction false} SumSplit(h: seq<CommSchedTarget>, f: map<CommSchedTarget, nat>, k: nat)
    requires (forall t :: t in h ==> t in f) && k < |h|
    ensures SumOf(h, f) == SumOf(h[..k] + h[k + 1..], f) + f[h[k]]
  {
    var n := |h| - 1;
    if k == n {
      assert h[..k] + h[k + 1..] == h[..n];
    } else {
      SumSplit(h[..n], f, k);
      var g := h[..k] + h[k + 1..];
      assert g[..|g| - 1] == h[..n][..k] + h[..n][k + 1..];
    }
  }

  lemma {:induction false} SumShuffled(h: seq<CommSchedTarget>, h': seq<CommSchedTarget>, f: map<CommSchedTarget, nat>)
    requires Shuffled(h, h') && forall t :: t in h ==> t in f
    ensures forall t :: t in h' ==> t in f
    ensures SumOf(h', f) == SumOf(h, f)
    decreases |h|
  {
    ShuffledElements(h, h');
    assert forall t :: t in h' ==> t in Elements(h');
    if h != [] {
      var n := |h| - 1;
      assert h[n] in Elements(h);
      var k :| 0 <= k < |h'| && h'[k] == h[n];
      DropShuffled(h, h', k);
      SumShuffled(h[..n], h'[..k] + h'[k + 1..], f);
      SumSplit(h', f, k);
    }
  }

  lemma DropShuffled<T>(h: seq<T>, h': seq<T>, k: nat)
    requires Shuffled(h, h') && h != [] && k < |h'| && h'[k] == h[|h| - 1]
    ensures Shuffled(h[..|h| - 1], h'[..k] + h'[k + 1..])
  {
    var n := |h| - 1;
    assert h == h[..n] + [h[n]];
    assert h' == h'[..k] + [h'[k]] + h'[k + 1..];
    assert multiset(h'[..k] + h'[k + 1..]) == multiset(h') - multiset{h[n]} == multiset(h[..n]);
  }

  lemma {:induction false} SumChanged(h: seq<CommSchedTarget>, f: map<CommSchedTarget, nat>, f': map<CommSchedTarget, nat>, x: CommSchedTarget)
    requires NoDuplicates(h) && forall t :: t in h ==> t in f && t in f' && (t != x ==> f'[t] == f[t])
    ensures x !in h ==> SumOf(h, f') == SumOf(h, f)
    ensures x in h ==> SumOf(h, f') == SumOf(h, f) - f[x] + f'[x] && SumOf(h, f) >= f[x]
  {
    if h != [] {
      SumChanged(h[..|h| - 1], f, f', x);
    }
  }

  // If every member is full, so is the group.
  lemma {:induction false} SumDominated(h: seq<CommSchedTarget>, f: map<CommSchedTarget, nat>, g: map<CommSchedTarget, nat>)
    requires forall t :: t in h ==> t in f && t in g && f[t] <= g[t]
    ensures SumOf(h, f) <= SumOf(h, g)
  {
    if h != [] { SumDominated(h[..|h| - 1], f, g); }
  }

  // In these maps every target outside h is given the same value, so that maps that agree are one.
  ghost function CurLoads(h: seq<CommSchedTarget>): (f: map<CommSchedTarget, nat>)
    reads Elements(h)`curLoad
    ensures f.Keys == Elements(h) && forall t :: t in h ==> f[t] == t.curLoad
  {
    map t | t in Elements(h) :: if t in Elements(h) then t.curLoad else 0
  }

  ghost function MaxLoads(h: seq<CommSchedTarget>): (f: map<CommSchedTarget, nat>)
    reads Elements(h)`maxLoad
    ensures f.Keys == Elements(h) && forall t :: t in h ==> f[t] == t.maxLoad
  {
    map t | t in Elements(h) :: if t in Elements(h) then t.maxLoad else 0
  }

  ghost predicate Limited(h: seq<CommSchedTarget>)
    reads Elements(h)`maxLoad, Elements(h)`curLoad
  {
    forall t :: t in h ==> 0 < t.maxLoad && t.curLoad <= t.maxLoad
  }

  ghost function LoadsOf(h: seq<CommSchedTarget>): (m: Loads)
    requires Limited(h)
    reads Elements(h)`maxLoad, Elements(h)`curLoad
    ensures m.Keys == Elements(h) && Measures(m) && Covers(m, h)
  {
    map t | t in Elements(h) :: if t in Elements(h) then Load(t) else 0.0
  }

  // The root of a heap is least.
  lemma {:induction false} RootIsLeast(h: seq<CommSchedTarget>, load: Loads, k: nat)
    requires Covers(load, h) && HeapOrdered(h, load) && k < |h|
    ensures load[h[0]] <= load[h[k]]
  {
    if k > 0 {
      assert Edge(h, load, k);
      RootIsLeast(h, load, (k - 1) / 2);
    }
  }

  // A load that grew (shrank) leaves the heap in order except below (above) its place.
  lemma LoadChanged(h: seq<CommSchedTarget>, load: Loads, load': Loads, k: nat)
    requires Covers(load, h) && Covers(load', h) && NoDuplicates(h) && k < |h| && HeapOrdered(h, load)
    requires forall i :: 0 <= i < |h| && i != k ==> load'[h[i]] == load[h[i]]
    ensures load'[h[k]] >= load[h[k]] ==> BrokenBelow(h, load', k)
    ensures load'[h[k]] <= load[h[k]] ==> BrokenAbove(h, load', k)
  {
    assert k > 0 ==> Edge(h, load, k);
    forall j | 0 < j < |h| && (j - 1) / 2 == k ensures k > 0 ==> load[h[(k - 1) / 2]] <= load[h[j]] {
      assert Edge(h, load, j);
    }
    forall j | 0 < j < |h| && (j - 1) / 2 != k && j != k ensures Edge(h, load', j) { assert Edge(h, load, j); }
    if load'[h[k]] >= load[h[k]] {
      forall j | 0 < j < |h| && (j - 1) / 2 != k ensures Edge(h, load', j) { assert Edge(h, load, j); }
    }
    if load'[h[k]] <= load[h[k]] {
      forall j | 0 < j < |h| && j != k ensures Edge(h, load', j) { assert Edge(h, load, j); }
    }
  }

  // One step down, to the lesser child c of k.
  lemma SwapDown(h: seq<CommSchedTarget>, load: Loads, k: nat, c: nat)
    requires Covers(load, h) && k < c < |h| && (c - 1) / 2 == k && BrokenBelow(h, load, k)
    requires load[h[c]] <= load[h[k]] && LeastChild(h, load, k, c)
    ensures Covers(load, Swapped(h, k, c)) && BrokenBelow(Swapped(h, k, c), load, c)
  {
    var h' := Swapped(h, k, c);
    forall j | 0 < j < |h| && (j - 1) / 2 != c ensures Edge(h', load, j) {
      if (j - 1) / 2 != k && j != k { assert Edge(h, load, j); }
    }
    forall j | 0 < j < |h| && (j - 1) / 2 == c ensures load[h'[k]] <= load[h'[j]] {
      assert Edge(h, load, j);
    }
  }

  ghost predicate LeastChild(h: seq<CommSchedTarget>, load: Loads, k: nat, c: nat)
    requires Covers(load, h) && c < |h|
  {
    forall j :: 0 < j < |h| && (j - 1) / 2 == k ==> load[h[c]] <= load[h[j]]
  }

  lemma LeastOfTwo(h: seq<CommSchedTarget>, load: Loads, k: nat, c: nat)
    requires Covers(load, h) && c < |h|
    requires 2 * k + 1 < |h| ==> load[h[c]] <= load[h[2 * k + 1]]
    requires 2 * k + 2 < |h| ==> load[h[c]] <= load[h[2 * k + 2]]
    ensures LeastChild(h, load, k, c)
  {
    forall j | 0 < j < |h| && (j - 1) / 2 == k ensures load[h[c]] <= load[h[j]] {
      assert j == 2 * k + 1 || j == 2 * k + 2;
    }
  }

  // No need to sink further.
  lemma SiftedDown(h: seq<CommSchedTarget>, load: Loads, k: nat)
    requires Covers(load, h) && k < |h| && BrokenBelow(h, load, k) && LeastChild(h, load, k, k)
    ensures HeapOrdered(h, load)
  {
    forall j | 0 < j < |h| ensures Edge(h, load, j) {
    }
  }

  // ---------------------------------------------------------------------------------

  class CommSchedGroup {
    var tgHeap: array<CommSchedTarget?>
    var heapSize: nat
    var maxLoad: nat
    var curLoad: nat
    var waitCnt: nat
    ghost var members: seq<CommSchedTarget>

    // The array holds h from position 0 on and every target knows its position, leaving
    // aside position k.
    ghost predicate StoredExcept(h: seq<CommSchedTarget>, k: int)
      reads this`tgHeap, tgHeap, Elements(h)`index
    {
      && |h| <= tgHeap.Length
      && forall i :: 0 <= i < |h| && i != k ==> tgHeap[i] == h[i] && h[i].index == i
    }

    // The heap is a permutation of the members with back-pointers, ordered by load; no target
    // is over its limit; the two counters are the sums over the members.
    ghost predicate Valid()
      reads this`heapSize, this`tgHeap, this`maxLoad, this`curLoad, this`members, tgHeap
      reads Elements(members)`index, Elements(members)`group, Elements(members)`maxLoad, Elements(members)`curLoad
    {
      Books(members) && HeapOrdered(members, LoadsOf(members))
    }

    // All of it but the order, with h in the array.
    ghost predicate Books(h: seq<CommSchedTarget>)
      reads this`heapSize, this`tgHeap, this`maxLoad, this`curLoad, tgHeap
      reads Elements(h)`index, Elements(h)`group, Elements(h)`maxLoad, Elements(h)`curLoad
    {
      && heapSize == |h| && 0 < tgHeap.Length
      && StoredExcept(h, -1) && NoDuplicates(h)
      && (forall t :: t in h ==> t.group == this)
      && Limited(h)
      && maxLoad == SumOf(h, MaxLoads(h)) && curLoad == SumOf(h, CurLoads(h))
    }

    // init (CommScheduler.cc:289-319)
    constructor ()
      ensures Valid() && members == [] && maxLoad == 0 && curLoad == 0 && waitCnt == 0 && fresh(tgHeap)
    {
      tgHeap := new CommSchedTarget?[4];
      heapSize, maxLoad, curLoad, waitCnt, members := 0, 0, 0, 0, [];
    }

    // As long as the group's load is below its limit its heap is not empty, and the root is
    // a least loaded member with room for one more.
    lemma RootHasRoom()
      requires Valid() && curLoad < maxLoad
      ensures heapSize > 0 && members[0].curLoad < members[0].maxLoad
      ensures forall t :: t in members ==> TargetCmp(members[0], t) <= 0
    {
      var load := LoadsOf(members);
      if members != [] {
        forall t | t in members ensures TargetCmp(members[0], t) <= 0 {
          var k :| 0 <= k < |members| && members[k] == t;
          RootIsLeast(members, load, k);
          CmpIsRatio(members[0], t);
        }
        if members[0].curLoad >= members[0].maxLoad {
          FullRootFull();
        }
      }
    }

    lemma FullRootFull()
      requires Valid() && members != [] && members[0].curLoad >= members[0].maxLoad
      ensures curLoad >= maxLoad
    {
      var load := LoadsOf(members);
      forall t | t in members ensures t.curLoad >= t.maxLoad {
        var k :| 0 <= k < |members| && members[k] == t;
        RootIsLeast(members, load, k);
        CmpIsRatio(members[0], t);
        assert members[0].curLoad * t.maxLoad <= t.curLoad * members[0].maxLoad;
        CancelMax(members[0].maxLoad, t.maxLoad, t.curLoad);
      }
      SumDominated(members, MaxLoads(members), CurLoads(members));
    }

    static lemma CancelMax(m: nat, a: nat, b: nat)
      requires m > 0 && m * a <= b * m
      ensures a <= b
    {
      if a > b { StrictlyMore(m, a, b); }
    }

    static lemma StrictlyMore(m: nat, a: nat, b: nat)
      requires m > 0 && a > b
      ensures m * a > b * m
    {
      assert m * a == m * b + m * (a - b);
    }

    // "tg_heap[to] = t; t->index = to": t leaves position src, which becomes the open one.
    method Shift(t: CommSchedTarget, src: nat, to: nat, ghost h: seq<CommSchedTarget>)
      requires StoredExcept(h, to) && NoDuplicates(h) && src < |h| && to < |h| && src != to && h[src] == t
      modifies tgHeap, t`index
      ensures StoredExcept(Swapped(h, to, src), src) && NoDuplicates(Swapped(h, to, src))
      ensures Shuffled(Swapped(h, to, src), h)
      ensures tgHeap[|h|..] == old(tgHeap[|h|..])
    {
      tgHeap[to] := t;
      t.index := to;
      SwapShuffles(h, to, src);
    }

    // "tg_heap[to] = target; target->index = to" at the end of a sift.
    method Settle(target: CommSchedTarget, to: nat, ghost h: seq<CommSchedTarget>)
      requires StoredExcept(h, to) && NoDuplicates(h) && to < |h| && h[to] == target
      modifies tgHeap, target`index
      ensures StoredExcept(h, -1) && target.index == to
      ensures tgHeap[|h|..] == old(tgHeap[|h|..])
    {
      tgHeap[to] := target;
      target.index := to;
    }

    // What the comparison with the parent tells
    static lemma Compared(h: seq<CommSchedTarget>, load: Loads, k: nat, swapOnEqual: bool)
      requires Measures(load) && Covers(load, h) && 0 < k < |h|
      ensures var p := (k - 1) / 2;
        TargetCmp(h[k], h[p]) < (if swapOnEqual then 1 else 0) <==> load[h[k]] < load[h[p]] || (swapOnEqual && load[h[k]] == load[h[p]])
    {
      CmpIsRatio(h[k], h[(k - 1) / 2]);
    }

    // heap_adjust (CommScheduler.cc:169-189)
    method HeapAdjust(index0: nat, swapOnEqual: bool, ghost h0: seq<CommSchedTarget>, ghost load: Loads)
      returns (ghost h: seq<CommSchedTarget>)
      requires index0 < |h0| && StoredExcept(h0, -1) && NoDuplicates(h0)
      requires Measures(load) && Covers(load, h0) && BrokenAt(h0, load, index0)
      modifies tgHeap, Elements(h0)`index
      ensures Shuffled(h, h0) && NoDuplicates(h) && StoredExcept(h, -1) && Covers(load, h)
      ensures 0 <= h0[index0].index < |h| && BrokenBelow(h, load, h0[index0].index)
      ensures BrokenAbove(h0, load, index0) ==> HeapOrdered(h, load)
      ensures swapOnEqual ==> StrictlyAbove(h, load, h0[index0].index)
      ensures !swapOnEqual && (index0 > 0 ==> Edge(h0, load, index0)) ==> h == h0
      ensures !swapOnEqual ==> HeavierMoved(h0, h, load, h0[index0])
      ensures tgHeap[|h0|..] == old(tgHeap[|h0|..])
    {
      hide HeavierMoved, BrokenAt, BrokenAbove, BrokenBelow, HeapOrdered, NoDuplicates, TargetCmp, Load, Measures;
      var index := index0;
      var target: CommSchedTarget := tgHeap[index];
      h := h0;
      NoneMoved(h, load, target);
      while index > 0
        invariant 0 <= index < |h| && Shuffled(h, h0) && NoDuplicates(h)
        invariant h[index] == target && StoredExcept(h, index)
        invariant Covers(load, h) && BrokenAt(h, load, index)
        invariant index != index0 ==> BrokenAbove(h, load, index)
        invariant BrokenAbove(h0, load, index0) ==> BrokenAbove(h, load, index)
        invariant index == index0 ==> h == h0
        invariant index != index0 && !swapOnEqual ==> index0 > 0 && !Edge(h0, load, index0)
        invariant !swapOnEqual ==> HeavierMoved(h0, h, load, target)
        invariant tgHeap[|h0|..] == old(tgHeap[|h0|..])
      {
        var parent: CommSchedTarget := tgHeap[(index - 1) / 2];
        Compared(h, load, index, swapOnEqual);
        if TargetCmp(target, parent) < if swapOnEqual then 1 else 0 {
          SwapUp(h, load, index);
          if !swapOnEqual { HeavierMovedOn(h0, h, load, index); }
          ShuffledElements(h, h0);
          Shift(parent, (index - 1) / 2, index, h);
          h := Swapped(h, index, (index - 1) / 2);
          index := (index - 1) / 2;
        } else {
          assert Edge(h, load, index);
          break;
        }
      }
      ShuffledElements(h, h0);
      SiftedUp(h, load, index);
      Settle(target, index, h);
    }

    // heapify (CommScheduler.cc:192-247)
    method Heapify(top0: nat, ghost h0: seq<CommSchedTarget>, ghost load: Loads)
      returns (ghost h: seq<CommSchedTarget>)
      requires top0 < |h0| == heapSize && StoredExcept(h0, -1) && NoDuplicates(h0)
      requires Measures(load) && Covers(load, h0) && BrokenBelow(h0, load, top0)
      modifies tgHeap, Elements(h0)`index
      ensures Shuffled(h, h0) && NoDuplicates(h) && StoredExcept(h, -1) && Covers(load, h)
      ensures HeapOrdered(h, load)
      ensures tgHeap[|h0|..] == old(tgHeap[|h0|..])
    {
      var top := top0;
      var target: CommSchedTarget := tgHeap[top];
      var last := heapSize - 1;
      h := h0;
      while 2 * top + 1 < last
        invariant 0 <= top < |h| && Shuffled(h, h0) && NoDuplicates(h)
        invariant h[top] == target && StoredExcept(h, top)
        invariant Covers(load, h) && BrokenBelow(h, load, top)
        invariant tgHeap[|h0|..] == old(tgHeap[|h0|..])
        decreases |h| - top
      {
        var next := PickChild(top, target, h, load);
        if next == top {
          break;
        }
        var child: CommSchedTarget := tgHeap[next];
        SwapDown(h, load, top, next);
        ShuffledElements(h, h0);
        Shift(child, next, top, h);
        h := Swapped(h, top, next);
        top := next;
      }
      ShuffledElements(h, h0);
      if 2 * top + 1 >= last {
        top, h := SinkLast(top, target, last, h, load);
      }
      ShuffledElements(h, h0);
      SiftedDown(h, load, top);
      Settle(target, top, h);
    }

    // CommScheduler.cc:234-243: a lone last child.
    method SinkLast(top0: nat, target: CommSchedTarget, last: int, ghost h0: seq<CommSchedTarget>, ghost load: Loads)
      returns (top: nat, ghost h: seq<CommSchedTarget>)
      requires top0 < |h0| && last == |h0| - 1 && 2 * top0 + 1 >= last
      requires StoredExcept(h0, top0) && NoDuplicates(h0) && h0[top0] == target
      requires Measures(load) && Covers(load, h0) && BrokenBelow(h0, load, top0)
      modifies tgHeap, Elements(h0)`index
      ensures top < |h| && Shuffled(h, h0) && NoDuplicates(h) && h[top] == target && StoredExcept(h, top)
      ensures Covers(load, h) && BrokenBelow(h, load, top) && LeastChild(h, load, top, top)
      ensures tgHeap[|h0|..] == old(tgHeap[|h0|..])
    {
      top, h := top0, h0;
      var i := 2 * top + 1;
      if i == last {
        var child0: CommSchedTarget := tgHeap[i];
        CmpIsRatio(child0, target);
        assert load[h[i]] == Load(child0) && load[h[top]] == Load(target);
        if TargetCmp(child0, target) < 0 {
          LeastOfTwo(h, load, top, i);
          SwapDown(h, load, top, i);
          Shift(child0, i, top, h);
          h := Swapped(h, top, i);
          top := i;
        }
      }
      LeastOfTwo(h, load, top, top);
    }

    // The comparisons of heapify with both children present (CommScheduler.cc:201-231): the
    // child to pull up, or top itself when neither is less loaded.
    method PickChild(top: nat, target: CommSchedTarget, ghost h: seq<CommSchedTarget>, ghost load: Loads) returns (next: nat)
      requires 2 * top + 2 < |h| && StoredExcept(h, top) && h[top] == target
      requires Measures(load) && Covers(load, h)
      ensures StoredExcept(h, top) && Measures(load)
      ensures next == top || next == 2 * top + 1 || next == 2 * top + 2
      ensures LeastChild(h, load, top, next) && load[h[next]] <= load[h[top]]
    {
      var i := 2 * top + 1;
      var child0: CommSchedTarget, child1: CommSchedTarget := tgHeap[i], tgHeap[i + 1];
      CmpIsRatio(child0, target);
      CmpIsRatio(child1, child0);
      CmpIsRatio(child1, target);
      assert load[h[i]] == Load(child0) && load[h[i + 1]] == Load(child1) && load[h[top]] == Load(target);
      if TargetCmp(child0, target) < 0 {
        if TargetCmp(child1, child0) < 0 {
          next := i + 1;
        } else {
          next := i;
        }
      } else if TargetCmp(child1, target) < 0 {
        next := i + 1;
      } else {
        next := top;
      }
      LeastOfTwo(h, load, top, next);
    }

    // ---------------------------------------------------------------------------------

    method Sink(k: nat, ghost h: seq<CommSchedTarget>) returns (ghost h': seq<CommSchedTarget>)
      requires Books(h) && k < |h| && BrokenBelow(h, LoadsOf(h), k)
      modifies tgHeap, Elements(h)`index
      ensures Shuffled(h', h) && Books(h') && HeapOrdered(h', LoadsOf(h'))
    {
      ghost var load, f, g := LoadsOf(h), CurLoads(h), MaxLoads(h);
      h' := Heapify(k, h, load);
      Reordered(h, h', load, f, g);
    }

    // The loads and limits of h, which belongs to this group.
    ghost predicate Known(h: seq<CommSchedTarget>, load: Loads, f: map<CommSchedTarget, nat>, g: map<CommSchedTarget, nat>)
      reads Elements(h)`curLoad, Elements(h)`maxLoad, Elements(h)`group
    {
      && f.Keys == g.Keys == Elements(h) <= load.Keys
      && forall t :: t in h ==> 0 < t.maxLoad && f[t] == t.curLoad <= t.maxLoad == g[t] && load[t] == Load(t) && t.group == this
    }

    // Shuffling the members changes neither their loads nor the sums.
    lemma Reordered(h: seq<CommSchedTarget>, h': seq<CommSchedTarget>, load: Loads,
                    f: map<CommSchedTarget, nat>, g: map<CommSchedTarget, nat>)
      requires Shuffled(h', h) && load.Keys == Elements(h) && Known(h, load, f, g)
      requires heapSize == |h| && 0 < tgHeap.Length && StoredExcept(h', -1) && NoDuplicates(h')
      requires maxLoad == SumOf(h, g) && curLoad == SumOf(h, f)
      ensures Elements(h') == Elements(h) && Books(h') && LoadsOf(h') == load
    {
      ShuffledElements(h', h);
      assert forall t :: t in h' ==> t in Elements(h);
      SumShuffled(h, h', f);
      SumShuffled(h, h', g);
      assert CurLoads(h') == f && MaxLoads(h') == g;
    }

    // The two counters move together; then one side of position k can be out of order.
    method CountUp(k: nat, target: CommSchedTarget)
      requires Valid() && k < |members| && members[k] == target && target.curLoad < target.maxLoad
      modifies this`curLoad, target`curLoad
      ensures Books(members) && target.curLoad == old(target.curLoad) + 1 && curLoad == old(curLoad) + 1
      ensures BrokenBelow(members, LoadsOf(members), k)
    {
      ghost var load, f, g := LoadsOf(members), CurLoads(members), MaxLoads(members);
      CountFits(target);
      target.curLoad := target.curLoad + 1;
      curLoad := curLoad + 1;
      assert forall t :: t in members ==> t.curLoad == if t == target then f[t] + 1 else f[t];
      Recounted(k, target, load, f, g);
    }

    method CountDown(k: nat, target: CommSchedTarget)
      requires Valid() && k < |members| && members[k] == target && target.curLoad > 0
      modifies this`curLoad, target`curLoad
      ensures Books(members) && target.curLoad == old(target.curLoad) - 1 && curLoad == old(curLoad) - 1
      ensures BrokenAbove(members, LoadsOf(members), k)
    {
      ghost var load, f, g := LoadsOf(members), CurLoads(members), MaxLoads(members);
      CountFits(target);
      target.curLoad := target.curLoad - 1;
      curLoad := curLoad - 1;
      assert forall t :: t in members ==> t.curLoad == if t == target then f[t] - 1 else f[t];
      Recounted(k, target, load, f, g);
    }

    lemma Recounted(k: nat, target: CommSchedTarget, load: Loads, f: map<CommSchedTarget, nat>, g: map<CommSchedTarget, nat>)
      requires k < |members| && members[k] == target
      requires heapSize == |members| && 0 < tgHeap.Length && StoredExcept(members, -1) && NoDuplicates(members)
      requires Limited(members) && forall t :: t in members ==> t.group == this
      requires f.Keys == g.Keys == load.Keys == Elements(members) && Covers(load, members) && HeapOrdered(members, load)
      requires forall t :: t in members ==> t.maxLoad == g[t] && (t != target ==> t.curLoad == f[t])
      requires forall t :: t in members ==> load[t] == f[t] as real / g[t] as real
      requires maxLoad == SumOf(members, g) && curLoad == SumOf(members, f) - f[target] + target.curLoad
      ensures Books(members)
      ensures target.curLoad >= f[target] ==> BrokenBelow(members, LoadsOf(members), k)
      ensures target.curLoad <= f[target] ==> BrokenAbove(members, LoadsOf(members), k)
    {
      var load', f' := LoadsOf(members), CurLoads(members);
      assert MaxLoads(members) == g;
      assert forall i :: 0 <= i < |members| && i != k ==> load'[members[i]] == load[members[i]];
      SumChanged(members, f, f', target);
      LoadChanged(members, load, load', k);
      CmpOverSame(f[target], target.curLoad, target.maxLoad);
    }

    lemma CountFits(target: CommSchedTarget)
      requires Valid() && target in members
      ensures target.curLoad <= curLoad
    {
      SumChanged(members, CurLoads(members), CurLoads(members), target);
    }

    static lemma CmpOverSame(c: nat, d: nat, m: nat)
      requires m > 0
      ensures c <= d ==> c as real / m as real <= d as real / m as real
      ensures d <= c ==> d as real / m as real <= c as real / m as real
    {
      if c <= d { CrossMultiply(d, m, c, m); } else { CrossMultiply(c, m, d, m); }
    }

    ghost method Recall(h: seq<CommSchedTarget>)
      requires Books(h) && HeapOrdered(h, LoadsOf(h))
      modifies this`members
      ensures members == h && Valid()
    {
      hide Books, LoadsOf, HeapOrdered;
      members := h;
    }

    method Float(k: nat, swapOnEqual: bool, ghost h: seq<CommSchedTarget>) returns (ghost h': seq<CommSchedTarget>)
      requires Books(h) && k < |h| && BrokenAbove(h, LoadsOf(h), k)
      modifies tgHeap, Elements(h)`index
      ensures Shuffled(h', h) && Books(h') && HeapOrdered(h', LoadsOf(h'))
      ensures 0 <= h[k].index < |h'| && (swapOnEqual ==> StrictlyAbove(h', LoadsOf(h'), h[k].index))
      ensures !swapOnEqual ==> HeavierMoved(h, h', LoadsOf(h), h[k])
    {
      ghost var load, f, g := LoadsOf(h), CurLoads(h), MaxLoads(h);
      h' := HeapAdjust(k, swapOnEqual, h, load);
      Reordered(h, h', load, f, g);
    }

    // cur_load++ of a member (CommScheduler.cc:107-112, 410-413)
    method Charge(k: nat, target: CommSchedTarget)
      requires Valid() && k < |members| && members[k] == target && target.curLoad < target.maxLoad
      modifies this`curLoad, this`members, tgHeap, Elements(members)`index, target`curLoad
      ensures Valid() && Elements(members) == old(Elements(members)) && curLoad == old(curLoad) + 1
      ensures target.curLoad == old(target.curLoad) + 1
    {
      hide Books, HeapOrdered, BrokenBelow, StoredExcept, Covers;
      CountUp(k, target);
      ghost var h' := Sink(k, members);
      ShuffledElements(h', members);
      Recall(h');
    }

    // cur_load-- of a member (CommScheduler.cc:139, 145, 149)
    method Discharge(k: nat, target: CommSchedTarget, keepAlive: bool)
      requires Valid() && k < |members| && members[k] == target && target.curLoad > 0
      modifies this`curLoad, this`members, tgHeap, Elements(members)`index, target`curLoad
      ensures Valid() && Elements(members) == old(Elements(members)) && curLoad == old(curLoad) - 1
      ensures target.curLoad == old(target.curLoad) - 1
      ensures 0 <= target.index < |members| && (keepAlive ==> StrictlyAbove(members, LoadsOf(members), target.index))
      ensures !keepAlive ==> HeavierMoved(old(members), members, LoadsOf(old(members)), target)
    {
      hide HeavierMoved, Books, HeapOrdered, BrokenAbove, StrictlyAbove, StoredExcept, Covers;
      CountDown(k, target);
      ghost var h' := Float(k, keepAlive, members);
      ShuffledElements(h', members);
      Recall(h');
    }

    // acquire (CommScheduler.cc:389-424) up to its end, or to its first wait: below its limit the
    // group grants a member that had room and was loaded least.
    method Acquire(wait: bool) returns (target: CommSchedTarget?, grant: Grant)
      requires Valid()
      modifies this`curLoad, this`members, this`waitCnt, tgHeap, Elements(members)`index, Elements(members)`curLoad
      ensures Valid() && Elements(members) == old(Elements(members))
      ensures grant == if old(curLoad) < maxLoad then Granted else if wait then Waiting else Denied
      ensures waitCnt == old(waitCnt) + if grant.Waiting? then 1 else 0
      ensures target != null <==> grant.Granted?
      ensures target == null ==> curLoad == old(curLoad) && members == old(members)
      ensures target != null ==> target in members && old(target.curLoad) < target.maxLoad
      ensures target != null ==> target.curLoad == old(target.curLoad) + 1 && curLoad == old(curLoad) + 1
      ensures target != null ==> forall t :: t in old(members) ==> old(TargetCmp(target, t)) <= 0
      ensures forall t :: t in members && t != target ==> t.curLoad == old(t.curLoad)
    {
      hide Valid, TargetCmp;
      if curLoad >= maxLoad {
        if wait {
          waitCnt := waitCnt + 1;
          return null, Waiting;
        }
        return null, Denied;
      }
      target := TakeLeast();
      return target, Granted;
    }

    // From the return of a wait to the end or the next wait (CommScheduler.cc:401-415)
    method Woken(failed: bool) returns (target: CommSchedTarget?, grant: Grant)
      requires Valid() && waitCnt > 0
      modifies this`curLoad, this`members, this`waitCnt, tgHeap, Elements(members)`index, Elements(members)`curLoad
      ensures Valid() && Elements(members) == old(Elements(members))
      ensures grant == if old(curLoad) < maxLoad then Granted else if failed then Denied else Waiting
      ensures waitCnt == old(waitCnt) - if grant.Waiting? then 0 else 1
      ensures target != null <==> grant.Granted?
      ensures target == null ==> curLoad == old(curLoad) && members == old(members)
      ensures target != null ==> target in members && old(target.curLoad) < target.maxLoad
      ensures target != null ==> target.curLoad == old(target.curLoad) + 1 && curLoad == old(curLoad) + 1
      ensures target != null ==> forall t :: t in old(members) ==> old(TargetCmp(target, t)) <= 0
      ensures forall t :: t in members && t != target ==> t.curLoad == old(t.curLoad)
    {
      hide Valid, TargetCmp;
      waitCnt := waitCnt - 1;
      if curLoad >= maxLoad && !failed {
        waitCnt := waitCnt + 1;
        return null, Waiting;
      }
      if curLoad < maxLoad {
        target := TakeLeast();
        return target, Granted;
      }
      return null, Denied;
    }

    // CommScheduler.cc:410-413
    method TakeLeast() returns (target: CommSchedTarget)
      requires Valid() && curLoad < maxLoad
      modifies this`curLoad, this`members, tgHeap, Elements(members)`index, Elements(members)`curLoad
      ensures Valid() && Elements(members) == old(Elements(members))
      ensures target in members && old(target.curLoad) < target.maxLoad
      ensures target.curLoad == old(target.curLoad) + 1 && curLoad == old(curLoad) + 1
      ensures forall t :: t in old(members) ==> old(TargetCmp(target, t)) <= 0
      ensures forall t :: t in members && t != target ==> t.curLoad == old(t.curLoad)
    {
      RootHasRoom();
      target := tgHeap[0];
      Charge(0, target);
    }

    lemma Extended(h: seq<CommSchedTarget>, x: CommSchedTarget) returns (load: Loads)
      requires Limited(h) && x.Sound() && HeapOrdered(h, LoadsOf(h))
      ensures load.Keys == Elements(h + [x]) && Measures(load) && Covers(load, h) && Covers(load, h + [x])
      ensures HeapOrdered(h, load)
    {
      assert forall t :: t in h + [x] ==> t in h || t == x;
      load := LoadsOf(h + [x]);
      forall j | 0 < j < |h| ensures Edge(h, load, j) { assert Edge(h, LoadsOf(h), j); }
    }

    lemma Enrolled(h: seq<CommSchedTarget>, h': seq<CommSchedTarget>, x: CommSchedTarget, load: Loads,
                   f: map<CommSchedTarget, nat>, g: map<CommSchedTarget, nat>)
      requires NoDuplicates(h) && x !in h && Shuffled(h', h + [x])
      requires load.Keys == Elements(h + [x]) && Known(h, load, f, g)
      requires 0 < x.maxLoad && x.curLoad <= x.maxLoad && load[x] == Load(x) && x.group == this
      requires heapSize == |h'| && 0 < tgHeap.Length && StoredExcept(h', -1) && NoDuplicates(h')
      requires Covers(load, h') && HeapOrdered(h', load)
      requires maxLoad == SumOf(h, g) + x.maxLoad && curLoad == SumOf(h, f) + x.curLoad
      ensures Books(h') && HeapOrdered(h', LoadsOf(h'))
    {
      var hx := h + [x];
      var f', g' := CurLoads(hx), MaxLoads(hx);
      SumChanged(h, f, f', x);
      SumChanged(h, g, g', x);
      assert hx[..|hx| - 1] == h;
      Reordered(hx, h', load, f', g');
    }

    // The array twice as long (CommScheduler.cc:251-260)
    method Grow(ghost h: seq<CommSchedTarget>)
      requires StoredExcept(h, -1) && 0 < tgHeap.Length
      modifies this`tgHeap
      ensures fresh(tgHeap) && tgHeap.Length == 2 * old(tgHeap.Length) && StoredExcept(h, -1)
    {
      var base := new CommSchedTarget?[2 * tgHeap.Length];
      forall i | 0 <= i < tgHeap.Length {
        base[i] := tgHeap[i];
      }
      tgHeap := base;
    }

    // heap_insert (CommScheduler.cc:249-270)
    method HeapInsert(target: CommSchedTarget, ghost h0: seq<CommSchedTarget>, ghost load: Loads)
      returns (ghost h: seq<CommSchedTarget>)
      requires heapSize == |h0| && 0 < tgHeap.Length && StoredExcept(h0, -1) && NoDuplicates(h0) && target !in h0
      requires Measures(load) && Covers(load, h0 + [target]) && Covers(load, h0) && HeapOrdered(h0, load)
      modifies this`tgHeap, this`heapSize, tgHeap, Elements(h0)`index, target`index
      ensures heapSize == |h0| + 1 && 0 < tgHeap.Length && (tgHeap == old(tgHeap) || fresh(tgHeap))
      ensures Shuffled(h, h0 + [target]) && NoDuplicates(h) && StoredExcept(h, -1) && Covers(load, h)
      ensures HeapOrdered(h, load)
    {
      if heapSize == tgHeap.Length {
        Grow(h0);
      }
      tgHeap[heapSize] := target;
      target.index := heapSize;
      assert (h0 + [target])[heapSize] == target;
      Appended(h0, target, load);
      h := HeapAdjust(heapSize, false, h0 + [target], load);
      heapSize := heapSize + 1;
    }

    // The lines of add that enrol a free target (CommScheduler.cc:336-340)
    method Enrol(target: CommSchedTarget)
      requires Valid() && target.Sound() && target !in members && target.group == null
      modifies this`tgHeap, this`heapSize, this`members, this`maxLoad, this`curLoad
      modifies tgHeap, Elements(members)`index, target`index, target`group
      ensures Valid() && (tgHeap == old(tgHeap) || fresh(tgHeap))
      ensures Elements(members) == old(Elements(members)) + {target} && target.group == this
      ensures maxLoad == old(maxLoad) + target.maxLoad && curLoad == old(curLoad) + target.curLoad
    {
      ghost var h, f, g := members, CurLoads(members), MaxLoads(members);
      ghost var load := Extended(h, target);
      assert Known(h, load, f, g);
      ghost var h' := HeapInsert(target, h, load);
      Adopt(target, h, h', load, f, g);
      OneMore(h', h, target);
      Recall(h');
    }

    method Adopt(target: CommSchedTarget, ghost h: seq<CommSchedTarget>, ghost h': seq<CommSchedTarget>, ghost load: Loads,
                 ghost f: map<CommSchedTarget, nat>, ghost g: map<CommSchedTarget, nat>)
      requires NoDuplicates(h) && target !in h && Shuffled(h', h + [target])
      requires load.Keys == Elements(h + [target]) && Known(h, load, f, g)
      requires target.Sound() && load[target] == Load(target)
      requires heapSize == |h'| && 0 < tgHeap.Length && StoredExcept(h', -1) && NoDuplicates(h')
      requires Covers(load, h') && HeapOrdered(h', load)
      requires maxLoad == SumOf(h, g) && curLoad == SumOf(h, f)
      modifies this`maxLoad, this`curLoad, target`group
      ensures Books(h') && HeapOrdered(h', LoadsOf(h')) && target.group == this
      ensures maxLoad == old(maxLoad) + target.maxLoad && curLoad == old(curLoad) + target.curLoad
    {
      target.group := this;
      maxLoad := maxLoad + target.maxLoad;
      curLoad := curLoad + target.curLoad;
      Enrolled(h, h', target, load, f, g);
    }

    lemma StrangerOutside(target: CommSchedTarget)
      requires Valid() && target.group == null
      ensures target !in members
    {
    }

    // add (CommScheduler.cc:328-357), and whether it signals one who waits for the group
    method Add(target: CommSchedTarget) returns (error: GroupError, signal: Signal)
      requires Valid() && target.Sound() && (target.group == this ==> target in members)
      modifies this`tgHeap, this`heapSize, this`members, this`maxLoad, this`curLoad
      modifies tgHeap, Elements(members)`index, target`index, target`group
      ensures Valid() && (tgHeap == old(tgHeap) || fresh(tgHeap))
      ensures error == AddVerdict(this, old(target.group), target.waitCnt)
      ensures signal == if error.OK? && waitCnt > 0 && curLoad < maxLoad then OfGroup else NoSignal
      ensures error.OK? ==> Elements(members) == old(Elements(members)) + {target} && target !in old(members)
      ensures error.OK? ==> target.group == this
      ensures error.OK? ==> maxLoad == old(maxLoad) + target.maxLoad && curLoad == old(curLoad) + target.curLoad
      ensures !error.OK? ==> members == old(members) && target.group == old(target.group)
      ensures !error.OK? ==> maxLoad == old(maxLoad) && curLoad == old(curLoad)
    {
      hide CommSchedGroup.Valid;
      signal := NoSignal;
      if target.group == null && target.waitCnt == 0 {
        StrangerOutside(target);
        Enrol(target);
        if waitCnt > 0 && curLoad < maxLoad {
          signal := OfGroup;
        }
        error := OK;
      } else if target.group == this {
        error := EEXIST;
      } else if target.group != null {
        error := EINVAL;
      } else {
        error := EBUSY;
      }
    }

    // heap_remove (CommScheduler.cc:272-285)
    method HeapRemove(index: nat, ghost h0: seq<CommSchedTarget>, ghost load: Loads) returns (ghost h: seq<CommSchedTarget>)
      requires index < |h0| == heapSize && StoredExcept(h0, -1) && NoDuplicates(h0)
      requires Measures(load) && Covers(load, h0) && HeapOrdered(h0, load)
      modifies this`heapSize, tgHeap, Elements(h0)`index
      ensures heapSize == |h0| - 1 == |h| && Shuffled(h, Plugged(h0, index))
      ensures NoDuplicates(h) && StoredExcept(h, -1) && Covers(load, h) && HeapOrdered(h, load)
    {
      heapSize := heapSize - 1;
      h := Plugged(h0, index);
      PluggedShuffles(h0, index);
      PluggedOrder(h0, load, index);
      if index != heapSize {
        var target: CommSchedTarget := tgHeap[heapSize];
        tgHeap[index] := target;
        target.index := index;
        OneMore(h0, h, h0[index]);
        h := Resift(index, target, h, load);
      }
    }

    // CommScheduler.cc:282-283: up, then down from wherever that ended.
    method Resift(index: nat, target: CommSchedTarget, ghost h0: seq<CommSchedTarget>, ghost load: Loads)
      returns (ghost h: seq<CommSchedTarget>)
      requires index < |h0| == heapSize && StoredExcept(h0, -1) && NoDuplicates(h0) && h0[index] == target
      requires Measures(load) && Covers(load, h0) && BrokenAt(h0, load, index)
      modifies tgHeap, Elements(h0)`index
      ensures |h| == |h0| && Shuffled(h, h0) && NoDuplicates(h) && StoredExcept(h, -1)
      ensures Covers(load, h) && HeapOrdered(h, load)
    {
      h := HeapAdjust(index, false, h0, load);
      ShuffledElements(h, h0);
      h := Heapify(target.index, h, load);
    }

    lemma Departed(h: seq<CommSchedTarget>, h': seq<CommSchedTarget>, x: CommSchedTarget, load: Loads,
                   f: map<CommSchedTarget, nat>, g: map<CommSchedTarget, nat>)
      requires NoDuplicates(h) && x in h && x !in h' && Shuffled(h' + [x], h)
      requires load.Keys == Elements(h) && f.Keys == g.Keys == Elements(h)
      requires forall t :: t in h' ==> t in h
      requires forall t :: t in h' ==> 0 < t.maxLoad && f[t] == t.curLoad <= t.maxLoad == g[t] && load[t] == Load(t) && t.group == this
      requires heapSize == |h'| && 0 < tgHeap.Length && StoredExcept(h', -1) && NoDuplicates(h')
      requires Covers(load, h') && HeapOrdered(h', load)
      requires maxLoad == SumOf(h, g) - g[x] && curLoad == SumOf(h, f) - f[x]
      ensures Books(h') && HeapOrdered(h', LoadsOf(h'))
    {
      OneMore(h, h', x);
      SumLess(h, h', x, f, CurLoads(h'));
      SumLess(h, h', x, g, MaxLoads(h'));
      forall j | 0 < j < |h'| ensures Edge(h', LoadsOf(h'), j) { assert Edge(h', load, j); }
    }

    // The lines of remove that drop a member (CommScheduler.cc:367-370)
    method Drop(target: CommSchedTarget)
      requires Valid() && target in members
      modifies this`heapSize, this`members, this`maxLoad, this`curLoad
      modifies tgHeap, Elements(members)`index, target`group
      ensures Valid() && Elements(members) == old(Elements(members)) - {target} && target.group == null
      ensures maxLoad == old(maxLoad) - target.maxLoad && curLoad == old(curLoad) - target.curLoad
    {
      ghost var h, load, f, g := members, LoadsOf(members), CurLoads(members), MaxLoads(members);
      SumChanged(h, f, f, target);
      SumChanged(h, g, g, target);
      ghost var k :| 0 <= k < |h| && h[k] == target;
      ghost var h' := HeapRemove(target.index, h, load);
      PluggedRest(h', h, k);
      Strike(target, h, h', load, f, g);
      Recall(h');
    }

    method Strike(target: CommSchedTarget, ghost h: seq<CommSchedTarget>, ghost h': seq<CommSchedTarget>, ghost load: Loads,
                  ghost f: map<CommSchedTarget, nat>, ghost g: map<CommSchedTarget, nat>)
      requires NoDuplicates(h) && target in h && target !in h' && Shuffled(h' + [target], h)
      requires load.Keys == Elements(h) && Known(h, load, f, g)
      requires heapSize == |h'| && 0 < tgHeap.Length && StoredExcept(h', -1) && NoDuplicates(h')
      requires Covers(load, h') && HeapOrdered(h', load)
      requires maxLoad == SumOf(h, g) >= g[target] && curLoad == SumOf(h, f) >= f[target]
      modifies this`maxLoad, this`curLoad, target`group
      ensures Books(h') && HeapOrdered(h', LoadsOf(h')) && target.group == null
      ensures Elements(h') == Elements(h) - {target}
      ensures maxLoad == old(maxLoad) - target.maxLoad && curLoad == old(curLoad) - target.curLoad
    {
      hide HeapOrdered, StoredExcept, SumOf;
      maxLoad := maxLoad - target.maxLoad;
      curLoad := curLoad - target.curLoad;
      target.group := null;
      OneMore(h, h', target);
      Departed(h, h', target, load, f, g);
    }

    // remove (CommScheduler.cc:359-381)
    method Remove(target: CommSchedTarget) returns (error: GroupError)
      requires Valid() && (target.group == this ==> target in members)
      modifies this`heapSize, this`members, this`maxLoad, this`curLoad
      modifies tgHeap, Elements(members)`index, target`group
      ensures Valid() && error == RemoveVerdict(this, old(target.group), target.waitCnt)
      ensures error.OK? ==> Elements(members) == old(Elements(members)) - {target} && target in old(members)
      ensures error.OK? ==> target.group == null
      ensures error.OK? ==> maxLoad == old(maxLoad) - target.maxLoad && curLoad == old(curLoad) - target.curLoad
      ensures !error.OK? ==> members == old(members) && target.group == old(target.group)
      ensures !error.OK? ==> maxLoad == old(maxLoad) && curLoad == old(curLoad)
    {
      if target.group == this && target.waitCnt == 0 {
        Drop(target);
        error := OK;
      } else if target.group != this {
        error := ENOENT;
      } else {
        error := EBUSY;
      }
    }
  }

  ghost function RemoveVerdict(group: CommSchedGroup, owner: CommSchedGroup?, waiting: nat): GroupError {
    if owner != group then ENOENT else if waiting > 0 then EBUSY else OK
  }

  ghost function AddVerdict(group: CommSchedGroup, owner: CommSchedGroup?, waiting: nat): GroupError {
    if owner == group then EEXIST else if owner != null then EINVAL else if waiting > 0 then EBUSY else OK
  }

  lemma OneMore<T>(h': seq<T>, h: seq<T>, x: T)
    requires Shuffled(h', h + [x])
    ensures Elements(h') == Elements(h) + {x}
  {
    ShuffledElements(h', h + [x]);
    assert Elements(h + [x]) == Elements(h) + {x};
  }

  // The last element moves into the gap at position k.
  ghost function Plugged<T>(h: seq<T>, k: nat): seq<T>
    requires k < |h|
  {
    var n := |h| - 1;
    if k == n then h[..n] else h[..n][k := h[n]]
  }

  lemma PluggedShuffles<T>(h: seq<T>, k: nat)
    requires k < |h| && NoDuplicates(h)
    ensures Shuffled(Plugged(h, k) + [h[k]], h) && NoDuplicates(Plugged(h, k)) && h[k] !in Plugged(h, k)
  {
    var n := |h| - 1;
    if k == n {
      assert h[..n] + [h[n]] == h;
    } else {
      assert Plugged(h, k) + [h[k]] == Swapped(h, k, n);
      SwapShuffles(h, k, n);
    }
  }

  lemma PluggedRest<T>(h': seq<T>, h: seq<T>, k: nat)
    requires k < |h| && NoDuplicates(h) && Shuffled(h', Plugged(h, k))
    ensures Shuffled(h' + [h[k]], h) && h[k] !in h'
  {
    PluggedShuffles(h, k);
    ShuffledElements(h', Plugged(h, k));
    assert h[k] !in Elements(h');
  }

  lemma SumLess(h: seq<CommSchedTarget>, h': seq<CommSchedTarget>, x: CommSchedTarget,
                f: map<CommSchedTarget, nat>, f': map<CommSchedTarget, nat>)
    requires NoDuplicates(h') && x !in h' && Shuffled(h' + [x], h)
    requires f.Keys == Elements(h) && forall t :: t in h' ==> t in f && t in f' && f'[t] == f[t]
    requires x in f
    ensures SumOf(h', f') == SumOf(h, f) - f[x]
  {
    var hx := h' + [x];
    assert hx[..|h'|] == h';
    SumShuffled(hx, h, f);
    SumChanged(h', f, f', x);
  }

  lemma PluggedOrder(h: seq<CommSchedTarget>, load: Loads, k: nat)
    requires k < |h| && Covers(load, h) && HeapOrdered(h, load)
    ensures Covers(load, Plugged(h, k))
    ensures k == |h| - 1 ==> HeapOrdered(Plugged(h, k), load)
    ensures k < |h| - 1 ==> BrokenAt(Plugged(h, k), load, k)
  {
    var h' := Plugged(h, k);
    assert k > 0 ==> Edge(h, load, k);
    forall j | 0 < j < |h'| && (j - 1) / 2 != k && j != k ensures Edge(h', load, j) { assert Edge(h, load, j); }
    forall j | 0 < j < |h'| && (j - 1) / 2 == k && k > 0 ensures load[h'[(k - 1) / 2]] <= load[h'[j]] {
      assert Edge(h, load, j);
    }
  }

  datatype GroupError = OK | EEXIST | EINVAL | EBUSY | ENOENT

  lemma Appended(h: seq<CommSchedTarget>, x: CommSchedTarget, load: Loads)
    requires Covers(load, h + [x]) && Covers(load, h) && HeapOrdered(h, load)
    ensures BrokenAbove(h + [x], load, |h|) && BrokenAt(h + [x], load, |h|)
  {
    forall j | 0 < j < |h| ensures Edge(h + [x], load, j) { assert Edge(h, load, j); }
  }

  lemma ShuffledElements<T>(h: seq<T>, h0: seq<T>)
    requires Shuffled(h, h0)
    ensures Elements(h) == Elements(h0)
  {
    forall x ensures x in h <==> x in h0 {
      assert x in multiset(h) <==> x in multiset(h0);
    }
  }
}
