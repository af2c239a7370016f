/**
  src/manager/RouteManager.cc: the circuit breaker of a route with several addresses.  All
  requests go through the group, so no target has waiters of its own.
 */
module RouteManager {
  import opened Collections
  import opened CommScheduler

  const MTTR_SECOND := 30

  datatype BreakerNode = BreakerNode(target: CommSchedTarget, timeout: int)

  // Some node stands for target t.
  ghost predicate Broken(nodes: seq<BreakerNode>, t: CommSchedTarget) {
    exists i :: 0 <= i < |nodes| && nodes[i].target == t
  }

  lemma {:induction false} ElementCount<T>(s: seq<T>)
    requires NoDuplicates(s)
    ensures |Elements(s)| == |s|
  {
    if s != [] {
      var n := |s| - 1;
      ElementCount(s[..n]);
      assert Elements(s) == Elements(s[..n]) + {s[n]};
      assert s[n] !in Elements(s[..n]);
    }
  }

  class RouteResultEntry {
    const group: CommSchedGroup
    var targets: seq<CommSchedTarget>
    var breakerList: seq<BreakerNode>
    var nleft: int
    var nbreak: int

    // Of a target: it is in the group, or free and waiting for its breaker.
    ghost predicate InOrder(t: CommSchedTarget)
      reads group`members, t`group, t`waitCnt, t`maxLoad, t`curLoad
    {
      t.Sound() && t.waitCnt == 0 && t.group == if t in group.members then group else null
    }

    ghost predicate Targets()
      reads this`targets, group`members, Elements(targets)`group, Elements(targets)`waitCnt
      reads Elements(targets)`maxLoad, Elements(targets)`curLoad
    {
      && NoDuplicates(targets) && (forall t :: t in group.members ==> t in targets)
      && forall t :: t in targets ==> InOrder(t)
    }

    ghost predicate Breakers(nodes: seq<BreakerNode>)
      reads this`targets, group`members
    {
      && (forall i :: 0 <= i < |nodes| ==> nodes[i].target in targets)
      && forall t :: t in targets && t !in group.members ==> Broken(nodes, t)
    }

    // The counters are exact, the group never runs empty, and every target outside it has a
    // breaker node to bring it back.
    ghost predicate Valid()
      reads this, group, group.tgHeap, Elements(group.members), Elements(targets)
    {
      && group.Valid() && Targets() && Breakers(breakerList)
      && nleft == |group.members| >= 1 && nbreak == |breakerList|
      && (|targets| <= 1 ==> breakerList == [])
    }

    // The entry and the group of a route with several addresses (RouteManager.cc:133-134)
    constructor ()
      ensures fresh(group) && fresh(group.tgHeap) && group.Valid() && group.members == [] && group.waitCnt == 0
      ensures targets == [] && breakerList == [] && nleft == nbreak == 0
    {
      targets, breakerList, nleft, nbreak := [], [], 0, 0;
      group := new CommSchedGroup();
    }

    ghost predicate Roster()
      reads this`targets, group, group.tgHeap, Elements(group.members), Elements(targets)
    {
      group.Valid() && Targets()
    }

    // The group gives the target up, if it has it.
    method Leave(target: CommSchedTarget) returns (left: bool)
      requires Roster() && target in targets
      modifies group`heapSize, group`members, group`maxLoad, group`curLoad, group.tgHeap
      modifies Elements(group.members)`index, target`group
      ensures group.Valid()
      ensures Targets()
      ensures left <==> target in old(group.members)
      ensures Elements(group.members) == old(Elements(group.members)) - if left then {target} else {}
      ensures |group.members| == |old(group.members)| - if left then 1 else 0
    {
      hide CommSchedGroup.StoredExcept, HeapOrdered, SumOf, TargetCmp;
      ghost var members := group.members;
      var error := group.Remove(target);
      left := error.OK?;
      if left {
        Departed(target, members);
      }
    }

    lemma Departed(target: CommSchedTarget, members: seq<CommSchedTarget>)
      requires NoDuplicates(targets) && NoDuplicates(members) && NoDuplicates(group.members) && target in targets && target in members
      requires Elements(group.members) == Elements(members) - {target} && target.group == null
      requires forall t :: t in members ==> t in targets
      requires forall t :: t in targets ==> t.Sound() && t.waitCnt == 0
      requires forall t :: t in targets && t != target ==> t.group == if t in members then group else null
      ensures Targets() && |group.members| == |members| - 1
    {
      ElementCount(members);
      ElementCount(group.members);
      OneLessMember(group.members, members, target);
    }

    lemma Returned(target: CommSchedTarget, members: seq<CommSchedTarget>)
      requires NoDuplicates(targets) && NoDuplicates(members) && NoDuplicates(group.members) && target in targets && target !in members
      requires Elements(group.members) == Elements(members) + {target} && target.group == group
      requires forall t :: t in members ==> t in targets
      requires forall t :: t in targets ==> t.Sound() && t.waitCnt == 0
      requires forall t :: t in targets && t != target ==> t.group == if t in members then group else null
      ensures Targets() && |group.members| == |members| + 1
    {
      ElementCount(members);
      ElementCount(group.members);
      OneMoreMember(group.members, members, target);
    }

    // The group takes the target, unless it has it (RouteManager.cc:249, 271).
    method Rejoin(target: CommSchedTarget) returns (joined: bool)
      requires Roster() && target in targets
      modifies group`tgHeap, group`heapSize, group`members, group`maxLoad, group`curLoad, group.tgHeap
      modifies Elements(group.members)`index, target`index, target`group
      ensures group.Valid() && (group.tgHeap == old(group.tgHeap) || fresh(group.tgHeap))
      ensures Targets()
      ensures joined <==> target !in old(group.members)
      ensures Elements(group.members) == old(Elements(group.members)) + {target}
      ensures |group.members| == |old(group.members)| + if joined then 1 else 0
    {
      hide CommSchedGroup.Valid;
      MembersDiffer();
      ghost var members := group.members;
      var error, _ := group.Add(target);
      MembersDiffer();
      joined := error.OK?;
      if joined {
        Returned(target, members);
      } else {
        assert Elements(members) + {target} == Elements(members);
      }
    }

    // A target of its own for each address, all of them in the group (RouteManager.cc:153-184).
    // created says for which addresses create_target succeeds; where it fails none stays.
    method AddGroupTargets(created: seq<bool>, maxConnections: nat) returns (ok: bool)
      requires group.Valid() && group.members == [] && targets == [] && breakerList == [] && nleft == nbreak == 0
      requires |created| >= 2 && maxConnections > 0
      modifies this`targets, this`nleft
      modifies group`tgHeap, group`heapSize, group`members, group`maxLoad, group`curLoad, group.tgHeap
      ensures group.Valid() && (group.tgHeap == old(group.tgHeap) || fresh(group.tgHeap)) && fresh(Elements(targets))
      ensures ok <==> forall i :: 0 <= i < |created| ==> created[i]
      ensures ok ==> Valid() && |targets| == nleft == |created| && Elements(group.members) == Elements(targets)
      ensures ok ==> forall t :: t in targets ==> t.maxLoad == maxConnections && t.curLoad == 0
      ensures !ok ==> group.members == []
    {
      hide CommSchedGroup.Valid, CommSchedGroup.StoredExcept, HeapOrdered, SumOf, TargetCmp;
      var i := 0;
      while i < |created|
        invariant 0 <= i <= |created| && forall k :: 0 <= k < i ==> created[k]
        invariant Gathered(i, maxConnections) && fresh(Elements(targets))
        invariant group.tgHeap == old(group.tgHeap) || fresh(group.tgHeap)
      {
        var added := false;
        if created[i] {
          added := AddTarget(i, maxConnections);
        }
        if !added {
          RemoveTargets();
          return false;
        }
        i := i + 1;
      }
      AllThere(i, maxConnections);
      return true;
    }

    // So many targets, all free of load, and all of them in the group
    ghost predicate Gathered(n: int, maxConnections: nat)
      reads this, group, group.tgHeap, Elements(group.members), Elements(targets)
    {
      && Roster() && nleft == |targets| == n && Elements(group.members) == Elements(targets)
      && forall t :: t in targets ==> t.maxLoad == maxConnections && t.curLoad == 0
    }

    lemma AllThere(n: int, maxConnections: nat)
      requires Gathered(n, maxConnections) && n >= 2 && breakerList == [] && nbreak == 0
      ensures Valid()
    {
      ElementCount(targets);
      ElementCount(group.members);
      assert forall t :: t in targets ==> t in Elements(group.members);
    }

    // One target more (RouteManager.cc:160-169)
    method AddTarget(ghost n: int, maxConnections: nat) returns (added: bool)
      requires Gathered(n, maxConnections) && maxConnections > 0
      modifies this`targets, this`nleft
      modifies group`tgHeap, group`heapSize, group`members, group`maxLoad, group`curLoad, group.tgHeap
      modifies Elements(group.members)`index
      ensures added && Gathered(n + 1, maxConnections)
      ensures fresh(Elements(targets) - old(Elements(targets)))
      ensures group.tgHeap == old(group.tgHeap) || fresh(group.tgHeap)
    {
      hide CommSchedGroup.Valid, CommSchedGroup.StoredExcept, HeapOrdered, SumOf, TargetCmp;
      ghost var members := group.members;
      var target := new CommSchedTarget(maxConnections);
      var error, _ := group.Add(target);
      added := error.OK?;
      if added {
        targets := targets + [target];
        nleft := nleft + 1;
      }
      OneMoreMember(group.members, members, target);
      assert Elements(targets) == old(Elements(targets)) + {target};
    }

    // The targets added so far leave the group again (RouteManager.cc:173-178).
    method RemoveTargets()
      requires Roster()
      modifies group`heapSize, group`members, group`maxLoad, group`curLoad, group.tgHeap
      modifies Elements(group.members)`index, Elements(targets)`group
      ensures group.Valid() && group.members == []
    {
      hide CommSchedGroup.Valid, CommSchedGroup.StoredExcept, HeapOrdered, SumOf, TargetCmp;
      var k := 0;
      while k < |targets|
        invariant 0 <= k <= |targets| && Roster()
        invariant forall t :: t in group.members ==> t in targets[k..]
        invariant Elements(group.members) <= old(Elements(group.members))
      {
        ghost var members := group.members;
        var _ := Leave(targets[k]);
        OneLessMember(group.members, members, targets[k]);
        k := k + 1;
      }
      assert Elements(group.members) == {};
      NoElements(group.members);
    }

    // Requests of the route's group (CommScheduler.h:100) and the release of their targets
    // (CommScheduler.h:105, Communicator.cc:638) leave the breaker as it is.
    method Request(wait: bool) returns (target: CommSchedTarget?, grant: Grant)
      requires Valid()
      modifies group`curLoad, group`members, group`waitCnt, group.tgHeap
      modifies Elements(group.members)`index, Elements(group.members)`curLoad
      ensures Valid() && Elements(group.members) == old(Elements(group.members))
      ensures target != null <==> old(group.curLoad) < group.maxLoad
      ensures target != null ==> target in targets && old(target.curLoad) < target.curLoad <= target.maxLoad
    {
      hide CommSchedGroup.StoredExcept, HeapOrdered, SumOf, TargetCmp;
      ghost var members := group.members;
      target, grant := group.Acquire(wait);
      SameRoster(members);
    }

    method Woken(failed: bool) returns (target: CommSchedTarget?, grant: Grant)
      requires Valid() && group.waitCnt > 0
      modifies group`curLoad, group`members, group`waitCnt, group.tgHeap
      modifies Elements(group.members)`index, Elements(group.members)`curLoad
      ensures Valid() && Elements(group.members) == old(Elements(group.members))
      ensures target != null <==> old(group.curLoad) < group.maxLoad
      ensures target != null ==> target in targets && old(target.curLoad) < target.curLoad <= target.maxLoad
    {
      hide CommSchedGroup.StoredExcept, HeapOrdered, SumOf, TargetCmp;
      ghost var members := group.members;
      target, grant := group.Woken(failed);
      SameRoster(members);
    }

    // The target may have left the group since it was acquired.
    method Release(target: CommSchedTarget, keepAlive: bool) returns (signal: Signal)
      requires Valid() && target in targets && target.curLoad > 0
      modifies target`curLoad, group`curLoad, group`members, group.tgHeap, Elements(group.members)`index
      ensures Valid() && Elements(group.members) == old(Elements(group.members))
      ensures target.curLoad == old(target.curLoad) - 1
      ensures signal.OfGroup? <==> target in group.members && group.waitCnt > 0
    {
      hide CommSchedGroup.Valid;
      MembersDiffer();
      ghost var members := group.members;
      signal := target.Release(keepAlive);
      MembersDiffer();
      SameRoster(members);
      forall t | t in targets ensures InOrder(t) {
        assert old(InOrder(t)) && t.group == old(t.group) && t.maxLoad == old(t.maxLoad) && t.waitCnt == old(t.waitCnt);
      }
    }

    lemma MembersDiffer()
      requires group.Valid()
      ensures NoDuplicates(group.members)
    {
    }

    lemma SameRoster(members: seq<CommSchedTarget>)
      requires NoDuplicates(members) && NoDuplicates(group.members) && Elements(group.members) == Elements(members)
      ensures |group.members| == |members| && forall t :: t in group.members <==> t in members
    {
      ElementCount(members);
      ElementCount(group.members);
      assert forall t :: t in group.members <==> t in Elements(group.members);
      assert forall t :: t in members <==> t in Elements(members);
    }

    // notify_unavailable (RouteManager.cc:215-239)
    method NotifyUnavailable(target: CommSchedTarget, now: int)
      requires Valid() && target in targets
      modifies this`breakerList, this`nleft, this`nbreak
      modifies group`heapSize, group`members, group`maxLoad, group`curLoad, group.tgHeap
      modifies Elements(group.members)`index, target`group
      ensures Valid()
      ensures var out := |targets| > 1 && old(nleft) > 1 && target in old(group.members);
        && Elements(group.members) == old(Elements(group.members)) - (if out then {target} else {})
        && breakerList == old(breakerList) + if out then [BreakerNode(target, now + MTTR_SECOND)] else []
    {
      hide CommSchedGroup.Valid;
      if |targets| <= 1 {
        return;
      }
      if nleft <= 1 {
        return;
      }
      ghost var members := group.members;
      var left := Leave(target);
      if !left {
        return;
      }
      OneLessMember(group.members, members, target);
      AddBreaker(target, now, members);
    }

    // The node for a target that has left (RouteManager.cc:232-238)
    method AddBreaker(target: CommSchedTarget, now: int, ghost members: seq<CommSchedTarget>)
      requires Roster() && target in targets
      requires forall t :: t in group.members <==> t in members && t != target
      requires nleft == |group.members| + 1 > 1 && nbreak == |breakerList| && |targets| > 1
      requires (forall i :: 0 <= i < |breakerList| ==> breakerList[i].target in targets)
      requires forall t :: t in targets && t !in members ==> Broken(breakerList, t)
      modifies this`breakerList, this`nleft, this`nbreak
      ensures Valid() && breakerList == old(breakerList) + [BreakerNode(target, now + MTTR_SECOND)]
    {
      hide CommSchedGroup.Valid, Targets;
      breakerList := breakerList + [BreakerNode(target, now + MTTR_SECOND)];
      nbreak := nbreak + 1;
      nleft := nleft - 1;
      assert breakerList[|breakerList| - 1].target == target;
      StillBroken(old(breakerList), breakerList);
    }

    // notify_available (RouteManager.cc:241-253); with no breaker node nothing is missing
    method NotifyAvailable(target: CommSchedTarget)
      requires Valid() && target in targets
      modifies this`nleft, group`tgHeap, group`heapSize, group`members, group`maxLoad, group`curLoad, group.tgHeap
      modifies Elements(group.members)`index, target`index, target`group
      ensures Valid() && (group.tgHeap == old(group.tgHeap) || fresh(group.tgHeap))
      ensures Elements(group.members) == old(Elements(group.members)) + {target}
    {
      if |targets| <= 1 || nbreak == 0 {
        NothingMissing(target);
        return;
      }
      ghost var members := group.members;
      var joined := Rejoin(target);
      OneMoreMember(group.members, members, target);
      CountIn(joined, target, members);
    }

    lemma NothingMissing(target: CommSchedTarget)
      requires Valid() && target in targets && (|targets| <= 1 || nbreak == 0)
      ensures Elements(group.members) == Elements(group.members) + {target}
    {
      if |targets| <= 1 {
        assert target == targets[0] && group.members[0] in targets;
      } else {
        assert target !in group.members ==> Broken(breakerList, target);
      }
    }

    method CountIn(joined: bool, ghost target: CommSchedTarget, ghost members: seq<CommSchedTarget>)
      requires Roster() && forall t :: t in group.members <==> t in members || t == target
      requires nleft + (if joined then 1 else 0) == |group.members| && nleft >= 1 && nbreak == |breakerList|
      requires |targets| <= 1 ==> breakerList == []
      requires (forall i :: 0 <= i < |breakerList| ==> breakerList[i].target in targets)
      requires forall t :: t in targets && t !in members ==> Broken(breakerList, t)
      modifies this`nleft
      ensures Valid()
    {
      if joined {
        nleft := nleft + 1;
      }
    }

    // list_del and delete (RouteManager.cc:276-278)
    method RemoveBreaker(i: nat)
      requires Valid() && i < |breakerList| && breakerList[i].target in group.members
      modifies this`breakerList, this`nbreak
      ensures Valid() && breakerList == WithoutAt(old(breakerList), i)
    {
      OthersBroken(breakerList, i);
      breakerList := WithoutAt(breakerList, i);
      nbreak := nbreak - 1;
    }

    lemma OthersBroken(nodes: seq<BreakerNode>, i: nat)
      requires Breakers(nodes) && i < |nodes| && nodes[i].target in group.members
      ensures Breakers(WithoutAt(nodes, i))
    {
      forall t | t in targets && t !in group.members ensures Broken(WithoutAt(nodes, i), t) {
        assert Broken(nodes, t);
        var k :| 0 <= k < |nodes| && nodes[k].target == t;
        assert k != i;
        assert WithoutAt(nodes, i)[if k < i then k else k - 1] == nodes[k];
      }
    }

    // The body of the loop for an expired node (RouteManager.cc:271-278)
    method Restore(i: nat)
      requires Valid() && i < |breakerList|
      modifies this`breakerList, this`nbreak, this`nleft
      modifies group`tgHeap, group`heapSize, group`members, group`maxLoad, group`curLoad, group.tgHeap
      modifies Elements(targets)`index, Elements(targets)`group
      ensures Valid() && (group.tgHeap == old(group.tgHeap) || fresh(group.tgHeap))
      ensures breakerList == WithoutAt(old(breakerList), i)
      ensures Elements(group.members) == old(Elements(group.members)) + {old(breakerList)[i].target}
    {
      hide CommSchedGroup.Valid;
      var target := breakerList[i].target;
      ghost var members := group.members;
      var joined := Rejoin(target);
      OneMoreMember(group.members, members, target);
      CountIn(joined, target, members);
      RemoveBreaker(i);
    }

    // check_breaker (RouteManager.cc:255-281): every target whose breaker has timed out is back.
    method CheckBreaker(now: int)
      requires Valid()
      modifies this`breakerList, this`nbreak, this`nleft
      modifies group`tgHeap, group`heapSize, group`members, group`maxLoad, group`curLoad, group.tgHeap
      modifies Elements(targets)`index, Elements(targets)`group
      ensures Valid() && (group.tgHeap == old(group.tgHeap) || fresh(group.tgHeap))
      ensures breakerList == Unexpired(old(breakerList), now)
      ensures Elements(group.members) == old(Elements(group.members)) + Expired(old(breakerList), now)
    {
      NoneExpired(breakerList, now);
      if |targets| <= 1 || nbreak == 0 {
        return;
      }
      CheckNodes(now);
    }

    // Once every breaker has timed out a check brings everyone back.
    lemma EveryoneBack(now: int)
      requires Valid() && forall i :: 0 <= i < |breakerList| ==> breakerList[i].timeout <= now
      ensures Elements(group.members) + Expired(breakerList, now) == Elements(targets)
      ensures Unexpired(breakerList, now) == []
    {
      hide CommSchedGroup.Valid;
      forall t | t in targets && t !in group.members ensures t in Expired(breakerList, now) {
        assert Broken(breakerList, t);
      }
      NobodyWaits(breakerList, now);
    }

    // The loop (RouteManager.cc:266-280)
    method CheckNodes(now: int)
      requires Valid()
      modifies this`breakerList, this`nbreak, this`nleft
      modifies group`tgHeap, group`heapSize, group`members, group`maxLoad, group`curLoad, group.tgHeap
      modifies Elements(targets)`index, Elements(targets)`group
      ensures Valid() && (group.tgHeap == old(group.tgHeap) || fresh(group.tgHeap))
      ensures breakerList == Unexpired(old(breakerList), now)
      ensures Elements(group.members) == old(Elements(group.members)) + Expired(old(breakerList), now)
    {
      hide Valid, Unexpired, Expired;
      ghost var nodes, before := breakerList, Elements(group.members);
      NoneExpired(nodes, now);
      var i: nat := 0;
      ghost var seen: nat := 0;
      while i < |breakerList|
        invariant Valid()
        invariant group.tgHeap == old(group.tgHeap) || fresh(group.tgHeap)
        invariant Halfway(nodes, before, seen, i, now)
        decreases |breakerList| - i
      {
        i := CheckNext(i, now, nodes, before, seen);
        seen := seen + 1;
      }
      assert nodes[..seen] == nodes;
    }

    // The first nodes of the list have been looked at, up to position i of what is left of it.
    ghost predicate Halfway(nodes: seq<BreakerNode>, before: set<CommSchedTarget>, seen: nat, i: nat, now: int)
      reads this`breakerList, group`members
    {
      && i <= |breakerList| && seen == |nodes| - |breakerList| + i && seen <= |nodes|
      && breakerList == Unexpired(nodes[..seen], now) + nodes[seen..] && i == |Unexpired(nodes[..seen], now)|
      && Elements(group.members) == before + Expired(nodes[..seen], now)
    }

    // One turn of the loop
    method CheckNext(i: nat, now: int, ghost nodes: seq<BreakerNode>, ghost before: set<CommSchedTarget>, ghost seen: nat)
      returns (i': nat)
      requires Valid() && i < |breakerList| && Halfway(nodes, before, seen, i, now)
      modifies this`breakerList, this`nbreak, this`nleft
      modifies group`tgHeap, group`heapSize, group`members, group`maxLoad, group`curLoad, group.tgHeap
      modifies Elements(targets)`index, Elements(targets)`group
      ensures Valid()
      ensures group.tgHeap == old(group.tgHeap) || fresh(group.tgHeap)
      ensures Halfway(nodes, before, seen + 1, i', now) && |breakerList| - i' < old(|breakerList|) - i
    {
      hide Valid, Unexpired, Expired;
      SeenOneMore(nodes, seen, now);
      if now >= breakerList[i].timeout {
        Restore(i);
        i' := i;
      } else {
        i' := i + 1;
      }
    }
  }

  function WithoutAt<T>(s: seq<T>, i: nat): seq<T>
    requires i < |s|
  {
    s[..i] + s[i + 1..]
  }

  function Unexpired(nodes: seq<BreakerNode>, now: int): seq<BreakerNode> {
    if nodes == [] then []
    else
      var n := |nodes| - 1;
      Unexpired(nodes[..n], now) + if now >= nodes[n].timeout then [] else [nodes[n]]
  }

  ghost function Expired(nodes: seq<BreakerNode>, now: int): set<CommSchedTarget> {
    set i | 0 <= i < |nodes| && now >= nodes[i].timeout :: nodes[i].target
  }

  lemma {:induction false} NobodyWaits(nodes: seq<BreakerNode>, now: int)
    requires forall i :: 0 <= i < |nodes| ==> nodes[i].timeout <= now
    ensures Unexpired(nodes, now) == []
  {
    if nodes != [] { NobodyWaits(nodes[..|nodes| - 1], now); }
  }

  lemma NoneExpired(nodes: seq<BreakerNode>, now: int)
    ensures Unexpired(nodes[..0], now) == [] && Expired(nodes[..0], now) == {} && nodes[0..] == nodes
    ensures nodes == [] ==> nodes[..0] == nodes
  {
  }

  lemma SeenOneMore(nodes: seq<BreakerNode>, k: nat, now: int)
    requires k < |nodes|
    ensures Unexpired(nodes[..k + 1], now) == Unexpired(nodes[..k], now) + if now >= nodes[k].timeout then [] else [nodes[k]]
    ensures Expired(nodes[..k + 1], now) == Expired(nodes[..k], now) + if now >= nodes[k].timeout then {nodes[k].target} else {}
  {
    assert nodes[..k + 1][..k] == nodes[..k];
    assert forall i :: 0 <= i < k ==> nodes[..k + 1][i] == nodes[..k][i];
    forall t | t in Expired(nodes[..k], now) ensures t in Expired(nodes[..k + 1], now) {
      var i :| 0 <= i < k && now >= nodes[..k][i].timeout && nodes[..k][i].target == t;
      assert nodes[..k + 1][i].target == t;
    }
    assert nodes[..k + 1][k] == nodes[k];
  }

  lemma NoElements<T>(s: seq<T>)
    ensures s == [] <==> Elements(s) == {}
  {
    if s != [] { assert s[0] in Elements(s); }
  }

  lemma OneLessMember<T>(s': seq<T>, s: seq<T>, x: T)
    requires Elements(s') == Elements(s) - {x}
    ensures forall t :: t in s' <==> t in s && t != x
  {
    assert forall t :: t in s' <==> t in Elements(s');
    assert forall t :: t in s <==> t in Elements(s);
  }

  lemma OneMoreMember<T>(s': seq<T>, s: seq<T>, x: T)
    requires Elements(s') == Elements(s) + {x}
    ensures forall t :: t in s' <==> t in s || t == x
  {
    assert forall t :: t in s' <==> t in Elements(s');
    assert forall t :: t in s <==> t in Elements(s);
  }

  lemma StillBroken(nodes: seq<BreakerNode>, nodes': seq<BreakerNode>)
    requires nodes <= nodes'
    ensures forall t :: Broken(nodes, t) ==> Broken(nodes', t)
  {
  }
}
