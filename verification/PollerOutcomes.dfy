/**
  What a callback reports: the state of a node tells which call or event took it out of its
  container (poller.c:202-222, 351-363, 762-816, 1209-1238, 1278-1314, 1407-1440).
 */
module PollerOutcomes {
  import opened PollerProtocol

  // A node that has been taken out of its container, and what is to be reported of it
  type Fate = (Node, Outcome)

  // Those of a step: deleted, replaced, what came of the event, ETIMEDOUT, stopped
  ghost function Fates(s: State, a: Action): set<Fate>
    requires Enabled(s, a)
  {
    match a
    case Del(fd) => {(s.nodes[fd], Deleted)}
    case Mod(fd, _, _) => {(s.nodes[fd], Modified)}
    case Finish(result) => if s.pc.events[0] in Live(s) then {(s.pc.events[0], result)} else {}
    case Expire(fromList, fromTree) => set n | n in fromList + fromTree :: (n, Failed)
    case Close => set n | n in Live(s) :: (n, Stopped)
    case _ => {}
  }

  // ... and of a run
  ghost function AllFates(s: State, actions: seq<Action>): set<Fate>
    decreases |actions|
  {
    if actions == [] || !Enabled(s, actions[0]) then {}
    else Fates(s, actions[0]) + AllFates(Next(s, actions[0]), actions[1..])
  }

  predicate IsDue(s: State, n: Node) {
    s.pc.Expiring? && n in s.pc.due
  }

  // Those that have timed out get their state just before the callback.
  function FateOf(s: State, n: Node): Outcome
    requires n in s.outcome
  {
    if IsDue(s, n) then Failed else s.outcome[n]
  }

  // A node is linked and pending, or taken out and in the state of its fate, the only one it has.
  ghost predicate Told(s: State, fates: set<Fate>) {
    && s.outcome.Keys == s.fd.Keys && (forall f :: f in fates ==> f.0 in s.fd)
    && (forall n, o :: n in s.fd ==> ((n, o) in fates <==> n !in Live(s) && o == FateOf(s, n)))
    && (forall n :: n in s.fd && n in Live(s) ==> s.outcome[n] == Pending)
  }

  lemma LiveIsKnown(s: State, n: Node)
    requires Inv(s) && n in Live(s)
    ensures n in s.fd && Live(s)[n] == 1 && !IsDue(s, n) && n !in s.removed
  {
    Once(s, n);
    assert s.pc.Expiring? ==> (n in s.pc.due <==> n in multiset(s.pc.due));
  }

  lemma ToldEnter(s: State, s': State, n: Node, fates: set<Fate>)
    requires Told(s, fates) && n !in s.fd && s'.fd.Keys == s.fd.Keys + {n} && s'.pc == s.pc
    requires Live(s') == Live(s) + multiset{n} && s'.outcome == s.outcome[n := Pending]
    ensures Told(s', fates)
  {
    hide Live;
  }

  lemma ToldLeave(s: State, s': State, n: Node, why: Outcome, fates: set<Fate>)
    requires Told(s, fates) && n in s.fd && s'.fd == s.fd && Live(s)[n] == 1 && !IsDue(s, n)
    requires s'.pc == s.pc || (!s.pc.Expiring? && !s'.pc.Expiring?)
    requires Live(s') == Live(s) - multiset{n} && s'.outcome == s.outcome[n := why]
    ensures Told(s', fates + {(n, why)})
  {
    hide Live;
  }

  lemma ToldSame(s: State, s': State, fates: set<Fate>)
    requires Told(s, fates) && s'.fd == s.fd && Live(s') == Live(s) && s'.outcome == s.outcome
    requires s'.pc == s.pc || (!s.pc.Expiring? && !s'.pc.Expiring?) || (s.pc.Expiring? && s.pc.due == [] && !s'.pc.Expiring?)
    ensures Told(s', fates)
  {
    hide Live;
  }

  lemma ToldAdd(s: State, a: Action, fates: set<Fate>)
    requires Inv(s) && Enabled(s, a) && Told(s, fates) && (a.Add? || a.AddTimer?)
    ensures Told(Next(s, a), fates)
  {
    hide Told;
    Once(s, a.node);
    LinkedPlace(s, a.node, a.into);
    hide Inv, Flagged;
    ToldEnter(s, Next(s, a), a.node, fates);
  }

  lemma RetiredLive(s: State, n: Node, fd: int, why: Outcome)
    requires Inv(s) && n in Live(s) && n in s.fd && s.fd[n] == fd
    ensures var s' := Retired(Detached(s, n, fd), n, why);
      Live(s') == Live(s) - multiset{n} && s'.outcome == s.outcome[n := why] && s'.fd == s.fd && s'.pc == s.pc
  {
    DetachedPlace(s, n, fd);
    SameFlags(Detached(s, n, fd), Retired(Detached(s, n, fd), n, why));
  }

  lemma ToldRetired(s: State, fd: int, why: Outcome, fates: set<Fate>)
    requires Inv(s) && fd in s.nodes && Told(s, fates)
    ensures var n := s.nodes[fd]; Told(Retired(Detached(s, n, fd), n, why), fates + {(n, why)})
  {
    var n := s.nodes[fd];
    LiveIsKnown(s, n);
    RetiredLive(s, n, fd, why);
    hide Told, Inv, Live;
    ToldLeave(s, Retired(Detached(s, n, fd), n, why), n, why, fates);
  }

  lemma ToldDel(s: State, fd: int, fates: set<Fate>)
    requires Inv(s) && Enabled(s, Del(fd)) && Told(s, fates)
    ensures Told(Next(s, Del(fd)), fates + Fates(s, Del(fd)))
  {
    hide Told, Inv;
    ToldRetired(s, fd, Deleted, fates);
    assert Fates(s, Del(fd)) == {(s.nodes[fd], Deleted)};
  }

  lemma IndexedIsLive(s: State, fd: int)
    requires Inv(s) && fd in s.nodes
    ensures var n := s.nodes[fd]; n in Live(s) && n in s.fd && s.fd[n] == fd >= 0
  {
  }

  lemma ToldMod(s: State, a: Action, fates: set<Fate>)
    requires Inv(s) && a.Mod? && Enabled(s, a) && Told(s, fates)
    ensures Told(Next(s, a), fates + Fates(s, a))
  {
    hide Told, Inv, Live, Linked, Retired, Detached;
    var prev := s.nodes[a.fd];
    var t := Retired(Detached(s, prev, a.fd), prev, Modified);
    IndexedIsLive(s, a.fd);
    ToldRetired(s, a.fd, Modified, fates);
    RetiredKept(s, prev, a.fd, Modified);
    assert Fates(s, a) == {(prev, Modified)};
    ToldAdd(t, Add(a.node, a.fd, a.into), fates + {(prev, Modified)});
  }

  lemma ToldRetimed(s: State, a: Action, fates: set<Fate>)
    requires Inv(s) && a.SetTimeout? && Enabled(s, a) && Told(s, fates)
    ensures Told(Next(s, a), fates)
  {
    var n := s.nodes[a.fd];
    IndexedIsLive(s, a.fd);
    LiveIsKnown(s, n);
    UnlinkedPlace(s, n);
    LinkedPlace(Unlinked(s, n), n, a.into);
    hide Told, Inv;
    assert Live(s) - multiset{n} + multiset{n} == Live(s);
    hide Live;
    ToldSame(s, Next(s, a), fates);
  }

  lemma FinishedLive(s: State, result: Outcome)
    requires Inv(s) && Enabled(s, Finish(result))
    ensures var n, s' := s.pc.events[0], Next(s, Finish(result));
      if n in Live(s) then Live(s') == Live(s) - multiset{n} && s'.outcome == s.outcome[n := result] && s'.fd == s.fd && s'.pc.Holding?
      else s' == s.(pc := s'.pc) && s'.pc.Batch?
  {
    var n := s.pc.events[0];
    if n in s.removed {
      assert n !in Live(s);
    } else {
      assert n in Live(s);
      Once(s, n);
      DetachedPlace(s, n, s.fd[n]);
      SameFlags(Detached(s, n, s.fd[n]), Next(s, Finish(result)));
    }
  }

  lemma ToldFinish(s: State, result: Outcome, fates: set<Fate>)
    requires Inv(s) && Enabled(s, Finish(result)) && Told(s, fates)
    ensures Told(Next(s, Finish(result)), fates + Fates(s, Finish(result)))
  {
    hide Told, FinishNode, Live, Inv, Next;
    var n, s' := s.pc.events[0], Next(s, Finish(result));
    FinishedLive(s, result);
    if n in Live(s) {
      LiveIsKnown(s, n);
      assert Fates(s, Finish(result)) == {(n, result)};
      ToldLeave(s, s', n, result, fates);
    } else {
      SameFlags(s, s');
      assert fates + Fates(s, Finish(result)) == fates;
      ToldSame(s, s', fates);
    }
  }

  // The nodes in due leave together, and time out.
  lemma ToldDue(s: State, s': State, due: seq<Node>, fates: set<Fate>)
    requires Told(s, fates) && s'.fd == s.fd && s'.outcome == s.outcome && !s.pc.Expiring? && s'.pc == Expiring(due)
    requires forall n :: n in due ==> n in s.fd && n in Live(s)
    requires forall n :: n in s.fd ==> (n in Live(s') <==> n in Live(s) && n !in due)
    ensures Told(s', fates + set n | n in due :: (n, Failed))
  {
    hide Live;
    var timedOut := set n | n in due :: (n, Failed);
    forall n, o | n in s'.fd ensures (n, o) in fates + timedOut <==> n !in Live(s') && o == FateOf(s', n) {
      assert (n, o) in timedOut <==> n in due && o == Failed;
      assert (n, o) in fates <==> n !in Live(s) && o == FateOf(s, n);
    }
  }

  lemma ExpiredLive(s: State, a: Action, n: Node)
    requires Inv(s) && a.Expire? && Enabled(s, a)
    ensures n in Live(Next(s, a)) <==> n in Live(s) && n !in a.fromList + a.fromTree
    ensures n in a.fromList + a.fromTree ==> n in s.fd && n in Live(s)
  {
    hide Flagged;
    DueIsLive(s, a.fromList, a.fromTree);
    var due := a.fromList + a.fromTree;
    assert n in due <==> n in multiset(due);
    if n in due { LiveIsKnown(s, n); }
  }

  lemma ToldExpire(s: State, a: Action, fates: set<Fate>)
    requires Inv(s) && a.Expire? && Enabled(s, a) && Told(s, fates)
    ensures Told(Next(s, a), fates + Fates(s, a))
  {
    hide Told, Live, Inv;
    var s', due := Next(s, a), a.fromList + a.fromTree;
    forall n
      ensures n in Live(s') <==> n in Live(s) && n !in due
      ensures n in due ==> n in s.fd && n in Live(s)
    {
      ExpiredLive(s, a, n);
    }
    ToldDue(s, s', due, fates);
  }

  lemma ToldTimedOut(s: State, fates: set<Fate>)
    requires Enabled(s, ExpireOne) && Told(s, fates) && forall n :: n in s.pc.due ==> n in s.fd && n !in Live(s)
    ensures Told(Next(s, ExpireOne), fates)
  {
    var s' := Next(s, ExpireOne);
    SameFlags(s, s');
    hide Live;
    assert s.pc.due == [s.pc.due[0]] + s.pc.due[1..];
  }

  lemma DueIsOut(s: State, n: Node)
    requires Inv(s) && IsDue(s, n)
    ensures n in s.fd && n !in Live(s)
  {
    Once(s, n);
    assert n in multiset(s.pc.due);
  }

  lemma ToldClose(s: State, fates: set<Fate>)
    requires Inv(s) && Enabled(s, Close) && Told(s, fates)
    ensures Told(Next(s, Close), fates + Fates(s, Close))
  {
    hide Told, Live, Inv, NodesOf;
    var s' := Next(s, Close);
    forall n | n in Live(s) ensures n in s.fd { LiveIsKnown(s, n); }
    ClosingIsExited(s);
    ClosedOutcomes(s);
    ToldClosed(s, s', fates);
  }

  lemma ClosingIsExited(s: State)
    requires Inv(s) && Enabled(s, Close)
    ensures s.pc.Exited?
  {
  }

  lemma ClosedOutcomes(s: State)
    requires Enabled(s, Close)
    ensures var s' := Next(s, Close);
      && Live(s') == multiset{} && s'.fd == s.fd && s'.pc.Idle? && s'.outcome.Keys == s.outcome.Keys
      && forall n :: n in s.outcome ==> s'.outcome[n] == if n in Live(s) then Stopped else s.outcome[n]
  {
    hide NodesOf;
  }

  lemma ToldClosed(s: State, s': State, fates: set<Fate>)
    requires Told(s, fates) && s'.fd == s.fd && !s.pc.Expiring? && !s'.pc.Expiring? && Live(s') == multiset{}
    requires s'.outcome.Keys == s.outcome.Keys && forall n :: n in Live(s) ==> n in s.fd
    requires forall n :: n in s.outcome ==> s'.outcome[n] == if n in Live(s) then Stopped else s.outcome[n]
    ensures Told(s', fates + set n | n in Live(s) :: (n, Stopped))
  {
    hide Live;
  }

  predicate Quietly(a: Action) {
    a.Start? || a.Fetch? || a.Skip? || a.CallBack? || a.EndBatch? || a.DrainOne? || a.EndDrain? || a.EndExpire? || a.StartStop? || a.Joined?
  }

  lemma ToldQuietly(s: State, a: Action, fates: set<Fate>)
    requires Enabled(s, a) && Told(s, fates) && Quietly(a)
    ensures Told(Next(s, a), fates)
  {
    hide Told, Live, Flagged, NodesOf;
    var s' := Next(s, a);
    assert s' == s.(pc := s'.pc, pipe := s'.pipe, stopped := s'.stopped, delivered := s'.delivered, stopper := s'.stopper);
    SameFlags(s, s');
    ToldSame(s, s', fates);
  }

  lemma ToldKept(s: State, a: Action, fates: set<Fate>)
    requires Inv(s) && Enabled(s, a) && Told(s, fates)
    ensures Told(Next(s, a), fates + Fates(s, a))
  {
    hide Told, Inv, Next, Live;
    assert fates + {} == fates;
    if Quietly(a) { ToldQuietly(s, a, fates); }
    else if a.Add? || a.AddTimer? { ToldAdd(s, a, fates); }
    else if a.Del? { ToldDel(s, a.fd, fates); }
    else if a.Mod? { ToldMod(s, a, fates); }
    else if a.SetTimeout? { ToldRetimed(s, a, fates); }
    else if a.Finish? { ToldFinish(s, a.result, fates); }
    else if a.Expire? { ToldExpire(s, a, fates); }
    else if a.ExpireOne? {
      forall n | n in s.pc.due ensures n in s.fd && n !in Live(s) { DueIsOut(s, n); }
      ToldTimedOut(s, fates);
    } else { ToldClose(s, fates); }
  }

  lemma {:induction false} AlwaysTold(s: State, actions: seq<Action>, end: State, fates: set<Fate>)
    requires Inv(s) && Told(s, fates) && Run(s, actions, end)
    ensures Inv(end) && Told(end, fates + AllFates(s, actions))
    decreases |actions|
  {
    hide Inv, Told, Enabled, Next, Fates;
    if actions == [] {
      assert fates + {} == fates;
    } else {
      var s', now := Next(s, actions[0]), Fates(s, actions[0]);
      Kept(s, actions[0]);
      ToldKept(s, actions[0], fates);
      AlwaysTold(s', actions[1..], end, fates + now);
      assert fates + now + AllFates(s', actions[1..]) == fates + (now + AllFates(s', actions[1..]));
    }
  }

  // In every run each callback reports what took the node out, whatever has raced with it: a call
  // of poller_del or poller_mod, the event, the timeout or the stop; and nothing else does it.
  lemma ReportsItsFate(init: State, actions: seq<Action>, s: State, n: Node)
    requires Init(init) && Run(init, actions, s) && n in s.delivered
    ensures n in s.outcome && s.outcome[n] != Pending
    ensures forall o :: (n, o) in AllFates(init, actions) <==> o == s.outcome[n]
  {
    hide Inv, Told, Run, AllFates;
    StartTold(init);
    AlwaysTold(init, actions, s, {});
    assert {} + AllFates(init, actions) == AllFates(init, actions);
    DeliveredIsOut(s, n);
    ToldOf(s, AllFates(init, actions), n);
    NoPending(init, actions, (n, s.outcome[n]));
  }

  lemma StartTold(init: State)
    requires Init(init)
    ensures Inv(init) && Told(init, {})
  {
  }

  lemma ToldOf(s: State, fates: set<Fate>, n: Node)
    requires Told(s, fates) && n in s.fd && n !in Live(s) && !IsDue(s, n)
    ensures n in s.outcome && forall o :: (n, o) in fates <==> o == s.outcome[n]
  {
  }

  lemma DeliveredIsOut(s: State, n: Node)
    requires Inv(s) && n in s.delivered
    ensures n in s.fd && n !in Live(s) && !IsDue(s, n)
  {
    Once(s, n);
    assert s.pc.Expiring? ==> (n in s.pc.due <==> n in multiset(s.pc.due));
  }

  lemma {:induction false} NoPending(s: State, actions: seq<Action>, f: Fate)
    requires f in AllFates(s, actions)
    ensures f.1 != Pending
    decreases |actions|
  {
    hide Next;
    if f in Fates(s, actions[0]) {
      FatesNotPending(s, actions[0]);
    } else {
      NoPending(Next(s, actions[0]), actions[1..], f);
    }
  }

  lemma FatesNotPending(s: State, a: Action)
    requires Enabled(s, a)
    ensures forall f :: f in Fates(s, a) ==> f.1 != Pending
  {
  }
}
