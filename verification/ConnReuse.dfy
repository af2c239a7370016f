/**
  The idle connections of a target (Communicator.cc:600-611, 1303-1405): when a request opens a
  new connection, which idle one it takes otherwise, and that sessions come one after the other
  on the same connection.
 */
module ConnReuse {
  import opened Collections
  import opened ConnLifecycle

  // ---------------------------------------------------------------------------------
  // What one step does to the idle list and to the threads about to open a connection

  predicate TakesHead(s: State, t: Thread, s': State) {
    s.idle != [] && s'.idle == s.idle[1..] && PcOf(s', t).Popped? && PcOf(s', t).e == s.idle[0]
  }

  ghost predicate IdleStep(s: State, a: Action, s': State) {
    || s'.idle == s.idle
    || (a.Pop? && TakesHead(s, a.t, s'))
    || (a.ReadSuccess? && exists e :: s'.idle == [e] + s.idle)
    || (a.ReadEndLocked? && exists e :: s'.idle == Without(s.idle, e))
  }

  ghost predicate OpenStep(s: State, a: Action, s': State) {
    forall t :: PcOf(s', t).Launching? ==>
      PcOf(s, t) == PcOf(s', t) || (a == Pop(t) && s.idle == [] && PcOf(s, t) == Popping(PcOf(s', t).session))
  }

  lemma RequestListStep(s: State, a: Action)
    requires RequestStep(s, a).Some?
    ensures var s' := RequestStep(s, a).value; IdleStep(s, a, s') && OpenStep(s, a, s')
  {
  }

  lemma SendListStep(s: State, a: Action)
    requires SendStep(s, a).Some?
    ensures var s' := SendStep(s, a).value; IdleStep(s, a, s') && OpenStep(s, a, s')
  {
  }

  lemma ReadIdleStep(s: State, a: Action)
    requires ReadStep(s, a).Some?
    ensures IdleStep(s, a, ReadStep(s, a).value)
  {
  }

  lemma ReadOpenStep(s: State, a: Action)
    requires ReadStep(s, a).Some?
    ensures OpenStep(s, a, ReadStep(s, a).value)
  {
  }

  lemma WriteListStep(s: State, a: Action)
    requires WriteStep(s, a).Some?
    ensures var s' := WriteStep(s, a).value; IdleStep(s, a, s') && OpenStep(s, a, s')
  {
  }

  lemma LeaveListStep(s: State, a: Action)
    requires LeaveStep(s, a).Some?
    ensures var s' := LeaveStep(s, a).value; IdleStep(s, a, s') && OpenStep(s, a, s')
  {
  }

  lemma ListStep(s: State, a: Action)
    requires Next(s, a).Some?
    ensures var s' := Next(s, a).value; IdleStep(s, a, s') && OpenStep(s, a, s')
  {
    hide RequestStep, SendStep, ReadStep, WriteStep, LeaveStep, PollerStep;
    if IsPollerAction(a) {}
    else if RequestStep(s, a).Some? { RequestListStep(s, a); }
    else if SendStep(s, a).Some? { SendListStep(s, a); }
    else if ReadStep(s, a).Some? { ReadIdleStep(s, a); ReadOpenStep(s, a); }
    else if WriteStep(s, a).Some? { WriteListStep(s, a); }
    else { LeaveListStep(s, a); }
  }

  // ---------------------------------------------------------------------------------
  // A new connection only when none is idle

  lemma {:induction false} LastStep(s: State, actions: seq<Action>, end: State) returns (mid: State)
    requires Run(s, actions, end) && actions != []
    ensures var n := |actions| - 1; Run(s, actions[..n], mid) && Next(mid, actions[n]) == Some(end)
    decreases |actions|
  {
    hide Next;
    var n := |actions| - 1;
    if n == 0 {
      mid := s;
    } else {
      mid := LastStep(Next(s, actions[0]).value, actions[1..], end);
      assert actions[1..][..n - 1] == actions[..n][1..];
    }
  }

  // A thread about to open a connection has looked for an idle one, in this run, for the session
  // it has; the list was empty then, and it has done nothing since.
  lemma {:induction false} OpensOnlyWithoutIdle(init: State, actions: seq<Action>, s: State, t: Thread) returns (k: nat, before: State)
    requires Init(init) && Run(init, actions, s) && PcOf(s, t).Launching?
    ensures k < |actions| && actions[k] == Pop(t) && Run(init, actions[..k], before)
    ensures before.idle == [] && PcOf(before, t) == Popping(PcOf(s, t).session)
    decreases |actions|
  {
    hide Next;
    assert actions != [];
    var n := |actions| - 1;
    var mid := LastStep(init, actions, s);
    ListStep(mid, actions[n]);
    hide Init, Run;
    if PcOf(mid, t) == PcOf(s, t) {
      k, before := OpensOnlyWithoutIdle(init, actions[..n], mid, t);
      assert actions[..n][..k] == actions[..k];
    } else {
      k, before := n, mid;
    }
  }

  // ---------------------------------------------------------------------------------
  // The idle connection that was used last comes first

  // The steps at which connections came on the list
  function Stamped(since: map<Id, nat>, idle: seq<Id>, idle': seq<Id>, now: nat): (after: map<Id, nat>)
    ensures forall e :: e in after <==> e in since || (e in idle' && e !in idle)
    ensures forall e :: e in after ==> after[e] == if e in idle' && e !in idle then now else since[e]
  {
    if idle' == [] then since
    else
      var after := Stamped(since, idle, idle'[1..], now);
      if idle'[0] in idle then after else after[idle'[0] := now]
  }

  function Since(s: State, actions: seq<Action>, now: nat, since: map<Id, nat>): map<Id, nat>
    decreases |actions|
  {
    if actions == [] || Next(s, actions[0]).None? then since
    else var s' := Next(s, actions[0]).value;
         Since(s', actions[1..], now + 1, Stamped(since, s.idle, s'.idle, now))
  }

  ghost predicate NewestAhead(idle: seq<Id>, since: map<Id, nat>, now: nat) {
    && (forall e :: e in idle ==> e in since && since[e] < now)
    && forall i, j :: 0 <= i < j < |idle| ==> since[idle[j]] < since[idle[i]]
  }

  lemma ConsInOrder(e: Id, idle: seq<Id>, since: map<Id, nat>, now: nat)
    ensures NewestAhead([e] + idle, since, now)
      <==> NewestAhead(idle, since, now) && e in since && since[e] < now && forall f :: f in idle ==> since[f] < since[e]
  {
    var all := [e] + idle;
    assert all[0] == e && forall i :: 0 < i < |all| ==> all[i] == idle[i - 1];
    if NewestAhead(all, since, now) {
      assert forall i :: 0 <= i < |idle| ==> idle[i] == all[i + 1];
    }
  }

  lemma {:induction false} WithoutKeepsOrder(idle: seq<Id>, e: Id, since: map<Id, nat>, now: nat)
    requires NewestAhead(idle, since, now)
    ensures NewestAhead(Without(idle, e), since, now)
  {
    hide NewestAhead;
    if idle == [] {
    } else {
      assert idle == [idle[0]] + idle[1..];
      ConsInOrder(idle[0], idle[1..], since, now);
      WithoutKeepsOrder(idle[1..], e, since, now);
      ConsInOrder(idle[0], Without(idle[1..], e), since, now);
    }
  }

  lemma NewAhead(e: Id, idle: seq<Id>)
    requires NoDuplicates([e] + idle)
    ensures e !in idle
  {
    var all := [e] + idle;
    forall i | 0 <= i < |idle| ensures idle[i] != e {
      assert all[0] != all[i + 1];
    }
  }

  lemma AheadKeepsOrder(idle: seq<Id>, e: Id, since: map<Id, nat>, now: nat)
    requires NewestAhead(idle, since, now) && e !in idle
    ensures NewestAhead([e] + idle, Stamped(since, idle, [e] + idle, now), now + 1)
  {
  }

  lemma FewerKeepsOrder(idle: seq<Id>, idle': seq<Id>, since: map<Id, nat>, now: nat)
    requires NewestAhead(idle', since, now) && forall e :: e in idle' ==> e in idle
    ensures NewestAhead(idle', Stamped(since, idle, idle', now), now + 1)
  {
  }

  lemma StampedKeepsOrder(s: State, a: Action, s': State, since: map<Id, nat>, now: nat)
    requires IdleStep(s, a, s') && NewestAhead(s.idle, since, now) && NoDuplicates(s'.idle)
    ensures NewestAhead(s'.idle, Stamped(since, s.idle, s'.idle, now), now + 1)
  {
    hide Stamped;
    if s'.idle == s.idle || (s.idle != [] && s'.idle == s.idle[1..]) {
      FewerKeepsOrder(s.idle, s'.idle, since, now);
    } else if e :| s'.idle == [e] + s.idle {
      hide NewestAhead;
      NewAhead(e, s.idle);
      AheadKeepsOrder(s.idle, e, since, now);
    } else if e :| s'.idle == Without(s.idle, e) {
      WithoutKeepsOrder(s.idle, e, since, now);
      hide NewestAhead;
      FewerKeepsOrder(s.idle, s'.idle, since, now);
    }
  }

  lemma {:induction false} OrderAlways(s: State, actions: seq<Action>, end: State, now: nat, since: map<Id, nat>)
    requires Inv(s) && Run(s, actions, end) && NewestAhead(s.idle, since, now)
    ensures NewestAhead(end.idle, Since(s, actions, now, since), now + |actions|)
    decreases |actions|
  {
    hide Next, Inv, Stamped, NewestAhead, IdleStep, OpenStep;
    if actions != [] {
      var s' := Next(s, actions[0]).value;
      ListStep(s, actions[0]);
      StepKept(s, actions[0]);
      Distinct(s');
      StampedKeepsOrder(s, actions[0], s', since, now);
      OrderAlways(s', actions[1..], end, now + 1, Stamped(since, s.idle, s'.idle, now));
    }
  }

  lemma Distinct(s: State)
    requires Inv(s)
    ensures NoDuplicates(s.idle) && forall e :: e in s.idle ==> e in s.entries && s.entries[e].state == IDLE
  {
  }

  // A request that finds idle connections takes, of all that are idle, the one that became idle last.
  lemma TakesNewest(init: State, actions: seq<Action>, s: State, t: Thread)
    requires Init(init) && Run(init, actions, s) && Next(s, Pop(t)).Some? && s.idle != []
    ensures var pc, since := PcOf(Next(s, Pop(t)).value, t), Since(init, actions, 0, map[]);
      && pc.Popped? && pc.e in s.idle && pc.e in since
      && forall f :: f in s.idle && f != pc.e ==> f in since && since[f] < since[pc.e]
  {
    hide Run, Inv, Since;
    InitInv(init);
    OrderAlways(init, actions, s, 0, map[]);
    assert forall f :: f in s.idle && f != s.idle[0] ==> exists j :: 0 < j < |s.idle| && s.idle[j] == f;
  }

  // ---------------------------------------------------------------------------------
  // Only connections that their last reply has left alive are idle

  ghost predicate IdleAlive(s: State) {
    forall e :: e in s.idle ==> e in s.entries && s.entries[e].keepAlive
  }

  // Nothing comes on the list that is not alive, and only a complete reply decides that anew.
  ghost predicate AliveStep(s: State, a: Action, s': State) {
    && (forall e :: e in s'.idle && e !in s.idle ==> e in s'.entries && s'.entries[e].keepAlive)
    && forall e :: e in s.entries && !(a.AppendDone? && a.e == e) ==> e in s'.entries && s'.entries[e].keepAlive == s.entries[e].keepAlive
  }

  lemma RequestAliveStep(s: State, a: Action)
    requires RequestStep(s, a).Some?
    ensures AliveStep(s, a, RequestStep(s, a).value)
  {
    match a
    case Pop(_) =>
    case LockEntry(_) =>
    case Retime(_) =>
    case Launch(_, _) =>
    case _ =>
  }

  lemma SendAliveStep(s: State, a: Action)
    requires SendStep(s, a).Some?
    ensures AliveStep(s, a, SendStep(s, a).value)
  {
  }

  lemma ReadListsAlive(s: State, a: Action)
    requires ReadStep(s, a).Some?
    ensures var s' := ReadStep(s, a).value; forall e :: e in s'.idle && e !in s.idle ==> e in s'.entries && s'.entries[e].keepAlive
  {
    match a
    case ReadSuccess(_) =>
    case ReadEndLocked(_) =>
    case _ =>
  }

  lemma ReadKeepsAlive(s: State, a: Action, e: Id)
    requires ReadStep(s, a).Some? && e in s.entries
    ensures var s' := ReadStep(s, a).value; e in s'.entries && s'.entries[e].keepAlive == s.entries[e].keepAlive
  {
    match a
    case Take(_, _, _) =>
    case ReadSuccess(_) =>
    case ReadEndLocked(_) =>
    case Part(_) =>
    case _ =>
  }

  lemma ReadAliveStep(s: State, a: Action)
    requires ReadStep(s, a).Some?
    ensures AliveStep(s, a, ReadStep(s, a).value)
  {
    hide ReadStep;
    ReadListsAlive(s, a);
    var s' := ReadStep(s, a).value;
    forall e | e in s.entries ensures e in s'.entries && s'.entries[e].keepAlive == s.entries[e].keepAlive {
      ReadKeepsAlive(s, a, e);
    }
  }

  lemma WriteAliveStep(s: State, a: Action)
    requires WriteStep(s, a).Some?
    ensures AliveStep(s, a, WriteStep(s, a).value)
  {
  }

  lemma LeaveAliveStep(s: State, a: Action)
    requires LeaveStep(s, a).Some?
    ensures AliveStep(s, a, LeaveStep(s, a).value)
  {
  }

  lemma PollerAliveStep(s: State, a: Action)
    requires IsPollerAction(a) && PollerMove(s, a).Some?
    ensures AliveStep(s, a, PollerMove(s, a).value)
  {
    hide PollerStep;
    if !a.AppendDone? { KeptAlive(s.entries[a.e], a); }
  }

  lemma KeptAlive(x: Entry, a: Action)
    requires IsPollerAction(a) && PollerStep(x, a).Some? && !a.AppendDone?
    ensures PollerStep(x, a).value.keepAlive == x.keepAlive
  {
  }

  lemma AnyAliveStep(s: State, a: Action)
    requires Next(s, a).Some?
    ensures AliveStep(s, a, Next(s, a).value)
  {
    hide PollerMove, RequestStep, SendStep, ReadStep, WriteStep, LeaveStep;
    if IsPollerAction(a) { PollerAliveStep(s, a); }
    else if RequestStep(s, a).Some? { RequestAliveStep(s, a); }
    else if SendStep(s, a).Some? { SendAliveStep(s, a); }
    else if ReadStep(s, a).Some? { ReadAliveStep(s, a); }
    else if WriteStep(s, a).Some? { WriteAliveStep(s, a); }
    else { LeaveAliveStep(s, a); }
  }

  // A connection that is being replied to is not idle.
  lemma AnsweringIsBusy(s: State, e: Id)
    requires Inv(s) && Next(s, AppendDone(e, true)).Some?
    ensures e !in s.idle
  {
    hide EntryOk, ThreadOk, SessionOk, Target, Tally;
    assert EntryOk(s, e, s.entries[e]);
    BusyIsNotListed(s, e, s.entries[e]);
  }

  lemma BusyIsNotListed(s: State, e: Id, x: Entry)
    requires EntryOk(s, e, x) && x.busy.Append?
    ensures e !in s.idle
  {
  }

  lemma AliveKept(s: State, a: Action)
    requires Inv(s) && IdleAlive(s) && Next(s, a).Some?
    ensures IdleAlive(Next(s, a).value)
  {
    hide Inv, Next;
    var s' := Next(s, a).value;
    AnyAliveStep(s, a);
    if a.AppendDone? {
      IdleStays(s, a);
      AppendedEither(s, a);
      AnsweringIsBusy(s, a.e);
    }
  }

  lemma IdleStays(s: State, a: Action)
    requires a.AppendDone? && Next(s, a).Some?
    ensures Next(s, a).value.idle == s.idle
  {
  }

  lemma AppendedEither(s: State, a: Action)
    requires a.AppendDone? && Next(s, a).Some?
    ensures Next(s, AppendDone(a.e, true)).Some?
  {
  }

  lemma {:induction false} AliveFrom(s: State, actions: seq<Action>, end: State)
    requires Inv(s) && IdleAlive(s) && Run(s, actions, end)
    ensures Inv(end) && IdleAlive(end)
    decreases |actions|
  {
    hide Inv, IdleAlive, Next;
    if actions != [] {
      StepKept(s, actions[0]);
      AliveKept(s, actions[0]);
      AliveFrom(Next(s, actions[0]).value, actions[1..], end);
    }
  }

  // In every run each idle connection is one that its last reply has left alive.
  lemma IdleIsAlive(init: State, actions: seq<Action>, s: State, e: Id)
    requires Init(init) && Run(init, actions, s) && e in s.idle
    ensures e in s.entries && s.entries[e].keepAlive && s.entries[e].state == IDLE
  {
    InitInv(init);
    hide Inv, Run;
    AliveFrom(init, actions, s);
    Distinct(s);
  }

  // ---------------------------------------------------------------------------------
  // What becomes of a request when connections are idle

  // The first idle connection the poller still has a node for
  function FirstLinked(entries: map<Id, Entry>, idle: seq<Id>): (k: nat)
    ensures k <= |idle|
    ensures forall j :: 0 <= j < k && idle[j] in entries ==> entries[idle[j]].node.None?
    ensures k < |idle| ==> idle[k] in entries && entries[idle[k]].node.Some?
  {
    if idle == [] || (idle[0] in entries && entries[idle[0]].node.Some?) then 0 else 1 + FirstLinked(entries, idle[1..])
  }

  ghost predicate Looking(s: State, t: Thread) {
    && PcOf(s, t).Popping? && s.tlock.None? && NoDuplicates(s.idle)
    && forall e :: e in s.idle ==> e in s.entries && s.entries[e].mutex.None?
  }

  // What becomes of entry e when the request has gone through the list up to place k: those before
  // it are given up, and the one there, if any, is the session's.
  function Sifted(x: Entry, e: Id, idle: seq<Id>, k: nat, t: Thread, session: Session): Entry
    requires k <= |idle|
  {
    if e in idle[..k] then x.(state := CLOSING, spot := Away)
    else if k < |idle| && e == idle[k] then x.(session := session, owing := true, mutex := Some(t), spot := Spot.Taken(t))
    else x
  }

  ghost predicate AllSifted(entries: map<Id, Entry>, entries': map<Id, Entry>, idle: seq<Id>, k: nat, t: Thread, session: Session)
    requires k <= |idle|
  {
    && entries'.Keys == entries.Keys
    && forall e :: e in entries ==> entries'[e] == Sifted(entries[e], e, idle, k, t, session)
  }

  // The request has the first linked connection, or is about to open a new one.
  ghost predicate Resolved(s: State, s': State, t: Thread)
    requires PcOf(s, t).Popping?
  {
    var k, session := FirstLinked(s.entries, s.idle), PcOf(s, t).session;
    && AllSifted(s.entries, s'.entries, s.idle, k, t, session)
    && s'.tlock.None? && s'.handlers == s.handlers && s'.served == s.served
    && if k < |s.idle| then
         && s'.threads == s.threads[t := Sending(session, s.idle[k])]
         && s'.place == s.place[session := At(s.idle[k])] && s'.idle == s.idle[k + 1..]
       else
         s'.threads == s.threads[t := Launching(session)] && s'.place == s.place && s'.idle == []
  }

  ghost predicate OnlyBy(t: Thread, actions: seq<Action>) {
    forall a :: a in actions ==> a == Pop(t) || a == LockEntry(t) || a == Retime(t)
  }

  lemma RequestMoves(s: State, a: Action)
    requires !IsPollerAction(a) && RequestStep(s, a).Some?
    ensures Next(s, a) == RequestStep(s, a)
  {
    hide RequestStep, PollerStep;
  }

  lemma ThreeSteps(s: State, a: Action, s1: State, b: Action, s2: State, c: Action, s': State)
    requires Next(s, a) == Some(s1) && Next(s1, b) == Some(s2) && Next(s2, c) == Some(s')
    ensures Run(s, [a, b, c], s')
  {
    hide Next;
    assert Run(s', [], s');
    assert [c][1..] == [] && [b, c][1..] == [c] && [a, b, c][1..] == [b, c];
    assert Run(s2, [c], s');
    assert Run(s1, [b, c], s');
  }

  // The first one is off the list, and its mutex here.
  lemma LocksFirst(s: State, t: Thread) returns (s1: State, s2: State)
    requires Looking(s, t) && s.idle != []
    ensures Next(s, Pop(t)) == Some(s1) && Next(s1, LockEntry(t)) == Some(s2)
    ensures var e := s.idle[0];
      && s2.idle == s.idle[1..] && s2.tlock.None? && s2.handlers == s.handlers && s2.served == s.served && s2.place == s.place
      && s2.entries == s.entries[e := s.entries[e].(mutex := Some(t), spot := Spot.Taken(t))]
      && s2.threads == s.threads[t := Holding(PcOf(s, t).session, e)]
  {
    hide Next, NoDuplicates;
    s1 := RequestStep(s, Pop(t)).value;
    RequestMoves(s, Pop(t));
    s2 := RequestStep(s1, LockEntry(t)).value;
    RequestMoves(s1, LockEntry(t));
  }

  // The first one taken, whether the poller still has a node for it or not
  ghost predicate TookFirst(s: State, t: Thread, s': State)
    requires PcOf(s, t).Popping? && s.idle != [] && s.idle[0] in s.entries
  {
    var e, session := s.idle[0], PcOf(s, t).session;
    var x := s.entries[e];
    && s'.idle == s.idle[1..] && s'.tlock.None? && s'.handlers == s.handlers && s'.served == s.served
    && if x.node.Some? then
         && s'.entries == s.entries[e := x.(session := session, owing := true, mutex := Some(t), spot := Spot.Taken(t))]
         && s'.threads == s.threads[t := Sending(session, e)] && s'.place == s.place[session := At(e)]
       else
         && s'.entries == s.entries[e := x.(state := CLOSING, spot := Away)]
         && s'.threads == s.threads && s'.place == s.place
  }

  lemma TakesFirst(s: State, t: Thread) returns (s': State)
    requires Looking(s, t) && s.idle != []
    ensures Run(s, [Pop(t), LockEntry(t), Retime(t)], s') && TookFirst(s, t, s')
  {
    hide Next, Run;
    var s1, s2 := LocksFirst(s, t);
    s' := RequestStep(s2, Retime(t)).value;
    RequestMoves(s2, Retime(t));
    ThreeSteps(s, Pop(t), s1, LockEntry(t), s2, Retime(t), s');
  }
  lemma {:induction false} RunOn(s: State, a: seq<Action>, mid: State, b: seq<Action>, end: State)
    requires Run(s, a, mid) && Run(mid, b, end)
    ensures Run(s, a + b, end)
    decreases |a|
  {
    hide Next;
    if a == [] {
      assert a + b == b;
    } else {
      RunOn(Next(s, a[0]).value, a[1..], mid, b, end);
      assert (a + b)[1..] == a[1..] + b;
    }
  }

  lemma {:induction false} SameLinked(entries: map<Id, Entry>, entries': map<Id, Entry>, idle: seq<Id>)
    requires entries'.Keys == entries.Keys && forall e :: e in entries ==> entries'[e].node == entries[e].node
    ensures FirstLinked(entries', idle) == FirstLinked(entries, idle)
  {
    if idle != [] { SameLinked(entries, entries', idle[1..]); }
  }

  lemma FindsNone(s: State, t: Thread) returns (s': State)
    requires Looking(s, t) && s.idle == []
    ensures Run(s, [Pop(t)], s') && s' == s.(threads := s.threads[t := Launching(PcOf(s, t).session)])
  {
    hide Next;
    RequestMoves(s, Pop(t));
    s' := RequestStep(s, Pop(t)).value;
    assert Run(s', [], s') && [Pop(t)][1..] == [];
  }

  lemma FoundNone(s: State, t: Thread, s': State)
    requires Looking(s, t) && s.idle == [] && s' == s.(threads := s.threads[t := Launching(PcOf(s, t).session)])
    ensures Resolved(s, s', t)
  {
  }

  lemma Shorter(s: State, t: Thread, s': State)
    requires Looking(s, t) && s.idle != [] && TookFirst(s, t, s')
    ensures |s'.idle| < |s.idle|
  {
  }

  lemma InFirst(idle: seq<Id>, k: nat, e: Id)
    requires k < |idle|
    ensures e in idle[..k + 1] <==> e == idle[0] || e in idle[1..][..k]
  {
    assert idle[..k + 1] == [idle[0]] + idle[1..][..k];
  }

  lemma SiftedNext(x: Entry, e: Id, idle: seq<Id>, k: nat, t: Thread, session: Session)
    requires k < |idle| && NoDuplicates(idle) && e != idle[0]
    ensures Sifted(x, e, idle[1..], k, t, session) == Sifted(x, e, idle, k + 1, t, session)
  {
    InFirst(idle, k, e);
    assert k < |idle[1..]| ==> idle[1..][k] == idle[k + 1];
  }

  lemma SiftedFirst(x: Entry, idle: seq<Id>, k: nat, t: Thread, session: Session)
    requires k < |idle| && NoDuplicates(idle)
    ensures var y := x.(state := CLOSING, spot := Away);
      Sifted(y, idle[0], idle[1..], k, t, session) == y == Sifted(x, idle[0], idle, k + 1, t, session)
  {
    InFirst(idle, k, idle[0]);
    var rest := idle[1..];
    assert forall i :: 0 <= i < |rest| ==> rest[i] == idle[i + 1];
  }

  lemma SiftedOn(entries: map<Id, Entry>, mid: map<Id, Entry>, entries': map<Id, Entry>, idle: seq<Id>, k: nat, t: Thread, session: Session)
    requires k < |idle| && NoDuplicates(idle) && idle[0] in entries
    requires mid == entries[idle[0] := entries[idle[0]].(state := CLOSING, spot := Away)]
    requires AllSifted(mid, entries', idle[1..], k, t, session)
    ensures AllSifted(entries, entries', idle, k + 1, t, session)
  {
    hide Sifted, NoDuplicates;
    forall e | e in entries ensures entries'[e] == Sifted(entries[e], e, idle, k + 1, t, session) {
      if e == idle[0] {
        SiftedFirst(entries[e], idle, k, t, session);
      } else {
        SiftedNext(entries[e], e, idle, k, t, session);
      }
    }
  }

  lemma HeadIsLinked(s: State, t: Thread, s': State)
    requires Looking(s, t) && s.idle != [] && s.entries[s.idle[0]].node.Some? && TookFirst(s, t, s')
    ensures Resolved(s, s', t)
  {
    assert s.idle[..0] == [];
    hide NoDuplicates;
  }

  lemma StillLooking(s: State, t: Thread, mid: State)
    requires Looking(s, t) && s.idle != [] && s.entries[s.idle[0]].node.None? && TookFirst(s, t, mid)
    ensures Looking(mid, t) && PcOf(mid, t) == PcOf(s, t)
    ensures FirstLinked(mid.entries, mid.idle) == FirstLinked(s.entries, s.idle[1..])
  {
    SameLinked(s.entries, mid.entries, s.idle[1..]);
    assert forall e :: e in mid.idle ==> e in s.idle;
  }

  lemma ResolvedOn(s: State, t: Thread, mid: State, s': State)
    requires Looking(s, t) && s.idle != [] && s.entries[s.idle[0]].node.None? && TookFirst(s, t, mid)
    requires PcOf(mid, t) == PcOf(s, t) && FirstLinked(mid.entries, mid.idle) == FirstLinked(s.entries, s.idle[1..])
    requires Resolved(mid, s', t)
    ensures Resolved(s, s', t)
  {
    var rest := s.idle[1..];
    var k := FirstLinked(s.entries, rest);
    SiftedOn(s.entries, mid.entries, s'.entries, s.idle, k, t, PcOf(s, t).session);
    hide AllSifted, NoDuplicates;
    assert FirstLinked(s.entries, s.idle) == k + 1;
    if k < |rest| {
      assert rest[k] == s.idle[k + 1] && rest[k + 1..] == s.idle[k + 2..];
    }
  }

  // By its own steps a request comes to have the first idle connection that is still linked,
  // or to open a new one when none is.
  lemma {:induction false} GoesThrough(s: State, t: Thread) returns (actions: seq<Action>, s': State)
    requires Looking(s, t)
    ensures Run(s, actions, s') && OnlyBy(t, actions) && Resolved(s, s', t)
    decreases |s.idle|
  {
    hide Run, Resolved, TookFirst, FirstLinked;
    if s.idle == [] {
      s' := FindsNone(s, t);
      FoundNone(s, t, s');
      actions := [Pop(t)];
    } else {
      var first := [Pop(t), LockEntry(t), Retime(t)];
      var mid := TakesFirst(s, t);
      if s.entries[s.idle[0]].node.Some? {
        actions, s' := first, mid;
        HeadIsLinked(s, t, s');
      } else {
        StillLooking(s, t, mid);
        Shorter(s, t, mid);
        actions, s' := GoesThrough(mid, t);
        ResolvedOn(s, t, mid, s');
        RunOn(s, first, mid, actions, s');
        actions := first + actions;
      }
    }
  }

  // ... in every state a run comes to, as long as nobody has the mutexes it needs.
  lemma TakesLinkedOrOpens(init: State, before: seq<Action>, s: State, t: Thread) returns (actions: seq<Action>, s': State)
    requires Init(init) && Run(init, before, s) && PcOf(s, t).Popping? && s.tlock.None?
    requires forall e :: e in s.idle && e in s.entries ==> s.entries[e].mutex.None?
    ensures Run(s, actions, s') && OnlyBy(t, actions) && Resolved(s, s', t)
  {
    hide Run, Init, Resolved, OnlyBy;
    Reached(init, before, s);
    Distinct(s);
    hide Inv;
    actions, s' := GoesThrough(s, t);
  }
  // ---------------------------------------------------------------------------------
  // A run in which two sessions are served on one connection

  datatype Pair = Pair(asker: Thread, handler: Thread)

  ghost predicate Leads(from: State, s: State) {
    exists actions :: Run(from, actions, s)
  }

  lemma LeadsOn(from: State, s: State, a: Action, s': State)
    requires Leads(from, s) && Next(s, a) == Some(s')
    ensures Leads(from, s')
  {
    hide Next;
    var actions :| Run(from, actions, s);
    Extend(from, actions, s, a, s');
  }

  // The two are at these places, and the only connection is x.
  ghost predicate Stage(init: State, s: State, c: Pair, x: Entry, asker: Pc, handler: Pc) {
    && Leads(init, s) && s.entries == map[0 := x] && s.tlock.None?
    && c.asker in s.threads && c.handler in s.threads && c.asker !in s.handlers && c.handler in s.handlers
    && s.threads[c.asker] == asker && s.threads[c.handler] == handler
  }

  predicate SameBooks(s: State, s': State) {
    s'.idle == s.idle && s'.served == s.served && s'.place == s.place
  }

  lemma PollerStage(init: State, s: State, c: Pair, x: Entry, q: Pc, a: Action, x': Entry) returns (s': State)
    requires Stage(init, s, c, x, Out, q) && IsPollerAction(a) && a.e == 0 && PollerStep(x, a) == Some(x')
    ensures Stage(init, s', c, x', Out, q) && SameBooks(s, s')
  {
    s' := Set(s, 0, x');
    assert Next(s, a) == Some(s');
    hide Next, PollerStep, Leads;
    LeadsOn(init, s, a, s');
  }

  // The connection, waiting for a reply; keepAlive is what the reply before has left.
  function Reading(session: Session, keepAlive: bool): Entry {
    Entered(session).(state := RECEIVING, node := Some(Read), op := Read, keepAlive := keepAlive)
  }

  ghost predicate Opens(init: State, c: Pair) {
    Init(init) && c.asker in init.threads && c.handler in init.threads && c.asker !in init.handlers && c.handler in init.handlers
  }

  lemma FirstStage(init: State, c: Pair) returns (s: State)
    requires Opens(init, c)
    ensures Stage(init, s, c, Entered(7), Out, Out)
    ensures s.idle == [] && s.served == multiset{} && s.place == map[7 := At(0)]
  {
    hide Leads, Next;
    StartIsReached(init);
    var s1 := RequestStep(init, Request(c.asker, 7)).value;
    RequestOnward(init, init, Request(c.asker, 7), s1);
    var s2 := RequestStep(s1, Pop(c.asker)).value;
    RequestOnward(init, s1, Pop(c.asker), s2);
    s := RequestStep(s2, Launch(c.asker, 0)).value;
    RequestOnward(init, s2, Launch(c.asker, 0), s);
  }

  lemma StartIsReached(init: State)
    requires Init(init)
    ensures Leads(init, init)
  {
    assert Run(init, [], init);
  }

  lemma RequestOnward(init: State, s: State, a: Action, s': State)
    requires Leads(init, s) && !IsPollerAction(a) && RequestStep(s, a) == Some(s')
    ensures Leads(init, s')
  {
    hide Leads, Next, RequestStep;
    RequestMoves(s, a);
    LeadsOn(init, s, a, s');
  }

  lemma ConnectStage(init: State, s: State, c: Pair) returns (s': State)
    requires Stage(init, s, c, Entered(7), Out, Out)
    ensures Stage(init, s', c, Entered(7).(node := None, queue := multiset{CONNECTED}, owner := Queued(CONNECTED)), Out, Out) && SameBooks(s, s')
  {
    var x := Entered(7);
    var x1 := PollerStep(x, Fetch(0)).value;
    var x2 := PollerStep(x1, Finish(0, true)).value;
    assert x.queue + multiset{CONNECTED} == multiset{CONNECTED};
    hide PollerStep, Stage;
    s' := PollerStage(init, s, c, x, Out, Fetch(0), x1);
    s' := PollerStage(init, s', c, x1, Out, Finish(0, true), x2);
  }
  lemma TakeStage(init: State, s: State, c: Pair, x: Entry, r: Result) returns (s': State)
    requires Stage(init, s, c, x, Out, Out) && r in x.queue
    ensures Stage(init, s', c, AfterTake(x, c.handler, r), Out, Handling(0, r)) && SameBooks(s, s')
  {
    hide Next, Leads;
    IsReadStep(s, Take(c.handler, 0, r));
    s' := Next(s, Take(c.handler, 0, r)).value;
    LeadsOn(init, s, Take(c.handler, 0, r), s');
  }

  lemma SentStage(init: State, s: State, c: Pair) returns (s': State)
    requires Stage(init, s, c, Entered(7).(node := None, owner := With(c.handler)), Out, Handling(0, CONNECTED))
    ensures Stage(init, s', c, Entered(7).(node := None, owner := With(c.handler), state := RECEIVING), Out, AddingFirst(0)) && SameBooks(s, s')
  {
    hide Next, Leads;
    IsWriteStep(s, ConnectSent(c.handler));
    s' := Next(s, ConnectSent(c.handler)).value;
    LeadsOn(init, s, ConnectSent(c.handler), s');
  }

  lemma ReadingStage(init: State, s: State, c: Pair) returns (s': State)
    requires Stage(init, s, c, Entered(7).(node := None, owner := With(c.handler), state := RECEIVING), Out, AddingFirst(0))
    ensures Stage(init, s', c, Reading(7, false), Out, Out) && SameBooks(s, s')
  {
    hide Next, Leads;
    IsWriteStep(s, AddFirst(c.handler, true));
    s' := Next(s, AddFirst(c.handler, true)).value;
    LeadsOn(init, s, AddFirst(c.handler, true), s');
  }

  // The reply begins ...
  lemma MessageStage(init: State, s: State, c: Pair, session: Session, k: bool) returns (s': State)
    requires Stage(init, s, c, Reading(session, k), Out, Out)
    ensures Stage(init, s', c, Reading(session, k).(busy := Append, msgOpen := true), Out, Out) && SameBooks(s, s')
  {
    var x := Reading(session, k);
    var x1, x2, x3 := x.(busy := Got(Read)), x.(busy := CreateCheck), x.(busy := Append, msgOpen := true);
    assert PollerStep(x, Fetch(0)) == Some(x1) && PollerStep(x1, CreateFirst(0)) == Some(x2) && PollerStep(x2, Create(0, true)) == Some(x3);
    hide PollerStep, Stage;
    s' := PollerStage(init, s, c, x, Out, Fetch(0), x1);
    s' := PollerStage(init, s', c, x1, Out, CreateFirst(0), x2);
    s' := PollerStage(init, s', c, x2, Out, Create(0, true), x3);
  }

  function Answered(session: Session): Entry {
    Reading(session, true).(state := SUCCESS, queue := multiset{NOTICE}, notice := NoticeQueued)
  }

  // ... and is complete, which leaves the connection alive.
  lemma ReplyStage(init: State, s: State, c: Pair, session: Session, k: bool) returns (s': State)
    requires Stage(init, s, c, Reading(session, k).(busy := Append, msgOpen := true), Out, Out)
    ensures Stage(init, s', c, Answered(session), Out, Out) && SameBooks(s, s')
  {
    var x3 := Reading(session, k).(busy := Append, msgOpen := true);
    var x4 := Reading(session, true).(state := SUCCESS, busy := Emit, notice := Emitting);
    var x5 := Answered(session).(busy := Got(Read));
    assert x4.queue + multiset{NOTICE} == multiset{NOTICE};
    assert PollerStep(x3, AppendDone(0, true)) == Some(x4) && PollerStep(x4, EmitNotice(0)) == Some(x5);
    assert PollerStep(x5, Return(0)) == Some(Answered(session));
    hide PollerStep, Stage;
    s' := PollerStage(init, s, c, x3, Out, AppendDone(0, true), x4);
    s' := PollerStage(init, s', c, x4, Out, EmitNotice(0), x5);
    s' := PollerStage(init, s', c, x5, Out, Return(0), Answered(session));
  }

  // The connection is idle, and the session about to be served.
  lemma IdleStage(init: State, s: State, c: Pair, session: Session) returns (s': State)
    requires Stage(init, s, c, AfterTake(Answered(session), c.handler, NOTICE), Out, Handling(0, NOTICE))
    ensures Stage(init, s', c, Rested(session, 2, {c.handler}), Out, Serving(0, session, true, ThenDrop))
    ensures s'.idle == [0] + s.idle && s'.served == s.served && s'.place == s.place[session := InHands(c.handler)]
  {
    hide Next, Leads;
    assert multiset{NOTICE} - multiset{NOTICE} == multiset{} && {} + {c.handler} == {c.handler};
    IsReadStep(s, ReadSuccess(c.handler));
    s' := Next(s, ReadSuccess(c.handler)).value;
    LeadsOn(init, s, ReadSuccess(c.handler), s');
  }

  function Rested(session: Session, ref: int, guests: set<Thread>): Entry {
    Reading(session, true).(state := IDLE, ref := ref, guests := guests, spot := OnList, owing := false)
  }

  lemma ServeStage(init: State, s: State, c: Pair, session: Session) returns (s': State)
    requires Stage(init, s, c, Rested(session, 2, {c.handler}), Out, Serving(0, session, true, ThenDrop))
    ensures Stage(init, s', c, Rested(session, 2, {c.handler}), Out, Dropping(0, true))
    ensures s'.idle == s.idle && s'.served == s.served + multiset{session} && s'.place == s.place[session := Done]
  {
    hide Next, Leads;
    IsLeaveStep(s, Serve(c.handler));
    s' := Next(s, Serve(c.handler)).value;
    LeadsOn(init, s, Serve(c.handler), s');
  }

  lemma DropStage(init: State, s: State, c: Pair, session: Session) returns (s': State)
    requires Stage(init, s, c, Rested(session, 2, {c.handler}), Out, Dropping(0, true))
    ensures Stage(init, s', c, Rested(session, 1, {}), Out, Out) && SameBooks(s, s')
  {
    hide Next, Leads;
    assert {c.handler} - {c.handler} == {};
    IsLeaveStep(s, Drop(c.handler));
    s' := Next(s, Drop(c.handler)).value;
    LeadsOn(init, s, Drop(c.handler), s');
  }

  // From a connection that reads to one that is idle, its session served
  lemma RoundStage(init: State, s: State, c: Pair, session: Session, k: bool) returns (s': State)
    requires Stage(init, s, c, Reading(session, k), Out, Out) && s.idle == []
    ensures Stage(init, s', c, Rested(session, 1, {}), Out, Out)
    ensures s'.idle == [0] && s'.served == s.served + multiset{session} && s'.place == s.place[session := Done]
  {
    hide Stage;
    s' := MessageStage(init, s, c, session, k);
    s' := ReplyStage(init, s', c, session, k);
    s' := TakeStage(init, s', c, Answered(session), NOTICE);
    s' := IdleStage(init, s', c, session);
    s' := ServeStage(init, s', c, session);
    s' := DropStage(init, s', c, session);
  }

  // The next session finds it.
  lemma SecondStage(init: State, s: State, c: Pair) returns (s': State)
    requires Stage(init, s, c, Rested(7, 1, {}), Out, Out) && s.idle == [0] && 8 !in s.place
    ensures Stage(init, s', c, Rested(7, 1, {}), Popping(8), Out)
    ensures s'.idle == s.idle && s'.served == s.served && s'.place == s.place[8 := Asking(c.asker)]
  {
    hide Next, Leads;
    s' := RequestStep(s, Request(c.asker, 8)).value;
    RequestOnward(init, s, Request(c.asker, 8), s');
  }

  lemma LockStage(init: State, s: State, c: Pair) returns (s': State)
    requires Stage(init, s, c, Rested(7, 1, {}), Popping(8), Out) && s.idle == [0]
    ensures Stage(init, s', c, Rested(7, 1, {}).(mutex := Some(c.asker), spot := Spot.Taken(c.asker)), Holding(8, 0), Out)
    ensures s'.idle == [] && s'.served == s.served && s'.place == s.place
  {
    var s1: State;
    hide Leads, Next;
    s1, s' := LocksFirst(s, c.asker);
    assert s'.entries == map[0 := Rested(7, 1, {}).(mutex := Some(c.asker), spot := Spot.Taken(c.asker))];
    LeadsOn(init, s, Pop(c.asker), s1);
    LeadsOn(init, s1, LockEntry(c.asker), s');
  }

  function Reused(c: Pair): Entry {
    Rested(8, 1, {}).(owing := true, mutex := Some(c.asker), spot := Spot.Taken(c.asker))
  }

  lemma RetimeStage(init: State, s: State, c: Pair) returns (s': State)
    requires Stage(init, s, c, Rested(7, 1, {}).(mutex := Some(c.asker), spot := Spot.Taken(c.asker)), Holding(8, 0), Out)
    ensures Stage(init, s', c, Reused(c), Sending(8, 0), Out)
    ensures s'.idle == s.idle && s'.served == s.served && s'.place == s.place[8 := At(0)]
  {
    hide Next, Leads;
    s' := RequestStep(s, Retime(c.asker)).value;
    RequestOnward(init, s, Retime(c.asker), s');
  }

  lemma IsSendStep(s: State, a: Action)
    requires a.SendSync? || a.SendAsync? || a.Unlock?
    ensures Next(s, a) == SendStep(s, a)
  {
  }

  lemma SendStage(init: State, s: State, c: Pair) returns (s': State)
    requires Stage(init, s, c, Reused(c), Sending(8, 0), Out)
    ensures Stage(init, s', c, Reading(8, true), Out, Out) && SameBooks(s, s')
  {
    hide Next, Leads;
    IsSendStep(s, SendSync(c.asker));
    var s1 := Next(s, SendSync(c.asker)).value;
    LeadsOn(init, s, SendSync(c.asker), s1);
    IsSendStep(s1, Unlock(c.asker));
    s' := Next(s1, Unlock(c.asker)).value;
    LeadsOn(init, s1, Unlock(c.asker), s');
  }
  lemma TwoServed(init: State, s: State, c: Pair) returns (s': State)
    requires Stage(init, s, c, Reading(8, true), Out, Out) && s.idle == [] && s.served == multiset{7} && s.place == map[7 := Done, 8 := At(0)]
    ensures Stage(init, s', c, Rested(8, 1, {}), Out, Out) && BothServed(s')
  {
    hide Reading, Rested, Leads;
    s' := RoundStage(init, s, c, 8, true);
    assert multiset{7} + multiset{8} == multiset{7, 8};
  }

  // Both sessions are served, on one connection, and it is idle again.
  predicate BothServed(s: State) {
    s.served == multiset{7, 8} && s.place == map[7 := Done, 8 := Done] && s.entries.Keys == {0} && s.idle == [0]
  }

  // From the first request to where its connect is answered for
  lemma ConnectedStage(init: State, c: Pair) returns (s: State)
    requires Opens(init, c)
    ensures Stage(init, s, c, Entered(7).(node := None, owner := With(c.handler)), Out, Handling(0, CONNECTED))
    ensures s.idle == [] && s.served == multiset{} && s.place == map[7 := At(0)]
  {
    hide Stage;
    s := FirstStage(init, c);
    s := ConnectStage(init, s, c);
    s := TakeStage(init, s, c, Entered(7).(node := None, queue := multiset{CONNECTED}, owner := Queued(CONNECTED)), CONNECTED);
    assert multiset{CONNECTED} - multiset{CONNECTED} == multiset{};
  }

  // From the first session's reply to where the second one is about to be sent
  lemma ReusedStage(init: State, s: State, c: Pair) returns (s': State)
    requires Stage(init, s, c, Reading(7, false), Out, Out) && s.idle == [] && s.served == multiset{} && s.place == map[7 := At(0)]
    ensures Stage(init, s', c, Reused(c), Sending(8, 0), Out)
    ensures s'.idle == [] && s'.served == multiset{7} && s'.place == map[7 := Done, 8 := At(0)]
  {
    hide Stage, Rested, Reading, Answered;
    s' := RoundStage(init, s, c, 7, false);
    s' := SecondStage(init, s', c);
    s' := LockStage(init, s', c);
    s' := RetimeStage(init, s', c);
  }

  // One thread asks, one handles results: the second session is served on the connection of the
  // first, which stays the only one.
  lemma ReuseRun(init: State, c: Pair) returns (actions: seq<Action>, s: State)
    requires Opens(init, c)
    ensures Run(init, actions, s) && BothServed(s)
  {
    hide Opens, Stage, Run, Rested, Reading;
    s := ConnectedStage(init, c);
    s := SentStage(init, s, c);
    s := ReadingStage(init, s, c);
    s := ReusedStage(init, s, c);
    s := SendStage(init, s, c);
    s := TwoServed(init, s, c);
    StageLeads(init, s, c, Rested(8, 1, {}), Out, Out);
    actions :| Run(init, actions, s);
  }

  lemma StageLeads(from: State, s: State, c: Pair, x: Entry, asker: Pc, handler: Pc)
    requires Stage(from, s, c, x, asker, handler)
    ensures Leads(from, s) && Stage(s, s, c, x, asker, handler)
  {
    assert Run(s, [], s);
  }

  // ---------------------------------------------------------------------------------
  // ... and when neither message goes out at once

  // The rest of the message is with the poller, which has taken the place of a read or of nothing.
  function Writing(session: Session, state: ConnState, keepAlive: bool): Entry {
    Reading(session, keepAlive).(state := state, node := Some(Write), op := Write)
  }

  const WRITTEN := Result(Write, Finished)
  const REPLACED := Result(Read, Modified)

  lemma WriteStage(from: State, s: State, c: Pair, session: Session, state: ConnState, k: bool) returns (s': State)
    requires Stage(from, s, c, Writing(session, state, k), Out, Out)
    ensures Stage(from, s', c, Writing(session, state, k).(node := None, owner := With(c.handler)), Out, Handling(0, WRITTEN)) && SameBooks(s, s')
  {
    var x := Writing(session, state, k);
    var x1 := x.(busy := Got(Write));
    var x2 := x.(node := None, queue := multiset{WRITTEN}, owner := Queued(WRITTEN));
    assert x.queue + multiset{WRITTEN} == multiset{WRITTEN} && multiset{WRITTEN} - multiset{WRITTEN} == multiset{};
    assert PollerStep(x, Fetch(0)) == Some(x1) && PollerStep(x1, Finish(0, true)) == Some(x2);
    hide PollerStep, Stage;
    s' := PollerStage(from, s, c, x, Out, Fetch(0), x1);
    s' := PollerStage(from, s', c, x1, Out, Finish(0, true), x2);
    s' := TakeStage(from, s', c, x2, WRITTEN);
  }

  lemma IsWriteEventStep(s: State, a: Action)
    requires a.WriteFinished? || a.AddRead? || a.ConnectPartial?
    ensures Next(s, a) == WriteStep(s, a)
  {
  }

  lemma WrittenStage(from: State, s: State, c: Pair, session: Session, state: ConnState, k: bool) returns (s': State)
    requires Stage(from, s, c, Writing(session, state, k).(node := None, owner := With(c.handler)), Out, Handling(0, WRITTEN))
    ensures Stage(from, s', c, Writing(session, RECEIVING, k).(node := None, owner := With(c.handler)), Out, Adding(0)) && SameBooks(s, s')
  {
    hide Next, Leads;
    IsWriteEventStep(s, WriteFinished(c.handler));
    s' := Next(s, WriteFinished(c.handler)).value;
    LeadsOn(from, s, WriteFinished(c.handler), s');
  }

  lemma AddedStage(from: State, s: State, c: Pair, session: Session, k: bool) returns (s': State)
    requires Stage(from, s, c, Writing(session, RECEIVING, k).(node := None, owner := With(c.handler)), Out, Adding(0))
    ensures Stage(from, s', c, Reading(session, k), Out, Out) && SameBooks(s, s')
  {
    hide Next, Leads;
    IsWriteEventStep(s, AddRead(c.handler, true));
    s' := Next(s, AddRead(c.handler, true)).value;
    LeadsOn(from, s, AddRead(c.handler, true), s');
  }

  lemma PartialStage(s: State, c: Pair) returns (s': State)
    requires Stage(s, s, c, Entered(7).(node := None, owner := With(c.handler)), Out, Handling(0, CONNECTED))
    ensures Next(s, ConnectPartial(c.handler)) == Some(s')
    ensures Stage(s', s', c, Writing(7, CONNECTING, false), Out, Out) && SameBooks(s, s')
  {
    hide Next;
    IsWriteEventStep(s, ConnectPartial(c.handler));
    s' := Next(s, ConnectPartial(c.handler)).value;
    assert Run(s', [], s');
  }

  lemma AsyncStage(s: State, c: Pair) returns (s': State)
    requires Stage(s, s, c, Reused(c), Sending(8, 0), Out)
    ensures Next(s, SendAsync(c.asker)) == Some(s')
    ensures Stage(s', s', c, Writing(8, IDLE, true).(mutex := Some(c.asker), gone := multiset{REPLACED}), Unlocking(0), Out) && SameBooks(s, s')
  {
    hide Next;
    IsSendStep(s, SendAsync(c.asker));
    s' := Next(s, SendAsync(c.asker)).value;
    assert multiset{} + multiset{REPLACED} == multiset{REPLACED};
    assert Run(s', [], s');
  }

  lemma UnlockStage(from: State, s: State, c: Pair) returns (s': State)
    requires Stage(from, s, c, Writing(8, IDLE, true).(mutex := Some(c.asker), gone := multiset{REPLACED}), Unlocking(0), Out)
    ensures Stage(from, s', c, Writing(8, IDLE, true).(gone := multiset{REPLACED}), Out, Out) && SameBooks(s, s')
  {
    hide Next, Leads;
    IsSendStep(s, Unlock(c.asker));
    s' := Next(s, Unlock(c.asker)).value;
    LeadsOn(from, s, Unlock(c.asker), s');
  }

  // The handler gets the node that has been replaced, and lets it be.
  lemma ReplacedStage(from: State, s: State, c: Pair) returns (s': State)
    requires Stage(from, s, c, Writing(8, IDLE, true).(gone := multiset{REPLACED}), Out, Out)
    ensures Stage(from, s', c, Writing(8, IDLE, true), Out, Handling(0, REPLACED)) && SameBooks(s, s')
  {
    var x := Writing(8, IDLE, true);
    assert x.queue + multiset{REPLACED} == multiset{REPLACED} && multiset{REPLACED} - multiset{REPLACED} == multiset{};
    assert PollerStep(x.(gone := multiset{REPLACED}), Deliver(0, REPLACED)) == Some(x.(queue := multiset{REPLACED}));
    hide PollerStep, Stage;
    s' := PollerStage(from, s, c, x.(gone := multiset{REPLACED}), Out, Deliver(0, REPLACED), x.(queue := multiset{REPLACED}));
    s' := TakeStage(from, s', c, x.(queue := multiset{REPLACED}), REPLACED);
  }

  lemma IgnoreStage(from: State, s: State, c: Pair) returns (s': State)
    requires Stage(from, s, c, Writing(8, IDLE, true), Out, Handling(0, REPLACED))
    ensures Stage(from, s', c, Writing(8, IDLE, true), Out, Out) && SameBooks(s, s')
  {
    hide Next, Leads;
    IsReadStep(s, Ignore(c.handler));
    s' := Next(s, Ignore(c.handler)).value;
    LeadsOn(from, s, Ignore(c.handler), s');
  }

  // A first message of which a part is left when the connect is answered for, a second one of which
  // a part is left on the idle connection: the poller writes the rest, and both are served.
  lemma WrittenRun(init: State, c: Pair) returns (s1: State, s1': State, s2: State, s2': State, s: State)
    requires Opens(init, c)
    ensures Leads(init, s1) && Next(s1, ConnectPartial(c.handler)) == Some(s1')
    ensures Leads(s1', s2) && Next(s2, SendAsync(c.asker)) == Some(s2')
    ensures Leads(s2', s) && BothServed(s)
  {
    hide Opens, Stage, Leads, Next, Rested, Reading, Writing, Reused;
    s1 := ConnectedStage(init, c);
    StageLeads(init, s1, c, Entered(7).(node := None, owner := With(c.handler)), Out, Handling(0, CONNECTED));
    s1' := PartialStage(s1, c);
    s2 := WriteStage(s1', s1', c, 7, CONNECTING, false);
    s2 := WrittenStage(s1', s2, c, 7, CONNECTING, false);
    s2 := AddedStage(s1', s2, c, 7, false);
    s2 := ReusedStage(s1', s2, c);
    StageLeads(s1', s2, c, Reused(c), Sending(8, 0), Out);
    s2' := AsyncStage(s2, c);
    s := UnlockStage(s2', s2', c);
    s := ReplacedStage(s2', s, c);
    s := IgnoreStage(s2', s, c);
    s := WriteStage(s2', s, c, 8, IDLE, true);
    s := WrittenStage(s2', s, c, 8, IDLE, true);
    s := AddedStage(s2', s, c, 8, true);
    s := TwoServed(s2', s, c);
    StageLeads(s2', s, c, Rested(8, 1, {}), Out, Out);
  }
}
