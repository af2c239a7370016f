/**
  What a session is told (Communicator.cc:575-644, 730-770, 876-924): success if its reply came
  in whole, and failure otherwise, whatever befalls the connection meanwhile.
 */
module ConnOutcomes {
  import opened Collections
  import opened ConnLifecycle

  // The sessions whose reply has been completed; those taken in hand by a handler that was told of
  // the reply, to be told of success; and those taken in hand by any other.
  datatype Ledger = Ledger(answered: set<Session>, won: set<Session>, lost: set<Session>)

  // The sessions handlers take in hand in this step
  function TakenInHand(s: State, s': State): set<Session> {
    set t | t in s'.threads && s'.threads[t].Serving? && !PcOf(s, t).Serving? :: s'.threads[t].session
  }

  function Noted(l: Ledger, s: State, a: Action, s': State): Ledger {
    Ledger(if a.AppendDone? && a.e in s.entries then l.answered + {s.entries[a.e].session} else l.answered,
           if a.ReadSuccess? then l.won + TakenInHand(s, s') else l.won,
           if a.ReadSuccess? then l.lost else l.lost + TakenInHand(s, s'))
  }

  function AllNoted(s: State, actions: seq<Action>, l: Ledger): Ledger
    decreases |actions|
  {
    if actions == [] || Next(s, actions[0]).None? then l
    else var s' := Next(s, actions[0]).value; AllNoted(s', actions[1..], Noted(l, s, actions[0], s'))
  }

  predicate Unmentioned(l: Ledger, ses: Session) {
    ses !in l.answered && ses !in l.won && ses !in l.lost
  }

  predicate Answered(s: State, e: Id) {
    e in s.entries && !s.entries[e].notice.NoNotice?
  }

  predicate Correct(s: State, l: Ledger, ses: Session) {
    if ses !in s.place || s.place[ses].Asking? || s.place[ses].Refused? then Unmentioned(l, ses)
    else if s.place[ses].At? then ses !in l.won && ses !in l.lost && (ses in l.answered <==> Answered(s, s.place[ses].e))
    else (ses in l.won <==> ses in l.answered) && (ses in l.lost <==> ses !in l.answered)
  }

  ghost predicate AllCorrect(s: State, l: Ledger) {
    forall ses :: Correct(s, l, ses)
  }

  lemma AtEntries(s: State)
    requires Inv(s)
    ensures forall z :: z in s.place && s.place[z].At? ==> s.place[z].e in s.entries && s.entries[s.place[z].e].session == z
  {
    hide EntryOk, ThreadOk, Tally, Target;
    assert forall z :: z in s.place ==> SessionOk(s, z, s.place[z]);
  }

  // Only session ses changes its place or its marks, and only the entry it is at may be answered.
  ghost predicate OnlyOf(s: State, s': State, l: Ledger, l': Ledger, ses: Session) {
    && (forall z :: z != ses ==> (z in s'.place <==> z in s.place) && (z in s.place ==> s'.place[z] == s.place[z]))
    && (forall z :: z != ses ==> (z in l'.answered <==> z in l.answered) && (z in l'.won <==> z in l.won) && (z in l'.lost <==> z in l.lost))
    && (forall e :: e in s.entries && s.entries[e].session != ses ==> (Answered(s', e) <==> Answered(s, e)))
  }

  lemma OneMoves(s: State, s': State, l: Ledger, l': Ledger, ses: Session)
    requires Inv(s) && AllCorrect(s, l) && OnlyOf(s, s', l, l', ses) && Correct(s', l', ses)
    ensures AllCorrect(s', l')
  {
    hide Inv;
    AtEntries(s);
    forall z ensures Correct(s', l', z) {
      assert Correct(s, l, z);
    }
  }

  // No session moves, and no reply is completed.
  lemma NothingMoves(s: State, s': State, l: Ledger)
    requires Inv(s) && AllCorrect(s, l) && s'.place == s.place
    requires forall e :: e in s.entries ==> (Answered(s', e) <==> Answered(s, e))
    ensures AllCorrect(s', l)
  {
    hide Inv;
    AtEntries(s);
    forall z ensures Correct(s', l, z) {
      assert Correct(s, l, z);
    }
  }

  lemma NobodyTaken(s: State, s': State, t: Thread, pc: Pc)
    requires s'.threads == s.threads[t := pc] && (pc.Serving? ==> PcOf(s, t).Serving?)
    ensures TakenInHand(s, s') == {}
  {
  }

  lemma OneTaken(s: State, s': State, t: Thread, pc: Pc)
    requires s'.threads == s.threads[t := pc] && pc.Serving? && !PcOf(s, t).Serving?
    ensures TakenInHand(s, s') == {pc.session}
  {
    assert s'.threads[t] == pc;
  }

  // ---------------------------------------------------------------------------------
  // The poller

  predicate NoticesAfter(x: Entry, a: Action, x': Entry) {
    x'.session == x.session && (x'.notice.NoNotice? <==> x.notice.NoNotice? && !a.AppendDone?)
  }

  lemma BusyNotices(x: Entry, a: Action)
    requires OnlyBusy(a) && PollerStep(x, a).Some?
    ensures NoticesAfter(x, a, PollerStep(x, a).value)
  {
  }

  lemma OtherNotices(x: Entry, a: Action)
    requires IsPollerAction(a) && !OnlyBusy(a) && PollerStep(x, a).Some? && (x.notice.Emitting? <==> x.busy.Emit?)
    ensures NoticesAfter(x, a, PollerStep(x, a).value)
  {
  }

  // A reply is completed for a session that is still there.
  lemma ReplyIsAwaited(s: State, e: Id, x: Entry)
    requires EntryOk(s, e, x) && x.busy.Append?
    ensures x.notice.NoNotice? && x.session in s.place && s.place[x.session] == At(e)
  {
  }

  lemma PollerCorrect(s: State, a: Action, l: Ledger)
    requires Inv(s) && AllCorrect(s, l) && IsPollerAction(a) && PollerMove(s, a).Some?
    ensures var s' := PollerMove(s, a).value; AllCorrect(s', Noted(l, s, a, s'))
  {
    hide Inv, AllCorrect, EntryOk, Nodes, PollerStep;
    var s', x := PollerMove(s, a).value, s.entries[a.e];
    EntryIsOk(s, a.e);
    if OnlyBusy(a) { BusyNotices(x, a); } else { OtherNotices(x, a); }
    assert TakenInHand(s, s') == {};
    if a.AppendDone? {
      AppendedBusy(x, a);
      ReplyIsAwaited(s, a.e, x);
      OneCorrect(s, l, x.session);
      OneMoves(s, s', l, Noted(l, s, a, s'), x.session);
    } else {
      assert Noted(l, s, a, s') == l;
      NothingMoves(s, s', l);
    }
  }

  lemma EntryIsOk(s: State, e: Id)
    requires Inv(s) && e in s.entries
    ensures EntryOk(s, e, s.entries[e]) && (s.entries[e].notice.Emitting? <==> s.entries[e].busy.Emit?)
  {
  }

  lemma AppendedBusy(x: Entry, a: Action)
    requires a.AppendDone? && PollerStep(x, a).Some?
    ensures x.busy.Append?
  {
  }

  lemma OneCorrect(s: State, l: Ledger, ses: Session)
    requires AllCorrect(s, l)
    ensures Correct(s, l, ses)
  {
  }
  // ---------------------------------------------------------------------------------
  // Threads that request

  lemma FreshCorrect(s: State, s': State, l: Ledger, ses: Session, e: Id)
    requires Correct(s, l, ses) && (ses !in s.place || s.place[ses].Asking?)
    requires ses in s'.place && (s'.place[ses].Asking? || s'.place[ses].Refused? || (s'.place[ses] == At(e) && !Answered(s', e)))
    ensures Correct(s', l, ses)
  {
  }

  // What a thread with an idle connection in its hands has
  lemma HoldingIdle(s: State, t: Thread)
    requires Inv(s) && t in s.threads && s.threads[t].Holding?
    ensures var e := s.threads[t].e; e in s.entries && s.entries[e].notice.NoNotice?
  {
    Inside(s, t);
  }

  lemma AskerAsks(s: State, t: Thread)
    requires Inv(s) && t in s.threads && (s.threads[t].Popping? || s.threads[t].Holding? || s.threads[t].Launching?)
    ensures var ses := s.threads[t].session; ses in s.place && s.place[ses].Asking?
  {
    assert ThreadOk(s, t, s.threads[t]);
  }

  lemma RequestNotices(s: State, a: Action)
    requires RequestStep(s, a).Some?
    ensures var s' := RequestStep(s, a).value;
      && TakenInHand(s, s') == {}
      && (forall e :: e in s.entries && !(a.Retime? && s.threads[a.t].e == e) ==> (Answered(s', e) <==> Answered(s, e)))
      && (a.Pop? || a.LockEntry? ==> s'.place == s.place)
  {
    NobodyTaken(s, RequestStep(s, a).value, a.t, PcOf(RequestStep(s, a).value, a.t));
  }

  lemma RequestCorrect(s: State, a: Action, l: Ledger)
    requires Inv(s) && AllCorrect(s, l) && RequestStep(s, a).Some?
    ensures var s' := RequestStep(s, a).value; AllCorrect(s', Noted(l, s, a, s'))
  {
    hide Inv, AllCorrect;
    var s' := RequestStep(s, a).value;
    RequestNotices(s, a);
    assert Noted(l, s, a, s') == l;
    hide TakenInHand, Noted, Correct;
    if a.Request? {
      OneCorrect(s, l, a.session);
      FreshCorrect(s, s', l, a.session, 0);
      OneMoves(s, s', l, l, a.session);
    } else if a.Pop? || a.LockEntry? {
      NothingMoves(s, s', l);
    } else {
      var ses := s.threads[a.t].session;
      AskerAsks(s, a.t);
      OneCorrect(s, l, ses);
      if a.Retime? {
        var e := s.threads[a.t].e;
        HoldingIdle(s, a.t);
        if s.entries[e].node.Some? {
          FreshCorrect(s, s', l, ses, e);
          OneMoves(s, s', l, l, ses);
        } else {
          NothingMoves(s, s', l);
        }
      } else {
        FreshCorrect(s, s', l, ses, if a.Launch? then a.e else 0);
        OneMoves(s, s', l, l, ses);
      }
    }
  }

  lemma SendCorrect(s: State, a: Action, l: Ledger)
    requires Inv(s) && AllCorrect(s, l) && SendStep(s, a).Some?
    ensures var s' := SendStep(s, a).value; AllCorrect(s', Noted(l, s, a, s'))
  {
    hide Inv, AllCorrect, Correct;
    var s' := SendStep(s, a).value;
    NobodyTaken(s, s', a.t, PcOf(s', a.t));
    hide TakenInHand;
    assert Noted(l, s, a, s') == l;
    NothingMoves(s, s', l);
  }
  // ---------------------------------------------------------------------------------
  // Threads that handle results

  lemma QueuedNotice(s: State, e: Id, x: Entry, r: Result)
    requires EntryOk(s, e, x) && r in x.queue && r == NOTICE
    ensures x.notice.NoticeQueued?
  {
    hide Tags, States, Refs, Owes;
    assert x.queue[NOTICE] > 0;
  }

  // The announcement of a reply is with the thread.
  lemma Announced(s: State, t: Thread)
    requires Inv(s) && t in s.threads && s.threads[t].Handling? && s.threads[t].r == NOTICE
    ensures var e := s.threads[t].e; e in s.entries && Answered(s, e)
    ensures var x := s.entries[s.threads[t].e]; x.session in s.place && s.place[x.session] == At(s.threads[t].e)
  {
    Inside(s, t);
  }

  // The thread has come upon the end of a connection whose session has had no reply.
  predicate Losing(pc: Pc) {
    || (pc.Parting? && pc.way.ToServe?) || (pc.Handling? && Terminal(pc.r) && !pc.r.op.Read?) || pc.Adding? || pc.AddingFirst?
  }

  lemma Unanswered(s: State, t: Thread)
    requires Inv(s) && t in s.threads && Losing(s.threads[t])
    ensures var e := s.threads[t].e; e in s.entries && !Answered(s, e)
    ensures var x := s.entries[s.threads[t].e]; x.session in s.place && s.place[x.session] == At(s.threads[t].e)
  {
    Inside(s, t);
    hide Inv, Tags, Nodes, Refs;
  }

  lemma ClaimCorrect(s: State, s': State, l: Ledger, t: Thread, e: Id, x: Entry, guest: bool, after: After, won: bool)
    requires Inv(s) && AllCorrect(s, l) && t in s.threads && !s.threads[t].Serving?
    requires e in s.entries && x.session == s.entries[e].session && x.session in s.place && s.place[x.session] == At(e)
    requires s'.threads == s.threads[t := Serving(e, x.session, guest, after)] && s'.place == s.place[x.session := InHands(t)]
    requires s'.entries == s.entries[e := x] && (won <==> Answered(s, e))
    ensures var taken := TakenInHand(s, s');
      AllCorrect(s', if won then l.(won := l.won + taken) else l.(lost := l.lost + taken))
  {
    hide Inv, AllCorrect, TakenInHand;
    var ses := x.session;
    OneTaken(s, s', t, Serving(e, ses, guest, after));
    OneCorrect(s, l, ses);
    var l' := if won then l.(won := l.won + {ses}) else l.(lost := l.lost + {ses});
    assert Correct(s', l', ses);
    ClaimOnlyOf(s, s', l, l', t, e, x, won);
    hide Correct, OnlyOf;
    OneMoves(s, s', l, l', ses);
  }

  lemma ClaimOnlyOf(s: State, s': State, l: Ledger, l': Ledger, t: Thread, e: Id, x: Entry, won: bool)
    requires e in s.entries && x.session == s.entries[e].session
    requires s'.place == s.place[x.session := InHands(t)] && s'.entries == s.entries[e := x]
    requires l' == if won then l.(won := l.won + {x.session}) else l.(lost := l.lost + {x.session})
    ensures OnlyOf(s, s', l, l', x.session)
  {
  }

  lemma TakenQuietly(s: State, a: Action, l: Ledger)
    requires Inv(s) && a.Take? && ReadStep(s, a).Some?
    ensures var s' := ReadStep(s, a).value;
      && s'.place == s.place && Noted(l, s, a, s') == l
      && forall e :: e in s.entries ==> (Answered(s', e) <==> Answered(s, e))
  {
    hide Inv, EntryOk;
    var s' := ReadStep(s, a).value;
    NobodyTaken(s, s', a.t, PcOf(s', a.t));
    EntryIsOk(s, a.e);
    if a.r == NOTICE { QueuedNotice(s, a.e, s.entries[a.e], a.r); }
  }

  lemma EndQuietly(s: State, a: Action, l: Ledger)
    requires a.ReadEndLocked? && ReadStep(s, a).Some?
    ensures var s' := ReadStep(s, a).value;
      && s'.place == s.place && Noted(l, s, a, s') == l
      && forall e :: e in s.entries ==> (Answered(s', e) <==> Answered(s, e))
  {
    var s' := ReadStep(s, a).value;
    NobodyTaken(s, s', a.t, PcOf(s', a.t));
  }

  lemma ReadQuietly(s: State, a: Action, l: Ledger)
    requires ReadStep(s, a).Some? && !a.Take? && !a.ReadSuccess? && !a.ReadEndLocked?
    requires a.Part? && PcOf(s, a.t).Parting? ==> !PcOf(s, a.t).way.ToServe?
    ensures var s' := ReadStep(s, a).value;
      && s'.place == s.place && Noted(l, s, a, s') == l
      && forall e :: e in s.entries ==> (Answered(s', e) <==> Answered(s, e))
  {
    var s' := ReadStep(s, a).value;
    NobodyTaken(s, s', a.t, PcOf(s', a.t));
  }

  lemma PartCorrect(s: State, a: Action, l: Ledger)
    requires Inv(s) && AllCorrect(s, l) && a.Part? && ReadStep(s, a).Some? && PcOf(s, a.t).Parting? && PcOf(s, a.t).way.ToServe?
    ensures var s' := ReadStep(s, a).value; AllCorrect(s', Noted(l, s, a, s'))
  {
    hide Inv, AllCorrect, TakenInHand, Correct;
    var s', e := ReadStep(s, a).value, s.threads[a.t].e;
    Unanswered(s, a.t);
    ClaimCorrect(s, s', l, a.t, e, s'.entries[e], false, ThenDrop, false);
  }

  lemma WonCorrect(s: State, a: Action, l: Ledger)
    requires Inv(s) && AllCorrect(s, l) && a.ReadSuccess? && ReadStep(s, a).Some?
    ensures var s' := ReadStep(s, a).value; AllCorrect(s', Noted(l, s, a, s'))
  {
    hide Inv, AllCorrect, TakenInHand, Correct;
    var s', e := ReadStep(s, a).value, s.threads[a.t].e;
    Announced(s, a.t);
    ClaimCorrect(s, s', l, a.t, e, s'.entries[e], PcOf(s', a.t).guest, ThenDrop, true);
  }

  lemma ReadCorrect(s: State, a: Action, l: Ledger)
    requires Inv(s) && AllCorrect(s, l) && ReadStep(s, a).Some?
    ensures var s' := ReadStep(s, a).value; AllCorrect(s', Noted(l, s, a, s'))
  {
    hide Inv, AllCorrect, Noted, ReadStep;
    var s' := ReadStep(s, a).value;
    if a.ReadSuccess? {
      WonCorrect(s, a, l);
    } else if a.Part? && PcOf(s, a.t).Parting? && PcOf(s, a.t).way.ToServe? {
      PartCorrect(s, a, l);
    } else {
      if a.Take? { TakenQuietly(s, a, l); } else if a.ReadEndLocked? { EndQuietly(s, a, l); } else { ReadQuietly(s, a, l); }
      NothingMoves(s, s', l);
    }
  }

  lemma WriteQuietly(s: State, a: Action, l: Ledger)
    requires WriteStep(s, a).Some? && !PcOf(WriteStep(s, a).value, a.t).Serving?
    ensures var s' := WriteStep(s, a).value;
      && s'.place == s.place && Noted(l, s, a, s') == l
      && forall e :: e in s.entries ==> (Answered(s', e) <==> Answered(s, e))
  {
    var s' := WriteStep(s, a).value;
    NobodyTaken(s, s', a.t, PcOf(s', a.t));
  }

  lemma WriteCorrect(s: State, a: Action, l: Ledger)
    requires Inv(s) && AllCorrect(s, l) && WriteStep(s, a).Some?
    ensures var s' := WriteStep(s, a).value; AllCorrect(s', Noted(l, s, a, s'))
  {
    hide Inv, AllCorrect, TakenInHand, Correct;
    var s' := WriteStep(s, a).value;
    var pc := PcOf(s', a.t);
    if pc.Serving? {
      Unanswered(s, a.t);
      ClaimCorrect(s, s', l, a.t, pc.e, s'.entries[pc.e], false, pc.after, false);
    } else {
      WriteQuietly(s, a, l);
      NothingMoves(s, s', l);
    }
  }

  lemma ServerServes(s: State, t: Thread)
    requires Inv(s) && t in s.threads && s.threads[t].Serving?
    ensures var ses := s.threads[t].session; ses in s.place && s.place[ses].InHands?
  {
    assert ThreadOk(s, t, s.threads[t]);
  }

  lemma LeaveCorrect(s: State, a: Action, l: Ledger)
    requires Inv(s) && AllCorrect(s, l) && LeaveStep(s, a).Some?
    ensures var s' := LeaveStep(s, a).value; AllCorrect(s', Noted(l, s, a, s'))
  {
    hide Inv, AllCorrect;
    var s' := LeaveStep(s, a).value;
    NobodyTaken(s, s', a.t, PcOf(s', a.t));
    hide TakenInHand;
    assert Noted(l, s, a, s') == l;
    if a.Serve? {
      var ses := s.threads[a.t].session;
      ServerServes(s, a.t);
      OneCorrect(s, l, ses);
      OneMoves(s, s', l, l, ses);
    } else {
      NothingMoves(s, s', l);
    }
  }

  // ---------------------------------------------------------------------------------
  // Every run

  lemma StepCorrect(s: State, a: Action, l: Ledger)
    requires Inv(s) && AllCorrect(s, l) && Next(s, a).Some?
    ensures var s' := Next(s, a).value; AllCorrect(s', Noted(l, s, a, s'))
  {
    hide Inv, AllCorrect, Noted, PollerMove, RequestStep, SendStep, ReadStep, WriteStep, LeaveStep;
    if IsPollerAction(a) { PollerCorrect(s, a, l); }
    else if RequestStep(s, a).Some? { RequestCorrect(s, a, l); }
    else if SendStep(s, a).Some? { SendCorrect(s, a, l); }
    else if ReadStep(s, a).Some? { ReadCorrect(s, a, l); }
    else if WriteStep(s, a).Some? { WriteCorrect(s, a, l); }
    else { LeaveCorrect(s, a, l); }
  }

  lemma {:induction false} AlwaysCorrect(s: State, actions: seq<Action>, end: State, l: Ledger)
    requires Inv(s) && AllCorrect(s, l) && Run(s, actions, end)
    ensures Inv(end) && AllCorrect(end, AllNoted(s, actions, l))
    decreases |actions|
  {
    hide Inv, AllCorrect, Next, Noted;
    if actions != [] {
      var s' := Next(s, actions[0]).value;
      StepKept(s, actions[0]);
      StepCorrect(s, actions[0], l);
      AlwaysCorrect(s', actions[1..], end, Noted(l, s, actions[0], s'));
    }
  }

  // A session that has been served was told of success if its reply had been completed, and of
  // failure if not; never of both.
  lemma SuccessIffAnswered(init: State, actions: seq<Action>, s: State, session: Session)
    requires Init(init) && Run(init, actions, s) && session in s.served
    ensures var l := AllNoted(init, actions, Ledger({}, {}, {}));
      (session in l.won <==> session in l.answered) && (session in l.lost <==> session !in l.answered)
  {
    var l := Ledger({}, {}, {});
    InitInv(init);
    assert AllCorrect(init, l);
    hide Inv, AllCorrect, Init;
    AlwaysCorrect(init, actions, s, l);
    ServedIsDone(s, session);
    OneCorrect(s, AllNoted(init, actions, l), session);
  }

  lemma ServedIsDone(s: State, session: Session)
    requires Inv(s) && session in s.served
    ensures session in s.place && s.place[session].Done?
  {
    hide EntryOk, ThreadOk, SessionOk, Target;
    assert s.served[session] > 0;
  }
}
