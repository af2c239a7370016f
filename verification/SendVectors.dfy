/**
  Sending the vectors of an encoded message: what can be written at once
  (src/net/Communicator.cc:335-487), and the rest whenever the socket is ready again
  (src/poller/poller.c:377-458).
 */
module SendVectors {
  import opened HttpSyntax

  const IOV_MAX := 1024

  // What writev will answer: it takes some bytes, or none for now, or fails.
  datatype Reply = Took(n: nat) | WouldBlock | Broken

  function Least(a: nat, b: nat): nat {
    if a <= b then a else b
  }

  const EAGAIN := -1
  const EIO := -2

  // A socket with its next replies; accepted is everything it ever took.
  class Socket {
    var accepted: bytes
    var replies: seq<Reply>

    // With no reply left it is never ready again.
    method Writev(vectors: seq<bytes>) returns (n: int)
      modifies this
      ensures replies == if old(replies) == [] then [] else old(replies)[1..]
      ensures n == EIO <==> old(replies) != [] && old(replies)[0].Broken?
      ensures n == EAGAIN <==> old(replies) == [] || old(replies)[0].WouldBlock?
      ensures n != EIO && n != EAGAIN ==> n == Least(old(replies)[0].n, |Flat(vectors)|)
      ensures accepted == if n < 0 then old(accepted) else old(accepted) + Flat(vectors)[..n]
    {
      if replies == [] {
        return EAGAIN;
      }
      var reply := replies[0];
      replies := replies[1..];
      match reply
      case WouldBlock => return EAGAIN;
      case Broken => return EIO;
      case Took(k) =>
        n := Least(k, |Flat(vectors)|);
        accepted := accepted + Flat(vectors)[..n];
    }
  }

  // The vectors left when n bytes are gone
  function Cut(vectors: seq<bytes>, n: nat): (rest: seq<bytes>)
    ensures |rest| <= |vectors|
  {
    if vectors == [] then []
    else if n >= |vectors[0]| then Cut(vectors[1..], n - |vectors[0]|)
    else [vectors[0][n..]] + vectors[1..]
  }

  lemma {:induction false} CutIsSuffix(vectors: seq<bytes>, n: nat)
    requires n <= |Flat(vectors)|
    ensures Flat(Cut(vectors, n)) == Flat(vectors)[n..]
    decreases |vectors|
  {
    if vectors != [] {
      var v, rest := vectors[0], vectors[1..];
      if n >= |v| {
        CutIsSuffix(rest, n - |v|);
      } else {
        assert ([v[n..]] + rest)[1..] == rest;
      }
    }
  }

  // What writev looks at
  function Offered(vectors: seq<bytes>): seq<bytes> {
    if |vectors| <= IOV_MAX then vectors else vectors[..IOV_MAX]
  }

  lemma OfferedIsPrefix(vectors: seq<bytes>)
    ensures Flat(Offered(vectors)) <= Flat(vectors)
  {
    if |vectors| > IOV_MAX {
      assert vectors == vectors[..IOV_MAX] + vectors[IOV_MAX..];
      FlatSplit(vectors[..IOV_MAX], vectors[IOV_MAX..]);
    }
  }

  // What is left to be sent when the socket has answered so; behind a broken reply none is asked for.
  function Left(vectors: seq<bytes>, replies: seq<Reply>): seq<bytes>
    decreases |replies|
  {
    if vectors == [] || replies == [] then vectors
    else match replies[0]
      case Took(n) => Left(Cut(vectors, Least(n, |Flat(Offered(vectors))|)), replies[1..])
      case WouldBlock => Left(vectors, replies[1..])
      case Broken => vectors
  }

  // A broken reply comes before everything is sent.
  predicate Breaks(vectors: seq<bytes>, replies: seq<Reply>)
    decreases |replies|
  {
    if vectors == [] || replies == [] then false
    else match replies[0]
      case Took(n) => Breaks(Cut(vectors, Least(n, |Flat(Offered(vectors))|)), replies[1..])
      case WouldBlock => Breaks(vectors, replies[1..])
      case Broken => true
  }

  // The replies before the first broken one
  function Sound(replies: seq<Reply>): (sound: seq<Reply>)
    ensures sound <= replies
  {
    if replies == [] || replies[0].Broken? then [] else [replies[0]] + Sound(replies[1..])
  }

  // Sending fails if and only if a reply is broken and the ones before it do not take everything.
  lemma {:induction false} BreaksIff(vectors: seq<bytes>, replies: seq<Reply>)
    ensures Left(vectors, replies) == Left(vectors, Sound(replies))
    ensures Breaks(vectors, replies) <==> Sound(replies) != replies && Left(vectors, Sound(replies)) != []
    decreases |replies|
  {
    if vectors != [] && replies != [] && !replies[0].Broken? {
      assert Sound(replies)[1..] == Sound(replies[1..]);
      match replies[0]
      case Took(n) => BreaksIff(Cut(vectors, Least(n, |Flat(Offered(vectors))|)), replies[1..]);
      case WouldBlock => BreaksIff(vectors, replies[1..]);
    } else {
      LeftOfNothing(Sound(replies));
    }
  }

  lemma LeftOfNothing(replies: seq<Reply>)
    ensures Left([], replies) == [] && !Breaks([], replies)
  {
  }

  lemma {:induction false} SoundIff(replies: seq<Reply>)
    ensures Sound(replies) == replies <==> forall r :: r in replies ==> !r.Broken?
  {
    if replies != [] {
      SoundIff(replies[1..]);
      assert replies == [replies[0]] + replies[1..];
      if !replies[0].Broken? { assert Sound(replies)[1..] == Sound(replies[1..]); }
    }
  }

  // How many bytes the replies would take
  function Capacity(replies: seq<Reply>): nat {
    if replies == [] then 0 else Capacity(replies[1..]) + if replies[0].Took? then replies[0].n else 0
  }

  predicate AnyTook(replies: seq<Reply>) {
    exists i :: 0 <= i < |replies| && replies[i].Took?
  }

  // With no more vectors than writev looks at everything is sent if and only if the socket has
  // room for it; empty vectors alone take one successful call.
  lemma {:induction false} RoomSuffices(vectors: seq<bytes>, replies: seq<Reply>)
    requires |vectors| <= IOV_MAX && Sound(replies) == replies
    ensures Left(vectors, replies) == [] <==> vectors == [] || (AnyTook(replies) && Capacity(replies) >= |Flat(vectors)|)
    decreases |replies|
  {
    if vectors != [] && replies != [] {
      assert Sound(replies)[1..] == Sound(replies[1..]);
      match replies[0]
      case Took(n) =>
        assert AnyTook(replies);
        if n >= |Flat(vectors)| {
          CutAll(vectors);
          LeftOfNothing(replies[1..]);
        } else {
          CutIsSuffix(vectors, n);
          assert Flat([]) == [];
          RoomSuffices(Cut(vectors, n), replies[1..]);
          if Capacity(replies[1..]) > 0 { TookSomewhere(replies[1..]); }
        }
      case WouldBlock =>
        RoomSuffices(vectors, replies[1..]);
        LaterTook(replies);
    }
  }

  lemma LaterTook(replies: seq<Reply>)
    requires replies != [] && !replies[0].Took?
    ensures AnyTook(replies) <==> AnyTook(replies[1..])
  {
    if AnyTook(replies) {
      var i :| 0 <= i < |replies| && replies[i].Took?;
      assert replies[1..][i - 1].Took?;
    }
    if AnyTook(replies[1..]) {
      var i :| 0 <= i < |replies[1..]| && replies[1..][i].Took?;
      assert replies[i + 1].Took?;
    }
  }

  lemma {:induction false} TookSomewhere(replies: seq<Reply>)
    requires Capacity(replies) > 0
    ensures AnyTook(replies)
  {
    if !replies[0].Took? {
      TookSomewhere(replies[1..]);
      LaterTook(replies);
    }
  }

  lemma {:induction false} CutAll(vectors: seq<bytes>)
    ensures Cut(vectors, |Flat(vectors)|) == []
  {
    if vectors != [] { CutAll(vectors[1..]); }
  }

  // With more vectors each call that takes all it is offered takes IOV_MAX of them.
  lemma {:induction false} CallsSuffice(vectors: seq<bytes>, replies: seq<Reply>)
    requires Sound(replies) == replies && |vectors| <= IOV_MAX * Calls(replies, |Flat(vectors)|)
    ensures Left(vectors, replies) == []
    decreases |replies|
  {
    if vectors != [] {
      assert Sound(replies)[1..] == Sound(replies[1..]);
      match replies[0]
      case Took(n) =>
        var rest := Cut(vectors, Least(n, |Flat(Offered(vectors))|));
        OfferedIsPrefix(vectors);
        CutIsSuffix(vectors, Least(n, |Flat(Offered(vectors))|));
        FewerToGo(replies[1..], |Flat(rest)|, |Flat(vectors)|);
        if n >= |Flat(vectors)| { CutOffered(vectors); }
        CallsSuffice(rest, replies[1..]);
      case WouldBlock => CallsSuffice(vectors, replies[1..]);
    }
  }

  // How many replies take everything
  function Calls(replies: seq<Reply>, total: nat): nat {
    if replies == [] then 0 else Calls(replies[1..], total) + if replies[0].Took? && replies[0].n >= total then 1 else 0
  }

  lemma {:induction false} FewerToGo(replies: seq<Reply>, less: nat, total: nat)
    requires less <= total
    ensures Calls(replies, less) >= Calls(replies, total)
  {
    if replies != [] { FewerToGo(replies[1..], less, total); }
  }

  lemma CutOffered(vectors: seq<bytes>)
    ensures |Cut(vectors, |Flat(Offered(vectors))|)| <= if |vectors| <= IOV_MAX then 0 else |vectors| - IOV_MAX
  {
    if |vectors| <= IOV_MAX {
      CutAll(vectors);
    } else {
      assert vectors == vectors[..IOV_MAX] + vectors[IOV_MAX..];
      CutFront(vectors[..IOV_MAX], vectors[IOV_MAX..]);
    }
  }

  lemma {:induction false} CutFront(a: seq<bytes>, b: seq<bytes>)
    ensures |Cut(a + b, |Flat(a)|)| <= |b|
  {
    if a != [] {
      assert (a + b)[1..] == a[1..] + b;
      CutFront(a[1..], b);
    } else {
      assert a + b == b;
    }
  }

  // How often the socket would block
  function Blocks(replies: seq<Reply>): nat {
    if replies == [] then 0 else Blocks(replies[1..]) + if replies[0].WouldBlock? then 1 else 0
  }

  // The calls so far have used up the replies up to r, and r.
  predicate Halted(before: seq<Reply>, after: seq<Reply>, r: Reply) {
    |after| < |before| && after == before[|before| - |after|..] && before[|before| - |after| - 1] == r
  }

  // ... which were none, or some.
  predicate Used(before: seq<Reply>, after: seq<Reply>) {
    |after| <= |before| && after == before[|before| - |after|..]
  }

  lemma UsedOne(before: seq<Reply>, after: seq<Reply>)
    requires Used(before, after) && after != []
    ensures Used(before, after[1..]) && Halted(before, after[1..], after[0])
  {
    var k := |before| - |after|;
    assert after[1..] == before[k + 1..] && after[0] == before[k];
  }

  lemma {:induction false} BlocksUsed(before: seq<Reply>, k: nat)
    requires k < |before|
    ensures Blocks(before[k + 1..]) <= Blocks(before) && (before[k].WouldBlock? ==> Blocks(before[k + 1..]) < Blocks(before))
  {
    if k > 0 {
      BlocksUsed(before[1..], k - 1);
      assert before[1..][k..] == before[k + 1..];
    }
  }

  // Communicator.cc:351-364 and poller.c:414-430: steps over the vectors that are gone and cuts
  // the one that is not.
  method Advance(vectors: array<bytes>, from: nat, cnt: nat, n0: nat) returns (i: nat)
    requires from + cnt <= vectors.Length
    modifies vectors
    ensures i <= cnt && vectors[from + i..from + cnt] == Cut(old(vectors[from..from + cnt]), n0)
    ensures forall k :: 0 <= k < vectors.Length && !(from <= k < from + cnt) ==> vectors[k] == old(vectors[k])
  {
    hide Cut;
    i := 0;
    var n: nat := n0;
    ghost var all := vectors[from..from + cnt];
    assert all[0..] == all;
    while i < cnt
      invariant 0 <= i <= cnt && Cut(all, n0) == Cut(all[i..], n)
      invariant vectors[..] == old(vectors[..])
    {
      CutStep(all, i, n);
      if n >= |vectors[from + i]| {
        n := n - |vectors[from + i]|;
      } else {
        ghost var cut := vectors[from + i][n..];
        vectors[from + i] := vectors[from + i][n..];
        assert vectors[from + i..from + cnt] == [cut] + all[i + 1..];
        return;
      }
      i := i + 1;
    }
    CutStep(all, cnt, n);
  }

  lemma CutStep(vectors: seq<bytes>, i: nat, n: nat)
    requires i <= |vectors|
    ensures i == |vectors| ==> vectors[i..] == [] && Cut(vectors[i..], n) == []
    ensures i < |vectors| ==>
      Cut(vectors[i..], n) == if n >= |vectors[i]| then Cut(vectors[i + 1..], n - |vectors[i]|) else [vectors[i][n..]] + vectors[i + 1..]
  {
    if i < |vectors| { assert vectors[i..] == [vectors[i]] + vectors[i + 1..]; }
  }

  // What has been accepted since start, and what is still to be sent, make up the message.
  ghost predicate Sending(message: bytes, start: bytes, accepted: bytes, rest: seq<bytes>) {
    start <= accepted && accepted + Flat(rest) == start + message
  }

  lemma Sent(message: bytes, start: bytes, accepted: bytes, rest: seq<bytes>, n: nat)
    requires Sending(message, start, accepted, rest) && n <= |Flat(Offered(rest))|
    ensures Sending(message, start, accepted + Flat(Offered(rest))[..n], Cut(rest, n))
  {
    OfferedIsPrefix(rest);
    CutIsSuffix(rest, n);
    assert Flat(Offered(rest))[..n] == Flat(rest)[..n];
    assert Flat(rest) == Flat(rest)[..n] + Flat(rest)[n..];
  }

  // One call of writev for the vectors rest, with these replies before and after
  predicate Answered(rest: seq<bytes>, before: seq<Reply>, after: seq<Reply>, n: int) {
    && after == (if before == [] then [] else before[1..])
    && (n == EIO <==> before != [] && before[0].Broken?)
    && (n == EAGAIN <==> before == [] || before[0].WouldBlock?)
    && (n != EIO && n != EAGAIN ==> n == Least(before[0].n, |Flat(Offered(rest))|))
  }

  // ... does what the reply says.
  lemma OneAnswer(rest: seq<bytes>, before: seq<Reply>, after: seq<Reply>, n: int)
    requires rest != [] && Answered(rest, before, after, n)
    ensures n == EIO ==> Breaks(rest, before)
    ensures n == EAGAIN ==> SameOutlook(rest, before, rest, after)
    ensures n != EIO && n != EAGAIN ==> 0 <= n <= |Flat(Offered(rest))| && SameOutlook(rest, before, Cut(rest, n), after)
  {
    hide Cut, Flat, Offered;
  }

  // The writing loop of send_message_sync (Communicator.cc:344-365): how many vectors are left
  method SendMessageSync(sock: Socket, vectors: array<bytes>) returns (ret: int)
    modifies sock, vectors
    ensures -1 <= ret <= vectors.Length
    ensures ret >= 0 ==>
      Sending(old(Flat(vectors[..])), old(sock.accepted), sock.accepted, vectors[vectors.Length - ret..])
    ensures ret == -1 ==> exists rest :: Sending(old(Flat(vectors[..])), old(sock.accepted), sock.accepted, rest)
    ensures ret == -1 ==> Halted(old(sock.replies), sock.replies, Broken) && Breaks(old(vectors[..]), old(sock.replies))
    ensures ret > 0 ==> sock.replies == [] || Halted(old(sock.replies), sock.replies, WouldBlock)
    ensures ret >= 0 ==> SameOutlook(old(vectors[..]), old(sock.replies), vectors[vectors.Length - ret..], sock.replies)
  {
    hide Flat, Cut, Sending, Halted, Used, Left, Breaks, Offered;
    ghost var all, message, start, replies := vectors[..], Flat(vectors[..]), sock.accepted, sock.replies;
    var from, cnt := 0, vectors.Length;
    assert vectors[..] == vectors[from..];
    NoneUsed(replies);
    AllToSend(message, start, vectors[..]);
    while cnt > 0
      invariant 0 <= from <= vectors.Length && cnt == vectors.Length - from
      invariant Sending(message, start, sock.accepted, vectors[from..])
      invariant Used(replies, sock.replies) && SameOutlook(all, replies, vectors[from..], sock.replies)
      decreases |sock.replies|, cnt
    {
      ghost var rest, before, next := vectors[from..from + cnt], sock.accepted, sock.replies;
      assert rest == vectors[from..];
      var n := sock.Writev(if cnt <= IOV_MAX then vectors[from..from + cnt] else vectors[from..from + IOV_MAX]);
      OfferedIs(rest);
      assert Offered(rest) == if cnt <= IOV_MAX then vectors[from..from + cnt] else vectors[from..from + IOV_MAX];
      OneAnswer(rest, next, sock.replies, n);
      if next != [] { UsedOne(replies, next); }
      if n < 0 {
        SendingFor(message, start, sock.accepted, rest);
        return if n == EAGAIN then cnt else -1;
      }
      Sent(message, start, before, rest, n);
      var i := Advance(vectors, from, cnt, n);
      assert vectors[from + i..] == vectors[from + i..from + cnt];
      from, cnt := from + i, cnt - i;
    }
    return 0;
  }

  // What is to be sent and what the socket will answer come to the same.
  predicate SameOutlook(vectors: seq<bytes>, replies: seq<Reply>, vectors': seq<bytes>, replies': seq<Reply>) {
    Left(vectors', replies') == Left(vectors, replies) && (Breaks(vectors', replies') <==> Breaks(vectors, replies))
  }

  datatype WriteOutcome = Blocked | Partial(count: nat) | Complete | Failed

  // The write node of the poller: data.write_iov and data.iovcnt
  class WriteNode {
    const iov: array<bytes>
    var first: nat
    var iovcnt: nat

    ghost predicate Valid()
      reads this
    {
      first + iovcnt == iov.Length
    }

    ghost function Remaining(): seq<bytes>
      requires Valid()
      reads this, iov
    {
      iov[first..]
    }

    // send_message_async copies what is left (Communicator.cc:423-437)
    constructor (vectors: seq<bytes>)
      ensures Valid() && Remaining() == vectors && fresh(iov)
    {
      iov := new bytes[|vectors|](i requires 0 <= i < |vectors| => vectors[i]);
      first, iovcnt := 0, |vectors|;
    }

    // One call of writev and the steps over what it has taken (poller.c:387-430)
    method WriteOnce(sock: Socket, ghost message: bytes, ghost start: bytes) returns (n: int)
      requires Valid() && iovcnt > 0 && Sending(message, start, sock.accepted, Remaining())
      modifies sock, this, iov
      ensures Valid() && Sending(message, start, sock.accepted, Remaining())
      ensures Answered(old(Remaining()), old(sock.replies), sock.replies, n)
      ensures n < 0 ==> iovcnt == old(iovcnt)
      ensures |sock.accepted| == |old(sock.accepted)| + if n < 0 then 0 else n
      ensures n == EIO ==> Breaks(old(Remaining()), old(sock.replies))
      ensures n != EIO ==> SameOutlook(old(Remaining()), old(sock.replies), Remaining(), sock.replies)
    {
      hide Flat, Cut, Sending, Left, Breaks, Least;
      ghost var rest, before, next := iov[first..first + iovcnt], sock.accepted, sock.replies;
      assert rest == Remaining();
      var cnt := if iovcnt > IOV_MAX then IOV_MAX else iovcnt;
      assert iov[first..first + cnt] == Offered(rest);
      n := sock.Writev(iov[first..first + cnt]);
      OneAnswer(rest, next, sock.replies, n);
      if n >= 0 {
        Sent(message, start, before, rest, n);
        var i := Advance(iov, first, iovcnt, n);
        first, iovcnt := first + i, iovcnt - i;
        assert Remaining() == iov[first..first + iovcnt] == Cut(rest, n);
      }
    }

    // __poller_handle_write (poller.c:377-456)
    method HandleWrite(sock: Socket, ghost message: bytes, ghost start: bytes) returns (outcome: WriteOutcome)
      requires Valid() && Sending(message, start, sock.accepted, Remaining())
      modifies sock, this, iov
      ensures Valid() && Sending(message, start, sock.accepted, Remaining())
      ensures outcome.Complete? <==> iovcnt == 0
      ensures outcome.Blocked? ==> |sock.accepted| == |old(sock.accepted)|
      ensures outcome.Partial? ==> 0 < outcome.count == |sock.accepted| - |old(sock.accepted)|
      ensures outcome.Failed? ==> Halted(old(sock.replies), sock.replies, Broken) && Breaks(old(Remaining()), old(sock.replies))
      ensures outcome.Blocked? || outcome.Partial? ==> sock.replies == [] || Halted(old(sock.replies), sock.replies, WouldBlock)
      ensures !outcome.Failed? ==> SameOutlook(old(Remaining()), old(sock.replies), Remaining(), sock.replies)
    {
      hide Flat, Cut, Sending, Halted, Used, Left, Breaks, Offered, Least;
      ghost var all, replies := Remaining(), sock.replies;
      NoneUsed(replies);
      var count := 0;
      var n := 0;
      while iovcnt > 0
        invariant Valid() && Sending(message, start, sock.accepted, Remaining())
        invariant 0 <= count == |sock.accepted| - |old(sock.accepted)|
        invariant Used(replies, sock.replies) && SameOutlook(all, replies, Remaining(), sock.replies)
        decreases |sock.replies|, iovcnt
      {
        ghost var next := sock.replies;
        n := WriteOnce(sock, message, start);
        if next != [] { UsedOne(replies, next); }
        if n < 0 {
          assert n == EIO ==> Breaks(all, replies) && Halted(replies, sock.replies, Broken);
          break;
        }
        count := count + n;
      }
      if iovcnt == 0 {
        return Complete;
      }
      if n != EAGAIN {
        return Failed;
      }
      return if count == 0 then Blocked else Partial(count);
    }
  }

  lemma AllToSend(message: bytes, start: bytes, vectors: seq<bytes>)
    requires message == Flat(vectors)
    ensures Sending(message, start, start, vectors)
  {
  }

  lemma SendingFor(message: bytes, start: bytes, accepted: bytes, rest: seq<bytes>)
    requires Sending(message, start, accepted, rest)
    ensures exists rest :: Sending(message, start, accepted, rest)
  {
  }

  lemma NoneUsed(replies: seq<Reply>)
    ensures Used(replies, replies)
  {
    assert replies == replies[0..];
  }

  lemma OfferedIs(vectors: seq<bytes>)
    ensures Offered(vectors) == if |vectors| <= IOV_MAX then vectors else vectors[..IOV_MAX]
  {
  }

  // From send_message to the last write event: ready is how often the socket gets ready again.
  // When it gets ready after each time it blocked, everything is sent if and only if the
  // replies let it, and sending fails if and only if a broken one comes before that.
  method SendMessage(sock: Socket, vectors: array<bytes>, ready: nat) returns (outcome: WriteOutcome)
    modifies sock, vectors
    ensures old(sock.accepted) <= sock.accepted <= old(sock.accepted + Flat(vectors[..]))
    ensures outcome.Complete? ==> sock.accepted == old(sock.accepted + Flat(vectors[..]))
    ensures outcome.Complete? ==> Left(old(vectors[..]), old(sock.replies)) == []
    ensures outcome.Failed? ==> Breaks(old(vectors[..]), old(sock.replies))
    ensures ready >= Blocks(old(sock.replies)) ==>
      && (outcome.Complete? <==> Left(old(vectors[..]), old(sock.replies)) == [])
      && (outcome.Failed? <==> Breaks(old(vectors[..]), old(sock.replies)))
  {
    hide Left, Breaks, Sending;
    ghost var all, message, start, replies := vectors[..], Flat(vectors[..]), sock.accepted, sock.replies;
    var ret := SendMessageSync(sock, vectors);
    LeftOfNothing(sock.replies);
    BreaksIff(all, replies);
    if ret == -1 {
      ghost var rest :| Sending(message, start, sock.accepted, rest);
      Prefixes(message, start, sock.accepted, rest);
      return Failed;
    }
    Prefixes(message, start, sock.accepted, vectors[vectors.Length - ret..]);
    if ret == 0 {
      assert vectors[vectors.Length - ret..] == [];
      return Complete;
    }
    FewerBlocks(replies, sock.replies);
    var node := new WriteNode(vectors[vectors.Length - ret..]);
    outcome := Blocked;
    var k := 0;
    while k < ready && !outcome.Complete? && !outcome.Failed?
      invariant node.Valid() && Sending(message, start, sock.accepted, node.Remaining()) && fresh(node) && fresh(node.iov)
      invariant outcome.Complete? <==> node.iovcnt == 0
      invariant outcome.Failed? ==> Breaks(all, replies)
      invariant !outcome.Failed? ==> SameOutlook(all, replies, node.Remaining(), sock.replies)
      invariant outcome.Blocked? || outcome.Partial? ==> k <= ready && (sock.replies == [] || Blocks(sock.replies) + k < Blocks(replies))
    {
      ghost var next := sock.replies;
      outcome := node.HandleWrite(sock, message, start);
      if outcome.Blocked? || outcome.Partial? { FewerBlocks(next, sock.replies); }
      k := k + 1;
    }
    Prefixes(message, start, sock.accepted, node.Remaining());
    LeftOfNothing(sock.replies);
    NoReplies(node.Remaining());
  }

  lemma NoReplies(vectors: seq<bytes>)
    ensures Left(vectors, []) == vectors && !Breaks(vectors, [])
  {
  }

  lemma FewerBlocks(before: seq<Reply>, after: seq<Reply>)
    requires after == [] || Halted(before, after, WouldBlock)
    ensures after == [] || Blocks(after) < Blocks(before)
  {
    if after != [] {
      BlocksUsed(before, |before| - |after| - 1);
    }
  }

  lemma Prefixes(message: bytes, start: bytes, accepted: bytes, rest: seq<bytes>)
    requires Sending(message, start, accepted, rest)
    ensures start <= accepted <= start + message
    ensures rest == [] ==> accepted == start + message
  {
    assert accepted == (start + message)[..|accepted|];
    assert rest == [] ==> accepted + [] == accepted;
  }
}
