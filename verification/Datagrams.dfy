/** Where a passive UDP socket sends its replies. */
module Datagrams {
  import opened Posix
  import opened Retry
  import opened SocketModel
  import opened FileCopy
  import opened Lifecycle
  import opened Transfers
  import opened Setup

  predicate IsUnicastArrival(t: Try) {
    t.request.RecvFromRequest? && !t.request.intoGroup && t.err == NoError
  }

  /** The source of the latest datagram taken from the system with multicast off. */
  function LastUnicastSource(io: seq<Io>, start: Addr): Addr {
    if io == [] then start
    else if IsUnicastArrival(io[|io| - 1].attempt) then io[|io| - 1].attempt.from
    else LastUnicastSource(io[..|io| - 1], start)
  }

  lemma OneMore(io: seq<Io>, fd: int, t: Try, start: Addr)
    ensures LastUnicastSource(io + [Io(fd, t)], start) ==
              if IsUnicastArrival(t) then t.from else LastUnicastSource(io, start)
  {
    assert (io + [Io(fd, t)])[..|io|] == io;
  }

  /** A series of attempts at the same request moves the source as LastSource says. */
  lemma {:induction false} ManyMore(io: seq<Io>, fd: int, tries: seq<Try>, start: Addr)
    requires forall t :: t in tries ==> t.request.RecvFromRequest?
    requires forall t, u :: t in tries && u in tries ==> t.request == u.request
    ensures LastUnicastSource(io + OnDescriptor(fd, tries), start) ==
              if tries == [] || Last(tries).request.intoGroup then LastUnicastSource(io, start)
              else LastSource(LastUnicastSource(io, start), tries)
  {
    if tries == [] {
      assert io + OnDescriptor(fd, tries) == io;
    } else {
      var front, t := tries[..|tries| - 1], Last(tries);
      assert t in tries;
      ManyMore(io, fd, front, start);
      assert io + OnDescriptor(fd, tries) == (io + OnDescriptor(fd, front)) + [Io(fd, t)];
      OneMore(io + OnDescriptor(fd, front), fd, t, start);
      assert front != [] ==> Last(front) in tries;
    }
  }

  /** The client address is the source of the latest datagram received with multicast off. */
  ghost predicate RepliesToLast(w: World, start: Addr) {
    w.sock.role.Passive? && w.sock.kind == Udp && w.sock.client == LastUnicastSource(w.env.io, start)
  }

  lemma UdpSendStep(s: Sock, env: Env, buf: Option<seq<Byte>>, n: nat, start: Addr)
    requires RepliesToLast(World(s, env), start)
    ensures var o := Send(s, env, buf, n);
            RepliesToLast(World(o.sock, o.env), start)
  {
    if ReachesOs(s, buf, n) {
      var (e, t) := Attempt(Tick(env), s.handle, SendToRequest(Prefix(buf.value, n), s.client), 0);
      OneMore(env.io, s.handle, t, start);
    }
  }

  lemma {:induction false} UdpSendEach(s: Sock, env: Env, bufs: seq<seq<Byte>>, total: int, done: nat, start: Addr)
    requires RepliesToLast(World(s, env), start)
    ensures var g := SendEach(s, env, bufs, total, done);
            RepliesToLast(World(g.sock, g.env), start)
    decreases |bufs|
  {
    hide Send;
    if bufs != [] {
      var o := Send(s, env, Some(bufs[0]), |bufs[0]|);
      UdpSendStep(s, env, Some(bufs[0]), |bufs[0]|, start);
      if o.ret != SOCKET_ERROR {
        UdpSendEach(o.sock, o.env, bufs[1..], total + o.ret, done + 1, start);
      }
    }
  }

  lemma UdpFlush(s: Sock, env: Env, start: Addr)
    requires RepliesToLast(World(s, env), start)
    ensures var f := Flush(s, env);
            RepliesToLast(World(f.sock, f.env), start)
  {
    hide Send;
    var (e1, cur) := GetNoDelayCall(env, s.handle);
    if cur.Some? {
      UdpSendStep(s, SetNoDelayCall(e1, s.handle, 1).0, Some([0]), 0, start);
    }
  }

  lemma UdpReceive(s: Sock, env: Env, max: nat, dest: Option<seq<Byte>>, start: Addr)
    requires RepliesToLast(World(s, env), start)
    ensures var o := Receive(s, env, max, dest);
            RepliesToLast(World(o.sock, o.env), start)
  {
    hide RetryLoop, PlaceAll, LastSource, LastUnicastSource, PrepareBuffer;
    var s0 := s.(received := 0);
    if IsValid(s0) {
      var (s1, e1) := if dest.None? then PrepareBuffer(s0, env, max) else (s0, env);
      PrepareTouches(s0, env, max);
      var req := RecvRequestOf(s1, max);
      RetryFrame(Tick(e1), s1.handle, req, 0);
      var tries := RetryLoop(Tick(e1), s1.handle, req, 0).tries;
      assert Last(tries) in tries;
      ManyMore(e1.io, s1.handle, tries, start);
    }
  }

  /** The trace and the fields that replies depend on are untouched. */
  ghost predicate SameReplies(w: World, v: World) {
    v.env.io == w.env.io && v.sock.role == w.sock.role && v.sock.kind == w.sock.kind && v.sock.client == w.sock.client
  }

  lemma CloseKeepsTrace(w: World)
    ensures SameReplies(w, Step(w, CloseOp))
  {
  }

  lemma ModeKeepsTrace(w: World, nonblocking: bool)
    ensures SameReplies(w, Step(w, ModeOp(nonblocking)))
  {
  }

  lemma SelectKeepsTrace(w: World, sec: int, usec: int)
    ensures SameReplies(w, Step(w, SelectOp(sec, usec)))
  {
  }

  lemma OtherStepKeepsTrace(w: World, op: Op)
    requires w.sock.role.Passive?
    requires op.InitOp? || op.CloseOp? || op.ModeOp? || op.MulticastOp? || op.SelectOp? || op.OpenOp?
          || op.TimeoutOp?
    ensures SameReplies(w, Step(w, op))
  {
    match op
    case CloseOp => CloseKeepsTrace(w);
    case ModeOp(nonblocking) => ModeKeepsTrace(w, nonblocking);
    case SelectOp(sec, usec) => SelectKeepsTrace(w, sec, usec);
    case _ =>
      hide Close, SetMode, Select, Send, Receive, SendVector, Open, Listen, BindMulticast, SendFile;
  }

  lemma ListenKeepsTrace(w: World, addr: HostArg, port: int)
    ensures var o := Listen(w.sock, w.env, addr, port);
            SameReplies(w, World(o.sock, o.env))
  {
    hide Bound;
    BoundKeepsTrace(w.sock, w.env, addr, port);
  }

  lemma BoundKeepsTrace(s: Sock, env: Env, addr: HostArg, port: int)
    ensures var (s1, e1, _) := Bound(s, env, addr, port);
            e1.io == env.io && s1.role == s.role && s1.kind == s.kind && s1.client == s.client
  {
  }

  lemma JoinKeepsTrace(w: World, addr: HostArg, port: int)
    ensures var o := BindMulticast(w.sock, w.env, addr, port);
            SameReplies(w, World(o.sock, o.env))
  {
    hide Joined;
    JoinedKeepsTrace(w.sock, w.env, addr, port);
  }

  lemma JoinedKeepsTrace(s: Sock, env: Env, addr: HostArg, port: int)
    ensures var (s1, e1, _) := Joined(s, env, addr, port);
            e1.io == env.io && s1.role == s.role && s1.kind == s.kind && s1.client == s.client
  {
  }

  /** SendFile moves no datagram. */
  lemma {:induction false} PumpKeepsSource(env: Env, out: int, sent: int, count: int, start: Addr)
    ensures LastUnicastSource(Pump(env, out, sent, count).0.io, start) == LastUnicastSource(env.io, start)
    decreases count - sent
  {
    hide Attempt, ReadCall, LastUnicastSource;
    if sent < count {
      var n := Min(count - sent, BLOCK_SIZE);
      var (e1, got) := ReadCall(env, n);
      ReadKeepsTrace(env, n);
      if got.Some? && |got.value| == n {
        var (e2, t) := Attempt(e1, out, SendRequest(got.value), 0);
        OneMore(e1.io, out, t, start);
        PumpKeepsSource(e2, out, sent + n, count, start);
      }
    }
  }

  lemma ReadKeepsTrace(env: Env, n: nat)
    ensures ReadCall(env, n).0.io == env.io
  {
  }

  lemma SendFileStep(w: World, out: int, offset: int, count: int, start: Addr)
    requires RepliesToLast(w, start)
    ensures RepliesToLast(Step(w, SendFileOp(out, offset, count)), start)
  {
    hide Pump, LastUnicastSource;
    PumpKeepsSource(SeekCall(w.env, offset).0, out, -1, count, start);
  }

  lemma VectorStep(w: World, bufs: seq<seq<Byte>>, start: Addr)
    requires RepliesToLast(w, start)
    ensures RepliesToLast(Step(w, VectorOp(bufs)), start)
  {
    hide Send, SendEach, Flush, LastUnicastSource;
    var s0 := w.sock.(error := Success, sent := 0);
    UdpSendEach(s0, w.env, bufs, 0, 0, start);
    var g := SendEach(s0, w.env, bufs, 0, 0);
    UdpFlush(g.sock, g.env, start);
  }

  lemma UdpStep(w: World, op: Op, start: Addr)
    requires RepliesToLast(w, start)
    ensures RepliesToLast(Step(w, op), start)
  {
    hide Send, Receive, Listen, BindMulticast, SendFile, LastUnicastSource;
    match op
    case SendOp(buf, n) => UdpSendStep(w.sock, w.env, buf, n, start);
    case VectorOp(bufs) => VectorStep(w, bufs, start);
    case ReceiveOp(max, dest) => UdpReceive(w.sock, w.env, max, dest, start);
    case ListenOp(addr, port) => ListenKeepsTrace(w, addr, port);
    case JoinOp(addr, port) => JoinKeepsTrace(w, addr, port);
    case SendFileOp(out, offset, count) => SendFileStep(w, out, offset, count, start);
    case _ => OtherStepKeepsTrace(w, op);
  }

  /** Over every run of a passive UDP socket, interrupted or not, the client address stays the
      source of the latest unicast datagram, and the next Send that passes its guards issues
      exactly one datagram, addressed there; a Send stopped by a guard issues none. */
  lemma {:induction false} RepliesGoToLastSender(w: World, ops: seq<Op>, start: Addr,
                                                 buf: Option<seq<Byte>>, n: nat)
    requires RepliesToLast(w, start)
    ensures var v := Run(w, ops);
            var o := Send(v.sock, v.env, buf, n);
            && RepliesToLast(v, start)
            && (if ReachesOs(v.sock, buf, n) then
                  && |o.env.io| == |v.env.io| + 1 && o.env.io[..|v.env.io|] == v.env.io
                  && o.env.io[|v.env.io|].attempt.request
                       == SendToRequest(Prefix(buf.value, n), LastUnicastSource(v.env.io, start))
                else
                  o.env == v.env)
    decreases |ops|
  {
    if ops != [] {
      hide Step;
      UdpStep(w, ops[0], start);
      RepliesGoToLastSender(Step(w, ops[0]), ops[1..], start, buf, n);
    }
  }

  /** The datagram send of a passive socket reports its own outcome, not a stale `errno`. */
  lemma PassiveSendErrorIff(s: Sock, env: Env, buf: Option<seq<Byte>>, n: nat)
    requires s.role.Passive? && s.kind == Udp
    ensures var o := Send(s, env, buf, n);
            && (o.sock.error == Success <==> o.ret != -1)
            && (!ReachesOs(s, buf, n) ==> o.ret == 0 && o.sock.sent == 0)
            && (o.ret == -1 ==> o.sock.error == Translate(o.env.errno))
  {
  }

  /** A reported receive took exactly the oldest datagram: its front is in the buffer and its
      source has become the client address, or the group address with multicast on. */
  lemma ReceivePlacesDatagram(s: Sock, env: Env, max: nat)
    requires s.kind == Udp && IsValid(s) && s.handle in env.open
    requires s.buffer.Some? ==> |s.buffer.value.bytes| == s.bufferSize
    ensures var o := Receive(s, env, max, None);
            var k := o.ret.0;
            k >= 0 ==>
              && env.datagrams != [] && o.env.datagrams == env.datagrams[1..]
              && k == Min(max, |env.datagrams[0].data|)
              && Data(o.sock).Some? && k <= |Data(o.sock).value|
              && Data(o.sock).value[..k] == env.datagrams[0].data[..k]
              && (if s.multicast then o.sock.group == env.datagrams[0].source && o.sock.client == s.client
                  else o.sock.client == env.datagrams[0].source && o.sock.group == s.group)
  {
    hide PrepareBuffer, RetryLoop, PlaceAll, LastSource;
    var s0 := s.(received := 0);
    var (s1, e1) := PrepareBuffer(s0, env, max);
    PrepareTouches(s0, env, max);
    PreparedSize(s0, env, max);
    var req := RecvFromRequest(max, s.multicast);
    RecvFromOnce(Tick(e1), s1.handle, req);
    var tries := RetryLoop(Tick(e1), s1.handle, req, 0).tries;
    if Last(tries).result >= 0 {
      PlaceOne(s1.buffer.value.bytes, tries[0]);
      SourceOfOne(s1.group, tries[0]);
      SourceOfOne(s1.client, tries[0]);
    }
  }

  lemma SourceOfOne(start: Addr, t: Try)
    requires t.err == NoError
    ensures LastSource(start, [t]) == t.from
  {
  }

  /** A recvfrom loop that reports success made one attempt and took the oldest datagram. */
  lemma RecvFromOnce(env: Env, fd: int, req: Request)
    requires fd in env.open && req.RecvFromRequest?
    ensures var r := RetryLoop(env, fd, req, 0);
            var k := Last(r.tries).result;
            k >= 0 ==>
              && r.tries == [r.tries[0]] && r.tries[0].offset == 0 && r.tries[0].err == NoError
              && env.datagrams != [] && r.env.datagrams == env.datagrams[1..]
              && k == Min(req.max, |env.datagrams[0].data|)
              && r.tries[0].data == env.datagrams[0].data[..k] && r.tries[0].from == env.datagrams[0].source
  {
    ReportedSuccessIff(env, fd, req, 0);
  }

  /** SetMulticast takes effect even where it reports failure: it decides which address the
      next reported receive stores its source in, and so whom the next reply goes to. */
  lemma MulticastDirectsSource(s: Sock, env: Env, enable: bool, max: nat)
    requires s.role.Passive? && s.kind == Udp && IsValid(s) && s.handle in env.open
    requires s.buffer.Some? ==> |s.buffer.value.bytes| == s.bufferSize
    ensures var m := SetMulticast(s, env, enable);
            var reply := ReplyAt(env, s.handle, 0);
            var o := Receive(m.sock, m.env, max, None);
            && m.ret == reply.Ok? && m.sock.error == (if m.ret then s.error else Translate(reply.err))
            && (o.ret.0 >= 0 ==>
              && env.datagrams != []
              && (if enable then o.sock.group == env.datagrams[0].source && o.sock.client == s.client
                  else o.sock.client == env.datagrams[0].source && o.sock.group == s.group))
  {
    hide Receive, Translate;
    var m := SetMulticast(s, env, enable);
    ReceivePlacesDatagram(m.sock, m.env, max);
  }

  /** Multicast is for datagrams: for another kind SetMulticast fails without reaching the system
      and changes no mode. */
  lemma MulticastOnlyOnDatagrams(s: Sock, env: Env, enable: bool)
    requires s.kind != Udp
    ensures var m := SetMulticast(s, env, enable);
            !m.ret && m.env == env && m.sock == s.(error := ProtocolError)
  {
  }

  // --- Interrupted datagram calls

  datatype Outgoing = Outgoing(dest: Addr, data: seq<Byte>)

  /** The datagrams accepted by the system on `fd`, in order. */
  function DatagramsOf(io: seq<Io>, fd: int): seq<Outgoing> {
    if io == [] then []
    else
      var last := io[|io| - 1];
      var t := last.attempt;
      DatagramsOf(io[..|io| - 1], fd)
      + (if last.fd == fd && t.request.SendToRequest? && t.err == NoError
         then [Outgoing(t.request.dest, t.request.data)] else [])
  }

  function Copies(n: nat, d: Outgoing): (r: seq<Outgoing>)
    ensures |r| == n
  {
    seq(n, _ => d)
  }

  lemma OneMoreOutgoing(io: seq<Io>, fd: int, t: Try)
    ensures DatagramsOf(io + [Io(fd, t)], fd) == DatagramsOf(io, fd)
              + (if t.request.SendToRequest? && t.err == NoError
                 then [Outgoing(t.request.dest, t.request.data)] else [])
  {
    assert (io + [Io(fd, t)])[..|io|] == io;
  }

  /** Attempts at one datagram add a copy of it for each success. */
  lemma {:induction false} CopiesAdd(io: seq<Io>, fd: int, tries: seq<Try>, dest: Addr, data: seq<Byte>)
    requires forall t :: t in tries ==> t.request == SendToRequest(data, dest)
    ensures DatagramsOf(io + OnDescriptor(fd, tries), fd)
              == DatagramsOf(io, fd) + Copies(Successes(tries), Outgoing(dest, data))
    decreases |tries|
  {
    hide DatagramsOf, OnDescriptor;
    if tries == [] {
      assert io + OnDescriptor(fd, tries) == io;
    } else {
      var t, rest := tries[0], tries[1..];
      assert tries == [t] + rest && t in tries;
      OnDescriptorCons(io, fd, t, rest);
      OneMoreOutgoing(io, fd, t);
      CopiesAdd(io + [Io(fd, t)], fd, rest, dest, data);
      var d := Outgoing(dest, data);
      assert t.err == NoError ==> [d] + Copies(Successes(rest), d) == Copies(Successes(tries), d);
    }
  }

  /** A datagram Send of a socket that is not passive, on every script: result, and how many
      copies of the datagram the system accepted. */
  lemma DatagramSendCopies(s: Sock, env: Env, buf: seq<Byte>, n: nat)
    requires !s.role.Passive? && s.kind == Udp && IsValid(s) && s.handle in env.open && 0 < n <= |buf|
    ensures var o := Send(s, env, Some(buf), n);
            var once := env.errno != EINTR && env.script != [] && env.script[0].Ok?;
            var copies := if once then 1 else Granted(env.script, HardFailureAt(env.script));
            && o.ret == (if once then n else -1)
            && DatagramsOf(o.env.io, s.handle)
                 == DatagramsOf(env.io, s.handle) + Copies(copies, Outgoing(s.server, buf[..n]))
  {
    hide RetryLoop, DatagramsOf, SameFrame, OnDescriptor;
    var data := buf[..n];
    var e := Tick(env);
    SendToLoopClosedForm(e, s.handle, data, s.server);
    RetryFrame(e, s.handle, SendToRequest(data, s.server), 0);
    CopiesAdd(e.io, s.handle, RetryLoop(e, s.handle, SendToRequest(data, s.server), 0).tries, s.server, data);
  }

  /** The datagram Send of a passive socket, on every script and whatever `errno` reads: one
      attempt, no more.  A granted reply means that the datagram went out once, to the last
      client, and that its size is reported; a refused one that nothing went out. */
  lemma PassiveDatagramOutcome(s: Sock, env: Env, buf: seq<Byte>, n: nat)
    requires s.role.Passive? && s.kind == Udp && IsValid(s) && 0 < n <= |buf|
    ensures var o := Send(s, env, Some(buf), n);
            var reply := ReplyAt(env, s.handle, 0);
            && o.ret == o.sock.sent == (if reply.Ok? then n else -1)
            && o.sock.error == (if reply.Ok? then Success else Translate(reply.err))
            && DatagramsOf(o.env.io, s.handle) == DatagramsOf(env.io, s.handle)
                 + (if reply.Ok? then [Outgoing(s.client, buf[..n])] else [])
            && o.env.script == Rest(env.script)
  {
    hide DatagramsOf, Translate;
    var e := Tick(env);
    var t := Attempt(e, s.handle, SendToRequest(buf[..n], s.client), 0).1;
    OneMoreOutgoing(env.io, s.handle, t);
  }

  /** After a true Open on UDP datagrams go to the address that getpeername told: whatever the
      system answers, all that the next Send puts on its way is its datagram with this address,
      and if the first reply is granted, that is one. */
  lemma OpenDirectsDatagrams(s: Sock, env: Env, host: Option<Lookup>, port: int, buf: seq<Byte>, n: nat)
    requires !s.role.Passive? && s.kind == Udp && 0 < n <= |buf|
    requires Open(s, env, host, port).ret
    ensures var first := Open(s, env, host, port);
            var o := Send(first.sock, first.env, Some(buf), n);
            var before, after := DatagramsOf(first.env.io, s.handle), DatagramsOf(o.env.io, s.handle);
            && before <= after
            && (forall i :: |before| <= i < |after| ==>
                  after[i] == Outgoing(NameIn(ReplyAt(env, s.handle, 1)), buf[..n]))
            && (first.env.errno != EINTR && NextReply(first.env.script).Ok? ==> o.ret == n && |after| == |before| + 1)
  {
    hide Open, Send, DatagramsOf, NameIn;
    OpenUdpTrueIff(s, env, host, port);
    var first := Open(s, env, host, port);
    DatagramSendCopies(first.sock, first.env, buf, n);
  }

  /** A datagram Receive into the caller's buffer, if it reports success, stores the front of the
      oldest datagram at the start of that buffer, leaves the rest of it alone, and does not
      touch the internal one. */
  lemma DatagramFillsCaller(s: Sock, env: Env, max: nat, buf: seq<Byte>)
    requires s.kind == Udp && IsValid(s) && s.handle in env.open && max <= |buf|
    ensures var o := Receive(s, env, max, Some(buf));
            var k := o.ret.0;
            k >= 0 ==>
              && env.datagrams != [] && k == Min(max, |env.datagrams[0].data|)
              && o.ret.1 == Some(env.datagrams[0].data[..k] + buf[k..])
              && o.sock.received == k
              && o.sock.buffer == s.buffer && o.sock.bufferSize == s.bufferSize
              && (if s.multicast then o.sock.group == env.datagrams[0].source && o.sock.client == s.client
                  else o.sock.client == env.datagrams[0].source && o.sock.group == s.group)
  {
    hide RetryLoop, PlaceAll, LastSource;
    RecvFromOnce(Tick(env), s.handle, RecvFromRequest(max, s.multicast));
    var tries := RetryLoop(Tick(env), s.handle, RecvFromRequest(max, s.multicast), 0).tries;
    if Last(tries).result >= 0 {
      PlacedFront(buf, tries[0]);
      SourceOfOne(if s.multicast then s.group else s.client, tries[0]);
    }
  }

  /** A datagram Send gets the datagram accepted once if it reports success and not at all if
      it reports failure, iff `errno` is not EINTR on entry and the first reply is a success,
      or no reply before the first failure other than EINTR is a success. */
  lemma DatagramSendHonestIff(s: Sock, env: Env, data: seq<Byte>)
    requires !s.role.Passive? && s.kind == Udp && IsValid(s) && s.handle in env.open && data != []
    ensures var o := Send(s, env, Some(data), |data|);
            DatagramsOf(o.env.io, s.handle) == DatagramsOf(env.io, s.handle)
                 + Copies(if o.ret >= 0 then 1 else 0, Outgoing(s.server, data)) <==>
              || (env.errno != EINTR && env.script != [] && env.script[0].Ok?)
              || (forall i :: 0 <= i < HardFailureAt(env.script) ==> env.script[i].Fail?)
  {
    hide Send, DatagramsOf;
    assert data[..|data|] == data;
    DatagramSendCopies(s, env, data, |data|);
    GrantedNothingIff(env.script, HardFailureAt(env.script));
    var o := Send(s, env, Some(data), |data|);
    assert |DatagramsOf(o.env.io, s.handle)| >= |DatagramsOf(env.io, s.handle)|;
  }

  /** One interruption, two grants and a would-block: the datagram goes out twice and Send
      reports a failure. */
  lemma InterruptedDatagramDuplicates(s: Sock, env: Env, data: seq<Byte>)
    requires !s.role.Passive? && s.kind == Udp && IsValid(s) && s.handle in env.open && data != []
    requires env.script == [Fail(EINTR), Ok(0, false, false, NoError), Ok(0, false, false, NoError), Fail(EWOULDBLOCK)]
    ensures var o := Send(s, env, Some(data), |data|);
            var d := Outgoing(s.server, data);
            o.ret == -1 && DatagramsOf(o.env.io, s.handle) == DatagramsOf(env.io, s.handle) + [d, d]
  {
    hide Send, DatagramsOf;
    var sc := env.script;
    var t1, t2 := sc[1..], sc[1..][1..];
    assert t2 == [Ok(0, false, false, NoError), Fail(EWOULDBLOCK)] && t2[1..] == [Fail(EWOULDBLOCK)];
    assert HardFailureAt(t2[1..]) == 0 && HardFailureAt(t2) == 1 && HardFailureAt(t1) == 2 && HardFailureAt(sc) == 3;
    assert Granted(t2[1..], 0) == 0 && Granted(t2, 1) == 1 && Granted(t1, 2) == 2 && Granted(sc, 3) == 2;
    assert data[..|data|] == data;
    DatagramSendCopies(s, env, data, |data|);
    var d := Outgoing(s.server, data);
    assert Copies(2, d) == [d, d];
  }

  /** A failing datagram Receive may have taken datagrams: how many, and that it took none iff
      none was waiting or the first reply that is no interruption refuses. */
  lemma FailedDatagramReceiveTakes(s: Sock, env: Env, max: nat, dest: Option<seq<Byte>>)
    requires s.kind == Udp && IsValid(s) && s.handle in env.open
    ensures var o := Receive(s, env, max, dest);
            var k := LeadingInterrupts(env.script);
            && (o.ret.0 >= 0 <==> env.errno != EINTR && NextReply(env.script).Ok? && env.datagrams != [])
            && (o.ret.0 >= 0 ==> o.env.datagrams == env.datagrams[1..])
            && (o.ret.0 < 0 ==>
                  && o.ret.0 == -1
                  && o.env.datagrams == env.datagrams[Drained(env.script, |env.datagrams|)..]
                  && (o.env.datagrams == env.datagrams <==>
                        env.datagrams == [] || NextReply(env.script[k..]).Fail?))
  {
    hide Receive, RetryLoop, Drained, LeadingInterrupts;
    var at := ReceiveIsLoop(s, env, max, dest);
    RecvFromLoopClosedForm(at, s.handle, max, s.multicast);
    NothingDrainedIff(env.script, |env.datagrams|);
  }

  /** With an old interruption in `errno`, the one datagram that waits is taken and Receive
      reports a failure. */
  lemma StaleInterruptDropsDatagram(s: Sock, env: Env, max: nat)
    requires s.kind == Udp && IsValid(s) && s.handle in env.open
    requires env.errno == EINTR && |env.datagrams| == 1
    requires env.script == [Ok(0, false, false, NoError), Fail(EWOULDBLOCK)]
    ensures var o := Receive(s, env, max, None);
            o.ret.0 == -1 && o.env.datagrams == [] && Data(o.sock) == None
  {
    hide Receive;
    FailedDatagramReceiveTakes(s, env, max, None);
    FailedReceiveFrees(s, env, max, None);
    assert Drained(env.script, 1) == 1 + Drained(env.script[1..], 0);
  }

  lemma {:induction false} NothingDrainedIff(script: seq<Reply>, waiting: nat)
    ensures Drained(script, waiting) == 0 <==> waiting == 0 || NextReply(script[LeadingInterrupts(script)..]).Fail?
  {
    if script != [] && script[0] == Fail(EINTR) {
      NothingDrainedIff(script[1..], waiting);
      var k := LeadingInterrupts(script);
      assert script[1..][k - 1..] == script[k..];
    } else {
      assert script[0..] == script;
    }
  }
}
