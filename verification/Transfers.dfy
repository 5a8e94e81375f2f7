/** What Send, Receive, Writev and Flush do to the byte streams. */
module Transfers {
  import opened Posix
  import opened Retry
  import opened SocketModel

  // --- Send

  /** Every path of a stream Send: the wire gains the attempts' bytes in order, nothing else
      in the environment that the library relies on changes, and a call stopped by one of the
      guards does not touch the environment at all. */
  lemma SendEffect(s: Sock, env: Env, buf: Option<seq<Byte>>, n: nat)
    requires s.kind == Tcp
    ensures var o := BaseSend(s, env, buf, n);
            if ReachesOs(s, buf, n) then
              var tries := RetryLoop(Tick(env), s.handle, SendRequest(Prefix(buf.value, n)), 0).tries;
              && SameFrame(Tick(Tick(env)), o.env)
              && o.env.io == env.io + OnDescriptor(s.handle, tries)
              && WireOf(o.env.io, s.handle) == WireOf(env.io, s.handle) + Moved(tries)
              && (forall fd :: fd != s.handle ==> WireOf(o.env.io, fd) == WireOf(env.io, fd))
              && (forall fd :: StreamOf(o.env.io, fd) == StreamOf(env.io, fd))
              && o.ret == o.sock.sent == Last(tries).result
            else
              o.env == env && o.ret == 0
  {
    if ReachesOs(s, buf, n) {
      var req := SendRequest(Prefix(buf.value, n));
      RetryFrame(Tick(env), s.handle, req, 0);
      TraceAppend(env.io, s.handle, req, RetryLoop(Tick(env), s.handle, req, 0).tries);
    }
  }

  /** Send reports a delivery iff `errno` is not EINTR on entry and the first call succeeds.
      Then the wire holds the reported prefix once, from a single call, and the socket error
      is Success iff `errno` was zero before the call. */
  lemma SendDeliversOnceIff(s: Sock, env: Env, data: seq<Byte>)
    requires s.kind == Tcp && IsValid(s) && data != []
    ensures var o := BaseSend(s, env, Some(data), |data|);
            && (o.ret >= 0 <==> env.errno != EINTR && Answer(env, s.handle, SendRequest(data)).Ok?)
            && (o.ret >= 0 ==>
                  && o.ret <= |data|
                  && |o.env.io| == |env.io| + 1
                  && WireOf(o.env.io, s.handle) == WireOf(env.io, s.handle) + data[..o.ret]
                  && (o.sock.error == Success <==> env.errno == NoError))
  {
    hide RetryLoop, WireOf, StreamOf, OnDescriptor, Moved, SameFrame;
    var req := SendRequest(data);
    assert Prefix(data, |data|) == data;
    SendEffect(s, env, Some(data), |data|);
    ReportedSuccessIff(Tick(env), s.handle, req, 0);
    SingleSend(Tick(env), s.handle, data);
  }

  /** A send loop of one attempt moved the prefix it reports, or nothing. */
  lemma SingleSend(env: Env, fd: int, data: seq<Byte>)
    ensures var tries := RetryLoop(env, fd, SendRequest(data), 0).tries;
            |tries| == 1 ==>
              && -1 <= Last(tries).result <= |data|
              && Moved(tries) == if Last(tries).result >= 0 then data[..Last(tries).result] else []
  {
    var (e, t) := Attempt(env, fd, SendRequest(data), 0);
    MovedCons(t, []);
    assert [t] + [] == [t];
  }

  /** A failing Send may have delivered: what it delivered, and that it left the wire alone
      iff no send granted before the failure that ended it moved a byte. */
  lemma FailedSendDelivered(s: Sock, env: Env, data: seq<Byte>)
    requires s.kind == Tcp && IsValid(s) && s.handle in env.open && data != []
    ensures var o := BaseSend(s, env, Some(data), |data|);
            var k := HardFailureAt(env.script);
            o.ret == -1 ==>
              && |o.env.io| == |env.io| + k + 1
              && WireOf(o.env.io, s.handle) == WireOf(env.io, s.handle) + Deliveries(env.script, data, k)
              && (Deliveries(env.script, data, k) == [] <==>
                    forall i :: 0 <= i < k && env.script[i].Ok? ==> env.script[i].n == 0)
  {
    hide RetryLoop, WireOf, Deliveries, SameFrame;
    assert Prefix(data, |data|) == data;
    SendEffect(s, env, Some(data), |data|);
    SendLoopClosedForm(Tick(env), s.handle, data);
    NothingDeliveredIff(env.script, data, HardFailureAt(env.script));
  }

  /** Send puts on the wire exactly what it reports iff `errno` is not EINTR on entry and the
      first reply is a success, or no send granted before the first failure other than EINTR
      moves a byte. */
  lemma SendHonestIff(s: Sock, env: Env, data: seq<Byte>)
    requires s.kind == Tcp && IsValid(s) && s.handle in env.open && data != []
    ensures var o := BaseSend(s, env, Some(data), |data|);
            && -1 <= o.ret <= |data|
            && (WireOf(o.env.io, s.handle)
                  == WireOf(env.io, s.handle) + data[..if o.ret < 0 then 0 else o.ret] <==>
                  || (env.errno != EINTR && env.script != [] && env.script[0].Ok?)
                  || (forall i :: 0 <= i < HardFailureAt(env.script) && env.script[i].Ok? ==> env.script[i].n == 0))
  {
    hide RetryLoop, WireOf, Deliveries, SameFrame;
    assert Prefix(data, |data|) == data;
    SendEffect(s, env, Some(data), |data|);
    SendLoopClosedForm(Tick(env), s.handle, data);
    NothingDeliveredIff(env.script, data, HardFailureAt(env.script));
    assert data[..0] == [];
  }

  /** What a Send tells its caller, for either kind of socket but a passive datagram one: the
      result is also the count, a failure carries the error of the reply that ended the loop,
      and a success that of the `errno` found on entry.  A call stopped by a guard reports
      nothing sent, and no error unless the kind is a wrong one. */
  lemma SendReports(s: Sock, env: Env, buf: Option<seq<Byte>>, n: nat)
    requires !(s.role.Passive? && s.kind == Udp)
    ensures var o := Send(s, env, buf, n);
            && o.ret == o.sock.sent
            && (ReachesOs(s, buf, n) && s.handle in env.open ==>
                  && (o.ret >= 0 <==> env.errno != EINTR && NextReply(env.script).Ok?)
                  && o.sock.error == Translate(if o.ret >= 0 then env.errno else HardFailure(env.script)))
            && (ReachesOs(s, buf, n) && s.handle !in env.open ==> o.ret == -1 && o.sock.error == InvalidSocket)
            && (!ReachesOs(s, buf, n) ==>
                  && o.ret == 0 && o.env == env
                  && o.sock.error == if s.role.Passive? && s.kind != Tcp then ProtocolError else Success)
  {
    hide RetryLoop, Translate, HardFailure;
    if ReachesOs(s, buf, n) {
      var req := SendRequestOf(s, Prefix(buf.value, n));
      ReportedSuccessIff(Tick(env), s.handle, req, 0);
      ResultBound(Tick(env), s.handle, req, 0);
      assert Last(RetryLoop(Tick(env), s.handle, req, 0).tries) in RetryLoop(Tick(env), s.handle, req, 0).tries;
      if s.handle in env.open {
        LoopErrno(Tick(env), s.handle, req, 0);
      } else {
        ClosedLoop(Tick(env), s.handle, req);
      }
    }
  }

  /** Without a valid handle, a buffer and a size no Send of either class reaches the system. */
  lemma SendStops(s: Sock, env: Env, buf: Option<seq<Byte>>, n: nat)
    requires s.handle == -1 || buf == None || n == 0
    ensures var o := Send(s, env, buf, n);
            o.ret == 0 && o.env == env && o.sock == s.(error := o.sock.error, sent := 0)
  {
  }

  /** With all three, a Send on a stream or a datagram socket makes at least one call. */
  lemma SendProceeds(s: Sock, env: Env, buf: seq<Byte>, n: nat)
    requires s.kind in {Tcp, Udp} && s.handle != -1 && n > 0
    ensures |Send(s, env, Some(buf), n).env.io| > |env.io|
  {
    hide RetryLoop, SameFrame;
    var req := SendRequestOf(s, Prefix(buf, n));
    RetryFrame(Tick(env), s.handle, req, 0);
  }

  /** A loop on a descriptor that is not open fails at once. */
  lemma ClosedLoop(env: Env, fd: int, req: Request)
    requires fd !in env.open
    ensures var r := RetryLoop(env, fd, req, 0);
            |r.tries| == 1 && Last(r.tries).result == -1 && r.env.errno == EBADF && Translate(EBADF) == InvalidSocket
  {
  }

  /** The intended loop, with `errno` cleared before each attempt, on every script: either one
      call delivered and its count is reported, or nothing was delivered and -1 is reported. */
  lemma IntendedSendDeliversOnce(env: Env, fd: int, data: seq<Byte>)
    ensures var r := ClearedLoop(env, fd, SendRequest(data));
            var ret := Last(r.tries).result;
            && WireOf(r.env.io, fd) == WireOf(env.io, fd) + (if ret >= 0 then Last(r.tries).data else [])
            && (ret >= 0 ==> ret <= |data| && Last(r.tries).data == data[..ret])
  {
    var req := SendRequest(data);
    ClearedExactlyOnce(env, fd, req);
    ClearedRequests(env, fd, req);
    TraceAppend(env.io, fd, req, ClearedLoop(env, fd, req).tries);
  }

  lemma {:induction false} ClearedRequests(env: Env, fd: int, req: Request)
    ensures var r := ClearedLoop(env, fd, req);
            && (forall t :: t in r.tries ==> t.request == req)
            && (req.SendRequest? && Last(r.tries).result >= 0 ==>
                  Last(r.tries).result <= |req.data| && Last(r.tries).data == req.data[..Last(r.tries).result])
    decreases |env.script|
  {
    var cleared := env.(errno := NoError);
    var (e, t) := Attempt(cleared, fd, req, 0);
    if Translate(e.errno) == Interrupted {
      InterruptedConsumes(cleared, fd, req, 0);
      ClearedRequests(e, fd, req);
    }
  }

  /** One interruption, two grants and a broken pipe: the single byte handed to Send is
      delivered twice and the call reports a failure. */
  lemma InterruptedSendDuplicates(s: Sock, env: Env, b: Byte)
    requires s.kind == Tcp && IsValid(s) && s.handle in env.open
    requires env.script == [Fail(EINTR), Ok(1, false, false, NoError), Ok(1, false, false, NoError), Fail(EPIPE)]
    ensures var o := BaseSend(s, env, Some([b]), 1);
            o.ret == -1 && WireOf(o.env.io, s.handle) == WireOf(env.io, s.handle) + [b, b]
  {
    hide RetryLoop, WireOf, SameFrame, HardFailureAt, Deliveries;
    var d := [b];
    DuplicatingScript(env.script, b);
    SendLoopClosedForm(Tick(env), s.handle, d);
    assert Prefix(d, 1) == d;
    SendEffect(s, env, Some(d), 1);
  }

  lemma DuplicatingScript(sc: seq<Reply>, b: Byte)
    requires sc == [Fail(EINTR), Ok(1, false, false, NoError), Ok(1, false, false, NoError), Fail(EPIPE)]
    ensures HardFailureAt(sc) == 3 && Deliveries(sc, [b], 3) == [b, b]
  {
    var d, tail := [b], sc[1..];
    assert tail[1..] == [Ok(1, false, false, NoError), Fail(EPIPE)];
    assert tail[1..][1..] == [Fail(EPIPE)];
    assert HardFailureAt(tail[1..][1..]) == 0 && HardFailureAt(tail[1..]) == 1 && HardFailureAt(tail) == 2;
    assert Deliveries(tail[1..][1..], d, 0) == [];
    assert Deliveries(tail[1..], d, 1) == [b];
    assert Deliveries(tail, d, 2) == [b, b];
  }

  // --- Receive

  /** The part of Receive after the internal buffer is ready. */
  lemma RecvEffect(s: Sock, env: Env, max: nat)
    requires s.kind == Tcp
    ensures var r := RecvLoop(s, env, max);
            && SameFrame(env, r.env)
            && r.env.io == env.io + OnDescriptor(s.handle, r.tries)
            && StreamOf(r.env.io, s.handle) == StreamOf(env.io, s.handle) + Moved(r.tries)
            && (forall fd :: fd != s.handle ==> StreamOf(r.env.io, fd) == StreamOf(env.io, fd))
            && (forall fd :: WireOf(r.env.io, fd) == WireOf(env.io, fd))
  {
    var req := RecvRequest(max);
    RetryFrame(env, s.handle, req, 0);
    TraceAppend(env.io, s.handle, req, RetryLoop(env, s.handle, req, 0).tries);
  }

  /** The window given to recv lies in a buffer of `max` bytes. */
  predicate WindowInside(t: Try, max: nat) {
    0 <= t.offset && t.offset + max <= max
  }

  /** Every recv window of one receive loop lies inside the buffer iff the loop makes one
      attempt, or `errno` was EINTR on entry and every reply before the first failure other
      than EINTR grants a receive that moves nothing. */
  lemma WindowsInsideIff(env: Env, fd: int, max: nat)
    requires fd in env.open
    ensures var tries := RetryLoop(env, fd, RecvRequest(max), 0).tries;
            (forall i :: 0 <= i < |tries| ==> WindowInside(tries[i], max)) <==>
              if env.errno != EINTR then NextReply(env.script) != Fail(EINTR)
              else NothingUntilFailure(env.script, max, |env.open[fd].inbound|)
  {
    hide RetryLoop, NothingUntilFailure;
    var req := RecvRequest(max);
    var tries := RetryLoop(env, fd, req, 0).tries;
    RetryTrace(env, fd, req, 0);
    RetryFrame(env, fd, req, 0);
    FirstOffset(env, fd, req, 0);
    forall i | 1 <= i < |tries| ensures tries[i].offset == tries[i - 1].result {
      assert tries[i - 1] in tries;
    }
    WindowChain(tries, max);
    if env.errno == EINTR {
      StaleReceiveZeros(env, fd, max, 0);
    } else {
      SingleAttemptIff(env, fd, req, 0);
      if NextReply(env.script) == Fail(EINTR) {
        InterruptedReceiveMisplaced(env, fd, max);
      }
    }
  }

  /** A receive whose first call is interrupted hands the system a window that starts one byte
      before the buffer. */
  lemma InterruptedReceiveMisplaced(env: Env, fd: int, max: nat)
    requires fd in env.open && env.script != [] && env.script[0] == Fail(EINTR)
    ensures var tries := RetryLoop(env, fd, RecvRequest(max), 0).tries;
            |tries| > 1 && tries[0].result == -1 && tries[1].offset == -1 && !WindowInside(tries[1], max)
  {
    var (e, t) := Attempt(env, fd, RecvRequest(max), 0);
    FirstOffset(e, fd, RecvRequest(max), NextOffset(t));
  }

  /** In a larger buffer of the caller the moved windows can be seen.  Each starts where the one
      before it would have ended had that one started at 0, so what was received is neither in
      order nor complete: here the fourth byte lands on the second. */
  lemma RetriedReceiveOverwrites(s: Sock, env: Env, a: Byte, b: Byte, c: Byte, d: Byte)
    requires s.kind == Tcp && IsValid(s) && s.handle in env.open && env.errno == EINTR
    requires env.open[s.handle].inbound == [a, b, c, d]
    requires env.script == [Ok(2, false, false, NoError), Ok(1, false, false, NoError),
                            Ok(1, false, false, NoError), Fail(EWOULDBLOCK)]
    ensures Receive(s, env, 2, Some([0, 0, 0, 0])).ret == (-1, Some([a, d, c, 0]))
  {
    hide Receive, RetryLoop, PlaceAll;
    var at := ReceiveIsLoop(s, env, 2, Some([0, 0, 0, 0]));
    var t1, t2, t3, t4 := OverwritingTries(at, s.handle, a, b, c, d);
    Overwritten(t1, t2, t3, t4, a, b, c, d);
  }

  lemma OverwritingTries(env: Env, fd: int, a: Byte, b: Byte, c: Byte, d: Byte)
    returns (t1: Try, t2: Try, t3: Try, t4: Try)
    requires fd in env.open && env.errno == EINTR && env.open[fd].inbound == [a, b, c, d]
    requires var one := Ok(1, false, false, NoError);
             env.script == [Ok(2, false, false, NoError), one, one, Fail(EWOULDBLOCK)]
    ensures RetryLoop(env, fd, RecvRequest(2), 0).tries == [t1, t2, t3, t4]
    ensures t1.offset == 0 && t1.data == [a, b] && t2.offset == 2 && t2.data == [c]
    ensures t3.offset == 1 && t3.data == [d] && t4.offset == 1 && t4.data == [] && t4.result == -1
  {
    hide RetryLoop;
    var one, last: seq<Reply> := Ok(1, false, false, NoError), [Fail(EWOULDBLOCK)];
    assert [one] + last == [one, Fail(EWOULDBLOCK)];
    assert [one] + ([one] + last) == [one, one, Fail(EWOULDBLOCK)];
    assert [Ok(2, false, false, NoError)] + ([one] + ([one] + last)) == env.script;
    assert [a, b] + [c, d] == [a, b, c, d] && [c] + [d] == [c, d] && [d] + [] == [d];
    var e1, e2, e3;
    e1, t1 := OverwriteStep(env, fd, 2, 0, [a, b], [c, d], [one] + ([one] + last));
    e2, t2 := OverwriteStep(e1, fd, 1, 2, [c], [d], [one] + last);
    e3, t3 := OverwriteStep(e2, fd, 1, 1, [d], [], last);
    t4 := OverwriteEnd(e3, fd, 1);
    assert [t1] + ([t2] + ([t3] + [t4])) == [t1, t2, t3, t4];
  }

  /** One granted attempt of a loop that goes on because of an old interruption. */
  lemma OverwriteStep(env: Env, fd: int, k: nat, offset: int, front: seq<Byte>, left: seq<Byte>, rest: seq<Reply>)
    returns (e: Env, t: Try)
    requires fd in env.open && env.errno == EINTR && |front| == k <= 2
    requires env.script == [Ok(k, false, false, NoError)] + rest
    requires env.open[fd].inbound == front + left
    ensures t.offset == offset && t.data == front
    ensures fd in e.open && e.open[fd].inbound == left && e.errno == EINTR && e.script == rest
    ensures RetryLoop(env, fd, RecvRequest(2), offset).tries == [t] + RetryLoop(e, fd, RecvRequest(2), k).tries
  {
    e, t := Attempt(env, fd, RecvRequest(2), offset).0, Attempt(env, fd, RecvRequest(2), offset).1;
    assert e.script == rest;
  }

  lemma OverwriteEnd(env: Env, fd: int, offset: int) returns (t: Try)
    requires fd in env.open && env.script == [Fail(EWOULDBLOCK)]
    ensures RetryLoop(env, fd, RecvRequest(2), offset).tries == [t]
    ensures t.offset == offset && t.result == -1 && t.data == []
  {
    hide Translate, Min;
    assert Answer(env, fd, RecvRequest(2)) == Fail(EWOULDBLOCK);
    t := Attempt(env, fd, RecvRequest(2), offset).1;
  }

  lemma Overwritten(t1: Try, t2: Try, t3: Try, t4: Try, a: Byte, b: Byte, c: Byte, d: Byte)
    requires t1.offset == 0 && t1.data == [a, b] && t2.offset == 2 && t2.data == [c]
    requires t3.offset == 1 && t3.data == [d] && t4.offset == 1 && t4.data == []
    ensures PlaceAll([0, 0, 0, 0], [t1, t2, t3, t4]) == [a, d, c, 0]
  {
    var s1, s2, s3 := Place([0, 0, 0, 0], 0, [a, b]), Place([a, b, 0, 0], 2, [c]), Place([a, b, c, 0], 1, [d]);
    assert s1 == [a, b, 0, 0] && s2 == [a, b, c, 0] && s3 == [a, d, c, 0];
    assert Place(s3, 1, []) == s3;
    PlaceFirst([0, 0, 0, 0], t1, [t2, t3, t4]);
    PlaceFirst(s1, t2, [t3, t4]);
    PlaceFirst(s2, t3, [t4]);
    PlaceFirst(s3, t4, []);
    assert [t1] + [t2, t3, t4] == [t1, t2, t3, t4] && [t2] + [t3, t4] == [t2, t3, t4];
    assert [t3] + [t4] == [t3, t4] && [t4] + [] == [t4];
  }

  lemma PlaceFirst(buf: seq<Byte>, t: Try, rest: seq<Try>)
    ensures PlaceAll(buf, [t] + rest) == PlaceAll(Place(buf, t.offset, t.data), rest)
    ensures PlaceAll(buf, []) == buf
  {
    assert ([t] + rest)[1..] == rest;
  }

  lemma WindowChain(tries: seq<Try>, max: nat)
    requires tries != [] && tries[0].offset == 0
    requires forall i :: 1 <= i < |tries| ==> tries[i].offset == tries[i - 1].result
    ensures (forall i :: 0 <= i < |tries| ==> WindowInside(tries[i], max)) <==>
            ZerosBeforeLast(tries)
  {
    if forall i :: 0 <= i < |tries| ==> WindowInside(tries[i], max) {
      forall i | 0 <= i < |tries| - 1 ensures tries[i].result == 0 {
        assert WindowInside(tries[i + 1], max);
      }
    }
    if ZerosBeforeLast(tries) {
      forall i | 0 <= i < |tries| ensures WindowInside(tries[i], max) {
        assert i > 0 ==> tries[i - 1].result == 0;
      }
    }
  }

  /** A Receive that reports success took the bytes from the front of the stream, in one
      call, and the buffer handed out by GetData starts with exactly these bytes. */
  lemma ReceivePlacesStream(s: Sock, env: Env, max: nat)
    requires s.kind == Tcp && IsValid(s) && s.handle in env.open
    requires s.buffer.Some? ==> |s.buffer.value.bytes| == s.bufferSize
    ensures var o := Receive(s, env, max, None);
            var k := o.ret.0;
            k >= 0 ==>
              && k <= max && o.sock.received == k
              && |o.env.io| == |env.io| + 1
              && k <= |env.open[s.handle].inbound|
              && s.handle in o.env.open
              && o.env.open[s.handle].inbound == env.open[s.handle].inbound[k..]
              && Data(o.sock).Some? && |Data(o.sock).value| == max
              && Data(o.sock).value[..k] == env.open[s.handle].inbound[..k]
              && StreamOf(o.env.io, s.handle) == StreamOf(env.io, s.handle) + env.open[s.handle].inbound[..k]
  {
    hide RetryLoop, PlaceAll, PrepareBuffer, StreamOf;
    var (s1, e1) := PrepareBuffer(s.(received := 0), env, max);
    PrepareTouches(s.(received := 0), env, max);
    PreparedSize(s.(received := 0), env, max);
    RecvOnce(Tick(e1), s1.handle, max);
    RecvEffect(s1, Tick(e1), max);
    var tries := RecvLoop(s1, Tick(e1), max).tries;
    if ReceivedCount(tries) >= 0 {
      PlaceOne(s1.buffer.value.bytes, tries[0]);
    }
  }

  /** A receive loop that reports success made one attempt, at the start of the buffer, and took
      the front of the stream. */
  lemma RecvOnce(env: Env, fd: int, max: nat)
    requires fd in env.open
    ensures var r := RetryLoop(env, fd, RecvRequest(max), 0);
            var inbound := env.open[fd].inbound;
            var k := Last(r.tries).result;
            k >= 0 ==>
              && r.tries == [r.tries[0]] && r.tries[0].offset == 0 && k <= max && k <= |inbound|
              && r.tries[0].data == inbound[..k] && Moved(r.tries) == inbound[..k]
              && fd in r.env.open && r.env.open[fd].inbound == inbound[k..]
              && |r.env.io| == |env.io| + 1
  {
    ReportedSuccessIff(env, fd, RecvRequest(max), 0);
    MovedOne(RetryLoop(env, fd, RecvRequest(max), 0).tries[0]);
  }

  lemma PreparedSize(s: Sock, env: Env, max: nat)
    requires s.buffer.Some? ==> |s.buffer.value.bytes| == s.bufferSize
    ensures |PrepareBuffer(s, env, max).0.buffer.value.bytes| == max
  {
  }

  lemma PlaceOne(buf: seq<Byte>, t: Try)
    requires t.offset == 0 && |t.data| <= |buf|
    ensures PlaceAll(buf, [t])[..|t.data|] == t.data
  {
    assert [t][1..] == [];
    assert PlaceAll(buf, [t]) == Place(buf, 0, t.data);
  }

  /** The loop inside a Receive on a valid socket, and that nothing else in Receive touches the
      descriptor table, the datagrams or the trace. */
  lemma ReceiveIsLoop(s: Sock, env: Env, max: nat, dest: Option<seq<Byte>>) returns (at: Env)
    requires s.kind in {Tcp, Udp} && IsValid(s)
    ensures at.errno == env.errno && at.script == env.script
    ensures at.open == env.open && at.datagrams == env.datagrams && at.io == env.io
    ensures var o := Receive(s, env, max, dest);
            var r := RetryLoop(at, s.handle, RecvRequestOf(s, max), 0);
            && o.env.open == r.env.open && o.env.datagrams == r.env.datagrams && o.env.io == r.env.io
            && o.ret.0 == Last(r.tries).result
            && o.env.script == r.env.script && o.env.errno == r.env.errno
            && o.ret.1 == (if dest.None? then None else Some(PlaceAll(dest.value, r.tries)))
            && o.sock.received == o.ret.0 && o.sock.error == Translate(r.env.errno)
  {
    hide RetryLoop, PlaceAll, PrepareBuffer, LastSource;
    var s0 := s.(received := 0);
    var (s1, e1) := if dest.None? then PrepareBuffer(s0, env, max) else (s0, env);
    PrepareTouches(s0, env, max);
    at := Tick(e1);
  }

  /** The bytes that the calls of a Receive took and the bytes left in the stream make up the
      old stream, on every path. */
  lemma ReceiveConserves(s: Sock, env: Env, max: nat, dest: Option<seq<Byte>>)
    requires s.kind == Tcp && IsValid(s) && s.handle in env.open
    ensures var o := Receive(s, env, max, dest);
            && s.handle in o.env.open
            && StreamOf(o.env.io, s.handle) + o.env.open[s.handle].inbound
                 == StreamOf(env.io, s.handle) + env.open[s.handle].inbound
  {
    hide Receive, RetryLoop, StreamOf, SameFrame, Moved;
    var req := RecvRequest(max);
    var at := ReceiveIsLoop(s, env, max, dest);
    RecvLoopConserves(at, s.handle, max, 0);
    RetryFrame(at, s.handle, req, 0);
    var r := RetryLoop(at, s.handle, req, 0);
    TraceAppend(env.io, s.handle, req, r.tries);
    Reassociate(StreamOf(env.io, s.handle), Moved(r.tries), r.env.open[s.handle].inbound);
  }

  /** A failing Receive may have taken bytes: what it leaves, and that it leaves the stream alone
      iff no receive granted before the first failure other than EINTR takes a byte. */
  lemma FailedReceiveTakes(s: Sock, env: Env, max: nat, dest: Option<seq<Byte>>)
    requires s.kind == Tcp && IsValid(s) && s.handle in env.open
    ensures var o := Receive(s, env, max, dest);
            var before := env.open[s.handle].inbound;
            var k := HardFailureAt(env.script);
            o.ret.0 == -1 ==>
              && |o.env.io| == |env.io| + k + 1
              && s.handle in o.env.open
              && o.env.open[s.handle].inbound == Remaining(env.script, before, max, k)
              && (o.env.open[s.handle].inbound == before <==>
                    forall i :: 0 <= i < k && env.script[i].Ok? ==> Min(Min(env.script[i].n, max), |before|) == 0)
  {
    hide Receive, RetryLoop, Remaining, SameFrame;
    var at := ReceiveIsLoop(s, env, max, dest);
    RecvLoopClosedForm(at, s.handle, max, 0);
    RetryFrame(at, s.handle, RecvRequest(max), 0);
    NothingTakenIff(env.script, env.open[s.handle].inbound, max, HardFailureAt(env.script));
  }

  /** Receive takes from the stream exactly what it reports iff `errno` is not EINTR on entry
      and the first reply is a success, or no receive granted before the first failure other
      than EINTR takes a byte. */
  lemma ReceiveHonestIff(s: Sock, env: Env, max: nat, dest: Option<seq<Byte>>)
    requires s.kind == Tcp && IsValid(s) && s.handle in env.open
    ensures var o := Receive(s, env, max, dest);
            var before := env.open[s.handle].inbound;
            && -1 <= o.ret.0 <= |before| && s.handle in o.env.open
            && (o.env.open[s.handle].inbound == before[if o.ret.0 < 0 then 0 else o.ret.0..] <==>
                  || (env.errno != EINTR && env.script != [] && env.script[0].Ok?)
                  || (forall i :: 0 <= i < HardFailureAt(env.script) && env.script[i].Ok? ==>
                        Min(Min(env.script[i].n, max), |before|) == 0))
  {
    hide Receive, RetryLoop, Remaining;
    var before := env.open[s.handle].inbound;
    var at := ReceiveIsLoop(s, env, max, dest);
    RecvLoopClosedForm(at, s.handle, max, 0);
    NothingTakenIff(env.script, before, max, HardFailureAt(env.script));
    assert before[0..] == before;
  }

  /** With an old interruption in `errno`, one byte waiting, a granted receive and a would-block:
      the byte is taken from the stream, but Receive fails and leaves no buffer to find it in. */
  lemma InterruptedReceiveLoses(s: Sock, env: Env, max: nat)
    requires s.kind == Tcp && IsValid(s) && s.handle in env.open && max >= 1
    requires env.errno == EINTR && |env.open[s.handle].inbound| == 1
    requires env.script == [Ok(1, false, false, NoError), Fail(EWOULDBLOCK)]
    ensures var o := Receive(s, env, max, None);
            && o.ret.0 == -1 && Data(o.sock) == None
            && s.handle in o.env.open && o.env.open[s.handle].inbound == []
  {
    hide Receive, RetryLoop;
    var before, sc := env.open[s.handle].inbound, env.script;
    var at := ReceiveIsLoop(s, env, max, None);
    RecvLoopClosedForm(at, s.handle, max, 0);
    FailedReceiveFrees(s, env, max, None);
    assert sc[1..] == [Fail(EWOULDBLOCK)];
    assert HardFailureAt(sc[1..]) == 0 && HardFailureAt(sc) == 1;
    assert Remaining(sc, before, max, 1) == Remaining(sc[1..], before[1..], max, 0) == [];
  }

  /** A Receive into the caller's buffer, if it reports success, stores the front of the stream at
      the start of that buffer, leaves the rest of it alone, and does not touch the internal one. */
  lemma ReceiveFillsCaller(s: Sock, env: Env, max: nat, buf: seq<Byte>)
    requires s.kind == Tcp && IsValid(s) && s.handle in env.open && max <= |buf|
    ensures var o := Receive(s, env, max, Some(buf));
            var k := o.ret.0;
            k >= 0 ==>
              && k <= max && k <= |env.open[s.handle].inbound|
              && o.ret.1 == Some(env.open[s.handle].inbound[..k] + buf[k..])
              && o.sock.received == k
              && o.sock.buffer == s.buffer && o.sock.bufferSize == s.bufferSize
              && o.env.live == env.live && o.env.nextBlock == env.nextBlock
  {
    hide RetryLoop, PlaceAll, SameFrame;
    RecvOnce(Tick(env), s.handle, max);
    RetryFrame(Tick(env), s.handle, RecvRequest(max), 0);
    var r := RetryLoop(Tick(env), s.handle, RecvRequest(max), 0);
    FrameHeap(Tick(env), r.env);
    if Last(r.tries).result >= 0 {
      PlacedFront(buf, r.tries[0]);
    }
  }

  lemma FrameHeap(a: Env, b: Env)
    requires SameFrame(a, b)
    ensures a.live == b.live && a.nextBlock == b.nextBlock
  {
  }

  lemma PlacedFront(buf: seq<Byte>, t: Try)
    requires t.offset == 0 && |t.data| <= |buf|
    ensures PlaceAll(buf, [t]) == t.data + buf[|t.data|..]
  {
    assert [t][1..] == [];
    assert buf[..0] + t.data + buf[|t.data|..] == t.data + buf[|t.data|..];
  }

  /** What a Receive tells its caller: the count, which is the result, and the error of the reply
      that ended the loop, or for a success that of the `errno` found on entry.  An invalid
      object reports nothing received and keeps its error; another kind of socket receives
      nothing. */
  lemma ReceiveReports(s: Sock, env: Env, max: nat, dest: Option<seq<Byte>>)
    ensures var o := Receive(s, env, max, dest);
            && o.ret.0 == o.sock.received
            && (!IsValid(s) ==> o.ret == (0, dest) && o.env == env && o.sock == s.(received := 0))
            && (IsValid(s) && s.kind !in {Tcp, Udp} ==> o.ret.0 == 0 && o.sock.error == Translate(env.errno))
            && (IsValid(s) && s.kind in {Tcp, Udp} && s.handle !in env.open ==>
                  o.ret.0 == -1 && o.sock.error == InvalidSocket)
            && (IsValid(s) && s.kind == Tcp && s.handle in env.open ==>
                  && (o.ret.0 >= 0 <==> env.errno != EINTR && NextReply(env.script).Ok?)
                  && o.sock.error == Translate(if o.ret.0 >= 0 then env.errno else HardFailure(env.script)))
            && (IsValid(s) && s.kind == Udp && s.handle in env.open ==>
                  && (o.ret.0 >= 0 <==> env.errno != EINTR && NextReply(env.script).Ok? && env.datagrams != [])
                  && o.sock.error == Translate(if o.ret.0 >= 0 then env.errno
                                               else DrainFailure(env.script, |env.datagrams|)))
  {
    hide Receive, RetryLoop, Translate, HardFailure, DrainFailure;
    if IsValid(s) && s.kind in {Tcp, Udp} {
      var at := ReceiveIsLoop(s, env, max, dest);
      LoopReports(s, at, max);
    } else {
      ReceiveStops(s, env, max, dest);
    }
  }

  lemma ReceiveStops(s: Sock, env: Env, max: nat, dest: Option<seq<Byte>>)
    requires !(IsValid(s) && s.kind in {Tcp, Udp})
    ensures var o := Receive(s, env, max, dest);
            && o.ret.0 == o.sock.received == 0
            && (if IsValid(s) then o.sock.error == Translate(env.errno)
                else o.ret == (0, dest) && o.env == env && o.sock == s.(received := 0))
  {
    hide Translate;
  }

  lemma LoopReports(s: Sock, env: Env, max: nat)
    requires s.kind in {Tcp, Udp}
    ensures var r := RetryLoop(env, s.handle, RecvRequestOf(s, max), 0);
            var k := Last(r.tries).result;
            && (s.handle !in env.open ==> k == -1 && Translate(r.env.errno) == InvalidSocket)
            && (s.handle in env.open && s.kind == Tcp ==>
                  && (k >= 0 <==> env.errno != EINTR && NextReply(env.script).Ok?)
                  && r.env.errno == if k >= 0 then env.errno else HardFailure(env.script))
            && (s.handle in env.open && s.kind == Udp ==>
                  && (k >= 0 <==> env.errno != EINTR && NextReply(env.script).Ok? && env.datagrams != [])
                  && r.env.errno == if k >= 0 then env.errno else DrainFailure(env.script, |env.datagrams|))
  {
    hide RetryLoop, Translate, HardFailure, DrainFailure;
    var req := RecvRequestOf(s, max);
    ReportedSuccessIff(env, s.handle, req, 0);
    if s.handle !in env.open {
      ClosedLoop(env, s.handle, req);
    } else if s.kind == Tcp {
      LoopErrno(env, s.handle, req, 0);
    } else {
      DrainErrno(env, s.handle, max, s.multicast);
    }
  }

  /** The internal buffer is allocated anew iff the object is valid, the caller brings no buffer
      of its own, and the last one is gone or of another size. */
  lemma ReceiveAllocatesIff(s: Sock, env: Env, max: nat, dest: Option<seq<Byte>>)
    ensures Receive(s, env, max, dest).env.nextBlock == env.nextBlock
              + (if IsValid(s) && dest.None? && (s.buffer.None? || s.bufferSize != max) then 1 else 0)
  {
    hide RetryLoop, PlaceAll, LastSource, SameFrame;
    if IsValid(s) {
      var s0 := s.(received := 0);
      var (s1, e1) := if dest.None? then PrepareBuffer(s0, env, max) else (s0, env);
      if s1.kind in {Tcp, Udp} {
        RetryFrame(Tick(e1), s1.handle, RecvRequestOf(s1, max), 0);
        FrameHeap(Tick(e1), RecvLoop(s1, Tick(e1), max).env);
      }
    }
  }

  /** After a failed Receive the internal buffer is gone, so handing GetData() and
      GetBytesReceived() on to Send never reaches the system, on any script. */
  lemma FailedReceiveSendsNothing(s: Sock, env: Env, max: nat)
    ensures var o := Receive(s, env, max, None);
            o.ret.0 == -1 ==>
              && o.sock.received == -1 && Data(o.sock) == None
              && Send(o.sock, o.env, Data(o.sock), SizeT(o.sock.received)).env == o.env
              && Send(o.sock, o.env, Data(o.sock), SizeT(o.sock.received)).ret == 0
  {
    var o := Receive(s, env, max, None);
    if o.ret.0 == -1 {
      FailedReceiveFrees(s, env, max, None);
      NullSendStops(o.sock, o.env, SizeT(o.sock.received));
    }
  }

  /** A failing Receive frees the internal buffer, also when the caller supplied one. */
  lemma FailedReceiveFrees(s: Sock, env: Env, max: nat, dest: Option<seq<Byte>>)
    ensures var o := Receive(s, env, max, dest);
            o.ret.0 == -1 ==> o.sock.received == -1 && o.sock.buffer == None
  {
  }

  lemma NullSendStops(s: Sock, env: Env, n: nat)
    ensures Send(s, env, None, n).env == env && Send(s, env, None, n).ret == 0
  {
  }

  lemma EmptySendStops(s: Sock, env: Env, buf: Option<seq<Byte>>)
    ensures Send(s, env, buf, 0).env == env && Send(s, env, buf, 0).ret == 0
    ensures Send(s, env, buf, 0).sock == s.(error := Send(s, env, buf, 0).sock.error, sent := 0)
  {
  }

  // --- Flush and Writev

  /** Flush adds nothing to any stream on any path, because its Send has size zero. */
  lemma FlushInvisible(s: Sock, env: Env)
    ensures Flush(s, env).env.io == env.io
    ensures Flush(s, env).env.datagrams == env.datagrams && Flush(s, env).env.pending == env.pending
  {
    var (e1, cur) := GetNoDelayCall(env, s.handle);
    if cur.Some? {
      EmptySendStops(s, SetNoDelayCall(e1, s.handle, 1).0, Some([0]));
    }
  }

  /** TCP_NODELAY ends with its original value iff it was 1, or one of the first two option
      calls failed, or the call that restores it succeeds. */
  lemma FlushRestoresIff(s: Sock, env: Env)
    requires s.handle in env.open
    ensures var f := Flush(s, env);
            var was := env.open[s.handle].noDelay;
            var rest1 := Rest(env.script);
            && s.handle in f.env.open
            && (f.env.open[s.handle].noDelay == was <==>
                  || was == 1
                  || NextReply(env.script).Fail?
                  || NextReply(rest1).Fail?
                  || NextReply(Rest(rest1)).Ok?)
  {
    var (e1, cur) := GetNoDelayCall(env, s.handle);
    if cur.Some? {
      var (e2, _) := SetNoDelayCall(e1, s.handle, 1);
      EmptySendStops(s, e2, Some([0]));
    }
  }

  /** The last option call is refused: Flush has turned TCP_NODELAY on and leaves it on. */
  lemma FlushLeavesNoDelay(s: Sock, env: Env)
    requires s.handle in env.open && env.open[s.handle].noDelay == 0
    requires var ok := Ok(0, false, false, NoError); env.script == [ok, ok, Fail(ENOBUFS)]
    ensures var f := Flush(s, env); s.handle in f.env.open && f.env.open[s.handle].noDelay == 1
  {
    hide Send;
    var e1 := GetNoDelayCall(env, s.handle).0;
    EmptySendStops(s, SetNoDelayCall(e1, s.handle, 1).0, Some([0]));
  }

  /** Flush reports success iff the first two option calls are granted, whatever becomes of the
      last one.  Its error is then that of the `errno` found on entry. */
  lemma FlushTrueIff(s: Sock, env: Env)
    requires s.kind == Tcp
    ensures var f := Flush(s, env);
            && (f.ret <==> s.handle in env.open && ReplyAt(env, s.handle, 0).Ok? && ReplyAt(env, s.handle, 1).Ok?)
            && (f.ret ==> f.sock == s.(error := Translate(env.errno), sent := 0))
            && (!f.ret ==> f.sock == s)
  {
    hide Send, Translate;
    var (e1, cur) := GetNoDelayCall(env, s.handle);
    if cur.Some? {
      EmptySendStops(s, SetNoDelayCall(e1, s.handle, 1).0, Some([0]));
    }
  }

  function Flatten(parts: seq<seq<Byte>>): seq<Byte>
    decreases |parts|
  {
    if parts == [] then [] else parts[0] + Flatten(parts[1..])
  }

  /** No interruption is pending and none is to come. */
  ghost predicate Undisturbed(env: Env) {
    env.errno != EINTR && Fail(EINTR) !in env.script
  }

  lemma UndisturbedAnswer(env: Env, fd: int, req: Request)
    requires Undisturbed(env)
    ensures Answer(env, fd, req) != Fail(EINTR)
    ensures Fail(EINTR) !in Rest(env.script)
  {
    assert env.script != [] ==> env.script[0] in env.script;
    assert forall r :: r in Rest(env.script) ==> r in env.script;
  }

  lemma UndisturbedAttempt(env: Env, fd: int, req: Request, offset: int)
    requires Undisturbed(env)
    ensures Undisturbed(Attempt(env, fd, req, offset).0)
    ensures |RetryLoop(env, fd, req, offset).tries| == 1
    ensures RetryLoop(env, fd, req, offset).env.script == Rest(env.script)
    ensures Undisturbed(RetryLoop(env, fd, req, offset).env)
  {
    hide Attempt, Answer, Translate;
    UndisturbedAnswer(env, fd, req);
    SingleAttemptIff(env, fd, req, offset);
  }

  /** On a stream the override of the passive class changes nothing. */
  lemma StreamSendIsBase(s: Sock, env: Env, buf: Option<seq<Byte>>, n: nat)
    requires s.kind == Tcp
    ensures Send(s, env, buf, n) == BaseSend(s, env, buf, n)
    ensures Send(s, env, buf, n).sock == s.(error := Send(s, env, buf, n).sock.error, sent := Send(s, env, buf, n).ret,
                                            timer := Send(s, env, buf, n).sock.timer)
  {
  }

  /** One stream Send when undisturbed: -1 and no bytes, or the reported prefix. */
  lemma UndisturbedSend(s: Sock, env: Env, data: seq<Byte>)
    requires s.kind == Tcp && Undisturbed(env)
    ensures var o := BaseSend(s, env, Some(data), |data|);
            && -1 <= o.ret <= |data|
            && Undisturbed(o.env)
            && WireOf(o.env.io, s.handle) == WireOf(env.io, s.handle) + (if o.ret >= 0 then data[..o.ret] else [])
  {
    hide RetryLoop, WireOf, SameFrame;
    SendEffect(s, env, Some(data), |data|);
    assert Prefix(data, |data|) == data;
    if ReachesOs(s, Some(data), |data|) {
      UndisturbedAttempt(Tick(env), s.handle, SendRequest(data), 0);
      SingleSend(Tick(env), s.handle, data);
    }
  }

  /** An undisturbed Send of the first `n` bytes of a buffer adds a prefix of them. */
  lemma PartialSend(s: Sock, env: Env, buf: seq<Byte>, n: nat)
    requires s.kind == Tcp && Undisturbed(env) && n <= |buf|
    ensures var o := BaseSend(s, env, Some(buf), n);
            && Undisturbed(o.env)
            && (exists k :: 0 <= k <= n && WireOf(o.env.io, s.handle) == WireOf(env.io, s.handle) + buf[..k])
            && (forall fd :: fd != s.handle ==> WireOf(o.env.io, fd) == WireOf(env.io, fd))
            && (forall fd :: StreamOf(o.env.io, fd) == StreamOf(env.io, fd))
  {
    hide RetryLoop, WireOf, StreamOf;
    SendEffect(s, env, Some(buf), n);
    if ReachesOs(s, Some(buf), n) {
      var data := Prefix(buf, n);
      SameBytes(s, env, buf, n);
      UndisturbedSend(s, env, data);
      var o := BaseSend(s, env, Some(data), |data|);
      var k := if o.ret >= 0 then o.ret else 0;
      assert data[..k] == buf[..k];
      assert o.ret < 0 ==> buf[..k] == [];
    } else {
      assert buf[..0] == [];
      assert WireOf(env.io, s.handle) + buf[..0] == WireOf(env.io, s.handle);
    }
  }

  lemma SameBytes(s: Sock, env: Env, buf: seq<Byte>, n: nat)
    requires n <= |buf|
    ensures BaseSend(s, env, Some(buf), n) == BaseSend(s, env, Some(buf[..n]), n)
  {
    assert Prefix(buf[..n], n) == Prefix(buf, n);
  }

  /** An undisturbed Receive that fails has taken nothing from the stream. */
  lemma FailedReceiveTakesNothing(c: Sock, env: Env, max: nat)
    requires c.kind == Tcp && IsValid(c) && Undisturbed(env)
    ensures var r := Receive(c, env, max, None);
            && r.ret.0 >= -1
            && (r.ret.0 == -1 ==> r.env.open == env.open && forall fd :: WireOf(r.env.io, fd) == WireOf(env.io, fd))
  {
    hide PlaceAll, WireOf, StreamOf, PrepareBuffer;
    var (s1, e1) := PrepareBuffer(c.(received := 0), env, max);
    PrepareTouches(c.(received := 0), env, max);
    UndisturbedAttempt(Tick(e1), s1.handle, RecvRequest(max), 0);
    RecvEffect(s1, Tick(e1), max);
  }

  lemma ReceiveKeepsWire(c: Sock, env: Env, max: nat)
    requires c.kind == Tcp && IsValid(c) && Undisturbed(env)
    ensures var r := Receive(c, env, max, None);
            && r.sock.kind == Tcp && r.sock.handle == c.handle && r.sock.role == c.role
            && Undisturbed(r.env)
            && WireOf(r.env.io, c.handle) == WireOf(env.io, c.handle)
  {
    hide PlaceAll, WireOf, StreamOf, RetryLoop, PrepareBuffer;
    var (s1, e1) := PrepareBuffer(c.(received := 0), env, max);
    PrepareTouches(c.(received := 0), env, max);
    UndisturbedAttempt(Tick(e1), s1.handle, RecvRequest(max), 0);
    RecvEffect(s1, Tick(e1), max);
  }

  /** Each part is the accepted prefix of the buffer at its place. */
  ghost predicate PrefixesOf(parts: seq<seq<Byte>>, bufs: seq<seq<Byte>>) {
    |parts| <= |bufs| && forall i :: 0 <= i < |parts| ==> parts[i] <= bufs[i]
  }

  lemma PrefixesCons(part: seq<Byte>, rest: seq<seq<Byte>>, bufs: seq<seq<Byte>>)
    requires bufs != [] && part <= bufs[0] && PrefixesOf(rest, bufs[1..])
    ensures PrefixesOf([part] + rest, bufs)
    ensures Flatten([part] + rest) == part + Flatten(rest)
  {
    var parts := [part] + rest;
    forall i | 0 <= i < |parts| ensures parts[i] <= bufs[i] {
      if i > 0 {
        assert rest[i - 1] <= bufs[1..][i - 1];
      }
    }
    assert parts[1..] == rest;
  }

  /** Writev over a stream, undisturbed: the wire gains the accepted prefix of each buffer in
      order and the total is its length; a loop that stops early stopped on a failure. */
  lemma {:induction false} SendEachWire(s: Sock, env: Env, bufs: seq<seq<Byte>>, total: int, done: nat)
    returns (parts: seq<seq<Byte>>)
    requires s.kind == Tcp && Undisturbed(env)
    ensures PrefixesOf(parts, bufs)
    ensures var g := SendEach(s, env, bufs, total, done);
            && WireOf(g.env.io, s.handle) == WireOf(env.io, s.handle) + Flatten(parts)
            && g.total == total + |Flatten(parts)|
            && g.done == done + |parts|
            && (|parts| < |bufs| ==> g.sock.sent == SOCKET_ERROR)
    decreases |bufs|
  {
    hide Send, BaseSend, WireOf, Undisturbed;
    parts := [];
    if bufs != [] {
      var data := bufs[0];
      var o := Send(s, env, Some(data), |data|);
      StreamSendIsBase(s, env, Some(data), |data|);
      UndisturbedSend(s, env, data);
      if o.ret >= 0 {
        var rest := SendEachWire(o.sock, o.env, bufs[1..], total + o.ret, done + 1);
        parts := [data[..o.ret]] + rest;
        PrefixesCons(data[..o.ret], rest, bufs);
      }
    }
  }

  /** No short send is followed by a later non-empty one. */
  ghost predicate NoGap(parts: seq<seq<Byte>>, bufs: seq<seq<Byte>>)
    requires |parts| <= |bufs|
  {
    forall i, j :: 0 <= i < j < |parts| && |parts[i]| < |bufs[i]| ==> parts[j] == []
  }

  lemma {:induction false} FlattenEmpty(parts: seq<seq<Byte>>)
    requires forall i :: 0 <= i < |parts| ==> parts[i] == []
    ensures Flatten(parts) == []
    decreases |parts|
  {
    if parts != [] {
      FlattenEmpty(parts[1..]);
    }
  }

  lemma {:induction false} NoGapIsPrefix(parts: seq<seq<Byte>>, bufs: seq<seq<Byte>>)
    requires PrefixesOf(parts, bufs) && NoGap(parts, bufs)
    ensures Flatten(parts) <= Flatten(bufs)
    decreases |parts|
  {
    if parts != [] {
      var p, b := parts[1..], bufs[1..];
      assert parts[0] <= bufs[0];
      if |parts[0]| < |bufs[0]| {
        assert forall i :: 0 <= i < |p| ==> p[i] == parts[i + 1];
        FlattenEmpty(p);
      } else {
        forall i, j | 0 <= i < j < |p| && |p[i]| < |b[i]| ensures p[j] == [] {
          assert p[i] == parts[i + 1] && p[j] == parts[j + 1] && b[i] == bufs[i + 1];
        }
        forall i | 0 <= i < |p| ensures p[i] <= b[i] {
          assert parts[i + 1] <= bufs[i + 1];
        }
        NoGapIsPrefix(p, b);
        assert parts[0] == bufs[0];
      }
    }
  }

  /** No Send of any kind returns less than -1. */
  lemma SendBound(s: Sock, env: Env, buf: Option<seq<Byte>>, n: nat)
    ensures Send(s, env, buf, n).ret >= -1
  {
    hide Attempt, RetryLoop;
    if ReachesOs(s, buf, n) {
      ResultBound(Tick(env), s.handle, SendRequestOf(s, Prefix(buf.value, n)), 0);
    }
  }

  lemma {:induction false} ResultBound(env: Env, fd: int, req: Request, offset: int)
    ensures forall t :: t in RetryLoop(env, fd, req, offset).tries ==> t.result >= -1
    decreases |env.script|
  {
    hide Attempt, Translate;
    var (e, t) := Attempt(env, fd, req, offset);
    if Translate(e.errno) == Interrupted {
      InterruptedConsumes(env, fd, req, offset);
      ResultBound(e, fd, req, NextOffset(t));
    }
  }

  lemma {:induction false} SendEachTotal(s: Sock, env: Env, bufs: seq<seq<Byte>>, total: nat, done: nat)
    ensures SendEach(s, env, bufs, total, done).total >= total
    decreases |bufs|
  {
    hide Send;
    if bufs != [] {
      var o := Send(s, env, Some(bufs[0]), |bufs[0]|);
      SendBound(s, env, Some(bufs[0]), |bufs[0]|);
      if o.ret != SOCKET_ERROR {
        SendEachTotal(o.sock, o.env, bufs[1..], total + o.ret, done + 1);
      }
    }
  }

  /** Where the vector goes through the library's own Writev, it never returns the -1 that the
      documentation gives for errors, whatever the socket and the replies: its failures cannot
      be told from short sends. */
  lemma VectorNeverFails(s: Sock, env: Env, bufs: seq<seq<Byte>>)
    ensures SendVector(s, env, bufs).ret >= 0
  {
    hide SendEach, Flush;
    SendEachTotal(s.(error := Success, sent := 0), env, bufs, 0, 0);
  }

  /** Undisturbed, the vector send refines one flat send, and the reported count is the
      returned total even though Flush resets it on the way. */
  lemma VectorRefinesFlat(s: Sock, env: Env, bufs: seq<seq<Byte>>) returns (parts: seq<seq<Byte>>)
    requires s.kind == Tcp && Undisturbed(env)
    ensures var o := SendVector(s, env, bufs);
            && PrefixesOf(parts, bufs)
            && WireOf(o.env.io, s.handle) == WireOf(env.io, s.handle) + Flatten(parts)
            && o.ret == o.sock.sent == |Flatten(parts)|
            && (NoGap(parts, bufs) ==> Flatten(parts) <= Flatten(bufs))
            && (parts == bufs ==> o.ret == |Flatten(bufs)|)
  {
    var s0 := s.(error := Success, sent := 0);
    var g := SendEach(s0, env, bufs, 0, 0);
    parts := SendEachWire(s0, env, bufs, 0, 0);
    FlushInvisible(g.sock, g.env);
    if NoGap(parts, bufs) {
      NoGapIsPrefix(parts, bufs);
    }
  }

  /** The system accepts as many sends as there are buffers, each in full. */
  ghost predicate Granting(env: Env, fd: int, bufs: seq<seq<Byte>>) {
    && fd in env.open && env.errno != EINTR && |bufs| <= |env.script|
    && forall i, j :: 0 <= i < |bufs| && 0 <= j < |bufs| ==>
         Grants(env.script[i], bufs[j])
  }

  ghost predicate Grants(reply: Reply, data: seq<Byte>) {
    reply.Ok? && |data| <= reply.n
  }

  lemma GrantedSend(s: Sock, env: Env, bufs: seq<seq<Byte>>)
    requires s.kind == Tcp && IsValid(s) && bufs != [] && Granting(env, s.handle, bufs)
    ensures var o := BaseSend(s, env, Some(bufs[0]), |bufs[0]|);
            && o.ret == |bufs[0]| && Granting(o.env, s.handle, bufs[1..])
            && WireOf(o.env.io, s.handle) == WireOf(env.io, s.handle) + bufs[0]
  {
    hide WireOf, RetryLoop, Granting;
    var data := bufs[0];
    GrantingShifts(env, s.handle, bufs);
    if data == [] {
      assert WireOf(env.io, s.handle) + data == WireOf(env.io, s.handle);
    } else {
      assert Prefix(data, |data|) == data;
      SendDeliversOnceIff(s, env, data);
      GrantedAttempt(Tick(env), s.handle, data);
      GrantingDepends(env, BaseSend(s, env, Some(data), |data|).env, s.handle, bufs);
      assert data[..|data|] == data;
    }
  }

  lemma GrantingShifts(env: Env, fd: int, bufs: seq<seq<Byte>>)
    requires bufs != [] && Granting(env, fd, bufs)
    ensures Granting(env, fd, bufs[1..])
    ensures fd in env.open && env.errno != EINTR
    ensures env.script != [] && env.script[0].Ok? && |bufs[0]| <= env.script[0].n
  {
    assert Grants(env.script[0], bufs[0]);
    var rest := bufs[1..];
    forall i, j | 0 <= i < |rest| && 0 <= j < |rest| ensures Grants(env.script[i], rest[j]) {
      assert rest[j] == bufs[j + 1] && Grants(env.script[i], bufs[j + 1]);
    }
  }

  lemma GrantingDepends(env: Env, e: Env, fd: int, bufs: seq<seq<Byte>>)
    requires bufs != [] && Granting(env, fd, bufs)
    requires fd in e.open && e.errno == env.errno && e.script == env.script[1..]
    ensures Granting(e, fd, bufs[1..])
  {
    var rest := bufs[1..];
    forall i, j | 0 <= i < |rest| && 0 <= j < |rest| ensures Grants(e.script[i], rest[j]) {
      assert rest[j] == bufs[j + 1] && e.script[i] == env.script[i + 1];
      assert Grants(env.script[i + 1], bufs[j + 1]);
    }
  }

  lemma GrantedAttempt(env: Env, fd: int, data: seq<Byte>)
    requires fd in env.open && env.errno != EINTR
    requires env.script != [] && env.script[0].Ok? && |data| <= env.script[0].n
    ensures var r := RetryLoop(env, fd, SendRequest(data), 0);
            && |r.tries| == 1 && Last(r.tries).result == |data|
            && r.env == env.(script := env.script[1..], io := r.env.io)
  {
  }

  /** With a granting system the whole vector is on the wire, in order and once. */
  lemma {:induction false} GrantedVectorSendsAll(s: Sock, env: Env, bufs: seq<seq<Byte>>, total: int, done: nat)
    requires s.kind == Tcp && IsValid(s) && Granting(env, s.handle, bufs)
    ensures var g := SendEach(s, env, bufs, total, done);
            && WireOf(g.env.io, s.handle) == WireOf(env.io, s.handle) + Flatten(bufs)
            && g.total == total + |Flatten(bufs)| && g.done == done + |bufs|
    decreases |bufs|
  {
    hide Send, BaseSend, WireOf, Granting;
    if bufs != [] {
      var data := bufs[0];
      var o := Send(s, env, Some(data), |data|);
      StreamSendIsBase(s, env, Some(data), |data|);
      GrantedSend(s, env, bufs);
      GrantedVectorSendsAll(o.sock, o.env, bufs[1..], total + o.ret, done + 1);
      assert (WireOf(env.io, s.handle) + data) + Flatten(bufs[1..]) == WireOf(env.io, s.handle) + Flatten(bufs);
    }
  }

  // --- Flush at the end of a vector

  /** How many of the buffers a granting system is asked to send. */
  function NonEmpty(bufs: seq<seq<Byte>>): (n: nat)
    ensures n <= |bufs|
    decreases |bufs|
  {
    if bufs == [] then 0 else (if bufs[0] == [] then 0 else 1) + NonEmpty(bufs[1..])
  }

  lemma GrantedSendUses(s: Sock, env: Env, bufs: seq<seq<Byte>>)
    requires s.kind == Tcp && IsValid(s) && bufs != [] && Granting(env, s.handle, bufs)
    ensures var o := BaseSend(s, env, Some(bufs[0]), |bufs[0]|);
            && o.env.open == env.open && o.env.errno == env.errno
            && o.env.script == env.script[if bufs[0] == [] then 0 else 1..]
  {
    hide RetryLoop, Granting;
    var data := bufs[0];
    GrantingShifts(env, s.handle, bufs);
    if data != [] {
      assert Prefix(data, |data|) == data;
      GrantedAttempt(Tick(env), s.handle, data);
    }
  }

  /** What the loop of Writev leaves when the system grants every buffer. */
  lemma {:induction false} GrantedVectorUses(s: Sock, env: Env, bufs: seq<seq<Byte>>, total: int, done: nat)
    requires s.kind == Tcp && IsValid(s) && Granting(env, s.handle, bufs)
    ensures var g := SendEach(s, env, bufs, total, done);
            && g.env.open == env.open && g.env.errno == env.errno
            && g.env.script == env.script[NonEmpty(bufs)..]
            && g.done == done + |bufs|
            && g.sock.kind == Tcp && g.sock.handle == s.handle
    decreases |bufs|
  {
    hide Send, BaseSend, WireOf, Granting;
    if bufs != [] {
      GrantingLength(env, s.handle, bufs);
      var data := bufs[0];
      var o := Send(s, env, Some(data), |data|);
      StreamSendIsBase(s, env, Some(data), |data|);
      GrantedSend(s, env, bufs);
      GrantedSendUses(s, env, bufs);
      GrantedVectorUses(o.sock, o.env, bufs[1..], total + o.ret, done + 1);
      TailOfTail(env.script, if data == [] then 0 else 1, NonEmpty(bufs[1..]));
    }
  }

  lemma GrantingLength(env: Env, fd: int, bufs: seq<seq<Byte>>)
    requires Granting(env, fd, bufs)
    ensures |bufs| <= |env.script| && fd in env.open
  {
  }

  lemma TailOfTail<T>(s: seq<T>, i: nat, j: nat)
    requires i + j <= |s|
    ensures s[i..][j..] == s[i + j..]
  {
  }

  /** After a vector of which every buffer was granted, TCP_NODELAY has been switched on and back
      by the three calls that follow the sends: it ends with another value iff the first two of
      these are granted and the last is refused.  An empty vector makes no call at all. */
  lemma GrantedVectorFlushes(s: Sock, env: Env, bufs: seq<seq<Byte>>)
    requires s.kind == Tcp && IsValid(s) && Granting(env, s.handle, bufs)
    ensures var o := SendVector(s, env, bufs);
            var j := NonEmpty(bufs);
            var was := env.open[s.handle].noDelay;
            && s.handle in o.env.open
            && (bufs == [] ==> o.env == env)
            && (bufs != [] ==>
                  (o.env.open[s.handle].noDelay != was <==>
                     && was != 1
                     && ReplyAt(env, s.handle, j).Ok? && ReplyAt(env, s.handle, j + 1).Ok?
                     && ReplyAt(env, s.handle, j + 2).Fail?))
  {
    hide SendEach, Flush, Granting;
    GrantingLength(env, s.handle, bufs);
    var s0 := s.(error := Success, sent := 0);
    GrantedVectorUses(s0, env, bufs, 0, 0);
    if bufs == [] {
      NothingToSend(s0, env);
    } else {
      var g := SendEach(s0, env, bufs, 0, 0);
      FlushRestoresIff(g.sock, g.env);
      LaterReplies(env, s.handle, g.env, NonEmpty(bufs));
    }
  }

  lemma NothingToSend(s: Sock, env: Env)
    ensures SendEach(s, env, [], 0, 0) == Gather(s, env, 0, 0)
  {
  }

  lemma LaterReplies(env: Env, fd: int, e: Env, j: nat)
    requires fd in env.open && e.open == env.open && j <= |env.script| && e.script == env.script[j..]
    ensures NextReply(e.script) == ReplyAt(env, fd, j)
    ensures NextReply(Rest(e.script)) == ReplyAt(env, fd, j + 1)
    ensures NextReply(Rest(Rest(e.script))) == ReplyAt(env, fd, j + 2)
  {
  }

  /** A vector whose first Send fails is not flushed: the descriptor table stays as that Send
      leaves it, and 0 is reported together with the error of the failure. */
  lemma FailedVectorStops(s: Sock, env: Env, bufs: seq<seq<Byte>>)
    requires s.kind == Tcp && bufs != [] && Send(s, env, Some(bufs[0]), |bufs[0]|).ret == SOCKET_ERROR
    ensures var o := SendVector(s, env, bufs);
            var first := Send(s, env, Some(bufs[0]), |bufs[0]|);
            && o.ret == 0 && o.sock.sent == 0 && o.env == first.env
            && o.sock.error == first.sock.error
  {
    hide RetryLoop;
    StreamSendIsBase(s, env, Some(bufs[0]), |bufs[0]|);
  }
}
