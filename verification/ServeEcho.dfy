/** The loop of examples/EchoServer.cpp: accept a connection, echo what one Receive yields,
    close, delete, and so on for ever.  `Serve(s, env, n)` is the run up to the n-th time the
    loop head is reached again. */
module ServeEcho {
  import opened Posix
  import opened Retry
  import opened SocketModel
  import opened Lifecycle
  import opened Setup
  import opened Transfers

  const MAX_PACKET: nat := 4096

  /** What is done with an accepted client, up to and including `delete`. */
  function ServeClient(c: Sock, env: Env): Env {
    var r := Receive(c, env, MAX_PACKET, None);
    if r.ret.0 != 0 then
      var o := Send(r.sock, r.env, Data(r.sock), SizeT(r.sock.received));
      var closed := Close(o.sock, o.env);
      Destroy(closed.sock, closed.env)
    else
      Destroy(r.sock, r.env)
  }

  /** One pass through the loop body. */
  function ServeOne(s: Sock, env: Env): (Sock, Env) {
    var a := Accept(s, env);
    (a.listener, if a.client.Some? then ServeClient(a.client.value, a.env) else a.env)
  }

  function Serve(s: Sock, env: Env, n: nat): (Sock, Env)
    decreases n
  {
    if n == 0 then (s, env)
    else var (s1, e1) := ServeOne(s, env); Serve(s1, e1, n - 1)
  }

  // --- One client

  /** What one client costs: at the end its descriptor has been closed by exactly one
      successful call, or is still open because every close call failed. */
  ghost predicate ClosedOnce(a: Env, b: Env, fd: int) {
    && b.nextFd == a.nextFd
    && (forall other :: other != fd ==> b.closed[other] == a.closed[other] && b.closeFailures[other] == a.closeFailures[other])
    && (|| (b.open.Keys == a.open.Keys - {fd} && b.closed[fd] == a.closed[fd] + 1)
        || (b.open.Keys == a.open.Keys && b.closed[fd] == a.closed[fd] && b.closeFailures[fd] > a.closeFailures[fd]))
  }

  lemma CloseValid(c: Sock, env: Env)
    requires IsValid(c) && c.handle in env.open
    ensures var o := Close(c, env);
            && ClosedOnce(env, o.env, c.handle)
            && o.env.io == env.io
            && o.sock.role == c.role && o.sock.buffer == None
            && (if o.ret then o.sock.handle == INVALID_SOCKET && o.env.closed[c.handle] == env.closed[c.handle] + 1
                         && o.env.open.Keys == env.open.Keys - {c.handle}
                else o.sock.handle == c.handle && o.env.open.Keys == env.open.Keys
                     && o.env.closed[c.handle] == env.closed[c.handle])
  {
  }

  lemma DestroyInvalid(c: Sock, env: Env)
    requires !IsValid(c) && c.buffer == None
    ensures Destroy(c, env) == env
  {
  }

  lemma DestroyValid(c: Sock, env: Env)
    requires c.role.Active?
    requires IsValid(c) && c.handle in env.open
    ensures ClosedOnce(env, Destroy(c, env), c.handle) && Destroy(c, env).io == env.io
  {
    CloseValid(c, env);
  }

  /** Closing and then deleting closes at most once more, and only after a failure. */
  lemma CloseAndDestroy(c: Sock, env: Env)
    requires c.role.Active? && IsValid(c) && c.handle in env.open
    ensures var o := Close(c, env);
            ClosedOnce(env, Destroy(o.sock, o.env), c.handle) && Destroy(o.sock, o.env).io == env.io
  {
    hide Close, Destroy;
    var o := Close(c, env);
    CloseValid(c, env);
    if o.ret {
      DestroyInvalid(o.sock, o.env);
    } else {
      DestroyValid(o.sock, o.env);
    }
  }

  /** A stage that neither opens nor closes. */
  ghost predicate SameDescriptors(a: Env, b: Env) {
    a.nextFd == b.nextFd && a.open.Keys == b.open.Keys && a.closed == b.closed && a.closeFailures == b.closeFailures
  }

  lemma ReceiveDescriptors(c: Sock, env: Env, max: nat)
    ensures var r := Receive(c, env, max, None);
            SameDescriptors(env, r.env) && r.sock.handle == c.handle && r.sock.role == c.role && r.sock.kind == c.kind
  {
    hide Receive;
    ReceiveKeepsHandle(World(c, env), max, None);
  }

  lemma ClosedOnceAfter(a: Env, b: Env, c: Env, fd: int)
    requires SameDescriptors(a, b) && ClosedOnce(b, c, fd)
    ensures ClosedOnce(a, c, fd)
  {
  }

  lemma ServeClientCloses(c: Sock, env: Env)
    requires c.role.Active? && IsValid(c) && c.handle in env.open
    ensures ClosedOnce(env, ServeClient(c, env), c.handle)
  {
    hide Receive, Send, Close, Destroy;
    var r := Receive(c, env, MAX_PACKET, None);
    ReceiveDescriptors(c, env, MAX_PACKET);
    assert c.handle in r.env.open.Keys;
    if r.ret.0 != 0 {
      var o := Send(r.sock, r.env, Data(r.sock), SizeT(r.sock.received));
      SendQuiet(r.sock, r.env, Data(r.sock), SizeT(r.sock.received));
      assert c.handle in o.env.open.Keys;
      CloseAndDestroy(o.sock, o.env);
      ClosedOnceAfter(env, o.env, ServeClient(c, env), c.handle);
    } else {
      DestroyValid(r.sock, r.env);
      ClosedOnceAfter(env, r.env, ServeClient(c, env), c.handle);
    }
  }

  // --- The heap

  /** Nothing that was live is gone, nothing new is live, and what was allocated meanwhile has
      been freed exactly once. */
  ghost predicate HeapBack(a: Env, b: Env) {
    && b.live == a.live && a.nextBlock <= b.nextBlock
    && (forall id :: 0 <= id < a.nextBlock ==> b.freed[id] == a.freed[id])
    && (forall id :: a.nextBlock <= id < b.nextBlock ==> b.freed[id] == 1)
    && (forall id :: b.nextBlock <= id ==> b.freed[id] == 0)
  }

  lemma DestroyFrees(w: World, origin: Env)
    requires BufferOwned(w, origin)
    ensures HeapBack(origin, Destroy(w.sock, w.env))
  {
    hide Close, Release;
    CloseKeepsBuffer(w, origin);
    var c := Close(w.sock, w.env);
    ReleaseKeepsBuffer(if w.sock.role.Simple? then w else World(c.sock, c.env), origin);
  }

  lemma ServeClientFrees(c: Sock, env: Env)
    requires c.buffer == None
    requires forall id :: id in env.live ==> id < env.nextBlock
    requires forall id :: env.nextBlock <= id ==> env.freed[id] == 0
    ensures HeapBack(env, ServeClient(c, env))
  {
    hide Receive, Send, Close, Destroy;
    assert BufferOwned(World(c, env), env);
    var r := Receive(c, env, MAX_PACKET, None);
    ReceiveKeepsBuffer(World(c, env), MAX_PACKET, None, env);
    if r.ret.0 != 0 {
      var o := Send(r.sock, r.env, Data(r.sock), SizeT(r.sock.received));
      SendQuiet(r.sock, r.env, Data(r.sock), SizeT(r.sock.received));
      QuietKeepsBuffer(World(r.sock, r.env), World(o.sock, o.env), env);
      CloseKeepsBuffer(World(o.sock, o.env), env);
      var closed := Close(o.sock, o.env);
      DestroyFrees(World(closed.sock, closed.env), env);
    } else {
      DestroyFrees(World(r.sock, r.env), env);
    }
  }

  // --- What is echoed

  lemma CloseUndisturbed(c: Sock, env: Env)
    requires Undisturbed(env)
    ensures Undisturbed(Close(c, env).env) && Close(c, env).env.io == env.io
  {
    hide CloseCall, Undisturbed;
    var (s1, e1) := Release(c, env);
    assert Undisturbed(e1) by {
      SameDisturbance(env, e1);
    }
    CloseCallUndisturbed(e1, c.handle);
  }

  lemma SameDisturbance(a: Env, b: Env)
    requires Undisturbed(a) && a.errno == b.errno && a.script == b.script
    ensures Undisturbed(b)
  {
  }

  lemma CloseCallUndisturbed(env: Env, fd: int)
    requires Undisturbed(env)
    ensures Undisturbed(CloseCall(env, fd).0) && CloseCall(env, fd).0.io == env.io
  {
    assert env.script != [] ==> env.script[0] in env.script;
    assert forall r :: r in Rest(env.script) ==> r in env.script;
  }

  lemma DestroyUndisturbed(c: Sock, env: Env)
    requires Undisturbed(env)
    ensures Undisturbed(Destroy(c, env)) && Destroy(c, env).io == env.io
  {
    hide Close;
    CloseUndisturbed(c, env);
  }

  lemma ReceiveTrace(c: Sock, env: Env, max: nat)
    requires c.kind == Tcp
    ensures var r := Receive(c, env, max, None);
            && (forall fd :: WireOf(r.env.io, fd) == WireOf(env.io, fd))
            && (forall fd :: fd != c.handle ==> StreamOf(r.env.io, fd) == StreamOf(env.io, fd))
            && (r.ret.0 != -1 && r.ret.0 != 0 ==> r.ret.0 > 0)
  {
    hide RetryLoop, PlaceAll, WireOf, StreamOf, PrepareBuffer;
    var s0 := c.(received := 0);
    if IsValid(s0) {
      var (s1, e1) := PrepareBuffer(s0, env, max);
      PrepareTouches(s0, env, max);
      RecvEffect(s1, Tick(e1), max);
      RetryTrace(Tick(e1), s1.handle, RecvRequest(max), 0);
      ResultBound(Tick(e1), s1.handle, RecvRequest(max), 0);
    }
  }

  /** Undisturbed, what is written to a client is a prefix of what was read from it. */
  lemma ServeClientEchoes(c: Sock, env: Env)
    requires c.kind == Tcp && IsValid(c) && c.handle in env.open && c.buffer == None
    requires Undisturbed(env)
    requires WireOf(env.io, c.handle) == [] && StreamOf(env.io, c.handle) == []
    ensures var e := ServeClient(c, env);
            && WireOf(e.io, c.handle) <= StreamOf(e.io, c.handle)
            && (forall fd :: fd != c.handle ==> WireOf(e.io, fd) == WireOf(env.io, fd) && StreamOf(e.io, fd) == StreamOf(env.io, fd))
            && Undisturbed(e)
  {
    hide Receive, Send, BaseSend, Close, Destroy, WireOf, StreamOf;
    var r := Receive(c, env, MAX_PACKET, None);
    ReceiveKeepsWire(c, env, MAX_PACKET);
    ReceiveTrace(c, env, MAX_PACKET);
    ReceiveDescriptors(c, env, MAX_PACKET);
    if r.ret.0 == 0 {
      DestroyUndisturbed(r.sock, r.env);
    } else {
      var n := SizeT(r.sock.received);
      var o := Send(r.sock, r.env, Data(r.sock), n);
      var closed := Close(o.sock, o.env);
      if r.ret.0 == -1 {
        FailedReceiveSendsNothing(c, env, MAX_PACKET);
      } else {
        ReceivePlacesStream(c, env, MAX_PACKET);
        var buf := Data(r.sock).value;
        StreamSendIsBase(r.sock, r.env, Some(buf), n);
        PartialSend(r.sock, r.env, buf, n);
      }
      CloseUndisturbed(o.sock, o.env);
      DestroyUndisturbed(closed.sock, closed.env);
    }
  }

  /** If the receive and the send are granted, the client gets back exactly what the receive
      yielded: up to 4096 bytes from the front of its stream. */
  lemma ServeClientEchoesAll(c: Sock, env: Env)
    requires c.kind == Tcp && IsValid(c) && c.handle in env.open && c.buffer == None
    requires env.errno != EINTR && |env.script| >= 2 && env.script[0].Ok? && env.script[1].Ok?
    requires env.script[0].n > 0 && env.open[c.handle].inbound != [] && env.script[1].n >= MAX_PACKET
    ensures var k := Min(Min(env.script[0].n, 4096), |env.open[c.handle].inbound|);
            && k > 0
            && WireOf(ServeClient(c, env).io, c.handle)
                 == WireOf(env.io, c.handle) + env.open[c.handle].inbound[..k]
  {
    hide Receive, Send, BaseSend, Close, Destroy, WireOf, StreamOf;
    var k := Min(Min(env.script[0].n, MAX_PACKET), |env.open[c.handle].inbound|);
    var r := Receive(c, env, MAX_PACKET, None);
    GrantedReceive(c, env, MAX_PACKET);
    ReceivePlacesStream(c, env, MAX_PACKET);
    ReceiveTrace(c, env, MAX_PACKET);
    ReceiveDescriptors(c, env, MAX_PACKET);
    var buf := Data(r.sock).value;
    var data := buf[..k];
    var o := Send(r.sock, r.env, Some(buf), k);
    StreamSendIsBase(r.sock, r.env, Some(buf), k);
    SameBytes(r.sock, r.env, buf, k);
    assert c.handle in r.env.open.Keys;
    assert Granting(r.env, c.handle, [data]);
    GrantedSend(r.sock, r.env, [data]);
    var closed := Close(o.sock, o.env);
    CloseKeepsIo(o.sock, o.env);
    DestroyKeepsIo(closed.sock, closed.env);
  }

  lemma GrantedReceive(c: Sock, env: Env, max: nat)
    requires c.kind == Tcp && IsValid(c) && c.handle in env.open
    requires env.errno != EINTR && env.script != [] && env.script[0].Ok?
    ensures var r := Receive(c, env, max, None);
            && r.ret.0 == Min(Min(env.script[0].n, max), |env.open[c.handle].inbound|)
            && r.env.errno == env.errno && r.env.script == env.script[1..]
  {
    hide PlaceAll, PrepareBuffer;
    var s0 := c.(received := 0);
    var (s1, e1) := PrepareBuffer(s0, env, max);
    PrepareTouches(s0, env, max);
    SingleAttemptIff(Tick(e1), s1.handle, RecvRequest(max), 0);
  }

  lemma CloseKeepsIo(c: Sock, env: Env)
    ensures Close(c, env).env.io == env.io
  {
  }

  lemma DestroyKeepsIo(c: Sock, env: Env)
    ensures Destroy(c, env).io == env.io
  {
    hide Close;
    CloseKeepsIo(c, env);
  }

  // --- Every run of the server

  ghost predicate Listening(s: Sock, env: Env) {
    s.kind == Tcp && s.handle in env.open && IsValid(s)
  }

  /** What the loop keeps, relative to the environment `a` at an earlier loop head: every
      descriptor accepted since then has been closed by exactly one successful call, or is
      open because all its close calls failed; older descriptors and the heap are as then. */
  ghost predicate Conserved(a: Env, b: Env) {
    && a.nextFd <= b.nextFd
    && (forall fd :: a.nextFd <= fd < b.nextFd ==>
          || (fd !in b.open && b.closed[fd] == 1)
          || (fd in b.open && b.closed[fd] == 0 && b.closeFailures[fd] > 0))
    && (forall fd :: fd < a.nextFd ==>
          && (fd in b.open <==> fd in a.open)
          && b.closed[fd] == a.closed[fd] && b.closeFailures[fd] == a.closeFailures[fd])
    && HeapBack(a, b)
  }

  lemma ServeOneConserves(s: Sock, env: Env)
    requires Listening(s, env) && ValidEnv(env)
    ensures var (s1, e1) := ServeOne(s, env);
            Listening(s1, e1) && ValidEnv(e1) && Conserved(env, e1)
  {
    hide Accept, ServeClient, LeadingInterrupts;
    AcceptExactlyOnce(s, env);
    var a := Accept(s, env);
    if a.client.Some? {
      var c := a.client.value;
      ServeClientCloses(c, a.env);
      ServeClientFrees(c, a.env);
    }
  }

  lemma ConservedTransitive(a: Env, b: Env, c: Env)
    requires Conserved(a, b) && Conserved(b, c)
    ensures Conserved(a, c)
  {
  }

  /** Every run of the server, with any answers from the system: at each loop head the
      descriptors are conserved and the heap is as at the start. */
  lemma {:induction false} ServerConserves(s: Sock, env: Env, n: nat)
    requires Listening(s, env) && ValidEnv(env)
    ensures var (s1, e1) := Serve(s, env, n);
            Listening(s1, e1) && ValidEnv(e1) && Conserved(env, e1)
    decreases n
  {
    hide ServeOne;
    if n > 0 {
      var (s1, e1) := ServeOne(s, env);
      ServeOneConserves(s, env);
      ServerConserves(s1, e1, n - 1);
      ConservedTransitive(env, e1, Serve(s, env, n).1);
    }
  }

  /** If no close failed, only the descriptors of the start are open, the listener's among
      them, and each accepted one was closed exactly once. */
  lemma ServerLeaksNothing(s: Sock, env: Env, n: nat)
    requires Listening(s, env) && ValidEnv(env)
    ensures var e := Serve(s, env, n).1;
            e.closeFailures == env.closeFailures ==>
              && e.open.Keys == env.open.Keys
              && forall fd :: env.nextFd <= fd < e.nextFd ==> e.closed[fd] == 1
  {
    hide Serve;
    ServerConserves(s, env, n);
    var e := Serve(s, env, n).1;
    if e.closeFailures == env.closeFailures {
      forall fd ensures fd in e.open.Keys <==> fd in env.open.Keys {
        if env.nextFd <= fd < e.nextFd {
          assert e.closeFailures[fd] == 0;
        }
      }
    }
  }

  // --- What every client gets

  ghost predicate NoTrafficAhead(env: Env) {
    forall fd :: env.nextFd <= fd ==> WireOf(env.io, fd) == [] && StreamOf(env.io, fd) == []
  }

  ghost predicate EchoesPrefix(env: Env, from: int) {
    forall fd :: from <= fd < env.nextFd ==> WireOf(env.io, fd) <= StreamOf(env.io, fd)
  }

  lemma AcceptTrace(s: Sock, env: Env)
    requires s.kind == Tcp
    ensures var a := Accept(s, env);
            forall fd :: WireOf(a.env.io, fd) == WireOf(env.io, fd) && StreamOf(a.env.io, fd) == StreamOf(env.io, fd)
  {
    hide ClearedLoop, WireOf, StreamOf;
    var e := Tick(env);
    ClearedExactlyOnce(e, s.handle, AcceptRequest);
    ClearedRequests(e, s.handle, AcceptRequest);
    TraceAppend(env.io, s.handle, AcceptRequest, ClearedLoop(e, s.handle, AcceptRequest).tries);
  }

  lemma AcceptUndisturbed(s: Sock, env: Env)
    requires s.kind == Tcp && Fail(EINTR) !in env.script
    ensures Undisturbed(Accept(s, env).env)
  {
    hide ClearedLoop, Translate;
    ClearedExactlyOnce(Tick(env), s.handle, AcceptRequest);
    ClearedScript(Tick(env), s.handle, AcceptRequest);
    var e0 := ClearedLoop(Tick(env), s.handle, AcceptRequest).env;
    PlainUndisturbed(e0, s.handle);
    PlainUndisturbed(PlainCall(e0, s.handle).0, s.handle);
  }

  lemma PlainUndisturbed(env: Env, fd: int)
    requires Undisturbed(env)
    ensures Undisturbed(PlainCall(env, fd).0) && Undisturbed(NameCall(env, fd).0)
  {
    assert env.script != [] ==> env.script[0] in env.script;
    assert forall r :: r in Rest(env.script) ==> r in env.script;
  }

  lemma {:induction false} ClearedScript(env: Env, fd: int, req: Request)
    requires Fail(EINTR) !in env.script
    ensures Fail(EINTR) !in ClearedLoop(env, fd, req).env.script
    decreases |env.script|
  {
    var cleared := env.(errno := NoError);
    UndisturbedAttempt(cleared, fd, req, 0);
  }

  /** Over every interruption-free run of the server, what each client is sent is a prefix of
      what was received from that client. */
  lemma {:induction false} ServerEchoes(s: Sock, env: Env, n: nat, from: int)
    requires Listening(s, env) && ValidEnv(env)
    requires Fail(EINTR) !in env.script && NoTrafficAhead(env) && EchoesPrefix(env, from)
    ensures EchoesPrefix(Serve(s, env, n).1, from)
    decreases n
  {
    hide ServeOne;
    if n > 0 {
      var (s1, e1) := ServeOne(s, env);
      ServeOneConserves(s, env);
      ServeOneEchoes(s, env, from);
      ServerEchoes(s1, e1, n - 1, from);
    }
  }

  lemma ServeOneEchoes(s: Sock, env: Env, from: int)
    requires Listening(s, env) && ValidEnv(env)
    requires Fail(EINTR) !in env.script && NoTrafficAhead(env) && EchoesPrefix(env, from)
    ensures var e1 := ServeOne(s, env).1;
            Fail(EINTR) !in e1.script && NoTrafficAhead(e1) && EchoesPrefix(e1, from)
  {
    hide Accept, ServeClient, LeadingInterrupts, WireOf, StreamOf;
    AcceptExactlyOnce(s, env);
    AcceptTrace(s, env);
    AcceptUndisturbed(s, env);
    var a := Accept(s, env);
    if a.client.Some? {
      var c := a.client.value;
      ServeClientEchoes(c, a.env);
      ServeClientCloses(c, a.env);
    }
  }

  // --- A run in which the system cooperates

  /** At least `calls` replies, each granting as much as the server ever asks for. */
  ghost predicate Generous(env: Env, calls: nat) {
    calls <= |env.script| && forall i :: 0 <= i < |env.script| ==> env.script[i].Ok? && env.script[i].n >= MAX_PACKET
  }

  lemma GenerousRest(a: Env, b: Env, calls: nat, used: nat)
    requires Generous(a, calls + used) && b.script == a.script[used..]
    ensures Generous(b, calls)
  {
    assert forall i :: 0 <= i < |b.script| ==> b.script[i] == a.script[i + used];
  }

  lemma GenerousFirst(env: Env, calls: nat)
    requires Generous(env, calls) && calls > 0
    ensures env.script != [] && env.script[0].Ok? && env.script[0].n >= MAX_PACKET
    ensures LeadingInterrupts(env.script) == 0
  {
  }

  /** The front of a client's stream that one Receive of the server takes. */
  function Taken(stream: seq<Byte>): seq<Byte> {
    stream[..Min(4096, |stream|)]
  }

  /** What a granted Receive of the server leaves. */
  lemma GenerousReceive(c: Sock, env: Env, calls: nat)
    requires c.kind == Tcp && IsValid(c) && c.handle in env.open && c.buffer == None
    requires env.errno == NoError && Generous(env, calls + 1)
    ensures var r := Receive(c, env, MAX_PACKET, None);
            var data := Taken(env.open[c.handle].inbound);
            && r.ret.0 == |data| == r.sock.received && r.sock.kind == Tcp && r.sock.handle == c.handle
            && r.sock.role == c.role
            && Data(r.sock).Some? && |data| <= |Data(r.sock).value| && Data(r.sock).value[..|data|] == data
            && r.env.errno == NoError && Generous(r.env, calls)
            && r.env.pending == env.pending && r.env.nextFd == env.nextFd
            && r.env.open.Keys == env.open.Keys
            && (forall fd :: fd in env.open && fd != c.handle ==> r.env.open[fd] == env.open[fd])
            && (forall fd :: WireOf(r.env.io, fd) == WireOf(env.io, fd))
  {
    hide Receive, WireOf, StreamOf, Generous, RetryLoop;
    GenerousFirst(env, calls + 1);
    GrantedReceive(c, env, MAX_PACKET);
    ReceivePlacesStream(c, env, MAX_PACKET);
    ReceiveTrace(c, env, MAX_PACKET);
    ReceiveDescriptors(c, env, MAX_PACKET);
    GenerousRest(env, Receive(c, env, MAX_PACKET, None).env, calls, 1);
    var at := ReceiveIsLoop(c, env, MAX_PACKET, None);
    ReceiveElsewhere(c, env, MAX_PACKET);
  }

  /** A Receive touches no other descriptor and no waiting connection. */
  lemma ReceiveElsewhere(c: Sock, env: Env, max: nat)
    requires c.kind == Tcp && IsValid(c)
    ensures var e := Receive(c, env, max, None).env;
            && e.pending == env.pending
            && (forall fd :: fd in env.open && fd in e.open && fd != c.handle ==> e.open[fd] == env.open[fd])
  {
    hide RetryLoop, PlaceAll, PrepareBuffer, SameFrame;
    var s0 := c.(received := 0);
    var (s1, e1) := PrepareBuffer(s0, env, max);
    PrepareTouches(s0, env, max);
    RecvElsewhere(Tick(e1), c.handle, max, 0);
    RetryFrame(Tick(e1), c.handle, RecvRequest(max), 0);
    FramePending(Tick(e1), RetryLoop(Tick(e1), c.handle, RecvRequest(max), 0).env);
  }

  lemma FramePending(a: Env, b: Env)
    requires SameFrame(a, b)
    ensures a.pending == b.pending && a.nextFd == b.nextFd
  {
  }

  lemma {:induction false} RecvElsewhere(env: Env, fd: int, max: nat, offset: int)
    ensures var e := RetryLoop(env, fd, RecvRequest(max), offset).env;
            forall other :: other in env.open && other in e.open && other != fd ==> e.open[other] == env.open[other]
    ensures RetryLoop(env, fd, RecvRequest(max), offset).env.open.Keys == env.open.Keys
    decreases |env.script|
  {
    hide Attempt, Translate;
    OneRecvElsewhere(env, fd, max, offset);
    var (e, t) := Attempt(env, fd, RecvRequest(max), offset);
    if Translate(e.errno) == Interrupted {
      InterruptedConsumes(env, fd, RecvRequest(max), offset);
      RecvElsewhere(e, fd, max, NextOffset(t));
      assert forall other :: other in env.open <==> other in e.open.Keys;
    }
  }

  lemma OneRecvElsewhere(env: Env, fd: int, max: nat, offset: int)
    ensures var e := Attempt(env, fd, RecvRequest(max), offset).0;
            && e.open.Keys == env.open.Keys
            && forall other :: other in env.open && other in e.open && other != fd ==> e.open[other] == env.open[other]
  {
  }

  /** What a granted Send of the server leaves. */
  lemma GenerousSend(c: Sock, env: Env, buf: seq<Byte>, n: nat, calls: nat)
    requires c.kind == Tcp && IsValid(c) && c.handle in env.open && 0 < n <= |buf| && n <= MAX_PACKET
    requires env.errno == NoError && Generous(env, calls + 1)
    ensures var o := Send(c, env, Some(buf), n);
            && o.sock.handle == c.handle && o.sock.role == c.role
            && o.env.open == env.open && o.env.errno == NoError && Generous(o.env, calls)
            && o.env.pending == env.pending && o.env.nextFd == env.nextFd
            && WireOf(o.env.io, c.handle) == WireOf(env.io, c.handle) + buf[..n]
            && (forall fd :: fd != c.handle ==> WireOf(o.env.io, fd) == WireOf(env.io, fd))
  {
    hide Send, BaseSend, WireOf, StreamOf, Generous, RetryLoop, SameFrame;
    GenerousFirst(env, calls + 1);
    var data := buf[..n];
    StreamSendIsBase(c, env, Some(buf), n);
    SameBytes(c, env, buf, n);
    assert Granting(env, c.handle, [data]);
    GrantedSend(c, env, [data]);
    GrantedSendUses(c, env, [data]);
    GenerousRest(env, BaseSend(c, env, Some(data), n).env, calls, 1);
    SendEffect(c, env, Some(data), n);
    FramePending(Tick(Tick(env)), BaseSend(c, env, Some(data), n).env);
  }

  /** Closing and deleting with a granted close. */
  lemma GenerousClose(c: Sock, env: Env, calls: nat)
    requires IsValid(c) && c.handle in env.open && c.role.Active?
    requires env.errno == NoError && Generous(env, calls + 1)
    ensures var o := Close(c, env);
            var e := Destroy(o.sock, o.env);
            e == Destroy(c, env) && ClosedDown(env, e, c.handle) && Generous(e, calls)
  {
    hide Generous, Close, Destroy;
    GenerousFirst(env, calls + 1);
    var o := Close(c, env);
    CloseLeaves(c, env);
    DestroyIsClose(c, env);
    DestroyInvalid(o.sock, o.env);
    GenerousRest(env, o.env, calls, 1);
  }

  lemma CloseLeaves(c: Sock, env: Env)
    requires IsValid(c) && c.handle in env.open && NextReply(env.script).Ok?
    ensures var o := Close(c, env);
            !IsValid(o.sock) && o.sock.buffer == None && ClosedDown(env, o.env, c.handle)
            && o.env.script == Rest(env.script)
  {
    hide Translate;
  }

  lemma DestroyIsClose(c: Sock, env: Env)
    requires c.role.Active?
    ensures Destroy(c, env) == Close(c, env).env
  {
    hide Translate;
  }

  ghost predicate ClosedDown(a: Env, b: Env, fd: int) {
    && b.open == a.open - {fd} && b.errno == a.errno && b.io == a.io
    && b.pending == a.pending && b.nextFd == a.nextFd
  }

  /** A served client gets back what was taken from its stream, and its descriptor is gone. */
  lemma GenerousClient(c: Sock, env: Env, calls: nat)
    requires c.kind == Tcp && c.role.Active? && IsValid(c) && c.handle in env.open && c.buffer == None
    requires env.errno == NoError && Generous(env, calls + 3)
    ensures var e := ServeClient(c, env);
            && WireOf(e.io, c.handle) == WireOf(env.io, c.handle) + Taken(env.open[c.handle].inbound)
            && (forall fd :: fd != c.handle ==> WireOf(e.io, fd) == WireOf(env.io, fd))
            && e.open == env.open - {c.handle}
            && e.errno == NoError && Generous(e, calls)
            && e.pending == env.pending && e.nextFd == env.nextFd
  {
    hide Receive, Send, Close, Destroy, WireOf, Generous;
    var data := Taken(env.open[c.handle].inbound);
    var r := Receive(c, env, MAX_PACKET, None);
    GenerousReceive(c, env, calls + 2);
    assert c.handle in r.env.open.Keys;
    if data == [] {
      GenerousClose(r.sock, r.env, calls + 1);
      GenerousLess(Destroy(r.sock, r.env), calls + 1, calls);
      assert WireOf(env.io, c.handle) + data == WireOf(env.io, c.handle);
    } else {
      var buf := Data(r.sock).value;
      GenerousSend(r.sock, r.env, buf, |data|, calls + 1);
      var o := Send(r.sock, r.env, Some(buf), |data|);
      GenerousClose(o.sock, o.env, calls);
    }
    SameTable(env.open, r.env.open, ServeClient(c, env).open, c.handle);
  }

  lemma SameTable(a: map<int, Desc>, b: map<int, Desc>, c: map<int, Desc>, fd: int)
    requires a.Keys == b.Keys && c == b - {fd}
    requires forall other :: other in a && other in b && other != fd ==> b[other] == a[other]
    ensures c == a - {fd}
  {
    assert forall other :: other in a <==> other in b.Keys;
  }

  lemma GenerousLess(env: Env, calls: nat, fewer: nat)
    requires Generous(env, calls) && fewer <= calls
    ensures Generous(env, fewer)
  {
  }

  /** One pass of the server's loop with a connection waiting: the new descriptor has been sent
      the front of the peer's stream and is closed again. */
  lemma GenerousPass(s: Sock, env: Env, calls: nat)
    requires Listening(s, env) && ValidEnv(env) && env.pending != [] && Generous(env, calls + 6)
    requires WireOf(env.io, env.nextFd) == []
    ensures var (s1, e1) := ServeOne(s, env);
            && s1.kind == Tcp && s1.handle == s.handle
            && WireOf(e1.io, env.nextFd) == Taken(env.pending[0].stream)
            && (forall fd :: fd != env.nextFd ==> WireOf(e1.io, fd) == WireOf(env.io, fd))
            && e1.open == env.open && e1.nextFd == env.nextFd + 1 && e1.pending == env.pending[1..]
            && Generous(e1, calls)
  {
    hide Accept, ServeClient, WireOf, StreamOf, Generous, Taken;
    GenerousFirst(env, calls + 6);
    AcceptExactlyOnce(s, env);
    AcceptUses(s, env);
    AcceptTrace(s, env);
    var a := Accept(s, env);
    GenerousNames(env, s.handle, calls + 6);
    GenerousRest(env, a.env, calls + 3, 3);
    var c := a.client.value;
    GenerousClient(c, a.env, calls);
    assert env.nextFd !in env.open;
    assert a.env.open - {env.nextFd} == env.open;
    assert [] + Taken(env.pending[0].stream) == Taken(env.pending[0].stream);
  }

  /** No descriptor that is yet to come has been sent anything. */
  ghost predicate NothingSentAhead(env: Env) {
    forall fd :: env.nextFd <= fd ==> WireOf(env.io, fd) == []
  }

  lemma GenerousNames(env: Env, fd: int, calls: nat)
    requires Generous(env, calls) && calls >= 3 && fd in env.open
    ensures ReplyAt(env, fd, 1).Ok? && ReplyAt(env, fd, 2).Ok? && |env.script| >= 3
  {
  }

  /** With a cooperating system, after any number of passes each of the clients that were waiting
      has been sent the front of its stream on a descriptor of its own, in the order in which
      they came, and only the descriptors of the start are open. */
  lemma {:induction false} ServerEchoesEveryone(s: Sock, env: Env, n: nat)
    requires Listening(s, env) && ValidEnv(env) && NothingSentAhead(env)
    requires n <= |env.pending| && Generous(env, 6 * n)
    ensures var e := Serve(s, env, n).1;
            && (forall i :: 0 <= i < n ==> WireOf(e.io, env.nextFd + i) == Taken(env.pending[i].stream))
            && (forall fd :: !(env.nextFd <= fd < env.nextFd + n) ==> WireOf(e.io, fd) == WireOf(env.io, fd))
            && e.open == env.open && e.pending == env.pending[n..] && e.nextFd == env.nextFd + n
    decreases n
  {
    hide ServeOne, WireOf, StreamOf, Generous, Taken;
    if n == 0 {
      assert env.pending[0..] == env.pending;
    } else {
      var (s1, e1) := ServeOne(s, env);
      GenerousPass(s, env, 6 * (n - 1));
      ServeOneConserves(s, env);
      ServerEchoesEveryone(s1, e1, n - 1);
      var e := Serve(s, env, n).1;
      forall i | 0 <= i < n ensures WireOf(e.io, env.nextFd + i) == Taken(env.pending[i].stream) {
        if i > 0 {
          assert e1.pending[i - 1] == env.pending[i];
          assert WireOf(e.io, e1.nextFd + (i - 1)) == Taken(e1.pending[i - 1].stream);
        }
      }
      assert env.pending[1..][n - 1..] == env.pending[n..];
    }
  }
}
