/** Sequences of operations on one socket object, in any order and with any answers from the
    system, and what holds after every such run: ownership of the receive buffer, ownership of
    the descriptor, and the mirror of the blocking mode.  Accept is not among the operations,
    since it makes a second object; `ServeEcho.dfy` is about it. */
module Lifecycle {
  import opened Posix
  import opened Retry
  import opened SocketModel
  import opened FileCopy
  import opened StatTimer

  datatype World = World(sock: Sock, env: Env)

  datatype Op =
    | InitOp
    | SendOp(buf: Option<seq<Byte>>, n: nat)
    | VectorOp(bufs: seq<seq<Byte>>)
    | SendFileOp(out: int, offset: int, count: int)
    | TimeoutOp(sec: int, usec: int)
    | ReceiveOp(max: nat, dest: Option<seq<Byte>>)
    | CloseOp
    | ModeOp(nonblocking: bool)
    | MulticastOp(enable: bool)
    | SelectOp(sec: int, usec: int)
    | ListenOp(addr: HostArg, port: int)
    | JoinOp(addr: HostArg, port: int)
    | OpenOp(host: Option<Lookup>, port: int)

  /** Listen and BindMulticast exist on passive sockets only and Open on active ones only. */
  function Step(w: World, op: Op): World {
    var s, e := w.sock, w.env;
    match op
    case InitOp => var o := Initialize(s, e); World(o.sock, o.env)
    case SendOp(buf, n) => var o := Send(s, e, buf, n); World(o.sock, o.env)
    case VectorOp(bufs) => var o := SendVector(s, e, bufs); World(o.sock, o.env)
    case SendFileOp(out, offset, count) =>
      var c := SendFile(e, out, offset, count);
      World(if c.finished then Translated(s, c.env) else s, c.env)
    case TimeoutOp(sec, usec) => World(s.(connectSec := sec, connectUsec := usec), e)
    case ReceiveOp(max, dest) => var o := Receive(s, e, max, dest); World(o.sock, o.env)
    case CloseOp => var o := Close(s, e); World(o.sock, o.env)
    case ModeOp(nonblocking) => var o := SetMode(s, e, nonblocking); World(o.sock, o.env)
    case MulticastOp(enable) => var o := SetMulticast(s, e, enable); World(o.sock, o.env)
    case SelectOp(sec, usec) => var o := Select(s, e, sec, usec); World(o.sock, o.env)
    case ListenOp(addr, port) =>
      if s.role.Passive? then var o := Listen(s, e, addr, port); World(o.sock, o.env) else w
    case JoinOp(addr, port) =>
      if s.role.Passive? then var o := BindMulticast(s, e, addr, port); World(o.sock, o.env) else w
    case OpenOp(host, port) =>
      if s.role.Active? then var o := Open(s, e, host, port); World(o.sock, o.env) else w
  }

  function Run(w: World, ops: seq<Op>): World
    decreases |ops|
  {
    if ops == [] then w else Run(Step(w, ops[0]), ops[1..])
  }

  // --- What the transfer operations leave alone

  /** The heap, the descriptor table up to stream contents and options, and the mode flags. */
  ghost predicate Quiet(a: Env, b: Env) {
    && a.live == b.live && a.nextBlock == b.nextBlock && a.freed == b.freed
    && a.nextFd == b.nextFd && a.closed == b.closed && a.closeFailures == b.closeFailures
    && a.open.Keys == b.open.Keys
    && forall fd :: fd in a.open && fd in b.open ==> a.open[fd].flags == b.open[fd].flags
  }

  ghost predicate SameCore(s: Sock, t: Sock) {
    && s.role == t.role && s.kind == t.kind && s.handle == t.handle
    && s.buffer == t.buffer && s.bufferSize == t.bufferSize && s.blocking == t.blocking
  }

  lemma FrameIsQuiet(a: Env, b: Env)
    requires SameFrame(a, b)
    ensures Quiet(a, b)
  {
  }

  lemma QuietReflexive(env: Env)
    ensures Quiet(env, env)
  {
  }

  lemma QuietTransitive(a: Env, b: Env, c: Env)
    requires Quiet(a, b) && Quiet(b, c)
    ensures Quiet(a, c)
  {
  }

  lemma TickQuiet(env: Env)
    ensures Quiet(env, Tick(env))
  {
  }

  lemma RetryQuiet(env: Env, fd: int, req: Request)
    requires !req.AcceptRequest?
    ensures Quiet(env, Tick(RetryLoop(Tick(env), fd, req, 0).env))
    ensures Quiet(env, Tick(Attempt(Tick(env), fd, req, 0).0))
  {
    hide RetryLoop, Attempt, Quiet, Tick;
    var e := Tick(env);
    TickQuiet(env);
    RetryFrame(e, fd, req, 0);
    AttemptFrame(e, fd, req, 0);
    var r, t := RetryLoop(e, fd, req, 0).env, Attempt(e, fd, req, 0).0;
    FrameIsQuiet(e, r);
    FrameIsQuiet(e, t);
    TickQuiet(r);
    TickQuiet(t);
    QuietTransitive(env, e, r);
    QuietTransitive(env, r, Tick(r));
    QuietTransitive(env, e, t);
    QuietTransitive(env, t, Tick(t));
  }

  lemma SendQuiet(s: Sock, env: Env, buf: Option<seq<Byte>>, n: nat)
    ensures Quiet(env, Send(s, env, buf, n).env) && SameCore(s, Send(s, env, buf, n).sock)
    ensures Send(s, env, buf, n).sock.client == s.client
  {
    hide RetryLoop, Attempt, Tick, Quiet;
    QuietReflexive(env);
    if ReachesOs(s, buf, n) {
      var data := Prefix(buf.value, n);
      RetryQuiet(env, s.handle, SendRequestOf(s, data));
      RetryQuiet(env, s.handle, SendToRequest(data, s.client));
    }
  }

  lemma FlushQuiet(s: Sock, env: Env)
    ensures Quiet(env, Flush(s, env).env) && SameCore(s, Flush(s, env).sock)
    ensures Flush(s, env).sock.client == s.client
  {
    hide Send, GetNoDelayCall, SetNoDelayCall, Quiet;
    var (e1, cur) := GetNoDelayCall(env, s.handle);
    CallsQuiet(env, s.handle);
    if cur.Some? {
      var (e2, isSet) := SetNoDelayCall(e1, s.handle, 1);
      NoDelayQuiet(e1, s.handle, 1);
      QuietTransitive(env, e1, e2);
      SendQuiet(s, e2, Some([0]), 0);
      var e3 := if isSet then Send(s, e2, Some([0]), 0).env else e2;
      if isSet {
        QuietTransitive(env, e2, e3);
      }
      NoDelayQuiet(e3, s.handle, cur.value);
      QuietTransitive(env, e3, SetNoDelayCall(e3, s.handle, cur.value).0);
    }
  }

  lemma {:induction false} SendEachQuiet(s: Sock, env: Env, bufs: seq<seq<Byte>>, total: int, done: nat)
    ensures var g := SendEach(s, env, bufs, total, done);
            Quiet(env, g.env) && SameCore(s, g.sock) && g.sock.client == s.client
    decreases |bufs|
  {
    hide Send, Quiet;
    QuietReflexive(env);
    if bufs != [] {
      var o := Send(s, env, Some(bufs[0]), |bufs[0]|);
      SendQuiet(s, env, Some(bufs[0]), |bufs[0]|);
      if o.ret != SOCKET_ERROR {
        SendEachQuiet(o.sock, o.env, bufs[1..], total + o.ret, done + 1);
        QuietTransitive(env, o.env, SendEach(s, env, bufs, total, done).env);
      }
    }
  }

  lemma VectorQuiet(s: Sock, env: Env, bufs: seq<seq<Byte>>)
    ensures Quiet(env, SendVector(s, env, bufs).env) && SameCore(s, SendVector(s, env, bufs).sock)
    ensures SendVector(s, env, bufs).sock.client == s.client
  {
    var s0 := s.(error := Success, sent := 0);
    var g := SendEach(s0, env, bufs, 0, 0);
    SendEachQuiet(s0, env, bufs, 0, 0);
    FlushQuiet(g.sock, g.env);
    QuietTransitive(env, g.env, Flush(g.sock, g.env).env);
  }

  lemma SelectQuiet(s: Sock, env: Env, sec: int, usec: int)
    ensures Quiet(env, Select(s, env, sec, usec).env) && SameCore(s, Select(s, env, sec, usec).sock)
    ensures Select(s, env, sec, usec).sock.client == s.client
  {
  }

  lemma PollQuiet(s: Sock, env: Env)
    ensures Quiet(env, ConnectOrPoll(s, env).env) && SameCore(s, ConnectOrPoll(s, env).sock)
  {
    hide Select, ConnectCall, Quiet;
    var e := ConnectCall(env, s.handle, s.server).0;
    var s1 := Translated(s, e);
    ConnectCallQuiet(env, s.handle, s.server);
    SelectQuiet(s1, e, s1.connectSec, s1.connectUsec);
    QuietTransitive(env, e, Select(s1, e, s1.connectSec, s1.connectUsec).env);
  }

  lemma ConnectQuiet(s: Sock, env: Env, lookup: Lookup, port: int)
    ensures Quiet(env, ConnectTcp(s, env, lookup, port).env) && SameCore(s, ConnectTcp(s, env, lookup, port).sock)
    ensures Quiet(env, ConnectUdp(s, env, lookup, port).env) && SameCore(s, ConnectUdp(s, env, lookup, port).sock)
  {
    hide ConnectOrPoll, ConnectCall, Tick, Quiet;
    QuietReflexive(env);
    var (s1, resolved) := Resolve(s, env, lookup, port);
    if resolved {
      var e1 := Tick(env);
      TickQuiet(env);
      var e2 := ConnectCall(e1, s.handle, s1.server).0;
      ConnectCallQuiet(e1, s.handle, s1.server);
      TickQuiet(e2);
      QuietTransitive(env, e1, e2);
      QuietTransitive(env, e2, Tick(e2));
      var e3 := ConnectOrPoll(s1, e1).env;
      PollQuiet(s1, e1);
      TickQuiet(e3);
      QuietTransitive(env, e1, e3);
      QuietTransitive(env, e3, Tick(e3));
    }
  }

  lemma OpenQuiet(s: Sock, env: Env, host: Option<Lookup>, port: int)
    ensures Quiet(env, Open(s, env, host, port).env) && SameCore(s, Open(s, env, host, port).sock)
  {
    hide ConnectTcp, ConnectUdp, NameCall, Quiet;
    QuietReflexive(env);
    if host.Some? && s.kind in {Tcp, Udp} {
      ConnectQuiet(s, env, host.value, port);
      var e0 := if s.kind == Tcp then ConnectTcp(s, env, host.value, port).env
                else ConnectUdp(s, env, host.value, port).env;
      var e1 := NameCall(e0, s.handle).0;
      CallsQuiet(e0, s.handle);
      CallsQuiet(e1, s.handle);
      QuietTransitive(env, e0, e1);
      QuietTransitive(env, e1, NameCall(e1, s.handle).0);
    }
  }

  lemma RecvLoopQuiet(s: Sock, env: Env, max: nat)
    ensures Quiet(env, Tick(RecvLoop(s, Tick(env), max).env))
  {
    hide RetryLoop, Tick, Quiet;
    if s.kind in {Tcp, Udp} {
      RetryQuiet(env, s.handle, RecvRequestOf(s, max));
    } else {
      TickQuiet(env);
      TickQuiet(Tick(env));
      QuietTransitive(env, Tick(env), Tick(Tick(env)));
    }
  }

  lemma {:induction false} PumpQuiet(env: Env, out: int, sent: int, count: int)
    ensures Quiet(env, Pump(env, out, sent, count).0)
    decreases count - sent
  {
    hide Attempt, ReadCall, Quiet;
    QuietReflexive(env);
    if sent < count {
      var n := Min(count - sent, BLOCK_SIZE);
      var (e1, got) := ReadCall(env, n);
      ReadQuiet(env, n);
      if got.Some? && |got.value| == n {
        var req := SendRequest(got.value);
        var e2 := Attempt(e1, out, req, 0).0;
        AttemptFrame(e1, out, req, 0);
        FrameIsQuiet(e1, e2);
        QuietTransitive(env, e1, e2);
        PumpQuiet(e2, out, sent + n, count);
        QuietTransitive(env, e2, Pump(e2, out, sent + n, count).0);
      }
    }
  }

  lemma ReadQuiet(env: Env, n: nat)
    ensures Quiet(env, ReadCall(env, n).0)
  {
  }

  lemma SendFileQuiet(env: Env, out: int, offset: int, count: int)
    ensures Quiet(env, SendFile(env, out, offset, count).env)
  {
    hide Pump;
    var e := SeekCall(env, offset).0;
    assert Quiet(env, e);
    PumpQuiet(e, out, -1, count);
    QuietTransitive(env, e, Pump(e, out, -1, count).0);
  }

  /** What SendFile tells through the object: a copy that succeeds has met no failure, and leaves
      the error of the `errno` found on entry; one that fails leaves the old error, whatever
      stopped it. */
  lemma SendFileReports(w: World, out: int, offset: int, count: int)
    requires 0 <= count < 0x7FFF_FFFF
    ensures var c := SendFile(w.env, out, offset, count);
            var v := Step(w, SendFileOp(out, offset, count));
            && v.env == c.env && (c.ret == count || c.ret == -1)
            && v.sock == (if c.ret == count then w.sock.(error := Translate(w.env.errno)) else w.sock)
  {
    hide Translate, SendFileFrom;
    FinishedCopy(w.env, out, offset, count);
  }

  /** The operations that touch neither the buffer, the handle nor the mode. */
  predicate IsQuietOp(op: Op) {
    || op.SendOp? || op.VectorOp? || op.MulticastOp? || op.SelectOp? || op.OpenOp?
    || op.SendFileOp? || op.TimeoutOp?
  }

  lemma QuietStep(w: World, op: Op)
    requires IsQuietOp(op)
    ensures Quiet(w.env, Step(w, op).env) && SameCore(w.sock, Step(w, op).sock)
  {
    hide Send, SendVector, Select, Open, SendFile;
    match op
    case SendOp(buf, n) => SendQuiet(w.sock, w.env, buf, n);
    case VectorOp(bufs) => VectorQuiet(w.sock, w.env, bufs);
    case MulticastOp(enable) =>
    case SelectOp(sec, usec) => SelectQuiet(w.sock, w.env, sec, usec);
    case OpenOp(host, port) => OpenQuiet(w.sock, w.env, host, port);
    case SendFileOp(out, offset, count) => SendFileQuiet(w.env, out, offset, count);
    case TimeoutOp(_, _) =>
  }

  // --- The receive buffer

  /** Relative to the environment `origin` in which the object was made: the internal buffer
      is its only live allocation and has the recorded size, and every other block it ever
      allocated has been freed exactly once. */
  ghost predicate BufferOwned(w: World, origin: Env) {
    var s, e := w.sock, w.env;
    && (forall id :: id in origin.live ==> id < origin.nextBlock)
    && origin.nextBlock <= e.nextBlock
    && (s.buffer.None? ==> e.live == origin.live)
    && (s.buffer.Some? ==>
          && origin.nextBlock <= s.buffer.value.id < e.nextBlock
          && e.live == origin.live + {s.buffer.value.id}
          && |s.buffer.value.bytes| == s.bufferSize)
    && (forall id :: 0 <= id < origin.nextBlock ==> e.freed[id] == origin.freed[id])
    && (forall id :: origin.nextBlock <= id < e.nextBlock ==> e.freed[id] == if id in e.live then 0 else 1)
    && (forall id :: e.nextBlock <= id ==> e.freed[id] == 0)
  }

  lemma QuietKeepsBuffer(w: World, v: World, origin: Env)
    requires BufferOwned(w, origin) && Quiet(w.env, v.env)
    requires w.sock.buffer == v.sock.buffer && w.sock.bufferSize == v.sock.bufferSize
    ensures BufferOwned(v, origin)
  {
  }

  lemma ReleaseKeepsBuffer(w: World, origin: Env)
    requires BufferOwned(w, origin)
    ensures var (s, e) := Release(w.sock, w.env);
            BufferOwned(World(s, e), origin) && s.buffer.None?
  {
  }

  lemma PrepareKeepsBuffer(w: World, max: nat, origin: Env)
    requires BufferOwned(w, origin)
    ensures var (s, e) := PrepareBuffer(w.sock, w.env, max);
            BufferOwned(World(s, e), origin) && s.bufferSize == max
  {
    var replace := w.sock.buffer.Some? && w.sock.bufferSize != max;
    var (s1, e1) := if replace then Release(w.sock, w.env) else (w.sock, w.env);
    ReleaseKeepsBuffer(w, origin);
    assert BufferOwned(World(s1, e1), origin);
  }

  lemma CloseKeepsBuffer(w: World, origin: Env)
    requires BufferOwned(w, origin)
    ensures var o := Close(w.sock, w.env);
            BufferOwned(World(o.sock, o.env), origin) && o.sock.buffer.None?
  {
    ReleaseKeepsBuffer(w, origin);
  }

  lemma ReceiveKeepsBuffer(w: World, max: nat, dest: Option<seq<Byte>>, origin: Env)
    requires BufferOwned(w, origin)
    ensures var o := Receive(w.sock, w.env, max, dest);
            BufferOwned(World(o.sock, o.env), origin)
  {
    hide RecvLoop, PlaceAll, PrepareBuffer, LastSource, Release, Filled, Tick, BufferOwned;
    var s0 := w.sock.(received := 0);
    assert BufferOwned(World(s0, w.env), origin) by {
      SameBufferOwned(w, World(s0, w.env), origin);
    }
    if IsValid(s0) {
      var (s1, e1) := if dest.None? then PrepareBuffer(s0, w.env, max) else (s0, w.env);
      PrepareKeepsBuffer(World(s0, w.env), max, origin);
      var loop := RecvLoop(s1, Tick(e1), max);
      var e3 := Tick(loop.env);
      RecvLoopQuiet(s1, e1, max);
      var s2 := Filled(s1, loop, dest.None?).(timer := Bracket(Tick(e1), e3));
      FilledKeepsBuffer(World(s1, e1), loop, dest.None?, e3, s2.timer, origin);
      ReleaseKeepsBuffer(World(s2, e3), origin);
    } else {
      SameBufferOwned(World(s0, w.env), World(s0, w.env), origin);
    }
  }

  lemma SameBufferOwned(w: World, v: World, origin: Env)
    requires BufferOwned(w, origin) && v.env == w.env
    requires v.sock.buffer == w.sock.buffer && v.sock.bufferSize == w.sock.bufferSize
    ensures BufferOwned(v, origin)
  {
  }

  lemma FilledKeepsBuffer(w: World, loop: Loop, internal: bool, e: Env, timer: Reading, origin: Env)
    requires BufferOwned(w, origin) && Quiet(w.env, e)
    requires internal ==> w.sock.buffer.Some?
    ensures BufferOwned(World(Filled(w.sock, loop, internal).(timer := timer), e), origin)
  {
  }

  lemma ListenKeepsBuffer(w: World, addr: HostArg, port: int, origin: Env)
    requires BufferOwned(w, origin)
    ensures var o := Listen(w.sock, w.env, addr, port);
            BufferOwned(World(o.sock, o.env), origin) && (!o.ret ==> o.sock.buffer.None?)
  {
    var (s2, e4, ok) := Bound(w.sock, w.env, addr, port);
    BoundQuiet(w.sock, w.env, addr, port);
    QuietKeepsBuffer(w, World(s2, e4), origin);
    CloseKeepsBuffer(World(s2, e4), origin);
  }

  lemma JoinKeepsBuffer(w: World, addr: HostArg, port: int, origin: Env)
    requires BufferOwned(w, origin)
    ensures var o := BindMulticast(w.sock, w.env, addr, port);
            BufferOwned(World(o.sock, o.env), origin)
  {
    hide Joined, BufferOwned, Close;
    var (s1, e1, ok) := Joined(w.sock, w.env, addr, port);
    JoinedQuiet(w.sock, w.env, addr, port);
    QuietKeepsBuffer(w, World(s1, e1), origin);
    CloseKeepsBuffer(World(s1, e1), origin);
  }

  lemma BoundQuiet(s: Sock, env: Env, addr: HostArg, port: int)
    ensures var (s2, e4, ok) := Bound(s, env, addr, port);
            Quiet(env, e4) && SameCore(s, s2) && s2.client == s.client
  {
    hide PlainCall, BindCall, ListenCall, Quiet, Tick;
    var at := Addr(HostIp(addr), port);
    var e1 := PlainCall(env, s.handle).0;
    var e2 := PlainCall(e1, s.handle).0;
    var e3 := Tick(e2);
    var e4 := BindCall(e3, s.handle, at).0;
    var e5 := ListenCall(e4, s.handle).0;
    CallsQuiet(env, s.handle);
    CallsQuiet(e1, s.handle);
    TickQuiet(e2);
    BindQuiet(e3, s.handle, at);
    CallsQuiet(e4, s.handle);
    TickQuiet(e4);
    TickQuiet(e5);
    QuietTransitive(env, e1, e2);
    QuietTransitive(env, e2, e3);
    QuietTransitive(env, e3, e4);
    QuietTransitive(env, e4, e5);
    QuietTransitive(env, e4, Tick(e4));
    QuietTransitive(env, e5, Tick(e5));
  }

  lemma JoinedQuiet(s: Sock, env: Env, addr: HostArg, port: int)
    ensures var (s1, e2, ok) := Joined(s, env, addr, port);
            Quiet(env, e2) && SameCore(s, s1) && s1.client == s.client
  {
    hide PlainCall, BindCall, Quiet, Tick;
    var at := Addr(HostIp(addr), port);
    var e1 := BindCall(env, s.handle, at).0;
    var e2 := PlainCall(e1, s.handle).0;
    BindQuiet(env, s.handle, at);
    CallsQuiet(e1, s.handle);
    TickQuiet(e1);
    TickQuiet(e2);
    TickQuiet(Tick(e2));
    QuietTransitive(env, e1, e2);
    QuietTransitive(env, e1, Tick(e1));
    QuietTransitive(env, e2, Tick(e2));
    QuietTransitive(env, Tick(e2), Tick(Tick(e2)));
  }

  lemma CallsQuiet(env: Env, fd: int)
    ensures Quiet(env, PlainCall(env, fd).0) && Quiet(env, NameCall(env, fd).0)
    ensures Quiet(env, ListenCall(env, fd).0) && Quiet(env, GetNoDelayCall(env, fd).0)
  {
  }

  lemma ConnectCallQuiet(env: Env, fd: int, addr: Addr)
    ensures Quiet(env, ConnectCall(env, fd, addr).0)
  {
  }

  lemma BindQuiet(env: Env, fd: int, addr: Addr)
    ensures Quiet(env, BindCall(env, fd, addr).0)
  {
  }

  lemma NoDelayQuiet(env: Env, fd: int, value: int)
    ensures Quiet(env, SetNoDelayCall(env, fd, value).0)
  {
  }

  lemma TableKeepsBuffer(w: World, v: World, origin: Env)
    requires BufferOwned(w, origin)
    requires v.env == w.env.(errno := v.env.errno, script := v.env.script, time := v.env.time,
                               open := v.env.open, nextFd := v.env.nextFd)
    requires v.sock == w.sock.(handle := v.sock.handle, error := v.sock.error, blocking := v.sock.blocking, timer := v.sock.timer)
    ensures BufferOwned(v, origin)
  {
  }

  lemma StepKeepsBuffer(w: World, op: Op, origin: Env)
    requires BufferOwned(w, origin)
    ensures BufferOwned(Step(w, op), origin)
  {
    hide Send, SendVector, Receive, Close, Listen, BindMulticast, Open, Select, BufferOwned, SendFile;
    if IsQuietOp(op) {
      QuietStep(w, op);
      QuietKeepsBuffer(w, Step(w, op), origin);
    } else {
      match op
      case InitOp => TableKeepsBuffer(w, Step(w, op), origin);
      case ReceiveOp(max, dest) => ReceiveKeepsBuffer(w, max, dest, origin);
      case CloseOp => CloseKeepsBuffer(w, origin);
      case ModeOp(nonblocking) => TableKeepsBuffer(w, Step(w, op), origin);
      case ListenOp(addr, port) =>
        if w.sock.role.Passive? { ListenKeepsBuffer(w, addr, port, origin); }
      case JoinOp(addr, port) =>
        if w.sock.role.Passive? { JoinKeepsBuffer(w, addr, port, origin); }
    }
  }

  /** Every run, in any order of operations and with any answers: the internal buffer is the
      object's only live allocation and has the recorded size, and every other block the
      object ever allocated has been freed exactly once. */
  lemma {:induction false} BufferConservation(w: World, ops: seq<Op>, origin: Env)
    requires BufferOwned(w, origin)
    ensures BufferOwned(Run(w, ops), origin)
    decreases |ops|
  {
    if ops != [] {
      StepKeepsBuffer(w, ops[0], origin);
      BufferConservation(Step(w, ops[0]), ops[1..], origin);
    }
  }

  /** From construction to destruction no block leaks and none is freed twice. */
  lemma NoBlockOutlivesObject(role: Role, kind: Kind, env: Env, ops: seq<Op>)
    requires ValidEnv(env)
    ensures var w := Run(World(Fresh(role, kind), env), ops);
            var end := Destroy(w.sock, w.env);
            && end.live == env.live
            && (forall id :: env.nextBlock <= id < end.nextBlock ==> end.freed[id] == 1)
  {
    var start := World(Fresh(role, kind), env);
    BufferConservation(start, ops, env);
    var w := Run(start, ops);
    CloseKeepsBuffer(w, env);
    var c := Close(w.sock, w.env);
    var before := if w.sock.role.Simple? then w else World(c.sock, c.env);
    ReleaseKeepsBuffer(before, env);
  }

  // --- The descriptor

  ghost function Own(w: World): set<int> {
    if IsValid(w.sock) then {w.sock.handle} else {}
  }

  /** The descriptors open beyond `base` are exactly the one the object holds. */
  ghost predicate HandleOwned(w: World, base: set<int>) {
    && w.env.open.Keys == base + Own(w)
    && Own(w) !! base
    && -1 !in w.env.open
    && (forall fd :: fd in w.env.open ==> 0 <= fd < w.env.nextFd)
    && (forall fd :: fd in base ==> 0 <= fd < w.env.nextFd)
  }

  lemma QuietKeepsHandle(w: World, v: World, base: set<int>)
    requires HandleOwned(w, base) && Quiet(w.env, v.env) && w.sock.handle == v.sock.handle
    ensures HandleOwned(v, base)
  {
    assert Own(w) == Own(v);
  }

  lemma CloseKeepsHandle(w: World, base: set<int>)
    requires HandleOwned(w, base)
    ensures var o := Close(w.sock, w.env);
            HandleOwned(World(o.sock, o.env), base) && (o.ret ==> !IsValid(o.sock))
  {
    var o := Close(w.sock, w.env);
    if o.ret {
      assert o.env.open.Keys == w.env.open.Keys - {w.sock.handle};
    }
  }

  lemma ReceiveKeepsHandle(w: World, max: nat, dest: Option<seq<Byte>>)
    ensures var o := Receive(w.sock, w.env, max, dest);
            && o.sock.handle == w.sock.handle && o.sock.blocking == w.sock.blocking
            && o.sock.role == w.sock.role && o.sock.kind == w.sock.kind
            && o.env.open.Keys == w.env.open.Keys && o.env.nextFd == w.env.nextFd
            && o.env.closed == w.env.closed && o.env.closeFailures == w.env.closeFailures
            && forall fd :: fd in o.env.open && fd in w.env.open ==> o.env.open[fd].flags == w.env.open[fd].flags
  {
    hide RecvLoop, PlaceAll, LastSource, PrepareBuffer, Tick;
    var s0 := w.sock.(received := 0);
    if IsValid(s0) {
      var (s1, e1) := if dest.None? then PrepareBuffer(s0, w.env, max) else (s0, w.env);
      PrepareTouches(s0, w.env, max);
      RecvLoopQuiet(s1, e1, max);
    }
  }

  lemma InitHandleIff(w: World, base: set<int>)
    requires HandleOwned(w, base)
    ensures HandleOwned(Step(w, InitOp), base) <==> !IsValid(w.sock)
  {
    var v := Step(w, InitOp);
    var fd := SocketCall(w.env.(errno := NoError)).1;
    assert v.env.open.Keys == w.env.open.Keys + (if fd == -1 then {} else {fd});
    if IsValid(w.sock) {
      assert w.sock.handle in v.env.open && w.sock.handle !in base && w.sock.handle !in Own(v);
    }
  }

  lemma ListenKeepsHandle(w: World, addr: HostArg, port: int, base: set<int>)
    requires HandleOwned(w, base) && w.sock.role.Passive?
    ensures HandleOwned(Step(w, ListenOp(addr, port)), base)
  {
    hide Bound, Close;
    var (s2, e4, ok) := Bound(w.sock, w.env, addr, port);
    BoundQuiet(w.sock, w.env, addr, port);
    QuietKeepsHandle(w, World(s2, e4), base);
    CloseKeepsHandle(World(s2, e4), base);
  }

  lemma JoinKeepsHandle(w: World, addr: HostArg, port: int, base: set<int>)
    requires HandleOwned(w, base) && w.sock.role.Passive?
    ensures HandleOwned(Step(w, JoinOp(addr, port)), base)
  {
    hide Joined, Close, HandleOwned;
    var (s1, e1, ok) := Joined(w.sock, w.env, addr, port);
    JoinedQuiet(w.sock, w.env, addr, port);
    QuietKeepsHandle(w, World(s1, e1), base);
    CloseKeepsHandle(World(s1, e1), base);
  }

  lemma SameTableKeepsHandle(w: World, v: World, base: set<int>)
    requires HandleOwned(w, base)
    requires v.env.open.Keys == w.env.open.Keys && v.env.nextFd == w.env.nextFd && v.sock.handle == w.sock.handle
    ensures HandleOwned(v, base)
  {
    assert Own(v) == Own(w);
    assert forall fd :: fd in v.env.open <==> fd in v.env.open.Keys;
    assert forall fd :: fd in w.env.open <==> fd in w.env.open.Keys;
  }

  lemma StepKeepsHandle(w: World, op: Op, base: set<int>)
    requires HandleOwned(w, base)
    ensures HandleOwned(Step(w, op), base) <==> !(op.InitOp? && IsValid(w.sock))
  {
    if IsQuietOp(op) {
      hide Step;
      QuietStep(w, op);
      QuietKeepsHandle(w, Step(w, op), base);
    } else if op.ModeOp? {
      SetModeFlags(w.sock, w.env, op.nonblocking);
      SameTableKeepsHandle(w, Step(w, op), base);
    } else if op.ReceiveOp? {
      ReceiveKeepsHandle(w, op.max, op.dest);
      SameTableKeepsHandle(w, Step(w, op), base);
    } else if op.ListenOp? {
      if w.sock.role.Passive? {
        ListenKeepsHandle(w, op.addr, op.port, base);
      }
    } else if op.JoinOp? {
      if w.sock.role.Passive? {
        JoinKeepsHandle(w, op.addr, op.port, base);
      }
    } else if op.CloseOp? {
      CloseKeepsHandle(w, base);
    } else {
      InitHandleIff(w, base);
    }
  }

  ghost predicate HandleOwnedThroughout(w: World, ops: seq<Op>, base: set<int>)
    decreases |ops|
  {
    HandleOwned(w, base) && (ops != [] ==> HandleOwnedThroughout(Step(w, ops[0]), ops[1..], base))
  }

  /** Initialize is only called while the object holds no descriptor. */
  predicate InitOnlyWhenInvalid(w: World, ops: seq<Op>)
    decreases |ops|
  {
    ops == [] || (!(ops[0].InitOp? && IsValid(w.sock)) && InitOnlyWhenInvalid(Step(w, ops[0]), ops[1..]))
  }

  /** No descriptor leaks along a run iff Initialize is never called on a valid socket. */
  lemma {:induction false} NoDescriptorLeakIff(w: World, ops: seq<Op>, base: set<int>)
    requires HandleOwned(w, base)
    ensures HandleOwnedThroughout(w, ops, base) <==> InitOnlyWhenInvalid(w, ops)
    decreases |ops|
  {
    if ops != [] {
      StepKeepsHandle(w, ops[0], base);
      if HandleOwned(Step(w, ops[0]), base) {
        NoDescriptorLeakIff(Step(w, ops[0]), ops[1..], base);
      }
    }
  }

  /** The shortest leaking run: two granted Initialize calls on a new object leave two more
      descriptors open, of which it holds one. */
  lemma SecondInitializeLeaks(role: Role, kind: Kind, env: Env)
    requires |env.script| == 2 && env.script[0].Ok? && env.script[1].Ok?
    ensures var v := Run(World(Fresh(role, kind), env), [InitOp, InitOp]);
            && v.env.open.Keys == env.open.Keys + {env.nextFd, env.nextFd + 1}
            && v.sock.handle == env.nextFd + 1
  {
    hide Initialize;
    var w := World(Fresh(role, kind), env);
    var ops := [InitOp, InitOp];
    assert ops[1..] == [InitOp] && ops[1..][1..] == [];
    GrantedInitStep(w);
    GrantedInitStep(Step(w, InitOp));
    assert Run(w, ops) == Step(Step(w, InitOp), InitOp);
  }

  lemma GrantedInitStep(w: World)
    requires w.env.script != [] && w.env.script[0].Ok?
    ensures var v := Step(w, InitOp);
            && v.sock == w.sock.(handle := w.env.nextFd, error := Success, timer := v.sock.timer)
            && v.env.open == w.env.open[w.env.nextFd := NewDesc()]
            && v.env.nextFd == w.env.nextFd + 1 && v.env.script == w.env.script[1..]
  {
  }

  // --- The blocking mode

  predicate IsNonblockingFd(env: Env, fd: int)
    requires fd in env.open
  {
    SaysNonblocking(env.open[fd].flags)
  }

  predicate SaysNonblocking(flags: bv31) {
    flags & O_NONBLOCK != 0
  }

  function OtherFlags(flags: bv31): bv31 {
    flags & !O_NONBLOCK
  }

  /** m_bIsBlocking tells the mode of the descriptor the object holds. */
  predicate MirrorRight(w: World) {
    w.sock.handle in w.env.open ==> w.sock.blocking == !IsNonblockingFd(w.env, w.sock.handle)
  }

  /** Setting a mode succeeds iff both fcntl calls are granted on an open descriptor, and changes
      O_NONBLOCK of that descriptor or nothing.  A failure carries the error of the refused call;
      a success does not touch the error. */
  lemma SetModeFlags(s: Sock, env: Env, nonblocking: bool)
    ensures var o := SetMode(s, env, nonblocking);
            && o.env.open.Keys == env.open.Keys && o.env.nextFd == env.nextFd && o.sock.handle == s.handle
            && (forall fd :: fd in env.open ==> OtherFlags(o.env.open[fd].flags) == OtherFlags(env.open[fd].flags))
            && (forall fd :: fd in env.open && fd != s.handle ==> o.env.open[fd] == env.open[fd])
            && (o.ret <==> s.handle in env.open && ReplyAt(env, s.handle, 0).Ok? && ReplyAt(env, s.handle, 1).Ok?)
            && (o.ret ==> o.sock.error == s.error)
            && (!o.ret ==>
                  var get := ReplyAt(env, s.handle, 0);
                  o.sock.error == Translate(if get.Fail? then get.err else ReplyAt(env, s.handle, 1).err))
            && (o.ret ==> s.handle in env.open && o.sock.blocking == !nonblocking
                          && IsNonblockingFd(o.env, s.handle) == nonblocking)
            && (!o.ret ==> o.env.open == env.open && o.sock.blocking == s.blocking)
  {
    hide ModeFlags, SetMode, OtherFlags, SaysNonblocking, Translate;
    SetModeReports(s, env, nonblocking);
    SetModeTable(s, env, nonblocking);
    if s.handle in env.open {
      FlagBits(env.open[s.handle].flags, nonblocking);
    }
  }

  lemma SetModeReports(s: Sock, env: Env, nonblocking: bool)
    ensures var o := SetMode(s, env, nonblocking);
            var get := ReplyAt(env, s.handle, 0);
            && (o.ret <==> s.handle in env.open && get.Ok? && ReplyAt(env, s.handle, 1).Ok?)
            && (o.ret ==> o.sock.error == s.error)
            && (!o.ret ==> o.sock.error == Translate(if get.Fail? then get.err else ReplyAt(env, s.handle, 1).err))
  {
    hide ModeFlags, Translate;
  }

  lemma SetModeTable(s: Sock, env: Env, nonblocking: bool)
    ensures var o := SetMode(s, env, nonblocking);
            && o.env.nextFd == env.nextFd && o.sock.handle == s.handle
            && (o.ret ==> s.handle in env.open && o.sock.blocking == !nonblocking
                          && o.env.open == env.open[s.handle := env.open[s.handle].(flags :=
                               ModeFlags(env.open[s.handle].flags, nonblocking))])
            && (!o.ret ==> o.env.open == env.open && o.sock.blocking == s.blocking)
  {
    hide ModeFlags;
  }

  lemma FlagBits(flags: bv31, nonblocking: bool)
    ensures SaysNonblocking(ModeFlags(flags, nonblocking)) <==> nonblocking
    ensures OtherFlags(ModeFlags(flags, nonblocking)) == OtherFlags(flags)
  {
  }

  /** Of the descriptors that existed in `w`, those still open in `v` have their flags but for
      O_NONBLOCK, and O_NONBLOCK too unless the object held them in `w`. */
  ghost predicate FlagsKept(w: World, v: World) {
    && w.env.nextFd <= v.env.nextFd
    && (v.sock.handle in {w.sock.handle, INVALID_SOCKET} || w.env.nextFd <= v.sock.handle)
    && forall fd :: fd in v.env.open && fd < w.env.nextFd ==>
         && fd in w.env.open
         && OtherFlags(v.env.open[fd].flags) == OtherFlags(w.env.open[fd].flags)
         && (fd !in {w.sock.handle, INVALID_SOCKET} ==> v.env.open[fd].flags == w.env.open[fd].flags)
  }

  lemma SameFlagsKept(w: World, v: World)
    requires w.env.nextFd <= v.env.nextFd && v.sock.handle == w.sock.handle
    requires v.env.open.Keys == w.env.open.Keys
    requires forall fd :: fd in w.env.open && fd in v.env.open ==> w.env.open[fd].flags == v.env.open[fd].flags
    ensures FlagsKept(w, v)
  {
    assert forall fd :: fd in v.env.open <==> fd in v.env.open.Keys;
  }

  lemma FlagsKeptTransitive(u: World, v: World, w: World)
    requires FlagsKept(u, v) && FlagsKept(v, w)
    ensures FlagsKept(u, w)
  {
  }

  lemma CloseKeepsFlags(w: World)
    ensures var o := Close(w.sock, w.env); FlagsKept(w, World(o.sock, o.env))
  {
  }

  lemma InitKeepsFlags(w: World)
    ensures var o := Initialize(w.sock, w.env); FlagsKept(w, World(o.sock, o.env))
  {
  }

  lemma ReceiveKeepsFlags(w: World, max: nat, dest: Option<seq<Byte>>)
    ensures var o := Receive(w.sock, w.env, max, dest); FlagsKept(w, World(o.sock, o.env))
  {
    hide Receive;
    ReceiveKeepsHandle(w, max, dest);
    var o := Receive(w.sock, w.env, max, dest);
    SameFlagsKept(w, World(o.sock, o.env));
  }

  /** A quiet change followed, or not, by a Close and another error code. */
  lemma CleanUpKeepsFlags(w: World, v: World, u: World)
    requires Quiet(w.env, v.env) && v.sock.handle == w.sock.handle
    requires var c := Close(v.sock, v.env);
             u == v || (u.env == c.env && u.sock.handle == c.sock.handle)
    ensures FlagsKept(w, u)
  {
    hide Close, OtherFlags;
    SameFlagsKept(w, v);
    CloseKeepsFlags(v);
    var c := Close(v.sock, v.env);
    FlagsKeptTransitive(w, v, World(c.sock, c.env));
  }

  lemma ListenKeepsFlags(w: World, addr: HostArg, port: int)
    ensures var o := Listen(w.sock, w.env, addr, port); FlagsKept(w, World(o.sock, o.env))
  {
    hide Bound, Close, FlagsKept, Quiet;
    var (s1, e1, _) := Bound(w.sock, w.env, addr, port);
    var o := Listen(w.sock, w.env, addr, port);
    BoundQuiet(w.sock, w.env, addr, port);
    CleanUpKeepsFlags(w, World(s1, e1), World(o.sock, o.env));
  }

  lemma JoinKeepsFlags(w: World, addr: HostArg, port: int)
    ensures var o := BindMulticast(w.sock, w.env, addr, port); FlagsKept(w, World(o.sock, o.env))
  {
    hide Joined, Close, FlagsKept, Quiet;
    var (s1, e1, _) := Joined(w.sock, w.env, addr, port);
    var o := BindMulticast(w.sock, w.env, addr, port);
    JoinedQuiet(w.sock, w.env, addr, port);
    CleanUpKeepsFlags(w, World(s1, e1), World(o.sock, o.env));
  }

  lemma ModeKeepsFlags(w: World, nonblocking: bool)
    ensures var o := SetMode(w.sock, w.env, nonblocking); FlagsKept(w, World(o.sock, o.env))
  {
    hide SetMode, OtherFlags;
    SetModeFlags(w.sock, w.env, nonblocking);
  }

  lemma QuietKeepsFlags(w: World, op: Op)
    requires IsQuietOp(op)
    ensures FlagsKept(w, Step(w, op))
  {
    hide Step;
    QuietStep(w, op);
    SameFlagsKept(w, Step(w, op));
  }

  lemma StepKeepsFlags(w: World, op: Op)
    ensures FlagsKept(w, Step(w, op))
  {
    hide FlagsKept, Initialize, Close, SetMode, Receive, Listen, BindMulticast;
    match op
    case InitOp => InitKeepsFlags(w);
    case CloseOp => CloseKeepsFlags(w);
    case ModeOp(nonblocking) => ModeKeepsFlags(w, nonblocking);
    case ReceiveOp(max, dest) => ReceiveKeepsFlags(w, max, dest);
    case ListenOp(addr, port) => ListenKeepsFlags(w, addr, port); SameFlagsKept(w, w);
    case JoinOp(addr, port) => JoinKeepsFlags(w, addr, port); SameFlagsKept(w, w);
    case _ => QuietKeepsFlags(w, op);
  }

  /** Over every run, no operation changes a flag other than O_NONBLOCK of any descriptor, or
      O_NONBLOCK of a descriptor that is not the object's own. */
  lemma {:induction false} FlagsConservation(w: World, ops: seq<Op>)
    ensures FlagsKept(w, Run(w, ops))
    decreases |ops|
  {
    hide Step, FlagsKept;
    if ops == [] {
      SameFlagsKept(w, w);
    } else {
      StepKeepsFlags(w, ops[0]);
      FlagsConservation(Step(w, ops[0]), ops[1..]);
      FlagsKeptTransitive(w, Step(w, ops[0]), Run(w, ops));
    }
  }

  /** A successful Initialize on an object that believes itself non-blocking. */
  predicate StaleInit(w: World, op: Op) {
    op.InitOp? && !w.sock.blocking && NextReply(w.env.script).Ok?
  }

  ghost predicate Tabled(w: World) {
    -1 !in w.env.open
  }

  lemma CloseMirror(w: World)
    requires Tabled(w)
    ensures var o := Close(w.sock, w.env);
            && Tabled(World(o.sock, o.env))
            && (MirrorRight(w) ==> MirrorRight(World(o.sock, o.env)))
  {
  }

  lemma NewIsBlocking()
    ensures !SaysNonblocking(NewDesc().flags)
  {
  }

  lemma StepMirror(w: World, op: Op)
    requires Tabled(w)
    ensures Tabled(Step(w, op))
    ensures MirrorRight(w) ==> (MirrorRight(Step(w, op)) <==> !StaleInit(w, op))
  {
    hide Receive, Close, SetMode, Joined, Bound, SaysNonblocking, SendFile;
    if IsQuietOp(op) {
      QuietStep(w, op);
    } else {
      match op
      case InitOp =>
        NewIsBlocking();
      case ReceiveOp(max, dest) => ReceiveKeepsHandle(w, max, dest);
      case CloseOp => CloseMirror(w);
      case ModeOp(nonblocking) => SetModeFlags(w.sock, w.env, nonblocking);
      case ListenOp(addr, port) =>
        if w.sock.role.Passive? {
          var (s2, e4, ok) := Bound(w.sock, w.env, addr, port);
          BoundQuiet(w.sock, w.env, addr, port);
          CloseMirror(World(s2, e4));
        }
      case JoinOp(addr, port) =>
        if w.sock.role.Passive? {
          var (s1, e1, ok) := Joined(w.sock, w.env, addr, port);
          JoinedQuiet(w.sock, w.env, addr, port);
          CloseMirror(World(s1, e1));
        }
    }
  }

  ghost predicate MirrorThroughout(w: World, ops: seq<Op>)
    decreases |ops|
  {
    MirrorRight(w) && (ops != [] ==> MirrorThroughout(Step(w, ops[0]), ops[1..]))
  }

  predicate NoStaleInit(w: World, ops: seq<Op>)
    decreases |ops|
  {
    ops == [] || (!StaleInit(w, ops[0]) && NoStaleInit(Step(w, ops[0]), ops[1..]))
  }

  /** The mirror is right in every state of a run iff no Initialize succeeds while the object
      says non-blocking. */
  lemma {:induction false} MirrorIff(w: World, ops: seq<Op>)
    requires Tabled(w) && MirrorRight(w)
    ensures MirrorThroughout(w, ops) <==> NoStaleInit(w, ops)
    decreases |ops|
  {
    if ops != [] {
      StepMirror(w, ops[0]);
      if MirrorRight(Step(w, ops[0])) {
        MirrorIff(Step(w, ops[0]), ops[1..]);
      }
    }
  }

  /** The shortest run that makes the mirror wrong: Initialize, SetNonblocking and Initialize, all
      granted.  The new descriptor blocks and the object says that it does not. */
  lemma ReinitializeBreaksMirror(role: Role, kind: Kind, env: Env)
    requires |env.script| == 4 && forall i :: 0 <= i < 4 ==> env.script[i].Ok?
    ensures var v := Run(World(Fresh(role, kind), env), [InitOp, ModeOp(true), InitOp]);
            && v.sock.handle in v.env.open && !IsNonblockingFd(v.env, v.sock.handle)
            && !v.sock.blocking && !MirrorRight(v)
  {
    hide Initialize, SetMode, SaysNonblocking;
    var w := World(Fresh(role, kind), env);
    var ops := [InitOp, ModeOp(true), InitOp];
    assert ops[1..] == [ModeOp(true), InitOp] && ops[1..][1..] == [InitOp] && ops[1..][1..][1..] == [];
    GrantedInitStep(w);
    var w1 := Step(w, InitOp);
    GrantedMode(w1);
    var w2 := Step(w1, ModeOp(true));
    GrantedInitStep(w2);
    NewIsBlocking();
    assert Run(w, ops) == Step(w2, InitOp);
  }

  lemma GrantedMode(w: World)
    requires w.sock.handle in w.env.open
    requires |w.env.script| >= 2 && w.env.script[0].Ok? && w.env.script[1].Ok?
    ensures var v := Step(w, ModeOp(true));
            !v.sock.blocking && v.env.script == w.env.script[2..]
  {
    hide ModeFlags;
    assert w.env.script[1..][1..] == w.env.script[2..];
  }

  /** So one Initialize on a fresh object, followed by anything but another one, keeps it. */
  lemma InitOnceMirrors(role: Role, kind: Kind, env: Env, ops: seq<Op>)
    requires -1 !in env.open && InitOp !in ops
    ensures MirrorThroughout(Step(World(Fresh(role, kind), env), InitOp), ops)
  {
    hide MirrorThroughout;
    var w := World(Fresh(role, kind), env);
    StepMirror(w, InitOp);
    NoInitNoStale(Step(w, InitOp), ops);
    MirrorIff(Step(w, InitOp), ops);
  }

  lemma {:induction false} NoInitNoStale(w: World, ops: seq<Op>)
    requires InitOp !in ops
    ensures NoStaleInit(w, ops)
    decreases |ops|
  {
    if ops != [] {
      hide Step;
      assert ops[0] in ops;
      assert forall op :: op in ops[1..] ==> op in ops;
      NoInitNoStale(Step(w, ops[0]), ops[1..]);
    }
  }

  lemma {:induction false} MirrorAtEnd(w: World, ops: seq<Op>)
    requires Tabled(w) && MirrorRight(w) && NoStaleInit(w, ops)
    ensures MirrorRight(Run(w, ops))
    decreases |ops|
  {
    if ops != [] {
      StepMirror(w, ops[0]);
      MirrorAtEnd(Step(w, ops[0]), ops[1..]);
    }
  }

  /** After such a run, a connect polls with select only if the descriptor really is
      non-blocking. */
  lemma ConnectPollsOnlyNonblocking(w: World, ops: seq<Op>, lookup: Lookup, port: int)
    requires Tabled(w) && MirrorRight(w) && NoStaleInit(w, ops)
    ensures var v := Run(w, ops);
            ConnectTcp(v.sock, v.env, lookup, port).env.polls != v.env.polls ==>
              v.sock.handle in v.env.open ==> IsNonblockingFd(v.env, v.sock.handle)
  {
    MirrorAtEnd(w, ops);
  }

  // --- The connect timeout

  ghost predicate SameTimeout(s: Sock, t: Sock) {
    s.connectSec == t.connectSec && s.connectUsec == t.connectUsec
  }

  lemma SendKeepsTimeout(s: Sock, env: Env, buf: Option<seq<Byte>>, n: nat)
    ensures SameTimeout(s, Send(s, env, buf, n).sock)
  {
    hide RetryLoop, Attempt;
  }

  lemma {:induction false} SendEachKeepsTimeout(s: Sock, env: Env, bufs: seq<seq<Byte>>, total: int, done: nat)
    ensures SameTimeout(s, SendEach(s, env, bufs, total, done).sock)
    decreases |bufs|
  {
    hide Send;
    if bufs != [] {
      var o := Send(s, env, Some(bufs[0]), |bufs[0]|);
      SendKeepsTimeout(s, env, Some(bufs[0]), |bufs[0]|);
      if o.ret != SOCKET_ERROR {
        SendEachKeepsTimeout(o.sock, o.env, bufs[1..], total + o.ret, done + 1);
      }
    }
  }

  lemma VectorKeepsTimeout(s: Sock, env: Env, bufs: seq<seq<Byte>>)
    ensures SameTimeout(s, SendVector(s, env, bufs).sock)
  {
    hide Send, SendEach;
    var s0 := s.(error := Success, sent := 0);
    SendEachKeepsTimeout(s0, env, bufs, 0, 0);
    var g := SendEach(s0, env, bufs, 0, 0);
    var e1 := GetNoDelayCall(g.env, g.sock.handle).0;
    SendKeepsTimeout(g.sock, SetNoDelayCall(e1, g.sock.handle, 1).0, Some([0]), 0);
  }

  lemma ReceiveKeepsTimeout(s: Sock, env: Env, max: nat, dest: Option<seq<Byte>>)
    ensures SameTimeout(s, Receive(s, env, max, dest).sock)
  {
    hide RecvLoop, PlaceAll, LastSource, PrepareBuffer;
    PrepareTouches(s.(received := 0), env, max);
  }

  lemma ModeKeepsTimeout(s: Sock, env: Env, nonblocking: bool)
    ensures SameTimeout(s, SetMode(s, env, nonblocking).sock)
  {
    hide ModeFlags;
  }

  lemma SelectKeepsTimeout(s: Sock, env: Env, sec: int, usec: int)
    ensures SameTimeout(s, Select(s, env, sec, usec).sock)
  {
  }

  lemma CloseKeepsTimeout(s: Sock, env: Env)
    ensures SameTimeout(s, Close(s, env).sock)
  {
  }

  lemma BindingKeepsTimeout(s: Sock, env: Env, addr: HostArg, port: int)
    ensures SameTimeout(s, Listen(s, env, addr, port).sock)
    ensures SameTimeout(s, BindMulticast(s, env, addr, port).sock)
  {
    hide Close, BindCalls, BindCall, PlainCall, Translate;
    var (s1, e1, _) := Bound(s, env, addr, port);
    CloseKeepsTimeout(s1, e1);
    var (s2, e2, _) := Joined(s, env, addr, port);
    CloseKeepsTimeout(s2, e2);
  }

  lemma OpenKeepsTimeout(s: Sock, env: Env, host: Option<Lookup>, port: int)
    ensures SameTimeout(s, Open(s, env, host, port).sock)
  {
    hide Select, ConnectCall, NameCall, Translate;
    if host.Some? && host.value.Found? {
      var s1 := s.(server := Addr(host.value.ip, port));
      var e := ConnectCall(Tick(env), s.handle, s1.server).0;
      SelectKeepsTimeout(Translated(s1, e), e, s.connectSec, s.connectUsec);
    }
  }

  /** Only SetConnectTimeout changes the connect timeout. */
  lemma StepKeepsTimeout(w: World, op: Op)
    requires !op.TimeoutOp?
    ensures SameTimeout(w.sock, Step(w, op).sock)
  {
    hide Initialize, Send, SendVector, Receive, Close, SetMode, Select, Listen, BindMulticast, Open, SendFile;
    match op
    case InitOp => InitKeepsTimeout(w.sock, w.env);
    case SendOp(buf, n) => SendKeepsTimeout(w.sock, w.env, buf, n);
    case VectorOp(bufs) => VectorKeepsTimeout(w.sock, w.env, bufs);
    case ReceiveOp(max, dest) => ReceiveKeepsTimeout(w.sock, w.env, max, dest);
    case CloseOp => CloseKeepsTimeout(w.sock, w.env);
    case ModeOp(nonblocking) => ModeKeepsTimeout(w.sock, w.env, nonblocking);
    case SelectOp(sec, usec) => SelectKeepsTimeout(w.sock, w.env, sec, usec);
    case ListenOp(addr, port) => BindingKeepsTimeout(w.sock, w.env, addr, port);
    case JoinOp(addr, port) => BindingKeepsTimeout(w.sock, w.env, addr, port);
    case OpenOp(host, port) => OpenKeepsTimeout(w.sock, w.env, host, port);
    case _ =>
  }

  lemma InitKeepsTimeout(s: Sock, env: Env)
    ensures SameTimeout(s, Initialize(s, env).sock)
  {
  }

  lemma {:induction false} RunKeepsTimeout(w: World, ops: seq<Op>)
    requires forall op :: op in ops ==> !op.TimeoutOp?
    ensures SameTimeout(w.sock, Run(w, ops).sock)
    decreases |ops|
  {
    hide Step;
    if ops != [] {
      assert ops[0] in ops;
      assert forall op :: op in ops[1..] ==> op in ops;
      StepKeepsTimeout(w, ops[0]);
      RunKeepsTimeout(Step(w, ops[0]), ops[1..]);
    }
  }
}
