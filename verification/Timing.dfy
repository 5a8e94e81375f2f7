/** What the timer of a socket object shows.  The operations read the clock themselves, and
    the clock moves on by any amount before each reading. */
module Timing {
  import opened Posix
  import opened Retry
  import opened StatTimer
  import opened SocketModel
  import opened FileCopy
  import opened Setup
  import opened Lifecycle

  // --- Calls that do not read the clock

  lemma AttemptKeepsTime(env: Env, fd: int, req: Request, offset: int)
    ensures Attempt(env, fd, req, offset).0.time == env.time
  {
  }

  lemma {:induction false} LoopsKeepTime(env: Env, fd: int, req: Request, offset: int)
    ensures RetryLoop(env, fd, req, offset).env.time == env.time
    decreases |env.script|
  {
    hide Attempt, Translate;
    AttemptKeepsTime(env, fd, req, offset);
    var (e, t) := Attempt(env, fd, req, offset);
    if Translate(e.errno) == Interrupted {
      InterruptedConsumes(env, fd, req, offset);
      LoopsKeepTime(e, fd, req, NextOffset(t));
    }
  }

  lemma {:induction false} ClearedKeepsTime(env: Env, fd: int, req: Request)
    ensures ClearedLoop(env, fd, req).env.time == env.time
    decreases |env.script|
  {
    hide Attempt, Translate;
    var cleared := env.(errno := NoError);
    AttemptKeepsTime(cleared, fd, req, 0);
    var e := Attempt(cleared, fd, req, 0).0;
    if Translate(e.errno) == Interrupted {
      InterruptedConsumes(cleared, fd, req, 0);
      ClearedKeepsTime(e, fd, req);
    }
  }

  /** The reading of the timer and the clock are as before. */
  ghost predicate Untimed(w: World, v: World) {
    v.sock.timer == w.sock.timer && v.env.time == w.env.time
  }

  /** The clock was read twice, and the timer shows the two readings. */
  ghost predicate TimedOnce(w: World, v: World) {
    && v.env.time == Tick(Tick(w.env)).time
    && v.sock.timer == Bracket(Tick(w.env), v.env)
  }

  lemma CloseUntimed(s: Sock, env: Env)
    ensures var o := Close(s, env); Untimed(World(s, env), World(o.sock, o.env))
  {
  }

  lemma SelectUntimed(s: Sock, env: Env, sec: int, usec: int)
    ensures var o := Select(s, env, sec, usec); Untimed(World(s, env), World(o.sock, o.env))
  {
  }

  lemma FlushUntimed(s: Sock, env: Env)
    ensures var o := Flush(s, env); Untimed(World(s, env), World(o.sock, o.env))
  {
    hide Send;
    var (e1, cur) := GetNoDelayCall(env, s.handle);
    if cur.Some? {
      SendTiming(s, SetNoDelayCall(e1, s.handle, 1).0, Some([0]), 0);
    }
  }

  lemma {:induction false} PumpUntimed(env: Env, out: int, sent: int, count: int)
    ensures Pump(env, out, sent, count).0.time == env.time
    decreases count - sent
  {
    hide Attempt, ReadCall;
    if sent < count {
      var n := Min(count - sent, BLOCK_SIZE);
      var (e1, got) := ReadCall(env, n);
      ReadUntimed(env, n);
      if got.Some? && |got.value| == n {
        AttemptKeepsTime(e1, out, SendRequest(got.value), 0);
        PumpUntimed(Attempt(e1, out, SendRequest(got.value), 0).0, out, sent + n, count);
      }
    }
  }

  lemma ReadUntimed(env: Env, n: nat)
    ensures ReadCall(env, n).0.time == env.time
  {
  }

  // --- The operations

  lemma BaseSendTiming(s: Sock, env: Env, buf: Option<seq<Byte>>, n: nat)
    ensures var o := BaseSend(s, env, buf, n);
            var w, v := World(s, env), World(o.sock, o.env);
            if ReachesOs(s, buf, n) then TimedOnce(w, v) else Untimed(w, v)
  {
    hide RetryLoop;
    if ReachesOs(s, buf, n) {
      LoopsKeepTime(Tick(env), s.handle, SendRequestOf(s, Prefix(buf.value, n)), 0);
    }
  }

  /** A Send of either class times itself iff it passes its guards. */
  lemma SendTiming(s: Sock, env: Env, buf: Option<seq<Byte>>, n: nat)
    ensures var o := Send(s, env, buf, n);
            var w, v := World(s, env), World(o.sock, o.env);
            if ReachesOs(s, buf, n) then TimedOnce(w, v) else Untimed(w, v)
  {
    hide BaseSend, Attempt;
    BaseSendTiming(s, env, buf, n);
    BaseSendTiming(s.(error := Success, sent := 0), env, buf, n);
    if ReachesOs(s, buf, n) {
      AttemptKeepsTime(Tick(env), s.handle, SendToRequest(Prefix(buf.value, n), s.client), 0);
    }
  }

  lemma ReceiveTiming(s: Sock, env: Env, max: nat, dest: Option<seq<Byte>>)
    ensures var o := Receive(s, env, max, dest);
            var w, v := World(s, env), World(o.sock, o.env);
            if IsValid(s) then TimedOnce(w, v) else Untimed(w, v)
  {
    hide RecvLoop, PlaceAll, LastSource, PrepareBuffer, Filled;
    if IsValid(s) {
      var s0 := s.(received := 0);
      var (s1, e1) := if dest.None? then PrepareBuffer(s0, env, max) else (s0, env);
      PrepareTouches(s0, env, max);
      RecvLoopKeepsTime(s1, Tick(e1), max);
    }
  }

  lemma RecvLoopKeepsTime(s: Sock, env: Env, max: nat)
    ensures RecvLoop(s, env, max).env.time == env.time
  {
    hide RetryLoop;
    LoopsKeepTime(env, s.handle, RecvRequestOf(s, max), 0);
  }

  lemma InitializeTiming(s: Sock, env: Env)
    ensures var o := Initialize(s, env); TimedOnce(World(s, env), World(o.sock, o.env))
  {
  }

  lemma ListenTiming(s: Sock, env: Env, addr: HostArg, port: int)
    ensures var o := Listen(s, env, addr, port); TimedOnce(World(s, env), World(o.sock, o.env))
  {
    hide Close, Bound;
    BoundTiming(s, env, addr, port);
    var (s1, e1, _) := Bound(s, env, addr, port);
    CloseUntimed(s1, e1);
  }

  lemma BoundTiming(s: Sock, env: Env, addr: HostArg, port: int)
    ensures var (s1, e1, _) := Bound(s, env, addr, port); TimedOnce(World(s, env), World(s1, e1))
  {
    hide PlainCall, BindCall, ListenCall;
    var at := Addr(HostIp(addr), port);
    var e1 := PlainCall(env, s.handle).0;
    var e2 := PlainCall(e1, s.handle).0;
    CallsKeepTime(env, s.handle, at);
    CallsKeepTime(e1, s.handle, at);
    CallsKeepTime(Tick(e2), s.handle, at);
    CallsKeepTime(BindCall(Tick(e2), s.handle, at).0, s.handle, at);
  }

  lemma CallsKeepTime(env: Env, fd: int, addr: Addr)
    ensures PlainCall(env, fd).0.time == env.time && BindCall(env, fd, addr).0.time == env.time
    ensures ListenCall(env, fd).0.time == env.time
  {
  }

  /** BindMulticast resets and starts the timer last. */
  lemma JoinTiming(s: Sock, env: Env, addr: HostArg, port: int)
    ensures var o := BindMulticast(s, env, addr, port);
            && o.sock.timer == Reading(Stamp(o.env.time.now), ZERO_TIME)
            && env.time.now <= o.env.time.now
  {
    hide Close, Joined;
    JoinedTiming(s, env, addr, port);
    var (s1, e1, _) := Joined(s, env, addr, port);
    CloseUntimed(s1, e1);
  }

  lemma JoinedTiming(s: Sock, env: Env, addr: HostArg, port: int)
    ensures var (s1, e1, _) := Joined(s, env, addr, port);
            s1.timer == Reading(Stamp(e1.time.now), ZERO_TIME) && env.time.now <= e1.time.now
  {
  }

  /** Open times itself iff it gets as far as connect. */
  lemma OpenTiming(s: Sock, env: Env, host: Option<Lookup>, port: int)
    ensures var o := Open(s, env, host, port);
            var w, v := World(s, env), World(o.sock, o.env);
            if Addressed(s, host, port) && s.kind in {Tcp, Udp} then TimedOnce(w, v) else Untimed(w, v)
  {
    hide ConnectTcp, ConnectUdp;
    if host.Some? {
      ConnectTiming(s, env, host.value, port);
    }
  }

  lemma ConnectTiming(s: Sock, env: Env, lookup: Lookup, port: int)
    ensures var t := ConnectTcp(s, env, lookup, port);
            var u := ConnectUdp(s, env, lookup, port);
            var w := World(s, env);
            if lookup.Found? && lookup.ip != INADDR_NONE then
              TimedOnce(w, World(t.sock, t.env)) && TimedOnce(w, World(u.sock, u.env))
            else
              Untimed(w, World(t.sock, t.env)) && Untimed(w, World(u.sock, u.env)) && !t.ret && !u.ret
  {
    hide ConnectOrPoll;
    var (s1, resolved) := Resolve(s, env, lookup, port);
    if resolved {
      PollUntimed(s1, Tick(env));
    }
  }

  lemma PollUntimed(s: Sock, env: Env)
    ensures var o := ConnectOrPoll(s, env); Untimed(World(s, env), World(o.sock, o.env))
  {
    hide Select;
    var e := ConnectCall(env, s.handle, s.server).0;
    SelectUntimed(Translated(s, e), e, s.connectSec, s.connectUsec);
  }

  /** Accept times itself on every TCP listener, whether or not it returns a connection. */
  lemma AcceptTiming(s: Sock, env: Env)
    ensures var a := Accept(s, env);
            var w, v := World(s, env), World(a.listener, a.env);
            if s.kind == Tcp then TimedOnce(w, v) else Untimed(w, v)
  {
    hide ClearedLoop;
    if s.kind == Tcp {
      ClearedKeepsTime(Tick(env), s.handle, AcceptRequest);
    }
  }

  /** Some buffer of the vector passes the guards of Send. */
  predicate AnyReaches(s: Sock, bufs: seq<seq<Byte>>) {
    exists i :: 0 <= i < |bufs| && ReachesOs(s, Some(bufs[i]), |bufs[i]|)
  }

  lemma SendKeepsGuards(s: Sock, env: Env, buf: Option<seq<Byte>>, n: nat)
    ensures Send(s, env, buf, n).sock.kind == s.kind && Send(s, env, buf, n).sock.handle == s.handle
    ensures !ReachesOs(s, buf, n) ==> Send(s, env, buf, n).ret == 0
  {
  }

  /** The environment in which the loop of Writev sends buffer `i`, after the ones before it. */
  function BeforeBuffer(s: Sock, env: Env, bufs: seq<seq<Byte>>, i: nat): Env
    requires i <= |bufs|
  {
    SendEach(s, env, bufs[..i], 0, 0).env
  }

  /** The loop of Writev gets as far as buffer `i`: no Send before it has failed. */
  predicate Attempted(s: Sock, env: Env, bufs: seq<seq<Byte>>, i: nat) {
    i < |bufs| && SendEach(s, env, bufs[..i], 0, 0).done == i
  }

  /** Buffer `i` is the last one that the loop gets to and that passes the guards of Send. */
  ghost predicate LastSent(s: Sock, env: Env, bufs: seq<seq<Byte>>, i: nat) {
    && Attempted(s, env, bufs, i) && ReachesOs(s, Some(bufs[i]), |bufs[i]|)
    && forall j :: i < j < |bufs| && ReachesOs(s, Some(bufs[j]), |bufs[j]|) ==> !Attempted(s, env, bufs, j)
  }

  /** The clock was last read around an operation that began in `mid`, and the timer shows these
      two readings. */
  ghost predicate TimedFrom(w: World, v: World, mid: Env) {
    && w.env.time.now <= mid.time.now
    && v.env.time == Tick(Tick(mid)).time
    && v.sock.timer == Bracket(Tick(mid), v.env)
  }

  /** The accumulators of the loop do not influence the sends. */
  lemma {:induction false} AccumulatorsIrrelevant(s: Sock, env: Env, bufs: seq<seq<Byte>>, total: int, done: nat)
    ensures var g := SendEach(s, env, bufs, total, done);
            var h := SendEach(s, env, bufs, 0, 0);
            g.sock == h.sock && g.env == h.env && g.done == h.done + done
    decreases |bufs|
  {
    hide Send;
    if bufs != [] {
      var o := Send(s, env, Some(bufs[0]), |bufs[0]|);
      if o.ret != SOCKET_ERROR {
        AccumulatorsIrrelevant(o.sock, o.env, bufs[1..], total + o.ret, done + 1);
        AccumulatorsIrrelevant(o.sock, o.env, bufs[1..], o.ret, 1);
      }
    }
  }

  /** The loop from the second buffer on gets to a buffer as the whole loop does. */
  lemma SameAttempts(s: Sock, env: Env, bufs: seq<seq<Byte>>, i: nat)
    requires 0 < i < |bufs|
    ensures var o := Send(s, env, Some(bufs[0]), |bufs[0]|);
            if o.ret == SOCKET_ERROR then !Attempted(s, env, bufs, i)
            else
              && BeforeBuffer(s, env, bufs, i) == BeforeBuffer(o.sock, o.env, bufs[1..], i - 1)
              && (Attempted(s, env, bufs, i) <==> Attempted(o.sock, o.env, bufs[1..], i - 1))
  {
    hide Send;
    var o := Send(s, env, Some(bufs[0]), |bufs[0]|);
    assert bufs[..i][1..] == bufs[1..][..i - 1] && bufs[..i][0] == bufs[0];
    if o.ret != SOCKET_ERROR {
      AccumulatorsIrrelevant(o.sock, o.env, bufs[1..][..i - 1], o.ret, 1);
    }
  }

  /** The first buffer is the last one sent if no later one is sent after it. */
  lemma FirstIsLast(s: Sock, env: Env, bufs: seq<seq<Byte>>)
    requires bufs != [] && ReachesOs(s, Some(bufs[0]), |bufs[0]|)
    requires var o := Send(s, env, Some(bufs[0]), |bufs[0]|);
             o.ret == SOCKET_ERROR || !AnyReaches(o.sock, bufs[1..])
    ensures LastSent(s, env, bufs, 0) && BeforeBuffer(s, env, bufs, 0) == env
  {
    hide Send, ReachesOs;
    var o := Send(s, env, Some(bufs[0]), |bufs[0]|);
    SendKeepsGuards(s, env, Some(bufs[0]), |bufs[0]|);
    assert bufs[..0] == [];
    forall j | 0 < j < |bufs| && ReachesOs(s, Some(bufs[j]), |bufs[j]|) ensures !Attempted(s, env, bufs, j) {
      SameAttempts(s, env, bufs, j);
      SameGuard(s, o.sock, bufs[j]);
      assert bufs[1..][j - 1] == bufs[j];
    }
  }

  lemma SameGuard(s: Sock, t: Sock, buf: seq<Byte>)
    requires t.kind == s.kind && t.handle == s.handle
    ensures ReachesOs(s, Some(buf), |buf|) <==> ReachesOs(t, Some(buf), |buf|)
  {
  }

  /** The last buffer sent by the rest of the loop is the last one sent by the loop. */
  lemma LaterIsLast(s: Sock, env: Env, bufs: seq<seq<Byte>>, i: nat)
    requires bufs != []
    requires var o := Send(s, env, Some(bufs[0]), |bufs[0]|);
             o.ret != SOCKET_ERROR && LastSent(o.sock, o.env, bufs[1..], i)
    ensures LastSent(s, env, bufs, i + 1)
    ensures var o := Send(s, env, Some(bufs[0]), |bufs[0]|);
            BeforeBuffer(s, env, bufs, i + 1) == BeforeBuffer(o.sock, o.env, bufs[1..], i)
  {
    hide Send, ReachesOs, Attempted, BeforeBuffer;
    var o := Send(s, env, Some(bufs[0]), |bufs[0]|);
    SendKeepsGuards(s, env, Some(bufs[0]), |bufs[0]|);
    AttemptedInside(o.sock, o.env, bufs[1..], i);
    SameAttempts(s, env, bufs, i + 1);
    SameGuard(s, o.sock, bufs[i + 1]);
    forall j | i + 1 < j < |bufs| && ReachesOs(s, Some(bufs[j]), |bufs[j]|) ensures !Attempted(s, env, bufs, j) {
      SameAttempts(s, env, bufs, j);
      SameGuard(s, o.sock, bufs[j]);
      assert bufs[1..][j - 1] == bufs[j];
    }
  }

  lemma AttemptedInside(s: Sock, env: Env, bufs: seq<seq<Byte>>, i: nat)
    requires Attempted(s, env, bufs, i)
    ensures i < |bufs|
  {
  }

  /** The timer shows the last Send of the loop that passed its guards, from the environment
      that the sends before it leave to the end of the loop. */
  lemma {:induction false} SendEachTiming(s: Sock, env: Env, bufs: seq<seq<Byte>>) returns (i: nat)
    ensures var g := SendEach(s, env, bufs, 0, 0);
            var w, v := World(s, env), World(g.sock, g.env);
            if AnyReaches(s, bufs) then LastSent(s, env, bufs, i) && TimedFrom(w, v, BeforeBuffer(s, env, bufs, i))
            else Untimed(w, v)
    decreases |bufs|
  {
    hide Send, ReachesOs, LastSent, BeforeBuffer, AnyReaches;
    i := 0;
    if bufs == [] {
      NothingReaches(s);
    } else {
      var buf := bufs[0];
      var o := Send(s, env, Some(buf), |buf|);
      SendTiming(s, env, Some(buf), |buf|);
      SendKeepsGuards(s, env, Some(buf), |buf|);
      AnyReachesStep(s, o.sock, bufs);
      if o.ret != SOCKET_ERROR {
        AccumulatorsIrrelevant(o.sock, o.env, bufs[1..], o.ret, 1);
        i := SendEachTiming(o.sock, o.env, bufs[1..]);
        if AnyReaches(o.sock, bufs[1..]) {
          LaterIsLast(s, env, bufs, i);
          i := i + 1;
        } else if ReachesOs(s, Some(buf), |buf|) {
          FirstIsLast(s, env, bufs);
          i := 0;
        }
      } else {
        FirstIsLast(s, env, bufs);
      }
    }
  }

  lemma NothingReaches(s: Sock)
    ensures !AnyReaches(s, [])
  {
  }

  lemma AnyReachesStep(s: Sock, t: Sock, bufs: seq<seq<Byte>>)
    requires bufs != [] && t.kind == s.kind && t.handle == s.handle
    ensures AnyReaches(s, bufs) <==> ReachesOs(s, Some(bufs[0]), |bufs[0]|) || AnyReaches(t, bufs[1..])
  {
    var rest := bufs[1..];
    if AnyReaches(s, bufs) {
      var i :| 0 <= i < |bufs| && ReachesOs(s, Some(bufs[i]), |bufs[i]|);
      if i > 0 {
        assert rest[i - 1] == bufs[i];
        assert ReachesOs(t, Some(rest[i - 1]), |rest[i - 1]|);
      }
    }
    if AnyReaches(t, rest) {
      var i :| 0 <= i < |rest| && ReachesOs(t, Some(rest[i]), |rest[i]|);
      assert ReachesOs(s, Some(bufs[i + 1]), |bufs[i + 1]|);
    }
  }

  /** The object that the loop of a vector send starts with. */
  function VectorStart(s: Sock): Sock {
    s.(error := Success, sent := 0)
  }

  lemma VectorTiming(s: Sock, env: Env, bufs: seq<seq<Byte>>) returns (i: nat)
    ensures var o := SendVector(s, env, bufs);
            var w, v := World(s, env), World(o.sock, o.env);
            if AnyReaches(s, bufs) then
              && LastSent(VectorStart(s), env, bufs, i)
              && TimedFrom(w, v, BeforeBuffer(VectorStart(s), env, bufs, i))
            else
              Untimed(w, v)
  {
    hide SendEach, Flush, ReachesOs, LastSent, BeforeBuffer;
    var s0 := VectorStart(s);
    i := SendEachTiming(s0, env, bufs);
    var g := SendEach(s0, env, bufs, 0, 0);
    FlushUntimed(g.sock, g.env);
    SameGuards(s, s0, bufs);
  }

  lemma SameGuards(s: Sock, t: Sock, bufs: seq<seq<Byte>>)
    requires t.kind == s.kind && t.handle == s.handle
    ensures AnyReaches(s, bufs) <==> AnyReaches(t, bufs)
  {
    assert forall i :: 0 <= i < |bufs| ==>
      (ReachesOs(s, Some(bufs[i]), |bufs[i]|) <==> ReachesOs(t, Some(bufs[i]), |bufs[i]|));
  }

  // --- Every operation of a run

  /** The operation gets as far as starting the timer. */
  predicate ReachesTimer(w: World, op: Op) {
    match op
    case InitOp => true
    case SendOp(buf, n) => ReachesOs(w.sock, buf, n)
    case VectorOp(bufs) => AnyReaches(w.sock, bufs)
    case ReceiveOp(_, _) => IsValid(w.sock)
    case ListenOp(_, _) => w.sock.role.Passive?
    case JoinOp(_, _) => w.sock.role.Passive?
    case OpenOp(host, port) =>
      w.sock.role.Active? && Addressed(w.sock, host, port) && w.sock.kind in {Tcp, Udp}
    case _ => false
  }

  /** The operation stops the timer after it has started it, and does so once. */
  predicate IsBracketed(op: Op) {
    !op.VectorOp? && !op.JoinOp?
  }

  /** Exactly which paths leave the old reading, and that every other path of a bracketed
      operation reads the clock twice and leaves these two readings. */
  lemma StepTiming(w: World, op: Op)
    ensures !ReachesTimer(w, op) ==> Untimed(w, Step(w, op))
    ensures ReachesTimer(w, op) && IsBracketed(op) ==> TimedOnce(w, Step(w, op))
  {
    hide Initialize, Send, SendVector, Receive, Close, SetMode, Select, Listen, BindMulticast, Open, Pump;
    hide AnyReaches, ReachesOs, Addressed;
    match op
    case InitOp => InitializeTiming(w.sock, w.env);
    case SendOp(buf, n) => SendTiming(w.sock, w.env, buf, n);
    case VectorOp(bufs) => var _ := VectorTiming(w.sock, w.env, bufs);
    case ReceiveOp(max, dest) => ReceiveTiming(w.sock, w.env, max, dest);
    case CloseOp => CloseUntimed(w.sock, w.env);
    case ModeOp(nonblocking) => ModeUntimed(w.sock, w.env, nonblocking);
    case SelectOp(sec, usec) => SelectUntimed(w.sock, w.env, sec, usec);
    case ListenOp(addr, port) => ListenTiming(w.sock, w.env, addr, port);
    case JoinOp(addr, port) =>
    case OpenOp(host, port) => OpenTiming(w.sock, w.env, host, port);
    case SendFileOp(out, offset, count) => PumpUntimed(SeekCall(w.env, offset).0, out, -1, count);
    case MulticastOp(_) =>
    case TimeoutOp(_, _) =>
  }

  lemma ModeUntimed(s: Sock, env: Env, nonblocking: bool)
    ensures var o := SetMode(s, env, nonblocking); Untimed(World(s, env), World(o.sock, o.env))
  {
    hide ModeFlags;
  }

  /** None of the operations gets as far as starting the timer. */
  predicate NoneReachTimer(w: World, ops: seq<Op>)
    decreases |ops|
  {
    ops == [] || (!ReachesTimer(w, ops[0]) && NoneReachTimer(Step(w, ops[0]), ops[1..]))
  }

  lemma {:induction false} RunUntimed(w: World, ops: seq<Op>)
    requires NoneReachTimer(w, ops)
    ensures Untimed(w, Run(w, ops))
    decreases |ops|
  {
    if ops != [] {
      hide Step, ReachesTimer;
      StepTiming(w, ops[0]);
      RunUntimed(Step(w, ops[0]), ops[1..]);
    }
  }

  /** Where the last timed call of the operation begins: the operation itself, or the last Send
      of a vector that passes its guards. */
  ghost predicate BeginsAt(u: World, op: Op, mid: Env) {
    if op.VectorOp? then
      exists i :: LastSent(VectorStart(u.sock), u.env, op.bufs, i)
                  && mid == BeforeBuffer(VectorStart(u.sock), u.env, op.bufs, i)
    else mid == u.env
  }

  /** `shown` is the time, modulo 2^32, between the two last readings of the clock, which were
      taken after `mid`. */
  ghost predicate ShowsSince(v: World, mid: Env, shown: nat) {
    && v.env.time == Tick(Tick(mid)).time
    && shown == (v.env.time.now - Tick(mid).time.now) % TWO32
  }

  /** One operation that starts the timer: the reading it leaves. */
  lemma StepShows(u: World, op: Op) returns (mid: Env)
    requires ReachesTimer(u, op)
    ensures var v := Step(u, op);
            var shown := Shown(v.sock.timer);
            if op.JoinOp? then shown == -(v.env.time.now as int) % TWO32
            else BeginsAt(u, op, mid) && ShowsSince(v, mid, shown)
  {
    hide Step, Shown, Stamp, LastSent, BeforeBuffer;
    var v := Step(u, op);
    StepTiming(u, op);
    mid := u.env;
    if op.JoinOp? {
      JoinStep(u, op);
      ShownStamps(v.env.time.now, v.env.time.now);
    } else {
      if op.VectorOp? {
        var i := VectorStepTiming(u, op.bufs);
        mid := BeforeBuffer(VectorStart(u.sock), u.env, op.bufs, i);
      }
      ShownStamps(Tick(mid).time.now, v.env.time.now);
    }
  }

  lemma JoinStep(u: World, op: Op)
    requires op.JoinOp? && ReachesTimer(u, op)
    ensures var v := Step(u, op); v.sock.timer == Reading(Stamp(v.env.time.now), ZERO_TIME)
  {
    hide BindMulticast;
    JoinTiming(u.sock, u.env, op.addr, op.port);
  }

  lemma VectorStepTiming(u: World, bufs: seq<seq<Byte>>) returns (i: nat)
    requires ReachesTimer(u, VectorOp(bufs))
    ensures i < |bufs| && LastSent(VectorStart(u.sock), u.env, bufs, i)
    ensures TimedFrom(u, Step(u, VectorOp(bufs)), BeforeBuffer(VectorStart(u.sock), u.env, bufs, i))
  {
    hide SendVector, AnyReaches, BeforeBuffer;
    i := VectorTiming(u.sock, u.env, bufs);
  }

  /** Over every run, GetMicroSeconds shows the duration, modulo 2^32, of the last operation
      that got as far as starting the timer: the time between its two readings of the clock,
      or between those of the last Send of a vector that passed its guards.  After
      BindMulticast it shows minus the wall clock instead. */
  lemma LastTimedOperationShows(w: World, before: seq<Op>, op: Op, after: seq<Op>) returns (mid: Env)
    ensures var u := Run(w, before);
            var v := Step(u, op);
            var shown := Shown(Run(v, after).sock.timer);
            ReachesTimer(u, op) && NoneReachTimer(v, after) ==>
              if op.JoinOp? then shown == -(v.env.time.now as int) % TWO32
              else BeginsAt(u, op, mid) && ShowsSince(v, mid, shown)
  {
    hide Run, ReachesTimer, Shown, NoneReachTimer, Step, BeginsAt, ShowsSince;
    var u := Run(w, before);
    var v := Step(u, op);
    mid := w.env;
    if ReachesTimer(u, op) && NoneReachTimer(v, after) {
      RunUntimed(v, after);
      mid := StepShows(u, op);
    }
  }
}
