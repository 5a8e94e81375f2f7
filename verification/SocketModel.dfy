/** The state of a CSimpleSocket object and what each of its operations does to it and to
    the environment, as functions.  The classes of `Sockets.dfy` are proved against them. */
module SocketModel {
  import opened Posix
  import opened Retry
  import opened StatTimer

  datatype Kind = InvalidKind | Tcp | Udp | Tcp6 | Udp6 | Raw

  /** Send is virtual: a CPassiveSocket overrides it. */
  datatype Role = Simple | Active | Passive

  datatype Block = Block(id: nat, bytes: seq<Byte>)

  datatype Sock = Sock(
    role: Role,
    kind: Kind,
    handle: int,
    error: SocketError,
    buffer: Option<Block>,
    bufferSize: int,
    received: int,
    sent: int,
    blocking: bool,
    multicast: bool,
    connectSec: int,
    connectUsec: int,
    server: Addr,
    client: Addr,
    group: Addr,
    timer: Reading)

  const INVALID_SOCKET: int := -1
  const SOCKET_ERROR: int := -1

  datatype Outcome<T> = Outcome(sock: Sock, env: Env, ret: T)

  function Fresh(role: Role, kind: Kind): Sock {
    Sock(role, kind, INVALID_SOCKET, InvalidSocket, None, 0, -1, -1, true, false, 1, 0, Unset, Unset, Unset,
         Reading(ZERO_TIME, ZERO_TIME))
  }

  predicate IsValid(s: Sock) {
    s.handle != INVALID_SOCKET
  }

  function Translated(s: Sock, env: Env): Sock {
    s.(error := Translate(env.errno))
  }

  /** The timer reset, started when the clock read as in `a` and stopped when it read as in `b`. */
  function Bracket(a: Env, b: Env): Reading {
    Reading(Stamp(a.time.now), Stamp(b.time.now))
  }

  // --- Initialize, Close and destruction

  function Initialize(s: Sock, env: Env): Outcome<bool> {
    var e1 := Tick(env.(errno := NoError));
    var (e2, fd) := SocketCall(e1);
    var e3 := Tick(e2);
    Outcome(Translated(s.(handle := fd, timer := Bracket(e1, e3)), e3), e3, fd != INVALID_SOCKET)
  }

  /** The internal buffer, if any, goes back to the heap and the object forgets it. */
  function Release(s: Sock, env: Env): (Sock, Env) {
    if s.buffer.Some? then (s.(buffer := None), Free(env, s.buffer.value.id)) else (s, env)
  }

  function Close(s: Sock, env: Env): Outcome<bool> {
    var (s1, e1) := Release(s, env);
    if IsValid(s1) then
      var (e2, ok) := CloseCall(e1, s1.handle);
      Outcome(Translated(if ok then s1.(handle := INVALID_SOCKET) else s1, e2), e2, ok)
    else
      Outcome(Translated(s1, e1), e1, false)
  }

  /** The destructors: those of the active and passive classes call Close first. */
  function Destroy(s: Sock, env: Env): Env {
    var (s1, e1) := if s.role.Simple? then (s, env) else (Close(s, env).sock, Close(s, env).env);
    Release(s1, e1).1
  }

  // --- Send

  /** The bytes read by a call that is given a buffer and a size. */
  function Prefix(bytes: seq<Byte>, n: nat): seq<Byte> {
    if n <= |bytes| then bytes[..n] else bytes
  }

  /** A guarded send goes to the system only with a valid handle, a buffer and a size. */
  predicate ReachesOs(s: Sock, buf: Option<seq<Byte>>, n: nat) {
    s.kind in {Tcp, Udp} && IsValid(s) && n > 0 && buf.Some?
  }

  function SendRequestOf(s: Sock, data: seq<Byte>): Request {
    if s.kind == Udp then SendToRequest(data, s.server) else SendRequest(data)
  }

  /** CSimpleSocket::Send */
  function BaseSend(s: Sock, env: Env, buf: Option<seq<Byte>>, n: nat): Outcome<int> {
    var s0 := s.(error := Success, sent := 0);
    if ReachesOs(s, buf, n) then
      var e1 := Tick(env);
      var loop := RetryLoop(e1, s.handle, SendRequestOf(s, Prefix(buf.value, n)), 0);
      var sent := Last(loop.tries).result;
      var e2 := Tick(loop.env);
      Outcome(Translated(s0.(sent := sent, timer := Bracket(e1, e2)), e2), e2, sent)
    else
      Outcome(s0, env, 0)
  }

  /** CPassiveSocket::Send: a datagram goes to the last client and is not retried. */
  function PassiveSend(s: Sock, env: Env, buf: Option<seq<Byte>>, n: nat): Outcome<int> {
    var s0 := s.(error := Success, sent := 0);
    match s.kind
    case Udp =>
      if ReachesOs(s, buf, n) then
        var e1 := Tick(env);
        var (e2, t) := Attempt(e1, s.handle, SendToRequest(Prefix(buf.value, n), s.client), 0);
        var e3 := Tick(e2);
        var s1 := s0.(sent := t.result, timer := Bracket(e1, e3));
        Outcome(if t.result == SOCKET_ERROR then Translated(s1, e3) else s1, e3, t.result)
      else
        Outcome(s0, env, 0)
    case Tcp => BaseSend(s0, env, buf, n)
    case _ => Outcome(s0.(error := ProtocolError), env, 0)
  }

  function Send(s: Sock, env: Env, buf: Option<seq<Byte>>, n: nat): Outcome<int> {
    if s.role.Passive? then PassiveSend(s, env, buf, n) else BaseSend(s, env, buf, n)
  }

  // --- Receive

  function Zeros(n: nat): (r: seq<Byte>)
    ensures |r| == n
  {
    seq(n, _ => 0)
  }

  /** The internal buffer is reused when it has the requested size, else replaced. */
  function PrepareBuffer(s: Sock, env: Env, max: nat): (r: (Sock, Env))
    ensures r.0.buffer.Some?
  {
    var (s1, e1) := if s.buffer.Some? && s.bufferSize != max then Release(s, env) else (s, env);
    if s1.buffer.Some? then (s1, e1)
    else
      var (e2, id) := Allocate(e1);
      (s1.(bufferSize := max, buffer := Some(Block(id, Zeros(max)))), e2)
  }

  /** Only the heap and the buffer fields are involved in making the buffer ready. */
  lemma PrepareTouches(s: Sock, env: Env, max: nat)
    ensures var (s1, e1) := PrepareBuffer(s, env, max);
            && s1 == s.(buffer := s1.buffer, bufferSize := s1.bufferSize)
            && e1 == env.(live := e1.live, nextBlock := e1.nextBlock, freed := e1.freed)
  {
  }

  /** The system stores `data` at an offset.  A window outside the buffer is undefined
      behaviour in the source; the model then leaves the buffer alone and claims nothing. */
  function Place(buf: seq<Byte>, offset: int, data: seq<Byte>): (r: seq<Byte>)
    ensures |r| == |buf|
  {
    if 0 <= offset && offset + |data| <= |buf| then buf[..offset] + data + buf[offset + |data|..] else buf
  }

  function PlaceAll(buf: seq<Byte>, tries: seq<Try>): (r: seq<Byte>)
    ensures |r| == |buf|
    decreases |tries|
  {
    if tries == [] then buf
    else PlaceAll(Place(buf, tries[0].offset, tries[0].data), tries[1..])
  }

  /** The source address left behind by a series of recvfrom attempts. */
  function LastSource(start: Addr, tries: seq<Try>): Addr {
    if tries == [] then start
    else if Last(tries).err == NoError then Last(tries).from
    else LastSource(start, tries[..|tries| - 1])
  }

  function RecvRequestOf(s: Sock, max: nat): Request {
    if s.kind == Udp then RecvFromRequest(max, s.multicast) else RecvRequest(max)
  }

  /** The loops of Receive; a socket of another kind makes no call and receives nothing. */
  function RecvLoop(s: Sock, env: Env, max: nat): (r: Loop)
    ensures s.kind in {Tcp, Udp} ==> r.tries != []
  {
    if s.kind in {Tcp, Udp} then RetryLoop(env, s.handle, RecvRequestOf(s, max), 0) else Loop(env, [])
  }

  function ReceivedCount(tries: seq<Try>): int {
    if tries == [] then 0 else Last(tries).result
  }

  /** The fields after the loop of a Receive: count, error, source address and contents. */
  function Filled(s: Sock, loop: Loop, internal: bool): Sock
    requires internal ==> s.buffer.Some?
  {
    var s1 := Translated(s.(received := ReceivedCount(loop.tries)), loop.env);
    var s2 := if s.kind != Udp then s1
              else if s.multicast then s1.(group := LastSource(s.group, loop.tries))
              else s1.(client := LastSource(s.client, loop.tries));
    if internal then s2.(buffer := Some(Block(s.buffer.value.id, PlaceAll(s.buffer.value.bytes, loop.tries))))
    else s2
  }

  /** Receive into `dest`, or into the internal buffer when `dest` is None.  The result pairs
      the return value with the caller's buffer. */
  function Receive(s: Sock, env: Env, max: nat, dest: Option<seq<Byte>>): Outcome<(int, Option<seq<Byte>>)> {
    var s0 := s.(received := 0);
    if !IsValid(s0) then Outcome(s0, env, (0, dest))
    else
      var (s1, e1) := if dest.None? then PrepareBuffer(s0, env, max) else (s0, env);
      var e2 := Tick(e1);
      var loop := RecvLoop(s1, e2, max);
      var count := ReceivedCount(loop.tries);
      var e3 := Tick(loop.env);
      var s2 := Filled(s1, loop, dest.None?).(timer := Bracket(e2, e3));
      var (s3, e4) := if count == SOCKET_ERROR then Release(s2, e3) else (s2, e3);
      Outcome(s3, e4, (count, if dest.None? then None else Some(PlaceAll(dest.value, loop.tries))))
  }

  /** GetData */
  function Data(s: Sock): Option<seq<Byte>> {
    if s.buffer.Some? then Some(s.buffer.value.bytes) else None
  }

  /** An int32 passed where a size_t is expected. */
  function SizeT(n: int): nat {
    n % 0x1_0000_0000_0000_0000
  }

  // --- Modes

  function ModeFlags(flags: bv31, nonblocking: bool): bv31 {
    if nonblocking then flags | O_NONBLOCK else flags & !O_NONBLOCK
  }

  /** SetNonblocking and SetBlocking */
  function SetMode(s: Sock, env: Env, nonblocking: bool): Outcome<bool> {
    var (e1, cur) := GetFlagsCall(env, s.handle);
    if cur.None? then Outcome(Translated(s, e1), e1, false)
    else
      var (e2, ok) := SetFlagsCall(e1, s.handle, ModeFlags(cur.value, nonblocking));
      if ok then Outcome(s.(blocking := !nonblocking), e2, true) else Outcome(Translated(s, e2), e2, false)
  }

  function SetMulticast(s: Sock, env: Env, enable: bool): Outcome<bool> {
    if s.kind == Udp then
      var (e, ok) := PlainCall(env, s.handle);
      var s1 := s.(multicast := enable);
      Outcome(if ok then s1 else Translated(s1, e), e, ok)
    else
      Outcome(s.(error := ProtocolError), env, false)
  }

  function Select(s: Sock, env: Env, sec: int, usec: int): Outcome<bool> {
    var timeout := if sec > 0 || usec > 0 then Some(Timeout(sec, usec)) else None;
    var (e1, sel) := SelectCall(env, s.handle, timeout);
    if sel.count == 0 then Outcome(s.(error := Timedout), e1, false)
    else if sel.read || sel.write then
      var (e2, pendingError) := GetPendingErrorCall(e1, s.handle);
      if pendingError.Some? then
        var e3 := e2.(errno := pendingError.value);
        Outcome(Translated(s, e3), e3, pendingError.value == NoError)
      else
        Outcome(Translated(s, e2), e2, false)
    else
      Outcome(s, e1, false)
  }

  // --- Flush and the vector send

  function Flush(s: Sock, env: Env): Outcome<bool> {
    var (e1, cur) := GetNoDelayCall(env, s.handle);
    if cur.None? then Outcome(s, e1, false)
    else
      var (e2, isSet) := SetNoDelayCall(e1, s.handle, 1);
      var mid := if isSet then
                   var o := Send(s, e2, Some([0]), 0);
                   Outcome(Translated(o.sock, o.env), o.env, o.ret != SOCKET_ERROR)
                 else
                   Outcome(s, e2, false);
      var (e3, _) := SetNoDelayCall(mid.env, s.handle, cur.value);
      Outcome(mid.sock, e3, mid.ret)
  }

  datatype Gather = Gather(sock: Sock, env: Env, total: int, done: nat)

  /** The loop of Writev over the buffers from `bufs[0]` on; `done` counts full iterations. */
  function SendEach(s: Sock, env: Env, bufs: seq<seq<Byte>>, total: int, done: nat): Gather
    decreases |bufs|
  {
    if bufs == [] then Gather(s, env, total, done)
    else
      var o := Send(s, env, Some(bufs[0]), |bufs[0]|);
      if o.ret == SOCKET_ERROR then Gather(o.sock, o.env, total, done)
      else SendEach(o.sock, o.env, bufs[1..], total + o.ret, done + 1)
  }

  function Writev(s: Sock, env: Env, bufs: seq<seq<Byte>>): Outcome<int> {
    var g := SendEach(s, env, bufs, 0, 0);
    if g.done > 0 then
      var f := Flush(g.sock, g.env);
      Outcome(f.sock, f.env, g.total)
    else
      Outcome(g.sock, g.env, g.total)
  }

  /** Send(const struct iovec *, int32) where WRITEV is the library's own Writev. */
  function SendVector(s: Sock, env: Env, bufs: seq<seq<Byte>>): Outcome<int> {
    var o := Writev(s.(error := Success, sent := 0), env, bufs);
    var s1 := o.sock.(sent := o.ret);
    Outcome(if o.ret == SOCKET_ERROR then Translated(s1, o.env) else s1, o.env, o.ret)
  }

  // --- Passive sockets

  /** The address argument of Listen: a null or empty string, or the result of inet_addr. */
  datatype HostArg = NoHost | Host(parsed: Option<int>)

  const INADDR_ANY: int := 0

  function HostIp(host: HostArg): int {
    if host.Host? && host.parsed.Some? then host.parsed.value else INADDR_ANY
  }

  /** bind, and listen on a stream. */
  function BindCalls(s: Sock, env: Env): (Env, bool) {
    var (e1, bound) := BindCall(env, s.handle, s.server);
    if bound && s.kind == Tcp then ListenCall(e1, s.handle) else (e1, bound)
  }

  /** Listen up to the point where it decides whether to clean up. */
  function Bound(s: Sock, env: Env, addr: HostArg, port: int): (Sock, Env, bool) {
    var (e1, _) := PlainCall(env, s.handle);
    var (e2, _) := PlainCall(e1, s.handle);
    var s1 := s.(server := Addr(HostIp(addr), port));
    var e3 := Tick(e2);
    var (e4, ok) := BindCalls(s1, e3);
    var e5 := Tick(e4);
    (Translated(s1.(timer := Bracket(e3, e5)), e5), e5, ok)
  }

  function Listen(s: Sock, env: Env, addr: HostArg, port: int): Outcome<bool> {
    var (s1, e1, ok) := Bound(s, env, addr, port);
    if ok then Outcome(s1, e1, true)
    else
      var c := Close(s1, e1);
      Outcome(c.sock.(error := s1.error), c.env, false)
  }

  /** BindMulticast up to its clean-up: bind, then join the group.  The timer is stopped after
      a join, and then reset and started in any case. */
  function Joined(s: Sock, env: Env, addr: HostArg, port: int): (Sock, Env, bool) {
    var s1 := s.(group := Addr(HostIp(addr), port));
    var (e1, bound) := BindCall(env, s.handle, s1.group);
    var (e2, ok) := if bound then PlainCall(e1, s.handle) else (e1, false);
    var e3 := Tick(if bound then Tick(e2) else e2);
    (Translated(s1.(timer := Reading(Stamp(e3.time.now), ZERO_TIME)), e3), e3, ok)
  }

  /** Unlike Listen, BindMulticast does not restore the error after its clean-up. */
  function BindMulticast(s: Sock, env: Env, addr: HostArg, port: int): Outcome<bool> {
    var (s1, e1, ok) := Joined(s, env, addr, port);
    if ok then Outcome(s1, e1, true)
    else
      var c := Close(s1, e1);
      Outcome(c.sock, c.env, false)
  }

  datatype Accepted = Accepted(listener: Sock, env: Env, client: Option<Sock>)

  /** The new object for an accepted connection, and the environment after both ends of the
      connection have been looked up. */
  function FillAccepted(c: Sock, env: Env, handle: int, peer: Addr, listener: int): (Sock, Env) {
    var (e1, _) := PlainCall(env, listener);
    var (e2, name) := NameCall(e1, listener);
    (Translated(c.(handle := handle), env).(client := peer, server := name), e2)
  }

  function Accept(s: Sock, env: Env): Accepted {
    if s.kind != Tcp then Accepted(s.(error := ProtocolError), env, None)
    else
      var e1 := Tick(env);
      var loop := ClearedLoop(e1, s.handle, AcceptRequest);
      var last := Last(loop.tries);
      if last.result == -1 then
        var e2 := Tick(loop.env);
        Accepted(Translated(s, loop.env).(timer := Bracket(e1, e2)), e2, None)
      else
        var (c, e2) := FillAccepted(Fresh(Active, Tcp), loop.env, last.result, last.from, s.handle);
        var e3 := Tick(e2);
        // The listener's own error code is written by failing attempts only.
        Accepted(s.(client := last.from, timer := Bracket(e1, e3),
                    error := if |loop.tries| > 1 then Interrupted else s.error),
                 e3, Some(c))
  }

  // --- Active sockets

  /** The answer of gethostbyname. */
  datatype Lookup = NotFound(hostNotFound: bool) | Found(ip: int)

  /** The numeric value of the broadcast address, which the source takes for an error. */
  const INADDR_NONE: int := 0xFFFF_FFFF

  /** The part of ConnectTCP and ConnectUDP before the connect call; the result says whether to go on. */
  function Resolve(s: Sock, env: Env, lookup: Lookup, port: int): (Sock, bool) {
    var s0 := s.(server := Addr(0, 0));
    match lookup
    case NotFound(hostNotFound) => (if hostNotFound then s0.(error := InvalidAddress) else s0, false)
    case Found(ip) =>
      if ip == INADDR_NONE then (Translated(s0.(server := Addr(ip, 0)), env), false)
      else (s0.(server := Addr(ip, port)), true)
  }

  /** The connect call of ConnectTCP, and the poll of one that is in progress. */
  function ConnectOrPoll(s: Sock, env: Env): Outcome<bool> {
    var (e, ok) := ConnectCall(env, s.handle, s.server);
    var s1 := Translated(s, e);
    if ok then Outcome(s1, e, true)
    else if !s1.blocking && s1.error in {Ewouldblock, Einprogress} then
      Select(s1, e, s1.connectSec, s1.connectUsec)
    else Outcome(s1, e, false)
  }

  function ConnectTcp(s: Sock, env: Env, lookup: Lookup, port: int): Outcome<bool> {
    var (s1, resolved) := Resolve(s, env, lookup, port);
    if !resolved then Outcome(s1, env, false)
    else
      var e1 := Tick(env);
      var o := ConnectOrPoll(s1, e1);
      var e2 := Tick(o.env);
      Outcome(o.sock.(timer := Bracket(e1, e2)), e2, o.ret)
  }

  function ConnectUdp(s: Sock, env: Env, lookup: Lookup, port: int): Outcome<bool> {
    var (s1, resolved) := Resolve(s, env, lookup, port);
    if !resolved then Outcome(s1, env, false)
    else
      var e1 := Tick(env);
      var (e2, ok) := ConnectCall(e1, s.handle, s1.server);
      var e3 := Tick(e2);
      Outcome(Translated(s1, e2).(timer := Bracket(e1, e3)), e3, ok)
  }

  /** Open; `host` is None for a null address. */
  function Open(s: Sock, env: Env, host: Option<Lookup>, port: int): Outcome<bool> {
    if !IsValid(s) then Outcome(s.(error := InvalidSocket), env, false)
    else if host.None? then Outcome(s.(error := InvalidAddress), env, false)
    else if port == 0 then Outcome(s.(error := InvalidPort), env, false)
    else
      var o := if s.kind == Tcp then ConnectTcp(s, env, host.value, port)
               else if s.kind == Udp then ConnectUdp(s, env, host.value, port)
               else Outcome(s, env, false);
      if !o.ret then o
      else
        var (e1, peer) := NameCall(o.env, s.handle);
        var (e2, local) := NameCall(e1, s.handle);
        Outcome(o.sock.(error := Success, server := peer, client := local), e2, true)
  }
}
