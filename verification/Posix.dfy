/** The operating system as the socket library sees it: `errno`, the descriptor table,
    connections waiting to be accepted, datagrams waiting to be read, one open file and the
    C++ heap.  What the system answers is not known to the library, so `Env` carries a
    `script` of replies, one per system call, over which every theorem quantifies.  A call
    that returns has consumed finitely many replies; once a script is used up every further
    call fails with EBADF.

    The POSIX rule the library depends on is built in: a failing call stores a non-zero
    value in `errno`, a successful call leaves `errno` alone. */
module Posix {

  datatype Option<+T> = None | Some(value: T)

  type Byte = b: int | 0 <= b < 256

  datatype Addr = Unset | Addr(ip: int, port: int)

  datatype Errno =
    | NoError | ENOTCONN | ENOTSOCK | EBADF | EACCES | EAFNOSUPPORT | EMFILE | ENFILE
    | ENOBUFS | ENOMEM | EPROTONOSUPPORT | EPIPE | EOPNOTSUPP | ECONNREFUSED | ETIMEDOUT
    | EINPROGRESS | EWOULDBLOCK | EINTR | ECONNABORTED | EINVAL | EPROTO | EPERM | EFAULT
    | ECONNRESET | ENOPROTOOPT | EADDRINUSE | OtherError(code: int)

  type Failure = e: Errno | e != NoError witness EINTR

  /** One answer of the system.  `n` is the amount a transfer may move (or the count that
      `select` reports), `read`/`write` are the ready flags of `select`, `pendingError` is
      what SO_ERROR holds.  Each call looks only at the parts that concern it. */
  datatype Reply =
    | Fail(err: Failure)
    | Ok(n: nat, read: bool, write: bool, pendingError: Errno)

  /** An open descriptor.  `target` is where connect has directed it, `inbound` the byte stream
      that has still to be received. */
  datatype Desc = Desc(
    flags: bv31,
    noDelay: int,
    bound: Option<Addr>,
    target: Option<Addr>,
    listening: bool,
    inbound: seq<Byte>)

  datatype Peer = Peer(addr: Addr, stream: seq<Byte>)
  datatype Datagram = Datagram(source: Addr, data: seq<Byte>)

  /** The calls that the library issues from a retry loop. */
  datatype Request =
    | SendRequest(data: seq<Byte>)
    | SendToRequest(data: seq<Byte>, dest: Addr)
    | RecvRequest(max: nat)
    | RecvFromRequest(max: nat, intoGroup: bool)
    | AcceptRequest

  /** One attempt at a request: the offset into the caller's buffer, the value returned, the
      error of a failing attempt, and the bytes and address that were moved. */
  datatype Try = Try(request: Request, offset: int, result: int, err: Errno,
                     data: seq<Byte>, from: Addr)

  datatype Io = Io(fd: int, attempt: Try)

  /** The wall clock in microseconds, and how far it moves on before each reading. */
  datatype Time = Time(now: nat, steps: seq<nat>)

  datatype Timeout = Timeout(sec: int, usec: int)

  /** A call of select: the descriptor, and how long to wait if not for ever. */
  datatype Poll = Poll(fd: int, timeout: Option<Timeout>)

  datatype Env = Env(
    errno: Errno,
    script: seq<Reply>,
    time: Time,
    open: map<int, Desc>,
    nextFd: nat,                // descriptor numbers are handed out in order
    pending: seq<Peer>,
    datagrams: seq<Datagram>,
    file: seq<Byte>,
    filePos: nat,
    live: set<nat>,             // heap blocks not yet freed
    nextBlock: nat,
    io: seq<Io>,                // every transfer and accept attempt, in order
    polls: seq<Poll>,           // calls of select, in order
    closed: multiset<int>,      // successful close calls
    closeFailures: multiset<int>,
    freed: multiset<nat>)       // delete[] calls

  ghost predicate ValidEnv(env: Env) {
    && (forall fd :: fd in env.open ==> 0 <= fd < env.nextFd)
    && (forall fd :: env.nextFd <= fd ==> env.closed[fd] == 0 && env.closeFailures[fd] == 0)
    && (forall id :: id in env.live ==> id < env.nextBlock)
    && (forall id :: env.nextBlock <= id ==> env.freed[id] == 0)
  }

  // --- Answers

  const EXHAUSTED: Reply := Fail(EBADF)

  function NextReply(script: seq<Reply>): Reply {
    if script == [] then EXHAUSTED else script[0]
  }

  function Rest(script: seq<Reply>): seq<Reply> {
    if script == [] then [] else script[1..]
  }

  function Min(a: int, b: int): int {
    if a < b then a else b
  }

  function ReplyFor(env: Env, fd: int): Reply {
    if fd in env.open then NextReply(env.script) else Fail(EBADF)
  }

  /** The reply to the call on `fd` that is number `k` from here on, counted from 0. */
  function ReplyAt(env: Env, fd: int, k: nat): Reply {
    if fd in env.open && k < |env.script| then env.script[k] else EXHAUSTED
  }

  function Grant(env: Env): Env {
    env.(script := Rest(env.script))
  }

  function Refuse(env: Env, err: Failure): Env {
    env.(script := Rest(env.script), errno := err)
  }

  /** gettimeofday: the clock moves on, and reads `now` afterwards. */
  function Tick(env: Env): Env {
    var t := env.time;
    env.(time := if t.steps == [] then t else Time(t.now + t.steps[0], t.steps[1..]))
  }

  // --- Transfers and accept

  /** The answer to a request: nothing can be accepted from an empty queue. */
  function Answer(env: Env, fd: int, req: Request): Reply {
    var reply := ReplyFor(env, fd);
    if reply.Fail? then reply
    else if req.AcceptRequest? && env.pending == [] then Fail(EWOULDBLOCK)
    else if req.RecvFromRequest? && env.datagrams == [] then Fail(EWOULDBLOCK)
    else reply
  }

  function Transfer(env: Env, fd: int, req: Request, offset: int): (r: (Env, Try))
    requires Answer(env, fd, req).Ok?
  {
    var n := Answer(env, fd, req).n;
    match req
    case SendRequest(data) =>
      var k := Min(n, |data|);
      (Grant(env), Try(req, offset, k, NoError, data[..k], Unset))
    case SendToRequest(data, dest) =>
      (Grant(env), Try(req, offset, |data|, NoError, data, dest))
    case RecvRequest(max) =>
      var d := env.open[fd];
      var k := Min(Min(n, max), |d.inbound|);
      (Grant(env).(open := env.open[fd := d.(inbound := d.inbound[k..])]),
       Try(req, offset, k, NoError, d.inbound[..k], Unset))
    case RecvFromRequest(max, _) =>
      var d := env.datagrams[0];
      var k := Min(max, |d.data|);
      (Grant(env).(datagrams := env.datagrams[1..]),
       Try(req, offset, k, NoError, d.data[..k], d.source))
    case AcceptRequest =>
      var p := env.pending[0];
      (Grant(env).(pending := env.pending[1..],
                   open := env.open[env.nextFd := NewDesc().(inbound := p.stream)],
                   nextFd := env.nextFd + 1),
       Try(req, offset, env.nextFd, NoError, [], p.addr))
  }

  /** One system call of a retry loop. */
  function Attempt(env: Env, fd: int, req: Request, offset: int): (r: (Env, Try))
    ensures r.1.request == req && r.1.offset == offset
    ensures r.1.result == -1 <==> r.1.err != NoError
    ensures r.0.errno == if r.1.err == NoError then env.errno else r.1.err
    ensures -1 <= r.1.result
    ensures r.1.err == if Answer(env, fd, req).Fail? then Answer(env, fd, req).err else NoError
    ensures r.1.err != NoError ==> r.1.data == []
    ensures r.0.script == Rest(env.script)
    ensures r.0.io == env.io + [Io(fd, r.1)]
  {
    var (e, t) :=
      match Answer(env, fd, req)
      case Fail(err) => (Refuse(env, err), Try(req, offset, -1, err, [], Unset))
      case Ok(_, _, _, _) => Transfer(env, fd, req, offset);
    (e.(io := env.io + [Io(fd, t)]), t)
  }

  // --- Other calls

  const O_NONBLOCK: bv31 := 0x800
  const O_RDWR: bv31 := 2

  function NewDesc(): Desc {
    Desc(O_RDWR, 0, None, None, false, [])
  }

  function SocketCall(env: Env): (Env, int) {
    match NextReply(env.script)
    case Fail(err) => (Refuse(env, err), -1)
    case Ok(_, _, _, _) =>
      (Grant(env).(open := env.open[env.nextFd := NewDesc()], nextFd := env.nextFd + 1), env.nextFd as int)
  }

  function CloseCall(env: Env, fd: int): (Env, bool) {
    match ReplyFor(env, fd)
    case Fail(err) =>
      (Refuse(env, err).(closeFailures := env.closeFailures + multiset{fd}), false)
    case Ok(_, _, _, _) =>
      (Grant(env).(open := env.open - {fd}, closed := env.closed + multiset{fd}), true)
  }

  /** A call of which only success or failure matters here: setting an option that the
      library does not read back. */
  function PlainCall(env: Env, fd: int): (Env, bool) {
    match ReplyFor(env, fd)
    case Fail(err) => (Refuse(env, err), false)
    case Ok(_, _, _, _) => (Grant(env), true)
  }

  /** connect, which may succeed or be left in progress. */
  function ConnectCall(env: Env, fd: int, addr: Addr): (Env, bool) {
    match ReplyFor(env, fd)
    case Fail(err) =>
      if err in {EINPROGRESS, EWOULDBLOCK} then (Refuse(Directed(env, fd, addr), err), false)
      else (Refuse(env, err), false)
    case Ok(_, _, _, _) => (Grant(Directed(env, fd, addr)), true)
  }

  function Directed(env: Env, fd: int, addr: Addr): Env
    requires fd in env.open
  {
    env.(open := env.open[fd := env.open[fd].(target := Some(addr))])
  }

  /** The address that a reply to getpeername or getsockname stands for: any the system chooses,
      or the zeroes that were there if it refuses. */
  function NameIn(reply: Reply): Addr {
    match reply
    case Fail(_) => Addr(0, 0)
    case Ok(n, _, _, _) => Addr(n / 0x1_0000, n % 0x1_0000)
  }

  /** getpeername and getsockname into a zeroed address. */
  function NameCall(env: Env, fd: int): (Env, Addr) {
    match ReplyFor(env, fd)
    case Fail(err) => (Refuse(env, err), NameIn(Fail(err)))
    case Ok(_, _, _, _) => (Grant(env), NameIn(NextReply(env.script)))
  }

  function GetFlagsCall(env: Env, fd: int): (Env, Option<bv31>) {
    match ReplyFor(env, fd)
    case Fail(err) => (Refuse(env, err), None)
    case Ok(_, _, _, _) => (Grant(env), Some(env.open[fd].flags))
  }

  function SetFlagsCall(env: Env, fd: int, flags: bv31): (Env, bool) {
    match ReplyFor(env, fd)
    case Fail(err) => (Refuse(env, err), false)
    case Ok(_, _, _, _) => (Grant(env).(open := env.open[fd := env.open[fd].(flags := flags)]), true)
  }

  function GetNoDelayCall(env: Env, fd: int): (Env, Option<int>) {
    match ReplyFor(env, fd)
    case Fail(err) => (Refuse(env, err), None)
    case Ok(_, _, _, _) => (Grant(env), Some(env.open[fd].noDelay))
  }

  function SetNoDelayCall(env: Env, fd: int, value: int): (Env, bool) {
    match ReplyFor(env, fd)
    case Fail(err) => (Refuse(env, err), false)
    case Ok(_, _, _, _) => (Grant(env).(open := env.open[fd := env.open[fd].(noDelay := value)]), true)
  }

  function BindCall(env: Env, fd: int, addr: Addr): (Env, bool) {
    match ReplyFor(env, fd)
    case Fail(err) => (Refuse(env, err), false)
    case Ok(_, _, _, _) => (Grant(env).(open := env.open[fd := env.open[fd].(bound := Some(addr))]), true)
  }

  function ListenCall(env: Env, fd: int): (Env, bool) {
    match ReplyFor(env, fd)
    case Fail(err) => (Refuse(env, err), false)
    case Ok(_, _, _, _) => (Grant(env).(open := env.open[fd := env.open[fd].(listening := true)]), true)
  }

  /** What `select` leaves behind.  A failing call leaves the descriptor sets as they were
      passed in, that is, with the descriptor in all of them; a timeout empties them. */
  datatype Selected = Selected(count: int, read: bool, write: bool)

  function SelectCall(env: Env, fd: int, timeout: Option<Timeout>): (Env, Selected) {
    var e := env.(polls := env.polls + [Poll(fd, timeout)]);
    match ReplyFor(env, fd)
    case Fail(err) => (Refuse(e, err), Selected(-1, true, true))
    case Ok(n, read, write, _) =>
      if timeout.Some? && n == 0 then (Grant(e), Selected(0, false, false))
      else (Grant(e), Selected(if n == 0 then 1 else n, read, write))
  }

  function GetPendingErrorCall(env: Env, fd: int): (Env, Option<Errno>) {
    match ReplyFor(env, fd)
    case Fail(err) => (Refuse(env, err), None)
    case Ok(_, _, _, pendingError) => (Grant(env), Some(pendingError))
  }

  // --- The open file

  function SeekCall(env: Env, offset: int): (Env, bool) {
    match NextReply(env.script)
    case Fail(err) => (Refuse(env, err), false)
    case Ok(_, _, _, _) =>
      if offset < 0 then (Refuse(env, EINVAL), false) else (Grant(env).(filePos := offset), true)
  }

  /** `read` on the open file; None when the call fails.  A short read is allowed anywhere. */
  function ReadCall(env: Env, max: nat): (r: (Env, Option<seq<Byte>>)) {
    match NextReply(env.script)
    case Fail(err) => (Refuse(env, err), None)
    case Ok(n, _, _, _) =>
      var k := if env.filePos < |env.file| then Min(Min(n, max), |env.file| - env.filePos) else 0;
      (Grant(env).(filePos := env.filePos + k),
       Some(if k == 0 then [] else env.file[env.filePos..env.filePos + k]))
  }

  // --- The heap

  function Allocate(env: Env): (Env, nat) {
    (env.(live := env.live + {env.nextBlock}, nextBlock := env.nextBlock + 1), env.nextBlock)
  }

  function Free(env: Env, id: nat): Env {
    env.(live := env.live - {id}, freed := env.freed + multiset{id})
  }

  // --- Reading the trace

  /** The bytes accepted by the system on `fd`, in order. */
  function WireOf(io: seq<Io>, fd: int): seq<Byte> {
    if io == [] then []
    else
      var last := io[|io| - 1];
      WireOf(io[..|io| - 1], fd)
      + (if last.fd == fd && last.attempt.request.SendRequest? then last.attempt.data else [])
  }

  /** The bytes handed out by the system on `fd`, in order. */
  function StreamOf(io: seq<Io>, fd: int): seq<Byte> {
    if io == [] then []
    else
      var last := io[|io| - 1];
      StreamOf(io[..|io| - 1], fd)
      + (if last.fd == fd && last.attempt.request.RecvRequest? then last.attempt.data else [])
  }

  function OnDescriptor(fd: int, tries: seq<Try>): (r: seq<Io>)
    ensures |r| == |tries|
  {
    seq(|tries|, i requires 0 <= i < |tries| => Io(fd, tries[i]))
  }

  function Moved(tries: seq<Try>): seq<Byte> {
    if tries == [] then [] else Moved(tries[..|tries| - 1]) + tries[|tries| - 1].data
  }

  lemma TraceSnoc(io: seq<Io>, e: Io, fd: int)
    ensures WireOf(io + [e], fd) == WireOf(io, fd)
              + (if e.fd == fd && e.attempt.request.SendRequest? then e.attempt.data else [])
    ensures StreamOf(io + [e], fd) == StreamOf(io, fd)
              + (if e.fd == fd && e.attempt.request.RecvRequest? then e.attempt.data else [])
  {
    assert (io + [e])[..|io|] == io;
  }

  lemma OnDescriptorSnoc(io: seq<Io>, fd: int, tries: seq<Try>)
    requires tries != []
    ensures io + OnDescriptor(fd, tries)
              == (io + OnDescriptor(fd, tries[..|tries| - 1])) + [Io(fd, tries[|tries| - 1])]
  {
  }

  lemma {:induction false} TraceAppendAt(io: seq<Io>, fd: int, req: Request, tries: seq<Try>, any: int)
    requires forall t :: t in tries ==> t.request == req
    ensures var whole := io + OnDescriptor(fd, tries);
            && WireOf(whole, any) == WireOf(io, any) + (if any == fd && req.SendRequest? then Moved(tries) else [])
            && StreamOf(whole, any) == StreamOf(io, any) + (if any == fd && req.RecvRequest? then Moved(tries) else [])
  {
    hide WireOf, StreamOf, OnDescriptor;
    if tries == [] {
      assert io + OnDescriptor(fd, tries) == io;
    } else {
      var front, t := tries[..|tries| - 1], tries[|tries| - 1];
      assert t in tries;
      TraceAppendAt(io, fd, req, front, any);
      OnDescriptorSnoc(io, fd, tries);
      TraceSnoc(io + OnDescriptor(fd, front), Io(fd, t), any);
    }
  }

  /** Attempts at one request extend the streams of their descriptor by what they moved. */
  lemma TraceAppend(io: seq<Io>, fd: int, req: Request, tries: seq<Try>)
    requires forall t :: t in tries ==> t.request == req
    ensures var whole := io + OnDescriptor(fd, tries);
            && WireOf(whole, fd) == WireOf(io, fd) + (if req.SendRequest? then Moved(tries) else [])
            && StreamOf(whole, fd) == StreamOf(io, fd) + (if req.RecvRequest? then Moved(tries) else [])
            && (forall other :: other != fd ==> WireOf(whole, other) == WireOf(io, other))
            && (forall other :: other != fd ==> StreamOf(whole, other) == StreamOf(io, other))
  {
    hide WireOf, StreamOf;
    TraceAppendAt(io, fd, req, tries, fd);
    forall other | other != fd
      ensures WireOf(io + OnDescriptor(fd, tries), other) == WireOf(io, other)
      ensures StreamOf(io + OnDescriptor(fd, tries), other) == StreamOf(io, other)
    {
      TraceAppendAt(io, fd, req, tries, other);
    }
  }
}
