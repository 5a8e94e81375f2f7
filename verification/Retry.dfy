/** The error codes of the library and the loops that repeat an interrupted system call. */
module Retry {
  import opened Posix

  datatype SocketError =
    | Success | InvalidSocket | InvalidAddress | InvalidPort | ConnectionRefused | Timedout
    | Ewouldblock | Notconnected | Einprogress | Interrupted | ConnectionAborted | ProtocolError
    | FirewallError | InvalidSocketBuffer | ConnectionReset | AddressInUse | InvalidPointer | Eunknown

  /** The table of TranslateSocketError. */
  function Translate(errno: Errno): (r: SocketError)
    ensures r == Success <==> errno == NoError
    ensures r == Interrupted <==> errno == EINTR
    ensures r == Ewouldblock <==> errno == EWOULDBLOCK
    ensures r == Einprogress <==> errno == EINPROGRESS
    ensures r !in {InvalidAddress, InvalidPort, InvalidPointer}
  {
    match errno
    case NoError => Success
    case ENOTCONN => Notconnected
    case ENOTSOCK | EBADF | EACCES | EAFNOSUPPORT | EMFILE | ENFILE | ENOBUFS | ENOMEM
       | EPROTONOSUPPORT | EPIPE | EOPNOTSUPP => InvalidSocket
    case ECONNREFUSED => ConnectionRefused
    case ETIMEDOUT => Timedout
    case EINPROGRESS => Einprogress
    case EWOULDBLOCK => Ewouldblock
    case EINTR => Interrupted
    case ECONNABORTED => ConnectionAborted
    case EINVAL | EPROTO => ProtocolError
    case EPERM => FirewallError
    case EFAULT => InvalidSocketBuffer
    case ECONNRESET | ENOPROTOOPT => ConnectionReset
    case EADDRINUSE => AddressInUse
    case OtherError(_) => Eunknown
  }

  /** A finished loop: the environment it leaves and the attempts it made. */
  datatype Loop = Loop(env: Env, tries: seq<Try>)

  function Last(tries: seq<Try>): Try
    requires tries != []
  {
    tries[|tries| - 1]
  }

  /** Where the next attempt puts its data.  Only the TCP receive loop offsets its buffer,
      and it does so by the previous return value. */
  function NextOffset(t: Try): int {
    if t.request.RecvRequest? then t.result else 0
  }

  lemma InterruptedConsumes(env: Env, fd: int, req: Request, offset: int)
    requires Attempt(env, fd, req, offset).0.errno == EINTR
    ensures |Attempt(env, fd, req, offset).0.script| < |env.script|
  {
  }

  /** The loop of Send and Receive: the call is repeated as long as the error translated after
      it is Interrupted, and each attempt finds `errno` as the one before left it. */
  function RetryLoop(env: Env, fd: int, req: Request, offset: int): (r: Loop)
    ensures r.tries != []
    decreases |env.script|
  {
    var (e, t) := Attempt(env, fd, req, offset);
    if Translate(e.errno) == Interrupted then
      InterruptedConsumes(env, fd, req, offset);
      var rest := RetryLoop(e, fd, req, NextOffset(t));
      Loop(rest.env, [t] + rest.tries)
    else
      Loop(e, [t])
  }

  /** The same loop with `errno = 0` before every attempt: the loop of Accept, and what the
      other loops would be if they meant to repeat interrupted calls only. */
  function ClearedLoop(env: Env, fd: int, req: Request): (r: Loop)
    ensures r.tries != []
    decreases |env.script|
  {
    var cleared := env.(errno := NoError);
    var (e, t) := Attempt(cleared, fd, req, 0);
    if Translate(e.errno) == Interrupted then
      InterruptedConsumes(cleared, fd, req, 0);
      var rest := ClearedLoop(e, fd, req);
      Loop(rest.env, [t] + rest.tries)
    else
      Loop(e, [t])
  }

  /** What a caller can conclude from a code: the errors that each one stands for.  Eleven
      codes stand for one error each; together with Translate's own contract this is every code
      that is ever reported. */
  lemma TranslateClasses(errno: Errno)
    ensures var r := Translate(errno);
            && (r == InvalidSocket <==> errno in {ENOTSOCK, EBADF, EACCES, EAFNOSUPPORT, EMFILE, ENFILE, ENOBUFS,
                                                  ENOMEM, EPROTONOSUPPORT, EPIPE, EOPNOTSUPP})
            && (r == Notconnected <==> errno == ENOTCONN)
            && (r == ConnectionRefused <==> errno == ECONNREFUSED)
            && (r == Timedout <==> errno == ETIMEDOUT)
            && (r == ConnectionAborted <==> errno == ECONNABORTED)
            && (r == FirewallError <==> errno == EPERM)
            && (r == InvalidSocketBuffer <==> errno == EFAULT)
            && (r == AddressInUse <==> errno == EADDRINUSE)
            && (r == ProtocolError <==> errno in {EINVAL, EPROTO})
            && (r == ConnectionReset <==> errno in {ECONNRESET, ENOPROTOOPT})
            && (r == Eunknown <==> errno.OtherError?)
  {
  }

  // --- What every loop leaves alone

  /** Everything an attempt other than accept cannot change. */
  ghost predicate SameFrame(a: Env, b: Env) {
    && a.time == b.time && a.nextFd == b.nextFd && a.pending == b.pending && a.file == b.file && a.filePos == b.filePos
    && a.live == b.live && a.nextBlock == b.nextBlock && a.polls == b.polls
    && a.closed == b.closed && a.closeFailures == b.closeFailures && a.freed == b.freed
    && a.open.Keys == b.open.Keys
    && forall fd :: fd in a.open && fd in b.open ==> a.open[fd] == b.open[fd].(inbound := a.open[fd].inbound)
  }

  lemma AttemptFrame(env: Env, fd: int, req: Request, offset: int)
    requires !req.AcceptRequest?
    ensures SameFrame(env, Attempt(env, fd, req, offset).0)
  {
  }

  lemma FrameTransitive(a: Env, b: Env, c: Env)
    requires SameFrame(a, b) && SameFrame(b, c)
    ensures SameFrame(a, c)
  {
  }

  lemma OnDescriptorCons(io: seq<Io>, fd: int, t: Try, rest: seq<Try>)
    ensures io + OnDescriptor(fd, [t]) == io + [Io(fd, t)]
    ensures io + OnDescriptor(fd, [t] + rest) == (io + [Io(fd, t)]) + OnDescriptor(fd, rest)
  {
    assert OnDescriptor(fd, [t]) == [Io(fd, t)];
    assert OnDescriptor(fd, [t] + rest) == [Io(fd, t)] + OnDescriptor(fd, rest);
  }

  lemma {:induction false} RetryFrame(env: Env, fd: int, req: Request, offset: int)
    requires !req.AcceptRequest?
    ensures var r := RetryLoop(env, fd, req, offset);
            && SameFrame(env, r.env)
            && r.env.io == env.io + OnDescriptor(fd, r.tries)
            && (forall t :: t in r.tries ==> t.request == req)
    decreases |env.script|
  {
    hide Attempt, Translate, SameFrame;
    var (e, t) := Attempt(env, fd, req, offset);
    AttemptFrame(env, fd, req, offset);
    OnDescriptorCons(env.io, fd, t, []);
    if Translate(e.errno) == Interrupted {
      InterruptedConsumes(env, fd, req, offset);
      RetryFrame(e, fd, req, NextOffset(t));
      var rest := RetryLoop(e, fd, req, NextOffset(t));
      FrameTransitive(env, e, rest.env);
      OnDescriptorCons(env.io, fd, t, rest.tries);
    }
  }

  // --- The loop as written

  /** How `errno` evolves: a failure stores its error, a success changes nothing. */
  function ErrnoAfter(start: Errno, tries: seq<Try>): Errno {
    if tries == [] then start
    else if Last(tries).err == NoError then ErrnoAfter(start, tries[..|tries| - 1])
    else Last(tries).err
  }

  lemma {:induction false} ErrnoAfterCons(start: Errno, t: Try, rest: seq<Try>)
    ensures ErrnoAfter(start, [t] + rest) == ErrnoAfter(if t.err == NoError then start else t.err, rest)
  {
    var all := [t] + rest;
    if rest == [] {
      assert all == [t];
      assert all[..0] == [];
    } else {
      assert all[..|all| - 1] == [t] + rest[..|rest| - 1];
      ErrnoAfterCons(start, t, rest[..|rest| - 1]);
    }
  }

  /** The loop goes on exactly while `errno` reads EINTR, whoever stored it there. */
  lemma {:induction false} RetryTrace(env: Env, fd: int, req: Request, offset: int)
    ensures var r := RetryLoop(env, fd, req, offset);
            && r.env.errno == ErrnoAfter(env.errno, r.tries)
            && r.env.errno != EINTR
            && (forall i :: 1 <= i < |r.tries| ==> ErrnoAfter(env.errno, r.tries[..i]) == EINTR)
            && (forall i :: 0 <= i < |r.tries| ==> (r.tries[i].result == -1 <==> r.tries[i].err != NoError))
            && (forall i :: 0 <= i < |r.tries| ==>
                  r.tries[i].offset == if i == 0 then offset else NextOffset(r.tries[i - 1]))
    decreases |env.script|
  {
    hide Attempt, Translate;
    var (e, t) := Attempt(env, fd, req, offset);
    ErrnoAfterCons(env.errno, t, []);
    assert [t] + [] == [t];
    if Translate(e.errno) == Interrupted {
      InterruptedConsumes(env, fd, req, offset);
      var rest := RetryLoop(e, fd, req, NextOffset(t));
      RetryTrace(e, fd, req, NextOffset(t));
      ErrnoAfterCons(env.errno, t, rest.tries);
      var all := [t] + rest.tries;
      forall i | 1 <= i < |all| ensures ErrnoAfter(env.errno, all[..i]) == EINTR {
        assert all[..i] == [t] + rest.tries[..i - 1];
        ErrnoAfterCons(env.errno, t, rest.tries[..i - 1]);
        assert i == 1 ==> rest.tries[..i - 1] == [];
      }
    }
  }

  /** Once `errno` reads EINTR the loop can only end through a failure of another kind. */
  lemma StickyInterrupt(env: Env, fd: int, req: Request, offset: int)
    ensures var r := RetryLoop(env, fd, req, offset);
            (env.errno == EINTR || |r.tries| > 1) ==>
              Last(r.tries).result == -1 && Last(r.tries).err !in {NoError, EINTR}
  {
    RetryTrace(env, fd, req, offset);
    var r := RetryLoop(env, fd, req, offset);
    var front := r.tries[..|r.tries| - 1];
    if |r.tries| > 1 {
      assert ErrnoAfter(env.errno, r.tries[..|r.tries| - 1]) == EINTR;
    } else {
      assert front == [];
    }
  }

  /** Exactly one call is issued iff the first answer is a failure other than EINTR, or a
      success met with `errno` not already EINTR. */
  lemma SingleAttemptIff(env: Env, fd: int, req: Request, offset: int)
    ensures |RetryLoop(env, fd, req, offset).tries| == 1 <==>
              match Answer(env, fd, req)
              case Fail(err) => err != EINTR
              case Ok(_, _, _, _) => env.errno != EINTR
  {
  }

  /** The caller is told of a success iff `errno` was not EINTR on entry and the first answer
      is a success; the call was then issued once and the error code is the stale `errno`. */
  lemma ReportedSuccessIff(env: Env, fd: int, req: Request, offset: int)
    ensures var r := RetryLoop(env, fd, req, offset);
            && (Last(r.tries).result >= 0 <==> env.errno != EINTR && Answer(env, fd, req).Ok?)
            && (Last(r.tries).result >= 0 ==> |r.tries| == 1 && r.env.errno == env.errno)
  {
    var r := RetryLoop(env, fd, req, offset);
    StickyInterrupt(env, fd, req, offset);
    RetryTrace(env, fd, req, offset);
    SingleAttemptIff(env, fd, req, offset);
  }

  /** The position of the first failure other than EINTR; the end of the script if none. */
  function HardFailureAt(script: seq<Reply>): (k: nat)
    ensures k <= |script|
  {
    if script == [] || (script[0].Fail? && script[0].err != EINTR) then 0
    else 1 + HardFailureAt(script[1..])
  }

  /** The failure at which a loop that repeats everything ends: the first one other than EINTR,
      or EBADF when the script is used up. */
  function HardFailure(script: seq<Reply>): (e: Failure)
    ensures e != EINTR
  {
    if script == [] then EBADF
    else if script[0].Fail? && script[0].err != EINTR then script[0].err
    else HardFailure(script[1..])
  }

  lemma {:induction false} HardFailureIs(script: seq<Reply>)
    ensures NextReply(script[HardFailureAt(script)..]) == Fail(HardFailure(script))
  {
    if script == [] || (script[0].Fail? && script[0].err != EINTR) {
      assert script[0..] == script;
    } else {
      var rest, k := script[1..], HardFailureAt(script);
      HardFailureIs(rest);
      assert rest[k - 1..] == script[k..];
    }
  }

  /** The `errno` that a send loop or a stream receive loop leaves: that of the entry if a
      success ended it, and else that of the failure which ended it. */
  lemma {:induction false} LoopErrno(env: Env, fd: int, req: Request, offset: int)
    requires fd in env.open && !req.AcceptRequest? && !req.RecvFromRequest?
    ensures RetryLoop(env, fd, req, offset).env.errno ==
              if env.errno != EINTR && NextReply(env.script).Ok? then env.errno else HardFailure(env.script)
    decreases |env.script|
  {
    hide Attempt, Translate;
    var (e, t) := Attempt(env, fd, req, offset);
    AttemptFrame(env, fd, req, offset);
    if Translate(e.errno) == Interrupted {
      InterruptedConsumes(env, fd, req, offset);
      assert fd in e.open.Keys;
      LoopErrno(e, fd, req, NextOffset(t));
    }
  }

  /** What a stream send of `data` moves if the first `k` replies of the script are used. */
  function Deliveries(script: seq<Reply>, data: seq<Byte>, k: nat): seq<Byte>
    requires k <= |script|
  {
    if k == 0 then []
    else (if script[0].Ok? then data[..Min(script[0].n, |data|)] else []) + Deliveries(script[1..], data, k - 1)
  }

  lemma MovedNothing()
    ensures Moved([]) == []
  {
  }

  lemma {:induction false} MovedCons(t: Try, rest: seq<Try>)
    ensures Moved([t] + rest) == t.data + Moved(rest)
  {
    var all := [t] + rest;
    if rest == [] {
      assert all == [t] && all[..0] == [];
    } else {
      assert all[..|all| - 1] == [t] + rest[..|rest| - 1];
      MovedCons(t, rest[..|rest| - 1]);
    }
  }

  lemma MovedOne(t: Try)
    ensures Moved([t]) == t.data
  {
    assert [t][..0] == [];
  }

  /** One stream send, granted or refused. */
  lemma SendAttempt(env: Env, fd: int, data: seq<Byte>)
    requires fd in env.open
    ensures var (e, t) := Attempt(env, fd, SendRequest(data), 0);
            var reply := NextReply(env.script);
            && e.open == env.open
            && t.err == (if reply.Fail? then reply.err else NoError)
            && t.result == (if reply.Ok? then Min(reply.n, |data|) else -1)
            && t.data == (if reply.Ok? then data[..Min(reply.n, |data|)] else [])
  {
  }

  /** The whole behaviour of the stream send loop in terms of the script: if it starts with
      `errno` at EINTR, or is interrupted once, it repeats the send, delivered or not, until a
      failure other than EINTR, and reports that failure over everything it delivered. */
  lemma {:induction false} SendLoopClosedForm(env: Env, fd: int, data: seq<Byte>)
    requires fd in env.open
    ensures var r := RetryLoop(env, fd, SendRequest(data), 0);
            if env.errno != EINTR && env.script != [] && env.script[0].Ok? then
              && |r.tries| == 1
              && Last(r.tries).result == Min(env.script[0].n, |data|)
              && Moved(r.tries) == data[..Min(env.script[0].n, |data|)]
            else
              && |r.tries| == HardFailureAt(env.script) + 1
              && Last(r.tries).result == -1
              && Moved(r.tries) == Deliveries(env.script, data, HardFailureAt(env.script))
    decreases |env.script|
  {
    hide Attempt, Answer, Translate, Moved;
    var req := SendRequest(data);
    var (e, t) := Attempt(env, fd, req, 0);
    SendAttempt(env, fd, data);
    MovedOne(t);
    if Translate(e.errno) == Interrupted {
      InterruptedConsumes(env, fd, req, 0);
      SendLoopClosedForm(e, fd, data);
      var rest := RetryLoop(e, fd, req, 0);
      MovedCons(t, rest.tries);
    }
  }

  /** Deliveries are empty iff no granted send before the failure moved a byte. */
  lemma {:induction false} NothingDeliveredIff(script: seq<Reply>, data: seq<Byte>, k: nat)
    requires k <= |script| && data != []
    ensures Deliveries(script, data, k) == [] <==> forall i :: 0 <= i < k && script[i].Ok? ==> script[i].n == 0
  {
    if k > 0 {
      var rest := script[1..];
      NothingDeliveredIff(rest, data, k - 1);
      if forall i :: 0 <= i < k && script[i].Ok? ==> script[i].n == 0 {
        assert forall i :: 0 <= i < k - 1 ==> rest[i] == script[i + 1];
      } else {
        var i :| 0 <= i < k && script[i].Ok? && script[i].n != 0;
        assert i > 0 ==> rest[i - 1] == script[i];
      }
    }
  }

  // --- The datagram send loop

  /** How many of the first `k` replies are successes. */
  function Granted(script: seq<Reply>, k: nat): (n: nat)
    requires k <= |script|
  {
    if k == 0 then 0 else (if script[0].Ok? then 1 else 0) + Granted(script[1..], k - 1)
  }

  /** How many attempts succeeded. */
  function Successes(tries: seq<Try>): (n: nat)
    ensures n <= |tries|
    decreases |tries|
  {
    if tries == [] then 0 else (if tries[0].err == NoError then 1 else 0) + Successes(tries[1..])
  }

  lemma SuccessesCons(t: Try, rest: seq<Try>)
    ensures Successes([t] + rest) == (if t.err == NoError then 1 else 0) + Successes(rest)
  {
    assert ([t] + rest)[1..] == rest;
  }

  lemma SuccessesOne(t: Try)
    ensures Successes([t]) == if t.err == NoError then 1 else 0
  {
    assert [t][1..] == [];
  }

  /** One datagram send, granted or refused. */
  lemma SendToAttempt(env: Env, fd: int, data: seq<Byte>, dest: Addr)
    requires fd in env.open
    ensures var (e, t) := Attempt(env, fd, SendToRequest(data, dest), 0);
            var reply := NextReply(env.script);
            && e.open == env.open
            && t.err == (if reply.Fail? then reply.err else NoError)
            && t.result == (if reply.Ok? then |data| else -1)
  {
  }

  /** How long a send loop or a stream receive loop is, and that only a single attempt can end
      it with a success. */
  lemma {:induction false} LoopLength(env: Env, fd: int, req: Request, offset: int)
    requires fd in env.open && !req.AcceptRequest? && !req.RecvFromRequest?
    ensures var tries := RetryLoop(env, fd, req, offset).tries;
            if env.errno != EINTR && NextReply(env.script).Ok? then |tries| == 1 && Last(tries).result >= 0
            else |tries| == HardFailureAt(env.script) + 1 && Last(tries).result == -1
    decreases |env.script|
  {
    hide Attempt, Translate;
    var (e, t) := Attempt(env, fd, req, offset);
    AttemptFrame(env, fd, req, offset);
    if Translate(e.errno) == Interrupted {
      InterruptedConsumes(env, fd, req, offset);
      assert fd in e.open.Keys;
      LoopLength(e, fd, req, NextOffset(t));
    }
  }

  /** The successes of a send loop are the grants before its last reply. */
  lemma {:induction false} SuccessesAreGrants(env: Env, fd: int, data: seq<Byte>, dest: Addr)
    requires fd in env.open
    ensures Successes(RetryLoop(env, fd, SendToRequest(data, dest), 0).tries) ==
              if env.errno != EINTR && NextReply(env.script).Ok? then 1
              else Granted(env.script, HardFailureAt(env.script))
    decreases |env.script|
  {
    hide Attempt, Answer, Translate, Successes, Min;
    var req := SendToRequest(data, dest);
    var (e, t) := Attempt(env, fd, req, 0);
    SendToAttempt(env, fd, data, dest);
    SuccessesOne(t);
    if Translate(e.errno) == Interrupted {
      InterruptedConsumes(env, fd, req, 0);
      SuccessesAreGrants(e, fd, data, dest);
      SuccessesCons(t, RetryLoop(e, fd, req, 0).tries);
    }
  }

  /** The datagram send loop in terms of the script: like the stream loop it goes on after
      successes once `errno` reads EINTR, and each of them is one more datagram. */
  lemma SendToLoopClosedForm(env: Env, fd: int, data: seq<Byte>, dest: Addr)
    requires fd in env.open
    ensures var r := RetryLoop(env, fd, SendToRequest(data, dest), 0);
            if env.errno != EINTR && env.script != [] && env.script[0].Ok? then
              |r.tries| == 1 && Last(r.tries).result == |data| && Successes(r.tries) == 1
            else
              && |r.tries| == HardFailureAt(env.script) + 1
              && Last(r.tries).result == -1
              && Successes(r.tries) == Granted(env.script, HardFailureAt(env.script))
  {
    hide Attempt, Translate, Successes, Granted, HardFailureAt;
    var req := SendToRequest(data, dest);
    LoopLength(env, fd, req, 0);
    SuccessesAreGrants(env, fd, data, dest);
    SendToAttempt(env, fd, data, dest);
  }

  lemma {:induction false} GrantedNothingIff(script: seq<Reply>, k: nat)
    requires k <= |script|
    ensures Granted(script, k) == 0 <==> forall i :: 0 <= i < k ==> script[i].Fail?
  {
    if k > 0 {
      var rest := script[1..];
      GrantedNothingIff(rest, k - 1);
      if forall i :: 0 <= i < k ==> script[i].Fail? {
        assert forall i :: 0 <= i < k - 1 ==> rest[i] == script[i + 1];
      } else {
        var i :| 0 <= i < k && !script[i].Fail?;
        assert i > 0 ==> rest[i - 1] == script[i];
      }
    }
  }

  // --- The receive loops

  /** What the first `k` replies leave of a stream, used for receives of `max` bytes. */
  function Remaining(script: seq<Reply>, stream: seq<Byte>, max: nat, k: nat): (r: seq<Byte>)
    requires k <= |script|
    ensures |r| <= |stream|
  {
    if k == 0 then stream
    else if script[0].Ok? then
      Remaining(script[1..], stream[Min(Min(script[0].n, max), |stream|)..], max, k - 1)
    else
      Remaining(script[1..], stream, max, k - 1)
  }

  /** One stream receive and the stream it leaves. */
  lemma RecvTakes(env: Env, fd: int, max: nat, offset: int)
    requires fd in env.open
    ensures var (e, t) := Attempt(env, fd, RecvRequest(max), offset);
            var reply := NextReply(env.script);
            var inbound := env.open[fd].inbound;
            var k := if reply.Ok? then Min(Min(reply.n, max), |inbound|) else 0;
            && fd in e.open
            && t.err == (if reply.Fail? then reply.err else NoError)
            && t.result == (if reply.Ok? then k else -1)
            && t.data == inbound[..k]
            && t.data + e.open[fd].inbound == inbound
            && e.open[fd].inbound == inbound[k..]
  {
    assert env.open[fd].inbound[..0] == [] && env.open[fd].inbound[0..] == env.open[fd].inbound;
  }

  /** What a stream receive loop takes and what it leaves make up the old stream. */
  lemma {:induction false} RecvLoopConserves(env: Env, fd: int, max: nat, offset: int)
    requires fd in env.open
    ensures var r := RetryLoop(env, fd, RecvRequest(max), offset);
            fd in r.env.open && Moved(r.tries) + r.env.open[fd].inbound == env.open[fd].inbound
    decreases |env.script|
  {
    hide Attempt, Answer, Translate, Moved, Min, NextReply;
    var req := RecvRequest(max);
    var (e, t) := Attempt(env, fd, req, offset);
    RecvTakes(env, fd, max, offset);
    MovedOne(t);
    if Translate(e.errno) == Interrupted {
      InterruptedConsumes(env, fd, req, offset);
      RecvLoopConserves(e, fd, max, NextOffset(t));
      var rest := RetryLoop(e, fd, req, NextOffset(t));
      MovedCons(t, rest.tries);
      Reassociate(t.data, Moved(rest.tries), rest.env.open[fd].inbound);
    }
  }

  lemma Reassociate(a: seq<Byte>, b: seq<Byte>, c: seq<Byte>)
    ensures (a + b) + c == a + (b + c)
  {
  }

  /** The whole behaviour of the stream receive loop in terms of the script: one attempt that
      succeeds, or attempts up to the first failure other than EINTR, which is reported over
      everything they took from the stream. */
  lemma {:induction false} RecvLoopClosedForm(env: Env, fd: int, max: nat, offset: int)
    requires fd in env.open
    ensures var r := RetryLoop(env, fd, RecvRequest(max), offset);
            var inbound := env.open[fd].inbound;
            && fd in r.env.open
            && (if env.errno != EINTR && env.script != [] && env.script[0].Ok? then
                  var k := Min(Min(env.script[0].n, max), |inbound|);
                  |r.tries| == 1 && Last(r.tries).result == k && r.env.open[fd].inbound == inbound[k..]
                else
                  && |r.tries| == HardFailureAt(env.script) + 1
                  && Last(r.tries).result == -1
                  && r.env.open[fd].inbound == Remaining(env.script, inbound, max, HardFailureAt(env.script)))
    decreases |env.script|
  {
    hide Attempt, Answer, Translate, Min;
    var req := RecvRequest(max);
    var (e, t) := Attempt(env, fd, req, offset);
    RecvTakes(env, fd, max, offset);
    if Translate(e.errno) == Interrupted {
      InterruptedConsumes(env, fd, req, offset);
      RecvLoopClosedForm(e, fd, max, NextOffset(t));
    }
  }

  /** The stream is as before iff no granted receive among the first `k` replies takes a byte. */
  lemma {:induction false} NothingTakenIff(script: seq<Reply>, stream: seq<Byte>, max: nat, k: nat)
    requires k <= |script|
    ensures Remaining(script, stream, max, k) == stream <==>
              forall i :: 0 <= i < k && script[i].Ok? ==> Min(Min(script[i].n, max), |stream|) == 0
  {
    if k > 0 {
      var rest := script[1..];
      var n := if script[0].Ok? then Min(Min(script[0].n, max), |stream|) else 0;
      assert stream[0..] == stream;
      NothingTakenIff(rest, stream[n..], max, k - 1);
      if forall i :: 0 <= i < k && script[i].Ok? ==> Min(Min(script[i].n, max), |stream|) == 0 {
        assert forall i :: 0 <= i < k - 1 ==> rest[i] == script[i + 1];
      } else {
        var i :| 0 <= i < k && script[i].Ok? && Min(Min(script[i].n, max), |stream|) != 0;
        assert i > 0 ==> rest[i - 1] == script[i];
      }
    }
  }

  /** How many of `waiting` datagrams a receive loop takes from here on if `errno` reads
      EINTR: one for each success, until a failure other than EINTR or an empty queue. */
  function Drained(script: seq<Reply>, waiting: nat): (n: nat)
    ensures n <= waiting
  {
    if script == [] then 0
    else if script[0].Fail? then if script[0].err == EINTR then Drained(script[1..], waiting) else 0
    else if waiting == 0 then 0
    else 1 + Drained(script[1..], waiting - 1)
  }

  /** The failure at which a datagram receive loop ends: an empty queue is one. */
  function DrainFailure(script: seq<Reply>, waiting: nat): (e: Failure)
    ensures e != EINTR
  {
    if script == [] then EBADF
    else if script[0].Fail? then if script[0].err == EINTR then DrainFailure(script[1..], waiting) else script[0].err
    else if waiting == 0 then EWOULDBLOCK
    else DrainFailure(script[1..], waiting - 1)
  }

  lemma {:induction false} DrainErrno(env: Env, fd: int, max: nat, intoGroup: bool)
    requires fd in env.open
    ensures RetryLoop(env, fd, RecvFromRequest(max, intoGroup), 0).env.errno ==
              if env.errno != EINTR && NextReply(env.script).Ok? && env.datagrams != [] then env.errno
              else DrainFailure(env.script, |env.datagrams|)
    decreases |env.script|
  {
    hide Attempt, Answer, Translate, Min;
    var req := RecvFromRequest(max, intoGroup);
    var (e, t) := Attempt(env, fd, req, 0);
    RecvFromAttempt(env, fd, max, intoGroup);
    if Translate(e.errno) == Interrupted {
      InterruptedConsumes(env, fd, req, 0);
      DrainErrno(e, fd, max, intoGroup);
    }
  }

  /** One datagram receive and the queue it leaves. */
  lemma RecvFromAttempt(env: Env, fd: int, max: nat, intoGroup: bool)
    requires fd in env.open
    ensures var (e, t) := Attempt(env, fd, RecvFromRequest(max, intoGroup), 0);
            var reply := NextReply(env.script);
            var got := reply.Ok? && env.datagrams != [];
            && fd in e.open
            && t.err == (if got then NoError else if reply.Fail? then reply.err else EWOULDBLOCK)
            && t.result == (if got then Min(max, |env.datagrams[0].data|) else -1)
            && e.datagrams == env.datagrams[if got then 1 else 0..]
  {
  }

  lemma DrainedStep(script: seq<Reply>, waiting: seq<Datagram>)
    ensures var reply := NextReply(script);
            var rest := Rest(script);
            && waiting[0..] == waiting
            && (reply.Ok? && waiting != [] ==>
                  waiting[Drained(script, |waiting|)..] == waiting[1..][Drained(rest, |waiting| - 1)..])
            && (reply == Fail(EINTR) ==> Drained(script, |waiting|) == Drained(rest, |waiting|))
            && ((reply.Fail? && reply.err != EINTR) || (reply.Ok? && waiting == []) ==> Drained(script, |waiting|) == 0)
  {
  }

  /** The datagram receive loop in terms of the script: one datagram taken and reported, or -1
      reported over all that were taken on the way to the failure. */
  lemma {:induction false} RecvFromLoopClosedForm(env: Env, fd: int, max: nat, intoGroup: bool)
    requires fd in env.open
    ensures var r := RetryLoop(env, fd, RecvFromRequest(max, intoGroup), 0);
            if env.errno != EINTR && NextReply(env.script).Ok? && env.datagrams != [] then
              && |r.tries| == 1 && Last(r.tries).result == Min(max, |env.datagrams[0].data|)
              && r.env.datagrams == env.datagrams[1..]
            else
              && Last(r.tries).result == -1
              && r.env.datagrams == env.datagrams[Drained(env.script, |env.datagrams|)..]
    decreases |env.script|
  {
    hide Attempt, Answer, Translate, Drained, Min;
    var req := RecvFromRequest(max, intoGroup);
    var (e, t) := Attempt(env, fd, req, 0);
    RecvFromAttempt(env, fd, max, intoGroup);
    DrainedStep(env.script, env.datagrams);
    if Translate(e.errno) == Interrupted {
      InterruptedConsumes(env, fd, req, 0);
      RecvFromLoopClosedForm(e, fd, max, intoGroup);
    }
  }

  // --- The receive loop after a stale interruption

  /** Every reply before the first failure other than EINTR grants a receive that moves
      nothing, for a buffer of `max` bytes and a stream with `available` bytes. */
  predicate NothingUntilFailure(script: seq<Reply>, max: nat, available: nat) {
    forall i :: 0 <= i < HardFailureAt(script) ==>
      script[i].Ok? && Min(Min(script[i].n, max), available) == 0
  }

  lemma NothingUntilFailureStep(script: seq<Reply>, max: nat, available: nat)
    requires script != [] && (script[0].Ok? || script[0].err == EINTR)
    ensures NothingUntilFailure(script, max, available) <==>
              && script[0].Ok? && Min(Min(script[0].n, max), available) == 0
              && NothingUntilFailure(script[1..], max, available)
  {
    var rest := script[1..];
    assert forall i :: 0 <= i < |rest| ==> rest[i] == script[i + 1];
    if NothingUntilFailure(script, max, available) {
      assert script[0].Ok?;
      forall i | 0 <= i < HardFailureAt(rest) ensures rest[i].Ok? && Min(Min(rest[i].n, max), available) == 0 {
        assert rest[i] == script[i + 1];
      }
    } else {
      var i :| 0 <= i < HardFailureAt(script) && !(script[i].Ok? && Min(Min(script[i].n, max), available) == 0);
      assert i > 0 ==> rest[i - 1] == script[i];
    }
  }

  /** One stream receive, granted or refused. */
  lemma RecvAttempt(env: Env, fd: int, max: nat, offset: int)
    requires fd in env.open
    ensures var (e, t) := Attempt(env, fd, RecvRequest(max), offset);
            var reply := NextReply(env.script);
            var inbound := env.open[fd].inbound;
            && fd in e.open
            && t.err == (if reply.Fail? then reply.err else NoError)
            && t.result == (if reply.Ok? then Min(Min(reply.n, max), |inbound|) else -1)
            && (t.result <= 0 ==> e.open[fd].inbound == inbound)
  {
  }

  /** Every attempt before the last returned 0. */
  predicate ZerosBeforeLast(tries: seq<Try>) {
    forall i :: 0 <= i < |tries| - 1 ==> tries[i].result == 0
  }

  lemma ZerosBeforeLastCons(t: Try, rest: seq<Try>)
    requires rest != []
    ensures ZerosBeforeLast([t] + rest) <==> t.result == 0 && ZerosBeforeLast(rest)
  {
    var all := [t] + rest;
    assert forall i :: 0 <= i < |rest| ==> rest[i] == all[i + 1];
    if ZerosBeforeLast(all) {
      assert all[0].result == 0;
      forall i | 0 <= i < |rest| - 1 ensures rest[i].result == 0 {
        assert all[i + 1].result == 0;
      }
    }
  }

  /** With `errno` at EINTR, every attempt before the last returns 0 iff the script says so. */
  lemma {:induction false} StaleReceiveZeros(env: Env, fd: int, max: nat, offset: int)
    requires fd in env.open && env.errno == EINTR
    ensures ZerosBeforeLast(RetryLoop(env, fd, RecvRequest(max), offset).tries) <==>
              NothingUntilFailure(env.script, max, |env.open[fd].inbound|)
    decreases |env.script|
  {
    hide Attempt, Answer, Translate, NothingUntilFailure, ZerosBeforeLast;
    var req := RecvRequest(max);
    var (e, t) := Attempt(env, fd, req, offset);
    RecvAttempt(env, fd, max, offset);
    if Translate(e.errno) == Interrupted {
      InterruptedConsumes(env, fd, req, offset);
      StaleReceiveZeros(e, fd, max, NextOffset(t));
      NothingUntilFailureStep(env.script, max, |env.open[fd].inbound|);
      ZerosBeforeLastCons(t, RetryLoop(e, fd, req, NextOffset(t)).tries);
    } else {
      assert HardFailureAt(env.script) == 0;
      NothingAtOnce(env.script, max, |env.open[fd].inbound|);
      ZerosAlone(t);
    }
  }

  lemma ZerosAlone(t: Try)
    ensures ZerosBeforeLast([t])
  {
  }

  lemma NothingAtOnce(script: seq<Reply>, max: nat, available: nat)
    requires HardFailureAt(script) == 0
    ensures NothingUntilFailure(script, max, available)
  {
  }

  // --- The loop that clears errno

  /** The number of interruptions before the first other answer. */
  function LeadingInterrupts(script: seq<Reply>): (k: nat)
    ensures k <= |script|
  {
    if script != [] && script[0] == Fail(EINTR) then 1 + LeadingInterrupts(script[1..]) else 0
  }

  /** Clearing `errno` gives exactly-once: every attempt but the last was interrupted and
      moved nothing, and the last one decides the result. */
  lemma {:induction false} ClearedExactlyOnce(env: Env, fd: int, req: Request)
    ensures var r := ClearedLoop(env, fd, req);
            && (forall i :: 0 <= i < |r.tries| - 1 ==>
                  r.tries[i].err == EINTR && r.tries[i].result == -1 && r.tries[i].data == [])
            && Last(r.tries).err != EINTR
            && (Last(r.tries).result >= 0 <==> Last(r.tries).err == NoError)
            && (Last(r.tries).err != NoError ==> Last(r.tries).data == [])
            && r.env.errno == Last(r.tries).err
            && r.env.io == env.io + OnDescriptor(fd, r.tries)
            && Moved(r.tries) == Last(r.tries).data
    decreases |env.script|
  {
    hide Attempt, Translate, Moved, OnDescriptor;
    var cleared := env.(errno := NoError);
    var (e, t) := Attempt(cleared, fd, req, 0);
    MovedCons(t, []);
    assert [t] + [] == [t];
    OnDescriptorCons(env.io, fd, t, []);
    assert Moved([]) == [] by { MovedNothing(); }
    if Translate(e.errno) == Interrupted {
      InterruptedConsumes(cleared, fd, req, 0);
      ClearedExactlyOnce(e, fd, req);
      var rest := ClearedLoop(e, fd, req);
      MovedCons(t, rest.tries);
      OnDescriptorCons(env.io, fd, t, rest.tries);
    }
  }

  /** The environment after `k` interrupted attempts. */
  function AfterInterrupts(env: Env, fd: int, req: Request, k: nat): Env
    requires k <= |env.script|
  {
    env.(errno := NoError,
         script := env.script[k..],
         io := env.io + seq(k, i => Io(fd, Try(req, 0, -1, EINTR, [], Unset))))
  }

  /** The environment after one interrupted attempt. */
  function OneInterrupt(env: Env, fd: int, req: Request): Env
    requires env.script != []
  {
    env.(errno := EINTR, script := env.script[1..],
         io := env.io + [Io(fd, Try(req, 0, -1, EINTR, [], Unset))])
  }

  /** The cleared loop is one attempt made after the interruptions have passed: nothing but
      the trace tells it from a call that was never interrupted. */
  lemma {:induction false} ClearedIsOneAttempt(env: Env, fd: int, req: Request)
    requires fd in env.open
    ensures var k := LeadingInterrupts(env.script);
            var r := ClearedLoop(env, fd, req);
            && |r.tries| == k + 1
            && (r.env, Last(r.tries)) == Attempt(AfterInterrupts(env, fd, req, k), fd, req, 0)
            && (Last(r.tries).result >= 0 <==> Answer(AfterInterrupts(env, fd, req, k), fd, req).Ok?)
    decreases |env.script|
  {
    hide Attempt, Answer, Translate, AfterInterrupts, OneInterrupt;
    var cleared := env.(errno := NoError);
    var k := LeadingInterrupts(env.script);
    AnswerInterruptedIff(cleared, fd, req);
    if Translate(Attempt(cleared, fd, req, 0).0.errno) == Interrupted {
      var e := OneInterrupt(env, fd, req);
      InterruptedAttempt(env, fd, req);
      ClearedIsOneAttempt(e, fd, req);
      InterruptsAdd(env, fd, req, k);
    } else {
      NoInterrupts(env, fd, req);
    }
  }

  lemma AnswerInterruptedIff(env: Env, fd: int, req: Request)
    requires fd in env.open
    ensures Answer(env, fd, req) == Fail(EINTR) <==> env.script != [] && env.script[0] == Fail(EINTR)
  {
  }

  lemma NoInterrupts(env: Env, fd: int, req: Request)
    ensures AfterInterrupts(env, fd, req, 0) == env.(errno := NoError)
  {
    assert env.script[0..] == env.script;
    assert env.io + [] == env.io;
  }

  /** An interrupted attempt, with or without `errno` cleared before it. */
  lemma InterruptedAttempt(env: Env, fd: int, req: Request)
    requires fd in env.open && env.script != [] && env.script[0] == Fail(EINTR)
    ensures Attempt(env, fd, req, 0).0 == OneInterrupt(env, fd, req)
    ensures Attempt(env.(errno := NoError), fd, req, 0).0 == OneInterrupt(env, fd, req)
    ensures OneInterrupt(env, fd, req).script == env.script[1..] && OneInterrupt(env, fd, req).open == env.open
  {
  }

  lemma InterruptsAdd(env: Env, fd: int, req: Request, k: nat)
    requires 0 < k <= |env.script|
    ensures |OneInterrupt(env, fd, req).script| == |env.script| - 1
    ensures AfterInterrupts(OneInterrupt(env, fd, req), fd, req, k - 1) == AfterInterrupts(env, fd, req, k)
  {
    var one := Io(fd, Try(req, 0, -1, EINTR, [], Unset));
    assert env.script[1..][k - 1..] == env.script[k..];
    assert (env.io + [one]) + seq(k - 1, i => one) == env.io + seq(k, i => one);
  }

  lemma AttemptIgnoresErrno(env: Env, fd: int, req: Request)
    ensures var (e, t) := Attempt(env, fd, req, 0);
            var (c, u) := Attempt(env.(errno := NoError), fd, req, 0);
            t == u && c == e.(errno := c.errno)
  {
  }

  /** The reply that decides the cleared loop, seen from the request. */
  predicate Refuses(env: Env, req: Request, reply: Reply) {
    || reply.Fail?
    || (req.AcceptRequest? && env.pending == [])
    || (req.RecvFromRequest? && env.datagrams == [])
  }

  lemma FirstOffset(env: Env, fd: int, req: Request, offset: int)
    ensures RetryLoop(env, fd, req, offset).tries[0].offset == offset
    ensures ClearedLoop(env, fd, req).tries[0].offset == 0
  {
    hide Attempt, Translate;
  }

  lemma AnswerRefusedIff(env: Env, fd: int, req: Request)
    requires fd in env.open
    ensures Answer(env, fd, req).Fail? <==> Refuses(env, req, NextReply(env.script))
  {
  }

  /** The loop as written makes the attempts of the cleared loop iff the first reply that is
      not an interruption refuses the request, or it is the first reply of all and `errno` was
      not EINTR on entry.  A stream receive must in any case not be interrupted, since then
      its second attempt is misplaced. */
  lemma {:induction false} WrittenAgreesWithClearedIff(env: Env, fd: int, req: Request)
    requires fd in env.open
    ensures var k := LeadingInterrupts(env.script);
            var refused := Refuses(env, req, NextReply(env.script[k..]));
            RetryLoop(env, fd, req, 0).tries == ClearedLoop(env, fd, req).tries <==>
              if req.RecvRequest? then k == 0 && (refused || env.errno != EINTR)
              else refused || (k == 0 && env.errno != EINTR)
    decreases |env.script|
  {
    hide Attempt, Answer, Translate, Refuses;
    AttemptIgnoresErrno(env, fd, req);
    AnswerInterruptedIff(env, fd, req);
    AnswerRefusedIff(env, fd, req);
    assert env.script[0..] == env.script;
    var (e, t) := Attempt(env, fd, req, 0);
    if t.err == EINTR {
      var k := LeadingInterrupts(env.script);
      InterruptedConsumes(env, fd, req, 0);
      InterruptedAttempt(env, fd, req);
      assert e.script[k - 1..] == env.script[k..];
      WrittenAgreesWithClearedIff(e, fd, req);
      SameRefusal(env, e, req, NextReply(env.script[k..]));
      var written, once := RetryLoop(e, fd, req, NextOffset(t)).tries, ClearedLoop(e, fd, req).tries;
      assert ([t] + written)[1..] == written;
      assert ([t] + once)[1..] == once;
      FirstOffset(e, fd, req, NextOffset(t));
    }
  }

  lemma SameRefusal(a: Env, b: Env, req: Request, reply: Reply)
    requires a.pending == b.pending && a.datagrams == b.datagrams
    ensures Refuses(a, req, reply) == Refuses(b, req, reply)
  {
  }
}
