/** Listen, Accept, Select and Open: when they succeed and what they report. */
module Setup {
  import opened Posix
  import opened Retry
  import opened SocketModel
  import opened Lifecycle

  // --- Initialize and Close

  /** A granted Initialize and a granted Close undo each other on an object without descriptor:
      the descriptor table is as before, and the one descriptor made was closed once. */
  lemma InitializeCloseRoundTrip(s: Sock, env: Env)
    requires !IsValid(s) && ValidEnv(env)
    requires |env.script| >= 2 && env.script[0].Ok? && env.script[1].Ok?
    ensures var o := Initialize(s, env);
            var c := Close(o.sock, o.env);
            && o.ret && o.sock.error == Success && IsValid(o.sock) && o.env.open.Keys == env.open.Keys + {o.sock.handle}
            && c.ret && c.sock.error == Success && !IsValid(c.sock) && c.sock.buffer == None
            && c.env.open == env.open
            && c.env.closed == env.closed + multiset{o.sock.handle}
  {
    hide Close, Initialize, ValidEnv;
    var o := Initialize(s, env);
    GrantedInitialize(s, env);
    GrantedClose(o.sock, o.env);
    assert env.nextFd !in env.open by {
      FreshNumber(env);
    }
    assert env.open[env.nextFd := NewDesc()] - {env.nextFd} == env.open;
  }

  /** A refused Initialize leaves an object without descriptor, whatever it held before, that
      reports the refusal; the system is as it was. */
  lemma RefusedInitialize(s: Sock, env: Env)
    requires NextReply(env.script).Fail?
    ensures var o := Initialize(s, env);
            && !o.ret && !IsValid(o.sock) && o.sock.error == Translate(NextReply(env.script).err)
            && o.sock == s.(handle := INVALID_SOCKET, error := o.sock.error, timer := o.sock.timer)
            && o.env.open == env.open && o.env.nextFd == env.nextFd
  {
    hide Translate;
  }

  /** Close succeeds iff the object holds a descriptor and the system grants the call.  A refused
      Close keeps the descriptor and reports the refusal.  The buffer goes in any case. */
  lemma CloseOutcome(s: Sock, env: Env)
    ensures var o := Close(s, env);
            var refused := IsValid(s) && ReplyAt(env, s.handle, 0).Fail?;
            && (o.ret <==> IsValid(s) && s.handle in env.open && ReplyAt(env, s.handle, 0).Ok?)
            && o.sock.error == Translate(if refused then ReplyAt(env, s.handle, 0).err else env.errno)
            && o.sock == s.(handle := o.sock.handle, error := o.sock.error, buffer := None)
            && o.sock.handle == (if o.ret then INVALID_SOCKET else s.handle)
            && (o.ret ==> o.env.open == env.open - {s.handle} && o.env.closed == env.closed + multiset{s.handle})
            && (!o.ret ==> o.env.open == env.open && o.env.closed == env.closed)
  {
    hide Translate;
  }

  /** After a Close that succeeded, a second one fails and does not reach the system. */
  lemma SecondCloseFails(s: Sock, env: Env)
    requires Close(s, env).ret
    ensures var o := Close(s, env);
            var again := Close(o.sock, o.env);
            !again.ret && again.env == o.env && again.sock == o.sock
  {
    hide Close, Translate;
    CloseOutcome(s, env);
    CloseErrno(s, env);
    CloseInvalid(Close(s, env).sock, Close(s, env).env);
  }

  lemma CloseErrno(s: Sock, env: Env)
    ensures Close(s, env).sock.error == Translate(Close(s, env).env.errno)
  {
    hide Translate;
  }

  lemma CloseInvalid(s: Sock, env: Env)
    requires !IsValid(s) && s.buffer == None
    ensures var o := Close(s, env); !o.ret && o.env == env && o.sock == Translated(s, env)
  {
  }

  /** Deleting an active or passive object closes its descriptor as Close does.  An object of the
      base class leaves it open, for nobody to close. */
  lemma DestroyClosesUnlessSimple(s: Sock, env: Env)
    requires IsValid(s) && s.handle in env.open && ReplyAt(env, s.handle, 0).Ok?
    ensures var e := Destroy(s, env);
            if s.role.Simple? then e.open == env.open && e.script == env.script
            else e.open == env.open - {s.handle} && e.closed == env.closed + multiset{s.handle}
  {
  }

  lemma FreshNumber(env: Env)
    requires ValidEnv(env)
    ensures env.nextFd !in env.open
  {
  }

  lemma GrantedInitialize(s: Sock, env: Env)
    requires env.script != [] && env.script[0].Ok?
    ensures var o := Initialize(s, env);
            && o.ret && o.sock.error == Success && o.sock.handle == env.nextFd
            && o.env.open == env.open[env.nextFd := NewDesc()] && o.env.errno == NoError
            && o.env.script == env.script[1..] && o.env.closed == env.closed
  {
  }

  lemma GrantedClose(s: Sock, env: Env)
    requires IsValid(s) && s.handle in env.open && env.script != [] && env.script[0].Ok?
    ensures var c := Close(s, env);
            && c.ret && c.sock.error == Translate(env.errno) && !IsValid(c.sock) && c.sock.buffer == None
            && c.env.open == env.open - {s.handle} && c.env.closed == env.closed + multiset{s.handle}
  {
  }

  // --- Listen

  /** The address that an argument of Listen or BindMulticast stands for: the parsed one, and any
      interface when there is none or it does not parse. */
  lemma HostAddress(host: HostArg, port: int)
    ensures Addr(HostIp(host), port) ==
              match host
              case NoHost => Addr(0, port)
              case Host(None) => Addr(0, port)
              case Host(Some(ip)) => Addr(ip, port)
  {
  }

  /** Every outcome of Listen in terms of the replies to bind, listen and the close that cleans
      up, which follow the two option calls.  True means bound, and for TCP listening.  A false
      result reports the failing bind or listen and not an older `errno` or the clean-up, has no
      buffer left, and keeps a valid handle iff close fails. */
  lemma ListenOutcome(s: Sock, env: Env, addr: HostArg, port: int)
    ensures var o := Listen(s, env, addr, port);
            var bind, listen := ReplyAt(env, s.handle, 2), ReplyAt(env, s.handle, 3);
            var failing := if bind.Fail? then bind else listen;
            var closing := ReplyAt(env, s.handle, if bind.Fail? then 3 else 4);
            var at := match addr { case Host(Some(ip)) => Addr(ip, port) case _ => Addr(0, port) };
            && o.sock.server == at
            && (o.ret <==> bind.Ok? && (s.kind == Tcp ==> listen.Ok?))
            && (!o.ret ==>
                  && o.sock.error == Translate(failing.err)
                  && o.sock.buffer == None
                  && (IsValid(o.sock) <==> IsValid(s) && closing.Fail?)
                  && (!IsValid(o.sock) ==> s.handle !in o.env.open || s.handle == INVALID_SOCKET))
            && (o.ret ==>
                  && s.handle in o.env.open
                  && o.env.open[s.handle].bound == Some(at)
                  && (s.kind == Tcp ==> o.env.open[s.handle].listening)
                  && o.sock.handle == s.handle && o.sock.buffer == s.buffer)
  {
    hide Bound, Close, ReplyAt, Translate, HostIp;
    HostAddress(addr, port);
    BoundOutcome(s, env, addr, port);
    var (s2, e, ok) := Bound(s, env, addr, port);
    CleanUp(s2, e);
  }

  /** What a clean-up by Close leaves. */
  lemma CleanUp(s: Sock, env: Env)
    ensures var c := Close(s, env);
            && c.sock.buffer == None
            && (IsValid(c.sock) <==> IsValid(s) && ReplyFor(env, s.handle).Fail?)
            && (!IsValid(c.sock) ==> s.handle !in c.env.open || s.handle == INVALID_SOCKET)
            && c.env.errno == (if IsValid(s) && ReplyFor(env, s.handle).Fail? then ReplyFor(env, s.handle).err
                               else env.errno)
            && c.sock.error == Translate(c.env.errno)
            && c.sock.server == s.server && c.sock.group == s.group
  {
    hide Translate;
  }

  lemma BoundOutcome(s: Sock, env: Env, addr: HostArg, port: int)
    ensures var (s2, e, ok) := Bound(s, env, addr, port);
            var bind, listen := ReplyAt(env, s.handle, 2), ReplyAt(env, s.handle, 3);
            && s2 == s.(server := Addr(HostIp(addr), port), error := Translate(e.errno), timer := s2.timer)
            && (ok <==> bind.Ok? && (s.kind == Tcp ==> listen.Ok?))
            && (!ok ==>
                  && e.errno == (if bind.Fail? then bind.err else listen.err)
                  && ReplyFor(e, s.handle) == ReplyAt(env, s.handle, if bind.Fail? then 3 else 4))
            && (ok ==>
                  && s.handle in e.open
                  && e.errno == (if ReplyAt(env, s.handle, 1).Fail? then ReplyAt(env, s.handle, 1).err
                                 else if ReplyAt(env, s.handle, 0).Fail? then ReplyAt(env, s.handle, 0).err
                                 else env.errno)
                  && e.open[s.handle].bound == Some(s2.server)
                  && (s.kind == Tcp ==> e.open[s.handle].listening))
  {
    hide BindCalls, Translate, ReplyAt;
    var e1 := PlainCall(env, s.handle).0;
    var e2 := PlainCall(e1, s.handle).0;
    var s1 := s.(server := Addr(HostIp(addr), port));
    OptionReplies(env, s.handle);
    OptionReplies(e1, s.handle);
    BindReplies(s1, Tick(e2));
    TickReplies(e2, s.handle);
    TickReplies(BindCalls(s1, Tick(e2)).0, s.handle);
  }

  /** One option call uses up one reply. */
  lemma OptionReplies(env: Env, fd: int)
    ensures var e := PlainCall(env, fd).0;
            && e.open == env.open && (forall k: nat :: ReplyAt(e, fd, k) == ReplyAt(env, fd, k + 1))
            && e.errno == if ReplyAt(env, fd, 0).Fail? then ReplyAt(env, fd, 0).err else env.errno
  {
  }

  lemma TickReplies(env: Env, fd: int)
    ensures var e := Tick(env);
            e.open == env.open && e.errno == env.errno && ReplyFor(e, fd) == ReplyFor(env, fd)
    ensures forall k: nat :: ReplyAt(Tick(env), fd, k) == ReplyAt(env, fd, k)
  {
  }

  lemma BindReplies(s: Sock, env: Env)
    ensures var (e, ok) := BindCalls(s, env);
            var bind, listen := ReplyAt(env, s.handle, 0), ReplyAt(env, s.handle, 1);
            && (ok <==> bind.Ok? && (s.kind == Tcp ==> listen.Ok?))
            && (!ok ==>
                  && e.errno == (if bind.Fail? then bind.err else listen.err)
                  && ReplyFor(e, s.handle) == ReplyAt(env, s.handle, if bind.Fail? then 1 else 2))
            && (ok ==>
                  && s.handle in e.open && e.errno == env.errno
                  && e.open[s.handle].bound == Some(s.server)
                  && (s.kind == Tcp ==> e.open[s.handle].listening))
  {
  }

  /** A successful Listen reports Success iff `errno` was zero on entry and both option calls
      before the bind succeeded: their failures are ignored but stay in `errno`, and the last
      one is reported. */
  lemma ListenCleanErrorIff(s: Sock, env: Env, addr: HostArg, port: int)
    ensures var o := Listen(s, env, addr, port);
            var reuse, tos := ReplyAt(env, s.handle, 0), ReplyAt(env, s.handle, 1);
            o.ret ==>
              && (o.sock.error == Success <==> env.errno == NoError && reuse.Ok? && tos.Ok?)
              && o.sock.error == Translate(if tos.Fail? then tos.err else if reuse.Fail? then reuse.err
                                           else env.errno)
  {
    hide Bound, Close, Translate, ReplyAt;
    BoundOutcome(s, env, addr, port);
  }

  /** Two ignored option calls, one of which is refused, and then all goes well: Listen returns
      true and reports a reset connection. */
  lemma ListenReportsIgnoredFailure(s: Sock, env: Env, addr: HostArg, port: int)
    requires s.kind == Tcp && s.handle in env.open
    requires var ok := Ok(0, false, false, NoError); env.script == [ok, Fail(ENOPROTOOPT), ok, ok]
    ensures var o := Listen(s, env, addr, port); o.ret && o.sock.error == ConnectionReset
  {
  }

  /** BindMulticast in terms of the replies to bind, the joining of the group, and the close
      that cleans up.  It does not save its error: a failure is reported as such iff the close
      is not made, is answered with success, or fails with an error of the class of the one to
      be reported, and otherwise the failure of the close is reported in its place. */
  lemma JoinFailureReportIff(s: Sock, env: Env, addr: HostArg, port: int)
    ensures var o := BindMulticast(s, env, addr, port);
            var bind, join := ReplyAt(env, s.handle, 0), ReplyAt(env, s.handle, 1);
            var failing := if bind.Fail? then bind else join;
            var closing := ReplyAt(env, s.handle, if bind.Fail? then 1 else 2);
            var at := match addr { case Host(Some(ip)) => Addr(ip, port) case _ => Addr(0, port) };
            && o.sock.group == at
            && (o.ret <==> bind.Ok? && join.Ok?)
            && (!o.ret ==>
                  && o.sock.buffer == None
                  && (o.sock.error == Translate(failing.err) <==>
                        !IsValid(s) || closing.Ok? || Translate(closing.err) == Translate(failing.err))
                  && (IsValid(s) && closing.Fail? ==> o.sock.error == Translate(closing.err))
                  && (IsValid(o.sock) <==> IsValid(s) && closing.Fail?))
            && (o.ret ==>
                  && s.handle in o.env.open && o.env.open[s.handle].bound == Some(at)
                  && o.sock.handle == s.handle && o.sock.buffer == s.buffer
                  && o.sock.error == Translate(env.errno))
  {
    hide Joined, Close, ReplyAt, Translate, HostIp;
    HostAddress(addr, port);
    JoinedOutcome(s, env, addr, port);
    var (s1, e1, ok) := Joined(s, env, addr, port);
    CleanUp(s1, e1);
  }

  lemma JoinedOutcome(s: Sock, env: Env, addr: HostArg, port: int)
    ensures var (s1, e, ok) := Joined(s, env, addr, port);
            var bind, join := ReplyAt(env, s.handle, 0), ReplyAt(env, s.handle, 1);
            && s1 == s.(group := Addr(HostIp(addr), port), error := Translate(e.errno), timer := s1.timer)
            && (ok <==> bind.Ok? && join.Ok?)
            && (!ok ==>
                  && e.errno == (if bind.Fail? then bind.err else join.err)
                  && ReplyFor(e, s.handle) == ReplyAt(env, s.handle, if bind.Fail? then 1 else 2))
            && (ok ==>
                  && s.handle in e.open && e.open[s.handle].bound == Some(s1.group)
                  && e.errno == env.errno)
  {
    hide Translate, ReplyAt, ReplyFor, BindCall, PlainCall;
    var s1 := s.(group := Addr(HostIp(addr), port));
    BindStep(env, s.handle, s1.group);
    var (e1, bound) := BindCall(env, s.handle, s1.group);
    PlainStep(e1, s.handle);
    var e2 := if bound then PlainCall(e1, s.handle).0 else e1;
    FirstReply(e2, s.handle);
    TickReplies(e2, s.handle);
    TickReplies(Tick(e2), s.handle);
  }

  lemma BindStep(env: Env, fd: int, addr: Addr)
    ensures var (e, ok) := BindCall(env, fd, addr);
            var reply := ReplyAt(env, fd, 0);
            && (ok <==> reply.Ok?)
            && e.errno == (if ok then env.errno else reply.err)
            && (ok ==> fd in e.open && e.open[fd].bound == Some(addr))
            && ReplyAt(e, fd, 0) == ReplyAt(env, fd, 1) && ReplyAt(e, fd, 1) == ReplyAt(env, fd, 2)
  {
  }

  lemma PlainStep(env: Env, fd: int)
    ensures var (e, ok) := PlainCall(env, fd);
            var reply := ReplyAt(env, fd, 0);
            && (ok <==> reply.Ok?)
            && e.errno == (if ok then env.errno else reply.err)
            && e.open == env.open
            && ReplyAt(e, fd, 0) == ReplyAt(env, fd, 1)
  {
  }

  lemma FirstReply(env: Env, fd: int)
    ensures ReplyFor(env, fd) == ReplyAt(env, fd, 0)
  {
  }

  /** An address in use, and a clean-up interrupted by a signal: BindMulticast reports the
      interruption and keeps the handle. */
  lemma JoinReportsCleanUp(s: Sock, env: Env, addr: HostArg, port: int)
    requires IsValid(s) && s.handle in env.open
    requires env.script == [Fail(EADDRINUSE), Fail(EINTR)]
    ensures var o := BindMulticast(s, env, addr, port);
            !o.ret && o.sock.error == Interrupted && o.sock.handle == s.handle
  {
  }

  // --- Accept

  /** Accept on a listening TCP socket, for any number of interruptions before the first other
      answer: it returns a socket iff that answer is a success and a connection is waiting.
      Then exactly one connection is taken, its descriptor is new and held by the returned
      object with error Success, which knows the peer as the connection came and its own side
      as getsockname tells; otherwise nothing is taken, opened or closed, and the listener's
      error is that of the answer, an empty queue counting as one that would block. */
  lemma AcceptExactlyOnce(s: Sock, env: Env)
    requires s.kind == Tcp && s.handle in env.open
    ensures var k := LeadingInterrupts(env.script);
            var a := Accept(s, env);
            && (a.client.Some? <==> k < |env.script| && env.script[k].Ok? && env.pending != [])
            && (a.client.Some? ==>
                  && a.env.pending == env.pending[1..]
                  && a.client.value.handle == env.nextFd && a.env.nextFd == env.nextFd + 1
                  && a.env.open == env.open[env.nextFd := NewDesc().(inbound := env.pending[0].stream)]
                  && a.client.value.error == Success
                  && a.client.value == Fresh(Active, Tcp).(handle := env.nextFd, error := Success,
                       client := env.pending[0].addr, server := NameIn(ReplyAt(env, s.handle, k + 2)))
                  && a.listener == s.(client := env.pending[0].addr, timer := a.listener.timer,
                                      error := if k > 0 then Interrupted else s.error))
            && (a.client.None? ==>
                  && a.env.pending == env.pending && a.env.open == env.open && a.env.nextFd == env.nextFd
                  && a.env.errno == (if ReplyAt(env, s.handle, k).Fail? then ReplyAt(env, s.handle, k).err
                                     else EWOULDBLOCK)
                  && a.listener.error == Translate(a.env.errno)
                  && a.listener == s.(error := a.listener.error, timer := a.listener.timer))
            && SameElsewhere(env, a.env)
            && |a.env.io| == |env.io| + k + 1
  {
    hide ClearedLoop, AfterInterrupts, LeadingInterrupts, Attempt, Answer, PlainCall, NameCall, Translate, NameIn;
    var k := LeadingInterrupts(env.script);
    var started := Tick(env);
    ClearedIsOneAttempt(started, s.handle, AcceptRequest);
    ClearedExactlyOnce(started, s.handle, AcceptRequest);
    InterruptsOnly(started, s.handle, k);
    AcceptAttempt(AfterInterrupts(started, s.handle, AcceptRequest, k), s.handle);
    var e := ClearedLoop(started, s.handle, AcceptRequest).env;
    NamesAfterAccept(env, e, s.handle, k);
  }

  /** What a successful Accept leaves of the script, and of `errno`: the failures of the two
      look-ups of addresses, which are ignored. */
  lemma AcceptUses(s: Sock, env: Env)
    requires s.kind == Tcp && s.handle in env.open && Accept(s, env).client.Some?
    ensures var k := LeadingInterrupts(env.script);
            var e := Accept(s, env).env;
            var peer, own := ReplyAt(env, s.handle, k + 1), ReplyAt(env, s.handle, k + 2);
            && e.errno == (if own.Fail? then own.err else if peer.Fail? then peer.err else NoError)
            && e.script == env.script[Min(k + 3, |env.script|)..]
  {
    hide ClearedLoop, AfterInterrupts, LeadingInterrupts, Attempt, Answer, PlainCall, NameCall, Translate, NameIn;
    var k := LeadingInterrupts(env.script);
    var started := Tick(env);
    ClearedIsOneAttempt(started, s.handle, AcceptRequest);
    ClearedExactlyOnce(started, s.handle, AcceptRequest);
    InterruptsOnly(started, s.handle, k);
    AcceptAttempt(AfterInterrupts(started, s.handle, AcceptRequest, k), s.handle);
    NamesAfterAccept(env, ClearedLoop(started, s.handle, AcceptRequest).env, s.handle, k);
  }

  /** The two look-ups after an accepted connection. */
  lemma NamesAfterAccept(env: Env, e: Env, fd: int, k: nat)
    requires fd in env.open && fd in e.open
    requires k < |env.script| ==> e.script == env.script[k..][1..]
    requires k >= |env.script| ==> e.script == []
    ensures var e1 := PlainCall(e, fd).0;
            var (e2, name) := NameCall(e1, fd);
            var peer, own := ReplyAt(env, fd, k + 1), ReplyAt(env, fd, k + 2);
            && name == NameIn(own)
            && e2.errno == (if own.Fail? then own.err else if peer.Fail? then peer.err else e.errno)
            && e2.script == env.script[Min(k + 3, |env.script|)..]
            && e2 == e.(errno := e2.errno, script := e2.script)
  {
    hide NameIn;
    if k < |env.script| {
      assert e.script == env.script[k + 1..];
      assert Rest(e.script) == env.script[Min(k + 2, |env.script|)..];
      assert Rest(Rest(e.script)) == env.script[Min(k + 3, |env.script|)..];
    }
  }

  /** Accept is for streams: on another kind it fails without reaching the system. */
  lemma AcceptOnlyOnStreams(s: Sock, env: Env)
    requires s.kind != Tcp
    ensures var a := Accept(s, env);
            a.client.None? && a.env == env && a.listener == s.(error := ProtocolError)
  {
  }

  lemma AcceptAttempt(env: Env, fd: int)
    requires fd in env.open
    ensures var (e, t) := Attempt(env, fd, AcceptRequest, 0);
            && (t.result != -1 <==> NextReply(env.script).Ok? && env.pending != [])
            && (t.result != -1 ==> t.result == env.nextFd && t.from == env.pending[0].addr)
            && e == env.(errno := e.errno, script := e.script, io := e.io, pending := e.pending,
                         open := e.open, nextFd := e.nextFd)
            && |e.io| == |env.io| + 1
            && t.err == (if t.result != -1 then NoError
                         else if NextReply(env.script).Fail? then NextReply(env.script).err else EWOULDBLOCK)
            && (if t.result != -1 then
                  && e.pending == env.pending[1..] && e.nextFd == env.nextFd + 1
                  && e.open == env.open[env.nextFd := NewDesc().(inbound := env.pending[0].stream)]
                else
                  e.pending == env.pending && e.open == env.open && e.nextFd == env.nextFd)
  {
  }

  /** The heap, the file and the closed descriptors are as before. */
  ghost predicate SameElsewhere(a: Env, b: Env) {
    && a.live == b.live && a.nextBlock == b.nextBlock && a.freed == b.freed
    && a.closed == b.closed && a.closeFailures == b.closeFailures
  }

  lemma InterruptsOnly(env: Env, fd: int, k: nat)
    requires k <= |env.script|
    ensures var e := AfterInterrupts(env, fd, AcceptRequest, k);
            && e.pending == env.pending && e.open == env.open && e.nextFd == env.nextFd
            && SameElsewhere(env, e) && |e.io| == |env.io| + k && e.script == env.script[k..]
            && NextReply(e.script) == if k < |env.script| then env.script[k] else EXHAUSTED
  {
  }

  /** The documentation says that a successful Accept leaves the listener's own error at
      Success.  It does iff the error was Success before and no attempt was interrupted. */
  lemma ListenerErrorIff(s: Sock, env: Env)
    requires s.kind == Tcp && s.handle in env.open && Accept(s, env).client.Some?
    ensures Accept(s, env).listener.error == Success <==>
              s.error == Success && LeadingInterrupts(env.script) == 0
  {
    hide AfterInterrupts;
    ClearedIsOneAttempt(Tick(env), s.handle, AcceptRequest);
  }

  /** One interruption before the connection is taken, and a successful Accept leaves the
      listener reporting Interrupted. */
  lemma AcceptLeavesInterrupted(s: Sock, env: Env)
    requires s.kind == Tcp && s.handle in env.open && env.pending != []
    requires var ok := Ok(0, false, false, NoError); env.script == [Fail(EINTR), ok, ok, ok]
    ensures var a := Accept(s, env); a.client.Some? && a.listener.error == Interrupted
  {
    hide AfterInterrupts, Attempt;
    var e := Tick(env);
    assert env.script[1..][0].Ok?;
    assert LeadingInterrupts(env.script[1..]) == 0 && LeadingInterrupts(env.script) == 1;
    AcceptExactlyOnce(s, env);
    ClearedIsOneAttempt(e, s.handle, AcceptRequest);
  }

  // --- Select and Open

  /** The reply to `select` marks the descriptor ready for reading or writing in time. */
  predicate ReadyInTime(reply: Reply, timed: bool) {
    reply.Ok? && !(timed && reply.n == 0) && (reply.read || reply.write)
  }

  predicate NoPendingError(reply: Reply) {
    reply.Ok? && reply.pendingError == NoError
  }

  /** Select in terms of the two replies it gets: as long as `select` itself does not fail it
      is true iff the descriptor was ready in time and SO_ERROR holds no error.  If `select`
      fails it is true also, provided only that SO_ERROR holds no error.  A false result reports
      the timeout, the error that SO_ERROR held, or the refusal to read it; a descriptor that
      is merely not ready leaves the old error. */
  lemma SelectTrueIff(s: Sock, env: Env, sec: int, usec: int)
    ensures var ready := NextReply(env.script);
            var timed := sec > 0 || usec > 0;
            var o := Select(s, env, sec, usec);
            && (o.ret <==>
                  && s.handle in env.open
                  && (ready.Fail? || ReadyInTime(ready, timed))
                  && NoPendingError(NextReply(Rest(env.script))))
            && (o.ret ==> o.sock.error == Success && o.env.errno == NoError)
            && (s.handle !in env.open ==> o.sock.error == InvalidSocket)
            && (s.handle in env.open && ready.Ok? && timed && ready.n == 0 ==> o.sock.error == Timedout)
            && (s.handle in env.open && ready.Ok? && !(timed && ready.n == 0) && !ReadyInTime(ready, timed) ==>
                  o.sock.error == s.error)
            && (s.handle in env.open && (ready.Fail? || ReadyInTime(ready, timed)) ==>
                  o.sock.error == Translate(PendingError(NextReply(Rest(env.script)))))
  {
  }

  /** What the reply to the read of SO_ERROR amounts to. */
  function PendingError(reply: Reply): Errno {
    if reply.Ok? then reply.pendingError else reply.err
  }

  /** A select that fails, here by a signal, can be reported as a ready descriptor. */
  lemma FailedSelectReportsReady(s: Sock, env: Env)
    requires s.handle in env.open
    requires env.script == [Fail(EINTR), Ok(0, false, false, NoError)]
    ensures Select(s, env, 1, 0).ret
  {
  }

  /** The object, the host, the port and the lookup are good; the broadcast address is not. */
  predicate Addressed(s: Sock, host: Option<Lookup>, port: int) {
    IsValid(s) && host.Some? && port != 0 && host.value.Found? && host.value.ip != 0xFFFF_FFFF
  }

  /** The address a lookup yields. */
  function FoundIp(host: Option<Lookup>): int {
    if host.Some? && host.value.Found? then host.value.ip else 0
  }

  /** What a true Open leaves: the descriptor directed to the address asked for, and the object
      holding the peer's address as getpeername tells it and its own as getsockname does, which
      are calls number `j` and `j + 1`. */
  ghost predicate Opened(s: Sock, env: Env, o: Outcome<bool>, at: Addr, j: nat) {
    && s.handle in env.open
    && o.sock == s.(server := NameIn(ReplyAt(env, s.handle, j)), client := NameIn(ReplyAt(env, s.handle, j + 1)),
                    error := Success, timer := o.sock.timer)
    && o.env.open == env.open[s.handle := env.open[s.handle].(target := Some(at))]
  }

  /** Open on TCP, for every script, in terms of the replies to connect, select and the read
      of SO_ERROR: with good arguments it is true iff connect succeeds at once, or the object
      says non-blocking, connect is in progress, SO_ERROR is clear, and the descriptor was
      ready in time.  The only further true results come from a select that failed.  Every
      true result has error Success, the same, valid handle, and the addresses of the two ends. */
  lemma OpenTcpIff(s: Sock, env: Env, host: Option<Lookup>, port: int)
    requires s.kind == Tcp
    ensures var connected := NextReply(env.script);
            var ready := NextReply(Rest(env.script));
            var pending := NextReply(Rest(Rest(env.script)));
            var timed := s.connectSec > 0 || s.connectUsec > 0;
            var o := Open(s, env, host, port);
            && (o.ret <==>
                  && Addressed(s, host, port) && s.handle in env.open
                  && (|| connected.Ok?
                      || (&& !s.blocking && connected.err in {EWOULDBLOCK, EINPROGRESS}
                          && NoPendingError(pending)
                          && (ReadyInTime(ready, timed) || ready.Fail?))))
            && (o.ret ==> o.sock.error == Success && IsValid(o.sock) && o.sock.handle == s.handle)
            && (o.ret ==> Opened(s, env, o, Addr(FoundIp(host), port), if connected.Ok? then 1 else 3))
  {
    hide ConnectOrPoll, ReadyInTime, NoPendingError, NameIn, Translate;
    if Addressed(s, host, port) {
      var s1 := s.(server := Addr(host.value.ip, port));
      if s.handle in env.open {
        PollTrueIff(s1, Tick(env));
        PollLeaves(s1, Tick(env));
        var o := ConnectOrPoll(s1, Tick(env));
        if o.ret {
          NamesAfter(env, Tick(o.env), s.handle, if NextReply(env.script).Ok? then 1 else 3);
        }
      } else {
        ClosedPoll(s1, Tick(env));
      }
    }
  }

  /** getpeername and getsockname after `j` other calls. */
  lemma NamesAfter(env: Env, e: Env, fd: int, j: nat)
    requires fd in env.open && fd in e.open
    requires e.script == env.script[Min(j, |env.script|)..]
    ensures var (e1, peer) := NameCall(e, fd);
            var (e2, own) := NameCall(e1, fd);
            && peer == NameIn(ReplyAt(env, fd, j)) && own == NameIn(ReplyAt(env, fd, j + 1))
            && e2.open == e.open
  {
    hide NameIn;
    assert Rest(e.script) == env.script[Min(j + 1, |env.script|)..];
  }

  lemma PollTrueIff(s: Sock, env: Env)
    requires s.handle in env.open
    ensures var connected := NextReply(env.script);
            var o := ConnectOrPoll(s, env);
            && (o.ret <==>
                  || connected.Ok?
                  || (&& !s.blocking && connected.err in {EWOULDBLOCK, EINPROGRESS}
                      && NoPendingError(NextReply(Rest(Rest(env.script))))
                      && (|| ReadyInTime(NextReply(Rest(env.script)), s.connectSec > 0 || s.connectUsec > 0)
                          || NextReply(Rest(env.script)).Fail?)))
            && o.sock.handle == s.handle
  {
    hide Select, ReadyInTime, NoPendingError;
    var e := ConnectCall(env, s.handle, s.server).0;
    SelectTrueIff(Translated(s, e), e, s.connectSec, s.connectUsec);
    SelectKeepsHandle(Translated(s, e), e, s.connectSec, s.connectUsec);
  }

  /** What a connect leaves, polled or not, if it comes to a connection. */
  lemma PollLeaves(s: Sock, env: Env)
    requires s.handle in env.open
    ensures var o := ConnectOrPoll(s, env);
            var j := if NextReply(env.script).Ok? then 1 else 3;
            && o.sock == s.(error := o.sock.error)
            && (o.ret ==>
                  && o.env.open == env.open[s.handle := env.open[s.handle].(target := Some(s.server))]
                  && o.env.script == env.script[Min(j, |env.script|)..])
  {
    hide Select, Translate;
    var e := ConnectCall(env, s.handle, s.server).0;
    SelectKeepsHandle(Translated(s, e), e, s.connectSec, s.connectUsec);
    SelectUses(Translated(s, e), e, s.connectSec, s.connectUsec);
  }

  lemma ClosedPoll(s: Sock, env: Env)
    requires s.handle !in env.open
    ensures !ConnectOrPoll(s, env).ret
  {
  }

  lemma SelectKeepsHandle(s: Sock, env: Env, sec: int, usec: int)
    ensures Select(s, env, sec, usec).sock == s.(error := Select(s, env, sec, usec).sock.error)
  {
  }

  lemma SelectUses(s: Sock, env: Env, sec: int, usec: int)
    ensures var o := Select(s, env, sec, usec);
            o.env.open == env.open && (o.ret ==> o.env.script == Rest(Rest(env.script)))
  {
    hide Translate;
  }

  /** Open on UDP is true iff its arguments and the lookup are good and connect succeeds. */
  lemma OpenUdpTrueIff(s: Sock, env: Env, host: Option<Lookup>, port: int)
    requires s.kind == Udp
    ensures var o := Open(s, env, host, port);
            && (o.ret <==> Addressed(s, host, port) && s.handle in env.open && NextReply(env.script).Ok?)
            && (o.ret ==> o.sock.error == Success && o.sock.handle == s.handle)
            && (o.ret ==> Opened(s, env, o, Addr(FoundIp(host), port), 1))
  {
    hide Translate, NameIn;
    if Addressed(s, host, port) && s.handle in env.open {
      NamesAfter(env, Tick(ConnectCall(Tick(env), s.handle, Addr(host.value.ip, port)).0), s.handle, 1);
    }
  }

  /** The error that a connect which comes to nothing reports: that of the connect itself, unless
      it was polled, and then the timeout or what SO_ERROR yields. */
  function ConnectFailure(s: Sock, connected: Reply, ready: Reply, pending: Reply): SocketError
    requires connected.Fail?
  {
    var timed := s.connectSec > 0 || s.connectUsec > 0;
    if s.kind != Tcp || s.blocking || connected.err !in {EWOULDBLOCK, EINPROGRESS} then Translate(connected.err)
    else if ready.Ok? && timed && ready.n == 0 then Timedout
    else if ready.Ok? && !ReadyInTime(ready, timed) then Translate(connected.err)
    else Translate(PendingError(pending))
  }

  /** The server address that a false Open leaves: the old one until the lookup, then as much of
      the address to be connected to as is known. */
  function AfterLookup(s: Sock, host: Option<Lookup>, port: int): Addr {
    if !IsValid(s) || host.None? || port == 0 || s.kind !in {Tcp, Udp} then s.server
    else match host.value
         case NotFound(_) => Addr(0, 0)
         case Found(ip) => Addr(ip, if ip == INADDR_NONE then 0 else port)
  }

  /** Every false result of Open says why: the object, the host, the port and the lookup are
      looked at in this order, then the connection is tried.  An unknown host is reported as an
      invalid address; for another failure of the lookup, and for other kinds of socket, the
      old error stays. */
  lemma OpenFailureReports(s: Sock, env: Env, host: Option<Lookup>, port: int)
    requires !Open(s, env, host, port).ret
    ensures var connected := ReplyAt(env, s.handle, 0);
            var o := Open(s, env, host, port);
            var error := o.sock.error;
            && o.sock == s.(error := error, server := AfterLookup(s, host, port), timer := o.sock.timer)
            && if !IsValid(s) then error == InvalidSocket
            else if host.None? then error == InvalidAddress
            else if port == 0 then error == InvalidPort
            else if s.kind !in {Tcp, Udp} then error == s.error
            else match host.value {
              case NotFound(unknown) => error == if unknown then InvalidAddress else s.error
              case Found(ip) =>
                if ip == INADDR_NONE then error == Translate(env.errno)
                else
                  && connected.Fail?
                  && error == ConnectFailure(s, connected, ReplyAt(env, s.handle, 1), ReplyAt(env, s.handle, 2))
            }
  {
    hide ConnectOrPoll, Translate, ConnectFailure;
    if Addressed(s, host, port) {
      var s1 := s.(server := Addr(host.value.ip, port));
      if s.kind == Tcp {
        PollFailure(s1, Tick(env));
        SameFailure(s, s1, env);
      } else if s.kind == Udp {
        UdpFailure(s, env);
      }
    }
  }

  lemma SameFailure(s: Sock, t: Sock, env: Env)
    requires t == s.(server := t.server) && ReplyAt(env, s.handle, 0).Fail?
    ensures var connected, ready := ReplyAt(env, s.handle, 0), ReplyAt(env, s.handle, 1);
            ConnectFailure(s, connected, ready, ReplyAt(env, s.handle, 2))
              == ConnectFailure(t, connected, ready, ReplyAt(env, s.handle, 2))
  {
  }

  lemma UdpFailure(s: Sock, env: Env)
    requires s.kind == Udp && ReplyAt(env, s.handle, 0).Fail?
    ensures ConnectFailure(s, ReplyAt(env, s.handle, 0), ReplyAt(env, s.handle, 1), ReplyAt(env, s.handle, 2))
              == Translate(ReplyAt(env, s.handle, 0).err)
  {
  }

  lemma PollFailure(s: Sock, env: Env)
    requires s.kind == Tcp
    ensures var o := ConnectOrPoll(s, env);
            var connected := ReplyAt(env, s.handle, 0);
            !o.ret ==>
              && connected.Fail? && o.sock == s.(error := o.sock.error)
              && o.sock.error == ConnectFailure(s, connected, ReplyAt(env, s.handle, 1), ReplyAt(env, s.handle, 2))
  {
    hide Select, Translate, ReadyInTime, NoPendingError;
    var e := ConnectCall(env, s.handle, s.server).0;
    SelectTrueIff(Translated(s, e), e, s.connectSec, s.connectUsec);
    SelectKeepsHandle(Translated(s, e), e, s.connectSec, s.connectUsec);
    ClosedReplies(env, s.handle);
  }

  lemma ClosedReplies(env: Env, fd: int)
    ensures fd !in env.open ==> ReplyAt(env, fd, 0) == Fail(EBADF)
    ensures fd in env.open ==>
              && NextReply(env.script) == ReplyAt(env, fd, 0)
              && NextReply(Rest(env.script)) == ReplyAt(env, fd, 1)
              && NextReply(Rest(Rest(env.script))) == ReplyAt(env, fd, 2)
  {
  }

  // --- How long a connect waits

  /** The wait that a pair of numbers asks for: for ever unless one of them is positive. */
  function WaitOf(sec: int, usec: int): Option<Timeout> {
    if sec > 0 || usec > 0 then Some(Timeout(sec, usec)) else None
  }

  /** Open calls select at most once, and it does iff the socket is a stream that says
      non-blocking and connect is left in progress. */
  lemma OpenPollsIff(s: Sock, env: Env, host: Option<Lookup>, port: int)
    ensures var connected := ReplyAt(env, s.handle, 0);
            Open(s, env, host, port).env.polls ==
              if s.kind == Tcp && Addressed(s, host, port) && !s.blocking
                 && connected.Fail? && connected.err in {EWOULDBLOCK, EINPROGRESS}
              then env.polls + [Poll(s.handle, WaitOf(s.connectSec, s.connectUsec))]
              else env.polls
  {
    hide ConnectOrPoll, Translate, NameIn;
    if Addressed(s, host, port) {
      PollPolls(s.(server := Addr(host.value.ip, port)), Tick(env));
      ClosedReplies(env, s.handle);
    }
  }

  lemma PollPolls(s: Sock, env: Env)
    ensures var connected := ReplyAt(env, s.handle, 0);
            ConnectOrPoll(s, env).env.polls ==
              if !s.blocking && connected.Fail? && connected.err in {EWOULDBLOCK, EINPROGRESS}
              then env.polls + [Poll(s.handle, WaitOf(s.connectSec, s.connectUsec))]
              else env.polls
  {
    hide Select, Translate;
    var e := ConnectCall(env, s.handle, s.server).0;
    SelectPolls(Translated(s, e), e, s.connectSec, s.connectUsec);
  }

  lemma SelectPolls(s: Sock, env: Env, sec: int, usec: int)
    ensures Select(s, env, sec, usec).env.polls == env.polls + [Poll(s.handle, WaitOf(sec, usec))]
  {
    hide Translate;
  }

  /** A connect in progress is waited for as long as the last SetConnectTimeout says, and one
      second if there was none, whatever else was done to the object in between. */
  lemma OpenWaitsAsTold(role: Role, kind: Kind, env: Env, before: seq<Op>, told: Option<Timeout>, after: seq<Op>,
                        host: Option<Lookup>, port: int)
    requires forall op :: op in after ==> !op.TimeoutOp?
    ensures var fresh0 := World(Fresh(role, kind), env);
            var w := match told {
                       case None => fresh0
                       case Some(t) => Step(Run(fresh0, before), TimeoutOp(t.sec, t.usec))
                     };
            var v := Run(w, after);
            var e := Open(v.sock, v.env, host, port).env;
            var wait := match told { case None => Some(Timeout(1, 0)) case Some(t) => WaitOf(t.sec, t.usec) };
            e.polls == v.env.polls || e.polls == v.env.polls + [Poll(v.sock.handle, wait)]
  {
    hide Run, Open;
    var fresh0 := World(Fresh(role, kind), env);
    var w := if told.None? then fresh0
             else Step(Run(fresh0, before), TimeoutOp(told.value.sec, told.value.usec));
    RunKeepsTimeout(w, after);
    var v := Run(w, after);
    OpenPollsIff(v.sock, v.env, host, port);
  }
}
