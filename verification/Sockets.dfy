/** The classes of the library.  Every method runs the statements of its C++ counterpart on the
    fields of the object and on the system it talks to, and is proved to do what the function
    of the same name in `SocketModel` says; the theorems of the other modules are about those
    functions. */
module Sockets {
  import opened Posix
  import opened Retry
  import opened StatTimer
  import M = SocketModel
  import opened FileCopy
  import ServeEcho
  import AsyncEcho
  import EchoRefinement

  /** The process environment shared by all socket objects. */
  class Kernel {
    var env: Env

    constructor (env: Env)
      ensures this.env == env
    {
      this.env := env;
    }
  }

  /** A loop that has made `tries` and goes on from `env` while `errno` reads EINTR. */
  ghost function Continued(env: Env, tries: seq<Try>, fd: int, req: Request): Loop
    requires tries != []
  {
    if env.errno == EINTR then
      var rest := RetryLoop(env, fd, req, NextOffset(Last(tries)));
      Loop(rest.env, tries + rest.tries)
    else
      Loop(env, tries)
  }

  lemma ContinuedStep(env: Env, tries: seq<Try>, fd: int, req: Request)
    requires tries != [] && env.errno == EINTR
    ensures var (e, t) := Attempt(env, fd, req, NextOffset(Last(tries)));
            Continued(env, tries, fd, req) == Continued(e, tries + [t], fd, req)
  {
    hide Attempt, Translate;
    var (e, t) := Attempt(env, fd, req, NextOffset(Last(tries)));
    if e.errno == EINTR {
      var rest := RetryLoop(e, fd, req, NextOffset(t));
      assert tries + ([t] + rest.tries) == (tries + [t]) + rest.tries;
    }
  }

  lemma ContinuedStart(env: Env, fd: int, req: Request)
    ensures var (e, t) := Attempt(env, fd, req, 0);
            RetryLoop(env, fd, req, 0) == Continued(e, [t], fd, req)
  {
    hide Attempt, Translate;
  }

  /** The same for the loop of Accept, which goes on from a cleared `errno`. */
  ghost function ContinuedCleared(env: Env, tries: seq<Try>, fd: int): Loop
    requires tries != []
  {
    if env.errno == EINTR then
      var rest := ClearedLoop(env, fd, AcceptRequest);
      Loop(rest.env, tries + rest.tries)
    else
      Loop(env, tries)
  }

  lemma ClearedStep(env: Env, tries: seq<Try>, fd: int)
    requires tries != [] && env.errno == EINTR
    ensures var (e, t) := Attempt(env.(errno := NoError), fd, AcceptRequest, 0);
            ContinuedCleared(env, tries, fd) == ContinuedCleared(e, tries + [t], fd)
  {
    hide Attempt, Translate;
    var (e, t) := Attempt(env.(errno := NoError), fd, AcceptRequest, 0);
    if e.errno == EINTR {
      var rest := ClearedLoop(e, fd, AcceptRequest);
      assert tries + ([t] + rest.tries) == (tries + [t]) + rest.tries;
    }
  }

  lemma ClearedStart(env: Env, fd: int)
    ensures var (e, t) := Attempt(env.(errno := NoError), fd, AcceptRequest, 0);
            ClearedLoop(env, fd, AcceptRequest) == ContinuedCleared(e, [t], fd)
  {
    hide Attempt, Translate;
  }

  class SimpleSocket {
    const kernel: Kernel
    const role: M.Role
    const kind: M.Kind
    var handle: int
    var error: SocketError
    var buffer: Option<M.Block>
    var bufferSize: int
    var received: int
    var sent: int
    var blocking: bool
    var multicast: bool
    var connectSec: int
    var connectUsec: int
    var server: Addr
    var client: Addr
    var group: Addr
    const timer: Timer

    ghost function View(): M.Sock
      reads this, timer
    {
      M.Sock(role, kind, handle, error, buffer, bufferSize, received, sent, blocking, multicast,
             connectSec, connectUsec, server, client, group, Reading(timer.start, timer.end))
    }

    constructor (kernel: Kernel, role: M.Role, kind: M.Kind)
      ensures View() == M.Fresh(role, kind) && this.kernel == kernel && fresh(timer)
    {
      this.kernel, this.role, this.kind := kernel, role, kind;
      handle, error := M.INVALID_SOCKET, InvalidSocket;
      buffer, bufferSize, received, sent := None, 0, -1, -1;
      blocking, multicast := true, false;
      connectSec, connectUsec := 1, 0;
      server, client, group := Unset, Unset, Unset;
      timer := new Timer();
    }

    /** Both timestamps are cleared and the start is set. */
    method StartTimer()
      modifies kernel, timer
      ensures kernel.env == Tick(old(kernel.env))
      ensures View() == old(View()).(timer := Reading(Stamp(kernel.env.time.now), ZERO_TIME))
    {
      timer.Initialize();
      kernel.env := Tick(kernel.env);
      timer.SetStartTime(Stamp(kernel.env.time.now));
    }

    method StopTimer()
      modifies kernel, timer
      ensures kernel.env == Tick(old(kernel.env))
      ensures View() == old(View()).(timer := Reading(old(View()).timer.start, Stamp(kernel.env.time.now)))
    {
      kernel.env := Tick(kernel.env);
      timer.SetEndTime(Stamp(kernel.env.time.now));
    }

    method TranslateSocketError()
      modifies this`error
      ensures View() == M.Translated(old(View()), kernel.env)
    {
      error := Translate(kernel.env.errno);
    }

    method Initialize() returns (r: bool)
      modifies this, kernel, timer
      ensures M.Outcome(View(), kernel.env, r) == M.Initialize(old(View()), old(kernel.env))
    {
      kernel.env := kernel.env.(errno := NoError);
      StartTimer();
      var (e, fd) := SocketCall(kernel.env);
      kernel.env, handle := e, fd;
      StopTimer();
      TranslateSocketError();
      r := handle != M.INVALID_SOCKET;
    }

    /** The internal buffer, if any, goes back to the heap. */
    method ReleaseBuffer()
      modifies this`buffer, kernel
      ensures (View(), kernel.env) == M.Release(old(View()), old(kernel.env))
    {
      if buffer.Some? {
        kernel.env := Free(kernel.env, buffer.value.id);
        buffer := None;
      }
    }

    method Close() returns (r: bool)
      modifies this, kernel, timer
      ensures M.Outcome(View(), kernel.env, r) == M.Close(old(View()), old(kernel.env))
    {
      r := false;
      ReleaseBuffer();
      if handle != M.INVALID_SOCKET {
        var (e, ok) := CloseCall(kernel.env, handle);
        kernel.env := e;
        if ok {
          handle := M.INVALID_SOCKET;
          r := true;
        }
      }
      TranslateSocketError();
    }

    /** delete of the object */
    method Destroy()
      modifies this, kernel, timer
      ensures kernel.env == M.Destroy(old(View()), old(kernel.env))
    {
      if !role.Simple? {
        var _ := Close();
      }
      ReleaseBuffer();
    }

    /** The do-while loop around send, sendto, recv and recvfrom. */
    method Retried(req: Request) returns (tries: seq<Try>)
      modifies this`error, kernel
      ensures Loop(kernel.env, tries) == RetryLoop(old(kernel.env), handle, req, 0)
      ensures View() == M.Translated(old(View()), kernel.env)
    {
      hide RetryLoop, Attempt;
      ContinuedStart(kernel.env, handle, req);
      var (e, t) := Attempt(kernel.env, handle, req, 0);
      kernel.env, tries := e, [t];
      TranslateSocketError();
      while error == Interrupted
        invariant tries != []
        invariant View() == M.Translated(old(View()), kernel.env)
        invariant RetryLoop(old(kernel.env), handle, req, 0) == Continued(kernel.env, tries, handle, req)
        decreases |kernel.env.script|, error == Interrupted
      {
        ContinuedStep(kernel.env, tries, handle, req);
        var (e, t) := Attempt(kernel.env, handle, req, NextOffset(Last(tries)));
        kernel.env, tries := e, tries + [t];
        TranslateSocketError();
      }
    }

    /** CSimpleSocket::Send */
    method BaseSend(buf: Option<seq<Byte>>, n: nat) returns (r: int)
      modifies this, kernel, timer
      ensures M.Outcome(View(), kernel.env, r) == M.BaseSend(old(View()), old(kernel.env), buf, n)
    {
      hide RetryLoop;
      error, sent := Success, 0;
      match kind {
        case Tcp =>
          if handle != M.INVALID_SOCKET && n > 0 && buf.Some? {
            StartTimer();
            var tries := Retried(SendRequest(M.Prefix(buf.value, n)));
            sent := Last(tries).result;
            StopTimer();
          }
        case Udp =>
          if handle != M.INVALID_SOCKET && n > 0 && buf.Some? {
            StartTimer();
            var tries := Retried(SendToRequest(M.Prefix(buf.value, n), server));
            sent := Last(tries).result;
            StopTimer();
          }
        case _ =>
      }
      r := sent;
    }

    /** The virtual Send; a passive socket overrides it for datagrams. */
    method Send(buf: Option<seq<Byte>>, n: nat) returns (r: int)
      modifies this, kernel, timer
      ensures M.Outcome(View(), kernel.env, r) == M.Send(old(View()), old(kernel.env), buf, n)
    {
      hide M.BaseSend, Attempt;
      if !role.Passive? {
        r := BaseSend(buf, n);
        return;
      }
      error, sent := Success, 0;
      match kind {
        case Udp =>
          if handle != M.INVALID_SOCKET && n > 0 && buf.Some? {
            StartTimer();
            var (e, t) := Attempt(kernel.env, handle, SendToRequest(M.Prefix(buf.value, n), client), 0);
            kernel.env, sent := e, t.result;
            StopTimer();
            if sent == M.SOCKET_ERROR {
              TranslateSocketError();
            }
          }
        case Tcp =>
          StreamSendCount(View(), kernel.env, buf, n);
          var _ := BaseSend(buf, n);
        case _ =>
          error := ProtocolError;
      }
      r := sent;
    }

    /** The internal buffer of Receive. */
    method PrepareBuffer(max: nat)
      modifies this`buffer, this`bufferSize, kernel
      ensures buffer.Some?
      ensures (View(), kernel.env) == M.PrepareBuffer(old(View()), old(kernel.env), max)
    {
      if buffer.Some? && max != bufferSize {
        ReleaseBuffer();
      }
      if buffer.None? {
        var (e, id) := Allocate(kernel.env);
        kernel.env, bufferSize, buffer := e, max, Some(M.Block(id, M.Zeros(max)));
      }
    }

    /** The switch of Receive over the socket type. */
    method ReceiveLoop(max: nat, internal: bool) returns (tries: seq<Try>)
      requires internal ==> buffer.Some?
      modifies this, kernel, timer
      ensures Loop(kernel.env, tries) == M.RecvLoop(old(View()), old(kernel.env), max)
      ensures View() == M.Filled(old(View()), Loop(kernel.env, tries), internal)
    {
      hide RetryLoop, M.PlaceAll, M.LastSource, Translate;
      tries := [];
      received := 0;
      match kind {
        case Tcp =>
          tries := Retried(RecvRequest(max));
          received := Last(tries).result;
        case Udp =>
          tries := Retried(RecvFromRequest(max, multicast));
          received := Last(tries).result;
          if multicast {
            group := M.LastSource(group, tries);
          } else {
            client := M.LastSource(client, tries);
          }
        case _ =>
      }
      if internal {
        buffer := Some(M.Block(buffer.value.id, M.PlaceAll(buffer.value.bytes, tries)));
      }
      TranslateSocketError();
    }

    /** Receive into the caller's buffer `dest`, or into the internal one if there is none. */
    method Receive(max: nat, dest: Option<seq<Byte>>) returns (r: int, out: Option<seq<Byte>>)
      modifies this, kernel, timer
      ensures M.Outcome(View(), kernel.env, (r, out)) == M.Receive(old(View()), old(kernel.env), max, dest)
    {
      hide M.RecvLoop, M.PlaceAll, M.PrepareBuffer, M.Filled, M.Release, Tick, Stamp;
      received := 0;
      if handle == M.INVALID_SOCKET {
        return 0, dest;
      }
      if dest.None? {
        PrepareBuffer(max);
      }
      ghost var ready := View();
      error := Success;
      StartTimer();
      ErrorIrrelevant(ready, View(), kernel.env, max, dest.None?);
      var tries := ReceiveLoop(max, dest.None?);
      StopTimer();
      out := if dest.None? then None else Some(M.PlaceAll(dest.value, tries));
      if received == M.SOCKET_ERROR {
        ReleaseBuffer();
      }
      r := received;
    }

    method GetData() returns (r: Option<seq<Byte>>)
      ensures r == M.Data(View())
    {
      r := if buffer.Some? then Some(buffer.value.bytes) else None;
    }

    method SetNonblocking() returns (r: bool)
      modifies this, kernel, timer
      ensures M.Outcome(View(), kernel.env, r) == M.SetMode(old(View()), old(kernel.env), true)
    {
      var (e1, cur) := GetFlagsCall(kernel.env, handle);
      kernel.env := e1;
      if cur.None? {
        TranslateSocketError();
        return false;
      }
      var (e2, ok) := SetFlagsCall(kernel.env, handle, cur.value | O_NONBLOCK);
      kernel.env := e2;
      if !ok {
        TranslateSocketError();
        return false;
      }
      blocking := false;
      return true;
    }

    method SetBlocking() returns (r: bool)
      modifies this, kernel, timer
      ensures M.Outcome(View(), kernel.env, r) == M.SetMode(old(View()), old(kernel.env), false)
    {
      var (e1, cur) := GetFlagsCall(kernel.env, handle);
      kernel.env := e1;
      if cur.None? {
        TranslateSocketError();
        return false;
      }
      var (e2, ok) := SetFlagsCall(kernel.env, handle, cur.value & !O_NONBLOCK);
      kernel.env := e2;
      if !ok {
        TranslateSocketError();
        return false;
      }
      blocking := true;
      return true;
    }

    method SetMulticast(enable: bool) returns (r: bool)
      modifies this, kernel, timer
      ensures M.Outcome(View(), kernel.env, r) == M.SetMulticast(old(View()), old(kernel.env), enable)
    {
      r := false;
      if kind == M.Udp {
        multicast := enable;
        var (e, ok) := PlainCall(kernel.env, handle);
        kernel.env := e;
        if ok {
          r := true;
        } else {
          TranslateSocketError();
        }
      } else {
        error := ProtocolError;
      }
    }

    method Select(sec: int, usec: int) returns (r: bool)
      modifies this, kernel, timer
      ensures M.Outcome(View(), kernel.env, r) == M.Select(old(View()), old(kernel.env), sec, usec)
    {
      r := false;
      var timeout := if sec > 0 || usec > 0 then Some(Timeout(sec, usec)) else None;
      var (e1, sel) := SelectCall(kernel.env, handle, timeout);
      kernel.env := e1;
      if sel.count == 0 {
        error := Timedout;
      } else if sel.read || sel.write {
        var (e2, pendingError) := GetPendingErrorCall(kernel.env, handle);
        kernel.env := e2;
        if pendingError.Some? {
          kernel.env := kernel.env.(errno := pendingError.value);
          if pendingError.value == NoError {
            r := true;
          }
        }
        TranslateSocketError();
      }
    }

    method Flush() returns (r: bool)
      modifies this, kernel, timer
      ensures M.Outcome(View(), kernel.env, r) == M.Flush(old(View()), old(kernel.env))
    {
      hide M.Send;
      r := false;
      var (e1, cur) := GetNoDelayCall(kernel.env, handle);
      kernel.env := e1;
      if cur.Some? {
        var (e2, isSet) := SetNoDelayCall(kernel.env, handle, 1);
        kernel.env := e2;
        if isSet {
          FlushSendKeepsHandle(View(), kernel.env);
          var n := Send(Some([0]), 0);
          if n != M.SOCKET_ERROR {
            r := true;
          }
          TranslateSocketError();
        }
        var (e3, _) := SetNoDelayCall(kernel.env, handle, cur.value);
        kernel.env := e3;
      }
    }

    method Writev(bufs: seq<seq<Byte>>) returns (total: int)
      modifies this, kernel, timer
      ensures M.Outcome(View(), kernel.env, total) == M.Writev(old(View()), old(kernel.env), bufs)
    {
      hide M.Send, M.Flush;
      total := 0;
      var i := 0;
      ghost var goal := M.SendEach(View(), kernel.env, bufs, 0, 0);
      assert bufs[0..] == bufs;
      while i < |bufs|
        invariant 0 <= i <= |bufs|
        invariant M.SendEach(View(), kernel.env, bufs[i..], total, i) == goal
      {
        assert bufs[i..][0] == bufs[i] && bufs[i..][1..] == bufs[i + 1..];
        var n := Send(Some(bufs[i]), |bufs[i]|);
        if n == M.SOCKET_ERROR {
          assert M.Gather(View(), kernel.env, total, i) == goal;
          break;
        }
        total := total + n;
        i := i + 1;
      }
      assert M.Gather(View(), kernel.env, total, i) == goal;
      if i > 0 {
        var _ := Flush();
      }
    }

    method SendVector(bufs: seq<seq<Byte>>) returns (r: int)
      modifies this, kernel, timer
      ensures M.Outcome(View(), kernel.env, r) == M.SendVector(old(View()), old(kernel.env), bufs)
    {
      error, sent := Success, 0;
      var total := Writev(bufs);
      sent := total;
      if sent == M.SOCKET_ERROR {
        TranslateSocketError();
      }
      r := sent;
    }

    /** The while loop of SendFile; None where the source returns -1 from it. */
    method PumpLoop(out: int, count: int) returns (r: Option<int>)
      modifies kernel
      ensures (kernel.env, r) == Pump(old(kernel.env), out, -1, count)
    {
      hide Attempt, ReadCall;
      var outCount := -1;
      while outCount < count
        invariant Pump(kernel.env, out, outCount, count) == Pump(old(kernel.env), out, -1, count)
        decreases count - outCount
      {
        var n := if count - outCount < BLOCK_SIZE then count - outCount else BLOCK_SIZE;
        var (e1, got) := ReadCall(kernel.env, n);
        kernel.env := e1;
        if got.None? || |got.value| != n {
          return None;
        }
        var (e2, t) := Attempt(kernel.env, out, SendRequest(got.value), 0);
        kernel.env := e2;
        if t.result != n {
          return None;
        }
        outCount := outCount + n;
      }
      return Some(outCount);
    }

    /** SendFile; the second result is the new value of the offset. */
    method SendFile(out: int, offset: int, count: int) returns (r: int, newOffset: int)
      requires -0x8000_0000 <= count < 0x7FFF_FFFF
      modifies this`error, kernel
      ensures var c := FileCopy.SendFile(old(kernel.env), out, offset, count);
              && (kernel.env, r, newOffset) == (c.env, c.ret, c.offset)
              && View() == if c.finished then M.Translated(old(View()), kernel.env) else old(View())
    {
      hide Pump, Translate;
      var (e, ok) := SeekCall(kernel.env, offset);
      kernel.env := e;
      if !ok {
        return -1, offset;
      }
      var outCount := PumpLoop(out, count);
      if outCount.None? {
        return -1, offset;
      }
      TranslateSocketError();
      return outCount.value, offset + outCount.value;
    }

    // --- CPassiveSocket

    /** bind, and listen on a stream. */
    method BindCalls() returns (r: bool)
      modifies kernel
      ensures (kernel.env, r) == M.BindCalls(View(), old(kernel.env))
    {
      r := false;
      var (e1, bound) := BindCall(kernel.env, handle, server);
      kernel.env := e1;
      if bound {
        if kind == M.Tcp {
          var (e2, ok) := ListenCall(kernel.env, handle);
          kernel.env := e2;
          if ok {
            r := true;
          }
        } else {
          r := true;
        }
      }
    }

    /** Listen up to its clean-up. */
    method BindAndListen(addr: M.HostArg, port: int) returns (r: bool)
      modifies this, kernel, timer
      ensures (View(), kernel.env, r) == M.Bound(old(View()), old(kernel.env), addr, port)
    {
      hide PlainCall, Translate, Tick, Stamp;
      var (e1, _) := PlainCall(kernel.env, handle);
      var (e2, _) := PlainCall(e1, handle);
      kernel.env := e2;
      server := Addr(M.HostIp(addr), port);
      StartTimer();
      r := BindCalls();
      StopTimer();
      TranslateSocketError();
    }

    method Listen(addr: M.HostArg, port: int) returns (r: bool)
      modifies this, kernel, timer
      ensures M.Outcome(View(), kernel.env, r) == M.Listen(old(View()), old(kernel.env), addr, port)
    {
      hide M.Close, M.Bound;
      r := BindAndListen(addr, port);
      if !r {
        var err := error;
        var _ := Close();
        error := err;
      }
    }

    method BindMulticast(addr: M.HostArg, port: int) returns (r: bool)
      modifies this, kernel, timer
      ensures M.Outcome(View(), kernel.env, r) == M.BindMulticast(old(View()), old(kernel.env), addr, port)
    {
      hide M.Close, BindCall, PlainCall, Translate;
      r := false;
      group := Addr(M.HostIp(addr), port);
      var (e1, bound) := BindCall(kernel.env, handle, group);
      kernel.env := e1;
      if bound {
        var (e2, ok) := PlainCall(kernel.env, handle);
        kernel.env, r := e2, ok;
        StopTimer();
      }
      StartTimer();
      TranslateSocketError();
      if !r {
        var _ := Close();
      }
    }

    /** The do-while loop of Accept: `errno` is cleared before every attempt and a failing
        attempt writes the listener's error. */
    method AcceptLoop() returns (tries: seq<Try>)
      modifies this`error, kernel
      ensures Loop(kernel.env, tries) == ClearedLoop(old(kernel.env), handle, AcceptRequest)
      ensures tries != []
      ensures error == if Last(tries).result == -1 then Translate(kernel.env.errno)
                       else if |tries| > 1 then Interrupted else old(error)
    {
      hide ClearedLoop, Attempt, Translate;
      ClearedStart(kernel.env, handle);
      var t := AcceptOnce();
      tries := [t];
      while Last(tries).result == -1 && error == Interrupted
        invariant tries != []
        invariant ClearedLoop(old(kernel.env), handle, AcceptRequest) == ContinuedCleared(kernel.env, tries, handle)
        invariant Last(tries).result == -1 <==> kernel.env.errno != NoError
        invariant error == if Last(tries).result == -1 then Translate(kernel.env.errno)
                           else if |tries| > 1 then Interrupted else old(error)
        decreases |kernel.env.script|, Last(tries).result == -1 && error == Interrupted
      {
        ClearedStep(kernel.env, tries, handle);
        t := AcceptOnce();
        tries := tries + [t];
      }
    }

    /** One pass of the accept loop: `errno` is cleared and only a failure touches the error. */
    method AcceptOnce() returns (t: Try)
      modifies this`error, kernel
      ensures (kernel.env, t) == Attempt(old(kernel.env).(errno := NoError), handle, AcceptRequest, 0)
      ensures error == if t.result == -1 then Translate(kernel.env.errno) else old(error)
      ensures t.result == -1 <==> kernel.env.errno != NoError
      ensures kernel.env.errno == EINTR ==> |kernel.env.script| < |old(kernel.env.script)|
    {
      var cleared := kernel.env.(errno := NoError);
      var (e, answer) := Attempt(cleared, handle, AcceptRequest, 0);
      if e.errno == EINTR {
        InterruptedConsumes(cleared, handle, AcceptRequest, 0);
      }
      kernel.env, t := e, answer;
      if t.result == -1 {
        TranslateSocketError();
      }
    }

    /** Accept on a stream with the new object at hand; the result says whether it was filled. */
    method AcceptInto(c: SimpleSocket) returns (taken: bool)
      requires kind == M.Tcp && c != this && c.timer != timer && c.kernel == kernel
      requires c.View() == M.Fresh(M.Active, M.Tcp)
      modifies this, kernel, timer, c, c.timer
      ensures M.Accepted(View(), kernel.env, if taken then Some(c.View()) else None)
              == M.Accept(old(View()), old(kernel.env))
    {
      hide ClearedLoop, Translate, M.FillAccepted, M.Fresh, Tick, Stamp;
      StartTimer();
      var tries := AcceptLoop();
      taken := Last(tries).result != -1;
      if taken {
        client := Last(tries).from;
        c.FillAccepted(Last(tries).result, client, handle);
      }
      StopTimer();
    }

    /** Accept; the returned object is new and the caller's to delete. */
    method Accept() returns (accepted: SimpleSocket?)
      modifies this, kernel, timer
      ensures accepted != null ==> fresh(accepted) && fresh(accepted.timer) && accepted.kernel == kernel
      ensures M.Accepted(View(), kernel.env, if accepted == null then None else Some(accepted.View()))
              == M.Accept(old(View()), old(kernel.env))
    {
      if kind != M.Tcp {
        error := ProtocolError;
        return null;
      }
      hide M.Accept, M.Fresh;
      var c := new SimpleSocket(kernel, M.Active, M.Tcp);
      var taken := AcceptInto(c);
      accepted := if taken then c else null;
    }

    /** What Accept stores in the new object, on behalf of the listener `fd`. */
    method FillAccepted(newHandle: int, peer: Addr, fd: int)
      modifies this, kernel, timer
      ensures (View(), kernel.env) == M.FillAccepted(old(View()), old(kernel.env), newHandle, peer, fd)
    {
      hide Translate, PlainCall, NameCall;
      handle := newHandle;
      TranslateSocketError();
      var (e1, _) := PlainCall(kernel.env, fd);
      client := peer;
      var (e2, name) := NameCall(e1, fd);
      server := name;
      kernel.env := e2;
    }

    // --- CActiveSocket

    /** The name lookup shared by the connects. */
    method Resolve(lookup: M.Lookup, port: int) returns (ok: bool)
      modifies this`server, this`error
      ensures (View(), ok) == M.Resolve(old(View()), kernel.env, lookup, port)
    {
      server := Addr(0, 0);
      match lookup
      case NotFound(hostNotFound) =>
        if hostNotFound {
          error := InvalidAddress;
        }
        return false;
      case Found(ip) =>
        server := Addr(ip, 0);
        if ip == M.INADDR_NONE {
          TranslateSocketError();
          return false;
        }
        server := Addr(ip, port);
        return true;
    }

    /** connect, and the poll with select of a connection in progress. */
    method ConnectOrPoll() returns (r: bool)
      modifies this, kernel, timer
      ensures M.Outcome(View(), kernel.env, r) == M.ConnectOrPoll(old(View()), old(kernel.env))
    {
      hide ConnectCall, M.Select;
      var (e, ok) := ConnectCall(kernel.env, handle, server);
      kernel.env, r := e, ok;
      TranslateSocketError();
      if !ok && !blocking && (error == Ewouldblock || error == Einprogress) {
        r := Select(connectSec, connectUsec);
      }
    }

    method ConnectTcp(lookup: M.Lookup, port: int) returns (r: bool)
      modifies this, kernel, timer
      ensures M.Outcome(View(), kernel.env, r) == M.ConnectTcp(old(View()), old(kernel.env), lookup, port)
    {
      hide M.ConnectOrPoll, M.Resolve, Tick, Stamp, Translate;
      var resolved := Resolve(lookup, port);
      if !resolved {
        return false;
      }
      StartTimer();
      PollIgnoresTimer(View(), old(View()).timer, kernel.env);
      r := ConnectOrPoll();
      StopTimer();
    }

    method ConnectUdp(lookup: M.Lookup, port: int) returns (r: bool)
      modifies this, kernel, timer
      ensures M.Outcome(View(), kernel.env, r) == M.ConnectUdp(old(View()), old(kernel.env), lookup, port)
    {
      hide ConnectCall, M.Resolve, Translate, Tick, Stamp;
      var resolved := Resolve(lookup, port);
      if !resolved {
        return false;
      }
      StartTimer();
      var (e, ok) := ConnectCall(kernel.env, handle, server);
      kernel.env, r := e, ok;
      TranslateSocketError();
      StopTimer();
    }

    method Open(host: Option<M.Lookup>, port: int) returns (r: bool)
      modifies this, kernel, timer
      ensures M.Outcome(View(), kernel.env, r) == M.Open(old(View()), old(kernel.env), host, port)
    {
      hide M.ConnectTcp, M.ConnectUdp;
      r := false;
      if handle == M.INVALID_SOCKET {
        error := InvalidSocket;
        return;
      }
      if host.None? {
        error := InvalidAddress;
        return;
      }
      if port == 0 {
        error := InvalidPort;
        return;
      }
      ConnectKeepsHandle(View(), kernel.env, host.value, port);
      match kind {
        case Tcp => r := ConnectTcp(host.value, port);
        case Udp => r := ConnectUdp(host.value, port);
        case _ =>
      }
      if r {
        var (e1, peer) := NameCall(kernel.env, handle);
        server := peer;
        var (e2, local) := NameCall(e1, handle);
        client := local;
        kernel.env := e2;
        error := Success;
      }
    }
  }

  /** The error code and the timer set before the loop of Receive do not matter to it. */
  lemma ErrorIrrelevant(s: M.Sock, t: M.Sock, env: Env, max: nat, internal: bool)
    requires t == s.(error := t.error, timer := t.timer)
    requires internal ==> s.buffer.Some?
    ensures M.RecvLoop(t, env, max) == M.RecvLoop(s, env, max)
    ensures forall loop :: M.Filled(t, loop, internal) == M.Filled(s, loop, internal).(timer := t.timer)
    ensures forall loop :: M.Filled(t, loop, internal).received == M.ReceivedCount(loop.tries)
    ensures forall loop :: M.Filled(t, loop, internal).handle == t.handle
  {
    hide RetryLoop, M.PlaceAll, M.LastSource;
  }

  lemma StreamSendCount(s: M.Sock, env: Env, buf: Option<seq<Byte>>, n: nat)
    ensures M.BaseSend(s, env, buf, n).sock.sent == M.BaseSend(s, env, buf, n).ret
  {
  }

  lemma PollIgnoresTimer(s: M.Sock, timer: Reading, env: Env)
    ensures var o := M.ConnectOrPoll(s, env);
            && M.ConnectOrPoll(s.(timer := timer), env) == o.(sock := o.sock.(timer := timer))
            && o.sock.timer == s.timer
  {
    hide M.Select;
    var e := ConnectCall(env, s.handle, s.server).0;
    SelectIgnoresTimer(M.Translated(s, e), timer, e, s.connectSec, s.connectUsec);
  }

  lemma SelectIgnoresTimer(s: M.Sock, timer: Reading, env: Env, sec: int, usec: int)
    ensures var o := M.Select(s, env, sec, usec);
            && M.Select(s.(timer := timer), env, sec, usec) == o.(sock := o.sock.(timer := timer))
            && o.sock.timer == s.timer
  {
  }

  lemma FlushSendKeepsHandle(s: M.Sock, env: Env)
    ensures M.Send(s, env, Some([0]), 0).sock.handle == s.handle
  {
  }

  lemma ConnectKeepsHandle(s: M.Sock, env: Env, lookup: M.Lookup, port: int)
    ensures M.ConnectTcp(s, env, lookup, port).sock.handle == s.handle
    ensures M.ConnectUdp(s, env, lookup, port).sock.handle == s.handle
  {
  }

  // --- examples/EchoServer.cpp

  method ServeClient(c: SimpleSocket)
    modifies c, c.kernel, c.timer
    ensures c.kernel.env == ServeEcho.ServeClient(old(c.View()), old(c.kernel.env))
  {
    var n, _ := c.Receive(ServeEcho.MAX_PACKET, None);
    if n != 0 {
      var data := c.GetData();
      var _ := c.Send(data, M.SizeT(c.received));
      var _ := c.Close();
    }
    c.Destroy();
  }

  /** `rounds` passes through the server's loop, whose condition the listener keeps true. */
  method EchoServer(listener: SimpleSocket, rounds: nat)
    modifies listener, listener.kernel, listener.timer
    ensures (listener.View(), listener.kernel.env)
            == ServeEcho.Serve(old(listener.View()), old(listener.kernel.env), rounds)
  {
    hide M.Accept, ServeEcho.ServeClient;
    ghost var goal := ServeEcho.Serve(listener.View(), listener.kernel.env, rounds);
    for i := 0 to rounds
      invariant ServeEcho.Serve(listener.View(), listener.kernel.env, rounds - i) == goal
    {
      var c := listener.Accept();
      if c != null {
        ServeClient(c);
      }
    }
  }

  // --- examples/RecvAsync.cpp

  /** The body of the server's loop; the result is the new running total. */
  method EchoPass(c: SimpleSocket, chunk: nat, count: int) returns (total: int)
    modifies c, c.kernel, c.timer
    ensures (c.View(), c.kernel.env, total) == EchoRefinement.EchoPass(old(c.View()), old(c.kernel.env), chunk, count)
  {
    hide M.Receive, M.Send;
    var n, _ := c.Receive(chunk, None);
    total := count + n;
    if total != 0 {
      var data := c.GetData();
      var _ := c.Send(data, M.SizeT(c.received));
    }
  }

  /** The body of the client's loop; `got` accumulates what is received. */
  method ClientPass(k: SimpleSocket, got: seq<Byte>) returns (all: seq<Byte>)
    modifies k, k.kernel, k.timer
    ensures var r := M.Receive(old(k.View()), old(k.kernel.env), AsyncEcho.MAX_PACKET, None);
            && (k.View(), k.kernel.env) == (r.sock, r.env)
            && all == got + EchoRefinement.Copied(M.Data(r.sock), r.ret.0)
  {
    hide M.Receive;
    var n, _ := k.Receive(AsyncEcho.MAX_PACKET, None);
    all := got;
    if n > 0 {
      var data := k.GetData();
      all := got + EchoRefinement.Copied(data, n);
    }
  }
}
