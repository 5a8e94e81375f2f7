/** The two loops of examples/RecvAsync.cpp run on the modelled sockets: every interleaving of
    passes through them, with calls that are not interrupted, is a run of `AsyncEcho`. */
module EchoRefinement {
  import opened Posix
  import opened Retry
  import opened SocketModel
  import opened Transfers
  import opened AsyncEcho

  // --- One end of the connection

  /** A connected stream object whose stream still holds `inbound`; no interruption is pending
      or to come in its environment. */
  ghost predicate Endpoint(c: Sock, env: Env, inbound: seq<Byte>) {
    && c.kind == Tcp && IsValid(c) && c.handle in env.open
    && (c.buffer.Some? ==> |c.buffer.value.bytes| == c.bufferSize)
    && env.open[c.handle].inbound == inbound
    && Undisturbed(env)
  }

  lemma {:induction false} SendLoopKeepsTable(env: Env, fd: int, data: seq<Byte>)
    ensures RetryLoop(env, fd, SendRequest(data), 0).env.open == env.open
    decreases |env.script|
  {
    hide Attempt, Translate;
    SendAttemptKeepsTable(env, fd, data);
    var e := Attempt(env, fd, SendRequest(data), 0).0;
    if Translate(e.errno) == Interrupted {
      InterruptedConsumes(env, fd, SendRequest(data), 0);
      SendLoopKeepsTable(e, fd, data);
    }
  }

  lemma SendAttemptKeepsTable(env: Env, fd: int, data: seq<Byte>)
    ensures Attempt(env, fd, SendRequest(data), 0).0.open == env.open
  {
  }

  /** A Send at one end: -1 and nothing on the wire, or the reported front of the bytes. */
  lemma SendEndpoint(c: Sock, env: Env, inbound: seq<Byte>, buf: seq<Byte>, n: nat)
    requires Endpoint(c, env, inbound) && n <= |buf|
    ensures var o := Send(c, env, Some(buf), n);
            && -1 <= o.ret <= n
            && Endpoint(o.sock, o.env, inbound) && o.sock.handle == c.handle
            && WireOf(o.env.io, c.handle) == WireOf(env.io, c.handle) + buf[..if o.ret < 0 then 0 else o.ret]
  {
    hide RetryLoop, WireOf, BaseSend, Undisturbed;
    StreamSendIsBase(c, env, Some(buf), n);
    SameBytes(c, env, buf, n);
    UndisturbedSend(c, env, buf[..n]);
    BaseSendKeepsTable(c, env, buf, n);
    var o := BaseSend(c, env, Some(buf), n);
    assert o.ret >= 0 ==> buf[..n][..o.ret] == buf[..o.ret];
    assert buf[..0] == [];
  }

  lemma BaseSendKeepsTable(s: Sock, env: Env, buf: seq<Byte>, n: nat)
    requires s.kind == Tcp
    ensures BaseSend(s, env, Some(buf), n).env.open == env.open
  {
    hide RetryLoop;
    SendLoopKeepsTable(Tick(env), s.handle, Prefix(buf, n));
  }

  /** A Receive at one end: nothing, or a front of the stream, which GetData then starts with. */
  lemma ReceiveEndpoint(c: Sock, env: Env, inbound: seq<Byte>, max: nat)
    requires Endpoint(c, env, inbound)
    ensures var r := Receive(c, env, max, None);
            var k := r.ret.0;
            && -1 <= k <= max && k <= |inbound| && r.sock.received == k && r.sock.handle == c.handle
            && Endpoint(r.sock, r.env, if k < 0 then inbound else inbound[k..])
            && WireOf(r.env.io, c.handle) == WireOf(env.io, c.handle)
            && (k == -1 ==> Data(r.sock) == None)
            && (k >= 0 ==> Data(r.sock).Some? && k <= |Data(r.sock).value| && Data(r.sock).value[..k] == inbound[..k])
  {
    hide Receive, WireOf, Undisturbed;
    FailedReceiveTakesNothing(c, env, max);
    FailedReceiveSendsNothing(c, env, max);
    ReceivePlacesStream(c, env, max);
    ReceiveKeepsWire(c, env, max);
    ReceiveKeepsSize(c, env, max);
  }

  /** What is left of a script after `k` replies. */
  function Skip(script: seq<Reply>, k: nat): seq<Reply> {
    if k <= |script| then script[k..] else []
  }

  /** How much a Receive at one end yields, by the reply it gets. */
  lemma ReceiveAmount(c: Sock, env: Env, inbound: seq<Byte>, max: nat)
    requires Endpoint(c, env, inbound)
    ensures var r := Receive(c, env, max, None);
            var reply := NextReply(env.script);
            && r.ret.0 == (if reply.Ok? then Min(Min(reply.n, max), |inbound|) else -1)
            && r.env.script == Skip(env.script, 1)
  {
    hide Receive, RetryLoop, Undisturbed;
    var at := ReceiveIsLoop(c, env, max, None);
    SameUndisturbed(env, at);
    UndisturbedAttempt(at, c.handle, RecvRequest(max), 0);
    RecvLoopClosedForm(at, c.handle, max, 0);
  }

  lemma SameUndisturbed(a: Env, b: Env)
    requires Undisturbed(a) && a.errno == b.errno && a.script == b.script
    ensures Undisturbed(b)
  {
  }

  /** How much a Send at one end accepts, by the reply it gets. */
  lemma SendAmount(c: Sock, env: Env, inbound: seq<Byte>, buf: seq<Byte>, n: nat)
    requires Endpoint(c, env, inbound) && 0 < n <= |buf|
    ensures var o := Send(c, env, Some(buf), n);
            var reply := NextReply(env.script);
            && o.ret == (if reply.Ok? then Min(reply.n, n) else -1)
            && o.env.script == Skip(env.script, 1)
  {
    hide RetryLoop, BaseSend, Undisturbed;
    StreamSendIsBase(c, env, Some(buf), n);
    SendLoopAmount(c, env, buf, n);
    SameUndisturbed(env, Tick(env));
    UndisturbedAttempt(Tick(env), c.handle, SendRequest(buf[..n]), 0);
    SendLoopClosedForm(Tick(env), c.handle, buf[..n]);
  }

  lemma SendLoopAmount(c: Sock, env: Env, buf: seq<Byte>, n: nat)
    requires c.kind == Tcp && IsValid(c) && 0 < n <= |buf|
    ensures var o := BaseSend(c, env, Some(buf), n);
            var r := RetryLoop(Tick(env), c.handle, SendRequest(buf[..n]), 0);
            o.ret == Last(r.tries).result && o.env.script == r.env.script
  {
  }

  lemma ReceiveKeepsSize(c: Sock, env: Env, max: nat)
    requires c.buffer.Some? ==> |c.buffer.value.bytes| == c.bufferSize
    ensures var s := Receive(c, env, max, None).sock;
            s.buffer.Some? ==> |s.buffer.value.bytes| == s.bufferSize
  {
    hide RecvLoop, LastSource;
  }

  // --- The server's loop body

  /** One pass of the server's loop: the running total grows by what Receive returns, and
      unless it is then 0 the buffer and the count are handed to Send. */
  function EchoPass(c: Sock, env: Env, chunk: nat, count: int): (Sock, Env, int) {
    var r := Receive(c, env, chunk, None);
    var total := count + r.ret.0;
    if total != 0 then
      var o := Send(r.sock, r.env, Data(r.sock), SizeT(r.sock.received));
      (o.sock, o.env, total)
    else
      (r.sock, r.env, total)
  }

  /** `t` differs from `s` by steps of the server only, which is at its loop head in both. */
  ghost predicate ServerMoved(s: State, t: State) {
    && t.server == AtHead && t.held == [] && s.toClient <= t.toClient
    && t == s.(toServer := t.toServer, toClient := t.toClient, count := t.count, taken := t.taken,
               failures := t.failures, lost := t.lost)
  }

  /** A pass of the loop body is a sequence of actions of the abstract server: same running
      total, same bytes left in the stream, and on the wire what the actions put into the
      channel to the client.  The contract holds again after it. */
  lemma ServerPassRefines(s: State, c: Sock, env: Env) returns (acts: seq<Action>)
    requires Endpoint(c, env, s.toServer)
    requires s.server == AtHead && s.held == [] && s.count != |s.payload| && s.chunk < 0x8000_0000
    ensures Possible(s, acts)
    ensures var (c1, e1, total) := EchoPass(c, env, s.chunk, s.count);
            var t := After(s, acts);
            && ServerMoved(s, t) && t.count == total
            && Endpoint(c1, e1, t.toServer) && c1.handle == c.handle
            && WireOf(e1.io, c.handle) == WireOf(env.io, c.handle) + t.toClient[|s.toClient|..]
  {
    hide Receive, Send, WireOf, Endpoint;
    var r := Receive(c, env, s.chunk, None);
    var k := r.ret.0;
    ReceiveEndpoint(c, env, s.toServer, s.chunk);
    var none: seq<Byte> := s.toClient[|s.toClient|..];
    assert none == [] && WireOf(env.io, c.handle) + none == WireOf(env.io, c.handle);
    if k == -1 {
      NullSendStops(r.sock, r.env, SizeT(k));
      StoppedSendKeepsEndpoint(r.sock, r.env, s.toServer, None, SizeT(k));
      acts := OneAction(s, ServerReceiveFails);
    } else if k == 0 {
      assert s.toServer[0..] == s.toServer;
      EmptySendStops(r.sock, r.env, Data(r.sock));
      StoppedSendKeepsEndpoint(r.sock, r.env, s.toServer, Data(r.sock), 0);
      acts := OneAction(s, ServerReceivesNothing);
    } else if s.count + k == 0 {
      acts := OneAction(s, ServerReceives(k));
    } else {
      var buf := Data(r.sock).value;
      SendEndpoint(r.sock, r.env, s.toServer[k..], buf, k);
      var o := Send(r.sock, r.env, Some(buf), k);
      var j := if o.ret < 0 then 0 else o.ret;
      var t := Next(s, ServerReceives(k));
      var rest := OneAction(t, ServerSends(j));
      PossibleCons(s, ServerReceives(k), rest);
      acts := [ServerReceives(k)] + rest;
      assert buf[..j] == buf[..k][..j];
      assert (s.toClient + t.held[..j])[|s.toClient|..] == t.held[..j];
    }
  }

  /** One pass of the server's loop in terms of the replies it gets.  What Receive takes is
      added to the total; unless the total is then 0 all of it goes to Send, and what Send is
      granted of it goes back.  A failed receive takes one off the total and sends nothing. */
  lemma ServerPassOnReplies(c: Sock, env: Env, inbound: seq<Byte>, chunk: nat, count: int)
    requires Endpoint(c, env, inbound) && chunk < 0x8000_0000
    ensures var (c1, e1, total) := EchoPass(c, env, chunk, count);
            var first, second := ReplyAt(env, c.handle, 0), ReplyAt(env, c.handle, 1);
            var k := if first.Ok? then Min(Min(first.n, chunk), |inbound|) else -1;
            var sends := k > 0 && count + k != 0;
            var j := if sends && second.Ok? then Min(second.n, k) else 0;
            && total == count + k && c1.handle == c.handle
            && Endpoint(c1, e1, if k < 0 then inbound else inbound[k..])
            && WireOf(e1.io, c.handle) == WireOf(env.io, c.handle) + inbound[..j]
            && e1.script == Skip(env.script, if sends then 2 else 1)
  {
    hide Receive, Send, WireOf, Endpoint;
    var r := Receive(c, env, chunk, None);
    var k := r.ret.0;
    ReceiveEndpoint(c, env, inbound, chunk);
    ReceiveAmount(c, env, inbound, chunk);
    EndpointReplies(c, env, inbound);
    assert inbound[..0] == [] && inbound[0..] == inbound;
    assert WireOf(env.io, c.handle) + inbound[..0] == WireOf(env.io, c.handle);
    if k == -1 {
      NullSendStops(r.sock, r.env, SizeT(k));
      StoppedSendKeepsEndpoint(r.sock, r.env, inbound, None, SizeT(k));
    } else if k == 0 {
      EmptySendStops(r.sock, r.env, Data(r.sock));
      StoppedSendKeepsEndpoint(r.sock, r.env, inbound, Data(r.sock), 0);
    } else if count + k != 0 {
      var buf := Data(r.sock).value;
      SendEndpoint(r.sock, r.env, inbound[k..], buf, k);
      SendAmount(r.sock, r.env, inbound[k..], buf, k);
      var o := Send(r.sock, r.env, Some(buf), k);
      var j := if o.ret < 0 then 0 else o.ret;
      assert buf[..j] == buf[..k][..j] == inbound[..k][..j] == inbound[..j];
    }
  }

  lemma EndpointReplies(c: Sock, env: Env, inbound: seq<Byte>)
    requires Endpoint(c, env, inbound)
    ensures c.kind == Tcp && IsValid(c) && c.handle in env.open
    ensures NextReply(env.script) == ReplyAt(env, c.handle, 0)
    ensures NextReply(Skip(env.script, 1)) == ReplyAt(env, c.handle, 1)
    ensures Skip(Skip(env.script, 1), 1) == Skip(env.script, 2)
  {
  }

  lemma OneAction(s: State, a: Action) returns (acts: seq<Action>)
    requires Enabled(s, a)
    ensures acts == [a] && Possible(s, acts) && After(s, acts) == Next(s, a)
  {
    assert Possible(Next(s, a), []);
    PossibleCons(s, a, []);
    acts := [a];
    assert acts == [a] + [];
  }

  lemma StoppedSendKeepsEndpoint(c: Sock, env: Env, inbound: seq<Byte>, buf: Option<seq<Byte>>, n: nat)
    requires Endpoint(c, env, inbound) && (buf.None? || n == 0)
    ensures var o := Send(c, env, buf, n);
            o.env == env && Endpoint(o.sock, o.env, inbound) && o.sock.handle == c.handle
  {
    hide Undisturbed;
  }

  // --- Both loops

  /** The objects of the two threads: the server's connection `c` with its running total, and
      the client's `k` with the bytes it has received. */
  datatype Pair = Pair(c: Sock, serverEnv: Env, count: int, k: Sock, clientEnv: Env, got: seq<Byte>)

  /** What `fd` has sent from `a` to `b`. */
  function NewOnWire(a: Env, b: Env, fd: int): seq<Byte> {
    var before, after := WireOf(a.io, fd), WireOf(b.io, fd);
    if |before| <= |after| then after[|before|..] else []
  }

  /** `bytes` arrive at the end of the stream of `fd`. */
  function Arrived(env: Env, fd: int, bytes: seq<Byte>): Env {
    if fd in env.open then
      env.(open := env.open[fd := env.open[fd].(inbound := env.open[fd].inbound + bytes)])
    else env
  }

  /** One test and pass of the server's loop; what it sends reaches the client's stream. */
  function ServerTurn(p: Pair, chunk: nat, total: int): Pair {
    if p.count == total then p
    else
      var (c1, e1, count) := EchoPass(p.c, p.serverEnv, chunk, p.count);
      p.(c := c1, serverEnv := e1, count := count,
         clientEnv := Arrived(p.clientEnv, p.k.handle, NewOnWire(p.serverEnv, e1, p.c.handle)))
  }

  /** The first `n` bytes of the internal buffer, as the client copies them. */
  function Copied(data: Option<seq<Byte>>, n: int): seq<Byte> {
    if data.Some? && 0 < n <= |data.value| then data.value[..n] else []
  }

  /** One test and pass of the client's loop. */
  function ClientTurn(p: Pair, total: int): Pair {
    if |p.got| == total then p
    else
      var r := Receive(p.k, p.clientEnv, MAX_PACKET, None);
      p.(k := r.sock, clientEnv := r.env, got := p.got + Copied(Data(r.sock), r.ret.0))
  }

  datatype Turn = ServerMoves | ClientMoves

  function Play(p: Pair, turns: seq<Turn>, chunk: nat, total: int): Pair
    decreases |turns|
  {
    if turns == [] then p
    else
      var q := if turns[0].ServerMoves? then ServerTurn(p, chunk, total) else ClientTurn(p, total);
      Play(q, turns[1..], chunk, total)
  }

  /** The sockets are where the abstract state says. */
  ghost predicate Matches(p: Pair, s: State) {
    && Endpoint(p.c, p.serverEnv, s.toServer) && Endpoint(p.k, p.clientEnv, s.toClient)
    && s.server == AtHead && s.held == [] && s.count == p.count
    && s.client == Looping && s.received == p.got
  }

  lemma ArrivedEndpoint(c: Sock, env: Env, inbound: seq<Byte>, bytes: seq<Byte>)
    requires Endpoint(c, env, inbound)
    ensures Endpoint(c, Arrived(env, c.handle, bytes), inbound + bytes)
    ensures Arrived(env, c.handle, bytes).script == env.script
  {
  }

  lemma NewOnWireIs(a: Env, b: Env, fd: int, bytes: seq<Byte>)
    requires WireOf(b.io, fd) == WireOf(a.io, fd) + bytes
    ensures NewOnWire(a, b, fd) == bytes
  {
  }

  lemma ServerTurnRefines(p: Pair, s: State) returns (acts: seq<Action>)
    requires Matches(p, s) && s.chunk < 0x8000_0000
    ensures Possible(s, acts) && Matches(ServerTurn(p, s.chunk, |s.payload|), After(s, acts))
  {
    hide Endpoint, EchoPass, WireOf, NewOnWire;
    acts := [];
    if p.count != |s.payload| {
      acts := ServerPassRefines(s, p.c, p.serverEnv);
      var t := After(s, acts);
      var bytes := t.toClient[|s.toClient|..];
      NewOnWireIs(p.serverEnv, EchoPass(p.c, p.serverEnv, s.chunk, p.count).1, p.c.handle, bytes);
      ArrivedEndpoint(p.k, p.clientEnv, s.toClient, bytes);
      assert s.toClient + bytes == t.toClient;
    }
  }

  lemma ClientTurnRefines(p: Pair, s: State) returns (acts: seq<Action>)
    requires Matches(p, s)
    ensures Possible(s, acts) && Matches(ClientTurn(p, |s.payload|), After(s, acts))
  {
    hide Endpoint, Receive, WireOf;
    acts := [];
    if |p.got| != |s.payload| {
      ReceiveEndpoint(p.k, p.clientEnv, s.toClient, MAX_PACKET);
      var r := Receive(p.k, p.clientEnv, MAX_PACKET, None);
      if r.ret.0 > 0 {
        acts := OneAction(s, ClientReceives(r.ret.0));
      } else {
        assert s.toClient[0..] == s.toClient;
        assert p.got + [] == p.got;
        acts := OneAction(s, ClientReceivesNothing);
      }
    }
  }

  /** One pass of the client's loop in terms of the reply it gets: the front of its stream moves
      to the end of what it has. */
  lemma ClientTurnOnReply(p: Pair, inbound: seq<Byte>, total: int)
    requires Endpoint(p.k, p.clientEnv, inbound) && |p.got| != total
    ensures var q := ClientTurn(p, total);
            var reply := ReplyAt(p.clientEnv, p.k.handle, 0);
            var k := if reply.Ok? then Min(Min(reply.n, 4096), |inbound|) else 0;
            && q == p.(k := q.k, clientEnv := q.clientEnv, got := p.got + inbound[..k])
            && q.k.handle == p.k.handle && Endpoint(q.k, q.clientEnv, inbound[k..])
            && q.clientEnv.script == Skip(p.clientEnv.script, 1)
  {
    hide Endpoint, Receive, WireOf;
    ReceiveEndpoint(p.k, p.clientEnv, inbound, MAX_PACKET);
    ReceiveAmount(p.k, p.clientEnv, inbound, MAX_PACKET);
    EndpointReplies(p.k, p.clientEnv, inbound);
    assert inbound[..0] == [] && inbound[0..] == inbound;
    assert p.got + [] == p.got;
  }

  lemma {:induction false} RunConcat(s: State, a: seq<Action>, b: seq<Action>)
    requires Possible(s, a) && Possible(After(s, a), b)
    ensures Possible(s, a + b) && After(s, a + b) == After(After(s, a), b)
    decreases |a|
  {
    if a == [] {
      assert a + b == b;
    } else {
      assert (a + b)[1..] == a[1..] + b;
      RunConcat(Next(s, a[0]), a[1..], b);
    }
  }

  /** The parameters of a run do not change. */
  lemma {:induction false} ParametersFixed(s: State, acts: seq<Action>)
    requires Possible(s, acts)
    ensures After(s, acts).chunk == s.chunk && After(s, acts).payload == s.payload
    decreases |acts|
  {
    if acts != [] {
      ParametersFixed(Next(s, acts[0]), acts[1..]);
    }
  }

  /** Every interleaving of passes of the two loops is a run of the abstract system. */
  lemma {:induction false} PlayRefines(p: Pair, s: State, turns: seq<Turn>) returns (acts: seq<Action>)
    requires Matches(p, s) && s.chunk < 0x8000_0000
    ensures Possible(s, acts) && Matches(Play(p, turns, s.chunk, |s.payload|), After(s, acts))
    decreases |turns|
  {
    hide Matches, ServerTurn, ClientTurn;
    acts := [];
    if turns != [] {
      var q;
      if turns[0].ServerMoves? {
        q := ServerTurn(p, s.chunk, |s.payload|);
        acts := ServerTurnRefines(p, s);
      } else {
        q := ClientTurn(p, |s.payload|);
        acts := ClientTurnRefines(p, s);
      }
      ParametersFixed(s, acts);
      var rest := PlayRefines(q, After(s, acts), turns[1..]);
      RunConcat(s, acts, rest);
      acts := acts + rest;
    }
  }

  // --- The whole exchange

  /** The client's one Send of the payload; what it accepts reaches the server's stream. */
  function Sent(c: Sock, serverEnv: Env, k: Sock, clientEnv: Env, payload: seq<Byte>): (Pair, int) {
    var o := Send(k, clientEnv, Some(payload), |payload|);
    var serverEnv1 := Arrived(serverEnv, c.handle, NewOnWire(clientEnv, o.env, k.handle));
    (Pair(c, serverEnv1, 0, o.sock, o.env, []), o.ret)
  }

  lemma SentRefines(c: Sock, serverEnv: Env, k: Sock, clientEnv: Env, payload: seq<Byte>, chunk: nat)
    returns (acts: seq<Action>)
    requires Endpoint(c, serverEnv, []) && Endpoint(k, clientEnv, []) && payload != []
    ensures var (p, ret) := Sent(c, serverEnv, k, clientEnv, payload);
            && Possible(Initial(payload, chunk), acts)
            && (if ret != 0 then Matches(p, After(Initial(payload, chunk), acts))
                else After(Initial(payload, chunk), acts).client == Skipped)
  {
    hide Endpoint, Send, WireOf, NewOnWire, Arrived;
    var s := Initial(payload, chunk);
    var o := Send(k, clientEnv, Some(payload), |payload|);
    SendEndpoint(k, clientEnv, [], payload, |payload|);
    var n := if o.ret < 0 then 0 else o.ret;
    NewOnWireIs(clientEnv, o.env, k.handle, payload[..n]);
    ArrivedEndpoint(c, serverEnv, [], payload[..n]);
    assert [] + payload[..n] == payload[..n];
    acts := [];
    if o.ret >= 0 {
      acts := OneAction(s, ClientSends(n));
    } else {
      assert payload[..0] == [];
      acts := OneAction(s, ClientSendFails);
    }
  }

  /** On the modelled sockets, for every payload, chunk size, script without interruptions and
      interleaving: when the client's count has reached the payload's length and it leaves its
      loop, it has received exactly the payload. */
  lemma SocketsEchoPayload(c: Sock, serverEnv: Env, k: Sock, clientEnv: Env, payload: seq<Byte>,
                           chunk: nat, turns: seq<Turn>)
    requires Endpoint(c, serverEnv, []) && Endpoint(k, clientEnv, []) && payload != [] && chunk < 0x8000_0000
    ensures var (p, ret) := Sent(c, serverEnv, k, clientEnv, payload);
            var end := Play(p, turns, chunk, |payload|);
            ret != 0 && |end.got| == |payload| ==> end.got == payload
  {
    hide Endpoint, Sent, Play;
    var (p, ret) := Sent(c, serverEnv, k, clientEnv, payload);
    var s := Initial(payload, chunk);
    var first := SentRefines(c, serverEnv, k, clientEnv, payload, chunk);
    if ret != 0 {
      ParametersFixed(s, first);
      var rest := PlayRefines(p, After(s, first), turns);
      RunConcat(s, first, rest);
      ClientLeavesWithPayload(payload, chunk, first + rest);
    }
  }

  // --- A run in which the system cooperates

  /** At least `calls` replies, all of them granting at least `n` bytes. */
  ghost predicate Plentiful(script: seq<Reply>, calls: nat, n: nat) {
    calls <= |script| && forall i :: 0 <= i < |script| ==> script[i].Ok? && script[i].n >= n
  }

  lemma PlentifulRest(script: seq<Reply>, calls: nat, n: nat, used: nat)
    requires Plentiful(script, calls + used, n)
    ensures Plentiful(Skip(script, used), calls, n)
    ensures forall i :: 0 <= i < used ==> script[i].Ok? && script[i].n >= n
  {
    assert forall i :: 0 <= i < |script| - used ==> Skip(script, used)[i] == script[i + used];
  }

  /** Nothing is lost so far: `left` is what the server has not yet received, `back` what is on its
      way to the client.  There are replies for `turns` more passes. */
  ghost predicate Healthy(p: Pair, payload: seq<Byte>, chunk: nat, left: seq<Byte>, back: seq<Byte>, turns: nat) {
    && 1 <= chunk < 0x8000_0000
    && Endpoint(p.c, p.serverEnv, left) && Endpoint(p.k, p.clientEnv, back)
    && p.got + back + left == payload
    && p.count == |payload| - |left|
    && Plentiful(p.serverEnv.script, 2 * turns, chunk) && Plentiful(p.clientEnv.script, turns, 1)
  }

  function Less(n: nat, k: nat): nat {
    if n <= k then 0 else n - k
  }

  /** A server pass echoes at least one byte while there are any. */
  lemma ServerTurnEchoes(p: Pair, payload: seq<Byte>, chunk: nat, left: seq<Byte>, back: seq<Byte>, turns: nat)
    returns (k: nat)
    requires Healthy(p, payload, chunk, left, back, turns + 1)
    ensures k <= |left| && |left| - k <= Less(|left|, 1) && (left == [] ==> k == 0)
    ensures var q := ServerTurn(p, chunk, |payload|);
            Healthy(q, payload, chunk, left[k..], back + left[..k], turns) && q.got == p.got
  {
    hide Endpoint, EchoPass, WireOf, NewOnWire, Arrived, Plentiful;
    PlentifulRest(p.serverEnv.script, 2 * turns, chunk, 2);
    PlentifulMore(p.serverEnv.script, 2 * turns + 2, chunk, 2 * turns);
    PlentifulMore(p.clientEnv.script, turns + 1, 1, turns);
    if left == [] {
      k := 0;
      assert left[0..] == left && back + left[..0] == back;
    } else {
      EndpointReplies(p.c, p.serverEnv, left);
      ServerPassOnReplies(p.c, p.serverEnv, left, chunk, p.count);
      k := Min(chunk, |left|);
      NewOnWireIs(p.serverEnv, EchoPass(p.c, p.serverEnv, chunk, p.count).1, p.c.handle, left[..k]);
      ArrivedEndpoint(p.k, p.clientEnv, back, left[..k]);
      Moves(p.got, back, left, k);
    }
  }

  /** The first `k` bytes of `b` moved to the end of `a`. */
  lemma Moves(front: seq<Byte>, a: seq<Byte>, b: seq<Byte>, k: nat)
    requires k <= |b|
    ensures front + (a + b[..k]) + b[k..] == front + a + b
    ensures front == [] ==> (a + b[..k]) + b[k..] == a + b
  {
    assert b[..k] + b[k..] == b;
  }

  lemma PlentifulMore(script: seq<Reply>, calls: nat, n: nat, fewer: nat)
    requires Plentiful(script, calls, n) && fewer <= calls
    ensures Plentiful(script, fewer, n) && |script| >= calls
  {
  }

  /** A client pass takes at least one byte while there are any on their way. */
  lemma ClientTurnTakes(p: Pair, payload: seq<Byte>, chunk: nat, left: seq<Byte>, back: seq<Byte>, turns: nat)
    returns (k: nat)
    requires Healthy(p, payload, chunk, left, back, turns + 1)
    ensures k <= |back| && (back != [] && |p.got| != |payload| ==> k > 0)
    ensures var q := ClientTurn(p, |payload|);
            Healthy(q, payload, chunk, left, back[k..], turns) && |q.got| == |p.got| + k
  {
    hide Endpoint, Plentiful, Receive;
    PlentifulMore(p.serverEnv.script, 2 * turns + 2, chunk, 2 * turns);
    PlentifulMore(p.clientEnv.script, turns + 1, 1, turns);
    if |p.got| == |payload| {
      k := 0;
      assert back[0..] == back;
    } else {
      hide ClientTurn;
      PlentifulRest(p.clientEnv.script, turns, 1, 1);
      EndpointReplies(p.k, p.clientEnv, back);
      ClientTurnOnReply(p, back, |payload|);
      k := Min(Min(ReplyAt(p.clientEnv, p.k.handle, 0).n, MAX_PACKET), |back|);
      Moves([], p.got, back, k);
    }
  }

  function Count(turns: seq<Turn>, t: Turn): nat {
    if turns == [] then 0 else (if turns[0] == t then 1 else 0) + Count(turns[1..], t)
  }

  /** Every interleaving keeps the exchange healthy; each server pass brings the server's stream
      nearer to its end, and once it is empty each client pass brings the client nearer to the
      payload. */
  lemma {:induction false} PlayProgresses(p: Pair, payload: seq<Byte>, chunk: nat, left: seq<Byte>, back: seq<Byte>,
                                          turns: seq<Turn>, spare: nat)
    returns (left1: seq<Byte>, back1: seq<Byte>)
    requires Healthy(p, payload, chunk, left, back, |turns| + spare)
    ensures var q := Play(p, turns, chunk, |payload|);
            && Healthy(q, payload, chunk, left1, back1, spare)
            && |left1| <= Less(|left|, Count(turns, ServerMoves))
            && (left == [] ==> |q.got| >= |payload| - Less(|payload| - |p.got|, Count(turns, ClientMoves)))
    decreases |turns|
  {
    hide Endpoint, Plentiful, ServerTurn, ClientTurn;
    left1, back1 := left, back;
    if turns != [] {
      var m := |turns| - 1 + spare;
      if turns[0].ServerMoves? {
        var k := ServerTurnEchoes(p, payload, chunk, left, back, m);
        left1, back1 := PlayProgresses(ServerTurn(p, chunk, |payload|), payload, chunk, left[k..], back + left[..k],
                                       turns[1..], spare);
      } else {
        var k := ClientTurnTakes(p, payload, chunk, left, back, m);
        left1, back1 := PlayProgresses(ClientTurn(p, |payload|), payload, chunk, left, back[k..], turns[1..], spare);
      }
    }
  }

  lemma {:induction false} PlayConcat(p: Pair, a: seq<Turn>, b: seq<Turn>, chunk: nat, total: int)
    ensures Play(p, a + b, chunk, total) == Play(Play(p, a, chunk, total), b, chunk, total)
    decreases |a|
  {
    hide ServerTurn, ClientTurn;
    if a == [] {
      assert a + b == b;
    } else {
      assert (a + b)[1..] == a[1..] + b;
      PlayConcat(if a[0].ServerMoves? then ServerTurn(p, chunk, total) else ClientTurn(p, total), a[1..], b, chunk, total);
    }
  }

  /** The start of an exchange whose first Send is granted in full. */
  lemma SentHealthy(c: Sock, serverEnv: Env, k: Sock, clientEnv: Env, payload: seq<Byte>, chunk: nat, turns: nat)
    requires Endpoint(c, serverEnv, []) && Endpoint(k, clientEnv, []) && payload != [] && 1 <= chunk < 0x8000_0000
    requires Plentiful(serverEnv.script, 2 * turns, chunk) && Plentiful(clientEnv.script, turns + 1, 1)
    requires clientEnv.script[0].n >= |payload|
    ensures var (p, ret) := Sent(c, serverEnv, k, clientEnv, payload);
            ret == |payload| && Healthy(p, payload, chunk, payload, [], turns) && p.got == []
  {
    hide Endpoint, Send, WireOf, NewOnWire, Plentiful;
    var o := Send(k, clientEnv, Some(payload), |payload|);
    PlentifulRest(clientEnv.script, turns, 1, 1);
    PlentifulMore(clientEnv.script, turns + 1, 1, turns);
    SendEndpoint(k, clientEnv, [], payload, |payload|);
    SendAmount(k, clientEnv, [], payload, |payload|);
    assert payload[..|payload|] == payload;
    NewOnWireIs(clientEnv, o.env, k.handle, payload);
    ArrivedEndpoint(c, serverEnv, [], payload);
    assert [] + payload == payload && [] + [] + payload == payload;
  }

  /** The exchange comes to its end.  With replies that grant each call and each send in full,
      in every interleaving in which the server gets as many turns as there are bytes and the
      client as many after that, the client ends with the payload. */
  lemma SocketsEchoEverything(c: Sock, serverEnv: Env, k: Sock, clientEnv: Env, payload: seq<Byte>, chunk: nat,
                              a: seq<Turn>, b: seq<Turn>)
    requires Endpoint(c, serverEnv, []) && Endpoint(k, clientEnv, []) && payload != [] && 1 <= chunk < 0x8000_0000
    requires Plentiful(serverEnv.script, 2 * (|a| + |b|), chunk) && Plentiful(clientEnv.script, |a| + |b| + 1, 1)
    requires clientEnv.script[0].n >= |payload|
    requires Count(a, ServerMoves) >= |payload| && Count(b, ClientMoves) >= |payload|
    ensures var (p, ret) := Sent(c, serverEnv, k, clientEnv, payload);
            ret == |payload| && Play(p, a + b, chunk, |payload|).got == payload
  {
    hide Endpoint, Sent, Play, Plentiful;
    var (p, ret) := Sent(c, serverEnv, k, clientEnv, payload);
    SentHealthy(c, serverEnv, k, clientEnv, payload, chunk, |a| + |b|);
    var left, back := PlayProgresses(p, payload, chunk, payload, [], a, |b|);
    var mid := Play(p, a, chunk, |payload|);
    var left1, back1 := PlayProgresses(mid, payload, chunk, left, back, b, 0);
    PlayConcat(p, a, b, chunk, |payload|);
    var got := Play(mid, b, chunk, |payload|).got;
    assert got + back1 + left1 == payload && |got| >= |payload|;
    assert back1 == [] && left1 == [] && got + [] + [] == got;
  }
}
