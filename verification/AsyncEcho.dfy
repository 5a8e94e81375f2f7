/** The client and the server thread of examples/RecvAsync.cpp as two processes over a pair of
    byte channels.  Sends may be short or fail, receives may return less than asked for,
    nothing or an error, and the two sides interleave in any way.  Assumed are FIFO delivery
    and that no call is interrupted by a signal: an interrupted Send can duplicate bytes
    (`Transfers.InterruptedSendDuplicates`) and an interrupted Receive can lose them
    (`Transfers.InterruptedReceiveLoses`), and neither is an action here.
    `EchoRefinement.dfy` ties the actions to the sockets. */
module AsyncEcho {
  import opened Posix

  const MAX_PACKET: nat := 4096

  /** The client: before its send, in its receive loop, past the loop, or never in it because
      Send returned 0. */
  datatype ClientPhase = Sending | Looping | Done | Skipped

  /** The server: at its loop head, between Receive and Send, past the loop. */
  datatype ServerPhase = AtHead | Echoing | Finished

  datatype State = State(
    payload: seq<Byte>,
    chunk: nat,               // nNumBytesToReceive
    client: ClientPhase,
    unsent: seq<Byte>,        // what the client's one Send did not get rid of
    received: seq<Byte>,      // what the client has received; bytesReceived is its length
    toServer: seq<Byte>,
    toClient: seq<Byte>,
    server: ServerPhase,
    count: int,               // the server's nBytesReceived
    held: seq<Byte>,          // received by the server, to be echoed next
    taken: nat,               // bytes the server has received so far
    failures: nat,            // failed receives of the server so far
    lost: nat)                // received bytes that were not echoed

  datatype Action =
    | ClientSends(n: nat) | ClientSendFails
    | ServerReceives(n: nat) | ServerReceivesNothing | ServerReceiveFails
    | ServerSends(n: nat) | ServerLeaves
    | ClientReceives(n: nat) | ClientReceivesNothing | ClientLeaves

  function Initial(payload: seq<Byte>, chunk: nat): State {
    State(payload, chunk, Sending, payload, [], [], [], AtHead, 0, [], 0, 0, 0)
  }

  predicate Enabled(s: State, a: Action) {
    match a
    case ClientSends(n) => s.client == Sending && n <= |s.payload|
    case ClientSendFails => s.client == Sending && s.payload != []
    case ServerReceives(n) =>
      s.server == AtHead && s.count != |s.payload| && 1 <= n <= s.chunk && n <= |s.toServer|
    case ServerReceivesNothing => s.server == AtHead && s.count != |s.payload|
    case ServerReceiveFails => s.server == AtHead && s.count != |s.payload|
    case ServerSends(n) => s.server == Echoing && n <= |s.held|
    case ServerLeaves => s.server == AtHead && s.count == |s.payload|
    case ClientReceives(n) =>
      s.client == Looping && |s.received| != |s.payload| && 1 <= n <= MAX_PACKET && n <= |s.toClient|
    case ClientReceivesNothing => s.client == Looping && |s.received| != |s.payload|
    case ClientLeaves => s.client == Looping && |s.received| == |s.payload|
  }

  /** The effect of an action.  Two tests of the source are easy to misread.  The client enters
      its loop whenever Send returns non-zero, so also on -1.  The server tests its running
      total, not the last receive: a total of exactly 0 skips the echo, and a failed receive
      subtracts one from the total and then sends nothing, for want of a buffer. */
  function Next(s: State, a: Action): State
    requires Enabled(s, a)
  {
    match a
    case ClientSends(n) =>
      s.(toServer := s.toServer + s.payload[..n], unsent := s.payload[n..],
         client := if n == 0 then Skipped else Looping)
    case ClientSendFails => s.(client := Looping)
    case ServerReceives(n) =>
      var s1 := s.(toServer := s.toServer[n..], count := s.count + n, taken := s.taken + n);
      if s1.count != 0 then s1.(held := s.toServer[..n], server := Echoing) else s1.(lost := s.lost + n)
    case ServerReceivesNothing => s
    case ServerReceiveFails => s.(count := s.count - 1, failures := s.failures + 1)
    case ServerSends(n) =>
      s.(toClient := s.toClient + s.held[..n], lost := s.lost + |s.held| - n, held := [], server := AtHead)
    case ServerLeaves => s.(server := Finished)
    case ClientReceives(n) => s.(received := s.received + s.toClient[..n], toClient := s.toClient[n..])
    case ClientReceivesNothing => s
    case ClientLeaves => s.(client := Done)
  }

  predicate Possible(s: State, acts: seq<Action>)
    decreases |acts|
  {
    acts == [] || (Enabled(s, acts[0]) && Possible(Next(s, acts[0]), acts[1..]))
  }

  function After(s: State, acts: seq<Action>): State
    requires Possible(s, acts)
    decreases |acts|
  {
    if acts == [] then s else After(Next(s, acts[0]), acts[1..])
  }

  // --- Subsequences

  /** `a` is what remains of `b` after deleting some elements. */
  predicate Subsequence(a: seq<Byte>, b: seq<Byte>)
    decreases |b|
  {
    a == [] || (b != [] && ((a[0] == b[0] && Subsequence(a[1..], b[1..])) || Subsequence(a, b[1..])))
  }

  lemma {:induction false} SubsequenceSelf(a: seq<Byte>)
    ensures Subsequence(a, a)
    decreases |a|
  {
    if a != [] {
      SubsequenceSelf(a[1..]);
    }
  }

  lemma {:induction false} SubsequenceLength(a: seq<Byte>, b: seq<Byte>)
    requires Subsequence(a, b)
    ensures |a| <= |b|
    ensures |a| == |b| ==> a == b
    decreases |b|
  {
    if a != [] {
      if a[0] == b[0] && Subsequence(a[1..], b[1..]) {
        SubsequenceLength(a[1..], b[1..]);
        assert a == [a[0]] + a[1..] && b == [b[0]] + b[1..];
      } else {
        SubsequenceLength(a, b[1..]);
      }
    }
  }

  /** Deleting a stretch in the middle leaves a subsequence. */
  lemma {:induction false} SubsequenceCut(x: seq<Byte>, y: seq<Byte>, z: seq<Byte>, b: seq<Byte>)
    requires Subsequence(x + y + z, b)
    ensures Subsequence(x + z, b)
    decreases |b|
  {
    var a := x + y + z;
    if y == [] {
      assert a == x + z;
    } else if x + z != [] {
      if a[0] == b[0] && Subsequence(a[1..], b[1..]) {
        if x != [] {
          assert a[1..] == x[1..] + y + z;
          SubsequenceCut(x[1..], y, z, b[1..]);
          assert (x + z)[1..] == x[1..] + z;
        } else {
          assert a[1..] == [] + y[1..] + z;
          SubsequenceCut([], y[1..], z, b[1..]);
          assert [] + z == x + z;
        }
      } else {
        SubsequenceCut(x, y, z, b[1..]);
      }
    }
  }

  // --- The invariant

  /** All bytes still around, in the order in which the client would see them. */
  function Pipeline(s: State): seq<Byte> {
    s.received + s.toClient + s.held + s.toServer + s.unsent
  }

  ghost predicate Conserving(s: State) {
    && Subsequence(Pipeline(s), s.payload)
    && |Pipeline(s)| + s.lost == |s.payload|
    && s.taken + |s.toServer| + |s.unsent| == |s.payload|
    && s.count == s.taken - s.failures
    && (s.held != [] <==> s.server == Echoing)
    && (s.server == Finished ==> s.count == |s.payload|)
    && (s.client == Done ==> |s.received| == |s.payload|)
    && (s.client == Sending ==> s.unsent == s.payload)
  }

  /** Nothing enters the pipeline and `gone` bytes leave it from the middle. */
  ghost predicate Thinned(s: State, t: State, gone: nat) {
    && (Subsequence(Pipeline(s), s.payload) ==> Subsequence(Pipeline(t), s.payload))
    && |Pipeline(t)| + gone == |Pipeline(s)|
  }

  lemma ReceiveThins(s: State, n: nat)
    requires Enabled(s, ServerReceives(n))
    ensures s.held == [] ==> Thinned(s, Next(s, ServerReceives(n)), if s.count + n != 0 then 0 else n)
  {
    hide Subsequence;
    var t := Next(s, ServerReceives(n));
    var front, back := s.toServer[..n], s.toServer[n..];
    assert front + back == s.toServer;
    if s.held == [] {
      var x, z := s.received + s.toClient, back + s.unsent;
      assert Pipeline(s) == x + front + z by {
        assert x + [] + (front + back) + s.unsent == x + front + (back + s.unsent);
      }
      if t.count != 0 {
        assert Pipeline(t) == x + front + z by {
          assert x + front + back + s.unsent == x + front + (back + s.unsent);
        }
      } else {
        assert Pipeline(t) == x + z by {
          assert x + [] + back + s.unsent == x + (back + s.unsent);
        }
        if Subsequence(Pipeline(s), s.payload) {
          SubsequenceCut(x, front, z, s.payload);
        }
      }
    }
  }

  lemma SendThins(s: State, n: nat)
    requires Enabled(s, ServerSends(n))
    ensures Thinned(s, Next(s, ServerSends(n)), |s.held| - n)
  {
    hide Subsequence;
    var t := Next(s, ServerSends(n));
    var front, back := s.held[..n], s.held[n..];
    assert front + back == s.held;
    var x, z := s.received + s.toClient + front, s.toServer + s.unsent;
    assert Pipeline(s) == x + back + z by {
      var y := s.received + s.toClient;
      assert y + (front + back) + s.toServer + s.unsent == (y + front) + back + (s.toServer + s.unsent);
    }
    assert Pipeline(t) == x + z by {
      assert s.received + (s.toClient + front) + [] + s.toServer + s.unsent
          == (s.received + s.toClient + front) + (s.toServer + s.unsent);
    }
    if Subsequence(Pipeline(s), s.payload) {
      SubsequenceCut(x, back, z, s.payload);
    }
  }

  lemma ClientStepsKeepPipeline(s: State, n: nat)
    ensures Enabled(s, ClientReceives(n)) ==> Pipeline(Next(s, ClientReceives(n))) == Pipeline(s)
    ensures Enabled(s, ClientSends(n)) && s.toServer == [] && s.unsent == s.payload ==>
              Pipeline(Next(s, ClientSends(n))) == Pipeline(s)
  {
    if Enabled(s, ClientReceives(n)) {
      assert s.toClient[..n] + s.toClient[n..] == s.toClient;
      assert s.received + s.toClient[..n] + s.toClient[n..] == s.received + s.toClient;
    }
    if Enabled(s, ClientSends(n)) {
      assert s.payload[..n] + s.payload[n..] == s.payload;
      var x := s.received + s.toClient + s.held;
      assert x + ([] + s.payload[..n]) + s.payload[n..] == x + [] + s.payload;
    }
  }

  lemma NextConserving(s: State, a: Action)
    requires Conserving(s) && Enabled(s, a)
    ensures Conserving(Next(s, a))
  {
    hide Subsequence;
    match a
    case ClientSends(n) => hide Pipeline; ClientStepsKeepPipeline(s, n);
    case ServerReceives(n) => hide Pipeline; ReceiveThins(s, n);
    case ServerSends(n) => hide Pipeline; SendThins(s, n);
    case ClientReceives(n) => hide Pipeline; ClientStepsKeepPipeline(s, n);
    case _ => assert Pipeline(Next(s, a)) == Pipeline(s);
  }

  lemma {:induction false} RunConserving(s: State, acts: seq<Action>)
    requires Conserving(s) && Possible(s, acts)
    ensures Conserving(After(s, acts)) && After(s, acts).payload == s.payload
    decreases |acts|
  {
    if acts != [] {
      NextConserving(s, acts[0]);
      RunConserving(Next(s, acts[0]), acts[1..]);
    }
  }

  // --- Conditions on runs

  /** The step loses bytes: a short server send, or a receive after which the server's total is
      0, so that it skips the echo. */
  predicate Drops(s: State, a: Action) {
    (a.ServerSends? && a.n < |s.held|) || (a.ServerReceives? && s.count + a.n == 0)
  }

  predicate NothingDropped(s: State, acts: seq<Action>)
    requires Possible(s, acts)
    decreases |acts|
  {
    acts == [] || (!Drops(s, acts[0]) && NothingDropped(Next(s, acts[0]), acts[1..]))
  }

  lemma {:induction false} NothingLostIff(s: State, acts: seq<Action>)
    requires Possible(s, acts)
    ensures After(s, acts).lost >= s.lost
    ensures After(s, acts).lost == s.lost <==> NothingDropped(s, acts)
    decreases |acts|
  {
    if acts != [] {
      NothingLostIff(Next(s, acts[0]), acts[1..]);
    }
  }

  lemma {:induction false} NoFailureIff(s: State, acts: seq<Action>)
    requires Possible(s, acts)
    ensures After(s, acts).failures >= s.failures
    ensures After(s, acts).failures == s.failures <==> ServerReceiveFails !in acts
    decreases |acts|
  {
    if acts != [] {
      NoFailureIff(Next(s, acts[0]), acts[1..]);
      assert acts == [acts[0]] + acts[1..];
    }
  }

  /** The client sends at most once. */
  lemma {:induction false} NoSecondSend(s: State, acts: seq<Action>, n: nat)
    requires Possible(s, acts) && s.client != Sending
    ensures ClientSends(n) !in acts && After(s, acts).client != Sending && After(s, acts).unsent == s.unsent
    decreases |acts|
  {
    if acts != [] {
      NoSecondSend(Next(s, acts[0]), acts[1..], n);
      assert acts == [acts[0]] + acts[1..];
    }
  }

  /** Nothing is left unsent iff the client's one Send took the whole payload. */
  lemma {:induction false} SentAllIff(s: State, acts: seq<Action>)
    requires Possible(s, acts) && s.client == Sending && s.unsent == s.payload
    requires After(s, acts).client != Sending
    ensures After(s, acts).unsent == [] <==> ClientSends(|s.payload|) in acts
    decreases |acts|
  {
    var t, rest := Next(s, acts[0]), acts[1..];
    assert acts == [acts[0]] + rest;
    if t.client == Sending {
      SentAllIff(t, rest);
    } else {
      NoSecondSend(t, rest, |s.payload|);
    }
  }

  /** Every server send takes all it is given. */
  predicate FullSends(s: State, acts: seq<Action>)
    requires Possible(s, acts)
    decreases |acts|
  {
    acts == [] || ((acts[0].ServerSends? ==> acts[0].n == |s.held|) && FullSends(Next(s, acts[0]), acts[1..]))
  }

  /** Full sends and no failed receive drop nothing. */
  lemma {:induction false} FaultFreeDropsNothing(s: State, acts: seq<Action>)
    requires Conserving(s) && s.failures == 0
    requires Possible(s, acts) && FullSends(s, acts) && ServerReceiveFails !in acts
    ensures NothingDropped(s, acts)
    decreases |acts|
  {
    if acts != [] {
      assert acts == [acts[0]] + acts[1..];
      NextConserving(s, acts[0]);
      FaultFreeDropsNothing(Next(s, acts[0]), acts[1..]);
    }
  }

  // --- Safety of every run

  /** Every reachable state of every run: bytes are never reordered or invented, and the
      pipeline is exactly the payload iff no step so far was a short server send or brought
      the server's total to 0 by a receive. */
  lemma EchoConservation(payload: seq<Byte>, chunk: nat, acts: seq<Action>)
    requires Possible(Initial(payload, chunk), acts)
    ensures var s := After(Initial(payload, chunk), acts);
            && Subsequence(Pipeline(s), payload)
            && (Pipeline(s) == payload <==> NothingDropped(Initial(payload, chunk), acts))
  {
    hide Subsequence, NothingDropped, Pipeline;
    var s0 := Initial(payload, chunk);
    InitialConserving(payload, chunk);
    RunConserving(s0, acts);
    NothingLostIff(s0, acts);
    SubsequenceLength(Pipeline(After(s0, acts)), payload);
  }

  /** With full sends and no failed receive, whatever the interleaving and the chunks, the
      pipeline is the payload in every reachable state. */
  lemma FaultFreeConservation(payload: seq<Byte>, chunk: nat, acts: seq<Action>)
    requires Possible(Initial(payload, chunk), acts)
    requires FullSends(Initial(payload, chunk), acts) && ServerReceiveFails !in acts
    ensures Pipeline(After(Initial(payload, chunk), acts)) == payload
  {
    InitialConserving(payload, chunk);
    FaultFreeDropsNothing(Initial(payload, chunk), acts);
    EchoConservation(payload, chunk, acts);
  }

  lemma InitialConserving(payload: seq<Byte>, chunk: nat)
    ensures Conserving(Initial(payload, chunk))
  {
    SubsequenceSelf(payload);
    assert Pipeline(Initial(payload, chunk)) == payload;
  }

  /** The client leaves its loop only with the whole payload in order, whatever went wrong. */
  lemma ClientLeavesWithPayload(payload: seq<Byte>, chunk: nat, acts: seq<Action>)
    requires Possible(Initial(payload, chunk), acts)
    ensures var s := After(Initial(payload, chunk), acts);
            |s.received| == |payload| || s.client == Done ==> s.received == payload
  {
    InitialConserving(payload, chunk);
    RunConserving(Initial(payload, chunk), acts);
    var s := After(Initial(payload, chunk), acts);
    if |s.received| == |payload| {
      assert Pipeline(s) == s.received + (s.toClient + s.held + s.toServer + s.unsent);
      SubsequenceLength(Pipeline(s), payload);
    }
  }

  // --- When the server can leave

  ghost predicate CanLeave(s: State) {
    exists acts :: Possible(s, acts) && After(s, acts).server == Finished
  }

  lemma {:induction false} LeaveFrom(s: State) returns (acts: seq<Action>)
    requires Conserving(s) && s.client != Sending && s.failures == 0 && s.unsent == [] && s.chunk >= 1
    ensures Possible(s, acts) && After(s, acts).server == Finished
    decreases |s.toServer|, if s.server == Finished then 0 else 1 + |s.held|
  {
    acts := [];
    if s.server != Finished {
      var a := if s.server == Echoing then ServerSends(|s.held|)
               else if s.count == |s.payload| then ServerLeaves
               else ServerReceives(1);
      NextConserving(s, a);
      var rest := LeaveFrom(Next(s, a));
      PossibleCons(s, a, rest);
      acts := [a] + rest;
    }
  }

  /** In every reachable state after the client's send, the server can still leave its loop iff
      that send took the whole payload and none of the server's receives has failed so far:
      one failure and it stays for ever. */
  lemma ServerLeavesIff(payload: seq<Byte>, chunk: nat, acts: seq<Action>)
    requires chunk >= 1 && Possible(Initial(payload, chunk), acts)
    requires After(Initial(payload, chunk), acts).client != Sending
    ensures CanLeave(After(Initial(payload, chunk), acts)) <==>
              ServerReceiveFails !in acts && ClientSends(|payload|) in acts
  {
    var s0 := Initial(payload, chunk);
    var s := After(s0, acts);
    InitialConserving(payload, chunk);
    RunConserving(s0, acts);
    ChunkFixed(s0, acts);
    NoFailureIff(s0, acts);
    SentAllIff(s0, acts);
    if s.failures == 0 && s.unsent == [] {
      var more := LeaveFrom(s);
      assert Possible(s, more) && After(s, more).server == Finished;
    }
    if CanLeave(s) {
      var more :| Possible(s, more) && After(s, more).server == Finished;
      RunConserving(s, more);
      NoFailureIff(s, more);
      NoSecondSend(s, more, 0);
    }
  }

  // --- Progress

  /** Weighted distance of the bytes from the client. */
  function Distance(s: State): nat {
    3 * |s.toServer| + 2 * |s.held| + |s.toClient|
  }

  /** A step that moves bytes on. */
  predicate Productive(a: Action) {
    a.ServerReceives? || a.ServerSends? || a.ClientReceives?
  }

  /** The distance still to go, with the payload that is yet to be sent. */
  function Potential(s: State): nat {
    Distance(s) + if s.client == Sending then 3 * |s.payload| else 0
  }

  lemma ProductiveDecreases(s: State, a: Action)
    requires Conserving(s) && Enabled(s, a)
    ensures Potential(Next(s, a)) <= Potential(s)
    ensures Productive(a) ==> Potential(Next(s, a)) < Potential(s)
    ensures s.client != Sending ==> Next(s, a).client != Sending
  {
  }

  function ProductiveSteps(acts: seq<Action>): nat {
    if acts == [] then 0 else (if Productive(acts[0]) then 1 else 0) + ProductiveSteps(acts[1..])
  }

  lemma {:induction false} StepsWithinPotential(s: State, acts: seq<Action>)
    requires Conserving(s) && Possible(s, acts)
    ensures ProductiveSteps(acts) + Potential(After(s, acts)) <= Potential(s)
    decreases |acts|
  {
    if acts != [] {
      NextConserving(s, acts[0]);
      ProductiveDecreases(s, acts[0]);
      StepsWithinPotential(Next(s, acts[0]), acts[1..]);
    }
  }

  /** No run makes more than three productive steps for each byte of the payload, and what it
      has made leaves so many fewer to make. */
  lemma ProductiveStepsBounded(payload: seq<Byte>, chunk: nat, acts: seq<Action>)
    requires Possible(Initial(payload, chunk), acts)
    ensures ProductiveSteps(acts) + Distance(After(Initial(payload, chunk), acts)) <= 3 * |payload|
  {
    InitialConserving(payload, chunk);
    StepsWithinPotential(Initial(payload, chunk), acts);
  }

  /** The server's running total cannot become 0 by receiving single bytes. */
  predicate TotalAvoidsZero(s: State) {
    s.count >= 0 || s.count + |s.toServer| < 0
  }

  ghost predicate Lossless(s: State) {
    Conserving(s) && s.client == Looping && s.lost == 0 && s.unsent == [] && s.chunk >= 1
  }

  /** A productive step that loses nothing, available as long as the client is incomplete. */
  function NextStep(s: State): Action {
    if s.toClient != [] then ClientReceives(1)
    else if s.held != [] then ServerSends(|s.held|)
    else ServerReceives(1)
  }

  /** No deadlock: in a lossless state with the client incomplete, if the server's total stays
      clear of 0, a productive step is enabled that keeps both. */
  lemma NeverStuck(s: State)
    requires Lossless(s) && TotalAvoidsZero(s) && |s.received| != |s.payload|
    ensures Enabled(s, NextStep(s)) && Productive(NextStep(s))
    ensures Lossless(Next(s, NextStep(s))) && TotalAvoidsZero(Next(s, NextStep(s)))
    ensures Distance(Next(s, NextStep(s))) < Distance(s)
  {
    hide Subsequence;
    assert |Pipeline(s)| == |s.received| + |s.toClient| + |s.held| + |s.toServer|;
    NextConserving(s, NextStep(s));
    ProductiveDecreases(s, NextStep(s));
  }

  lemma PossibleCons(s: State, a: Action, rest: seq<Action>)
    requires Enabled(s, a) && Possible(Next(s, a), rest)
    ensures Possible(s, [a] + rest) && After(s, [a] + rest) == After(Next(s, a), rest)
  {
    assert ([a] + rest)[1..] == rest;
  }

  lemma {:induction false} FinishFrom(s: State) returns (acts: seq<Action>)
    requires Lossless(s) && TotalAvoidsZero(s)
    ensures Possible(s, acts) && After(s, acts).client == Done
    decreases Distance(s)
  {
    if |s.received| == |s.payload| {
      acts := [];
      assert Possible(Next(s, ClientLeaves), acts);
      PossibleCons(s, ClientLeaves, acts);
      acts := [ClientLeaves] + acts;
    } else {
      NeverStuck(s);
      var rest := FinishFrom(Next(s, NextStep(s)));
      PossibleCons(s, NextStep(s), rest);
      acts := [NextStep(s)] + rest;
    }
  }

  /** Where earlier failures have made the total negative, the client can still complete: more
      failures keep the total from ever reaching 0. */
  lemma {:induction false} FinishFromAnywhere(s: State) returns (acts: seq<Action>)
    requires Lossless(s)
    ensures Possible(s, acts) && After(s, acts).client == Done
    decreases if TotalAvoidsZero(s) then 0 else s.count + |s.toServer| + 1, |s.held|
  {
    if TotalAvoidsZero(s) {
      acts := FinishFrom(s);
    } else {
      var a := if s.server == Echoing then ServerSends(|s.held|) else ServerReceiveFails;
      NextConserving(s, a);
      var rest := FinishFromAnywhere(Next(s, a));
      PossibleCons(s, a, rest);
      acts := [a] + rest;
    }
  }

  ghost predicate CanComplete(s: State) {
    exists acts :: Possible(s, acts) && After(s, acts).client == Done
  }

  /** In every reachable state with the client in its loop, the client can still complete iff
      its own send took the whole payload and the server has dropped nothing so far. */
  lemma CompletionIff(payload: seq<Byte>, chunk: nat, acts: seq<Action>)
    requires chunk >= 1 && Possible(Initial(payload, chunk), acts)
    requires After(Initial(payload, chunk), acts).client == Looping
    ensures CanComplete(After(Initial(payload, chunk), acts)) <==>
              NothingDropped(Initial(payload, chunk), acts) && ClientSends(|payload|) in acts
  {
    hide NothingDropped;
    var s0 := Initial(payload, chunk);
    var s := After(s0, acts);
    InitialConserving(payload, chunk);
    RunConserving(s0, acts);
    ChunkFixed(s0, acts);
    NothingLostIff(s0, acts);
    SentAllIff(s0, acts);
    if s.lost == 0 && s.unsent == [] {
      var more := FinishFromAnywhere(s);
      assert Possible(s, more) && After(s, more).client == Done;
    }
    if CanComplete(s) {
      var more :| Possible(s, more) && After(s, more).client == Done;
      NothingLostIff(s, more);
      NoSecondSend(s, more, 0);
      RunConserving(s, more);
      var t := After(s, more);
      assert |Pipeline(t)| == |t.received| + |t.toClient| + |t.held| + |t.toServer| + |t.unsent|;
    }
  }

  /** In a run with full sends and no failed receive, a client that is in its loop, has sent
      everything and is incomplete always has a productive step ahead that drops nothing. */
  lemma FaultFreeNeverStuck(payload: seq<Byte>, chunk: nat, acts: seq<Action>)
    requires chunk >= 1 && Possible(Initial(payload, chunk), acts)
    requires FullSends(Initial(payload, chunk), acts) && ServerReceiveFails !in acts
    requires ClientSends(|payload|) in acts
    ensures var s := After(Initial(payload, chunk), acts);
            s.client == Looping && |s.received| != |payload| ==>
              && Enabled(s, NextStep(s)) && Productive(NextStep(s)) && !Drops(s, NextStep(s))
              && Distance(Next(s, NextStep(s))) < Distance(s)
  {
    var s0 := Initial(payload, chunk);
    var s := After(s0, acts);
    InitialConserving(payload, chunk);
    RunConserving(s0, acts);
    ChunkFixed(s0, acts);
    NoFailureIff(s0, acts);
    FaultFreeDropsNothing(s0, acts);
    NothingLostIff(s0, acts);
    if s.client == Looping && |s.received| != |payload| {
      SentAllIff(s0, acts);
      NeverStuck(s);
    }
  }

  lemma {:induction false} ChunkFixed(s: State, acts: seq<Action>)
    requires Possible(s, acts)
    ensures After(s, acts).chunk == s.chunk
    decreases |acts|
  {
    if acts != [] {
      ChunkFixed(Next(s, acts[0]), acts[1..]);
    }
  }

  /** One failed receive at the start, then one byte with chunks of one byte, as in the
      example: the total is 0, the byte is not echoed, and the client waits for ever. */
  lemma FailureCanLoseByte(b: Byte)
    ensures var acts := [ClientSends(1), ServerReceiveFails, ServerReceives(1)];
            && Possible(Initial([b], 1), acts)
            && After(Initial([b], 1), acts).lost == 1
            && !CanComplete(After(Initial([b], 1), acts))
  {
    var s0 := Initial([b], 1);
    var s1 := Next(s0, ClientSends(1));
    var s2 := Next(s1, ServerReceiveFails);
    var s3 := Next(s2, ServerReceives(1));
    assert Possible(s3, []);
    PossibleCons(s2, ServerReceives(1), []);
    assert [ServerReceives(1)] + [] == [ServerReceives(1)];
    PossibleCons(s1, ServerReceiveFails, [ServerReceives(1)]);
    PossibleCons(s0, ClientSends(1), [ServerReceiveFails] + [ServerReceives(1)]);
    var acts := [ClientSends(1), ServerReceiveFails, ServerReceives(1)];
    assert acts == [ClientSends(1)] + ([ServerReceiveFails] + [ServerReceives(1)]);
    CompletionIff([b], 1, acts);
  }
}
