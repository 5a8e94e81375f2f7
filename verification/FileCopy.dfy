/** CSimpleSocket::SendFile, which copies part of a file to a descriptor in blocks. */
module FileCopy {
  import opened Posix
  import opened Retry

  const BLOCK_SIZE: nat := 8192

  /** The copying loop from the point where `sent` bytes are counted as copied: the final
      count, or None where the source returns -1. */
  function Pump(env: Env, out: int, sent: int, count: int): (Env, Option<int>)
    decreases count - sent
  {
    if sent >= count then (env, Some(sent))
    else
      var n := Min(count - sent, BLOCK_SIZE);
      var (e1, got) := ReadCall(env, n);
      if got.None? || |got.value| != n then (e1, None)
      else
        var (e2, t) := Attempt(e1, out, SendRequest(got.value), 0);
        if t.result != n then (e2, None) else Pump(e2, out, sent + n, count)
  }

  /** `finished` tells a run to the end, which alone translates `errno`, from an early return. */
  datatype Copied = Copied(env: Env, ret: int, offset: int, finished: bool)

  /** SendFile with its counter started at `start`: the code starts at -1 (SocketError), the
      documentation describes a start at 0. */
  function SendFileFrom(start: int, env: Env, out: int, offset: int, count: int): Copied {
    var (e1, ok) := SeekCall(env, offset);
    if !ok then Copied(e1, -1, offset, false)
    else
      var (e2, r) := Pump(e1, out, start, count);
      if r.None? then Copied(e2, -1, offset, false) else Copied(e2, r.value, offset + r.value, true)
  }

  function SendFile(env: Env, out: int, offset: int, count: int): Copied {
    SendFileFrom(-1, env, out, offset, count)
  }

  function DocumentedSendFile(env: Env, out: int, offset: int, count: int): Copied {
    SendFileFrom(0, env, out, offset, count)
  }

  // --- The loop

  /** `k` bytes of the file from position `p`; nothing if the file is too short. */
  function Segment(file: seq<Byte>, p: int, k: int): seq<Byte> {
    if 0 <= p && 0 <= k && p + k <= |file| then file[p..p + k] else []
  }

  function BlocksFor(n: int): nat {
    if n <= 0 then 0 else 1 + BlocksFor(n - BLOCK_SIZE)
  }

  /** One block: a full read, then a send.  The bytes accepted are the front of what was read. */
  lemma OneBlock(env: Env, n: nat)
    requires 0 < n <= BLOCK_SIZE
    ensures var (e1, got) := ReadCall(env, n);
            got.Some? && |got.value| == n ==>
              && env.filePos + n <= |env.file|
              && got.value == Segment(env.file, env.filePos, n)
              && e1 == env.(script := e1.script, filePos := env.filePos + n)
    ensures var (e1, got) := ReadCall(env, n);
            got.None? || |got.value| != n ==> e1.io == env.io && e1.file == env.file
  {
  }

  lemma SendBlock(env: Env, out: int, data: seq<Byte>)
    ensures var (e, t) := Attempt(env, out, SendRequest(data), 0);
            && -1 <= t.result <= |data|
            && WireOf(e.io, out) == WireOf(env.io, out) + data[..if t.result < 0 then 0 else t.result]
            && e == env.(errno := e.errno, script := e.script, io := env.io + [Io(out, t)])
            && |t.data| <= |data|
  {
    var (e, t) := Attempt(env, out, SendRequest(data), 0);
    TraceSnoc(env.io, Io(out, t), out);
  }

  /** What the loop has put on the wire when it ends, either way. */
  ghost predicate Emitted(env: Env, e: Env, out: int, k: int) {
    k >= 0 && WireOf(e.io, out) == WireOf(env.io, out) + Segment(env.file, env.filePos, k)
  }

  /** Everything since `env` was sent to `out` in blocks of at most BLOCK_SIZE bytes. */
  ghost predicate SmallBlocks(env: Env, e: Env, out: int) {
    && env.io <= e.io
    && forall i :: |env.io| <= i < |e.io| ==>
         e.io[i].fd == out && e.io[i].attempt.request.SendRequest? && |e.io[i].attempt.request.data| <= BLOCK_SIZE
  }

  lemma SmallBlocksFrom(env: Env, mid: Env, e: Env, out: int)
    requires mid.io == env.io
    ensures SmallBlocks(mid, e, out) ==> SmallBlocks(env, e, out)
    ensures e.io == env.io ==> SmallBlocks(env, e, out)
  {
  }

  lemma EmittedCons(env: Env, mid: Env, e: Env, out: int, n: nat, k: int)
    requires env.filePos + n + k <= |env.file| || k == 0
    requires env.filePos + n <= |env.file|
    requires Emitted(env, mid, out, n) && Emitted(mid, e, out, k)
    requires mid.file == env.file && mid.filePos == env.filePos + n
    ensures Emitted(env, e, out, n + k)
  {
    hide WireOf;
    var f, p := env.file, env.filePos;
    assert Segment(f, p, n) + Segment(f, p + n, k) == Segment(f, p, n + k);
    assert (WireOf(env.io, out) + Segment(f, p, n)) + Segment(f, p + n, k)
        == WireOf(env.io, out) + (Segment(f, p, n) + Segment(f, p + n, k));
  }

  lemma SmallBlocksTransitive(env: Env, mid: Env, e: Env, out: int)
    requires SmallBlocks(env, mid, out) && SmallBlocks(mid, e, out)
    ensures SmallBlocks(env, e, out)
  {
  }

  /** One block that was read in full: the send puts a front of it on the wire. */
  lemma CopyBlock(env: Env, out: int, n: nat)
    requires 0 < n <= BLOCK_SIZE && ReadCall(env, n).1.Some? && |ReadCall(env, n).1.value| == n
    ensures var (e1, got) := ReadCall(env, n);
            var (e2, t) := Attempt(e1, out, SendRequest(got.value), 0);
            && -1 <= t.result <= n && env.filePos + n <= |env.file|
            && Emitted(env, e2, out, if t.result < 0 then 0 else t.result)
            && SmallBlocks(env, e2, out)
            && e2.file == env.file && e2.filePos == env.filePos + n && |e2.io| == |env.io| + 1
  {
    hide WireOf, Attempt, ReadCall;
    OneBlock(env, n);
    var (e1, got) := ReadCall(env, n);
    SendBlock(e1, out, got.value);
    var (e2, t) := Attempt(e1, out, SendRequest(got.value), 0);
    var k := if t.result < 0 then 0 else t.result;
    assert got.value[..k] == Segment(env.file, env.filePos, k);
  }

  lemma NothingCopied(env: Env, e: Env, out: int)
    requires e.io == env.io
    ensures Emitted(env, e, out, 0) && SmallBlocks(env, e, out)
  {
    assert WireOf(env.io, out) + [] == WireOf(env.io, out);
  }

  /** On success the loop has emitted exactly the next count - sent bytes of the file, in the
      least number of blocks; on failure a prefix of them. */
  lemma {:induction false} PumpEmits(env: Env, out: int, sent: int, count: int) returns (k: int)
    requires sent <= count
    ensures var (e, r) := Pump(env, out, sent, count);
            && 0 <= k <= count - sent
            && (k == 0 || env.filePos + k <= |env.file|)
            && Emitted(env, e, out, k)
            && e.file == env.file
            && SmallBlocks(env, e, out)
            && (r.Some? ==>
                  && r.value == count && k == count - sent
                  && e.filePos == env.filePos + k
                  && |e.io| == |env.io| + BlocksFor(k))
    decreases count - sent
  {
    hide WireOf, Attempt, ReadCall, SmallBlocks, Emitted, Segment;
    k := 0;
    var (e, r) := Pump(env, out, sent, count);
    if sent == count {
      NothingCopied(env, env, out);
    } else {
      var n := Min(count - sent, BLOCK_SIZE);
      OneBlock(env, n);
      var (e1, got) := ReadCall(env, n);
      if got.Some? && |got.value| == n {
        CopyBlock(env, out, n);
        var (e2, t) := Attempt(e1, out, SendRequest(got.value), 0);
        if t.result == n {
          var rest := PumpEmits(e2, out, sent + n, count);
          EmittedCons(env, e2, e, out, n, rest);
          SmallBlocksTransitive(env, e2, e, out);
          k := n + rest;
          BlocksStep(count - sent);
        } else {
          k := if t.result < 0 then 0 else t.result;
        }
      } else {
        NothingCopied(env, e1, out);
      }
    }
  }

  /** A run of the loop to its end meets no failure. */
  lemma {:induction false} PumpKeepsErrno(env: Env, out: int, sent: int, count: int)
    ensures var (e, r) := Pump(env, out, sent, count);
            r.Some? ==> e.errno == env.errno && (sent <= count ==> r.value == count)
    decreases count - sent
  {
    hide Attempt, ReadCall;
    if sent < count {
      var n := Min(count - sent, BLOCK_SIZE);
      var (e1, got) := ReadCall(env, n);
      ReadErrno(env, n);
      if got.Some? && |got.value| == n {
        PumpKeepsErrno(Attempt(e1, out, SendRequest(got.value), 0).0, out, sent + n, count);
      }
    }
  }

  lemma ReadErrno(env: Env, n: nat)
    ensures ReadCall(env, n).1.Some? ==> ReadCall(env, n).0.errno == env.errno
  {
  }

  /** The number of blocks is the number of bytes divided by 8192, rounded up. */
  lemma {:induction false} BlocksForIs(n: nat)
    ensures BlocksFor(n) == (n + 8191) / 8192
    decreases n
  {
    if n > BLOCK_SIZE {
      BlocksForIs(n - BLOCK_SIZE);
    } else if n > 0 {
      assert BlocksFor(n - BLOCK_SIZE) == 0;
    }
  }

  lemma BlocksStep(n: int)
    requires n > 0
    ensures BlocksFor(n) == 1 + BlocksFor(n - Min(n, BLOCK_SIZE))
  {
    if n <= BLOCK_SIZE {
      assert BlocksFor(n - BLOCK_SIZE) == 0 == BlocksFor(0);
    }
  }

  // --- SendFile as written and as documented

  lemma SeekEffect(env: Env, offset: int)
    ensures var (e, ok) := SeekCall(env, offset);
            && e.io == env.io && e.file == env.file
            && (ok ==> offset >= 0 && e.filePos == offset)
  {
  }

  /** For either start and a non-negative count: success returns the count, advances the
      offset by it and has emitted count - start bytes from the old offset; failure returns
      -1, keeps the offset and has emitted a prefix of them. */
  lemma SendFileOutcome(start: int, env: Env, out: int, offset: int, count: int) returns (k: int)
    requires (start == -1 || start == 0) && 0 <= count < 0x7FFF_FFFF
    ensures var c := SendFileFrom(start, env, out, offset, count);
            && 0 <= k <= count - start
            && (k == 0 || (0 <= offset && offset + k <= |env.file|))
            && WireOf(c.env.io, out) == WireOf(env.io, out) + Segment(env.file, offset, k)
            && SmallBlocks(env, c.env, out)
            && (c.ret == count || c.ret == -1)
            && (c.ret == count ==>
                  && c.offset == offset + count && k == count - start
                  && |c.env.io| == |env.io| + BlocksFor(count - start))
            && (c.ret == -1 ==> c.offset == offset)
  {
    hide WireOf, SmallBlocks, BlocksFor, Pump, SeekCall;
    SeekEffect(env, offset);
    var (e1, ok) := SeekCall(env, offset);
    SmallBlocksFrom(env, e1, SendFileFrom(start, env, out, offset, count).env, out);
    if ok {
      k := PumpEmits(e1, out, start, count);
      var (e2, r) := Pump(e1, out, start, count);
      assert SendFileFrom(start, env, out, offset, count)
          == if r.None? then Copied(e2, -1, offset, false) else Copied(e2, count, offset + count, true);
    } else {
      k := 0;
      assert WireOf(env.io, out) + [] == WireOf(env.io, out);
      assert Segment(env.file, offset, 0) == [];
    }
  }

  /** SendFile runs to its end iff it succeeds, and has then met no failure. */
  lemma FinishedCopy(env: Env, out: int, offset: int, count: int)
    requires 0 <= count < 0x7FFF_FFFF
    ensures var c := SendFile(env, out, offset, count);
            && c.ret == (if c.finished then count else -1)
            && (c.finished ==> c.env.errno == env.errno)
  {
    hide Pump;
    var (e1, ok) := SeekCall(env, offset);
    SeekErrno(env, offset);
    var (e2, r) := Pump(e1, out, -1, count);
    PumpKeepsErrno(e1, out, -1, count);
    assert SendFile(env, out, offset, count)
        == if !ok then Copied(e1, -1, offset, false)
           else if r.None? then Copied(e2, -1, offset, false)
           else Copied(e2, r.value, offset + r.value, true);
  }

  lemma SeekErrno(env: Env, offset: int)
    ensures SeekCall(env, offset).1 ==> SeekCall(env, offset).0.errno == env.errno
  {
  }

  /** The code as written sends one byte more than it was asked for and reports. */
  lemma SendFileSendsOneMore(env: Env, out: int, offset: int, count: int)
    requires 0 <= count < 0x7FFF_FFFF && SendFile(env, out, offset, count).ret == count
    ensures var c := SendFile(env, out, offset, count);
            && 0 <= offset && offset + count + 1 <= |env.file|
            && WireOf(c.env.io, out) == WireOf(env.io, out) + env.file[offset..offset + count + 1]
            && c.offset == offset + count
  {
    hide SendFileFrom, SmallBlocks, WireOf;
    var k := SendFileOutcome(-1, env, out, offset, count);
  }

  /** So copying up to the end of a file never succeeds, whatever the system answers. */
  lemma WholeFileNeverSucceeds(env: Env, out: int, offset: int, count: int)
    requires 0 <= count < 0x7FFF_FFFF && offset + count >= |env.file|
    ensures SendFile(env, out, offset, count).ret == -1
  {
    hide SendFileFrom, SmallBlocks, WireOf;
    var k := SendFileOutcome(-1, env, out, offset, count);
  }

  /** A negative count copies nothing, returns -1 and moves the offset back by one. */
  lemma NegativeCountMovesOffset(env: Env, out: int, offset: int, count: int)
    requires count < 0
    ensures var c := SendFile(env, out, offset, count);
            && c.ret == -1 && c.env.io == env.io
            && c.offset == if SeekCall(env, offset).1 then offset - 1 else offset
  {
  }

  /** The system grants every call in full and does not run out of answers. */
  ghost predicate Cooperative(env: Env, out: int, calls: int) {
    && out in env.open
    && calls <= |env.script|
    && forall i :: 0 <= i < |env.script| ==> env.script[i].Ok? && env.script[i].n >= BLOCK_SIZE
  }

  lemma CooperativeBlock(env: Env, out: int, n: nat, calls: int)
    requires 0 < n <= BLOCK_SIZE && Cooperative(env, out, calls) && calls >= 2
    ensures var (e1, got) := ReadCall(env, n);
            && (got.Some? && |got.value| == n <==> env.filePos + n <= |env.file|)
            && (got.Some? && |got.value| == n ==>
                  var (e2, t) := Attempt(e1, out, SendRequest(got.value), 0);
                  && t.result == n && e2.file == env.file && e2.filePos == env.filePos + n
                  && Cooperative(e2, out, calls - 2))
  {
    assert env.script[0].Ok? && env.script[0].n >= BLOCK_SIZE;
    assert env.script[1].Ok? && env.script[1].n >= BLOCK_SIZE;
    var (e1, got) := ReadCall(env, n);
    assert e1.script == env.script[1..];
    if got.Some? && |got.value| == n {
      var (e2, t) := Attempt(e1, out, SendRequest(got.value), 0);
      assert e2.script == env.script[1..][1..];
      assert forall i :: 0 <= i < |e2.script| ==> e2.script[i] == env.script[i + 2];
    }
  }

  lemma {:induction false} PumpSucceedsIff(env: Env, out: int, sent: int, count: int)
    requires sent <= count && Cooperative(env, out, 2 * (count - sent))
    ensures Pump(env, out, sent, count).1.Some? <==> sent == count || env.filePos + (count - sent) <= |env.file|
    decreases count - sent
  {
    hide Attempt, ReadCall, Cooperative;
    if sent < count {
      var n := Min(count - sent, BLOCK_SIZE);
      CooperativeBlock(env, out, n, 2 * (count - sent));
      var (e1, got) := ReadCall(env, n);
      if got.Some? && |got.value| == n {
        var (e2, t) := Attempt(e1, out, SendRequest(got.value), 0);
        CooperativeLess(e2, out, 2 * (count - sent) - 2, 2 * (count - sent - n));
        PumpSucceedsIff(e2, out, sent + n, count);
      }
    }
  }

  lemma CooperativeLess(env: Env, out: int, more: int, less: int)
    requires Cooperative(env, out, more) && less <= more
    ensures Cooperative(env, out, less)
  {
  }

  /** With a cooperative system the copy succeeds iff the file has the bytes it reads, which
      is one byte too many for the code as written. */
  lemma SendFileSucceedsIff(start: int, env: Env, out: int, offset: int, count: int)
    requires (start == -1 || start == 0) && 0 <= count < 0x7FFF_FFFF && offset >= 0
    requires Cooperative(env, out, 1 + 2 * (count - start))
    ensures SendFileFrom(start, env, out, offset, count).ret == count <==>
              offset + (count - start) <= |env.file| || count == start
  {
    assert env.script[0].Ok?;
    var (e1, ok) := SeekCall(env, offset);
    assert forall i :: 0 <= i < |e1.script| ==> e1.script[i] == env.script[i + 1];
    PumpSucceedsIff(e1, out, start, count);
    var k := SendFileOutcome(start, env, out, offset, count);
  }

  /** Two documented copies, the second from the offset the first one left, send what one copy
      of the sum sends. */
  lemma DocumentedComposes(env: Env, env2: Env, env3: Env, out: int, offset: int, a: int, b: int)
    requires 0 <= a && 0 <= b && a + b < 0x7FFF_FFFF
    requires env2.file == env.file == env3.file
    requires env2.io == DocumentedSendFile(env, out, offset, a).env.io && env3.io == env.io
    requires DocumentedSendFile(env, out, offset, a).ret == a
    requires DocumentedSendFile(env2, out, offset + a, b).ret == b
    requires DocumentedSendFile(env3, out, offset, a + b).ret == a + b
    ensures var first := DocumentedSendFile(env, out, offset, a);
            var second := DocumentedSendFile(env2, out, first.offset, b);
            var whole := DocumentedSendFile(env3, out, offset, a + b);
            WireOf(second.env.io, out) == WireOf(whole.env.io, out) && second.offset == whole.offset
  {
    hide WireOf, SendFileFrom, SmallBlocks, BlocksFor, Segment;
    var k1 := SendFileOutcome(0, env, out, offset, a);
    var k2 := SendFileOutcome(0, env2, out, offset + a, b);
    var k3 := SendFileOutcome(0, env3, out, offset, a + b);
    var w := WireOf(env.io, out);
    SegmentsJoin(env.file, offset, a, b);
    Reassociate(w, Segment(env.file, offset, a), Segment(env.file, offset + a, b));
  }

  lemma SegmentsJoin(file: seq<Byte>, p: int, a: nat, b: nat)
    requires a == 0 || (0 <= p && p + a <= |file|)
    requires b == 0 || (0 <= p + a && p + a + b <= |file|)
    ensures Segment(file, p, a) + Segment(file, p + a, b) == Segment(file, p, a + b)
  {
  }

  /** The same two calls as written repeat the byte at the seam. */
  lemma WrittenRepeatsByte(env: Env, env2: Env, out: int, offset: int, a: int, b: int)
    requires 0 <= a && 0 <= b && a + b < 0x7FFF_FFFF && env2.file == env.file
    ensures var first := SendFile(env, out, offset, a);
            var second := SendFile(env2, out, first.offset, b);
            env2.io == first.env.io && first.ret == a && second.ret == b ==>
              && 0 <= offset && offset + a + b + 1 <= |env.file|
              && WireOf(second.env.io, out) == WireOf(env.io, out)
                   + env.file[offset..offset + a + 1] + [env.file[offset + a]] + env.file[offset + a + 1..offset + a + b + 1]
  {
    hide WireOf, SendFileFrom;
    var first := SendFile(env, out, offset, a);
    if env2.io == first.env.io && first.ret == a && SendFile(env2, out, first.offset, b).ret == b {
      SendFileSendsOneMore(env, out, offset, a);
      SendFileSendsOneMore(env2, out, offset + a, b);
      var f, o := env.file, offset + a;
      assert f[o..o + b + 1] == [f[o]] + f[o + 1..o + b + 1];
      var w := WireOf(env.io, out) + f[offset..o + 1];
      assert w + ([f[o]] + f[o + 1..o + b + 1]) == w + [f[o]] + f[o + 1..o + b + 1];
    }
  }
}
