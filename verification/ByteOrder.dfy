/** htonll and ntohll on a little-endian host, where htonl reverses four bytes. */
module ByteOrder {

  const TWO32: nat := 0x1_0000_0000
  const TWO64: nat := 0x1_0000_0000_0000_0000

  type Octet = b: int | 0 <= b < 256

  /** The `k` low bytes of `x` in memory order, least significant first. */
  function Bytes(x: nat, k: nat): (r: seq<Octet>)
    ensures |r| == k
  {
    if k == 0 then [] else [x % 256] + Bytes(x / 256, k - 1)
  }

  function FromBytes(s: seq<Octet>): nat {
    if s == [] then 0 else s[0] + 256 * FromBytes(s[1..])
  }

  function Reversed(s: seq<Octet>): (r: seq<Octet>)
    ensures |r| == |s|
  {
    seq(|s|, i requires 0 <= i < |s| => s[|s| - 1 - i])
  }

  /** htonl and ntohl; the argument is converted to 32 bits first. */
  function SwapLong(x: nat): nat {
    FromBytes(Reversed(Bytes(x % TWO32, 4)))
  }

  /** The macro body of htonll and of ntohll in 64-bit arithmetic. */
  function SwapLongLong(x: nat): nat {
    ((SwapLong(x) * TWO32) % TWO64 + SwapLong(x / TWO32)) % TWO64
  }

  lemma {:induction false} BytesOfFromBytes(s: seq<Octet>)
    ensures Bytes(FromBytes(s), |s|) == s
    decreases |s|
  {
    if s != [] {
      BytesOfFromBytes(s[1..]);
      assert FromBytes(s) % 256 == s[0] && FromBytes(s) / 256 == FromBytes(s[1..]);
    }
  }

  /** `x` has at most `k` significant bytes. */
  predicate Fits(x: nat, k: nat) {
    if k == 0 then x == 0 else Fits(x / 256, k - 1)
  }

  lemma {:induction false} FromBytesOfBytes(x: nat, k: nat)
    requires Fits(x, k)
    ensures FromBytes(Bytes(x, k)) == x
  {
    if k > 0 {
      FromBytesOfBytes(x / 256, k - 1);
      assert Bytes(x, k)[1..] == Bytes(x / 256, k - 1);
    }
  }

  lemma Fits4(x: nat)
    requires x < TWO32
    ensures Fits(x, 4)
  {
    var a := x / 256;
    var b := a / 256;
    var c := b / 256;
    assert c < 256 && Fits(c / 256, 0);
    assert Fits(c, 1) && Fits(b, 2) && Fits(a, 3);
  }

  lemma Fits8(x: nat)
    requires x < TWO64
    ensures Fits(x, 8)
  {
    var a := x / 256;
    var b := a / 256;
    var c := b / 256;
    var d := c / 256;
    assert d < TWO32;
    Fits4(d);
    assert Fits(c, 5) && Fits(b, 6) && Fits(a, 7);
  }

  lemma FromFour(s: seq<Octet>)
    requires |s| == 4
    ensures FromBytes(s) == s[0] as int + 0x100 * s[1] as int + 0x1_0000 * s[2] as int + 0x100_0000 * s[3] as int
    ensures FromBytes(s) < TWO32
  {
    assert s[1..][1..][1..][1..] == [];
    assert FromBytes(s[1..][1..][1..]) == s[3];
    assert FromBytes(s[1..][1..]) == s[2] as int + 256 * s[3] as int;
  }

  /** Four low bytes and the bytes above them. */
  lemma FromConcat(a: seq<Octet>, b: seq<Octet>)
    requires |a| == 4
    ensures FromBytes(a + b) == FromBytes(a) + TWO32 * FromBytes(b)
  {
    FromFour(a);
    var s := a + b;
    assert s[1..][1..][1..][1..] == b;
    assert FromBytes(s[1..][1..][1..]) == a[3] + 256 * FromBytes(b);
    assert FromBytes(s[1..][1..]) == a[2] + 256 * FromBytes(s[1..][1..][1..]);
    assert FromBytes(s[1..]) == a[1] + 256 * FromBytes(s[1..][1..]);
  }

  lemma Split(x: nat, low: nat, high: nat)
    requires x == low + TWO32 * high && low < TWO32
    ensures x % TWO32 == low && x / TWO32 == high
  {
  }

  /** The two halves of a 64-bit value are the two halves of its bytes. */
  lemma Halves(x: nat)
    requires x < TWO64
    ensures var b := Bytes(x, 8);
            Bytes(x % TWO32, 4) == b[..4] && Bytes(x / TWO32, 4) == b[4..] && x / TWO32 < TWO32
  {
    hide Bytes, FromBytes, Fits;
    var b := Bytes(x, 8);
    Fits8(x);
    FromBytesOfBytes(x, 8);
    assert b == b[..4] + b[4..];
    FromConcat(b[..4], b[4..]);
    FromFour(b[..4]);
    FromFour(b[4..]);
    Split(x, FromBytes(b[..4]), FromBytes(b[4..]));
    BytesOfFromBytes(b[..4]);
    BytesOfFromBytes(b[4..]);
  }

  /** The addition in the macro never carries, so `+` acts as a bitwise or, and the result is
      the exact reversal of the eight bytes. */
  lemma SwapReversesBytes(x: nat)
    requires x < TWO64
    ensures SwapLong(x) * TWO32 + SwapLong(x / TWO32) < TWO64 && SwapLong(x / TWO32) < TWO32
    ensures SwapLongLong(x) < TWO64
    ensures Bytes(SwapLongLong(x), 8) == Reversed(Bytes(x, 8))
  {
    hide FromBytes, Bytes;
    var b := Bytes(x, 8);
    Halves(x);
    var low, high := Reversed(b[..4]), Reversed(b[4..]);
    FromFour(low);
    FromFour(high);
    FromConcat(high, low);
    ReversedHalves(b);
    assert (x / TWO32) % TWO32 == x / TWO32;
    NoCarry(FromBytes(low), FromBytes(high));
    BytesOfFromBytes(Reversed(b));
  }

  lemma ReversedHalves(b: seq<Octet>)
    requires |b| == 8
    ensures Reversed(b[4..]) + Reversed(b[..4]) == Reversed(b)
  {
  }

  lemma NoCarry(high: nat, low: nat)
    requires high < TWO32 && low < TWO32
    ensures high * TWO32 + low < TWO64
    ensures ((high * TWO32) % TWO64 + low) % TWO64 == high * TWO32 + low
  {
  }

  /** htonll and ntohll undo each other, in either order since they are the same function. */
  lemma SwapRoundTrip(x: nat)
    requires x < TWO64
    ensures SwapLongLong(SwapLongLong(x)) == x
  {
    var y := SwapLongLong(x);
    SwapReversesBytes(x);
    SwapReversesBytes(y);
    assert Reversed(Reversed(Bytes(x, 8))) == Bytes(x, 8);
    Fits8(x);
    Fits8(SwapLongLong(y));
    FromBytesOfBytes(x, 8);
    FromBytesOfBytes(SwapLongLong(y), 8);
  }
}
