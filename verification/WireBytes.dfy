/** Fixed-width integers and strings on the wire (IProtocolMessage.h).  Integers are little-endian
    two's complement; the class comment there says big endian, the code swaps to little endian. */
module WireBytes {
  import opened Division
  import opened Wrappers

  type byte = x: int | 0 <= x < 0x100

  type int16 = x: int | -0x8000 <= x < 0x8000

  type int32 = x: int | -0x8000_0000 <= x < 0x8000_0000

  type int64 = x: int | -0x8000_0000_0000_0000 <= x < 0x8000_0000_0000_0000

  /** A float travels as the 32 bits of its representation. */
  type float32 = int32

  /** A std::string: any bytes, NUL included. */
  type text = seq<byte>

  /** What a read took from the front of a stream, and what it left. */
  datatype Got<+T> = Got(value: T, rest: seq<byte>)

  // ---------- integers ----------

  function Pow256(n: nat): (p: int)
    ensures p > 0
  {
    if n == 0 then 1 else 256 * Pow256(n - 1)
  }

  /** `n` bytes of `v`, lowest first: every step keeps the low byte and shifts right, which on a
      signed value rounds down.  Higher bits are cut off. */
  function Bytes(v: int, n: nat): (b: seq<byte>)
    ensures |b| == n
    decreases n
  {
    if n == 0 then [] else [v % 256] + Bytes(v / 256, n - 1)
  }

  function Unsigned(b: seq<byte>): (u: nat) {
    if b == [] then 0 else b[0] + 256 * Unsigned(b[1..])
  }

  const TWO16 := 0x1_0000
  const TWO32 := 0x1_0000_0000
  const TWO64 := 0x1_0000_0000_0000_0000

  /** Bytes read as a two's complement number; `m` is 2 to the number of bits. */
  function Signed(b: seq<byte>, m: int): int {
    var u := Unsigned(b);
    if 2 * u >= m then u - m else u
  }

  lemma ModuloStep(v: int, m: int)
    requires m > 0
    ensures v % (256 * m) == v % 256 + 256 * ((v / 256) % m)
  {
    var q, r := (v / 256) / m, (v / 256) % m;
    assert v == (256 * m) * q + (v % 256 + 256 * r) by {
      assert v / 256 == m * q + r;
      assert 256 * (m * q) == (256 * m) * q;
    }
    DivideUniquely(v, 256 * m, q, v % 256 + 256 * r);
  }

  lemma {:induction false} UnsignedBytes(v: int, n: nat)
    ensures Unsigned(Bytes(v, n)) == v % Pow256(n)
    decreases n
  {
    if n > 0 {
      UnsignedBytes(v / 256, n - 1);
      ModuloStep(v, Pow256(n - 1));
    }
  }

  lemma {:induction false} UnsignedBound(b: seq<byte>)
    ensures Unsigned(b) < Pow256(|b|)
  {
    if b != [] {
      UnsignedBound(b[1..]);
    }
  }

  /** Reading what was written gives the number back exactly when it fits in `n` bytes. */
  lemma SignedBytes(v: int, n: nat)
    ensures Signed(Bytes(v, n), Pow256(n)) == v <==> -Pow256(n) <= 2 * v < Pow256(n)
  {
    UnsignedBytes(v, n);
    SignedModulo(v, Pow256(n));
  }

  lemma SignedModulo(v: int, p: int)
    requires p > 0
    ensures 0 <= v % p < p
    ensures 0 <= 2 * v < p ==> v % p == v
    ensures -p <= 2 * v < 0 ==> v % p == v + p
  {
    if 0 <= 2 * v < p {
      DivideUniquely(v, p, 0, v);
    } else if -p <= 2 * v < 0 {
      DivideUniquely(v, p, -1, v + p);
    }
  }

  /** Every `n` bytes are the bytes of the number they are read as. */
  lemma {:induction false} BytesModulo(b: seq<byte>, v: int, k: int)
    requires v == Unsigned(b) + k * Pow256(|b|)
    ensures Bytes(v, |b|) == b
    decreases b
  {
    if b != [] {
      var m := Pow256(|b| - 1);
      var w := Unsigned(b[1..]) + k * m;
      assert v == 256 * w + b[0] by {
        assert k * (256 * m) == 256 * (k * m);
      }
      DivideUniquely(v, 256, w, b[0]);
      BytesModulo(b[1..], w, k);
    }
  }

  lemma BytesSigned(b: seq<byte>)
    ensures Bytes(Signed(b, Pow256(|b|)), |b|) == b
  {
    BytesModulo(b, Signed(b, Pow256(|b|)), if 2 * Unsigned(b) >= Pow256(|b|) then -1 else 0);
  }

  lemma Widths()
    ensures Pow256(2) == TWO16 && Pow256(4) == TWO32 && Pow256(8) == TWO64
  {
    assert Pow256(2) == 256 * Pow256(1);
    assert Pow256(4) == 256 * (256 * Pow256(2));
    assert Pow256(6) == 256 * (256 * Pow256(4));
    assert Pow256(8) == 256 * (256 * Pow256(6));
  }

  lemma SignedRange(b: seq<byte>)
    ensures -Pow256(|b|) <= 2 * Signed(b, Pow256(|b|)) < Pow256(|b|)
  {
    UnsignedBound(b);
  }

  // ---------- which byte is where ----------

  lemma DivideTwice(v: int, m: int)
    requires m > 0
    ensures (v / 256) / m == v / (256 * m)
  {
    var q, s := (v / 256) / m, (v / 256) % m;
    assert v == (256 * m) * q + (256 * s + v % 256) by {
      assert v / 256 == m * q + s;
      assert 256 * (m * q) == (256 * m) * q;
    }
    DivideUniquely(v, 256 * m, q, 256 * s + v % 256);
  }

  /** Byte number `i` holds the bits of `v` from number 8 * i on: the lowest byte comes first. */
  lemma {:induction false} BytesAt(v: int, n: nat, i: nat)
    requires i < n
    ensures Bytes(v, n)[i] == (v / Pow256(i)) % 256
    decreases n
  {
    if i > 0 {
      BytesAt(v / 256, n - 1, i - 1);
      DivideTwice(v, Pow256(i - 1));
    }
  }

  /** Reading puts the bytes back to where they came from. */
  lemma UnsignedAt(b: seq<byte>, i: nat)
    requires i < |b|
    ensures (Unsigned(b) / Pow256(i)) % 256 == b[i]
  {
    BytesModulo(b, Unsigned(b), 0);
    BytesAt(Unsigned(b), |b|, i);
  }

  lemma Powers()
    ensures Pow256(0) == 1 && Pow256(1) == 0x100 && Pow256(2) == 0x1_0000 && Pow256(3) == 0x100_0000
    ensures Pow256(4) == 0x1_0000_0000 && Pow256(5) == 0x100_0000_0000
    ensures Pow256(6) == 0x1_0000_0000_0000 && Pow256(7) == 0x100_0000_0000_0000
  {
    assert Pow256(2) == 256 * Pow256(1);
    assert Pow256(4) == 256 * (256 * Pow256(2));
    assert Pow256(6) == 256 * (256 * Pow256(4));
  }

  /** The two bytes of a short, as they are pushed. */
  function ShortOnWire(v: int): seq<byte> {
    [v % 256, (v / 0x100) % 256]
  }

  function IntOnWire(v: int): seq<byte> {
    [v % 256, (v / 0x100) % 256, (v / 0x1_0000) % 256, (v / 0x100_0000) % 256]
  }

  function LongOnWire(v: int): seq<byte> {
    [v % 256, (v / 0x100) % 256, (v / 0x1_0000) % 256, (v / 0x100_0000) % 256,
     (v / 0x1_0000_0000) % 256, (v / 0x100_0000_0000) % 256,
     (v / 0x1_0000_0000_0000) % 256, (v / 0x100_0000_0000_0000) % 256]
  }

  lemma OnWire(v: int)
    ensures Bytes(v, 2) == ShortOnWire(v) && Bytes(v, 4) == IntOnWire(v) && Bytes(v, 8) == LongOnWire(v)
  {
    Powers();
    forall n: nat, i: nat | i < n ensures Bytes(v, n)[i] == (v / Pow256(i)) % 256 { BytesAt(v, n, i); }
    assert forall i :: 0 <= i < 2 ==> Bytes(v, 2)[i] == ShortOnWire(v)[i];
    assert forall i :: 0 <= i < 4 ==> Bytes(v, 4)[i] == IntOnWire(v)[i];
    assert forall i :: 0 <= i < 8 ==> Bytes(v, 8)[i] == LongOnWire(v)[i];
  }

  function Digit(b: seq<byte>, i: nat): int
    requires i < |b|
  {
    b[i]
  }

  /** What two, four and eight bytes are read as, by the weight of each byte; the highest bit is the sign. */
  function ShortValue(b: seq<byte>): int
    requires |b| == 2
  {
    Digit(b, 0) + 0x100 * Digit(b, 1) - if b[1] < 128 then 0 else 0x1_0000
  }

  function IntValue(b: seq<byte>): int
    requires |b| == 4
  {
    Digit(b, 0) + 0x100 * Digit(b, 1) + 0x1_0000 * Digit(b, 2) + 0x100_0000 * Digit(b, 3)
    - if b[3] < 128 then 0 else 0x1_0000_0000
  }

  function LongValue(b: seq<byte>): int
    requires |b| == 8
  {
    Digit(b, 0) + 0x100 * Digit(b, 1) + 0x1_0000 * Digit(b, 2) + 0x100_0000 * Digit(b, 3)
    + 0x1_0000_0000 * Digit(b, 4) + 0x100_0000_0000 * Digit(b, 5)
    + 0x1_0000_0000_0000 * Digit(b, 6) + 0x100_0000_0000_0000 * Digit(b, 7)
    - if b[7] < 128 then 0 else 0x1_0000_0000_0000_0000
  }

  lemma OffWire(b: seq<byte>)
    ensures |b| == 2 ==> Signed(b, TWO16) == ShortValue(b)
    ensures |b| == 4 ==> Signed(b, TWO32) == IntValue(b)
    ensures |b| == 8 ==> Signed(b, TWO64) == LongValue(b)
  {
    if |b| == 2 { TwoBytes(b); }
    if |b| == 4 { FourBytes(b); }
    if |b| == 8 {
      FourBytes(b[..4]);
      FourBytes(b[4..]);
      SplitFour(b);
    }
  }

  lemma TwoBytes(b: seq<byte>)
    requires |b| >= 2
    ensures Unsigned(b) == Digit(b, 0) + 0x100 * Digit(b, 1) + 0x1_0000 * Unsigned(b[2..])
  {
    assert b[1..][1..] == b[2..];
    assert Unsigned(b[1..]) == b[1] + 256 * Unsigned(b[2..]);
  }

  lemma SplitFour(b: seq<byte>)
    requires |b| >= 4
    ensures Unsigned(b) == Unsigned(b[..4]) + 0x1_0000_0000 * Unsigned(b[4..])
  {
    TwoBytes(b);
    TwoBytes(b[2..]);
    assert b[2..][2..] == b[4..];
    FourBytes(b[..4]);
  }

  lemma FourBytes(b: seq<byte>)
    requires |b| == 4
    ensures Unsigned(b) == Digit(b, 0) + 0x100 * Digit(b, 1) + 0x1_0000 * Digit(b, 2) + 0x100_0000 * Digit(b, 3)
  {
    TwoBytes(b);
    TwoBytes(b[2..]);
  }

  function ReadShort(b: seq<byte>): (r: Option<Got<int16>>) {
    if |b| < 2 then None else
      SignedRange(b[..2]); Widths();
      Some(Got(Signed(b[..2], TWO16), b[2..]))
  }

  function ReadInt(b: seq<byte>): (r: Option<Got<int32>>) {
    if |b| < 4 then None else
      SignedRange(b[..4]); Widths();
      Some(Got(Signed(b[..4], TWO32), b[4..]))
  }

  function ReadLong(b: seq<byte>): (r: Option<Got<int64>>) {
    if |b| < 8 then None else
      SignedRange(b[..8]); Widths();
      Some(Got(Signed(b[..8], TWO64), b[8..]))
  }

  function ReadByte(b: seq<byte>): Option<Got<byte>> {
    if b == [] then None else Some(Got(b[0], b[1..]))
  }

  /** readBool: only the byte 1 is true. */
  function ReadBool(b: seq<byte>): Option<Got<bool>> {
    if b == [] then None else Some(Got(b[0] == 1, b[1..]))
  }

  function BoolByte(v: bool): byte {
    if v then 1 else 0
  }

  lemma ShortRoundTrip(v: int, rest: seq<byte>)
    ensures ReadShort(Bytes(v, 2) + rest) == Some(Got(v, rest)) <==> -0x8000 <= v < 0x8000
    ensures ReadShort(Bytes(v, 2) + rest).Some? && ReadShort(Bytes(v, 2) + rest).value.rest == rest
  {
    var b := Bytes(v, 2) + rest;
    assert b[..2] == Bytes(v, 2) && b[2..] == rest;
    SignedBytes(v, 2);
    Widths();
  }

  lemma IntRoundTrip(v: int, rest: seq<byte>)
    ensures ReadInt(Bytes(v, 4) + rest) == Some(Got(v, rest)) <==> -0x8000_0000 <= v < 0x8000_0000
    ensures ReadInt(Bytes(v, 4) + rest).Some? && ReadInt(Bytes(v, 4) + rest).value.rest == rest
  {
    var b := Bytes(v, 4) + rest;
    assert b[..4] == Bytes(v, 4) && b[4..] == rest;
    SignedBytes(v, 4);
    Widths();
  }

  lemma LongRoundTrip(v: int64, rest: seq<byte>)
    ensures ReadLong(Bytes(v, 8) + rest) == Some(Got(v, rest))
  {
    var b := Bytes(v, 8) + rest;
    assert b[..8] == Bytes(v, 8) && b[8..] == rest;
    SignedBytes(v, 8);
    Widths();
  }

  // ---------- strings ----------

  function TextBytes(s: text): seq<byte> {
    s + [0]
  }

  /** readString: up to the first NUL, which is taken too. */
  function ReadText(b: seq<byte>): (r: Option<Got<text>>)
    ensures r.Some? ==> |r.value.rest| < |b| && 0 !in r.value.value
  {
    if b == [] then None
    else if b[0] == 0 then Some(Got([], b[1..]))
    else
      match ReadText(b[1..])
      case None => None
      case Some(Got(s, rest)) => Some(Got([b[0]] + s, rest))
  }

  /** A string ends before the first NUL, and without a NUL there is none. */
  lemma {:induction false} TextUpToNul(b: seq<byte>)
    ensures match ReadText(b)
            case None => 0 !in b
            case Some(Got(s, rest)) => 0 !in s && b == s + [0] + rest
  {
    if b != [] && b[0] != 0 {
      TextUpToNul(b[1..]);
      assert b == [b[0]] + b[1..];
    }
  }

  /** A string comes back exactly when it holds no NUL. */
  lemma {:induction false} TextRoundTrip(s: text, rest: seq<byte>)
    ensures ReadText(TextBytes(s) + rest) == Some(Got(s, rest)) <==> 0 !in s
  {
    var b := TextBytes(s) + rest;
    if s != [] && s[0] != 0 {
      TextRoundTrip(s[1..], rest);
      assert b[1..] == TextBytes(s[1..]) + rest;
      assert s == [s[0]] + s[1..];
      if 0 !in s {
        assert 0 !in s[1..];
      }
    } else if s == [] {
      assert b[1..] == rest;
    }
  }
}
