/**
 * CRC-32/ISO-HDLC as the configuration and update records use it (firmware/src/config/config.c).
 *
 * The 32-bit register is held as its bits, lowest first, so that exclusive-or is pointwise and a
 * right shift drops the first element.
 */
module Crc32 {
  import opened Bytes

  type Word = w: seq<bool> | |w| == 32 witness POLY

  /** 0xEDB88320, lowest bit first. */
  const POLY: seq<bool> := [
    false, false, false, false,  false, true, false, false,
    true, true, false, false,    false, false, false, true,
    false, false, false, true,   true, true, false, true,
    true, false, true, true,     false, true, true, true]

  function Repeated(b: bool): Word {
    seq(32, _ => b)
  }

  function Xor(a: Word, b: Word): Word {
    seq(32, i requires 0 <= i < 32 => a[i] != b[i])
  }

  /** One bit of the division: shift right, and subtract the polynomial if a one fell out. */
  function Shift(c: Word): Word {
    seq(32, i requires 0 <= i < 32 => (i < 31 && c[i + 1]) != (c[0] && POLY[i]))
  }

  function Shifts(c: Word, n: nat): Word
    decreases n
  {
    if n == 0 then c else Shifts(Shift(c), n - 1)
  }

  /** Byte `k` of a word, where a little-endian load would put it. */
  function Lane(b: byte, k: nat): Word
    requires k < 4
  {
    seq(32, i requires 0 <= i < 32 => 8 * k <= i < 8 * k + 8 && Bits(b)[i - 8 * k])
  }

  function ByteStep(c: Word, b: byte): Word {
    Shifts(Xor(c, Lane(b, 0)), |Bits(b)|)
  }

  function Register(c: Word, m: seq<byte>): Word
    decreases |m|
  {
    if m == [] then c else Register(ByteStep(c, m[0]), m[1..])
  }

  function Crc(m: seq<byte>): Word {
    Xor(Register(Repeated(true), m), Repeated(true))
  }

  /** The checksum as the number rw_crc32 returns. */
  function Value(m: seq<byte>): u32 {
    Pow2Of32();
    OfBits(Crc(m))
  }

  lemma Pow2Of32()
    ensures Pow2(32) == 0x1_0000_0000
  {
    Pow2Of8();
    assert Pow2(12) == 0x1000;
    assert Pow2(16) == 0x1_0000;
    assert Pow2(20) == 0x10_0000;
    assert Pow2(24) == 0x100_0000;
    assert Pow2(28) == 0x1000_0000;
  }

  lemma RegisterAt(c: Word, m: seq<byte>, i: nat)
    requires i < |m|
    ensures Register(c, m[i..]) == Register(ByteStep(c, m[i]), m[i + 1..])
  {
    assert m[i..][0] == m[i] && m[i..][1..] == m[i + 1..];
  }

  /** The inner loop of rw_crc32: one byte into the register, eight shifts. */
  method Absorb(c: Word, b: byte) returns (crc: Word)
    ensures crc == ByteStep(c, b)
  {
    crc := Xor(c, Lane(b, 0));
    for bit := 0 to |Bits(b)|
      invariant Shifts(crc, |Bits(b)| - bit) == ByteStep(c, b)
    {
      crc := Shift(crc);
    }
  }

  /** rw_crc32. */
  method Compute(data: seq<byte>) returns (crc: Word)
    ensures crc == Crc(data)
  {
    crc := Repeated(true);
    for i := 0 to |data|
      invariant Register(crc, data[i..]) == Register(Repeated(true), data)
    {
      RegisterAt(crc, data, i);
      crc := Absorb(crc, data[i]);
    }
    assert data[|data|..] == [];
    crc := Xor(crc, Repeated(true));
  }

  // The shift is linear and loses nothing

  lemma ShiftLinear(a: Word, b: Word)
    ensures Shift(Xor(a, b)) == Xor(Shift(a), Shift(b))
  {
  }

  /** The polynomial's top bit says whether a one fell out. */
  lemma ShiftInjective(a: Word, b: Word)
    requires Shift(a) == Shift(b)
    ensures a == b
  {
    assert Shift(a)[31] == Shift(b)[31];
    forall i | 0 < i < 32
      ensures a[i] == b[i]
    {
      assert Shift(a)[i - 1] == Shift(b)[i - 1];
    }
  }

  lemma {:induction false} ShiftsLinear(a: Word, b: Word, n: nat)
    ensures Shifts(Xor(a, b), n) == Xor(Shifts(a, n), Shifts(b, n))
    decreases n
  {
    if n > 0 {
      ShiftLinear(a, b);
      ShiftsLinear(Shift(a), Shift(b), n - 1);
    }
  }

  lemma {:induction false} ShiftsInjective(a: Word, b: Word, n: nat)
    requires Shifts(a, n) == Shifts(b, n)
    ensures a == b
    decreases n
  {
    if n > 0 {
      ShiftsInjective(Shift(a), Shift(b), n - 1);
      ShiftInjective(a, b);
    }
  }

  lemma {:induction false} ShiftsAdd(a: Word, m: nat, n: nat)
    ensures Shifts(Shifts(a, m), n) == Shifts(a, m + n)
    decreases m
  {
    if m > 0 {
      ShiftsAdd(Shift(a), m - 1, n);
    }
  }

  // Four byte steps are one word step

  /** Up to four bytes loaded as one word. */
  function Pack(m: seq<byte>): Word
    requires |m| <= 4
    decreases |m|
  {
    if m == [] then Repeated(false) else Xor(Pack(m[..|m| - 1]), Lane(m[|m| - 1], |m| - 1))
  }

  /** While the bits that fall out are zero, shifting only moves the rest down. */
  lemma {:induction false} ZerosFall(c: Word, n: nat)
    requires n <= 32 && forall i :: 0 <= i < n ==> !c[i]
    ensures forall i :: 0 <= i < 32 ==> Shifts(c, n)[i] == (i + n < 32 && c[i + n])
    decreases n
  {
    if n > 0 {
      var d := Shift(c);
      assert forall i :: 0 <= i < 31 ==> d[i] == c[i + 1];
      ZerosFall(d, n - 1);
      forall i | 0 <= i < 32
        ensures Shifts(c, n)[i] == (i + n < 32 && c[i + n])
      {
        assert Shifts(d, n - 1)[i] == (i + (n - 1) < 32 && d[i + (n - 1)]);
      }
    }
  }

  lemma LaneFallsOnce(b: byte, k: nat)
    requires 0 < k < 4
    ensures Shifts(Lane(b, k), 8) == Lane(b, k - 1)
  {
    ZerosFall(Lane(b, k), 8);
  }

  /** After k byte times, byte k has reached the position a byte step feeds. */
  lemma {:induction false} LaneFalls(b: byte, k: nat)
    requires k < 4
    ensures Shifts(Lane(b, k), 8 * k) == Lane(b, 0)
    decreases k
  {
    if k > 0 {
      LaneFallsOnce(b, k);
      LaneFalls(b, k - 1);
      ShiftsAdd(Lane(b, k), 8, 8 * (k - 1));
    }
  }

  lemma XorAssociative(a: Word, b: Word, c: Word)
    ensures Xor(Xor(a, b), c) == Xor(a, Xor(b, c))
  {
  }

  lemma XorCancel(c: Word, a: Word, b: Word)
    requires Xor(c, a) == Xor(c, b) || Xor(a, c) == Xor(b, c)
    ensures a == b
  {
    forall i | 0 <= i < 32
      ensures a[i] == b[i]
    {
      assert Xor(c, a)[i] == (c[i] != a[i]) && Xor(c, b)[i] == (c[i] != b[i]);
      assert Xor(a, c)[i] == (c[i] != a[i]) && Xor(b, c)[i] == (c[i] != b[i]);
    }
  }

  lemma {:induction false} RegisterConcat(c: Word, a: seq<byte>, b: seq<byte>)
    ensures Register(c, a + b) == Register(Register(c, a), b)
    decreases |a|
  {
    if a == [] {
      assert a + b == b;
    } else {
      assert (a + b)[0] == a[0] && (a + b)[1..] == a[1..] + b;
      RegisterConcat(ByteStep(c, a[0]), a[1..], b);
    }
  }

  lemma RegisterSnoc(c: Word, m: seq<byte>, b: byte)
    ensures Register(c, m + [b]) == ByteStep(Register(c, m), b)
  {
    RegisterConcat(c, m, [b]);
    assert [b][1..] == [];
    assert Register(Register(c, m), [b]) == Register(ByteStep(Register(c, m), b), []);
  }

  /** Byte-at-a-time over up to four bytes is one load, one xor and 8 shifts a byte. */
  lemma {:induction false} WordStep(c: Word, m: seq<byte>)
    requires |m| <= 4
    ensures Register(c, m) == Shifts(Xor(c, Pack(m)), 8 * |m|)
    decreases |m|
  {
    if m == [] {
      assert Xor(c, Repeated(false)) == c;
    } else {
      var k := |m| - 1;
      var init, b := m[..k], m[k];
      var x, lane := Xor(c, Pack(init)), Lane(b, k);
      assert m == init + [b];
      RegisterSnoc(c, init, b);
      WordStep(c, init);
      ByteAfterWord(x, b, k);
      XorAssociative(c, Pack(init), lane);
    }
  }

  /** A byte read after k others acts as if it had been in its lane from the start. */
  lemma ByteAfterWord(x: Word, b: byte, k: nat)
    requires k < 4
    ensures ByteStep(Shifts(x, 8 * k), b) == Shifts(Xor(x, Lane(b, k)), 8 * (k + 1))
  {
    var lane, n := Lane(b, k), 8 * k;
    calc {
      ByteStep(Shifts(x, n), b);
      { LaneFalls(b, k); }
      Shifts(Xor(Shifts(x, n), Shifts(lane, n)), |Bits(b)|);
      { ShiftsLinear(x, lane, n); }
      Shifts(Shifts(Xor(x, lane), n), |Bits(b)|);
      { ShiftsAdd(Xor(x, lane), n, |Bits(b)|); }
      Shifts(Xor(x, lane), n + 8);
    }
  }

  /** A packed word shows each of its bytes in that byte's lane, and nothing above them. */
  lemma {:induction false} PackLane(m: seq<byte>, j: nat, t: nat)
    requires |m| <= 4 && j < 4 && t < 8
    ensures Pack(m)[8 * j + t] == (j < |m| && Bits(m[j])[t])
    decreases |m|
  {
    if m != [] {
      var k := |m| - 1;
      PackLane(m[..k], j, t);
      assert Pack(m)[8 * j + t] == (Pack(m[..k])[8 * j + t] != Lane(m[k], k)[8 * j + t]);
      if j == k {
        assert Lane(m[k], k)[8 * j + t] == Bits(m[k])[t];
      } else {
        assert !Lane(m[k], k)[8 * j + t];
      }
    }
  }

  lemma PackedByte(m: seq<byte>, n: seq<byte>, j: nat)
    requires |m| == |n| <= 4 && j < |m|
    requires Pack(m) == Pack(n)
    ensures m[j] == n[j]
  {
    forall t | 0 <= t < 8
      ensures Bits(m[j])[t] == Bits(n[j])[t]
    {
      PackLane(m, j, t);
      PackLane(n, j, t);
    }
    FromBitsOfBits(m[j]);
    FromBitsOfBits(n[j]);
    assert Bits(m[j]) == Bits(n[j]);
  }

  lemma PackInjective(m: seq<byte>, n: seq<byte>)
    requires |m| == |n| <= 4
    requires Pack(m) == Pack(n)
    ensures m == n
  {
    forall j | 0 <= j < |m|
      ensures m[j] == n[j]
    {
      PackedByte(m, n, j);
    }
  }

  /** Registers that differ stay different whatever is read after them. */
  lemma {:induction false} RegisterInjective(a: Word, b: Word, m: seq<byte>)
    requires Register(a, m) == Register(b, m)
    ensures a == b
    decreases |m|
  {
    if m != [] {
      RegisterInjective(ByteStep(a, m[0]), ByteStep(b, m[0]), m[1..]);
      var w := Lane(m[0], 0);
      ShiftsInjective(Xor(a, w), Xor(b, w), |Bits(m[0])|);
      XorCancel(w, a, b);
    }
  }

  /**
   * Any change confined to four consecutive bytes changes the checksum, whatever the length of
   * the message and whatever surrounds the change.
   */
  lemma BurstDetected(m: seq<byte>, n: seq<byte>, at: nat, k: nat)
    requires |m| == |n| && k <= 4 && at + k <= |m|
    requires m[..at] == n[..at] && m[at + k..] == n[at + k..]
    requires m != n
    ensures Crc(m) != Crc(n) && Value(m) != Value(n)
  {
    var c := Register(Repeated(true), m[..at]);
    var u, v, rest := m[at..at + k], n[at..at + k], m[at + k..];
    assert m == m[..at] + (u + rest);
    assert n == n[..at] + (v + rest);
    RegisterConcat(Repeated(true), m[..at], u + rest);
    RegisterConcat(Repeated(true), n[..at], v + rest);
    RegisterConcat(c, u, rest);
    RegisterConcat(c, v, rest);
    if Crc(m) == Crc(n) {
      XorCancel(Repeated(true), Register(Repeated(true), m), Register(Repeated(true), n));
      RegisterInjective(Register(c, u), Register(c, v), rest);
      WordStep(c, u);
      WordStep(c, v);
      ShiftsInjective(Xor(c, Pack(u)), Xor(c, Pack(v)), 8 * k);
      XorCancel(c, Pack(u), Pack(v));
      PackInjective(u, v);
      assert false;
    }
    ToOfBits(Crc(m));
    ToOfBits(Crc(n));
  }

  /** The register moved up `n` bits, zeros coming in below. */
  function Raised(r: Word, n: nat): Word {
    seq(32, i requires 0 <= i < 32 => i >= n && r[i - n])
  }

  /** If the top `n` bits after `n` shifts are zero, so that no division happened, the word was only moved. */
  lemma ShiftedFromBelow(d: Word, n: nat)
    requires n <= 32
    requires forall i :: n <= i < 32 ==> !d[i]
    requires forall i :: 32 - n <= i < 32 ==> !Shifts(d, n)[i]
    ensures forall i :: 0 <= i < 32 ==> !d[i]
  {
    var r := Shifts(d, n);
    var u := Raised(r, n);
    ZerosFall(u, n);
    assert Shifts(u, n) == r;
    ShiftsInjective(u, d, n);
  }

  lemma PackDiffers(u: seq<byte>, v: seq<byte>)
    requires |u| == |v| <= 4
    ensures var d := Xor(Pack(u), Pack(v));
            forall i :: 8 * |u| <= i < 32 ==> !d[i]
  {
    var d := Xor(Pack(u), Pack(v));
    forall i | 8 * |u| <= i < 32
      ensures !d[i]
    {
      PackLane(u, i / 8, i % 8);
      PackLane(v, i / 8, i % 8);
    }
  }

  lemma XorPair(c: Word, a: Word, b: Word)
    ensures Xor(Xor(c, a), Xor(c, b)) == Xor(a, b)
  {
  }

  /**
   * A change to the last `j` bytes of a message, three at most, shows in the top `j` bytes of the
   * checksum: no four consecutive bytes across the end of a message and the start of its
   * checksum can be changed so that the two still agree.
   */
  lemma BurstAcrossDetected(m: seq<byte>, n: seq<byte>, j: nat)
    requires |m| == |n| && j <= 3 && j <= |m| && m[..|m| - j] == n[..|n| - j]
    requires forall i :: 32 - 8 * j <= i < 32 ==> Crc(m)[i] == Crc(n)[i]
    ensures m == n
  {
    hide ByteStep, Pack;
    var c := Register(Repeated(true), m[..|m| - j]);
    var u, v := m[|m| - j..], n[|n| - j..];
    assert m == m[..|m| - j] + u && n == n[..|n| - j] + v;
    RegisterConcat(Repeated(true), m[..|m| - j], u);
    RegisterConcat(Repeated(true), n[..|n| - j], v);
    WordStep(c, u);
    WordStep(c, v);
    var x, y, d := Xor(c, Pack(u)), Xor(c, Pack(v)), Xor(Pack(u), Pack(v));
    XorPair(c, Pack(u), Pack(v));
    ShiftsLinear(x, y, 8 * j);
    assert Shifts(d, 8 * j) == Xor(Shifts(x, 8 * j), Shifts(y, 8 * j));
    forall i | 32 - 8 * j <= i < 32
      ensures !Shifts(d, 8 * j)[i]
    {
      assert Crc(m)[i] == (Shifts(x, 8 * j)[i] != true) && Crc(n)[i] == (Shifts(y, 8 * j)[i] != true);
    }
    PackDiffers(u, v);
    ShiftedFromBelow(d, 8 * j);
    assert Pack(u) == Pack(v) by {
      forall i | 0 <= i < 32
        ensures Pack(u)[i] == Pack(v)[i]
      {
        assert d[i] == (Pack(u)[i] != Pack(v)[i]);
      }
    }
    PackInjective(u, v);
  }

  /** The same, on the checksum as the four bytes that are stored. */
  lemma StoredBurstDetected(m: seq<byte>, n: seq<byte>, j: nat)
    requires |m| == |n| && 1 <= j <= 3 && j <= |m| && m[..|m| - j] == n[..|n| - j]
    requires Le32(Value(m))[4 - j..] == Le32(Value(n))[4 - j..]
    ensures m == n
  {
    hide Value, Crc;
    var k := 32 - 8 * j;
    TopBytes(Value(m), Value(n), j);
    ValueBits(m);
    ValueBits(n);
    HighBits(Value(m), Value(n), 32, k);
    BurstAcrossDetected(m, n, j);
  }

  lemma ValueBits(m: seq<byte>)
    ensures ToBits(Value(m), 32) == Crc(m)
  {
    ToOfBits(Crc(m));
  }

  function Halved(v: nat, k: nat): nat {
    if k == 0 then v else Halved(v / 2, k - 1)
  }

  lemma {:induction false} BitsAbove(v: nat, n: nat, k: nat)
    requires k <= n
    ensures ToBits(v, n)[k..] == ToBits(Halved(v, k), n - k)
    decreases k
  {
    if k > 0 {
      BitsAbove(v / 2, n - 1, k - 1);
      assert ToBits(v, n)[k..] == ToBits(v / 2, n - 1)[k - 1..];
    }
  }

  lemma HighBits(v: nat, w: nat, n: nat, k: nat)
    requires k <= n && Halved(v, k) == Halved(w, k)
    ensures forall i :: k <= i < n ==> ToBits(v, n)[i] == ToBits(w, n)[i]
  {
    hide ToBits, Halved;
    BitsAbove(v, n, k);
    BitsAbove(w, n, k);
    var x, y := ToBits(v, n), ToBits(w, n);
    forall i | k <= i < n
      ensures x[i] == y[i]
    {
      assert x[i] == x[k..][i - k] && y[i] == y[k..][i - k];
    }
  }

  lemma {:induction false} HalvedTwice(v: nat, a: nat, b: nat)
    ensures Halved(v, a + b) == Halved(Halved(v, a), b)
    decreases a
  {
    if a > 0 {
      HalvedTwice(v / 2, a - 1, b);
    }
  }

  lemma HalvedByte(v: nat)
    ensures Halved(v, 8) == v / 0x100
  {
    HalvedFour(v);
    HalvedFour(v / 16);
    HalvedTwice(v, 4, 4);
  }

  lemma HalvedFour(v: nat)
    ensures Halved(v, 4) == v / 16
  {
    assert Halved(v / 2, 3) == Halved(v / 2 / 2, 2) == Halved(v / 2 / 2 / 2, 1) == Halved(v / 2 / 2 / 2 / 2, 0);
  }

  lemma TopBytes(v: u32, w: u32, j: nat)
    requires 1 <= j <= 3 && Le32(v)[4 - j..] == Le32(w)[4 - j..]
    ensures Halved(v, 32 - 8 * j) == Halved(w, 32 - 8 * j)
  {
    hide Halved;
    var a, b := Le32(v), Le32(w);
    assert a[3] == a[4 - j..][j - 1] == b[4 - j..][j - 1] == b[3];
    if j >= 2 {
      assert a[2] == a[4 - j..][j - 2] == b[4 - j..][j - 2] == b[2];
    }
    if j >= 3 {
      assert a[1] == a[4 - j..][j - 3] == b[4 - j..][j - 3] == b[1];
    }
    HalvedBytes(v);
    HalvedBytes(w);
  }

  lemma HalvedBytes(v: nat)
    ensures Halved(v, 8) == v / 0x100 && Halved(v, 16) == v / 0x100 / 0x100 && Halved(v, 24) == v / 0x100 / 0x100 / 0x100
  {
    hide Halved;
    HalvedByte(v);
    HalvedByte(v / 0x100);
    HalvedByte(v / 0x100 / 0x100);
    HalvedTwice(v, 8, 8);
    HalvedTwice(v, 16, 8);
  }
}
