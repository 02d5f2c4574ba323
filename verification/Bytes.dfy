/** Bytes and words as the firmware holds them, and the sequence facts every layer above uses. */
module Bytes {

  type byte = x: int | 0 <= x < 0x100
  type u16 = x: int | 0 <= x < 0x1_0000
  type u32 = x: int | 0 <= x < 0x1_0000_0000

  datatype Option<+T> = None | Some(value: T)

  /** The checksum a build seals its records with; rw_crc32 is Crc32.Value. */
  type Checksum = seq<byte> -> u32

  // 32-bit unsigned arithmetic wraps

  function Add32(a: u32, b: u32): u32 {
    (a + b) % 0x1_0000_0000
  }

  function Sub32(a: u32, b: u32): u32 {
    (a - b) % 0x1_0000_0000
  }

  // Bits, lowest first

  function Pow2(n: nat): (p: nat)
    ensures p > 0
  {
    if n == 0 then 1 else 2 * Pow2(n - 1)
  }

  function ToBits(v: nat, n: nat): (s: seq<bool>)
    ensures |s| == n
  {
    if n == 0 then [] else [v % 2 == 1] + ToBits(v / 2, n - 1)
  }

  function OfBits(s: seq<bool>): (v: nat)
    ensures v < Pow2(|s|)
  {
    if s == [] then 0 else (if s[0] then 1 else 0) + 2 * OfBits(s[1..])
  }

  lemma {:induction false} OfToBits(v: nat, n: nat)
    requires v < Pow2(n)
    ensures OfBits(ToBits(v, n)) == v
    decreases n
  {
    if n > 0 {
      OfToBits(v / 2, n - 1);
      assert ToBits(v, n)[1..] == ToBits(v / 2, n - 1);
    }
  }

  lemma {:induction false} ToOfBits(s: seq<bool>)
    ensures ToBits(OfBits(s), |s|) == s
    decreases |s|
  {
    if s != [] {
      ToOfBits(s[1..]);
      assert OfBits(s) / 2 == OfBits(s[1..]);
      assert s == [s[0]] + s[1..];
    }
  }

  function Bits(b: byte): (s: seq<bool>)
    ensures |s| == 8
  {
    ToBits(b, 8)
  }

  lemma Pow2Of8()
    ensures Pow2(8) == 0x100
  {
    assert Pow2(4) == 16;
  }

  function FromBits(s: seq<bool>): byte
    requires |s| == 8
  {
    Pow2Of8();
    OfBits(s)
  }

  lemma FromBitsOfBits(b: byte)
    ensures FromBits(Bits(b)) == b
  {
    Pow2Of8();
    OfToBits(b, 8);
  }

  lemma BitsOfFromBits(s: seq<bool>)
    requires |s| == 8
    ensures Bits(FromBits(s)) == s
  {
    ToOfBits(s);
  }

  // Sequences

  /** `n` copies of one byte: an erased region, zero padding. */
  function Fill(b: byte, n: nat): (s: seq<byte>)
    ensures |s| == n && forall i :: 0 <= i < n ==> s[i] == b
  {
    seq(n, _ => b)
  }

  /** `f` with the bytes from `off` on replaced by `data`. */
  function Splice(f: seq<byte>, off: nat, data: seq<byte>): (r: seq<byte>)
    requires off + |data| <= |f|
    ensures |r| == |f|
    ensures forall i :: 0 <= i < |f| ==> r[i] == if off <= i < off + |data| then data[i - off] else f[i]
  {
    f[..off] + data + f[off + |data|..]
  }

  lemma SpliceHolds(f: seq<byte>, off: nat, data: seq<byte>, n: nat)
    requires off + |data| <= |f| && n <= |data|
    ensures Splice(f, off, data)[off..off + n] == data[..n]
  {
  }

  lemma SliceOfSlice(s: seq<byte>, off: nat, n: nat, m: nat)
    requires m <= n && off + n <= |s|
    ensures s[off..off + n][..m] == s[off..off + m]
  {
  }

  lemma SliceWithin(s: seq<byte>, off: nat, n: nat, lo: nat, hi: nat)
    requires lo <= hi <= n && off + n <= |s|
    ensures s[off..off + n][lo..hi] == s[off + lo..off + hi]
  {
    var a, b := s[off..off + n][lo..hi], s[off + lo..off + hi];
    assert |a| == |b| && forall i :: 0 <= i < |a| ==> a[i] == s[off + lo + i] == b[i];
  }

  lemma SliceOfPrefix(raw: seq<byte>, body: seq<byte>, lo: nat, hi: nat)
    requires body <= raw && lo <= hi <= |body|
    ensures raw[lo..hi] == body[lo..hi]
  {
  }

  // Little-endian fields, the way rd16/rd32/wr16/wr32 spell them

  function Le16(v: u16): (s: seq<byte>)
    ensures |s| == 2
  {
    [v % 0x100, v / 0x100]
  }

  function Rd16(s: seq<byte>): u16
    requires |s| == 2
  {
    s[0] + 0x100 * (s[1] as int)
  }

  function Le32(v: u32): (s: seq<byte>)
    ensures |s| == 4
  {
    [v % 0x100, v / 0x100 % 0x100, v / 0x100 / 0x100 % 0x100, v / 0x100 / 0x100 / 0x100]
  }

  function Rd32(s: seq<byte>): u32
    requires |s| == 4
  {
    s[0] + 0x100 * (s[1] + 0x100 * (s[2] + 0x100 * (s[3] as int)))
  }

  lemma Le32RoundTrip(v: u32)
    ensures Rd32(Le32(v)) == v
  {
  }

  lemma Le32Back(s: seq<byte>)
    requires |s| == 4
    ensures Le32(Rd32(s)) == s
  {
    hide Le32, Rd32;
    var x3: int := s[3];
    var x2 := s[2] + 0x100 * x3;
    var x1 := s[1] + 0x100 * x2;
    Carried(s[2], x3);
    Carried(s[1], x2);
    Carried(s[0], x1);
    Le32Parts(s, x1);
  }

  lemma Carried(b: byte, x: nat)
    ensures (b + 0x100 * x) % 0x100 == b && (b + 0x100 * x) / 0x100 == x
  {
  }

  lemma Le32Parts(s: seq<byte>, x1: nat)
    requires |s| == 4 && x1 == s[1] + 0x100 * (s[2] + 0x100 * (s[3] as int))
    requires (s[0] + 0x100 * x1) % 0x100 == s[0] && (s[0] + 0x100 * x1) / 0x100 == x1
    requires x1 % 0x100 == s[1] && x1 / 0x100 == s[2] + 0x100 * (s[3] as int)
    requires (s[2] + 0x100 * (s[3] as int)) % 0x100 == s[2] && (s[2] + 0x100 * (s[3] as int)) / 0x100 == s[3]
    ensures Le32(Rd32(s)) == s
  {
  }

  /** One field holds one number and one number makes one field. */
  lemma Rd32Exactly(s: seq<byte>, v: u32)
    requires |s| == 4
    ensures Rd32(s) == v <==> s == Le32(v)
  {
    Le32Back(s);
    Le32RoundTrip(v);
  }

  lemma Rd16Exactly(s: seq<byte>, v: u16)
    requires |s| == 2
    ensures Rd16(s) == v <==> s == Le16(v)
  {
    Carried(s[0], s[1]);
  }

  /** The C string in a field: the field's bytes up to a NUL, or as many as a reader that stops there takes. */
  ghost predicate InField(field: seq<byte>, most: nat, s: seq<byte>)
    requires most <= |field|
  {
    |s| <= most && field[..|s|] == s && 0 !in s && (|s| < most ==> field[|s|] == 0)
  }

  lemma HeldIsOne(field: seq<byte>, most: nat, s: seq<byte>, t: seq<byte>)
    requires most <= |field| && InField(field, most, s) && InField(field, most, t)
    ensures s == t
  {
  }

  /** The bytes of a fixed-width field up to its first NUL. */
  function UpToNul(field: seq<byte>): (v: seq<byte>)
    ensures |v| <= |field| && v == field[..|v|]
    ensures forall i :: 0 <= i < |v| ==> v[i] != 0
    ensures |v| < |field| ==> field[|v|] == 0
  {
    if field == [] || field[0] == 0 then [] else [field[0]] + UpToNul(field[1..])
  }

  lemma {:induction false} UpToNulOfPadded(v: seq<byte>, rest: seq<byte>)
    requires forall i :: 0 <= i < |v| ==> v[i] != 0
    requires rest == [] || rest[0] == 0
    ensures UpToNul(v + rest) == v
    decreases |v|
  {
    if v != [] {
      assert (v + rest)[1..] == v[1..] + rest;
      UpToNulOfPadded(v[1..], rest);
    }
  }
}
