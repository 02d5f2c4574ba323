/** WebSocket frame headers, in and out (firmware/src/ws/ws_frame.c; sections 5.2 and 5.3 of RFC 6455). */
module WsFrame {
  import opened Bytes

  const MAX_INBOUND: nat := 2048

  const CONT: byte := 0
  const TEXT: byte := 1
  const BINARY: byte := 2
  const CLOSE: byte := 8
  const PING: byte := 9
  const PONG: byte := 10

  datatype Head = Head(fin: bool, op: byte, len: nat)

  datatype Parsed = NeedMore | Bad | TooLarge | Good(h: Head, size: nat)

  predicate KnownOp(op: byte) {
    op <= BINARY || CLOSE <= op <= PONG
  }

  // Big-endian numbers

  function Pow256(n: nat): (p: nat)
    ensures p > 0
  {
    if n == 0 then 1 else 256 * Pow256(n - 1)
  }

  function Be(s: seq<byte>): (v: nat)
    ensures v < Pow256(|s|)
  {
    if s == [] then 0 else Be(s[..|s| - 1]) * 256 + s[|s| - 1]
  }

  function ToBe(v: nat, n: nat): (s: seq<byte>)
    ensures |s| == n
  {
    if n == 0 then [] else ToBe(v / 256, n - 1) + [v % 256]
  }

  lemma {:induction false} BeToBe(v: nat, n: nat)
    requires v < Pow256(n)
    ensures Be(ToBe(v, n)) == v
    decreases n
  {
    if n > 0 {
      BeToBe(v / 256, n - 1);
      assert ToBe(v, n)[..n - 1] == ToBe(v / 256, n - 1);
    }
  }

  lemma {:induction false} ToBeBe(s: seq<byte>)
    ensures ToBe(Be(s), |s|) == s
    decreases |s|
  {
    if s != [] {
      var n := |s| - 1;
      ToBeBe(s[..n]);
      assert Be(s) / 256 == Be(s[..n]) && Be(s) % 256 == s[n];
      assert s == s[..n] + [s[n]];
    }
  }

  lemma PowersOf256()
    ensures Pow256(2) == 0x1_0000 && Pow256(7) * 128 == 0x8000_0000_0000_0000 && Pow256(8) == 0x1_0000_0000_0000_0000
  {
    assert Pow256(4) == 0x1_0000_0000;
    assert Pow256(6) == 0x1_0000_0000_0000;
  }

  lemma Distribute(a: nat, p: nat, r: nat)
    ensures (a * p + r) * 256 == a * (256 * p) + r * 256
  {
  }

  lemma {:induction false} BeFirst(s: seq<byte>)
    requires s != []
    ensures Be(s) == s[0] * Pow256(|s| - 1) + Be(s[1..])
    decreases |s|
  {
    var n := |s| - 1;
    if n > 0 {
      BeFirst(s[..n]);
      assert s[..n][1..] == s[1..][..n - 1];
      Distribute(s[0], Pow256(n - 1), Be(s[1..][..n - 1]));
    }
  }

  lemma BeTop(s: seq<byte>)
    requires |s| == 8
    ensures Be(s) < 0x8000_0000_0000_0000 <==> s[0] < 128
  {
    BeFirst(s);
    PowersOf256();
  }

  // What a server sends (the reference), and what the device reads

  /** A frame head the standard allows a server to send. */
  predicate Legal(h: Head) {
    KnownOp(h.op) && h.len < 0x8000_0000_0000_0000 && (h.op >= CLOSE ==> h.fin && h.len <= 125)
  }

  function LengthField(len: nat): seq<byte> {
    if len < 126 then [len] else if len < 0x1_0000 then [126] + ToBe(len, 2) else [127] + ToBe(len, 8)
  }

  /** The head as the standard writes it: unmasked, its length in the fewest bytes. */
  function ServerHead(h: Head): (s: seq<byte>)
    requires KnownOp(h.op)
    ensures 2 <= |s| <= 10
  {
    [(if h.fin then 128 else 0) + h.op] + LengthField(h.len)
  }

  /** Judged once its length is known. */
  function Judge(fin: bool, op: byte, len: nat, size: nat): Parsed {
    if op >= CLOSE && len > 125 then Bad
    else if op >= CLOSE && !fin then Bad
    else if len > MAX_INBOUND then TooLarge
    else Good(Head(fin, op, len), size)
  }

  /** rw_ws_parse_header. */
  function ParseHeader(buf: seq<byte>): (p: Parsed)
    ensures p.Good? ==> 2 <= p.size <= 4 && p.h.len <= MAX_INBOUND
  {
    if |buf| < 2 then NeedMore
    else if buf[0] / 16 % 8 != 0 then Bad
    else
      var fin, op, len7 := buf[0] >= 128, buf[0] % 16, buf[1] % 128;
      if !KnownOp(op) then Bad
      else if buf[1] >= 128 then Bad
      else if len7 < 126 then Judge(fin, op, len7, 2)
      else if len7 == 126 then
        if |buf| < 4 then NeedMore
        else if Be(buf[2..4]) < 126 then Bad
        else Judge(fin, op, Be(buf[2..4]), 4)
      else
        if |buf| < 10 then NeedMore
        else if buf[2] >= 128 then Bad
        else if Be(buf[2..10]) < 0x1_0000 then Bad
        else Judge(fin, op, Be(buf[2..10]), 10)
  }

  method ReadHeader(buf: array<byte>, len: nat) returns (p: Parsed)
    requires len <= buf.Length
    ensures p == ParseHeader(buf[..len])
  {
    if len < 2 {
      return NeedMore;
    }
    var b0, b1 := buf[0], buf[1];
    if b0 / 16 % 8 != 0 {
      return Bad;
    }
    if !KnownOp(b0 % 16) {
      return Bad;
    }
    if b1 >= 128 {
      return Bad;
    }
    var len7 := b1 % 128;
    var v: nat, pos := len7, 2;
    if len7 == 126 {
      if len < 4 {
        return NeedMore;
      }
      v := ReadBe(buf, 2, 2);
      assert buf[..len][2..4] == buf[2..4];
      if v < 126 {
        return Bad;
      }
      pos := 4;
    } else if len7 == 127 {
      if len < 10 {
        return NeedMore;
      }
      if buf[2] >= 128 {
        return Bad;
      }
      v := ReadBe(buf, 2, 8);
      assert buf[..len][2..10] == buf[2..10];
      if v < 0x1_0000 {
        return Bad;
      }
      pos := 10;
    }
    p := Judge(b0 >= 128, b0 % 16, v, pos);
  }

  method ReadBe(buf: array<byte>, off: nat, n: nat) returns (v: nat)
    requires off + n <= buf.Length
    ensures v == Be(buf[off..off + n])
  {
    v := 0;
    for i := 0 to n
      invariant v == Be(buf[off..off + i])
    {
      assert buf[off..off + i + 1][..i] == buf[off..off + i];
      v := v * 256 + buf[off + i];
    }
  }

  /** A decided header stays decided, whatever follows it. */
  lemma ParseStable(buf: seq<byte>, more: seq<byte>)
    requires ParseHeader(buf) != NeedMore
    ensures ParseHeader(buf + more) == ParseHeader(buf)
  {
    assert |buf| >= 4 ==> (buf + more)[2..4] == buf[2..4];
    assert |buf| >= 10 ==> (buf + more)[2..10] == buf[2..10];
  }

  lemma ParseShort(buf: seq<byte>)
    ensures ParseHeader(buf) == NeedMore ==> |buf| < 10
  {
  }

  lemma FirstByte(fin: bool, op: byte)
    requires KnownOp(op)
    ensures var b: int := (if fin then 128 else 0) + op;
            b / 16 % 8 == 0 && b % 16 == op && (b >= 128 <==> fin) && b < 256
  {
  }

  /** Every legal head is understood; one over the cap is known to be. */
  lemma ParseOfServerHead(h: Head, rest: seq<byte>)
    requires Legal(h)
    ensures var head := ServerHead(h);
            ParseHeader(head + rest) == if h.len > MAX_INBOUND then TooLarge else Good(h, |head|)
  {
    hide Be, ToBe;
    FirstByte(h.fin, h.op);
    var buf := ServerHead(h) + rest;
    if h.len >= 0x1_0000 {
      PowersOf256();
      BeToBe(h.len, 8);
      assert buf[2..10] == ToBe(h.len, 8);
      BeTop(ToBe(h.len, 8));
      assert buf[2] == ToBe(h.len, 8)[0];
    } else if h.len >= 126 {
      PowersOf256();
      BeToBe(h.len, 2);
      assert buf[2..4] == ToBe(h.len, 2);
    }
  }

  /** The first byte of any header that is not refused, put together again. */
  lemma FirstByteBack(b: byte)
    requires b / 16 % 8 == 0
    ensures b == (if b >= 128 then 128 else 0) + b % 16
  {
  }

  /** And only those: what is understood starts with a legal head, written the standard's way. */
  lemma ParseSound(buf: seq<byte>)
    requires ParseHeader(buf).Good?
    ensures var (h, size) := (ParseHeader(buf).h, ParseHeader(buf).size);
            Legal(h) && size == |ServerHead(h)| && ServerHead(h) <= buf
  {
    hide Be, ToBe;
    FirstByteBack(buf[0]);
    if buf[1] % 128 == 126 {
      ToBeBe(buf[2..4]);
    }
  }

  lemma TooLargeSound(buf: seq<byte>)
    requires ParseHeader(buf) == TooLarge
    ensures exists h :: Legal(h) && h.len > MAX_INBOUND && ServerHead(h) <= buf
  {
    hide Be, ToBe;
    FirstByteBack(buf[0]);
    if buf[1] % 128 == 126 {
      PowersOf256();
      LongHead(buf, 2);
    } else {
      BeTop(buf[2..10]);
      assert buf[2..10][0] == buf[2];
      LongHead(buf, 8);
    }
  }

  lemma LongHead(buf: seq<byte>, n: nat)
    requires |buf| >= 2 + n && buf[0] / 16 % 8 == 0 && KnownOp(buf[0] % 16) && buf[0] % 16 < CLOSE
    requires if n == 2 then buf[1] == 126 && 126 <= Be(buf[2..2 + n]) < 0x1_0000
             else n == 8 && buf[1] == 127 && 0x1_0000 <= Be(buf[2..2 + n]) < 0x8000_0000_0000_0000
    ensures var h := Head(buf[0] >= 128, buf[0] % 16, Be(buf[2..2 + n]));
            Legal(h) && ServerHead(h) <= buf
  {
    hide Be, ToBe;
    FirstByteBack(buf[0]);
    ToBeBe(buf[2..2 + n]);
    assert buf[..2 + n] == [buf[0], buf[1]] + buf[2..2 + n];
  }

  /** A header that can be judged is refused exactly when no legal head starts the bytes. */
  lemma BadExactly(buf: seq<byte>)
    requires ParseHeader(buf) != NeedMore
    ensures ParseHeader(buf) == Bad <==> !exists h :: Legal(h) && ServerHead(h) <= buf
  {
    if h :| Legal(h) && ServerHead(h) <= buf {
      var n := |ServerHead(h)|;
      assert buf == ServerHead(h) + buf[n..];
      ParseOfServerHead(h, buf[n..]);
    }
    if ParseHeader(buf).Good? {
      ParseSound(buf);
    } else if ParseHeader(buf) == TooLarge {
      TooLargeSound(buf);
    }
  }

  // Out: masked frames

  type Key = k: seq<byte> | |k| == 4 witness [0, 0, 0, 0]

  function Xor(a: byte, b: byte): byte {
    FromBits(seq(8, i requires 0 <= i < 8 => Bits(a)[i] != Bits(b)[i]))
  }

  lemma XorTwice(a: byte, k: byte)
    ensures Xor(Xor(a, k), k) == a
  {
    var once := seq(8, i requires 0 <= i < 8 => Bits(a)[i] != Bits(k)[i]);
    BitsOfFromBits(once);
    assert seq(8, i requires 0 <= i < 8 => once[i] != Bits(k)[i]) == Bits(a);
    FromBitsOfBits(a);
  }

  /** rw_ws_apply_mask, on a piece that starts `offset` bytes into the payload. */
  function Masked(data: seq<byte>, key: Key, offset: nat): (r: seq<byte>)
    ensures |r| == |data|
  {
    seq(|data|, i requires 0 <= i < |data| => Xor(data[i], key[(offset + i) % 4]))
  }

  method ApplyMask(data: array<byte>, from: nat, len: nat, key: Key, offset: nat)
    requires from + len <= data.Length
    modifies data
    ensures data[from..from + len] == Masked(old(data[from..from + len]), key, offset)
    ensures forall i :: 0 <= i < data.Length && !(from <= i < from + len) ==> data[i] == old(data[i])
  {
    hide Xor;
    for i := 0 to len
      invariant forall j :: from <= j < from + i ==> data[j] == Xor(old(data[j]), key[(offset + (j - from)) % 4])
      invariant forall j :: 0 <= j < data.Length && !(from <= j < from + i) ==> data[j] == old(data[j])
    {
      data[from + i] := Xor(data[from + i], key[(offset + i) % 4]);
    }
  }

  lemma MaskedTwice(data: seq<byte>, key: Key, offset: nat)
    ensures Masked(Masked(data, key, offset), key, offset) == data
  {
    forall i | 0 <= i < |data|
      ensures Masked(Masked(data, key, offset), key, offset)[i] == data[i]
    {
      XorTwice(data[i], key[(offset + i) % 4]);
    }
  }

  /** Masking in pieces is masking at once. */
  lemma MaskedConcat(a: seq<byte>, b: seq<byte>, key: Key, offset: nat)
    ensures Masked(a + b, key, offset) == Masked(a, key, offset) + Masked(b, key, offset + |a|)
  {
    hide Xor;
  }

  function ClientLength(len: nat): seq<byte> {
    if len <= 125 then [128 + len] else if len <= 0xFFFF then [254] + ToBe(len, 2) else [255] + ToBe(len, 8)
  }

  /** rw_ws_build_frame: nothing if the frame does not fit `room`. */
  function BuildFrame(room: nat, fin: bool, op: byte, payload: seq<byte>, key: Key): (r: seq<byte>)
    requires op < 16
    ensures |r| <= room
  {
    var head := [(if fin then 128 else 0) + op] + ClientLength(|payload|) + key;
    if room < |head| + |payload| then [] else head + Masked(payload, key, 0)
  }

  /** A frame is built exactly when it fits, in as few bytes as its length can be written in, mask key included. */
  lemma BuiltAsShortAsCan(room: nat, fin: bool, op: byte, payload: seq<byte>, key: Key)
    requires op < 16
    ensures var (f, n) := (BuildFrame(room, fin, op, payload, key), |payload|);
            var size := n + if n <= 125 then 6 else if n <= 0xFFFF then 8 else 14;
            if room < size then f == [] else |f| == size && f[1] >= 128
  {
    hide Masked, ToBe;
  }

  /** A frame as section 5.2 reads it back: final flag, opcode and unmasked payload. */
  function Unframe(f: seq<byte>): Option<(bool, byte, seq<byte>)> {
    if |f| < 6 || f[1] < 128 then None
    else
      var len7 := f[1] - 128;
      var n := if len7 < 126 then 0 else if len7 == 126 then 2 else 8;
      if |f| < 6 + n then None
      else
        var len := if n == 0 then len7 else Be(f[2..2 + n]);
        if |f| != 6 + n + len then None
        else Some((f[0] >= 128, f[0] % 16, Masked(f[6 + n..], f[2 + n..6 + n], 0)))
  }

  /** A frame that fits is read back as what was sent, whatever the key. */
  lemma BuildUnframe(room: nat, fin: bool, op: byte, payload: seq<byte>, key: Key)
    requires KnownOp(op) && |payload| < 0x8000_0000_0000_0000
    ensures var f := BuildFrame(room, fin, op, payload, key);
            f == [] || Unframe(f) == Some((fin, op, payload))
  {
    hide Xor, Masked, Be, ToBe;
    PowersOf256();
    FirstByte(fin, op);
    var f := BuildFrame(room, fin, op, payload, key);
    if f != [] {
      var n := |ClientLength(|payload|)| - 1;
      if n > 0 {
        BeToBe(|payload|, n);
        assert f[2..2 + n] == ToBe(|payload|, n);
      }
      assert f[2 + n..6 + n] == key && f[6 + n..] == Masked(payload, key, 0);
      MaskedTwice(payload, key, 0);
    }
  }
}
