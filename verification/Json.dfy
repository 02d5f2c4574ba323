/** The bounded JSON writer and the string reader (firmware/src/proto/json.c; section 7 of RFC 8259). */
module Json {
  import opened Bytes
  import Utf8

  /** The bytes of an ASCII literal. */
  function Ascii(s: string): (r: seq<byte>)
    requires forall i :: 0 <= i < |s| ==> s[i] < 128 as char
    ensures |r| == |s| && forall i :: 0 <= i < |s| ==> r[i] == s[i] as int
  {
    seq(|s|, i requires 0 <= i < |s| => s[i] as int)
  }

  const QUOTE: byte := 0x22
  const BACKSLASH: byte := 0x5C

  predicate CString(s: seq<byte>) {
    forall i :: 0 <= i < |s| ==> s[i] != 0
  }

  // The writer

  /** What has been written, the size of the buffer, and whether everything fitted so far. */
  datatype Writer = Writer(out: seq<byte>, cap: nat, ok: bool)

  /** put: one byte is always kept back for the terminator. */
  function Put(w: Writer, c: byte): Writer {
    if !w.ok then w
    else if |w.out| + 1 >= w.cap then w.(ok := false)
    else w.(out := w.out + [c])
  }

  function Raw(w: Writer, text: seq<byte>): Writer
    decreases |text|
  {
    if text == [] then w else Raw(Put(w, text[0]), text[1..])
  }

  /** Text either goes in whole, or fills the buffer and marks it. */
  lemma {:induction false} RawFits(w: Writer, text: seq<byte>)
    ensures w.ok && |w.out| + |text| < w.cap ==> Raw(w, text) == w.(out := w.out + text)
    ensures w.ok && |w.out| < w.cap <= |w.out| + |text| ==> !Raw(w, text).ok
    ensures !w.ok ==> Raw(w, text) == w
    decreases |text|
  {
    if text == [] {
      assert w.out + [] == w.out;
    } else {
      RawFits(Put(w, text[0]), text[1..]);
      assert w.out + [text[0]] + text[1..] == w.out + text;
    }
  }

  lemma {:induction false} RawConcat(w: Writer, a: seq<byte>, b: seq<byte>)
    ensures Raw(w, a + b) == Raw(Raw(w, a), b)
    decreases |a|
  {
    if a == [] {
      assert a + b == b;
    } else {
      assert (a + b)[1..] == a[1..] + b;
      RawConcat(Put(w, a[0]), a[1..], b);
    }
  }

  /** Writing only appends. */
  lemma {:induction false} RawAppends(w: Writer, text: seq<byte>)
    ensures w.out <= Raw(w, text).out && Raw(w, text).cap == w.cap
    decreases |text|
  {
    if text != [] {
      RawAppends(Put(w, text[0]), text[1..]);
    }
  }

  function HexDigit(d: nat): byte
    requires d < 16
  {
    if d < 10 then 0x30 + d else 0x61 + d - 10
  }

  /** How one byte is written inside a string. */
  function Escape(b: byte): (e: seq<byte>)
    ensures 1 <= |e| <= 6
  {
    if b == QUOTE then [BACKSLASH, QUOTE]
    else if b == BACKSLASH then [BACKSLASH, BACKSLASH]
    else if b == 8 then [BACKSLASH, 0x62]
    else if b == 12 then [BACKSLASH, 0x66]
    else if b == 10 then [BACKSLASH, 0x6E]
    else if b == 13 then [BACKSLASH, 0x72]
    else if b == 9 then [BACKSLASH, 0x74]
    else if b < 0x20 then [BACKSLASH, 0x75, 0x30, 0x30, HexDigit(b / 16), HexDigit(b % 16)]
    else [b]
  }

  function Escaped(s: seq<byte>): (e: seq<byte>)
    ensures |s| <= |e| <= 6 * |s|
  {
    if s == [] then [] else Escape(s[0]) + Escaped(s[1..])
  }

  function Quoted(s: seq<byte>): (q: seq<byte>)
    ensures |s| + 2 <= |q| <= 6 * |s| + 2
  {
    [QUOTE] + Escaped(s) + [QUOTE]
  }

  function Key(k: seq<byte>): seq<byte> {
    Quoted(k) + [0x3A]
  }

  /** The writer as the code has it: a fixed buffer, a length and a flag. */
  class JsonWriter {
    const buf: array<byte>
    var len: nat
    var ok: bool

    ghost predicate Valid()
      reads this
    {
      len <= buf.Length && (ok ==> len < buf.Length)
    }

    ghost function Now(): Writer
      requires Valid()
      reads this, buf
    {
      Writer(buf[..len], buf.Length, ok)
    }

    /** rw_jw_init. */
    constructor (buf: array<byte>)
      modifies buf
      ensures Valid() && this.buf == buf && Now() == Writer([], buf.Length, buf.Length > 0)
    {
      this.buf := buf;
      len := 0;
      ok := buf.Length > 0;
      new;
      if ok {
        buf[0] := 0;
      }
    }

    method PutByte(c: byte)
      requires Valid()
      modifies this, buf
      ensures Valid() && Now() == Put(old(Now()), c)
    {
      if !ok {
        return;
      }
      if len + 1 >= buf.Length {
        ok := false;
        return;
      }
      buf[len] := c;
      len := len + 1;
      assert buf[..len] == old(buf[..len]) + [c];
    }

    method PutRaw(text: seq<byte>)
      requires Valid()
      modifies this, buf
      ensures Valid() && Now() == Raw(old(Now()), text)
    {
      var i: nat := 0;
      assert text[0..] == text;
      while i < |text|
        invariant Valid() && i <= |text|
        invariant Raw(Now(), text[i..]) == Raw(old(Now()), text)
      {
        assert text[i..][1..] == text[i + 1..];
        PutByte(text[i]);
        i := i + 1;
      }
    }

    /** rw_jw_str. */
    method PutString(s: seq<byte>)
      requires Valid()
      modifies this, buf
      ensures Valid() && Now() == Raw(old(Now()), Quoted(s))
    {
      ghost var w := Now();
      PutRaw([QUOTE]);
      RawConcat(w, [QUOTE], Escaped(s) + [QUOTE]);
      assert [QUOTE] + (Escaped(s) + [QUOTE]) == Quoted(s);
      var i: nat := 0;
      assert s[0..] == s;
      while i < |s|
        invariant Valid() && i <= |s|
        invariant Raw(Now(), Escaped(s[i..]) + [QUOTE]) == Raw(w, Quoted(s))
      {
        RawConcat(Now(), Escape(s[i]), Escaped(s[i + 1..]) + [QUOTE]);
        assert s[i..][1..] == s[i + 1..];
        assert Escape(s[i]) + (Escaped(s[i + 1..]) + [QUOTE]) == Escaped(s[i..]) + [QUOTE];
        PutRaw(Escape(s[i]));
        i := i + 1;
      }
      assert Escaped(s[i..]) + [QUOTE] == [QUOTE];
      PutRaw([QUOTE]);
    }

    /** rw_jw_key. */
    method PutKey(k: seq<byte>)
      requires Valid()
      modifies this, buf
      ensures Valid() && Now() == Raw(old(Now()), Key(k))
    {
      RawConcat(Now(), Quoted(k), [0x3A]);
      PutString(k);
      PutRaw([0x3A]);
    }

    /** Putting the length and the flag back undoes what was written since. */
    method Rewind(oldLen: nat, oldOk: bool)
      requires Valid() && oldLen <= len && (oldOk ==> oldLen < buf.Length)
      modifies this
      ensures Valid() && Now() == Writer(old(buf[..oldLen]), buf.Length, oldOk)
    {
      len := oldLen;
      ok := oldOk;
    }
  }

  // The reader

  /** hex4, on the first four of `s`; None if one is not a hex digit. */
  function Hex1(c: byte): Option<nat> {
    if 0x30 <= c <= 0x39 then Some(c - 0x30)
    else if 0x61 <= c <= 0x66 then Some(c - 0x61 + 10)
    else if 0x41 <= c <= 0x46 then Some(c - 0x41 + 10)
    else None
  }

  function Hex4(s: seq<byte>): (r: Option<nat>)
    requires |s| >= 4
    ensures r.Some? ==> r.value < 0x1_0000
  {
    match (Hex1(s[0]), Hex1(s[1]), Hex1(s[2]), Hex1(s[3]))
    case (Some(a), Some(b), Some(c), Some(d)) =>
      assert a < 16 && b < 16 && c < 16 && d < 16;
      Some(((a * 16 + b) * 16 + c) * 16 + d)
    case _ => None
  }

  /** A hexadecimal digit of either case reads as its value, and nothing else does. */
  lemma HexExactly(c: byte)
    ensures forall v :: 0 <= v < 16 ==>
              (Hex1(c) == Some(v) <==> c as char == "0123456789abcdef"[v] || c as char == "0123456789ABCDEF"[v])
    ensures Hex1(c).Some? ==> Hex1(c).value < 16
  {
  }

  /** The byte a two-character escape stands for. */
  function Simple(c: byte): Option<byte> {
    if c == QUOTE || c == BACKSLASH || c == 0x2F then Some(c)
    else if c == 0x62 then Some(8)
    else if c == 0x66 then Some(12)
    else if c == 0x6E then Some(10)
    else if c == 0x72 then Some(13)
    else if c == 0x74 then Some(9)
    else None
  }

  /** One unit of a string: what it stands for, and how many bytes it took. */
  datatype Unit = Unit(bytes: seq<byte>, n: nat) | Broken

  /** A \\u escape, `s` starting after the letter; the low half of a pair is required and consumed. */
  function Unicode(s: seq<byte>): (u: Unit)
    ensures u.Unit? ==> u.n <= |s| && 1 <= |u.bytes| <= 4
  {
    if |s| < 4 || Hex4(s).None? then Broken
    else
      var hi := Hex4(s).value;
      if 0xD800 <= hi <= 0xDBFF then
        if |s| < 10 || s[4] != BACKSLASH || s[5] != 0x75 || Hex4(s[6..]).None? then Broken
        else
          var lo := Hex4(s[6..]).value;
          if lo < 0xDC00 || lo > 0xDFFF then Broken
          else Unit(Utf8.Put(0x1_0000 + (hi - 0xD800) * 0x400 + (lo - 0xDC00)), 10)
      else if 0xDC00 <= hi <= 0xDFFF then Broken
      else Unit(Utf8.Put(hi), 4)
  }

  function NextUnit(s: seq<byte>): (u: Unit)
    requires s != []
    ensures u.Unit? ==> 1 <= u.n <= |s| && 1 <= |u.bytes|
  {
    if s[0] != BACKSLASH then Unit([s[0]], 1)
    else if |s| < 2 then Broken
    else if s[1] == 0x75 then
      match Unicode(s[2..])
      case Broken => Broken
      case Unit(bytes, n) => Unit(bytes, n + 2)
    else
      match Simple(s[1])
      case None => Broken
      case Some(b) => Unit([b], 2)
  }

  /** rw_json_str from a token's text: None for a broken escape or a value that does not fit `cap`. */
  function ReadFrom(s: seq<byte>, out: seq<byte>, cap: nat): (r: Option<seq<byte>>)
    requires |out| < cap
    ensures r.Some? ==> |r.value| < cap
    decreases |s|
  {
    if s == [] then Some(out)
    else
      match NextUnit(s)
      case Broken => None
      case Unit(bytes, n) => if |out| + |bytes| >= cap then None else ReadFrom(s[n..], out + bytes, cap)
  }

  function ReadString(s: seq<byte>, cap: nat): Option<seq<byte>> {
    if cap == 0 then None else ReadFrom(s, [], cap)
  }

  /** The reader's loop, into a fixed buffer. */
  method ReadInto(s: seq<byte>, out: array<byte>) returns (n: Option<nat>)
    modifies out
    ensures n.Some? ==> n.value < out.Length && ReadString(s, out.Length) == Some(out[..n.value]) && out[n.value] == 0
    ensures n.None? ==> ReadString(s, out.Length) == None
  {
    hide Unicode, Simple, NextUnit;
    if out.Length == 0 {
      return None;
    }
    var at: nat, len: nat := 0, 0;
    assert s[0..] == s && out[..0] == [];
    while at < |s|
      invariant at <= |s| && len < out.Length
      invariant ReadFrom(s[at..], out[..len], out.Length) == ReadString(s, out.Length)
    {
      var u := NextUnit(s[at..]);
      if u.Broken? || len + |u.bytes| >= out.Length {
        return None;
      }
      ghost var before := out[..len];
      AppendTo(out, len, u.bytes);
      assert out[..len + |u.bytes|] == before + u.bytes;
      assert s[at..][u.n..] == s[at + u.n..];
      at := at + u.n;
      len := len + |u.bytes|;
    }
    out[len] := 0;
    n := Some(len);
  }

  method AppendTo(out: array<byte>, len: nat, bytes: seq<byte>)
    requires len + |bytes| <= out.Length
    modifies out
    ensures out[..len] == old(out[..len]) && out[len..len + |bytes|] == bytes
  {
    for i := 0 to |bytes|
      invariant out[..len] == old(out[..len]) && out[len..len + i] == bytes[..i]
    {
      out[len + i] := bytes[i];
    }
  }

  // They undo each other

  lemma HexOfByte(b: byte)
    requires b < 0x20
    ensures Hex4([0x30, 0x30, HexDigit(b / 16), HexDigit(b % 16)]) == Some(b as int)
  {
    assert b / 16 < 2;
  }

  lemma NextOfEscape(b: byte, rest: seq<byte>)
    requires b != 0
    ensures NextUnit(Escape(b) + rest) == Unit([b], |Escape(b)|)
  {
    var s := Escape(b) + rest;
    if |Escape(b)| == 6 {
      HexOfByte(b);
      var t := s[2..];
      assert t[0] == 0x30 && t[1] == 0x30 && t[2] == HexDigit(b / 16) && t[3] == HexDigit(b % 16);
      assert Hex4(t) == Hex4([0x30, 0x30, HexDigit(b / 16), HexDigit(b % 16)]);
      assert Utf8.Put(b) == [b];
    }
  }

  lemma ReadStep(s: seq<byte>, out: seq<byte>, cap: nat, bytes: seq<byte>, n: nat)
    requires s != [] && NextUnit(s) == Unit(bytes, n) && |out| + |bytes| < cap
    ensures ReadFrom(s, out, cap) == ReadFrom(s[n..], out + bytes, cap)
  {
    hide NextUnit;
  }

  lemma {:induction false} ReadOfEscaped(s: seq<byte>, out: seq<byte>, cap: nat)
    requires CString(s) && |out| + |s| < cap
    ensures ReadFrom(Escaped(s), out, cap) == Some(out + s)
    decreases |s|
  {
    hide NextUnit, Escape;
    if s == [] {
      assert out + s == out;
    } else {
      hide ReadFrom;
      NextOfEscape(s[0], Escaped(s[1..]));
      var n := |Escape(s[0])|;
      ReadStep(Escaped(s), out, cap, [s[0]], n);
      assert Escaped(s)[n..] == Escaped(s[1..]);
      ReadOfEscaped(s[1..], out + [s[0]], cap);
      assert out + [s[0]] + s[1..] == out + s;
    }
  }

  /** What is written as a string reads back as itself, for every string without a NUL that fits. */
  lemma WriteThenRead(s: seq<byte>, cap: nat)
    requires CString(s) && |s| < cap
    ensures var q := Quoted(s);
            ReadString(q[1..|q| - 1], cap) == Some(s)
  {
    var q := Quoted(s);
    assert q[1..|q| - 1] == Escaped(s);
    ReadOfEscaped(s, [], cap);
    assert [] + s == s;
  }

  /** Where a tokeniser sees the string end: the first quote that no backslash takes. */
  function Closes(s: seq<byte>): (n: nat)
    ensures n <= |s|
  {
    if s == [] || s[0] == QUOTE then 0
    else if s[0] == BACKSLASH && |s| >= 2 then 2 + Closes(s[2..])
    else 1 + Closes(s[1..])
  }

  predicate Plain(p: seq<byte>) {
    forall i :: 0 <= i < |p| ==> p[i] != QUOTE && p[i] != BACKSLASH
  }

  lemma {:induction false} ClosesPastPlain(p: seq<byte>, rest: seq<byte>)
    requires Plain(p)
    ensures Closes(p + rest) == |p| + Closes(rest)
    decreases |p|
  {
    if p == [] {
      assert p + rest == rest;
    } else {
      assert (p + rest)[1..] == p[1..] + rest;
      ClosesPastPlain(p[1..], rest);
    }
  }

  lemma EscapeShape(b: byte)
    ensures var e := Escape(b);
            Plain(e) || (|e| >= 2 && e[0] == BACKSLASH && Plain(e[2..]))
  {
  }

  lemma ClosesAfterEscape(b: byte, rest: seq<byte>)
    ensures Closes(Escape(b) + rest) == |Escape(b)| + Closes(rest)
  {
    hide Escape, Plain;
    EscapeShape(b);
    var e := Escape(b);
    if Plain(e) {
      ClosesPastPlain(e, rest);
    } else {
      ClosesPastPlain(e[2..], rest);
      assert (e + rest)[2..] == e[2..] + rest;
    }
  }

  /** A written string ends exactly at its own closing quote, whatever is in it. */
  lemma {:induction false} EscapedEndsAtQuote(s: seq<byte>, rest: seq<byte>)
    ensures Closes(Escaped(s) + [QUOTE] + rest) == |Escaped(s)|
    decreases |s|
  {
    hide Escape;
    if s == [] {
      assert Escaped(s) + [QUOTE] + rest == [QUOTE] + rest;
    } else {
      ClosesAfterEscape(s[0], Escaped(s[1..]) + [QUOTE] + rest);
      assert Escaped(s) + [QUOTE] + rest == Escape(s[0]) + (Escaped(s[1..]) + [QUOTE] + rest);
      EscapedEndsAtQuote(s[1..], rest);
    }
  }

  /** A written string is one: no control character in it is bare (section 7 of RFC 8259). */
  lemma {:induction false} NoBareControls(s: seq<byte>, i: nat)
    requires i < |Escaped(s)|
    ensures Escaped(s)[i] >= 0x20
    decreases |s|
  {
    if i >= |Escape(s[0])| {
      NoBareControls(s[1..], i - |Escape(s[0])|);
    }
  }

  /** A byte is written in one, in two where there is a short escape, and otherwise in six; from 80 up always as it is. */
  lemma EscapesShortest(b: byte)
    ensures Escaped([b]) == Escape(b)
    ensures var e := Escape(b);
            && (|e| == 1 <==> b >= 0x20 && b != 0x22 && b != 0x5C) && (|e| == 1 ==> e == [b])
            && (|e| == 2 <==> b in {0x22, 0x5C, 0x08, 0x09, 0x0A, 0x0C, 0x0D})
            && (|e| != 1 ==> e[0] == 0x5C)
            && (|e| > 2 ==> |e| == 6 && e[1..4] == [0x75, 0x30, 0x30])
  {
    assert Escaped([b]) == Escape(b) + Escaped([b][1..]);
  }

  // Escaped characters

  function Hex4Of(v: nat): (s: seq<byte>)
    requires v < 0x1_0000
    ensures |s| == 4
  {
    [HexDigit(v / 16 / 16 / 16), HexDigit(v / 16 / 16 % 16), HexDigit(v / 16 % 16), HexDigit(v % 16)]
  }

  /** Any character as escapes: one, or a surrogate pair. */
  function AsEscapes(cp: Utf8.scalar): seq<byte> {
    if cp < 0x1_0000 then [BACKSLASH, 0x75] + Hex4Of(cp)
    else
      var v := cp - 0x1_0000;
      [BACKSLASH, 0x75] + Hex4Of(0xD800 + v / 0x400) + [BACKSLASH, 0x75] + Hex4Of(0xDC00 + v % 0x400)
  }

  lemma HexBack(d: nat)
    requires d < 16
    ensures Hex1(HexDigit(d)) == Some(d)
  {
  }

  lemma Hex4Back(v: nat, rest: seq<byte>)
    requires v < 0x1_0000
    ensures Hex4(Hex4Of(v) + rest) == Some(v)
  {
    hide HexDigit, Hex1;
    var a, b, c := v / 16 / 16 / 16, v / 16 / 16 % 16, v / 16 % 16;
    HexBack(a);
    HexBack(b);
    HexBack(c);
    HexBack(v % 16);
    assert ((a * 16 + b) * 16 + c) * 16 + v % 16 == v;
  }

  /** A character written with escapes reads as its UTF-8 form, pairs included. */
  lemma EscapesRead(cp: Utf8.scalar, rest: seq<byte>)
    ensures NextUnit(AsEscapes(cp) + rest) == Unit(Utf8.Put(cp), |AsEscapes(cp)|)
  {
    hide Hex4, Hex4Of, Utf8.Put;
    var s := AsEscapes(cp) + rest;
    if cp < 0x1_0000 {
      assert s[2..] == Hex4Of(cp) + rest;
      Hex4Back(cp, rest);
    } else {
      var v := cp - 0x1_0000;
      var hi, lo := 0xD800 + v / 0x400, 0xDC00 + v % 0x400;
      var t := s[2..];
      assert t == Hex4Of(hi) + ([BACKSLASH, 0x75] + Hex4Of(lo) + rest);
      assert t[6..] == Hex4Of(lo) + rest && t[4] == BACKSLASH && t[5] == 0x75;
      Hex4Back(hi, [BACKSLASH, 0x75] + Hex4Of(lo) + rest);
      Hex4Back(lo, rest);
    }
  }

  /** Half a pair is refused wherever it stands. */
  lemma LoneSurrogateRefused(v: nat, rest: seq<byte>)
    requires 0xD800 <= v <= 0xDFFF
    requires v <= 0xDBFF ==> |rest| < 6 || rest[0] != BACKSLASH || rest[1] != 0x75
    ensures NextUnit([BACKSLASH, 0x75] + Hex4Of(v) + rest) == Broken
  {
    hide Hex4, Hex4Of;
    var s := [BACKSLASH, 0x75] + Hex4Of(v) + rest;
    assert s[2..] == Hex4Of(v) + rest;
    Hex4Back(v, rest);
    assert |rest| >= 6 ==> s[2..][4] == rest[0] && s[2..][5] == rest[1];
  }
}
