/**
 * The firmware's three UTF-8 routines (firmware/src/proto/json.c, firmware/src/usbcfg/cmdline.c,
 * firmware/src/net/mdns.c) against section 4 of RFC 3629.
 */
module Utf8 {
  import opened Bytes

  /** A Unicode scalar value. */
  type scalar = cp: int | 0 <= cp < 0xD800 || 0xE000 <= cp < 0x11_0000

  predicate Scalar(cp: int) {
    0 <= cp < 0xD800 || 0xE000 <= cp < 0x11_0000
  }

  // The standard's grammar

  predicate Tail(b: byte) {
    0x80 <= b <= 0xBF
  }

  /** One UTF8-char, by the productions UTF8-1 to UTF8-4. */
  predicate IsChar(s: seq<byte>) {
    || (|s| == 1 && s[0] <= 0x7F)
    || (|s| == 2 && 0xC2 <= s[0] <= 0xDF && Tail(s[1]))
    || (|s| == 3 && s[0] == 0xE0 && 0xA0 <= s[1] <= 0xBF && Tail(s[2]))
    || (|s| == 3 && (0xE1 <= s[0] <= 0xEC || 0xEE <= s[0] <= 0xEF) && Tail(s[1]) && Tail(s[2]))
    || (|s| == 3 && s[0] == 0xED && 0x80 <= s[1] <= 0x9F && Tail(s[2]))
    || (|s| == 4 && s[0] == 0xF0 && 0x90 <= s[1] <= 0xBF && Tail(s[2]) && Tail(s[3]))
    || (|s| == 4 && 0xF1 <= s[0] <= 0xF3 && Tail(s[1]) && Tail(s[2]) && Tail(s[3]))
    || (|s| == 4 && s[0] == 0xF4 && 0x80 <= s[1] <= 0x8F && Tail(s[2]) && Tail(s[3]))
  }

  // Encoding and decoding one character

  /** put_utf8. */
  function Put(cp: nat): (s: seq<byte>)
    requires cp < 0x20_0000
    ensures 1 <= |s| <= 4
  {
    if cp < 0x80 then [cp]
    else if cp < 0x800 then [0xC0 + cp / 64, 0x80 + cp % 64]
    else if cp < 0x1_0000 then [0xE0 + cp / 64 / 64, 0x80 + cp / 64 % 64, 0x80 + cp % 64]
    else [0xF0 + cp / 64 / 64 / 64, 0x80 + cp / 64 / 64 % 64, 0x80 + cp / 64 % 64, 0x80 + cp % 64]
  }

  /** How many bytes a first byte announces; 0 if it cannot be first. */
  function Announced(b: byte): nat {
    if b < 0x80 then 1 else if b / 32 == 6 then 2 else if b / 16 == 14 then 3 else if b / 8 == 30 then 4 else 0
  }

  /** The payload bits of a first byte. */
  function FirstBits(b: byte): nat {
    if b < 0x80 then b else if b / 32 == 6 then b % 32 else if b / 16 == 14 then b % 16 else b % 8
  }

  /** Continuation bytes folded into a value; None if one of them is not one. */
  function Folded(v: nat, s: seq<byte>): Option<nat>
    decreases |s|
  {
    if s == [] then Some(v)
    else if s[0] / 64 != 2 then None
    else Folded(v * 64 + s[0] % 64, s[1..])
  }

  function Least(n: nat): nat {
    if n == 2 then 0x80 else if n == 3 then 0x800 else if n == 4 then 0x1_0000 else 0
  }

  datatype Read = Char(cp: nat, n: nat) | Malformed

  /** utf8_decode: strict, on whatever bytes are left. */
  function DecodeOne(s: seq<byte>): (r: Read)
    requires s != []
    ensures r.Char? ==> 1 <= r.n <= |s| && r.n <= 4
  {
    var n := Announced(s[0]);
    if n == 0 || |s| < n then Malformed
    else
      match Folded(FirstBits(s[0]), s[1..n])
      case None => Malformed
      case Some(v) => if v < Least(n) || v > 0x10_FFFF || 0xD800 <= v <= 0xDFFF then Malformed else Char(v, n)
  }

  method Decode(p: seq<byte>, at: nat) returns (r: Read)
    requires at < |p|
    ensures r == DecodeOne(p[at..])
  {
    var b := p[at];
    ghost var s := p[at..];
    var need := Announced(b);
    if need == 0 || |p| - at < need {
      return Malformed;
    }
    var v: nat := FirstBits(b);
    var i := 1;
    while i < need
      invariant 1 <= i <= need
      invariant Folded(v, s[i..need]) == Folded(FirstBits(b), s[1..need])
    {
      if p[at + i] / 64 != 2 {
        return Malformed;
      }
      assert s[i..need][1..] == s[i + 1..need];
      v := v * 64 + p[at + i] % 64;
      i := i + 1;
    }
    if v < Least(need) || v > 0x10_FFFF || 0xD800 <= v <= 0xDFFF {
      return Malformed;
    }
    r := Char(v, need);
  }

  lemma {:induction false} FoldedAll(v: nat, s: seq<byte>)
    requires 1 <= |s| <= 3
    ensures |s| == 1 ==> Folded(v, s) == if s[0] / 64 == 2 then Some(v * 64 + s[0] % 64) else None
    ensures |s| == 2 ==> Folded(v, s) == if s[0] / 64 == 2 && s[1] / 64 == 2
                                         then Some((v * 64 + s[0] % 64) * 64 + s[1] % 64) else None
    ensures |s| == 3 ==> Folded(v, s) == if s[0] / 64 == 2 && s[1] / 64 == 2 && s[2] / 64 == 2
                                         then Some(((v * 64 + s[0] % 64) * 64 + s[1] % 64) * 64 + s[2] % 64) else None
    decreases |s|
  {
    if |s| > 1 {
      FoldedAll(v * 64 + s[0] % 64, s[1..]);
    } else {
      assert Folded(v * 64 + s[0] % 64, s[1..]) == Some(v * 64 + s[0] % 64);
    }
  }

  /** What the continuation bytes add up to. */
  function Sum(v: nat, s: seq<byte>): nat
    requires |s| <= 3
  {
    if |s| == 0 then v
    else if |s| == 1 then v * 64 + s[0] % 64
    else if |s| == 2 then (v * 64 + s[0] % 64) * 64 + s[1] % 64
    else ((v * 64 + s[0] % 64) * 64 + s[1] % 64) * 64 + s[2] % 64
  }

  lemma TailByte(x: nat)
    requires x < 64
    ensures (0x80 + x) % 64 == x && (0x80 + x) / 64 == 2
  {
  }

  lemma FirstByte(x: nat)
    ensures x < 32 ==> Announced(0xC0 + x) == 2 && FirstBits(0xC0 + x) == x
    ensures x < 16 ==> Announced(0xE0 + x) == 3 && FirstBits(0xE0 + x) == x
    ensures x < 8 ==> Announced(0xF0 + x) == 4 && FirstBits(0xF0 + x) == x
  {
  }

  lemma Digit(v: nat)
    ensures v / 64 * 64 + v % 64 == v && v % 64 < 64
  {
  }

  lemma PutParts(cp: scalar)
    ensures var p := Put(cp);
            && Announced(p[0]) == |p| && Least(|p|) <= cp && Sum(FirstBits(p[0]), p[1..]) == cp
            && forall i :: 1 <= i < |p| ==> p[i] / 64 == 2
  {
    hide Announced, FirstBits;
    var a, b := cp / 64, cp / 64 / 64;
    Digit(cp);
    Digit(a);
    Digit(b);
    TailByte(cp % 64);
    TailByte(a % 64);
    TailByte(b % 64);
    if cp < 0x80 {
      OneByte(cp);
    } else if cp < 0x800 {
      FirstByte(a);
    } else if cp < 0x1_0000 {
      FirstByte(b);
    } else {
      FirstByte(b / 64);
    }
  }

  lemma OneByte(b: byte)
    requires b < 0x80
    ensures Announced(b) == 1 && FirstBits(b) == b
  {
  }

  /** Writing a scalar value and reading it back. */
  lemma DecodeOfPut(cp: scalar, rest: seq<byte>)
    ensures DecodeOne(Put(cp) + rest) == Char(cp, |Put(cp)|)
  {
    hide Put, Announced, FirstBits;
    PutParts(cp);
    var s, p := Put(cp) + rest, Put(cp);
    assert s[1..|p|] == p[1..] && s[0] == p[0];
    if |p| > 1 {
      FoldedAll(FirstBits(p[0]), p[1..]);
    }
  }

  lemma TailByteBack(b: byte)
    requires b / 64 == 2
    ensures b == 0x80 + b % 64
  {
  }

  lemma FirstByteBack(b: byte)
    ensures Announced(b) == 1 ==> FirstBits(b) == b < 0x80
    ensures Announced(b) == 2 ==> b == 0xC0 + FirstBits(b) && FirstBits(b) < 32
    ensures Announced(b) == 3 ==> b == 0xE0 + FirstBits(b) && FirstBits(b) < 16
    ensures Announced(b) == 4 ==> b == 0xF0 + FirstBits(b) && FirstBits(b) < 8
  {
  }

  lemma DigitsOf(hi: nat, lo: nat)
    requires lo < 64
    ensures (hi * 64 + lo) / 64 == hi && (hi * 64 + lo) % 64 == lo
  {
  }

  /** What reads as a character is a scalar value's one encoding. */
  lemma PutOfDecode(s: seq<byte>)
    requires s != [] && DecodeOne(s).Char?
    ensures var (cp, n) := (DecodeOne(s).cp, DecodeOne(s).n);
            Scalar(cp) && Put(cp) == s[..n]
  {
    hide Announced, FirstBits;
    var n := DecodeOne(s).n;
    var first := FirstBits(s[0]);
    FirstByteBack(s[0]);
    if n == 1 {
      assert s[1..1] == [];
    } else {
      var tail := s[1..n];
      FoldedAll(first, tail);
      TailByteBack(tail[0]);
      DigitsOf(first, tail[0] % 64);
      var v := first * 64 + tail[0] % 64;
      if n > 2 {
        TailByteBack(tail[1]);
        DigitsOf(v, tail[1] % 64);
      }
      if n > 3 {
        TailByteBack(tail[2]);
        DigitsOf(v * 64 + tail[1] % 64, tail[2] % 64);
      }
      assert s[..n] == [s[0]] + tail;
    }
  }

  /** The standard's grammar is the set of those encodings. */
  lemma GrammarIsPut(s: seq<byte>)
    ensures IsChar(s) <==> exists cp: scalar :: s == Put(cp)
  {
    if IsChar(s) {
      if |s| > 1 {
        FoldedAll(FirstBits(s[0]), s[1..]);
      }
      assert s[1..|s|] == s[1..];
      assert DecodeOne(s).Char? && DecodeOne(s).n == |s|;
      PutOfDecode(s);
      assert s[..|s|] == s;
    }
    if cp: scalar :| s == Put(cp) {
      PutIsChar(cp);
    }
  }

  lemma PutIsChar(cp: scalar)
    ensures IsChar(Put(cp))
  {
  }

  // Whole strings

  /** Valid text: characters, one after another. */
  predicate Valid(s: seq<byte>) {
    s == [] || (DecodeOne(s).Char? && Valid(s[DecodeOne(s).n..]))
  }

  /**
   * rw_utf8_valid: its own lead bytes, its own overlong tests by length, and continuation bytes
   * read up to wherever the terminator stops them.
   */
  method IsValid(text: seq<byte>) returns (ok: bool)
    requires 0 in text
    ensures ok == Valid(UpToNul(text))
  {
    hide DecodeOne;
    ghost var line := UpToNul(text);
    Terminated(text);
    var p: nat := 0;
    while text[p] != 0
      invariant p <= |line| && Valid(line[p..]) == Valid(line)
      decreases |line| - p
    {
      var c := text[p];
      ghost var s := line[p..];
      assert s[0] == c;
      if c < 0x80 {
        AsciiRead(s);
        assert s[1..] == line[p + 1..];
        p := p + 1;
      } else {
        var extra: nat, cp: nat;
        if c / 32 == 6 {
          extra, cp := 1, c % 32;
        } else if c / 16 == 14 {
          extra, cp := 2, c % 16;
        } else if c / 8 == 30 {
          extra, cp := 3, c % 8;
        } else {
          NoLead(s);
          return false;
        }
        LeadMeans(c, extra, cp);
        var tails: bool;
        tails, cp := ReadTails(text, p, extra, cp);
        if !tails {
          TailsMissing(s, extra);
          return false;
        }
        TailsRead(s, extra, cp);
        if extra == 1 && cp < 0x80 {
          return false;
        }
        if extra == 2 && cp < 0x800 {
          return false;
        }
        if extra == 3 && cp < 0x1_0000 {
          return false;
        }
        if cp > 0x10_FFFF {
          return false;
        }
        if 0xD800 <= cp <= 0xDFFF {
          return false;
        }
        assert s[1 + extra..] == line[p + 1 + extra..];
        p := p + 1 + extra;
      }
    }
    assert p == |line|;
    ok := true;
  }

  /** The same, called on a string and the terminator after it. */
  method IsValidString(s: seq<byte>) returns (ok: bool)
    requires 0 !in s
    ensures ok == Valid(s)
  {
    hide Valid;
    UpToNulOfPadded(s, [0]);
    assert (s + [0])[|s|] == 0;
    ok := IsValid(s + [0]);
  }

  /** The loop over continuation bytes; a terminator among them is not one. */
  method ReadTails(text: seq<byte>, p: nat, extra: nat, first: nat) returns (ok: bool, cp: nat)
    requires 0 in text && p < |UpToNul(text)| && extra <= 3
    ensures var s := UpToNul(text)[p..];
            && (ok <==> |s| > extra && Folded(first, s[1..1 + extra]).Some?)
            && (ok ==> Folded(first, s[1..1 + extra]) == Some(cp))
  {
    Terminated(text);
    ghost var line := UpToNul(text);
    ghost var s := line[p..];
    cp := first;
    var i: nat := 0;
    while i < extra
      invariant i <= extra && i < |s|
      invariant |s| > extra ==> Folded(cp, s[1 + i..1 + extra]) == Folded(first, s[1..1 + extra])
    {
      var cont := text[p + 1 + i];
      if cont / 64 != 2 {
        if |s| > extra {
          assert cont == s[1 + i];
        }
        return false, cp;
      }
      assert p + 1 + i < |line|;
      if |s| > extra {
        assert s[1 + i..1 + extra][1..] == s[2 + i..1 + extra];
      }
      cp := cp * 64 + cont % 64;
      i := i + 1;
    }
    ok := true;
  }

  lemma {:induction false} Terminated(text: seq<byte>)
    requires 0 in text
    ensures |UpToNul(text)| < |text| && text[|UpToNul(text)|] == 0
  {
  }

  lemma AsciiRead(s: seq<byte>)
    requires s != [] && s[0] < 0x80
    ensures Valid(s) == Valid(s[1..])
  {
    OneByte(s[0]);
    assert Folded(FirstBits(s[0]), s[1..1]) == Some(s[0] as int);
    assert DecodeOne(s) == Char(s[0], 1);
  }

  lemma NoLead(s: seq<byte>)
    requires s != [] && s[0] >= 0x80 && s[0] / 32 != 6 && s[0] / 16 != 14 && s[0] / 8 != 30
    ensures !Valid(s)
  {
  }

  lemma LeadMeans(c: byte, extra: nat, cp: nat)
    requires c >= 0x80
    requires (c / 32 == 6 && extra == 1 && cp == c % 32)
             || (c / 32 != 6 && c / 16 == 14 && extra == 2 && cp == c % 16)
             || (c / 32 != 6 && c / 16 != 14 && c / 8 == 30 && extra == 3 && cp == c % 8)
    ensures Announced(c) == 1 + extra && FirstBits(c) == cp
  {
  }

  lemma TailsMissing(s: seq<byte>, extra: nat)
    requires s != [] && Announced(s[0]) == 1 + extra
    requires |s| <= extra || Folded(FirstBits(s[0]), s[1..1 + extra]).None?
    ensures !Valid(s)
  {
  }

  lemma TailsRead(s: seq<byte>, extra: nat, cp: nat)
    requires |s| > extra && Announced(s[0]) == 1 + extra && 1 <= extra <= 3
    requires Folded(FirstBits(s[0]), s[1..1 + extra]) == Some(cp)
    ensures var bad := (extra == 1 && cp < 0x80) || (extra == 2 && cp < 0x800) || (extra == 3 && cp < 0x1_0000)
                       || cp > 0x10_FFFF || 0xD800 <= cp <= 0xDFFF;
            Valid(s) == (!bad && Valid(s[1 + extra..]))
  {
  }

  function Encoded(cps: seq<scalar>): seq<byte> {
    if cps == [] then [] else Put(cps[0]) + Encoded(cps[1..])
  }

  lemma {:induction false} EncodedIsValid(cps: seq<scalar>)
    ensures Valid(Encoded(cps))
    decreases |cps|
  {
    hide DecodeOne, Put;
    if cps != [] {
      EncodedIsValid(cps[1..]);
      DecodeOfPut(cps[0], Encoded(cps[1..]));
      assert Encoded(cps)[|Put(cps[0])|..] == Encoded(cps[1..]);
    }
  }

  lemma {:induction false} ValidIsEncoded(s: seq<byte>) returns (cps: seq<scalar>)
    requires Valid(s)
    ensures Encoded(cps) == s
    decreases |s|
  {
    hide DecodeOne, Put;
    cps := [];
    if s != [] {
      var r := DecodeOne(s);
      PutOfDecode(s);
      var rest := ValidIsEncoded(s[r.n..]);
      cps := [r.cp] + rest;
      assert cps[1..] == rest && s == s[..r.n] + s[r.n..];
    }
  }

  /** A string is accepted exactly when it is encodings of scalar values, one after another. */
  lemma ValidExactly(s: seq<byte>)
    ensures Valid(s) <==> exists cps: seq<scalar> :: Encoded(cps) == s
  {
    if Valid(s) {
      var cps := ValidIsEncoded(s);
    }
    if cps: seq<scalar> :| Encoded(cps) == s {
      EncodedIsValid(cps);
    }
  }

  lemma {:induction false} EncodedSnoc(cps: seq<scalar>, cp: scalar)
    ensures Encoded(cps + [cp]) == Encoded(cps) + Put(cp)
    decreases |cps|
  {
    if cps == [] {
      assert Encoded([cp]) == Put(cp) + Encoded([cp][1..]);
      assert cps + [cp] == [cp];
    } else {
      assert (cps + [cp])[1..] == cps[1..] + [cp];
      EncodedSnoc(cps[1..], cp);
    }
  }

  // A label cut to fit

  /** What would lie about itself on a screen. */
  predicate Deceptive(cp: nat) {
    || cp < 0x21 || cp == 0x7F || 0x80 <= cp <= 0x9F || cp == 0xA0 || cp == 0xAD
    || 0x200B <= cp <= 0x200F || 0x202A <= cp <= 0x202E
    || cp == 0x2028 || cp == 0x2029 || cp == 0x2060 || cp == 0xFEFF || 0x2066 <= cp <= 0x2069
  }

  /** The characters that may not be shown, from and to. */
  function Hidden(): (ranges: seq<(nat, nat)>) {
    [(0, 0x20), (0x7F, 0xA0), (0xAD, 0xAD), (0x200B, 0x200F), (0x2028, 0x2029), (0x202A, 0x202E),
     (0x2060, 0x2060), (0x2066, 0x2069), (0xFEFF, 0xFEFF)]
  }

  lemma DeceptiveExactly(cp: nat)
    ensures Deceptive(cp) <==> exists r :: r in Hidden() && r.0 <= cp <= r.1
  {
    var h := Hidden();
    if Deceptive(cp) {
      var i := if cp <= 0x20 then 0 else if cp <= 0xA0 then 1 else if cp == 0xAD then 2 else if cp <= 0x200F then 3
               else if cp <= 0x2029 then 4 else if cp <= 0x202E then 5 else if cp == 0x2060 then 6 else if cp <= 0x2069 then 7 else 8;
      assert h[i] in h && h[i].0 <= cp <= h[i].1;
    }
  }

  ghost predicate Showable(cps: seq<scalar>) {
    forall i :: 0 <= i < |cps| ==> !Deceptive(cps[i])
  }

  /** How many characters to keep: as many as fit, from the first. */
  function Keep(cps: seq<scalar>, cap: nat): (k: nat)
    ensures k <= |cps|
  {
    if cps == [] then 0
    else
      var k := Keep(cps[..|cps| - 1], cap);
      if |Encoded(cps)| <= cap then |cps| else k
  }

  /** It is the longest prefix of whole characters that fits. */
  lemma {:induction false} KeepIsLongest(cps: seq<scalar>, cap: nat)
    ensures var k := Keep(cps, cap);
            |Encoded(cps[..k])| <= cap && (k < |cps| ==> |Encoded(cps[..k + 1])| > cap)
    decreases |cps|
  {
    if cps != [] {
      var n := |cps| - 1;
      var k := Keep(cps[..n], cap);
      KeepIsLongest(cps[..n], cap);
      assert cps[..|cps|] == cps;
      if |Encoded(cps)| > cap {
        assert cps[..n][..k] == cps[..k];
        if k < n {
          assert cps[..n][..k + 1] == cps[..k + 1];
        } else {
          assert cps[..k + 1] == cps;
        }
      }
    }
  }

  /** The loop of first_label: None for a label not to be shown, otherwise how much of it to keep. */
  method FirstLabel(text: seq<byte>, cap: nat) returns (r: Option<seq<byte>>)
    ensures r.None? <==> !exists cps: seq<scalar> :: Showable(cps) && Encoded(cps) == text
    ensures r.Some? ==> exists cps: seq<scalar> ::
              Showable(cps) && Encoded(cps) == text && r.value == Encoded(cps[..Keep(cps, cap)])
  {
    hide DecodeOne, Put, Deceptive;
    var i: nat, keep: nat := 0, 0;
    ghost var cps: seq<scalar> := [];
    while i < |text|
      invariant i <= |text| && keep <= |text|
      invariant Showable(cps) && Encoded(cps) == text[..i]
      invariant Encoded(cps[..Keep(cps, cap)]) == text[..keep]
    {
      var read := Decode(text, i);
      if read.Malformed? || Deceptive(read.cp) {
        NotShowable(cps, text, i);
        return None;
      }
      PutOfDecode(text[i..]);
      EncodedSnoc(cps, read.cp);
      assert (cps + [read.cp])[..|cps|] == cps;
      assert text[..i] + text[i..][..read.n] == text[..i + read.n];
      i := i + read.n;
      ghost var more := cps + [read.cp];
      assert more[..|more|] == more && more[..Keep(cps, cap)] == cps[..Keep(cps, cap)];
      cps := more;
      if i <= cap {
        keep := i;
      }
    }
    assert text[..i] == text;
    r := Some(text[..keep]);
  }

  /** No list of showable characters spells a label that goes wrong after these. */
  lemma {:induction false} NotShowable(cps: seq<scalar>, text: seq<byte>, i: nat)
    requires Showable(cps) && i < |text| && Encoded(cps) == text[..i]
    requires DecodeOne(text[i..]).Malformed? || Deceptive(DecodeOne(text[i..]).cp)
    ensures !exists all: seq<scalar> :: Showable(all) && Encoded(all) == text
    decreases |cps|
  {
    hide DecodeOne, Put, Deceptive;
    if all: seq<scalar> :| Showable(all) && Encoded(all) == text {
      assert all != [];
      DecodeOfPut(all[0], Encoded(all[1..]));
      if cps != [] {
        assert text == text[..i] + text[i..];
        DecodeOfPut(cps[0], Encoded(cps[1..]) + text[i..]);
        var n := |Put(cps[0])|;
        assert text == Put(cps[0]) + (Encoded(cps[1..]) + text[i..]);
        assert text[n..] == Encoded(all[1..]) && text[n..][..i - n] == Encoded(cps[1..]) && text[n..][i - n..] == text[i..];
        NotShowable(cps[1..], text[n..], i - n);
      }
    }
  }
}
