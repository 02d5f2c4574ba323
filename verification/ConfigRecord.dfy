/** The configuration record and the choice between its two stored copies (firmware/src/config/config.c). */
module ConfigRecord {
  import opened Bytes
  import Crc32

  const CFG_MAGIC: seq<byte> := [0x52, 0x57, 0x43, 0x46] // "RWCF"
  const CFG_VERSION: u16 := 2
  const HEADER_LEN: nat := 32
  const PAYLOAD_LEN: nat := 443
  const CFG_RECORD_LEN: nat := HEADER_LEN + PAYLOAD_LEN

  // Field widths, terminator included
  const SSID: nat := 33
  const PSK: nat := 65
  const RELAY: nat := 129
  const DEVICE: nat := 17
  const TOKEN: nat := 65
  const EMAIL: nat := 129

  const AUTH_AUTO: byte := 255

  datatype Config = Config(seqno: u32, ssid: seq<byte>, psk: seq<byte>, auth: byte, relay: seq<byte>,
                           device: seq<byte>, token: seq<byte>, email: seq<byte>, flags: u32)
  {
    /** Every string is a C string; how long it may be is for the encoder to say. */
    predicate Strings() {
      CString(ssid) && CString(psk) && CString(relay) && CString(device) && CString(token) && CString(email)
    }

    predicate Fits() {
      && |ssid| < SSID && |psk| < PSK && |relay| < RELAY
      && |device| < DEVICE && |token| < TOKEN && |email| < EMAIL
    }
  }

  const UNPROVISIONED: Config := Config(0, [], [], AUTH_AUTO, [], [], [], [], 0)

  predicate CString(s: seq<byte>) {
    forall i :: 0 <= i < |s| ==> s[i] != 0
  }

  // Encoding

  function Padded(s: seq<byte>, width: nat): (f: seq<byte>)
    requires |s| < width
    ensures |f| == width
  {
    s + Fill(0, width - |s|)
  }

  function Payload(c: Config): (p: seq<byte>)
    requires c.Fits()
    ensures |p| == PAYLOAD_LEN
  {
    Padded(c.ssid, SSID) + Padded(c.psk, PSK) + [c.auth] + Padded(c.relay, RELAY)
    + Padded(c.device, DEVICE) + Padded(c.token, TOKEN) + Padded(c.email, EMAIL) + Le32(c.flags)
  }

  function Header(seqno: u32, sum: u32): (h: seq<byte>)
    ensures |h| == HEADER_LEN
  {
    CFG_MAGIC + Le16(CFG_VERSION) + [0, 0] + Le32(seqno) + Le32(PAYLOAD_LEN) + Le32(sum) + Fill(0, 12)
  }

  function Encode(crc: Checksum, c: Config): (r: Option<seq<byte>>)
    ensures r.Some? <==> c.Fits()
    ensures r.Some? ==> |r.value| == CFG_RECORD_LEN
  {
    if !c.Fits() then None
    else Some(Header(c.seqno, crc(Payload(c))) + Payload(c))
  }

  // Decoding

  /** get_str: the bytes before the first NUL, or all but the last if there is none. */
  function Text(field: seq<byte>): (s: seq<byte>)
    requires field != []
    ensures |s| < |field| && CString(s)
  {
    UpToNul(field[..|field| - 1])
  }

  function Normal(auth: byte): byte {
    if auth <= 2 then auth else AUTH_AUTO
  }

  function Fields(seqno: u32, p: seq<byte>): (c: Config)
    requires |p| == PAYLOAD_LEN
    ensures c.Fits() && c.Strings()
  {
    Config(seqno, Text(p[0..33]), Text(p[33..98]), Normal(p[98]), Text(p[99..228]),
           Text(p[228..245]), Text(p[245..310]), Text(p[310..439]), Rd32(p[439..443]))
  }

  /** Whatever reads at all can be written again. */
  function Decode(crc: Checksum, raw: seq<byte>): (r: Option<Config>)
    ensures r.Some? ==> r.value.Fits() && r.value.Strings()
  {
    if |raw| < HEADER_LEN then None
    else if raw[0..4] != CFG_MAGIC then None
    else if Rd16(raw[4..6]) != CFG_VERSION then None
    else if Rd32(raw[12..16]) != PAYLOAD_LEN then None
    else if |raw| < CFG_RECORD_LEN then None
    else if crc(raw[HEADER_LEN..CFG_RECORD_LEN]) != Rd32(raw[16..20]) then None
    else Some(Fields(Rd32(raw[8..12]), raw[HEADER_LEN..CFG_RECORD_LEN]))
  }

  lemma TextOfPadded(s: seq<byte>, width: nat)
    requires CString(s) && |s| < width
    ensures Text(Padded(s, width)) == s
  {
    assert Padded(s, width)[..width - 1] == s + Fill(0, width - 1 - |s|);
    UpToNulOfPadded(s, Fill(0, width - 1 - |s|));
  }

  /** Where every field is in a payload of 443 bytes. */
  lemma PayloadLayout(c: Config)
    requires c.Fits()
    ensures var p := Payload(c);
            && p[0..33] == Padded(c.ssid, SSID) && p[33..98] == Padded(c.psk, PSK) && p[98] == c.auth
            && p[99..228] == Padded(c.relay, RELAY) && p[228..245] == Padded(c.device, DEVICE)
            && p[245..310] == Padded(c.token, TOKEN) && p[310..439] == Padded(c.email, EMAIL)
            && p[439..443] == Le32(c.flags)
  {
  }

  lemma FieldsOfPayload(c: Config)
    requires c.Fits() && c.Strings()
    ensures Fields(c.seqno, Payload(c)) == c.(auth := Normal(c.auth))
  {
    PayloadLayout(c);
    hide Payload, Padded, Text;
    TextOfPadded(c.ssid, SSID);
    TextOfPadded(c.psk, PSK);
    TextOfPadded(c.relay, RELAY);
    TextOfPadded(c.device, DEVICE);
    TextOfPadded(c.token, TOKEN);
    TextOfPadded(c.email, EMAIL);
    Le32RoundTrip(c.flags);
  }

  /** And in the header: RWCF, version 2, the number, the length 443, the checksum, zeros where nothing is. */
  lemma HeaderLayout(seqno: u32, sum: u32)
    ensures var h := Header(seqno, sum);
            && h[0..4] == [0x52, 0x57, 0x43, 0x46] == CFG_MAGIC && h[4..6] == [2, 0] == Le16(CFG_VERSION) && h[6..8] == [0, 0]
            && h[8..12] == Le32(seqno) && h[12..16] == [0xBB, 1, 0, 0] == Le32(PAYLOAD_LEN) && h[16..20] == Le32(sum)
            && h[20..32] == Fill(0, 12)
  {
  }

  /** A record reads back as itself, with an undefined authentication mode read as automatic. */
  lemma EncodeDecode(crc: Checksum, c: Config, raw: seq<byte>)
    requires c.Strings() && Encode(crc, c).Some? && Encode(crc, c).value <= raw
    ensures Decode(crc, raw) == Some(c.(auth := if c.auth == 0 || c.auth == 1 || c.auth == 2 then c.auth else 255))
  {
    hide Header, Payload, Fields;
    var h, p := Header(c.seqno, crc(Payload(c))), Payload(c);
    HeaderLayout(c.seqno, crc(p));
    assert raw[..HEADER_LEN] == h && raw[HEADER_LEN..CFG_RECORD_LEN] == p;
    SliceOfPrefix(raw, h, 0, 4);
    SliceOfPrefix(raw, h, 4, 6);
    SliceOfPrefix(raw, h, 8, 12);
    SliceOfPrefix(raw, h, 12, 16);
    SliceOfPrefix(raw, h, 16, 20);
    Le32RoundTrip(c.seqno);
    Le32RoundTrip(PAYLOAD_LEN);
    Le32RoundTrip(crc(p));
    FieldsOfPayload(c);
  }

  /**
   * What reads: RWCF, version 2, a length of 443, all of it there, and a checksum that agrees; the
   * two reserved bytes and the rest of the header are not looked at. And what it reads as.
   */
  lemma DecodesExactly(crc: Checksum, raw: seq<byte>)
    ensures var r := Decode(crc, raw);
            && (r.Some? <==> && |raw| >= 475 && raw[0..4] == [0x52, 0x57, 0x43, 0x46] && raw[4..6] == [2, 0]
                             && raw[12..16] == [0xBB, 1, 0, 0] && raw[16..20] == Le32(crc(raw[32..475])))
            && (r.Some? ==>
                  && raw[8..12] == Le32(r.value.seqno) && raw[471..475] == Le32(r.value.flags)
                  && InField(raw[32..65], 32, r.value.ssid) && InField(raw[65..130], 64, r.value.psk)
                  && r.value.auth == (if raw[130] == 0 || raw[130] == 1 || raw[130] == 2 then raw[130] else 255)
                  && InField(raw[131..260], 128, r.value.relay) && InField(raw[260..277], 16, r.value.device)
                  && InField(raw[277..342], 64, r.value.token) && InField(raw[342..471], 128, r.value.email))
  {
    hide Rd16, Rd32, Fields, InField;
    if |raw| >= 475 {
      Rd16Exactly(raw[4..6], 2);
      Rd32Exactly(raw[12..16], 443);
      Rd32Exactly(raw[16..20], crc(raw[32..475]));
      FieldsExactly(Rd32(raw[8..12]), raw[32..475]);
      PayloadSlices(raw);
      Le32Back(raw[8..12]);
    }
  }

  lemma FieldsExactly(seqno: u32, p: seq<byte>)
    requires |p| == 443
    ensures var c := Fields(seqno, p);
            && p[439..443] == Le32(c.flags) && c.seqno == seqno && c.auth == Normal(p[98])
            && InField(p[0..33], 32, c.ssid) && InField(p[33..98], 64, c.psk) && InField(p[99..228], 128, c.relay)
            && InField(p[228..245], 16, c.device) && InField(p[245..310], 64, c.token) && InField(p[310..439], 128, c.email)
  {
    hide Text;
    TextHolds(p[0..33]);
    TextHolds(p[33..98]);
    TextHolds(p[99..228]);
    TextHolds(p[228..245]);
    TextHolds(p[245..310]);
    TextHolds(p[310..439]);
    Le32Back(p[439..443]);
  }

  lemma TextHolds(field: seq<byte>)
    requires field != []
    ensures InField(field, |field| - 1, Text(field))
  {
  }

  lemma PayloadSlices(raw: seq<byte>)
    requires |raw| >= 475
    ensures var p := raw[32..475];
            && raw[32..65] == p[0..33] && raw[65..130] == p[33..98] && raw[130] == p[98] && raw[131..260] == p[99..228]
            && raw[260..277] == p[228..245] && raw[277..342] == p[245..310] && raw[342..471] == p[310..439]
            && raw[471..475] == p[439..443]
  {
  }

  /** Under the real checksum, damage to the payload confined to four bytes is always noticed. */
  lemma DamagedPayloadRefused(c: Config, raw: seq<byte>, bad: seq<byte>, at: nat, k: nat)
    requires Encode(Crc32.Value, c) == Some(raw) && |bad| == CFG_RECORD_LEN
    requires k <= 4 && HEADER_LEN <= at && at + k <= CFG_RECORD_LEN
    requires bad[..at] == raw[..at] && bad[at + k..] == raw[at + k..] && bad != raw
    ensures Decode(Crc32.Value, bad) == None
  {
    hide Crc32.Value, Header, Payload, Fields;
    var m, n, i := bad[HEADER_LEN..], raw[HEADER_LEN..], at - HEADER_LEN;
    assert bad[..HEADER_LEN] == bad[..at][..HEADER_LEN] == raw[..HEADER_LEN];
    assert m[..i] == bad[..at][HEADER_LEN..] && n[..i] == raw[..at][HEADER_LEN..];
    assert m[i + k..] == bad[at + k..] && n[i + k..] == raw[at + k..];
    assert bad[..HEADER_LEN] + m == bad && raw[..HEADER_LEN] + n == raw;
    var h := Header(c.seqno, Crc32.Value(Payload(c)));
    assert n == Payload(c) && raw[..HEADER_LEN] == h;
    HeaderLayout(c.seqno, Crc32.Value(n));
    SliceOfPrefix(bad, h, 16, 20);
    Le32RoundTrip(Crc32.Value(n));
    Crc32.BurstDetected(m, n, i, k);
    assert bad[HEADER_LEN..CFG_RECORD_LEN] == m;
  }

  // Choosing between the copies

  /** rw_seq_newer: the 32-bit difference, read as signed, is positive. */
  predicate Newer(a: u32, b: u32) {
    0 < Sub32(a, b) < 0x8000_0000
  }

  /** At most one of two numbers is newer, and one just after another always is, wrap or not. */
  lemma NewerIsAnOrderLocally(a: u32, b: u32)
    ensures !(Newer(a, b) && Newer(b, a))
    ensures Newer(Add32(a, 1), a) && !Newer(a, Add32(a, 1))
    ensures a != b && Sub32(a, b) != 0x8000_0000 ==> Newer(a, b) || Newer(b, a)
  {
  }

  datatype Winner = Neither | First | Second

  function Select(crc: Checksum, a: seq<byte>, b: seq<byte>): (r: (Winner, Config))
    ensures r.0 == Neither <==> Decode(crc, a).None? && Decode(crc, b).None?
    ensures r.0 == First ==> Decode(crc, a) == Some(r.1)
    ensures r.0 == Second ==> Decode(crc, b) == Some(r.1)
  {
    match (Decode(crc, a), Decode(crc, b))
    case (Some(ca), Some(cb)) => if Newer(cb.seqno, ca.seqno) then (Second, cb) else (First, ca)
    case (Some(ca), None) => (First, ca)
    case (None, Some(cb)) => (Second, cb)
    case (None, None) => (Neither, UNPROVISIONED)
  }

  // The code: a record built and read in a byte buffer

  /** memcpy of a value into the buffer. */
  method PutBytes(out: array<byte>, off: nat, v: seq<byte>)
    requires off + |v| <= out.Length
    modifies out
    ensures out[off..off + |v|] == v
    ensures forall i :: 0 <= i < out.Length && !(off <= i < off + |v|) ==> out[i] == old(out[i])
  {
    for n := 0 to |v|
      invariant out[off..off + n] == v[..n]
      invariant forall i :: 0 <= i < out.Length && !(off <= i < off + n) ==> out[i] == old(out[i])
    {
      out[off + n] := v[n];
    }
  }

  /** put_str: refuses what leaves no room for the terminator; the rest of the field is already zero. */
  method PutString(out: array<byte>, off: nat, width: nat, v: seq<byte>) returns (ok: bool)
    requires 0 < width && off + width <= out.Length
    requires forall i :: off <= i < off + width ==> out[i] == 0
    modifies out
    ensures ok <==> |v| < width
    ensures ok ==> out[off..off + width] == Padded(v, width)
    ensures forall i :: 0 <= i < out.Length && !(off <= i < off + width) ==> out[i] == old(out[i])
  {
    if |v| > width - 1 {
      return false;
    }
    PutBytes(out, off, v);
    assert out[off..off + width] == out[off..off + |v|] + out[off + |v|..off + width];
    ok := true;
  }

  /** get_str. */
  method GetString(payload: seq<byte>, off: nat, width: nat) returns (v: seq<byte>)
    requires 0 < width && off + width <= |payload|
    ensures v == Text(payload[off..off + width])
  {
    var n := 0;
    while n < width - 1 && payload[off + n] != 0
      invariant n <= width - 1
      invariant forall i :: off <= i < off + n ==> payload[i] != 0
    {
      n := n + 1;
    }
    v := payload[off..off + n];
    TextAt(payload[off..off + width], n);
  }

  lemma TextAt(field: seq<byte>, n: nat)
    requires n < |field| && CString(field[..n]) && (n < |field| - 1 ==> field[n] == 0)
    ensures Text(field) == field[..n]
  {
    var rest := field[n..|field| - 1];
    UpToNulOfPadded(field[..n], rest);
    assert field[..|field| - 1] == field[..n] + rest;
  }

  /** The six strings of the payload, in a zeroed buffer; stops at the first that does not fit. */
  method PutStrings(c: Config, out: array<byte>) returns (ok: bool)
    requires out.Length >= CFG_RECORD_LEN
    requires forall i :: 0 <= i < CFG_RECORD_LEN ==> out[i] == 0
    modifies out
    ensures ok <==> c.Fits()
    ensures ok ==> StringsPut(c, out[..CFG_RECORD_LEN])
    ensures ok ==> forall i :: 0 <= i < HEADER_LEN ==> out[i] == 0
    ensures forall i :: CFG_RECORD_LEN <= i < out.Length ==> out[i] == old(out[i])
  {
    hide Padded;
    ok := PutString(out, HEADER_LEN + 0, SSID, c.ssid);
    if !ok { return; }
    ok := PutString(out, HEADER_LEN + 33, PSK, c.psk);
    if !ok { return; }
    ok := PutString(out, HEADER_LEN + 99, RELAY, c.relay);
    if !ok { return; }
    assert out[32..65] == Padded(c.ssid, SSID) && out[65..130] == Padded(c.psk, PSK);
    ok := PutString(out, HEADER_LEN + 228, DEVICE, c.device);
    if !ok { return; }
    ok := PutString(out, HEADER_LEN + 245, TOKEN, c.token);
    if !ok { return; }
    assert out[131..260] == Padded(c.relay, RELAY) && out[260..277] == Padded(c.device, DEVICE);
    ok := PutString(out, HEADER_LEN + 310, EMAIL, c.email);
    assert out[277..342] == Padded(c.token, TOKEN);
    ghost var s := out[..CFG_RECORD_LEN];
    FieldAt(out, s, 32, 65);
    FieldAt(out, s, 65, 130);
    FieldAt(out, s, 131, 260);
    FieldAt(out, s, 260, 277);
    FieldAt(out, s, 277, 342);
    FieldAt(out, s, 342, 471);
  }

  lemma FieldAt(out: array<byte>, s: seq<byte>, lo: nat, hi: nat)
    requires |s| <= out.Length && s == out[..|s|] && lo <= hi <= |s|
    ensures s[lo..hi] == out[lo..hi]
  {
    assert forall i :: lo <= i < hi ==> s[i] == out[i];
  }

  predicate StringsPut(c: Config, s: seq<byte>)
    requires |s| == CFG_RECORD_LEN
  {
    && c.Fits()
    && s[32..65] == Padded(c.ssid, SSID) && s[65..130] == Padded(c.psk, PSK)
    && s[131..260] == Padded(c.relay, RELAY) && s[260..277] == Padded(c.device, DEVICE)
    && s[277..342] == Padded(c.token, TOKEN) && s[342..471] == Padded(c.email, EMAIL)
  }

  /** rw_config_encode, the buffer's length already checked. */
  method EncodeInto(crc: Checksum, c: Config, out: array<byte>) returns (n: nat)
    requires out.Length >= CFG_RECORD_LEN
    modifies out
    ensures if c.Fits() then n == CFG_RECORD_LEN && Encode(crc, c) == Some(out[..CFG_RECORD_LEN]) else n == 0
    ensures forall i :: CFG_RECORD_LEN <= i < out.Length ==> out[i] == old(out[i])
  {
    for i := 0 to CFG_RECORD_LEN
      invariant forall j :: 0 <= j < i ==> out[j] == 0
      invariant forall j :: CFG_RECORD_LEN <= j < out.Length ==> out[j] == old(out[j])
    {
      out[i] := 0;
    }
    var ok := PutStrings(c, out);
    if !ok {
      return 0;
    }
    ghost var was := out[..CFG_RECORD_LEN];
    PutBytes(out, HEADER_LEN + 98, [c.auth]);
    PutBytes(out, HEADER_LEN + 439, Le32(c.flags));
    ghost var now := out[..CFG_RECORD_LEN];
    StringsStay(c, was, now);
    assert now[130..131] == out[130..131] && now[471..475] == out[471..475];
    PayloadFromParts(c, now);
    var p := out[HEADER_LEN..CFG_RECORD_LEN];
    assert p == now[HEADER_LEN..CFG_RECORD_LEN];
    PutHeader(c.seqno, crc(p), out);
    assert out[HEADER_LEN..CFG_RECORD_LEN] == p;
    assert out[..CFG_RECORD_LEN] == out[..HEADER_LEN] + out[HEADER_LEN..CFG_RECORD_LEN];
    n := CFG_RECORD_LEN;
  }

  /** The header fields, over zeros. */
  method PutHeader(seqno: u32, sum: u32, out: array<byte>)
    requires out.Length >= HEADER_LEN && forall i :: 0 <= i < HEADER_LEN ==> out[i] == 0
    modifies out
    ensures out[..HEADER_LEN] == Header(seqno, sum)
    ensures forall i :: HEADER_LEN <= i < out.Length ==> out[i] == old(out[i])
  {
    hide Le16, Le32;
    PutMagic(out);
    PutBytes(out, 8, Le32(seqno));
    PutBytes(out, 12, Le32(PAYLOAD_LEN));
    assert out[8..12] == Le32(seqno) && out[..8] == CFG_MAGIC + Le16(CFG_VERSION) + [0, 0];
    PutBytes(out, 16, Le32(sum));
    assert out[12..16] == Le32(PAYLOAD_LEN);
    assert out[..HEADER_LEN] == out[..8] + out[8..12] + out[12..16] + out[16..20] + out[20..32];
    assert out[20..32] == Fill(0, 12);
  }

  method PutMagic(out: array<byte>)
    requires out.Length >= HEADER_LEN && forall i :: 0 <= i < 8 ==> out[i] == 0
    modifies out
    ensures out[..8] == CFG_MAGIC + Le16(CFG_VERSION) + [0, 0]
    ensures forall i :: 8 <= i < out.Length ==> out[i] == old(out[i])
  {
    PutBytes(out, 0, CFG_MAGIC);
    PutBytes(out, 4, Le16(CFG_VERSION));
    PutBytes(out, 6, Le16(0));
    assert out[..8] == out[0..4] + out[4..6] + out[6..8];
  }

  lemma StringsStay(c: Config, s: seq<byte>, t: seq<byte>)
    requires |s| == |t| == CFG_RECORD_LEN && StringsPut(c, s)
    requires forall i :: 32 <= i < 471 && i != 130 ==> t[i] == s[i]
    ensures StringsPut(c, t)
  {
    hide Padded;
    assert t[32..65] == s[32..65] && t[65..130] == s[65..130] && t[131..260] == s[131..260];
    assert t[260..277] == s[260..277] && t[277..342] == s[277..342] && t[342..471] == s[342..471];
  }

  lemma PayloadFromParts(c: Config, s: seq<byte>)
    requires |s| == CFG_RECORD_LEN && StringsPut(c, s) && s[130..131] == [c.auth] && s[471..475] == Le32(c.flags)
    ensures s[HEADER_LEN..CFG_RECORD_LEN] == Payload(c)
  {
    hide Padded;
    assert s[32..475] == s[32..65] + s[65..130] + s[130..131] + s[131..260] + s[260..277] + s[277..342] + s[342..471] + s[471..475];
  }
}
