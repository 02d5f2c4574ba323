/**
 * The update state record: its 40-byte encoding, the choice between two stored copies, and the
 * trial state machine (firmware/src/ota/state.c).
 */
module OtaState {
  import opened Bytes
  import Crc32

  const SLOT_A: byte := 0
  const SLOT_B: byte := 1
  const TRIAL_BOOTS: byte := 3
  const RECORD_LEN: nat := 40
  const VERSTR_WIDTH: nat := 16
  const MAGIC: seq<byte> := [0x52, 0x57, 0x53, 0x54] // "RWST"
  const FORMAT: u16 := 1

  datatype Rec = Rec(seqno: u32, active: byte, fallback: byte, trial: byte, confirmed: bool, version: seq<byte>)

  /** A C string that fits the version field. */
  predicate IsVersion(v: seq<byte>) {
    |v| <= VERSTR_WIDTH && forall i :: 0 <= i < |v| ==> v[i] != 0
  }

  predicate Printable(v: seq<byte>) {
    forall i :: 0 <= i < |v| ==> 0x20 <= v[i] <= 0x7E
  }

  predicate NamesSlots(s: Rec) {
    s.active <= SLOT_B && s.fallback <= SLOT_B
  }

  function OtherSlot(slot: byte): byte {
    if slot == SLOT_A then SLOT_B else SLOT_A
  }

  function CopyVersion(src: seq<byte>): seq<byte> {
    if |src| <= VERSTR_WIDTH then src else src[..VERSTR_WIDTH]
  }

  function Default(version: seq<byte>): Rec {
    Rec(1, SLOT_A, SLOT_A, 0, true, CopyVersion(version))
  }

  // Encoding

  function Body(s: Rec): (b: seq<byte>)
    requires |s.version| <= VERSTR_WIDTH
    ensures |b| == 36
  {
    MAGIC + Le16(FORMAT)
    + [s.active, s.fallback, s.trial, if s.confirmed then 1 else 0, 0, 0]
    + Le32(s.seqno)
    + (s.version + Fill(0, VERSTR_WIDTH - |s.version|))
    + [0, 0, 0, 0]
  }

  function Encode(crc: Checksum, s: Rec): (r: Option<seq<byte>>)
    requires IsVersion(s.version)
    ensures r.Some? ==> |r.value| == RECORD_LEN
    ensures r.Some? <==> NamesSlots(s)
  {
    if s.active > SLOT_B || s.fallback > SLOT_B then None
    else Some(Body(s) + Le32(crc(Body(s))))
  }

  function Decode(crc: Checksum, raw: seq<byte>): (r: Option<Rec>)
    ensures r.Some? ==> IsVersion(r.value.version) && Printable(r.value.version) && NamesSlots(r.value)
  {
    if |raw| < RECORD_LEN then None
    else if raw[0..4] != MAGIC then None
    else if Rd16(raw[4..6]) != FORMAT then None
    else if Rd32(raw[36..40]) != crc(raw[..36]) then None
    else if raw[6] > SLOT_B || raw[7] > SLOT_B then None
    else
      var version := UpToNul(raw[16..32]);
      if !Printable(version) then None
      else Some(Rec(Rd32(raw[12..16]), raw[6], raw[7], raw[8], raw[9] != 0, version))
  }

  /** Where everything is in a record: RWST and format 1, the fields, the version in 16 bytes, zeros where nothing is. */
  lemma BodyLayout(s: Rec)
    requires |s.version| <= VERSTR_WIDTH
    ensures var b := Body(s);
            && b[0..4] == [0x52, 0x57, 0x53, 0x54] == MAGIC && b[4..6] == [1, 0] == Le16(FORMAT)
            && b[6] == s.active && b[7] == s.fallback && b[8] == s.trial && b[9] == (if s.confirmed then 1 else 0)
            && b[10..12] == [0, 0] && b[12..16] == Le32(s.seqno)
            && b[16..32] == s.version + Fill(0, 16 - |s.version|) && b[32..36] == [0, 0, 0, 0]
  {
  }

  /** Both stored copies read back as what was written, exactly when the version is printable. */
  lemma EncodeDecode(crc: Checksum, s: Rec, raw: seq<byte>)
    requires IsVersion(s.version) && Encode(crc, s) == Some(raw)
    ensures Decode(crc, raw) == if forall i :: 0 <= i < |s.version| ==> 0x20 <= s.version[i] <= 0x7E then Some(s) else None
  {
    var body := Body(s);
    BodyLayout(s);
    assert raw[..36] == body && raw[36..40] == Le32(crc(body));
    Le32RoundTrip(crc(body));
    SliceOfPrefix(raw, body, 0, 4);
    SliceOfPrefix(raw, body, 4, 6);
    SliceOfPrefix(raw, body, 12, 16);
    SliceOfPrefix(raw, body, 16, 32);
    assert raw[6] == body[6] && raw[7] == body[7] && raw[8] == body[8] && raw[9] == body[9];
    Le32RoundTrip(s.seqno);
    UpToNulOfPadded(s.version, Fill(0, VERSTR_WIDTH - |s.version|));
  }

  /** What reads, byte by byte, and what it reads as; bytes 10, 11 and 32 to 35 are only under the checksum. */
  lemma DecodesExactly(crc: Checksum, raw: seq<byte>)
    ensures var r := Decode(crc, raw);
            && (r.Some? <==> && |raw| >= 40 && raw[0..4] == [0x52, 0x57, 0x53, 0x54] && raw[4..6] == [1, 0]
                             && raw[36..40] == Le32(crc(raw[..36])) && raw[6] <= 1 && raw[7] <= 1
                             && exists v :: InField(raw[16..32], 16, v) && forall i :: 0 <= i < |v| ==> 0x20 <= v[i] <= 0x7E)
            && (r.Some? ==>
                  && r.value.active == raw[6] && r.value.fallback == raw[7] && r.value.trial == raw[8]
                  && (r.value.confirmed <==> raw[9] != 0)
                  && raw[12..16] == Le32(r.value.seqno) && InField(raw[16..32], 16, r.value.version))
  {
    if |raw| >= 40 {
      Rd16Exactly(raw[4..6], 1);
      Rd32Exactly(raw[36..40], crc(raw[..36]));
      Le32Back(raw[12..16]);
      var field := raw[16..32];
      assert InField(field, 16, UpToNul(field));
      forall v | InField(field, 16, v) ensures v == UpToNul(field) {
        HeldIsOne(field, 16, v, UpToNul(field));
      }
    }
  }

  lemma BodyDamageRefused(s: Rec, raw: seq<byte>, bad: seq<byte>, at: nat, k: nat)
    requires IsVersion(s.version) && Encode(Crc32.Value, s) == Some(raw)
    requires |bad| == RECORD_LEN && k <= 4 && at + k <= 36
    requires bad[..at] == raw[..at] && bad[at + k..] == raw[at + k..] && bad != raw
    ensures Decode(Crc32.Value, bad) == None
  {
    hide Crc32.Value;
    var m, n := bad[..36], raw[..36];
    assert bad[36..40] == bad[at + k..][36 - (at + k)..] == raw[at + k..][36 - (at + k)..] == raw[36..40];
    assert m[..at] == bad[..at] && n[..at] == raw[..at];
    assert m[at + k..] == bad[at + k..][..36 - (at + k)] && n[at + k..] == raw[at + k..][..36 - (at + k)];
    assert m + bad[36..40] == bad && n + raw[36..40] == raw;
    assert n == Body(s) && raw[36..40] == Le32(Crc32.Value(n));
    Le32RoundTrip(Crc32.Value(n));
    Crc32.BurstDetected(m, n, at, k);
  }

  /** Across the end of the body, or in the checksum itself: only the record as written agrees with its checksum. */
  lemma OnlyTheOriginalAgrees(s: Rec, raw: seq<byte>, bad: seq<byte>, at: nat, k: nat)
    requires IsVersion(s.version) && Encode(Crc32.Value, s) == Some(raw)
    requires |bad| == RECORD_LEN && k <= 4 && 36 < at + k <= RECORD_LEN
    requires bad[..at] == raw[..at] && bad[at + k..] == raw[at + k..]
    requires Rd32(bad[36..40]) == Crc32.Value(bad[..36])
    ensures bad == raw
  {
    hide Crc32.Value, Body, Rd32, Le32;
    var m, n := bad[..36], raw[..36];
    assert n == Body(s) && raw[36..40] == Le32(Crc32.Value(n));
    Le32Back(bad[36..40]);
    if at < 36 {
      var j := 36 - at;
      assert m[..36 - j] == bad[..at] && n[..36 - j] == raw[..at];
      TailsAgree(bad, raw, at, k);
      Crc32.StoredBurstDetected(m, n, j);
    } else {
      assert m == bad[..at][..36] && n == raw[..at][..36];
    }
    assert m + bad[36..40] == bad && n + raw[36..40] == raw;
  }

  lemma TailsAgree(bad: seq<byte>, raw: seq<byte>, at: nat, k: nat)
    requires |bad| == |raw| == RECORD_LEN && k <= 4 && at < 36 < at + k && bad[at + k..] == raw[at + k..]
    ensures bad[36..40][4 - (36 - at)..] == raw[36..40][4 - (36 - at)..]
  {
    var lo := at + 4;
    assert bad[36..40][lo - 36..] == bad[at + k..][4 - k..];
    assert raw[36..40][lo - 36..] == raw[at + k..][4 - k..];
  }

  lemma ChecksumDamageRefused(s: Rec, raw: seq<byte>, bad: seq<byte>, at: nat, k: nat)
    requires IsVersion(s.version) && Encode(Crc32.Value, s) == Some(raw)
    requires |bad| == RECORD_LEN && k <= 4 && 36 < at + k <= RECORD_LEN
    requires bad[..at] == raw[..at] && bad[at + k..] == raw[at + k..] && bad != raw
    ensures Decode(Crc32.Value, bad) == None
  {
    hide Crc32.Value, Encode;
    if Rd32(bad[36..40]) == Crc32.Value(bad[..36]) {
      OnlyTheOriginalAgrees(s, raw, bad, at, k);
    }
  }

  /** Under the real checksum, a stored copy with any damage confined to four bytes is refused. */
  lemma DamagedRecordRefused(s: Rec, raw: seq<byte>, bad: seq<byte>, at: nat, k: nat)
    requires IsVersion(s.version) && Encode(Crc32.Value, s) == Some(raw)
    requires |bad| == RECORD_LEN && k <= 4 && at + k <= RECORD_LEN
    requires bad[..at] == raw[..at] && bad[at + k..] == raw[at + k..] && bad != raw
    ensures Decode(Crc32.Value, bad) == None
  {
    hide Encode, Decode;
    if at + k <= 36 {
      BodyDamageRefused(s, raw, bad, at, k);
    } else {
      ChecksumDamageRefused(s, raw, bad, at, k);
    }
  }

  // Choosing between the copies

  function Pick(crc: Checksum, a: seq<byte>, b: seq<byte>): Option<Rec> {
    match (Decode(crc, a), Decode(crc, b))
    case (Some(sa), Some(sb)) => Some(if Sub32(sa.seqno, sb.seqno) < 0x8000_0000 then sa else sb)
    case (Some(sa), None) => Some(sa)
    case (None, r) => r
  }

  /** Of two copies that read, the one up to half the numbers ahead is taken, the first if they are equal; of one, that one. */
  lemma PickExactly(crc: Checksum, a: seq<byte>, b: seq<byte>)
    ensures var (r, sa, sb) := (Pick(crc, a, b), Decode(crc, a), Decode(crc, b));
            && (sb.None? ==> r == sa) && (sa.None? ==> r == sb)
            && (sa.Some? && sb.Some? ==>
                  var ahead: int := (sa.value.seqno as int - sb.value.seqno as int) % 0x1_0000_0000;
                  r == if ahead <= 0x7FFF_FFFF then sa else sb)
  {
    hide Decode;
  }

  // The trial

  datatype Boot = Active | Reverted

  /** rw_ota_state_on_boot: the state to write back, what to do, and whether anything changed. */
  function OnBoot(s: Rec): (Rec, Boot, bool) {
    if s.confirmed then (s, Active, false)
    else if s.trial > 0 then (s.(trial := s.trial - 1, seqno := Add32(s.seqno, 1)), Active, true)
    else (s.(active := s.fallback, confirmed := true, trial := 0, version := [], seqno := Add32(s.seqno, 1)), Reverted, true)
  }

  /** A boot goes back to the fallback exactly when the image was never confirmed and has no try left; else it spends one. */
  lemma BootExactly(s: Rec)
    ensures var (t, boot, changed) := OnBoot(s);
            && (changed <==> !s.confirmed) && (!changed ==> t == s)
            && (boot == Reverted <==> !s.confirmed && s.trial == 0)
            && (boot == Reverted ==> t.active == s.fallback == t.fallback && t.confirmed && t.trial == 0 && t.version == [])
            && (changed && boot == Active ==> t == s.(trial := t.trial, seqno := t.seqno) && t.trial as int == s.trial as int - 1)
            && (changed ==> t.seqno as int == (s.seqno as int + 1) % 0x1_0000_0000)
  {
  }

  function Stage(s: Rec, slot: byte, version: seq<byte>): Rec {
    if slot > SLOT_B then s
    else if slot == s.active && s.confirmed then s
    else s.(fallback := if slot != s.active then s.active else s.fallback,
            active := slot, trial := TRIAL_BOOTS, confirmed := false,
            version := CopyVersion(version), seqno := Add32(s.seqno, 1))
  }

  function Confirm(s: Rec): Rec {
    if s.confirmed then s
    else s.(confirmed := true, trial := 0, fallback := s.active, seqno := Add32(s.seqno, 1))
  }

  /** The record as the C code holds it: a struct changed through a pointer. */
  class StateRecord {
    var seqno: u32
    var active: byte
    var fallback: byte
    var trial: byte
    var confirmed: bool
    var version: seq<byte>

    function Value(): Rec
      reads this
    {
      Rec(seqno, active, fallback, trial, confirmed, version)
    }

    constructor (s: Rec)
      ensures Value() == s
    {
      seqno, active, fallback := s.seqno, s.active, s.fallback;
      trial, confirmed, version := s.trial, s.confirmed, s.version;
    }

    method Assign(s: Rec)
      modifies this
      ensures Value() == s
    {
      seqno, active, fallback := s.seqno, s.active, s.fallback;
      trial, confirmed, version := s.trial, s.confirmed, s.version;
    }

    method BootStep() returns (boot: Boot, writeBack: bool)
      modifies this
      ensures (Value(), boot, writeBack) == OnBoot(old(Value()))
    {
      writeBack := false;
      if confirmed {
        return Active, writeBack;
      }
      if trial > 0 {
        trial := trial - 1;
        seqno := Add32(seqno, 1);
        writeBack := true;
        return Active, writeBack;
      }
      active := fallback;
      confirmed := true;
      trial := 0;
      version := [];
      seqno := Add32(seqno, 1);
      writeBack := true;
      boot := Reverted;
    }

    method StageSlot(slot: byte, name: seq<byte>)
      modifies this
      ensures Value() == Stage(old(Value()), slot, name)
    {
      if slot > SLOT_B {
        return;
      }
      if slot == active && confirmed {
        return;
      }
      if slot != active {
        fallback := active;
      }
      active := slot;
      trial := TRIAL_BOOTS;
      confirmed := false;
      version := CopyVersion(name);
      seqno := Add32(seqno, 1);
    }

    method ConfirmTrial()
      modifies this
      ensures Value() == Confirm(old(Value()))
    {
      if confirmed {
        return;
      }
      confirmed := true;
      trial := 0;
      fallback := active;
      seqno := Add32(seqno, 1);
    }
  }

  /** Staging names the new slot and never leaves it as its own way back. */
  lemma StageKeepsWayBack(s: Rec, slot: byte, version: seq<byte>)
    requires NamesSlots(s) && slot <= SLOT_B
    requires !s.confirmed ==> s.fallback != s.active
    ensures var t := Stage(s, slot, version);
            if t == s then slot == s.active && s.confirmed
            else t.active == slot && !t.confirmed && t.trial == 3 && t.fallback != slot
  {
    var t := Stage(s, slot, version);
    if !(slot == s.active && s.confirmed) {
      assert t.seqno == Add32(s.seqno, 1);
      assert t.seqno != s.seqno;
    }
  }

  /** The next number in sequence, wrap or not. */
  predicate Follows(was: Rec, s: Rec) {
    s.seqno == Add32(was.seqno, 1)
  }

  /** Every change of state is a new number, so that of two differing copies the later one is chosen. */
  lemma ChangesFollow(crc: Checksum, was: Rec, s: Rec, slot: byte, version: seq<byte>, a: seq<byte>, b: seq<byte>)
    requires s == OnBoot(was).0 || s == Stage(was, slot, version) || s == Confirm(was)
    requires s != was && Decode(crc, a) == Some(s) && Decode(crc, b) == Some(was)
    ensures Follows(was, s) && Pick(crc, a, b) == Some(s) && Pick(crc, b, a) == Some(s)
  {
    hide Decode;
  }

  /** Confirming ends the trial for good: the image is its own way back, and no boot changes that. */
  lemma ConfirmedStays(s: Rec, n: nat)
    requires s.confirmed ==> s.fallback == s.active && s.trial == 0
    ensures var t := Confirm(s);
            Boots(t, n) == t && t.confirmed && t.active == t.fallback == s.active && t.trial == 0 && t.version == s.version
  {
    ConfirmedRests(Confirm(s), n);
  }

  lemma {:induction false} ConfirmedRests(s: Rec, n: nat)
    requires s.confirmed
    ensures Boots(s, n) == s
    decreases n
  {
    if n > 0 {
      ConfirmedRests(s, n - 1);
    }
  }

  /** The record after `n` boots of an image that never confirms itself. */
  ghost function Boots(s: Rec, n: nat): Rec {
    if n == 0 then s else OnBoot(Boots(s, n - 1)).0
  }

  /** Three boots of the staged slot, then back for good. */
  lemma {:induction false} TrialCountsDown(s: Rec, n: nat)
    requires !s.confirmed && s.trial == TRIAL_BOOTS
    ensures var r := Boots(s, n);
            if n <= 3 then r.active == s.active && !r.confirmed && r.trial == 3 - n && r.fallback == s.fallback
            else r.active == s.fallback && r.confirmed && r.trial == 0 && r.version == [] && r == Boots(s, 4)
    decreases n
  {
    if n > 0 {
      TrialCountsDown(s, n - 1);
    }
  }
}
