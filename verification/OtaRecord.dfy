/** Where things live in flash (firmware/src/ota/layout.h). */
module Layout {
  import opened Bytes
  import opened Flash

  const LOADER_SIZE: nat := 0x1_0000
  const SLOT_SIZE: nat := 704 * 1024
  const MIN_FLASH: nat := 0x20_0000

  function SlotOffset(slot: byte): nat {
    if slot == 0 then LOADER_SIZE else LOADER_SIZE + SLOT_SIZE
  }

  function StateOffset(size: nat, copy: nat): nat
    requires size >= MIN_FLASH && copy < 2
  {
    size - (4 - copy) * SECTOR
  }

  /** A part of either supported board: at least 2 MB. */
  predicate OnBoard(c: Chip) {
    c.Sound() && |c.cells| >= MIN_FLASH
  }

  function SlotBytes(cells: seq<byte>, slot: byte): (s: seq<byte>)
    requires |cells| >= MIN_FLASH
    ensures |s| == SLOT_SIZE
  {
    cells[SlotOffset(slot)..SlotOffset(slot) + SLOT_SIZE]
  }
}

/** Reading and writing the update state record in its two sectors (firmware/src/ota/ota_flash.c). */
module OtaRecord {
  import opened Bytes
  import opened Flash
  import opened Layout
  import opened OtaState

  function Copy(cells: seq<byte>, copy: nat): (s: seq<byte>)
    requires |cells| >= MIN_FLASH && copy < 2
    ensures |s| == RECORD_LEN
  {
    var off := StateOffset(|cells|, copy);
    cells[off..off + RECORD_LEN]
  }

  function Load(crc: Checksum, cells: seq<byte>): Option<Rec>
    requires |cells| >= MIN_FLASH
  {
    Pick(crc, Copy(cells, 0), Copy(cells, 1))
  }

  function RecordPage(raw: seq<byte>): (page: seq<byte>)
    requires |raw| == RECORD_LEN
    ensures |page| == PAGE && page[..RECORD_LEN] == raw
  {
    raw + Fill(0, PAGE - RECORD_LEN)
  }

  /** One pass of the save loop: erase, program, read back. */
  function SaveCopy(c: Chip, copy: nat, raw: seq<byte>): (r: (Chip, bool))
    requires OnBoard(c) && copy < 2 && |raw| == RECORD_LEN
    ensures OnBoard(r.0) && |r.0.cells| == |c.cells|
  {
    var off := StateOffset(|c.cells|, copy);
    var d := Program(Erase(c, off, SECTOR), off, RecordPage(raw));
    (d, Copy(d.cells, copy) == raw)
  }

  function Save(crc: Checksum, c: Chip, s: Rec): (r: (Chip, bool))
    requires OnBoard(c) && IsVersion(s.version)
    ensures OnBoard(r.0) && |r.0.cells| == |c.cells|
  {
    match Encode(crc, s)
    case None => (c, false)
    case Some(raw) =>
      var first := SaveCopy(c, 0, raw);
      if !first.1 then (first.0, false) else SaveCopy(first.0, 1, raw)
  }

  // The code

  method FlashLoad(crc: Checksum, flash: FlashPart) returns (r: Option<Rec>)
    requires OnBoard(flash.Now())
    ensures r == Load(crc, flash.cells)
  {
    hide Decode, Encode;
    var size := |flash.cells|;
    var a, b := StateOffset(size, 0), StateOffset(size, 1);
    r := Pick(crc, flash.cells[a..a + RECORD_LEN], flash.cells[b..b + RECORD_LEN]);
  }

  method FlashSave(crc: Checksum, flash: FlashPart, s: Rec) returns (ok: bool)
    requires OnBoard(flash.Now()) && IsVersion(s.version)
    modifies flash
    ensures (flash.Now(), ok) == Save(crc, old(flash.Now()), s)
  {
    hide Decode, Encode, Erase, Program;
    var encoded := Encode(crc, s);
    if encoded.None? {
      return false;
    }
    var page := RecordPage(encoded.value);
    var size := |flash.cells|;
    ghost var c := flash.Now();
    ghost var first := SaveCopy(c, 0, encoded.value);
    for i := 0 to 2
      invariant OnBoard(flash.Now()) && |flash.cells| == size
      invariant i == 0 ==> flash.Now() == c
      invariant i == 1 ==> flash.Now() == first.0
      invariant i >= 1 ==> first.1
      invariant i == 2 ==> (flash.Now(), true) == SaveCopy(first.0, 1, encoded.value)
    {
      var off := StateOffset(size, i);
      flash.RangeErase(off, SECTOR);
      flash.RangeProgram(off, page);
      if flash.cells[off..off + RECORD_LEN] != page[..RECORD_LEN] {
        return false;
      }
    }
    ok := true;
  }

  /** What a save that got through leaves in each of its two sectors: the record, zeros to the end of its page, and nothing. */
  lemma SavedSectors(crc: Checksum, c: Chip, s: Rec, copy: nat)
    requires OnBoard(c) && IsVersion(s.version) && NamesSlots(s) && c.lit && c.fuel >= 4 && copy < 2
    ensures var (d, ok) := Save(crc, c, s);
            var off := |c.cells| - (if copy == 0 then 16384 else 12288);
            && ok && d.lit && d.fuel == c.fuel - 4
            && d.cells[off..off + 4096] == Encode(crc, s).value + Fill(0, 216) + Fill(0xFF, 3840)
  {
    hide Encode, Body;
    var raw := Encode(crc, s).value;
    WrittenCopy(c, 0, raw);
    var first := SaveCopy(c, 0, raw);
    WrittenCopy(first.0, 1, raw);
    var second := SaveCopy(first.0, 1, raw).0;
    SaveCopyConfined(first.0, 1, raw);
    var a, b := StateOffset(|c.cells|, 0), StateOffset(|c.cells|, 1);
    ConfinedElsewhere(first.0, second, b, b + SECTOR, a, a + SECTOR);
  }

  lemma WrittenCopy(c: Chip, copy: nat, raw: seq<byte>)
    requires OnBoard(c) && copy < 2 && |raw| == RECORD_LEN && c.lit && c.fuel >= 2
    ensures var (d, ok) := SaveCopy(c, copy, raw);
            var off := StateOffset(|c.cells|, copy);
            && ok && d.lit && d.fuel == c.fuel - 2
            && d.cells[off..off + SECTOR] == raw + Fill(0, 216) + Fill(0xFF, 3840)
  {
    hide Anded;
    var off := StateOffset(|c.cells|, copy);
    var page := RecordPage(raw);
    var e := Erase(c, off, SECTOR);
    var d := Program(e, off, page);
    SaveCopyWritten(c, copy, raw);
    assert e.cells[off..off + PAGE] == Fill(0xFF, PAGE);
    ProgramOnErased(page);
    assert d.cells[off..off + PAGE] == page;
    ConfinedElsewhere(e, d, off, off + PAGE, off + PAGE, off + SECTOR);
    assert e.cells[off + PAGE..off + SECTOR] == Fill(0xFF, 3840);
    assert d.cells[off..off + SECTOR] == d.cells[off..off + PAGE] + d.cells[off + PAGE..off + SECTOR];
    assert page == raw + Fill(0, 216);
  }

  /** A record that cannot be written is not, and the save says so. */
  lemma UnwritableRefused(crc: Checksum, c: Chip, s: Rec)
    requires OnBoard(c) && IsVersion(s.version) && !NamesSlots(s)
    ensures Save(crc, c, s) == (c, false)
  {
  }

  // What a save touches, and what it leaves if the supply holds

  lemma SaveCopyConfined(c: Chip, copy: nat, raw: seq<byte>)
    requires OnBoard(c) && copy < 2 && |raw| == RECORD_LEN
    ensures var off := StateOffset(|c.cells|, copy);
            Confined(c, SaveCopy(c, copy, raw).0, off, off + SECTOR)
  {
    hide Decode, Encode;
    var off := StateOffset(|c.cells|, copy);
    var e := Erase(c, off, SECTOR);
    var d := Program(e, off, RecordPage(raw));
    ConfinedWiden(e, d, off, off + PAGE, off, off + SECTOR);
    ConfinedTrans(c, e, d, off, off + SECTOR);
  }

  lemma SaveConfined(crc: Checksum, c: Chip, s: Rec)
    requires OnBoard(c) && IsVersion(s.version)
    ensures Confined(c, Save(crc, c, s).0, StateOffset(|c.cells|, 0), StateOffset(|c.cells|, 1) + SECTOR)
  {
    hide Decode, Encode, SaveCopy;
    if Encode(crc, s).Some? {
      var raw := Encode(crc, s).value;
      var a, b := StateOffset(|c.cells|, 0), StateOffset(|c.cells|, 1);
      var first := SaveCopy(c, 0, raw);
      SaveCopyConfined(c, 0, raw);
      ConfinedWiden(c, first.0, a, a + SECTOR, a, b + SECTOR);
      if first.1 {
        SaveCopyConfined(first.0, 1, raw);
        ConfinedWiden(first.0, SaveCopy(first.0, 1, raw).0, b, b + SECTOR, a, b + SECTOR);
        ConfinedTrans(c, first.0, SaveCopy(first.0, 1, raw).0, a, b + SECTOR);
      }
    }
  }

  lemma SaveCopyWritten(c: Chip, copy: nat, raw: seq<byte>)
    requires OnBoard(c) && c.lit && c.fuel >= 2 && copy < 2 && |raw| == RECORD_LEN
    ensures var (d, ok) := SaveCopy(c, copy, raw);
            d.lit && ok && d.fuel == c.fuel - 2 && Copy(d.cells, copy) == raw
  {
    hide Anded;
    var off := StateOffset(|c.cells|, copy);
    var page := RecordPage(raw);
    var e := Erase(c, off, SECTOR);
    var d := Program(e, off, page);
    assert e.cells[off..off + PAGE] == Fill(0xFF, PAGE);
    ProgramOnErased(page);
    assert d.cells[off..off + RECORD_LEN] == page[..RECORD_LEN];
  }

  /** What a pass that the supply did not outlast leaves of the copy it was rewriting. */
  function CutShort(c: Chip, copy: nat): (s: seq<byte>)
    requires OnBoard(c) && copy < 2
    ensures |s| == RECORD_LEN
  {
    match c.noise
    case Some(noise) => Copy(noise, copy)
    case None => if c.fuel == 0 then Copy(c.cells, copy) else Fill(0xFF, RECORD_LEN)
  }

  lemma SaveCopyTorn(c: Chip, copy: nat, raw: seq<byte>)
    requires OnBoard(c) && c.lit && c.fuel < 2 && copy < 2 && |raw| == RECORD_LEN && c.noise.Some?
    ensures var d := SaveCopy(c, copy, raw).0;
            !d.lit && Copy(d.cells, copy) == Copy(c.noise.value, copy)
  {
    hide Anded;
    var off := StateOffset(|c.cells|, copy);
    var noise := c.noise.value;
    var e := Erase(c, off, SECTOR);
    var n := if c.fuel == 1 then PAGE else SECTOR;
    SliceOfSlice(noise, off, n, RECORD_LEN);
    SpliceHolds(if c.fuel == 1 then e.cells else c.cells, off, noise[off..off + n], RECORD_LEN);
  }

  lemma SaveCopyStopped(c: Chip, copy: nat, raw: seq<byte>)
    requires OnBoard(c) && c.lit && c.fuel < 2 && copy < 2 && |raw| == RECORD_LEN && c.noise.None?
    ensures var d := SaveCopy(c, copy, raw).0;
            !d.lit && Copy(d.cells, copy) == CutShort(c, copy)
  {
    hide Anded;
    var off := StateOffset(|c.cells|, copy);
    if c.fuel == 1 {
      SpliceHolds(c.cells, off, Fill(0xFF, SECTOR), RECORD_LEN);
      assert Fill(0xFF, SECTOR)[..RECORD_LEN] == Fill(0xFF, RECORD_LEN);
    }
  }

  /** One pass, by how long the supply lasts: cut short, or written. */
  lemma SaveCopyAt(c: Chip, copy: nat, raw: seq<byte>)
    requires OnBoard(c) && c.lit && copy < 2 && |raw| == RECORD_LEN
    ensures var (d, ok) := SaveCopy(c, copy, raw);
            && (c.fuel < 2 ==> !d.lit && Copy(d.cells, copy) == CutShort(c, copy))
            && (c.fuel >= 2 ==> d.lit && ok && d.fuel == c.fuel - 2 && Copy(d.cells, copy) == raw)
            && Copy(d.cells, 1 - copy) == Copy(c.cells, 1 - copy) && d.noise == c.noise
  {
    hide SaveCopy;
    var off, other := StateOffset(|c.cells|, copy), StateOffset(|c.cells|, 1 - copy);
    SaveCopyConfined(c, copy, raw);
    ConfinedElsewhere(c, SaveCopy(c, copy, raw).0, off, off + SECTOR, other, other + RECORD_LEN);
    if c.fuel >= 2 {
      SaveCopyWritten(c, copy, raw);
    } else if c.noise.Some? {
      SaveCopyTorn(c, copy, raw);
    } else {
      SaveCopyStopped(c, copy, raw);
    }
  }

  lemma SaveCopyUnlit(c: Chip, copy: nat, raw: seq<byte>)
    requires OnBoard(c) && !c.lit && copy < 2 && |raw| == RECORD_LEN
    ensures SaveCopy(c, copy, raw).0 == c
  {
  }

  /** The assumption on hardware: a sector torn part-way does not pass for a record. */
  ghost predicate TornUnreadable(crc: Checksum, c: Chip)
    requires OnBoard(c)
  {
    c.noise.Some? ==> Decode(crc, Copy(c.noise.value, 0)).None? && Decode(crc, Copy(c.noise.value, 1)).None?
  }

  lemma BlankUnreadable(crc: Checksum)
    ensures Decode(crc, Fill(0xFF, RECORD_LEN)).None?
  {
    assert Fill(0xFF, RECORD_LEN)[0..4][0] == 0xFF;
  }

  /** Whether the supply fails cleanly between two steps rather than in the middle of one. */
  predicate Clean(c: Chip) {
    c.noise.None?
  }

  /** Exactly what the two copies decode to after a save, for every point the supply can fail. */
  lemma SaveAt(crc: Checksum, c: Chip, s: Rec)
    requires OnBoard(c) && c.lit && TornUnreadable(crc, c)
    requires IsVersion(s.version) && Printable(s.version) && NamesSlots(s)
    ensures var (d, ok) := Save(crc, c, s);
            var wasA, wasB := Decode(crc, Copy(c.cells, 0)), Decode(crc, Copy(c.cells, 1));
            && Decode(crc, Copy(d.cells, 0)) ==
               (if c.fuel >= 2 then Some(s) else if c.fuel == 0 && Clean(c) then wasA else None)
            && Decode(crc, Copy(d.cells, 1)) ==
               (if c.fuel >= 4 then Some(s) else if c.fuel < 2 || (c.fuel == 2 && Clean(c)) then wasB else None)
            && (if c.fuel >= 4 then d.lit && ok && d.fuel == c.fuel - 4 else !d.lit)
  {
    hide Decode, Encode, SaveCopy, Copy;
    var raw := Encode(crc, s).value;
    EncodeDecode(crc, s, raw);
    BlankUnreadable(crc);
    var first := SaveCopy(c, 0, raw);
    SaveCopyAt(c, 0, raw);
    if c.fuel >= 2 {
      SaveCopyAt(first.0, 1, raw);
    } else {
      SaveCopyUnlit(first.0, 1, raw);
    }
  }

  /** A save that the supply outlasts is what the next load returns. */
  lemma SaveThenLoad(crc: Checksum, c: Chip, s: Rec)
    requires OnBoard(c) && c.lit && TornUnreadable(crc, c)
    requires IsVersion(s.version) && Printable(s.version) && NamesSlots(s)
    ensures var (d, ok) := Save(crc, c, s);
            d.lit ==> ok && Load(crc, d.cells) == Some(s)
  {
    hide Decode, Encode, Save;
    SaveAt(crc, c, s);
  }

  /**
   * From two equal copies, a cut anywhere leaves exactly the old record or the new one: the new
   * one from the moment copy A is written, for everything the state machine ever saves. The two
   * copies then differ, and it is the sequence number that decides.
   */
  lemma SaveIsAtomic(crc: Checksum, c: Chip, was: Rec, s: Rec)
    requires OnBoard(c) && c.lit && TornUnreadable(crc, c)
    requires Decode(crc, Copy(c.cells, 0)) == Some(was) && Decode(crc, Copy(c.cells, 1)) == Some(was)
    requires IsVersion(s.version) && Printable(s.version) && NamesSlots(s) && Follows(was, s)
    ensures Load(crc, Save(crc, c, s).0.cells) == Some(if c.fuel < 2 then was else s)
  {
    hide Decode, Encode, Save;
    SaveAt(crc, c, s);
  }

  /**
   * Whatever the two copies held, every cut leaves the record as it was or as it should become,
   * exactly when the second copy holds one of the two. Copy A is always the first to be erased,
   * so until B is written the record is whatever B has.
   */
  lemma SaveIsAtomicExactly(crc: Checksum, c: Chip, s: Rec)
    requires OnBoard(c) && c.lit
    requires IsVersion(s.version) && Printable(s.version) && NamesSlots(s)
    ensures (forall fuel: nat, noise :: Failing(crc, c, fuel, noise) ==>
               var after := Load(crc, Save(crc, c.(fuel := fuel, noise := noise), s).0.cells);
               after == Load(crc, c.cells) || after == Some(s))
            <==> var b := Decode(crc, Copy(c.cells, 1));
                 b == Load(crc, c.cells) || b == Some(s)
  {
    hide Decode, Encode, Save;
    var held, b := Load(crc, c.cells), Decode(crc, Copy(c.cells, 1));
    forall fuel: nat, noise | Failing(crc, c, fuel, noise)
      ensures var after := Load(crc, Save(crc, c.(fuel := fuel, noise := noise), s).0.cells);
              if fuel == 1 then after == b else after == held || after == Some(s) || after == b
    {
      SaveAt(crc, c.(fuel := fuel, noise := noise), s);
    }
    assert Failing(crc, c, 1, None);
  }

  /** A supply that may fail at this step in this way. */
  ghost predicate Failing(crc: Checksum, c: Chip, fuel: nat, noise: Option<seq<byte>>)
    requires OnBoard(c)
  {
    Covers(noise, |c.cells|) && TornUnreadable(crc, c.(noise := noise))
  }

  /** And some record is left by every cut exactly when the second copy reads. */
  lemma SaveNeverLosesExactly(crc: Checksum, c: Chip, s: Rec)
    requires OnBoard(c) && c.lit
    requires IsVersion(s.version) && Printable(s.version) && NamesSlots(s)
    ensures (forall fuel: nat, noise :: Failing(crc, c, fuel, noise) ==>
               Load(crc, Save(crc, c.(fuel := fuel, noise := noise), s).0.cells).Some?)
            <==> Decode(crc, Copy(c.cells, 1)).Some?
  {
    hide Decode, Encode, Save;
    forall fuel: nat, noise | Failing(crc, c, fuel, noise)
      ensures var after := Load(crc, Save(crc, c.(fuel := fuel, noise := noise), s).0.cells);
              (fuel >= 2 || Decode(crc, Copy(c.cells, 1)).Some? ==> after.Some?)
              && (fuel == 1 ==> after == Decode(crc, Copy(c.cells, 1)))
    {
      SaveAt(crc, c.(fuel := fuel, noise := noise), s);
    }
    assert Failing(crc, c, 1, None);
  }

  /** Two cuts in a row, from two good copies, and there is no record left. */
  lemma TwoCutsLoseBoth(crc: Checksum, c: Chip, s: Rec, t: Rec)
    requires OnBoard(c) && TornUnreadable(crc, c)
    requires IsVersion(s.version) && Printable(s.version) && NamesSlots(s)
    requires IsVersion(t.version) && Printable(t.version) && NamesSlots(t)
    ensures var once := Save(crc, c.(fuel := 3, lit := true), s).0;
            var twice := Save(crc, once.(fuel := 1, lit := true), t).0;
            Load(crc, once.cells) == Some(s) && Load(crc, twice.cells) == None
  {
    hide Decode, Encode, Save;
    SaveAt(crc, c.(fuel := 3, lit := true), s);
    var once := Save(crc, c.(fuel := 3, lit := true), s).0;
    SaveConfined(crc, c.(fuel := 3, lit := true), s);
    SaveAt(crc, once.(fuel := 1, lit := true), t);
  }

  /** Two clean cuts, before B is erased and after A is, bring back a record already superseded. */
  lemma TwoCutsGoBack(crc: Checksum, c: Chip, was: Rec, s: Rec, t: Rec)
    requires OnBoard(c) && c.noise.None? && Decode(crc, Copy(c.cells, 1)) == Some(was) && Follows(was, s)
    requires IsVersion(s.version) && Printable(s.version) && NamesSlots(s)
    requires IsVersion(t.version) && Printable(t.version) && NamesSlots(t)
    ensures var once := Save(crc, c.(fuel := 2, lit := true), s).0;
            var twice := Save(crc, once.(fuel := 1, lit := true), t).0;
            Load(crc, once.cells) == Some(s) && Load(crc, twice.cells) == Some(was)
  {
    hide Decode, Encode, Save;
    SaveAt(crc, c.(fuel := 2, lit := true), s);
    var once := Save(crc, c.(fuel := 2, lit := true), s).0;
    SaveConfined(crc, c.(fuel := 2, lit := true), s);
    SaveAt(crc, once.(fuel := 1, lit := true), t);
  }
}
