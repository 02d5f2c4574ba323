/**
 * Who owns which part of the flash: the loader, the two slots, the two copies of the update record
 * and the two configuration sectors (firmware/src/ota/layout.h, firmware/src/config/config_flash.h).
 * Updates and configuration share one part, and neither ever writes where the other's data is.
 */
module FlashMap {
  import opened Bytes
  import opened Flash
  import opened Layout
  import OtaState
  import OtaRecord
  import OtaWriter
  import OtaTransfer
  import OtaDevice
  import OtaSystem
  import ConfigRecord
  import ConfigStore

  /** Where everything is on a part of this size, from the bottom up; nothing overlaps. */
  lemma Regions(size: nat)
    requires size >= MIN_FLASH
    ensures SlotOffset(OtaState.SLOT_A) == 0x1_0000 && SlotOffset(OtaState.SLOT_B) == 0x1_0000 + 704 * 1024
    ensures SlotOffset(OtaState.SLOT_B) + 704 * 1024 <= size - 16384 == StateOffset(size, 0)
    ensures StateOffset(size, 1) == size - 12288
    ensures ConfigStore.Offset(size, ConfigRecord.First) == size - 8192
    ensures ConfigStore.Offset(size, ConfigRecord.Second) == size - 4096
    ensures SECTOR == 4096
  {
  }

  /** The loader and the two configuration sectors are as they were. */
  predicate OthersKept(c: Chip, d: Chip)
    requires |c.cells| >= MIN_FLASH
  {
    |d.cells| == |c.cells| && d.cells[..0x1_0000] == c.cells[..0x1_0000]
    && d.cells[|c.cells| - 8192..] == c.cells[|c.cells| - 8192..]
  }

  lemma KeptBetween(c: Chip, d: Chip, lo: nat, hi: nat)
    requires |c.cells| >= MIN_FLASH && Confined(c, d, lo, hi) && 0x1_0000 <= lo && hi <= |c.cells| - 8192
    ensures OthersKept(c, d)
  {
    ConfinedElsewhere(c, d, lo, hi, 0, 0x1_0000);
    ConfinedElsewhere(c, d, lo, hi, |c.cells| - 8192, |c.cells|);
  }

  lemma SaveKeepsOthers(crc: Checksum, c: Chip, s: OtaState.Rec)
    requires OnBoard(c) && OtaState.IsVersion(s.version)
    ensures OthersKept(c, OtaRecord.Save(crc, c, s).0)
  {
    hide OtaRecord.Save;
    Regions(|c.cells|);
    OtaRecord.SaveConfined(crc, c, s);
    KeptBetween(c, OtaRecord.Save(crc, c, s).0, StateOffset(|c.cells|, 0), StateOffset(|c.cells|, 1) + SECTOR);
  }

  lemma SlotKeepsOthers(c: Chip, d: Chip, slot: byte, total: nat)
    requires OnBoard(c) && slot <= OtaState.SLOT_B && total <= SLOT_SIZE
    requires Confined(c, d, SlotOffset(slot), SlotOffset(slot) + OtaWriter.Span(total))
    ensures OthersKept(c, d)
  {
    Regions(|c.cells|);
    if total > 0 {
      OtaWriter.SpanFits(total);
    }
    KeptBetween(c, d, SlotOffset(slot), SlotOffset(slot) + OtaWriter.Span(total));
  }

  lemma FinishKeepsOthers(env: OtaDevice.Env, c: Chip, a: OtaDevice.App)
    requires OnBoard(c) && a.w.Sized() && a.w.slot <= OtaState.SLOT_B && a.w.total <= SLOT_SIZE
    requires OtaState.IsVersion(a.st.version) && OtaState.IsVersion(a.link.version)
    ensures OthersKept(c, OtaDevice.Finish(env, c, a).0)
  {
    hide OtaWriter.End, OtaRecord.Save;
    OtaTransfer.EndConfined(env.sha, c, a.w);
    var d := OtaWriter.End(env.sha, c, a.w).0;
    SlotKeepsOthers(c, d, a.w.slot, a.w.total);
    SaveKeepsOthers(env.crc, d, OtaState.Stage(a.st.(active := a.running, confirmed := true), a.link.slot, a.link.version));
  }

  lemma FrameKeepsOthers(env: OtaDevice.Env, c: Chip, a: OtaDevice.App, data: seq<byte>)
    requires OnBoard(c) && OtaSystem.AppInv(env, c, a)
    ensures OthersKept(c, OtaDevice.Binary(env, c, a, data).0)
  {
    hide OtaWriter.Chunk, OtaDevice.Finish, OtaSystem.Complete, OtaSystem.Ready, OtaRecord.Load, OtaSystem.Promised;
    if a.link.receiving && |data| <= a.link.total - a.link.got {
      OtaTransfer.ChunkConfined(c, a.w, data);
      OtaSystem.StreamsMeans(c, a.w, a.w.seen);
      var (d, w, status) := OtaWriter.Chunk(c, a.w, data);
      SlotKeepsOthers(c, d, a.w.slot, a.w.total);
      if status == OtaWriter.Ok && a.link.got + |data| == a.link.total {
        OtaSystem.ChunkKeepsTerms(c, a.w, data);
        FinishKeepsOthers(env, d, a.(w := w, link := a.link.(got := a.link.got + |data|)));
      }
    }
  }

  /** No event of the update system, cut or not, changes the loader or the configuration. */
  lemma UpdatesKeepConfig(env: OtaDevice.Env, s: OtaSystem.Sys, e: OtaSystem.Event)
    requires OtaSystem.Sane(env) && OtaSystem.Inv(env, s) && OtaSystem.Formed(s) && OtaSystem.Fair(env, s, e)
    ensures OthersKept(s.chip, OtaSystem.Step(env, s, e).chip)
    ensures var (n, d) := (|s.chip.cells|, OtaSystem.Step(env, s, e).chip);
            |d.cells| == n && ConfigStore.Load(env.crc, d.cells) == ConfigStore.Load(env.crc, s.chip.cells)
  {
    hide OtaSystem.Complete, OtaSystem.Ready, OtaSystem.SafeFlash, OtaRecord.Load, OtaDevice.Binary, OtaWriter.Begin,
      OtaRecord.Save, OtaSystem.Promised, ConfigRecord.Decode, OtaDevice.Bootable;
    Regions(|s.chip.cells|);
    if e.PowerUp? {
      PowerUpKeepsOthers(env, s, e);
    } else if s.app.Some? {
      var c, a := s.chip, s.app.value;
      if e.Ack? {
        SaveKeepsOthers(env.crc, c, OtaState.Confirm(a.st).(active := a.running, fallback := a.running));
      } else if e.Pump? && a.offer.Some? {
        OtaSystem.CompleteNames(env, c.cells, a.running);
        BeginKeepsOthers(env, c, a, a.offer.value);
      } else if e.Frame? {
        FrameKeepsOthers(env, c, a, e.data);
      }
    }
    SameConfig(env.crc, s.chip, OtaSystem.Step(env, s, e).chip);
  }

  lemma PowerUpKeepsOthers(env: OtaDevice.Env, s: OtaSystem.Sys, e: OtaSystem.Event)
    requires OtaSystem.Sane(env) && OnBoard(s.chip) && e.PowerUp? && OtaSystem.Formed(s) && Covers(e.noise, |s.chip.cells|)
    ensures OthersKept(s.chip, OtaSystem.Step(env, s, e).chip)
  {
    hide OtaRecord.Save, OtaDevice.Bootable, OtaState.Decode;
    var c := OtaSystem.Powered(s.chip, e.fuel, e.noise);
    var stored := OtaRecord.Load(env.crc, c.cells);
    if stored.Some? {
      SaveKeepsOthers(env.crc, c, OtaState.OnBoot(stored.value).0);
    }
  }

  lemma BeginKeepsOthers(env: OtaDevice.Env, c: Chip, a: OtaDevice.App, h: OtaWriter.Header)
    requires OnBoard(c) && a.running <= OtaState.SLOT_B && OtaDevice.HeaderOk(env, h) && !a.w.active
    ensures OthersKept(c, OtaWriter.Begin(c, a.w, h, OtaState.OtherSlot(a.running), a.running).0)
  {
    hide OtaWriter.Begin;
    OtaTransfer.BeginStreams(c, a.w, h, OtaState.OtherSlot(a.running), a.running);
    SlotKeepsOthers(c, OtaWriter.Begin(c, a.w, h, OtaState.OtherSlot(a.running), a.running).0, OtaState.OtherSlot(a.running), h.len);
  }

  lemma SameConfig(crc: Checksum, c: Chip, d: Chip)
    requires OnBoard(c) && OthersKept(c, d)
    ensures ConfigStore.Load(crc, d.cells) == ConfigStore.Load(crc, c.cells)
  {
    hide ConfigRecord.Decode;
    var n := |c.cells|;
    Regions(n);
    var top := c.cells[n - 8192..];
    assert ConfigStore.Sector(c.cells, ConfigRecord.First) == top[..4096] == ConfigStore.Sector(d.cells, ConfigRecord.First);
    assert ConfigStore.Sector(c.cells, ConfigRecord.Second) == top[4096..] == ConfigStore.Sector(d.cells, ConfigRecord.Second);
  }

  /** And no save of the configuration and no factory reset, cut or not, changes anything below its two sectors. */
  lemma ConfigKeepsUpdates(crc: Checksum, c: Chip, cfg: ConfigRecord.Config,
                           o1: ConfigStore.Outcome, o2: ConfigStore.Outcome, oB: ConfigStore.Outcome, oA: ConfigStore.Outcome)
    requires OnBoard(c)
    ensures var (saved, reset) := (ConfigStore.Save(crc, c, cfg, o1, o2).0, ConfigStore.FactoryReset(crc, c, oB, oA, o1, o2).0);
            && |saved.cells| == |reset.cells| == |c.cells|
            && saved.cells[..|c.cells| - 8192] == reset.cells[..|c.cells| - 8192] == c.cells[..|c.cells| - 8192]
            && OtaRecord.Load(crc, saved.cells) == OtaRecord.Load(crc, reset.cells) == OtaRecord.Load(crc, c.cells)
            && forall slot: byte :: slot <= OtaState.SLOT_B ==>
                 SlotBytes(saved.cells, slot) == SlotBytes(reset.cells, slot) == SlotBytes(c.cells, slot)
  {
    hide ConfigStore.Save, ConfigStore.EraseAll, OtaState.Decode, ConfigRecord.Select;
    SaveBelow(crc, c, cfg, o1, o2);
    EraseBelow(crc, c, oB, oA);
    var d := ConfigStore.EraseAll(crc, c, oB, oA).0;
    var held := ConfigStore.Load(crc, c.cells);
    if held.Some? {
      SaveBelow(crc, d, ConfigStore.Kept(held.value), o1, o2);
    }
    SameBelow(crc, c, ConfigStore.Save(crc, c, cfg, o1, o2).0);
    SameBelow(crc, c, ConfigStore.FactoryReset(crc, c, oB, oA, o1, o2).0);
  }

  lemma SaveBelow(crc: Checksum, c: Chip, cfg: ConfigRecord.Config, o1: ConfigStore.Outcome, o2: ConfigStore.Outcome)
    requires OnBoard(c)
    ensures var d := ConfigStore.Save(crc, c, cfg, o1, o2).0;
            OnBoard(d) && |d.cells| == |c.cells| && d.cells[..|c.cells| - 8192] == c.cells[..|c.cells| - 8192]
  {
    hide ConfigStore.Save, ConfigStore.Chosen;
    Regions(|c.cells|);
    ConfigStore.LiveSectorUntouched(crc, c, cfg, o1, o2);
    var off := ConfigStore.Offset(|c.cells|, ConfigStore.Target(ConfigStore.Chosen(crc, c.cells).0));
    ConfinedElsewhere(c, ConfigStore.Save(crc, c, cfg, o1, o2).0, off, off + SECTOR, 0, |c.cells| - 8192);
  }

  lemma EraseBelow(crc: Checksum, c: Chip, oB: ConfigStore.Outcome, oA: ConfigStore.Outcome)
    requires OnBoard(c)
    ensures var d := ConfigStore.EraseAll(crc, c, oB, oA).0;
            OnBoard(d) && |d.cells| == |c.cells| && d.cells[..|c.cells| - 8192] == c.cells[..|c.cells| - 8192]
  {
    hide ConfigStore.Chosen, Erase;
    Regions(|c.cells|);
    var n := |c.cells|;
    EraseOneBelow(c, ConfigRecord.Second, oB);
    EraseOneBelow(ConfigStore.EraseOne(c, ConfigRecord.Second, oB), ConfigRecord.First, oA);
  }

  lemma EraseOneBelow(c: Chip, slot: ConfigRecord.Winner, o: ConfigStore.Outcome)
    requires OnBoard(c)
    ensures var d := ConfigStore.EraseOne(c, slot, o);
            |d.cells| == |c.cells| && d.cells[..|c.cells| - 8192] == c.cells[..|c.cells| - 8192]
  {
    hide Erase;
    Regions(|c.cells|);
    if o.Runs() {
      var off := ConfigStore.Offset(|c.cells|, slot);
      ConfinedElsewhere(c, Erase(c, off, SECTOR), off, off + SECTOR, 0, |c.cells| - 8192);
    }
  }

  lemma SameBelow(crc: Checksum, c: Chip, d: Chip)
    requires OnBoard(c) && |d.cells| == |c.cells| && d.cells[..|c.cells| - 8192] == c.cells[..|c.cells| - 8192]
    ensures OtaRecord.Load(crc, d.cells) == OtaRecord.Load(crc, c.cells)
    ensures forall slot: byte :: slot <= OtaState.SLOT_B ==> SlotBytes(d.cells, slot) == SlotBytes(c.cells, slot)
  {
    hide OtaState.Decode;
    var n := |c.cells|;
    Regions(n);
    forall copy: nat | copy < 2
      ensures OtaRecord.Copy(d.cells, copy) == OtaRecord.Copy(c.cells, copy)
    {
      SliceBelow(c.cells, d.cells, n - 8192, StateOffset(n, copy), OtaState.RECORD_LEN);
    }
    forall slot: byte | slot <= OtaState.SLOT_B
      ensures SlotBytes(d.cells, slot) == SlotBytes(c.cells, slot)
    {
      SliceBelow(c.cells, d.cells, n - 8192, SlotOffset(slot), SLOT_SIZE);
    }
  }

  lemma SliceBelow(a: seq<byte>, b: seq<byte>, top: nat, off: nat, len: nat)
    requires top <= |a| == |b| && a[..top] == b[..top] && off + len <= top
    ensures a[off..off + len] == b[off..off + len]
  {
    assert a[off..off + len] == a[..top][off..off + len];
    assert b[off..off + len] == b[..top][off..off + len];
  }
}
