/**
 * Loader and application taking turns on one flash part, with the supply failing at any step of
 * any erase or program, any number of times. The claim is the one at the end of the comment in
 * firmware/src/ota/layout.h: there is no moment when neither slot is bootable.
 */
module OtaSystem {
  import opened Bytes
  import opened Flash
  import opened Layout
  import opened OtaState
  import opened OtaRecord
  import opened OtaWriter
  import opened OtaTransfer
  import opened OtaDevice

  /** The part, and the application running from it, if one is. */
  datatype Sys = Sys(chip: Chip, app: Option<App>)

  datatype Event =
    | PowerUp(fuel: nat, noise: Option<seq<byte>>, build: seq<byte>) // any reset; the supply lasts `fuel` flash steps
    | Ack                                                            // hello_ack verified
    | Offer(h: Header, busy: bool)                                   // ota_offer with a readable header
    | Pump(sent: bool)                                               // the main loop runs what is queued
    | Frame(data: seq<byte>)                                         // a binary frame
    | Close                                                          // the connection ends

  predicate Formed(s: Sys) {
    && OnBoard(s.chip)
    && (s.app.Some? ==>
          var a := s.app.value;
          && a.w.Sized() && a.link.got <= a.link.total && IsVersion(a.st.version) && IsVersion(a.link.version)
          && (a.offer.Some? ==> IsVersion(a.offer.value.version)))
  }

  /** A power cut part-way through takes the application with it. */
  function Alive(c: Chip, a: App): Sys {
    Sys(c, if c.lit then Some(a) else None)
  }

  function Powered(c: Chip, fuel: nat, noise: Option<seq<byte>>): Chip {
    c.(fuel := fuel, lit := true, noise := noise)
  }

  function Reset(env: Env, c: Chip, build: seq<byte>): Sys
    requires OnBoard(c) && env.vectors <= 0x100
  {
    var (d, entered) := Loader(env, c);
    if entered.None? then Sys(d, None)
    else Alive(d, Init(env, d.cells, entered.value, build))
  }

  function Step(env: Env, s: Sys, e: Event): Sys
    requires Formed(s) && env.vectors <= 0x100
    requires e.PowerUp? ==> Covers(e.noise, |s.chip.cells|)
  {
    if e.PowerUp? then Reset(env, Powered(s.chip, e.fuel, e.noise), e.build)
    else if s.app.None? then s
    else
      var (c, a) := (s.chip, s.app.value);
      match e
      case Ack => var (d, b) := HelloAck(env, c, a); Alive(d, b)
      case Offer(h, busy) => Alive(c, Offered(env, a, h, busy))
      case Pump(sent) => var (d, b) := RunOffer(env, c, a, sent); Alive(d, b)
      case Frame(data) => var (d, b, _) := Binary(env, c, a, data); Alive(d, b)
      case Close => Alive(c, Closed(a))
  }

  // What the claim rests on

  /** Release images carry a vector table the loader accepts for the slot they were linked for. */
  ghost predicate Sane(env: Env) {
    && env.vectors <= 0x100
    && forall slot: byte, p: seq<byte> :: env.release(slot, p) ==>
         env.vectors + 8 <= |p| <= SLOT_SIZE && VectorsOk(env, slot, p)
  }

  /** Whatever has this length and digest is a release linked for this slot. */
  ghost predicate Admitted(env: Env, slot: byte, len: nat, digest: seq<byte>) {
    forall p: seq<byte> :: |p| == len && env.sha(p) == digest ==> env.release(slot, p)
  }

  /** A signed header stands for a release, for this slot if offers are matched to slots, else for either. */
  ghost predicate Promised(env: Env, slot: byte, len: nat, digest: seq<byte>) {
    Admitted(env, slot, len, digest) || (!env.matched && Admitted(env, OtherSlot(slot), len, digest))
  }

  /**
   * The environment's part: a torn record sector does not read back as a record, version strings
   * are printable, and a header that is signed stands for a release.
   */
  ghost predicate Fair(env: Env, s: Sys, e: Event)
    requires Formed(s)
  {
    match e
    case PowerUp(fuel, noise, build) =>
      && Covers(noise, |s.chip.cells|) && TornUnreadable(env.crc, Powered(s.chip, fuel, noise))
      && IsVersion(build) && Printable(build)
    case Offer(h, _) =>
      s.app.Some? && env.signed(h) ==> Promised(env, OtherSlot(s.app.value.running), h.len, h.sha)
    case _ => true
  }

  // What every step keeps

  /** The slot holds, from its first byte, one whole release linked for slot `linked`. */
  ghost predicate Holds(env: Env, cells: seq<byte>, slot: byte, linked: byte)
    requires |cells| >= MIN_FLASH
  {
    slot <= SLOT_B && exists n: nat :: n <= SLOT_SIZE && env.release(linked, SlotBytes(cells, slot)[..n])
  }

  /** The slot holds a release it can run. */
  ghost predicate Complete(env: Env, cells: seq<byte>, slot: byte)
    requires |cells| >= MIN_FLASH
  {
    Holds(env, cells, slot, slot)
  }

  /** What is on record names this slot and asks for no trial; no record at all means slot A. */
  ghost predicate Settled(env: Env, cells: seq<byte>, slot: byte)
    requires |cells| >= MIN_FLASH
  {
    match Load(env.crc, cells)
    case None => slot == SLOT_A
    case Some(s) => s.confirmed && s.active == slot
  }

  ghost predicate Both(env: Env, cells: seq<byte>)
    requires |cells| >= MIN_FLASH
  {
    Complete(env, cells, SLOT_A) && Complete(env, cells, SLOT_B)
  }

  /**
   * The record may be rewritten, or lost, without harm: each slot holds a whole release, at least
   * one of them one it can run. The other may be linked for the wrong slot if offers are not matched.
   */
  ghost predicate Ready(env: Env, cells: seq<byte>)
    requires |cells| >= MIN_FLASH
  {
    || Both(env, cells)
    || (!env.matched && exists slot :: Complete(env, cells, slot) && Holds(env, cells, OtherSlot(slot), slot))
  }

  ghost predicate SafeFlash(env: Env, cells: seq<byte>)
    requires |cells| >= MIN_FLASH
  {
    || Ready(env, cells)
    || (Complete(env, cells, SLOT_A) && Settled(env, cells, SLOT_A))
    || (Complete(env, cells, SLOT_B) && Settled(env, cells, SLOT_B))
  }

  /** The cached record is the stored one, or the default of a part that has none. */
  ghost predicate InStep(env: Env, cells: seq<byte>, a: App)
    requires |cells| >= MIN_FLASH
  {
    && IsVersion(a.st.version) && Printable(a.st.version) && NamesSlots(a.st)
    && (env.matched && a.st.confirmed ==> a.st.active == a.running)
    && match Load(env.crc, cells)
       case None => a.st.confirmed && (env.matched ==> a.running == SLOT_A)
       case Some(s) => s == a.st
  }

  /** The session's counts are the writer's, and the writer is filling the slot not running. */
  ghost predicate Transferring(env: Env, c: Chip, a: App)
    requires OnBoard(c)
  {
    && Streams(c, a.w, a.w.seen) && a.w.slot == OtherSlot(a.running) == a.link.slot
    && a.link.got == a.w.written && a.link.total == a.w.total
    && a.link.version != [] && IsVersion(a.link.version) && Printable(a.link.version) && a.link.version != a.build
    && Promised(env, a.w.slot, a.w.total, a.w.expected)
    && a.st.confirmed && a.offer.None? && Settled(env, c.cells, a.running)
  }

  ghost predicate OfferHeld(env: Env, a: App)
    requires a.offer.Some?
  {
    && a.st.confirmed && HeaderOk(env, a.offer.value) && a.offer.value.version != a.build
    && Promised(env, OtherSlot(a.running), a.offer.value.len, a.offer.value.sha)
  }

  ghost predicate AppInv(env: Env, c: Chip, a: App)
    requires OnBoard(c)
  {
    && c.lit && TornUnreadable(env.crc, c)
    && Complete(env, c.cells, a.running) && InStep(env, c.cells, a)
    && (!Settled(env, c.cells, a.running) ==> Ready(env, c.cells))
    && a.w.Sized() && a.link.got <= a.link.total && IsVersion(a.link.version)
    && (a.link.receiving <==> a.w.active)
    && (a.link.receiving ==> Transferring(env, c, a))
    && (a.offer.Some? ==> OfferHeld(env, a))
  }

  ghost predicate Inv(env: Env, s: Sys) {
    OnBoard(s.chip) && SafeFlash(env, s.chip.cells) && (s.app.Some? ==> AppInv(env, s.chip, s.app.value))
  }

  /** Between two states of the part, no erase or program addressed this slot. */
  ghost predicate Untouched(c: Chip, d: Chip, slot: byte) {
    c.log <= d.log
    && forall i :: |c.log| <= i < |d.log| ==>
         d.log[i].off + d.log[i].len <= SlotOffset(slot) || SlotOffset(slot) + SLOT_SIZE <= d.log[i].off
  }

  // Regions

  lemma SlotWrite(env: Env, c: Chip, d: Chip, slot: byte)
    requires OnBoard(c) && |d.cells| == |c.cells| && slot <= SLOT_B
    requires Confined(c, d, SlotOffset(slot), SlotOffset(slot) + SLOT_SIZE)
    ensures SlotBytes(d.cells, OtherSlot(slot)) == SlotBytes(c.cells, OtherSlot(slot))
    ensures Load(env.crc, d.cells) == Load(env.crc, c.cells)
    ensures Untouched(c, d, OtherSlot(slot))
  {
    hide Decode;
    var lo, hi := SlotOffset(slot), SlotOffset(slot) + SLOT_SIZE;
    var other := SlotOffset(OtherSlot(slot));
    ConfinedElsewhere(c, d, lo, hi, other, other + SLOT_SIZE);
    var a, b := StateOffset(|c.cells|, 0), StateOffset(|c.cells|, 1);
    ConfinedElsewhere(c, d, lo, hi, a, a + RECORD_LEN);
    ConfinedElsewhere(c, d, lo, hi, b, b + RECORD_LEN);
  }

  lemma RecordWrite(crc: Checksum, c: Chip, s: Rec, slot: byte)
    requires OnBoard(c) && IsVersion(s.version) && slot <= SLOT_B
    ensures var d := Save(crc, c, s).0;
            && SlotBytes(d.cells, slot) == SlotBytes(c.cells, slot) && Untouched(c, d, slot)
            && d.noise == c.noise && (d.lit ==> c.lit)
  {
    hide Save;
    SaveConfined(crc, c, s);
    var d := Save(crc, c, s).0;
    var lo, hi := StateOffset(|c.cells|, 0), StateOffset(|c.cells|, 1) + SECTOR;
    ConfinedElsewhere(c, d, lo, hi, SlotOffset(slot), SlotOffset(slot) + SLOT_SIZE);
  }

  lemma HoldsStays(env: Env, cells: seq<byte>, cells': seq<byte>, slot: byte, linked: byte)
    requires |cells| >= MIN_FLASH && |cells'| >= MIN_FLASH && slot <= SLOT_B
    requires SlotBytes(cells, slot) == SlotBytes(cells', slot) && Holds(env, cells, slot, linked)
    ensures Holds(env, cells', slot, linked)
  {
    var n: nat :| n <= SLOT_SIZE && env.release(linked, SlotBytes(cells, slot)[..n]);
    assert env.release(linked, SlotBytes(cells', slot)[..n]);
  }

  lemma CompleteStays(env: Env, cells: seq<byte>, cells': seq<byte>, slot: byte)
    requires |cells| >= MIN_FLASH && |cells'| >= MIN_FLASH && slot <= SLOT_B
    requires SlotBytes(cells, slot) == SlotBytes(cells', slot) && Complete(env, cells, slot)
    ensures Complete(env, cells', slot)
  {
    HoldsStays(env, cells, cells', slot, slot);
  }

  /** The vector table of the release a slot holds is the one the loader looks at. */
  lemma TableOf(env: Env, cells: seq<byte>, slot: byte, linked: byte)
    requires Sane(env) && |cells| >= MIN_FLASH && Holds(env, cells, slot, linked)
    ensures VectorsOk(env, linked, SlotBytes(cells, slot))
  {
    var s, v := SlotBytes(cells, slot), env.vectors;
    var n: nat :| n <= SLOT_SIZE && env.release(linked, s[..n]);
    var p := s[..n];
    assert p[v..v + 4] == s[v..v + 4] && p[v + 4..v + 8] == s[v + 4..v + 8];
  }

  lemma CompleteBoots(env: Env, cells: seq<byte>, slot: byte)
    requires Sane(env) && |cells| >= MIN_FLASH && Complete(env, cells, slot)
    ensures Bootable(env, cells, slot)
  {
    hide Holds, VectorsOk;
    TableOf(env, cells, slot, slot);
  }

  /** A table cannot point into both slots. */
  lemma ForeignNeverBoots(env: Env, cells: seq<byte>, slot: byte)
    requires Sane(env) && |cells| >= MIN_FLASH && slot <= SLOT_B && Holds(env, cells, slot, OtherSlot(slot))
    ensures !Bootable(env, cells, slot)
  {
    hide Holds;
    TableOf(env, cells, slot, OtherSlot(slot));
  }

  /** From flash that is ready, whichever slot the record names: the loader enters one that is complete. */
  lemma ReadyChooses(env: Env, cells: seq<byte>, active: byte)
    requires Sane(env) && |cells| >= MIN_FLASH && Ready(env, cells) && active <= SLOT_B
    ensures var entered := Choose(env, cells, active);
            && entered.Some? && Complete(env, cells, entered.value)
            && (Both(env, cells) ==> entered == Some(active))
  {
    hide Holds, Bootable;
    if Both(env, cells) {
      CompleteBoots(env, cells, active);
    } else {
      var slot :| Complete(env, cells, slot) && Holds(env, cells, OtherSlot(slot), slot);
      CompleteNames(env, cells, slot);
      CompleteBoots(env, cells, slot);
      ForeignNeverBoots(env, cells, OtherSlot(slot));
      assert active == slot || active == OtherSlot(slot);
    }
  }

  lemma SaveKeepsSlot(env: Env, c: Chip, s: Rec, slot: byte, linked: byte)
    requires OnBoard(c) && IsVersion(s.version) && slot <= SLOT_B && Holds(env, c.cells, slot, linked)
    ensures Holds(env, Save(env.crc, c, s).0.cells, slot, linked)
  {
    hide Save, Holds;
    RecordWrite(env.crc, c, s, slot);
    HoldsStays(env, c.cells, Save(env.crc, c, s).0.cells, slot, linked);
  }

  lemma SaveKeepsBoth(env: Env, c: Chip, s: Rec)
    requires OnBoard(c) && IsVersion(s.version) && Both(env, c.cells)
    ensures Both(env, Save(env.crc, c, s).0.cells)
  {
    hide Save, Holds;
    SaveKeepsSlot(env, c, s, SLOT_A, SLOT_A);
    SaveKeepsSlot(env, c, s, SLOT_B, SLOT_B);
  }

  /** Every record save that starts with flash ready leaves it ready, cut or not. */
  lemma SaveKeepsReady(env: Env, c: Chip, s: Rec)
    requires OnBoard(c) && IsVersion(s.version) && Ready(env, c.cells)
    ensures Ready(env, Save(env.crc, c, s).0.cells)
  {
    hide Save, Holds;
    if Both(env, c.cells) {
      SaveKeepsBoth(env, c, s);
    } else {
      var slot :| Complete(env, c.cells, slot) && Holds(env, c.cells, OtherSlot(slot), slot);
      CompleteNames(env, c.cells, slot);
      SaveKeepsSlot(env, c, s, slot, slot);
      SaveKeepsSlot(env, c, s, OtherSlot(slot), slot);
      assert Complete(env, Save(env.crc, c, s).0.cells, slot);
    }
  }

  lemma {:induction false} SaveUnlit(crc: Checksum, c: Chip, s: Rec)
    requires OnBoard(c) && IsVersion(s.version) && !c.lit
    ensures Save(crc, c, s).0 == c
  {
    hide Decode, Encode;
    if Encode(crc, s).Some? {
      SaveCopyUnlit(c, 0, Encode(crc, s).value);
      SaveCopyUnlit(c, 1, Encode(crc, s).value);
    }
  }

  // One event at a time

  /** Writing only the spare slot, while the record is settled on the other, costs nothing that the loader needs. */
  lemma SpareWritten(env: Env, c: Chip, d: Chip, a: App)
    requires OnBoard(c) && OnBoard(d) && TornUnreadable(env.crc, c)
    requires Complete(env, c.cells, a.running) && InStep(env, c.cells, a) && Settled(env, c.cells, a.running)
    requires Confined(c, d, SlotOffset(OtherSlot(a.running)), SlotOffset(OtherSlot(a.running)) + SLOT_SIZE)
    ensures SafeFlash(env, d.cells) && Complete(env, d.cells, a.running) && InStep(env, d.cells, a)
    ensures Settled(env, d.cells, a.running)
    ensures Untouched(c, d, a.running) && TornUnreadable(env.crc, d)
  {
    hide Load, Decode, Complete, Transferring, OfferHeld;
    var spare := OtherSlot(a.running);
    assert a.running <= SLOT_B by {
      CompleteNames(env, c.cells, a.running);
    }
    assert OtherSlot(spare) == a.running;
    SlotWrite(env, c, d, spare);
    CompleteStays(env, c.cells, d.cells, a.running);
  }

  lemma CompleteNames(env: Env, cells: seq<byte>, slot: byte)
    requires |cells| >= MIN_FLASH && Complete(env, cells, slot)
    ensures slot <= SLOT_B
  {
  }

  /** A record save made with flash ready, and what the application then believes. */
  lemma RecordKeeps(env: Env, c: Chip, a: App, next: Rec)
    requires OnBoard(c) && Ready(env, c.cells) && c.lit && TornUnreadable(env.crc, c) && Complete(env, c.cells, a.running)
    requires IsVersion(next.version) && Printable(next.version) && NamesSlots(next)
    requires next.confirmed ==> next.active == a.running
    requires a.w.Sized() && !a.w.active && !a.link.receiving && a.offer.None?
    requires a.link.got <= a.link.total && IsVersion(a.link.version)
    ensures var (d, b, _) := Record(env, c, a, next);
            Inv(env, Alive(d, b)) && Untouched(c, d, a.running)
  {
    hide Save, Holds, Load, Decode, Ready;
    var (d, b, ok) := Record(env, c, a, next);
    CompleteNames(env, c.cells, a.running);
    RecordWrite(env.crc, c, next, a.running);
    SaveKeepsSlot(env, c, next, a.running, a.running);
    SaveKeepsReady(env, c, next);
    SaveThenLoad(env.crc, c, next);
  }

  /**
   * From two equal copies, every change of the record that the loader, a confirmation or a staging
   * makes is atomic: wherever the supply fails, what loads next is the record before it or the one
   * after it, and the one after it as soon as the first copy is written.
   */
  lemma EveryChangeIsAtomic(env: Env, c: Chip, a: App, version: seq<byte>)
    requires OnBoard(c) && c.lit && TornUnreadable(env.crc, c) && a.running <= SLOT_B
    requires Decode(env.crc, Copy(c.cells, 0)) == Some(a.st) && Decode(env.crc, Copy(c.cells, 1)) == Some(a.st)
    requires IsVersion(version) && Printable(version)
    ensures IsVersion(a.st.version)
    ensures !a.st.confirmed ==>
              Load(env.crc, LoaderRecord(env, c).0.cells) == Some(if c.fuel < 2 then a.st else OnBoot(a.st).0)
    ensures !a.st.confirmed ==>
              var next := Confirm(a.st).(active := a.running, fallback := a.running);
              Load(env.crc, HelloAck(env, c, a).0.cells) == Some(if c.fuel < 2 then a.st else next)
    ensures var slot := OtherSlot(a.running);
            var next := Stage(a.st.(active := a.running, confirmed := true), slot, version);
            Load(env.crc, StageSlot(env, c, a, slot, version).0.cells) == Some(if c.fuel < 2 then a.st else next)
  {
    hide Save, Decode, Copy;
    assert NamesSlots(a.st) && IsVersion(a.st.version) && Printable(a.st.version);
    if !a.st.confirmed {
      SaveIsAtomic(env.crc, c, a.st, OnBoot(a.st).0);
      SaveIsAtomic(env.crc, c, a.st, Confirm(a.st).(active := a.running, fallback := a.running));
    }
    SaveIsAtomic(env.crc, c, a.st, Stage(a.st.(active := a.running, confirmed := true), OtherSlot(a.running), version));
  }

  lemma AckKeeps(env: Env, c: Chip, a: App)
    requires OnBoard(c) && SafeFlash(env, c.cells) && AppInv(env, c, a)
    ensures var (d, b) := HelloAck(env, c, a);
            Inv(env, Alive(d, b)) && Untouched(c, d, a.running)
  {
    hide Save, Load, Decode, Complete, SafeFlash, Streams, Ready;
    if !a.st.confirmed {
      CompleteNames(env, c.cells, a.running);
      RecordKeeps(env, c, a, Confirm(a.st).(active := a.running, fallback := a.running));
    }
  }

  lemma OfferKeeps(env: Env, c: Chip, a: App, h: Header, busy: bool)
    requires OnBoard(c) && SafeFlash(env, c.cells) && AppInv(env, c, a)
    requires env.signed(h) ==> Promised(env, OtherSlot(a.running), h.len, h.sha)
    ensures Inv(env, Alive(c, Offered(env, a, h, busy)))
  {
    hide Load, Decode, Complete, SafeFlash, Streams, Promised, Ready, Settled;
  }

  /** Where offers are matched to slots, an application with nothing on trial is the one on record. */
  lemma MatchedIsSettled(env: Env, cells: seq<byte>, a: App)
    requires |cells| >= MIN_FLASH && InStep(env, cells, a) && env.matched && a.st.confirmed
    ensures Settled(env, cells, a.running)
  {
    hide Load;
  }

  /**
   * A transfer that begins, begins with the record settled on the running slot. This is for the
   * world to see to, unless offers are matched, when it follows.
   */
  ghost predicate Guarded(env: Env, s: Sys, e: Event)
    requires Formed(s)
  {
    e.Pump? && s.app.Some? && s.app.value.offer.Some? ==>
      env.matched || Settled(env, s.chip.cells, s.app.value.running)
  }

  lemma PumpKeeps(env: Env, c: Chip, a: App, sent: bool)
    requires OnBoard(c) && SafeFlash(env, c.cells) && AppInv(env, c, a)
    requires a.offer.Some? ==> env.matched || Settled(env, c.cells, a.running)
    ensures var (d, b) := RunOffer(env, c, a, sent);
            Inv(env, Alive(d, b)) && Untouched(c, d, a.running)
  {
    hide Load, Decode, Complete, SafeFlash, Streams, Begin, Promised, Ready, Settled;
    if a.offer.Some? {
      var h := a.offer.value;
      if env.matched {
        MatchedIsSettled(env, c.cells, a);
      }
      CompleteNames(env, c.cells, a.running);
      var spare := OtherSlot(a.running);
      BeginStreams(c, a.w, h, spare, a.running);
      var (d, w, status) := Begin(c, a.w, h, spare, a.running);
      ConfinedWiden(c, d, SlotOffset(spare), SlotOffset(spare) + Span(h.len), SlotOffset(spare), SlotOffset(spare) + SLOT_SIZE);
      SpareWritten(env, c, d, a);
    }
  }

  lemma CloseKeeps(env: Env, c: Chip, a: App)
    requires OnBoard(c) && SafeFlash(env, c.cells) && AppInv(env, c, a)
    ensures Inv(env, Alive(c, Closed(a)))
  {
    hide Load, Decode, Complete, SafeFlash, Streams, Promised, Ready, Settled;
  }

  lemma UntouchedTrans(c: Chip, d: Chip, e: Chip, slot: byte)
    requires Untouched(c, d, slot) && Untouched(d, e, slot)
    ensures Untouched(c, e, slot)
  {
  }

  /** A verified transfer is a whole release in the spare slot, of whichever link its header stood for. */
  lemma VerifiedIsComplete(env: Env, c: Chip, w: Writer, linked: byte)
    requires OnBoard(c) && w.slot <= SLOT_B && w.total <= SLOT_SIZE
    requires Begins(c, w.slot, w.seen, Span(w.total)) && Verdict(env.sha, w.seen, w.total, w.expected) == Ok
    requires Admitted(env, linked, w.total, w.expected)
    ensures Holds(env, c.cells, w.slot, linked)
  {
    SlotBegins(c, w.slot, w.seen, Span(w.total));
    assert |w.seen| == w.total;
    assert env.release(linked, SlotBytes(c.cells, w.slot)[..w.total]);
  }

  lemma SlotBegins(c: Chip, slot: byte, q: seq<byte>, span: nat)
    requires OnBoard(c) && slot <= SLOT_B && Begins(c, slot, q, span)
    ensures |q| <= SLOT_SIZE && SlotBytes(c.cells, slot)[..|q|] == q
  {
    var base := SlotOffset(slot);
    SliceOfSlice(c.cells, base, SLOT_SIZE, |q|);
    SliceOfSlice(c.cells, base, span, |q|);
    assert c.cells[base..base + span][..|q|] == q;
  }

  /** So with the running slot complete, flash is ready for the record to be rewritten. */
  lemma VerifiedIsReady(env: Env, c: Chip, w: Writer, running: byte)
    requires OnBoard(c) && w.slot == OtherSlot(running) && Complete(env, c.cells, running) && w.total <= SLOT_SIZE
    requires Begins(c, w.slot, w.seen, Span(w.total)) && Verdict(env.sha, w.seen, w.total, w.expected) == Ok
    requires Promised(env, w.slot, w.total, w.expected)
    ensures Ready(env, c.cells)
  {
    hide Holds, Admitted, Begins, Verdict;
    CompleteNames(env, c.cells, running);
    if Admitted(env, w.slot, w.total, w.expected) {
      VerifiedIsComplete(env, c, w, w.slot);
    } else {
      VerifiedIsComplete(env, c, w, running);
    }
  }

  /** The writer may end here: what is cached, what is staged and what is written agree. */
  ghost predicate Ending(env: Env, c: Chip, a: App)
    requires OnBoard(c)
  {
    && TornUnreadable(env.crc, c) && Complete(env, c.cells, a.running) && InStep(env, c.cells, a) && a.st.confirmed
    && Settled(env, c.cells, a.running)
    && a.w.Sized() && a.w.active && 0 < a.w.total && a.w.slot == OtherSlot(a.running) == a.link.slot
    && (c.lit ==> Streams(c, a.w, a.w.seen))
    && a.link.got <= a.link.total && IsVersion(a.link.version) && Printable(a.link.version)
    && Promised(env, a.w.slot, a.w.total, a.w.expected) && a.offer.None?
  }

  lemma StageKeeps(env: Env, c: Chip, a: App, slot: byte, version: seq<byte>)
    requires OnBoard(c) && SafeFlash(env, c.cells) && TornUnreadable(env.crc, c)
    requires Complete(env, c.cells, a.running) && InStep(env, c.cells, a) && slot == OtherSlot(a.running)
    requires c.lit ==> Ready(env, c.cells)
    requires IsVersion(version) && Printable(version)
    requires a.w.Sized() && !a.w.active && !a.link.receiving && a.offer.None?
    requires a.link.got <= a.link.total && IsVersion(a.link.version)
    ensures var (d, b, _) := StageSlot(env, c, a, slot, version);
            Inv(env, Alive(d, b)) && Untouched(c, d, a.running)
  {
    hide Save, Load, Decode, Complete, SafeFlash, Ready, Settled;
    CompleteNames(env, c.cells, a.running);
    var next := Stage(a.st.(active := a.running, confirmed := true), slot, version);
    if c.lit {
      RecordKeeps(env, c, a, next);
    } else {
      SaveUnlit(env.crc, c, next);
    }
  }

  lemma FinishKeeps(env: Env, c: Chip, a: App)
    requires OnBoard(c) && Ending(env, c, a)
    ensures var (d, b, _) := Finish(env, c, a);
            Inv(env, Alive(d, b)) && Untouched(c, d, a.running)
  {
    hide Load, Decode, Complete, SafeFlash, Streams, End, StageSlot, Promised, Begins, Verdict, Ready, Settled;
    CompleteNames(env, c.cells, a.running);
    var spare := OtherSlot(a.running);
    EndConfined(env.sha, c, a.w);
    SpanFits(a.w.total);
    var (d, w, status) := End(env.sha, c, a.w);
    var lo, hi := SlotOffset(spare), SlotOffset(spare) + Span(a.w.total);
    ConfinedWiden(c, d, lo, hi, lo, lo + SLOT_SIZE);
    SpareWritten(env, c, d, a);
    if status == Ok {
      LitBefore(c, d, lo, hi);
      if d.lit {
        EndStreams(env.sha, c, a.w, a.w.seen);
        VerifiedIsReady(env, d, a.w, a.running);
      }
      var b := a.(w := w, link := a.link.(receiving := false, draining := true));
      StageKeeps(env, d, b, b.link.slot, b.link.version);
      UntouchedTrans(c, d, StageSlot(env, d, b, b.link.slot, b.link.version).0, a.running);
    }
  }

  lemma FrameKeeps(env: Env, c: Chip, a: App, data: seq<byte>)
    requires OnBoard(c) && SafeFlash(env, c.cells) && AppInv(env, c, a)
    ensures var (d, b, _) := Binary(env, c, a, data);
            Inv(env, Alive(d, b)) && Untouched(c, d, a.running)
  {
    hide Load, Decode, Complete, SafeFlash, Streams, Chunk, Finish, Promised, Ready, Settled;
    if a.link.receiving && |data| <= a.link.total - a.link.got {
      CompleteNames(env, c.cells, a.running);
      StreamsMeans(c, a.w, a.w.seen);
      ChunkConfined(c, a.w, data);
      SpanFits(a.w.total);
      var (d, w, status) := Chunk(c, a.w, data);
      var lo, hi := SlotOffset(a.w.slot), SlotOffset(a.w.slot) + Span(a.w.total);
      ConfinedWiden(c, d, lo, hi, lo, lo + SLOT_SIZE);
      SpareWritten(env, c, d, a);
      ChunkStreams(c, a.w, a.w.seen, data);
      if status == Ok {
        ChunkKeepsTerms(c, a.w, data);
        var b := a.(w := w, link := a.link.(got := a.link.got + |data|));
        if b.link.got == b.link.total {
          FinishKeeps(env, d, b);
          UntouchedTrans(c, d, Finish(env, d, b).0, a.running);
        } else if d.lit {
          StreamsMeans(d, w, w.seen);
        }
      }
    }
  }

  /** What a frame stages is never the version that is running, and never goes where that is running from. */
  lemma NeverOverItself(env: Env, s: Sys, data: seq<byte>)
    requires Sane(env) && Inv(env, s) && Formed(s) && s.app.Some?
    ensures var a := s.app.value;
            var t := Step(env, s, Frame(data));
            t.app.Some? && t.app.value.st != a.st ==>
              && a.link.receiving && !t.app.value.link.receiving
              && t.app.value.st.version == a.link.version != a.build
              && t.app.value.st.active == OtherSlot(a.running) && t.app.value.st.fallback == a.running
              && !t.app.value.st.confirmed && t.app.value.st.trial == TRIAL_BOOTS
  {
    hide Load, Decode, Complete, Streams, SafeFlash, Chunk, End, Save, Promised, Ready, Settled;
    CompleteNames(env, s.chip.cells, s.app.value.running);
  }

  lemma StreamsMeans(c: Chip, w: Writer, p: seq<byte>)
    requires OnBoard(c) && Streams(c, w, p)
    ensures w.active && w.Sized() && w.slot <= SLOT_B && 0 < w.total && |p| == w.written
  {
  }

  lemma ChunkKeepsTerms(c: Chip, w: Writer, data: seq<byte>)
    requires OnBoard(c) && w.Sized() && Chunk(c, w, data).2 == Ok
    ensures var v := Chunk(c, w, data).1;
            v.active && v.total == w.total && v.expected == w.expected && v.slot == w.slot && v.written == w.written + |data|
  {
    hide Take;
    TakeKeepsTerms(c, w.(seen := w.seen + data), data);
  }

  /** The loader, however its own save goes: it enters a complete slot and writes to neither. */
  lemma LoaderSafe(env: Env, c: Chip)
    requires Sane(env) && OnBoard(c) && SafeFlash(env, c.cells) && c.lit && TornUnreadable(env.crc, c)
    ensures var (d, entered) := Loader(env, c);
            && entered.Some? && Complete(env, d.cells, entered.value) && SafeFlash(env, d.cells)
            && Untouched(c, d, SLOT_A) && Untouched(c, d, SLOT_B)
  {
    hide Save, Complete, Decode, Bootable, Ready;
    var (d, active) := LoaderRecord(env, c);
    var stored := Load(env.crc, c.cells);
    if Ready(env, c.cells) {
      LoaderRecordKeeps(env, c);
      ReadyChooses(env, d.cells, active);
    } else {
      assert d == c;
      CompleteBoots(env, d.cells, active);
    }
  }

  /** What the loader does with the record, from flash that is ready. */
  lemma LoaderRecordKeeps(env: Env, c: Chip)
    requires OnBoard(c) && Ready(env, c.cells)
    ensures var (d, active) := LoaderRecord(env, c);
            active <= SLOT_B && Ready(env, d.cells) && Untouched(c, d, SLOT_A) && Untouched(c, d, SLOT_B)
            && (Both(env, c.cells) ==> Both(env, d.cells))
  {
    hide Save, Complete, Decode, Ready;
    var stored := Load(env.crc, c.cells);
    if stored.Some? && !stored.value.confirmed {
      var next := OnBoot(stored.value).0;
      SaveKeepsReady(env, c, next);
      RecordWrite(env.crc, c, next, SLOT_A);
      RecordWrite(env.crc, c, next, SLOT_B);
      if Both(env, c.cells) {
        SaveKeepsBoth(env, c, next);
      }
    }
  }

  lemma ResetKeeps(env: Env, c: Chip, build: seq<byte>)
    requires Sane(env) && OnBoard(c) && SafeFlash(env, c.cells) && c.lit && TornUnreadable(env.crc, c)
    requires IsVersion(build) && Printable(build)
    ensures Inv(env, Reset(env, c, build))
  {
    hide Complete, Loader, SafeFlash, InStep, Ready, Settled, Init, Decode;
    LoaderSafe(env, c);
    var (d, entered) := Loader(env, c);
    if d.lit {
      LoaderInStep(env, c, build);
      InitRests(env, d.cells, entered.value, build);
      var a := Init(env, d.cells, entered.value, build);
      assert AppInv(env, d, a);
    }
  }

  /** A fresh application: nothing under way. */
  lemma InitRests(env: Env, cells: seq<byte>, slot: byte, build: seq<byte>)
    requires |cells| >= MIN_FLASH
    ensures var a := Init(env, cells, slot, build);
            a.running == slot && a.w == IDLE && a.link == NO_TRANSFER && a.offer.None?
  {
    hide Load;
  }

  /** What rw_ota_init finds after the loader has run: its own view of the record. */
  lemma LoaderInStep(env: Env, c: Chip, build: seq<byte>)
    requires Sane(env) && OnBoard(c) && SafeFlash(env, c.cells) && c.lit && TornUnreadable(env.crc, c)
    requires Loader(env, c).0.lit && IsVersion(build) && Printable(build)
    ensures var (d, entered) := Loader(env, c);
            && entered.Some? && d.noise == c.noise
            && InStep(env, d.cells, Init(env, d.cells, entered.value, build))
            && (!Settled(env, d.cells, entered.value) ==> Ready(env, d.cells))
  {
    hide Save, Complete, Decode, Bootable, Both, Ready;
    LoaderSafe(env, c);
    var (d, active) := LoaderRecord(env, c);
    var stored := Load(env.crc, c.cells);
    if Ready(env, c.cells) {
      LoaderRecordKeeps(env, c);
      ReadyChooses(env, d.cells, active);
      MatchedIsBoth(env, d.cells);
      if stored.Some? && !stored.value.confirmed {
        var next := OnBoot(stored.value).0;
        RecordWrite(env.crc, c, next, SLOT_A);
        SaveThenLoad(env.crc, c, next);
      }
    } else {
      CompleteBoots(env, d.cells, active);
    }
  }

  lemma MatchedIsBoth(env: Env, cells: seq<byte>)
    requires |cells| >= MIN_FLASH && Ready(env, cells)
    ensures env.matched ==> Both(env, cells)
  {
  }

  // Whole runs

  ghost predicate SlotsUntouched(s: Sys, t: Sys) {
    if s.app.Some? then Untouched(s.chip, t.chip, s.app.value.running)
    else Untouched(s.chip, t.chip, SLOT_A) && Untouched(s.chip, t.chip, SLOT_B)
  }

  lemma InvFormed(env: Env, s: Sys)
    requires Inv(env, s)
    ensures Formed(s)
  {
  }

  /**
   * One event from a good state: the state stays good, and the slot that was executing is neither
   * erased nor programmed. A reset addresses neither slot.
   */
  lemma StepKeeps(env: Env, s: Sys, e: Event)
    requires Sane(env) && Inv(env, s) && Formed(s) && Fair(env, s, e) && Guarded(env, s, e)
    ensures Inv(env, Step(env, s, e)) && SlotsUntouched(s, Step(env, s, e))
    ensures e.PowerUp? ==> Untouched(s.chip, Step(env, s, e).chip, SLOT_A) && Untouched(s.chip, Step(env, s, e).chip, SLOT_B)
  {
    hide Inv, AppInv, SafeFlash, HelloAck, Offered, RunOffer, Binary, Closed, Reset, Loader, Complete;
    if e.PowerUp? {
      PowerUpKeeps(env, s, e.fuel, e.noise, e.build);
    } else if s.app.Some? {
      InvParts(env, s);
      var c, a := s.chip, s.app.value;
      if e.Ack? {
        AckKeeps(env, c, a);
      } else if e.Offer? {
        OfferKeeps(env, c, a, e.h, e.busy);
      } else if e.Pump? {
        PumpKeeps(env, c, a, e.sent);
      } else if e.Frame? {
        FrameKeeps(env, c, a, e.data);
      } else {
        CloseKeeps(env, c, a);
      }
    }
  }

  lemma InvParts(env: Env, s: Sys)
    requires Inv(env, s)
    ensures OnBoard(s.chip) && SafeFlash(env, s.chip.cells)
    ensures s.app.Some? ==> AppInv(env, s.chip, s.app.value) && Complete(env, s.chip.cells, s.app.value.running)
  {
  }

  lemma PowerUpKeeps(env: Env, s: Sys, fuel: nat, noise: Option<seq<byte>>, build: seq<byte>)
    requires Sane(env) && Inv(env, s) && Formed(s) && Fair(env, s, PowerUp(fuel, noise, build))
    ensures var t := Reset(env, Powered(s.chip, fuel, noise), build);
            Inv(env, t) && Untouched(s.chip, t.chip, SLOT_A) && Untouched(s.chip, t.chip, SLOT_B)
    ensures SlotsUntouched(s, Reset(env, Powered(s.chip, fuel, noise), build))
  {
    hide AppInv, SafeFlash, Loader, Decode;
    var c := Powered(s.chip, fuel, noise);
    ResetKeeps(env, c, build);
    LoaderSafe(env, c);
    if s.app.Some? {
      InvParts(env, s);
    }
  }

  ghost predicate Happens(env: Env, s: Sys, e: Event, t: Sys) {
    Formed(s) && env.vectors <= 0x100 && Fair(env, s, e) && t == Step(env, s, e)
  }

  /** No transfer of the run begins with the record unsettled. */
  ghost predicate AllGuarded(env: Env, trace: seq<Sys>, events: seq<Event>) {
    |trace| == |events| + 1 && forall i :: 0 <= i < |events| ==> Formed(trace[i]) && Guarded(env, trace[i], events[i])
  }

  /** A run: any events at all, in any order. */
  ghost predicate Run(env: Env, trace: seq<Sys>, events: seq<Event>) {
    && |trace| == |events| + 1
    && forall i :: 0 <= i < |events| ==> Happens(env, trace[i], events[i], trace[i + 1])
  }

  lemma {:induction false} RunKeepsInv(env: Env, trace: seq<Sys>, events: seq<Event>, i: nat)
    requires Sane(env) && Run(env, trace, events) && AllGuarded(env, trace, events) && Inv(env, trace[0]) && i <= |events|
    ensures Inv(env, trace[i])
    decreases i
  {
    hide Inv, Step, Fair, Formed;
    if i > 0 {
      RunKeepsInv(env, trace, events, i - 1);
      assert Happens(env, trace[i - 1], events[i - 1], trace[i - 1 + 1]);
      StepKeeps(env, trace[i - 1], events[i - 1]);
    }
  }

  lemma MatchedIsGuarded(env: Env, trace: seq<Sys>, events: seq<Event>)
    requires Run(env, trace, events) && env.matched
    ensures AllGuarded(env, trace, events)
  {
    hide Step, Fair;
    forall i | 0 <= i < |events|
      ensures Formed(trace[i]) && Guarded(env, trace[i], events[i])
    {
      assert Happens(env, trace[i], events[i], trace[i + 1]);
    }
  }

  lemma SomeComplete(env: Env, cells: seq<byte>)
    requires |cells| >= MIN_FLASH && SafeFlash(env, cells)
    ensures Complete(env, cells, SLOT_A) || Complete(env, cells, SLOT_B)
  {
    hide Load, Holds;
    if !Both(env, cells) && Ready(env, cells) {
      var slot :| Complete(env, cells, slot) && Holds(env, cells, OtherSlot(slot), slot);
      CompleteNames(env, cells, slot);
      assert slot == SLOT_A || slot == SLOT_B;
    }
  }

  /** A part as it leaves the factory: slot A written, no record. */
  lemma FactoryIsGood(env: Env, c: Chip)
    requires OnBoard(c) && Complete(env, c.cells, SLOT_A) && Load(env.crc, c.cells) == None
    ensures Inv(env, Sys(c, None))
  {
    hide Load, Complete;
  }

  /**
   * In every run from the factory, at every point, including part-way through any erase, program
   * or record save: some slot holds a complete release; whatever happens to the supply next, the
   * loader enters a complete one; and no step of the run erases or programs the slot that is
   * executing. That is so whenever offers are matched to slots; and for signed offers of any
   * image whatever, as long as no transfer begins with the record unsettled.
   */
  lemma AlwaysBootable(env: Env, trace: seq<Sys>, events: seq<Event>, i: nat, fuel: nat, noise: Option<seq<byte>>)
    requires Sane(env) && Run(env, trace, events) && (env.matched || AllGuarded(env, trace, events)) && i <= |events|
    requires OnBoard(trace[0].chip) && trace[0].app == None
    requires Complete(env, trace[0].chip.cells, SLOT_A) && Load(env.crc, trace[0].chip.cells) == None
    requires OnBoard(trace[i].chip) && Covers(noise, |trace[i].chip.cells|)
    requires TornUnreadable(env.crc, Powered(trace[i].chip, fuel, noise))
    ensures Complete(env, trace[i].chip.cells, SLOT_A) || Complete(env, trace[i].chip.cells, SLOT_B)
    ensures var (d, entered) := Loader(env, Powered(trace[i].chip, fuel, noise));
            entered.Some? && Complete(env, d.cells, entered.value)
    ensures i < |events| ==> SlotsUntouched(trace[i], trace[i + 1])
  {
    hide Step, Loader, Complete, Fair, Load, Decode;
    var s := trace[0];
    if env.matched {
      MatchedIsGuarded(env, trace, events);
    }
    FactoryIsGood(env, s.chip);
    assert Sys(s.chip, None) == s;
    RunKeepsInv(env, trace, events, i);
    SomeComplete(env, trace[i].chip.cells);
    LoaderSafe(env, Powered(trace[i].chip, fuel, noise));
    if i < |events| {
      assert Happens(env, trace[i], events[i], trace[i + 1]);
      StepKeeps(env, trace[i], events[i]);
    }
  }

  /** While an image is on trial, nothing but its confirmation writes or starts anything. */
  lemma TrialIsQuiet(env: Env, s: Sys, e: Event)
    requires Sane(env) && Inv(env, s) && Formed(s) && Fair(env, s, e)
    requires s.app.Some? && !s.app.value.st.confirmed && !e.Ack? && !e.PowerUp?
    ensures var t := Step(env, s, e);
            t.chip == s.chip && t.app.Some? && t.app.value.st == s.app.value.st && t.app.value.running == s.app.value.running
  {
    hide Load, Decode, Complete, Streams, SafeFlash, Begin, Chunk, Finish;
  }

  /** Consecutive resets of one part, each with a supply that outlasts the loader. */
  ghost predicate Resets(env: Env, chips: seq<Chip>, entered: seq<Option<byte>>) {
    && |chips| == |entered| + 1 && env.vectors <= 0x100 && OnBoard(chips[0])
    && forall k :: 0 <= k < |entered| ==> OnBoard(chips[k]) && ResetOf(env, chips[k], chips[k + 1], entered[k])
  }

  ghost predicate ResetOf(env: Env, c: Chip, d: Chip, slot: Option<byte>)
    requires OnBoard(c) && env.vectors <= 0x100
  {
    exists fuel: nat, noise: Option<seq<byte>> ::
      fuel >= 4 && Covers(noise, |c.cells|) && TornUnreadable(env.crc, Powered(c, fuel, noise))
      && Loader(env, Powered(c, fuel, noise)) == (d, slot)
  }

  /** One reset of a part with both slots complete, by the record it carries. */
  lemma ResetOnce(env: Env, c: Chip, d: Chip, slot: Option<byte>, s: Rec)
    requires Sane(env) && OnBoard(c) && Both(env, c.cells) && ResetOf(env, c, d, slot)
    requires Load(env.crc, c.cells) == Some(s)
    ensures OnBoard(d) && Both(env, d.cells) && Load(env.crc, d.cells) == Some(OnBoot(s).0)
    ensures slot == Some(OnBoot(s).0.active)
    ensures s.confirmed ==> d.log == c.log && d.cells == c.cells
  {
    hide Save, Complete, Decode, Bootable;
    var fuel: nat, noise: Option<seq<byte>> :|
      fuel >= 4 && Covers(noise, |c.cells|) && TornUnreadable(env.crc, Powered(c, fuel, noise))
      && Loader(env, Powered(c, fuel, noise)) == (d, slot);
    var p := Powered(c, fuel, noise);
    var next := OnBoot(s).0;
    if !s.confirmed {
      SaveKeepsBoth(env, p, next);
      SaveAt(env.crc, p, next);
      SaveThenLoad(env.crc, p, next);
    }
    CompleteBoots(env, d.cells, next.active);
  }

  lemma {:induction false} TrialRecord(env: Env, chips: seq<Chip>, entered: seq<Option<byte>>, s: Rec, k: nat)
    requires Sane(env) && Resets(env, chips, entered) && k <= |entered|
    requires Both(env, chips[0].cells) && Load(env.crc, chips[0].cells) == Some(s)
    ensures OnBoard(chips[k]) && Both(env, chips[k].cells) && Load(env.crc, chips[k].cells) == Some(Boots(s, k))
    decreases k
  {
    hide Load, Complete, ResetOf;
    if k > 0 {
      TrialRecord(env, chips, entered, s, k - 1);
      ResetOnce(env, chips[k - 1], chips[k], entered[k - 1], Boots(s, k - 1));
    }
  }

  /**
   * A staged image that never confirms is entered exactly three times; from the fourth reset on
   * the loader enters the slot it was staged from; and from the fifth on it writes nothing.
   */
  lemma ThreeTrials(env: Env, chips: seq<Chip>, entered: seq<Option<byte>>, s: Rec, slot: byte, version: seq<byte>, k: nat)
    requires Sane(env) && Resets(env, chips, entered) && k < |entered|
    requires s.confirmed && NamesSlots(s) && slot <= SLOT_B && slot != s.active
    requires Both(env, chips[0].cells) && Load(env.crc, chips[0].cells) == Some(Stage(s, slot, version))
    ensures entered[k] == Some(if k < 3 then slot else s.active)
    ensures k >= 4 ==> chips[k + 1].cells == chips[k].cells && chips[k + 1].log == chips[k].log
  {
    hide Load, Complete, ResetOf;
    var t := Stage(s, slot, version);
    TrialRecord(env, chips, entered, t, k);
    TrialCountsDown(t, k);
    TrialCountsDown(t, k + 1);
    ResetOnce(env, chips[k], chips[k + 1], entered[k], Boots(t, k));
  }
}
