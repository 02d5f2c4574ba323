/**
 * The two programs that share the flash: the loader (firmware/loader/main.c) and the application's
 * update path (firmware/src/ota/ota.c and the offer and stream handling of
 * firmware/src/proto/proto.c).
 */
module OtaDevice {
  import opened Bytes
  import opened Flash
  import opened Layout
  import opened OtaState
  import opened OtaRecord
  import opened OtaWriter

  const XIP_BASE: nat := 0x1000_0000

  /**
   * What differs between boards and builds, and what the outside world decides: `signed` is the
   * signature check, `release` says which payloads are genuine images linked for which slot, and
   * `matched` whether the relay only ever offers an image to the slot it is linked for. The
   * signed header does not name that slot, and nothing on the device asks.
   */
  datatype Env = Env(crc: Checksum, sha: Digest, signed: Header -> bool, release: (byte, seq<byte>) -> bool,
                     matched: bool, vectors: nat, ramBase: nat, ramEnd: nat)

  // The loader

  /** slot_bootable, on the bytes of the slot. */
  predicate VectorsOk(env: Env, slot: byte, s: seq<byte>)
    requires env.vectors + 8 <= |s|
  {
    var sp, pc := Rd32(s[env.vectors..env.vectors + 4]), Rd32(s[env.vectors + 4..env.vectors + 8]);
    var base := XIP_BASE + SlotOffset(slot);
    env.ramBase <= sp <= env.ramEnd && base <= pc < base + SLOT_SIZE && pc % 2 == 1
  }

  predicate Bootable(env: Env, cells: seq<byte>, slot: byte)
    requires |cells| >= MIN_FLASH && env.vectors <= 0x100
  {
    VectorsOk(env, slot, SlotBytes(cells, slot))
  }

  /** The word the processor reads at this place. */
  function Word(cells: seq<byte>, at: nat): nat
    requires at + 4 <= |cells|
  {
    var (a, b, c, d) := (cells[at] as nat, cells[at + 1] as nat, cells[at + 2] as nat, cells[at + 3] as nat);
    a + 0x100 * b + 0x1_0000 * c + 0x100_0000 * d
  }

  /**
   * A slot is taken to hold an image exactly when the two words where its vector table should be are
   * a stack pointer into memory, both ends included, and an odd address within that slot.
   */
  lemma BootableExactly(env: Env, cells: seq<byte>, slot: byte)
    requires |cells| >= MIN_FLASH && env.vectors <= 0x100 && slot <= SLOT_B
    ensures SlotOffset(slot) + 0x108 <= |cells|
    ensures var at := SlotOffset(slot) + env.vectors;
            var (sp, pc) := (Word(cells, at), Word(cells, at + 4));
            Bootable(env, cells, slot) <==>
              env.ramBase <= sp <= env.ramEnd && pc % 2 == 1
              && 0x1000_0000 + SlotOffset(slot) <= pc < 0x1000_0000 + SlotOffset(slot) + 704 * 1024
  {
    var off, at, s := SlotOffset(slot), SlotOffset(slot) + env.vectors, SlotBytes(cells, slot);
    SliceWithin(cells, off, |s|, env.vectors, env.vectors + 4);
    SliceWithin(cells, off, |s|, env.vectors + 4, env.vectors + 8);
  }

  /** What main does with the record before it jumps, and which slot the record then names. */
  function LoaderRecord(env: Env, c: Chip): (r: (Chip, byte))
    requires OnBoard(c)
    ensures OnBoard(r.0) && |r.0.cells| == |c.cells|
  {
    match Load(env.crc, c.cells)
    case None => (c, SLOT_A)
    case Some(s) =>
      var (next, _, changed) := OnBoot(s);
      (if changed then Save(env.crc, c, next).0 else c, next.active)
  }

  /** The slot jumped to; None is the ROM bootloader. */
  function Choose(env: Env, cells: seq<byte>, active: byte): Option<byte>
    requires |cells| >= MIN_FLASH && env.vectors <= 0x100
  {
    if Bootable(env, cells, active) then Some(active)
    else if Bootable(env, cells, OtherSlot(active)) then Some(OtherSlot(active))
    else None
  }

  function Loader(env: Env, c: Chip): (r: (Chip, Option<byte>))
    requires OnBoard(c) && env.vectors <= 0x100
    ensures OnBoard(r.0) && |r.0.cells| == |c.cells|
  {
    var (d, active) := LoaderRecord(env, c);
    (d, Choose(env, d.cells, active))
  }

  method LoaderMain(env: Env, flash: FlashPart) returns (entered: Option<byte>)
    requires OnBoard(flash.Now()) && env.vectors <= 0x100
    modifies flash
    ensures (flash.Now(), entered) == Loader(env, old(flash.Now()))
  {
    hide Decode, Save, VectorsOk;
    var stored := FlashLoad(env.crc, flash);
    var active := SLOT_A;
    if stored.Some? {
      var s := new StateRecord(stored.value);
      var _, writeBack := s.BootStep();
      if writeBack {
        var next := s.Value();
        var _ := FlashSave(env.crc, flash, next);
      }
      active := s.active;
    }
    if !Bootable(env, flash.cells, active) {
      var other := OtherSlot(active);
      if Bootable(env, flash.cells, other) {
        return Some(other);
      }
      return None;
    }
    entered := Some(active);
  }

  // The application

  /** The session's side of a transfer. */
  datatype Link = Link(receiving: bool, draining: bool, got: nat, total: nat, slot: byte, version: seq<byte>)

  const NO_TRANSFER: Link := Link(false, false, 0, 0, 0, [])

  /** The running image: which slot, its version, the cached record, the writer and the session. */
  datatype App = App(running: byte, build: seq<byte>, st: Rec, w: Writer, link: Link, offer: Option<Header>)

  /** rw_ota_init, and everything else as at reset. */
  function Init(env: Env, cells: seq<byte>, slot: byte, build: seq<byte>): App
    requires |cells| >= MIN_FLASH
  {
    var st := match Load(env.crc, cells)
              case Some(s) => s
              case None => Default(build).(active := slot, fallback := slot);
    App(slot, build, st, IDLE, NO_TRANSFER, None)
  }

  /** An application begins with nothing under way and the record there is, or one that makes its own slot the only one. */
  lemma FreshStart(env: Env, cells: seq<byte>, slot: byte, build: seq<byte>)
    requires |cells| >= MIN_FLASH && IsVersion(build)
    ensures var a := Init(env, cells, slot, build);
            && a.running == slot && a.build == build && a.offer.None? && !a.w.active && a.w.Sized()
            && !a.link.receiving && !a.link.draining && a.link.got == a.link.total == 0
            && match Load(env.crc, cells)
               case Some(s) => a.st == s
               case None => a.st.active == a.st.fallback == slot && a.st.confirmed && a.st.version == build
  {
    hide Load;
  }

  /** Writing a new record, and adopting it only if the write took. */
  function Record(env: Env, c: Chip, app: App, next: Rec): (r: (Chip, App, bool))
    requires OnBoard(c) && IsVersion(next.version)
    ensures OnBoard(r.0) && |r.0.cells| == |c.cells|
  {
    var (d, ok) := Save(env.crc, c, next);
    (d, if ok then app.(st := next) else app, ok)
  }

  /** rw_ota_confirm_running_image, reached when the relay's hello_ack has been verified. */
  function HelloAck(env: Env, c: Chip, app: App): (r: (Chip, App))
    requires OnBoard(c) && IsVersion(app.st.version)
    ensures OnBoard(r.0) && |r.0.cells| == |c.cells|
  {
    if app.st.confirmed then (c, app)
    else
      var (d, a, _) := Record(env, c, app, Confirm(app.st).(active := app.running, fallback := app.running));
      (d, a)
  }

  /** rw_ota_stage_slot. */
  function StageSlot(env: Env, c: Chip, app: App, slot: byte, version: seq<byte>): (r: (Chip, App, bool))
    requires OnBoard(c) && IsVersion(app.st.version) && IsVersion(version)
    ensures OnBoard(r.0) && |r.0.cells| == |c.cells|
  {
    if slot > SLOT_B || slot == app.running then (c, app, false)
    else Record(env, c, app, Stage(app.st.(active := app.running, confirmed := true), slot, version))
  }

  /**
   * Staging is for the spare slot alone; for any other nothing is written and nothing changes. The
   * record it writes names that slot, the running one as the way back, three boots, and the version.
   */
  lemma StagesSpareOnly(env: Env, c: Chip, app: App, slot: byte, version: seq<byte>)
    requires OnBoard(c) && IsVersion(app.st.version) && IsVersion(version) && app.running <= SLOT_B
    ensures var r := StageSlot(env, c, app, slot, version);
            if slot > SLOT_B || slot == app.running then r == (c, app, false)
            else
              var next := Rec(Add32(app.st.seqno, 1), slot, app.running, 3, false, version);
              var (d, ok) := Save(env.crc, c, next);
              r == (d, if ok then app.(st := next) else app, ok)
  {
    hide Save;
  }

  /** rw_ota_header_open, for the fields the device acts on. */
  predicate HeaderOk(env: Env, h: Header) {
    0 < h.len <= SLOT_SIZE && h.version != [] && IsVersion(h.version) && Printable(h.version) && env.signed(h)
  }

  /** What handle_ota_offer reads in a frame: no id to answer to, no header of the right shape, or a header. */
  datatype OfferText = NoId | NoHeader | Readable(header: Header)

  /** What goes back at once; an offer that is queued is answered when the slot is clear. */
  datatype OfferAnswer = Silence | BadHeader | Busy | OnTrial | NotOpened | SameVersion | Queued

  /** The answer of handle_ota_offer; `busy` is some other command in the session's one queue slot. */
  function OfferAnswered(env: Env, app: App, text: OfferText, busy: bool): OfferAnswer {
    if text.NoId? then Silence
    else if text.NoHeader? then BadHeader
    else if app.link.receiving || app.w.active then Busy
    else if !app.st.confirmed then OnTrial
    else if !HeaderOk(env, text.header) then NotOpened
    else if text.header.version == app.build then SameVersion
    else if busy || app.offer.Some? then Busy
    else Queued
  }

  /**
   * When each answer is given. An offer is queued exactly when nothing is being received or written,
   * the running image is confirmed, the header is signed and of a size and a version that can be
   * meant, that version is not the one already running, and the queue is free.
   */
  lemma OfferAnsweredExactly(env: Env, app: App, text: OfferText, busy: bool)
    ensures var a := OfferAnswered(env, app, text, busy);
            && (a == Silence <==> text.NoId?) && (a == BadHeader <==> text.NoHeader?)
            && (text.Readable? ==>
                  var h := text.header;
                  var idle := !app.link.receiving && !app.w.active;
                  var good := 0 < h.len <= SLOT_SIZE && 0 < |h.version| <= 16 && env.signed(h)
                              && forall i :: 0 <= i < |h.version| ==> 0x20 <= h.version[i] <= 0x7E;
                  var other := h.version != app.build;
                  var free := !busy && app.offer.None?;
                  && (a == Queued <==> idle && app.st.confirmed && good && other && free)
                  && (a == Busy <==> !idle || (app.st.confirmed && good && other && !free))
                  && (a == OnTrial <==> idle && !app.st.confirmed)
                  && (a == NotOpened <==> idle && app.st.confirmed && !good)
                  && (a == SameVersion <==> idle && app.st.confirmed && good && !other)
                  && Offered(env, app, h, busy) == if a == Queued then app.(offer := Some(h)) else app)
  {
  }

  /** What a frame that does carry a header leaves behind; any other leaves everything as it was. */
  function Offered(env: Env, app: App, h: Header, busy: bool): App {
    if app.link.receiving || app.w.active then app
    else if !app.st.confirmed then app
    else if !HeaderOk(env, h) then app
    else if h.version == app.build then app
    else if busy || app.offer.Some? then app
    else app.(offer := Some(h))
  }

  function Abandon(app: App): App {
    app.(w := Abort(app.w), link := app.link.(receiving := false, draining := true))
  }

  /** run_ota_begin on the main loop; `sent` says whether ota_accept went out. */
  function RunOffer(env: Env, c: Chip, app: App, sent: bool): (r: (Chip, App))
    requires OnBoard(c)
    ensures OnBoard(r.0) && |r.0.cells| == |c.cells|
  {
    match app.offer
    case None => (c, app)
    case Some(h) =>
      var (d, w, status) := Begin(c, app.w, h, OtherSlot(app.running), app.running);
      if status != Ok then (d, app.(w := w, offer := None))
      else
        var a := app.(w := w, link := Link(true, false, 0, h.len, OtherSlot(app.running), h.version), offer := None);
        (d, if sent then a else Abandon(a))
  }

  /**
   * An offer is taken up once, whatever comes of it: it leaves the queue, and a transfer of what its
   * header says into the spare slot begins, unless the slot cannot be cleared or nobody can be told.
   */
  lemma TakenUpOnce(env: Env, c: Chip, app: App, sent: bool)
    requires OnBoard(c)
    ensures var (d, a) := RunOffer(env, c, app, sent);
            if app.offer.None? then (d, a) == (c, app)
            else
              var h := app.offer.value;
              var (e, w, status) := Begin(c, app.w, h, OtherSlot(app.running), app.running);
              && d == e && a.offer.None? && a.st == app.st && a.running == app.running && a.build == app.build
              && (status != Ok ==> a.w == w && a.link == app.link)
              && (status == Ok ==>
                    && (a.link.receiving <==> sent) && (a.link.draining <==> !sent) && a.w == (if sent then w else Abort(w))
                    && a.link.got == 0 && a.link.total == h.len && a.link.slot == OtherSlot(app.running) && a.link.version == h.version)
  {
    hide Begin;
  }

  /** on_binary: the flag false closes the connection. */
  function Binary(env: Env, c: Chip, app: App, data: seq<byte>): (r: (Chip, App, bool))
    requires OnBoard(c) && app.w.Sized() && app.link.got <= app.link.total
    requires IsVersion(app.st.version) && IsVersion(app.link.version)
    ensures OnBoard(r.0) && |r.0.cells| == |c.cells|
  {
    if !app.link.receiving then (c, app, app.link.draining)
    else if |data| > app.link.total - app.link.got then (c, Abandon(app), true)
    else
      var (d, w, status) := Chunk(c, app.w, data);
      var a := app.(w := w);
      if status != Ok then (d, Abandon(a), true)
      else
        var b := a.(link := a.link.(got := a.link.got + |data|));
        if b.link.got < b.link.total then (d, b, true) else Finish(env, d, b)
  }

  /**
   * Bytes nobody asked for close the connection, unless a transfer has just ended on it, when more
   * may be on its way; either way they are not looked at. A transfer that ends, however it ends,
   * leaves the connection in that state.
   */
  lemma StrayBytes(env: Env, c: Chip, app: App, data: seq<byte>)
    requires OnBoard(c) && app.w.Sized() && app.link.got <= app.link.total
    requires IsVersion(app.st.version) && IsVersion(app.link.version)
    ensures var (d, b, keep) := Binary(env, c, app, data);
            && (keep <==> app.link.receiving || app.link.draining)
            && (!app.link.receiving ==> d == c && b == app)
            && (app.link.receiving && !b.link.receiving ==> b.link.draining)
  {
    hide Chunk, End, Save, StageSlot;
    StagingKeepsLink(env, c, app, 0, []);
    if app.link.receiving && |data| <= app.link.total - app.link.got {
      var (d, w, status) := Chunk(c, app.w, data);
      var b := app.(w := w, link := app.link.(got := app.link.got + |data|));
      if status == Ok && b.link.got == b.link.total {
        var (e, v, verdict) := End(env.sha, d, b.w);
        StagingKeepsLink(env, e, b.(w := v, link := b.link.(receiving := false, draining := true)), b.link.slot, b.link.version);
      }
    }
  }

  lemma StagingKeepsLink(env: Env, c: Chip, app: App, slot: byte, version: seq<byte>)
    requires OnBoard(c) && IsVersion(app.st.version) && IsVersion(version)
    ensures StageSlot(env, c, app, slot, version).1.link == app.link
  {
    hide Save;
  }

  /** The last bytes have been taken: verify, stage, and stop receiving. */
  function Finish(env: Env, c: Chip, app: App): (r: (Chip, App, bool))
    requires OnBoard(c) && app.w.Sized()
    requires IsVersion(app.st.version) && IsVersion(app.link.version)
    ensures OnBoard(r.0) && |r.0.cells| == |c.cells|
  {
    var (d, w, status) := End(env.sha, c, app.w);
    var a := app.(w := w);
    if status != Ok then (d, Abandon(a), true)
    else
      var b := a.(link := a.link.(receiving := false, draining := true));
      var (e, b', _) := StageSlot(env, d, b, b.link.slot, b.link.version);
      (e, b', true)
  }

  /** on_close. */
  function Closed(app: App): App {
    app.(offer := None, w := if app.link.receiving then Abort(app.w) else app.w, link := NO_TRANSFER)
  }

  /** The same, as the file-scope variables of ota.c, ota_write.c and proto.c changed in place. */
  class Agent {
    const env: Env
    const flash: FlashPart
    const writer: WriterUnit
    const state: StateRecord
    const running: byte
    const build: seq<byte>
    var receiving: bool
    var draining: bool
    var got: nat
    var total: nat
    var slot: byte
    var version: seq<byte>
    var offer: Option<Header>

    ghost predicate Valid()
      reads this, flash, writer, writer.page, writer.flash, state
    {
      && writer.flash == flash && writer.Valid() && got <= total
      && IsVersion(state.version) && IsVersion(version)
    }

    ghost function Now(): App
      requires writer.page.Length == PAGE && writer.held <= PAGE
      reads this, writer, writer.page, state
    {
      App(running, build, state.Value(), writer.Now(), Link(receiving, draining, got, total, slot, version), offer)
    }

    constructor (env: Env, flash: FlashPart, slot: byte, build: seq<byte>)
      requires OnBoard(flash.Now()) && IsVersion(build)
      ensures Valid() && this.flash == flash && this.env == env
      ensures Now() == Init(env, flash.cells, slot, build)
      ensures fresh(writer) && fresh(writer.page) && fresh(state)
    {
      var stored := FlashLoad(env.crc, flash);
      var st := if stored.Some? then stored.value else Default(build).(active := slot, fallback := slot);
      this.env, this.flash, running, this.build := env, flash, slot, build;
      writer := new WriterUnit(flash);
      state := new StateRecord(st);
      receiving, draining, got, total, this.slot, version, offer := false, false, 0, 0, 0, [], None;
    }

    method RecordState(next: Rec) returns (ok: bool)
      requires Valid() && IsVersion(next.version)
      modifies flash, state
      ensures Valid()
      ensures (flash.Now(), Now(), ok) == Record(env, old(flash.Now()), old(Now()), next)
    {
      hide Save;
      ok := FlashSave(env.crc, flash, next);
      if ok {
        state.Assign(next);
      }
    }

    method OnHelloAck()
      requires Valid()
      modifies flash, state
      ensures Valid()
      ensures (flash.Now(), Now()) == HelloAck(env, old(flash.Now()), old(Now()))
    {
      hide Save;
      if state.confirmed {
        return;
      }
      var next := new StateRecord(state.Value());
      next.ConfirmTrial();
      next.active := running;
      next.fallback := next.active;
      var _ := RecordState(next.Value());
    }

    method Stage(target: byte, name: seq<byte>) returns (ok: bool)
      requires Valid() && IsVersion(name)
      modifies flash, state
      ensures Valid()
      ensures (flash.Now(), Now(), ok) == StageSlot(env, old(flash.Now()), old(Now()), target, name)
    {
      hide Save;
      if target > SLOT_B {
        return false;
      }
      if target == running {
        return false;
      }
      var next := new StateRecord(state.Value());
      next.active := running;
      next.confirmed := true;
      next.StageSlot(target, name);
      ok := RecordState(next.Value());
    }

    method OnOffer(text: OfferText, busy: bool) returns (answer: OfferAnswer)
      requires Valid()
      modifies this`offer
      ensures Valid() && answer == OfferAnswered(env, old(Now()), text, busy)
      ensures Now() == if text.Readable? then Offered(env, old(Now()), text.header, busy) else old(Now())
      ensures answer == Queued <==>
                && text.Readable? && !receiving && !writer.active && state.confirmed && !busy && old(offer).None?
                && 0 < text.header.len <= SLOT_SIZE && 0 < |text.header.version| <= VERSTR_WIDTH
                && Printable(text.header.version) && env.signed(text.header) && text.header.version != build
      ensures offer == if answer == Queued then Some(text.header) else old(offer)
    {
      if text.NoId? {
        return Silence;
      }
      if text.NoHeader? {
        return BadHeader;
      }
      if receiving || writer.active {
        return Busy;
      }
      if !state.confirmed {
        return OnTrial;
      }
      if !HeaderOk(env, text.header) {
        return NotOpened;
      }
      if text.header.version == build {
        return SameVersion;
      }
      if busy || offer.Some? {
        return Busy;
      }
      offer := Some(text.header);
      answer := Queued;
    }

    method AbandonTransfer()
      requires Valid()
      modifies writer, this`receiving, this`draining
      ensures Valid() && Now() == Abandon(old(Now()))
    {
      writer.AbortTransfer();
      receiving := false;
      draining := true;
    }

    method RunPending(sent: bool)
      requires Valid() && (offer.Some? ==> IsVersion(offer.value.version))
      modifies this, writer, writer.page, flash
      ensures Valid()
      ensures (flash.Now(), Now()) == RunOffer(env, old(flash.Now()), old(Now()), sent)
    {
      hide Begin;
      if offer.None? {
        return;
      }
      var h := offer.value;
      var target := OtherSlot(running);
      var status := writer.BeginTransfer(h, target, running);
      offer := None;
      if status != Ok {
        return;
      }
      receiving, draining, got, total, slot, version := true, false, 0, h.len, target, h.version;
      if !sent {
        AbandonTransfer();
      }
    }

    method OnBinary(data: seq<byte>) returns (keep: bool)
      requires Valid()
      modifies this, writer, writer.page, flash, state
      ensures Valid()
      ensures (flash.Now(), Now(), keep) == Binary(env, old(flash.Now()), old(Now()), data)
      ensures keep <==> old(receiving) || old(draining)
    {
      hide Chunk, End, StageSlot;
      if !receiving {
        return draining;
      }
      if |data| > total - got {
        AbandonTransfer();
        return true;
      }
      var status := writer.AddChunk(data);
      if status != Ok {
        AbandonTransfer();
        return true;
      }
      got := got + |data|;
      if got < total {
        return true;
      }
      keep := FinishTransfer();
    }

    method FinishTransfer() returns (keep: bool)
      requires Valid()
      modifies this, writer, writer.page, flash, state
      ensures Valid()
      ensures (flash.Now(), Now(), keep) == Finish(env, old(flash.Now()), old(Now()))
    {
      hide End, StageSlot;
      var status := writer.EndTransfer(env.sha);
      if status != Ok {
        AbandonTransfer();
        return true;
      }
      receiving := false;
      draining := true;
      var _ := Stage(slot, version);
      keep := true;
    }

    method OnClose()
      requires Valid()
      modifies this, writer
      ensures Valid() && Now() == Closed(old(Now()))
    {
      offer := None;
      if receiving {
        writer.AbortTransfer();
      }
      receiving, draining, got, total, slot, version := false, false, 0, 0, 0, [];
    }
  }
}
