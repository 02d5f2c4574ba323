/** Two flash sectors holding one configuration (firmware/src/config/config_flash.c). */
module ConfigStore {
  import opened Bytes
  import opened Flash
  import opened Layout
  import opened ConfigRecord

  /** What flash_safe_execute reports; a timed-out callback may or may not have run. */
  datatype Outcome = Ran | TimedOut(ran: bool) | Refused
  {
    predicate Runs() {
      Ran? || (TimedOut? && ran)
    }
  }

  datatype Status = SaveOk | ErrEncode | ErrLocked | ErrVerify

  /** Sector `First` or `Second`: the two at the top of flash. */
  function Offset(size: nat, slot: Winner): nat
    requires size >= MIN_FLASH
  {
    if slot == Second then size - SECTOR else size - 2 * SECTOR
  }

  function Sector(cells: seq<byte>, slot: Winner): (s: seq<byte>)
    requires |cells| >= MIN_FLASH
    ensures |s| == SECTOR
  {
    cells[Offset(|cells|, slot)..Offset(|cells|, slot) + SECTOR]
  }

  function Chosen(crc: Checksum, cells: seq<byte>): (Winner, Config)
    requires |cells| >= MIN_FLASH
  {
    Select(crc, Sector(cells, First), Sector(cells, Second))
  }

  function Load(crc: Checksum, cells: seq<byte>): Option<Config>
    requires |cells| >= MIN_FLASH
  {
    var (winner, c) := Chosen(crc, cells);
    if winner == Neither then None else Some(c)
  }

  // Saving

  function Image(raw: seq<byte>): (s: seq<byte>)
    requires |raw| == CFG_RECORD_LEN
    ensures |s| == SECTOR && raw <= s
  {
    raw + Fill(0, SECTOR - CFG_RECORD_LEN)
  }

  lemma ImageOf(s: seq<byte>)
    requires |s| == SECTOR && forall i :: CFG_RECORD_LEN <= i < SECTOR ==> s[i] == 0
    ensures s == Image(s[..CFG_RECORD_LEN])
  {
  }

  /** do_erase_and_program. */
  function Rewrite(c: Chip, slot: Winner, image: seq<byte>): (d: Chip)
    requires OnBoard(c) && |image| == SECTOR
    ensures OnBoard(d) && |d.cells| == |c.cells|
  {
    var off := Offset(|c.cells|, slot);
    Program(Erase(c, off, SECTOR), off, image)
  }

  /** write_and_verify. */
  function Attempt(c: Chip, slot: Winner, image: seq<byte>, o: Outcome): (r: (Chip, Status))
    requires OnBoard(c) && |image| == SECTOR
    ensures OnBoard(r.0) && |r.0.cells| == |c.cells|
  {
    match o
    case Refused => (c, ErrLocked)
    case TimedOut(ran) => (if ran then Rewrite(c, slot, image) else c, ErrVerify)
    case Ran =>
      var d := Rewrite(c, slot, image);
      (d, if Sector(d.cells, slot) == image then SaveOk else ErrVerify)
  }

  function Target(winner: Winner): Winner {
    if winner == First then Second else First
  }

  function NextSeq(held: Option<Config>): u32 {
    match held
    case None => 1
    case Some(c) => Add32(c.seqno, 1)
  }

  /** rw_config_flash_save: flash, the caller's record, and the status. */
  function Save(crc: Checksum, c: Chip, cfg: Config, o1: Outcome, o2: Outcome): (r: (Chip, Config, Status))
    requires OnBoard(c)
    ensures OnBoard(r.0) && |r.0.cells| == |c.cells|
  {
    var slot := Target(Chosen(crc, c.cells).0);
    var next := cfg.(seqno := NextSeq(Load(crc, c.cells)));
    match Encode(crc, next)
    case None => (c, cfg, ErrEncode)
    case Some(raw) =>
      var (d1, st1) := Attempt(c, slot, Image(raw), o1);
      var (d, st) := if st1 == ErrVerify then Attempt(d1, slot, Image(raw), o2) else (d1, st1);
      (d, if st == SaveOk then next else cfg, st)
  }

  // The code

  /** The caller's record, reached through a pointer. */
  class ConfigCell {
    var value: Config

    constructor (c: Config)
      ensures value == c
    {
      value := c;
    }
  }

  method WriteAndVerify(flash: FlashPart, slot: Winner, image: seq<byte>, o: Outcome) returns (st: Status)
    requires OnBoard(flash.Now()) && |image| == SECTOR
    modifies flash
    ensures (flash.Now(), st) == Attempt(old(flash.Now()), slot, image, o)
  {
    hide Erase, Program;
    var off := Offset(|flash.cells|, slot);
    if o.Runs() {
      flash.RangeErase(off, SECTOR);
      flash.RangeProgram(off, image);
    }
    if !o.Ran? {
      return if o.TimedOut? then ErrVerify else ErrLocked;
    }
    if flash.cells[off..off + SECTOR] != image {
      return ErrVerify;
    }
    st := SaveOk;
  }

  method FlashSave(crc: Checksum, flash: FlashPart, cfg: ConfigCell, o1: Outcome, o2: Outcome) returns (st: Status)
    requires OnBoard(flash.Now())
    modifies flash, cfg
    ensures (flash.Now(), cfg.value, st) == Save(crc, old(flash.Now()), old(cfg.value), o1, o2)
  {
    hide Attempt, Select, Encode, Decode, Image;
    var (winner, current) := Chosen(crc, flash.cells);
    var slot := if winner == First then Second else First;
    var newSeq := if winner == Neither then 1 else Add32(current.seqno, 1);
    var savedSeq := cfg.value.seqno;
    cfg.value := cfg.value.(seqno := newSeq);
    var sector := new byte[SECTOR](_ => 0);
    var n := EncodeInto(crc, cfg.value, sector);
    if n != CFG_RECORD_LEN {
      cfg.value := cfg.value.(seqno := savedSeq);
      return ErrEncode;
    }
    ImageOf(sector[..]);
    st := WriteAndVerify(flash, slot, sector[..], o1);
    if st == ErrVerify {
      st := WriteAndVerify(flash, slot, sector[..], o2);
    }
    if st != SaveOk {
      cfg.value := cfg.value.(seqno := savedSeq);
    }
  }

  // What a save touches, and what is left wherever the supply fails

  function OtherSector(slot: Winner): Winner {
    if slot == Second then First else Second
  }

  ghost predicate SectorOf(slot: Winner) {
    slot == First || slot == Second
  }

  lemma RewriteConfined(c: Chip, slot: Winner, image: seq<byte>)
    requires OnBoard(c) && |image| == SECTOR && SectorOf(slot)
    ensures var off := Offset(|c.cells|, slot);
            Confined(c, Rewrite(c, slot, image), off, off + SECTOR)
    ensures Sector(Rewrite(c, slot, image).cells, OtherSector(slot)) == Sector(c.cells, OtherSector(slot))
  {
    var off, other := Offset(|c.cells|, slot), Offset(|c.cells|, OtherSector(slot));
    assert Confined(c, Rewrite(c, slot, image), off, off + SECTOR) by {
      hide Step;
      var e := Erase(c, off, SECTOR);
      ConfinedTrans(c, e, Program(e, off, image), off, off + SECTOR);
    }
    var d := Rewrite(c, slot, image);
    hide Rewrite;
    ConfinedElsewhere(c, d, off, off + SECTOR, other, other + SECTOR);
  }

  /** What is left of a sector whose rewriting was begun and not finished. */
  function TornSector(c: Chip, slot: Winner): (s: seq<byte>)
    requires OnBoard(c)
    ensures |s| == SECTOR
  {
    match c.noise
    case Some(noise) => Sector(noise, slot)
    case None => Fill(0xFF, SECTOR)
  }

  lemma RewriteTorn(c: Chip, slot: Winner, image: seq<byte>)
    requires OnBoard(c) && |image| == SECTOR && SectorOf(slot) && c.lit && c.fuel < 2
    ensures var d := Rewrite(c, slot, image);
            && !d.lit && d.noise == c.noise
            && Sector(d.cells, slot) == if Unbegun(c) then Sector(c.cells, slot) else TornSector(c, slot)
  {
    hide Anded;
  }

  /** The supply fails before the next step, so that the step is not begun. */
  predicate Unbegun(c: Chip) {
    c.fuel == 0 && c.noise.None?
  }

  lemma RewriteDone(c: Chip, slot: Winner, image: seq<byte>)
    requires OnBoard(c) && |image| == SECTOR && SectorOf(slot) && c.lit && c.fuel >= 2
    ensures var d := Rewrite(c, slot, image);
            d.lit && d.fuel == c.fuel - 2 && Sector(d.cells, slot) == image && d.noise == c.noise
  {
    hide Anded;
    var off := Offset(|c.cells|, slot);
    var e := Erase(c, off, SECTOR);
    assert e.cells[off..off + SECTOR] == Fill(0xFF, SECTOR);
    ProgramOnErased(image);
  }

  /** Erase then program: not begun, torn, or exactly the image. */
  lemma RewriteAt(c: Chip, slot: Winner, image: seq<byte>)
    requires OnBoard(c) && |image| == SECTOR && SectorOf(slot) && c.lit
    ensures var d := Rewrite(c, slot, image);
            && (c.fuel < 2 ==>
                  !d.lit && Sector(d.cells, slot) == if Unbegun(c) then Sector(c.cells, slot) else TornSector(c, slot))
            && (c.fuel >= 2 ==> d.lit && d.fuel == c.fuel - 2 && Sector(d.cells, slot) == image)
            && d.noise == c.noise
  {
    hide Rewrite, Sector;
    if c.fuel < 2 {
      RewriteTorn(c, slot, image);
    } else {
      RewriteDone(c, slot, image);
    }
  }

  lemma RewriteUnlit(c: Chip, slot: Winner, image: seq<byte>)
    requires OnBoard(c) && |image| == SECTOR && !c.lit
    ensures Rewrite(c, slot, image) == c
  {
  }

  /** The assumption on hardware: a sector torn part-way does not pass for a record. */
  ghost predicate TornUnreadable(crc: Checksum, c: Chip)
    requires OnBoard(c)
  {
    c.noise.Some? ==>
      Decode(crc, Sector(c.noise.value, First)).None? && Decode(crc, Sector(c.noise.value, Second)).None?
  }

  /** How a save that was started left its sector. */
  datatype Fate = Untried | Torn | Written

  function AttemptFate(fuel: nat, clean: bool, o: Outcome): Fate {
    if !o.Runs() || (fuel == 0 && clean) then Untried else if fuel < 2 then Torn else Written
  }

  /** The supply lasts as long as this attempt does. */
  predicate Outlasts(fuel: nat, o: Outcome) {
    o.Runs() ==> fuel >= 2
  }

  /** By supply and by what flash_safe_execute did, twice at most. */
  function SaveFate(fuel: nat, clean: bool, o1: Outcome, o2: Outcome): Fate {
    var first := AttemptFate(fuel, clean, o1);
    if !o1.TimedOut? || !Outlasts(fuel, o1) then first
    else
      var second := AttemptFate(if o1.ran then fuel - 2 else fuel, clean, o2);
      if second == Untried then first else second
  }

  lemma AttemptAt(c: Chip, slot: Winner, image: seq<byte>, o: Outcome)
    requires OnBoard(c) && |image| == SECTOR && SectorOf(slot) && c.lit
    ensures var (d, st) := Attempt(c, slot, image, o);
            var other := OtherSector(slot);
            && d.noise == c.noise && Sector(d.cells, other) == Sector(c.cells, other)
            && d.lit == Outlasts(c.fuel, o)
            && Sector(d.cells, slot) == (match AttemptFate(c.fuel, c.noise.None?, o)
                                         case Untried => Sector(c.cells, slot)
                                         case Torn => TornSector(c, slot)
                                         case Written => image)
            && (d.lit ==> d.fuel == (if o.Runs() then c.fuel - 2 else c.fuel))
            && (d.lit ==> (st == ErrVerify <==> o.TimedOut?) && (st == SaveOk <==> o.Ran?))
  {
    hide Rewrite, Sector;
    RewriteConfined(c, slot, image);
    RewriteAt(c, slot, image);
  }

  lemma AttemptUnlit(c: Chip, slot: Winner, image: seq<byte>, o: Outcome)
    requires OnBoard(c) && |image| == SECTOR && !c.lit
    ensures Attempt(c, slot, image, o).0 == c
  {
    hide Rewrite, Sector;
    RewriteUnlit(c, slot, image);
  }

  /** The sector written and the other one, after a save that could be encoded. */
  lemma SaveSectors(crc: Checksum, c: Chip, cfg: Config, o1: Outcome, o2: Outcome)
    requires OnBoard(c) && c.lit && cfg.Fits()
    ensures var (d, after, st) := Save(crc, c, cfg, o1, o2);
            var slot := Target(Chosen(crc, c.cells).0);
            var next := cfg.(seqno := NextSeq(Load(crc, c.cells)));
            var image := Image(Encode(crc, next).value);
            && d.noise == c.noise && Sector(d.cells, OtherSector(slot)) == Sector(c.cells, OtherSector(slot))
            && Sector(d.cells, slot) == (match SaveFate(c.fuel, c.noise.None?, o1, o2)
                                         case Untried => Sector(c.cells, slot)
                                         case Torn => TornSector(c, slot)
                                         case Written => image)
            && (d.lit && st == SaveOk ==> SaveFate(c.fuel, c.noise.None?, o1, o2) == Written)
            && (!o1.Runs() && !o2.Runs() ==> d.lit) && (c.fuel >= 4 ==> d.lit)
            && (d.lit ==> (st == SaveOk <==> o1.Ran? || (o1.TimedOut? && o2.Ran?)))
            && (after == if st == SaveOk then next else cfg)
  {
    hide Attempt, Sector, Chosen, Load, Encode, Image;
    var slot := Target(Chosen(crc, c.cells).0);
    var next := cfg.(seqno := NextSeq(Load(crc, c.cells)));
    var image := Image(Encode(crc, next).value);
    AttemptAt(c, slot, image, o1);
    var (d1, st1) := Attempt(c, slot, image, o1);
    if d1.lit {
      AttemptAt(d1, slot, image, o2);
    } else {
      AttemptUnlit(d1, slot, image, o2);
    }
  }

  /**
   * What a save reports when it comes back, and the number it leaves in the caller's hands: success
   * after the first try or, if that timed out, the second; and otherwise the caller's own number.
   */
  lemma SaveReports(crc: Checksum, c: Chip, cfg: Config, o1: Outcome, o2: Outcome)
    requires OnBoard(c) && c.lit && Save(crc, c, cfg, o1, o2).0.lit
    ensures var (d, after, st) := Save(crc, c, cfg, o1, o2);
            && (st == ErrEncode <==> !cfg.Fits())
            && (cfg.Fits() ==>
                  var last := if o1.TimedOut? then o2 else o1;
                  && (st == SaveOk <==> last.Ran?) && (st == ErrLocked <==> last.Refused?) && (st == ErrVerify <==> last.TimedOut?))
            && (st != SaveOk ==> after == cfg)
            && (st == SaveOk ==> after == cfg.(seqno := after.seqno)
                                 && match Load(crc, c.cells)
                                    case None => after.seqno == 1
                                    case Some(held) => after.seqno as int == (held.seqno as int + 1) % 0x1_0000_0000)
  {
    hide Attempt, Sector, Chosen, Load, Encode, Image;
    var slot := Target(Chosen(crc, c.cells).0);
    var next := cfg.(seqno := NextSeq(Load(crc, c.cells)));
    if cfg.Fits() {
      var image := Image(Encode(crc, next).value);
      AttemptAt(c, slot, image, o1);
      var d1 := Attempt(c, slot, image, o1).0;
      AttemptReports(c, slot, image, o1);
      if d1.lit {
        AttemptAt(d1, slot, image, o2);
        AttemptReports(d1, slot, image, o2);
      } else {
        AttemptUnlit(d1, slot, image, o2);
      }
    }
  }

  lemma AttemptReports(c: Chip, slot: Winner, image: seq<byte>, o: Outcome)
    requires OnBoard(c) && |image| == SECTOR && SectorOf(slot)
    ensures o.Refused? ==> Attempt(c, slot, image, o).1 == ErrLocked
    ensures o.TimedOut? ==> Attempt(c, slot, image, o).1 == ErrVerify
    ensures o.Ran? ==> var (d, st) := Attempt(c, slot, image, o);
                       if Sector(d.cells, slot) == image then st == SaveOk else st == ErrVerify
  {
    hide Rewrite, Sector;
  }

  /** The stored form: the next number, and an undefined authentication mode made automatic. */
  function Stored(held: Option<Config>, cfg: Config): Config {
    cfg.(seqno := NextSeq(held), auth := Normal(cfg.auth))
  }

  /**
   * After a save, finished or cut anywhere, a load returns exactly the new configuration if its
   * sector was written, and exactly the old one otherwise; a save reported as done was written;
   * and the sector the loader would have read was not addressed. Nothing is assumed about what
   * the two sectors held, so this includes the step across the 2^32 wrap.
   */
  lemma SaveAt(crc: Checksum, c: Chip, cfg: Config, o1: Outcome, o2: Outcome)
    requires OnBoard(c) && c.lit && TornUnreadable(crc, c) && cfg.Strings() && cfg.Fits()
    ensures var (d, after, st) := Save(crc, c, cfg, o1, o2);
            var held := Load(crc, c.cells);
            && Load(crc, d.cells) == (if SaveFate(c.fuel, c.noise.None?, o1, o2) == Written then Some(Stored(held, cfg)) else held)
            && (d.lit && st == SaveOk ==> SaveFate(c.fuel, c.noise.None?, o1, o2) == Written)
            && TornUnreadable(crc, d)
  {
    hide Decode, Encode, Sector, Save;
    SaveSectors(crc, c, cfg, o1, o2);
    BlankUnreadable(crc);
    var winner := Chosen(crc, c.cells).0;
    var held := Load(crc, c.cells);
    var next := cfg.(seqno := NextSeq(held));
    EncodeDecode(crc, next, Image(Encode(crc, next).value));
    if held.Some? {
      NewerIsAnOrderLocally(held.value.seqno, held.value.seqno);
    }
  }

  lemma SaveRefused(crc: Checksum, c: Chip, cfg: Config, o1: Outcome, o2: Outcome)
    requires OnBoard(c) && !cfg.Fits()
    ensures Save(crc, c, cfg, o1, o2) == (c, cfg, ErrEncode)
  {
  }

  // Runs

  datatype Event =
    | PowerUp(fuel: nat, noise: Option<seq<byte>>) // any reset; the supply will last `fuel` flash steps
    | Store(cfg: Config, first: Outcome, second: Outcome)

  function Step(crc: Checksum, c: Chip, e: Event): (d: Chip)
    requires OnBoard(c) && (e.PowerUp? ==> Covers(e.noise, |c.cells|))
    ensures OnBoard(d) && |d.cells| == |c.cells|
  {
    match e
    case PowerUp(fuel, noise) => c.(fuel := fuel, noise := noise, lit := true)
    case Store(cfg, o1, o2) => if c.lit then Save(crc, c, cfg, o1, o2).0 else c
  }

  ghost predicate Fair(crc: Checksum, c: Chip, e: Event)
    requires OnBoard(c)
  {
    match e
    case PowerUp(fuel, noise) => Covers(noise, |c.cells|) && TornUnreadable(crc, c.(noise := noise))
    case Store(cfg, _, _) => cfg.Strings()
  }

  ghost predicate Happens(crc: Checksum, c: Chip, e: Event, d: Chip) {
    OnBoard(c) && Fair(crc, c, e) && d == Step(crc, c, e)
  }

  ghost predicate Run(crc: Checksum, trace: seq<Chip>, events: seq<Event>) {
    && |trace| == |events| + 1 && OnBoard(trace[0]) && TornUnreadable(crc, trace[0])
    && forall i :: 0 <= i < |events| ==> Happens(crc, trace[i], events[i], trace[i + 1])
  }

  /** Whether this event is a save whose sector was written to the end. */
  predicate Commits(c: Chip, e: Event) {
    e.Store? && c.lit && e.cfg.Fits() && SaveFate(c.fuel, c.noise.None?, e.first, e.second) == Written
  }

  /** The newest of the first `i` events that committed; -1 if none did. */
  function Newest(trace: seq<Chip>, events: seq<Event>, i: nat): (n: int)
    requires i <= |events| < |trace|
    ensures -1 <= n < i && (n >= 0 ==> Commits(trace[n], events[n]))
    ensures forall k :: n < k < i ==> !Commits(trace[k], events[k])
  {
    if i == 0 then -1 else if Commits(trace[i - 1], events[i - 1]) then i - 1 else Newest(trace, events, i - 1)
  }

  /** The number a chain of commits has reached. */
  function Held(crc: Checksum, trace: seq<Chip>, events: seq<Event>, i: nat): Option<Config>
    requires i <= |events| < |trace| && OnBoard(trace[0])
  {
    if i == 0 then Load(crc, trace[0].cells)
    else if Commits(trace[i - 1], events[i - 1]) then Some(Stored(Held(crc, trace, events, i - 1), events[i - 1].cfg))
    else Held(crc, trace, events, i - 1)
  }

  /**
   * The two sectors are one cell: in every run of saves and power cuts, any number of them at any
   * flash step, a load returns what the last committed save stored, or what was there at first.
   */
  lemma {:induction false} TwoSectorsAreOneCell(crc: Checksum, trace: seq<Chip>, events: seq<Event>, i: nat)
    requires Run(crc, trace, events) && i <= |events|
    ensures OnBoard(trace[i]) && TornUnreadable(crc, trace[i])
    ensures Load(crc, trace[i].cells) == Held(crc, trace, events, i)
    decreases i
  {
    hide TornUnreadable, Load, Save, SaveFate;
    if i > 0 {
      TwoSectorsAreOneCell(crc, trace, events, i - 1);
      var c, e := trace[i - 1], events[i - 1];
      assert Happens(crc, c, e, trace[i - 1 + 1]);
      if e.PowerUp? {
        PowerUpReads(crc, c, e.fuel, e.noise);
      } else if c.lit && e.cfg.Fits() {
        SaveAt(crc, c, e.cfg, e.first, e.second);
      } else if c.lit {
        SaveRefused(crc, c, e.cfg, e.first, e.second);
      }
    }
  }

  lemma PowerUpReads(crc: Checksum, c: Chip, fuel: nat, noise: Option<seq<byte>>)
    requires OnBoard(c) && Covers(noise, |c.cells|) && TornUnreadable(crc, c.(noise := noise))
    ensures TornUnreadable(crc, c.(fuel := fuel, noise := noise, lit := true))
  {
  }

  /** What is held carries the settings of the newest committed save. */
  lemma {:induction false} HeldIsNewest(crc: Checksum, trace: seq<Chip>, events: seq<Event>, i: nat)
    requires i <= |events| < |trace| && OnBoard(trace[0])
    ensures var n, held := Newest(trace, events, i), Held(crc, trace, events, i);
            if n < 0 then held == Load(crc, trace[0].cells)
            else held.Some? && held == Some(events[n].cfg.(seqno := held.value.seqno, auth := Normal(events[n].cfg.auth)))
    decreases i
  {
    hide Load, SaveFate, Commits;
    if i > 0 {
      HeldIsNewest(crc, trace, events, i - 1);
    }
  }

  lemma {:induction false} NewestAdvances(trace: seq<Chip>, events: seq<Event>, i: nat, j: nat)
    requires i <= j <= |events| < |trace|
    ensures Newest(trace, events, i) <= Newest(trace, events, j)
    decreases j
  {
    if i < j {
      NewestAdvances(trace, events, i, j - 1);
    }
  }

  /**
   * So what loads never goes back: at a later point it is what it was, or the settings of a save
   * started in between.
   */
  lemma NeverGoesBack(crc: Checksum, trace: seq<Chip>, events: seq<Event>, i: nat, j: nat)
    requires Run(crc, trace, events) && i <= j <= |events|
    ensures OnBoard(trace[i]) && OnBoard(trace[j])
    ensures var (was, now) := (Load(crc, trace[i].cells), Load(crc, trace[j].cells));
            || now == was
            || exists k :: i <= k < j && Commits(trace[k], events[k]) && now.Some?
                 && now.value == events[k].cfg.(seqno := now.value.seqno, auth := Normal(events[k].cfg.auth))
  {
    TwoSectorsAreOneCell(crc, trace, events, i);
    TwoSectorsAreOneCell(crc, trace, events, j);
    HeldIsNewest(crc, trace, events, j);
    HeldStays(crc, trace, events, i, j);
  }

  /** This event is a save that came back and reported success. */
  predicate Succeeds(crc: Checksum, c: Chip, e: Event)
    requires OnBoard(c)
  {
    e.Store? && c.lit && var (d, _, st) := Save(crc, c, e.cfg, e.first, e.second); d.lit && st == SaveOk
  }

  /** From a save that reported success on, what loads is that save's settings or those of a later one. */
  lemma SuccessIsKept(crc: Checksum, trace: seq<Chip>, events: seq<Event>, k: nat, j: nat)
    requires Run(crc, trace, events) && k < j <= |events|
    requires OnBoard(trace[k]) && Succeeds(crc, trace[k], events[k])
    ensures OnBoard(trace[j])
    ensures var now := Load(crc, trace[j].cells);
            exists n :: k <= n < j && Commits(trace[n], events[n]) && now.Some?
              && now.value == events[n].cfg.(seqno := now.value.seqno, auth := Normal(events[n].cfg.auth))
  {
    hide Load, Save, SaveFate, TornUnreadable;
    var c, e := trace[k], events[k];
    TwoSectorsAreOneCell(crc, trace, events, k);
    TwoSectorsAreOneCell(crc, trace, events, j);
    assert Happens(crc, c, e, trace[k + 1]);
    if e.cfg.Fits() {
      SaveAt(crc, c, e.cfg, e.first, e.second);
    } else {
      SaveRefused(crc, c, e.cfg, e.first, e.second);
    }
    assert Commits(c, e);
    NewestAdvances(trace, events, k + 1, j);
    HeldIsNewest(crc, trace, events, j);
  }

  lemma {:induction false} HeldStays(crc: Checksum, trace: seq<Chip>, events: seq<Event>, i: nat, j: nat)
    requires i <= j <= |events| < |trace| && OnBoard(trace[0])
    ensures Newest(trace, events, j) >= i || Held(crc, trace, events, j) == Held(crc, trace, events, i)
    decreases j
  {
    if i < j {
      HeldStays(crc, trace, events, i, j - 1);
    }
  }

  /** A save that comes back has had supply enough for what it tried. */
  lemma CameBack(crc: Checksum, c: Chip, cfg: Config, o1: Outcome, o2: Outcome)
    requires OnBoard(c) && c.lit && cfg.Fits() && Save(crc, c, cfg, o1, o2).0.lit
    ensures Outlasts(c.fuel, o1)
    ensures o1.TimedOut? ==> Outlasts(if o1.ran then c.fuel - 2 else c.fuel, o2)
  {
    hide Attempt, Sector, Chosen, Load, Encode, Image;
    var slot := Target(Chosen(crc, c.cells).0);
    var image := Image(Encode(crc, cfg.(seqno := NextSeq(Load(crc, c.cells)))).value);
    AttemptAt(c, slot, image, o1);
    var d1 := Attempt(c, slot, image, o1).0;
    if d1.lit {
      AttemptAt(d1, slot, image, o2);
    } else {
      AttemptUnlit(d1, slot, image, o2);
    }
  }

  /**
   * A save reported as failed leaves the old configuration to be loaded, unless its first
   * callback ran and was answered too late, or neither was answered in time and the second ran.
   */
  lemma FailureSticksExactly(crc: Checksum, c: Chip, cfg: Config, o1: Outcome, o2: Outcome)
    requires OnBoard(c) && c.lit && TornUnreadable(crc, c) && cfg.Strings()
    ensures var (d, _, st) := Save(crc, c, cfg, o1, o2);
            d.lit && st != SaveOk ==>
              (Load(crc, d.cells) == Load(crc, c.cells)
               <==> !(cfg.Fits() && o1.TimedOut? && (o1.ran || o2 == TimedOut(true))))
  {
    hide Decode, Encode, Sector, Save, Load;
    if cfg.Fits() {
      SaveAt(crc, c, cfg, o1, o2);
      SaveSectors(crc, c, cfg, o1, o2);
      if Save(crc, c, cfg, o1, o2).0.lit {
        CameBack(crc, c, cfg, o1, o2);
      }
    } else {
      SaveRefused(crc, c, cfg, o1, o2);
    }
  }

  /** The least of it: the callback ran, its answer was late, and the second try was refused. */
  lemma FailureMayStick(crc: Checksum, c: Chip, cfg: Config)
    requires OnBoard(c) && c.lit && c.fuel >= 2 && TornUnreadable(crc, c) && cfg.Strings() && cfg.Fits()
    ensures var (d, after, st) := Save(crc, c, cfg, TimedOut(true), Refused);
            d.lit && st == ErrLocked && after == cfg && Load(crc, d.cells) == Some(Stored(Load(crc, c.cells), cfg))
  {
    hide Sector, Encode, Decode;
    SaveAt(crc, c, cfg, TimedOut(true), Refused);
    SaveSectors(crc, c, cfg, TimedOut(true), Refused);
  }

  /** Only the sector a load would not have returned is addressed. */
  lemma LiveSectorUntouched(crc: Checksum, c: Chip, cfg: Config, o1: Outcome, o2: Outcome)
    requires OnBoard(c)
    ensures var (d, _, _) := Save(crc, c, cfg, o1, o2);
            var winner := Chosen(crc, c.cells).0;
            var off := Offset(|c.cells|, Target(winner));
            && Confined(c, d, off, off + SECTOR)
            && (winner != Neither ==> Sector(d.cells, winner) == Sector(c.cells, winner))
  {
    hide Attempt, Sector, Select, Encode, Image;
    var winner := Chosen(crc, c.cells).0;
    var slot := Target(winner);
    var next := cfg.(seqno := NextSeq(Load(crc, c.cells)));
    if Encode(crc, next).Some? {
      var image := Image(Encode(crc, next).value);
      AttemptConfined(c, slot, image, o1);
      var (d1, st1) := Attempt(c, slot, image, o1);
      if st1 == ErrVerify {
        AttemptConfined(d1, slot, image, o2);
        var off := Offset(|c.cells|, slot);
        ConfinedTrans(c, d1, Attempt(d1, slot, image, o2).0, off, off + SECTOR);
      }
    }
  }

  lemma AttemptConfined(c: Chip, slot: Winner, image: seq<byte>, o: Outcome)
    requires OnBoard(c) && |image| == SECTOR && SectorOf(slot)
    ensures var off := Offset(|c.cells|, slot);
            var d := Attempt(c, slot, image, o).0;
            Confined(c, d, off, off + SECTOR) && Sector(d.cells, OtherSector(slot)) == Sector(c.cells, OtherSector(slot))
  {
    hide Rewrite, Sector;
    RewriteConfined(c, slot, image);
  }

  // Factory reset

  function EraseOne(c: Chip, slot: Winner, o: Outcome): (d: Chip)
    requires OnBoard(c)
    ensures OnBoard(d) && |d.cells| == |c.cells|
  {
    if o.Runs() then Erase(c, Offset(|c.cells|, slot), SECTOR) else c
  }

  function Failure(o: Outcome): Status {
    match o
    case Ran => SaveOk
    case TimedOut(_) => ErrVerify
    case Refused => ErrLocked
  }

  /** rw_config_flash_erase_all: B first. */
  function EraseAll(crc: Checksum, c: Chip, oB: Outcome, oA: Outcome): (r: (Chip, Status))
    requires OnBoard(c)
    ensures OnBoard(r.0) && |r.0.cells| == |c.cells|
  {
    var d := EraseOne(c, Second, oB);
    if !oB.Ran? then (d, Failure(oB))
    else
      var e := EraseOne(d, First, oA);
      if !oA.Ran? then (e, Failure(oA))
      else (e, if Chosen(crc, e.cells).0 != Neither then ErrVerify else SaveOk)
  }

  function Kept(current: Config): Config {
    UNPROVISIONED.(device := current.device, token := current.token)
  }

  function FactoryReset(crc: Checksum, c: Chip, oB: Outcome, oA: Outcome, o1: Outcome, o2: Outcome): (r: (Chip, Status))
    requires OnBoard(c)
    ensures OnBoard(r.0) && |r.0.cells| == |c.cells|
  {
    var held := Load(crc, c.cells);
    var (d, st) := EraseAll(crc, c, oB, oA);
    if held.None? || held.value.token == [] || st != SaveOk then (d, st)
    else
      var (e, _, saved) := Save(crc, d, Kept(held.value), o1, o2);
      (e, saved)
  }

  method EraseBoth(crc: Checksum, flash: FlashPart, oB: Outcome, oA: Outcome) returns (st: Status)
    requires OnBoard(flash.Now())
    modifies flash
    ensures (flash.Now(), st) == EraseAll(crc, old(flash.Now()), oB, oA)
  {
    hide Erase, Select;
    var order, outcomes := [Second, First], [oB, oA];
    ghost var c := flash.Now();
    for i := 0 to 2
      invariant OnBoard(flash.Now()) && |flash.cells| == |c.cells|
      invariant i == 0 ==> flash.Now() == c
      invariant i >= 1 ==> oB == Ran
      invariant i == 1 ==> flash.Now() == EraseOne(c, Second, oB)
      invariant i == 2 ==> oA == Ran && flash.Now() == EraseOne(EraseOne(c, Second, oB), First, oA)
    {
      if outcomes[i].Runs() {
        flash.RangeErase(Offset(|flash.cells|, order[i]), SECTOR);
      }
      if !outcomes[i].Ran? {
        return Failure(outcomes[i]);
      }
    }
    st := if Chosen(crc, flash.cells).0 != Neither then ErrVerify else SaveOk;
  }

  method Reset(crc: Checksum, flash: FlashPart, oB: Outcome, oA: Outcome, o1: Outcome, o2: Outcome) returns (st: Status)
    requires OnBoard(flash.Now())
    modifies flash
    ensures (flash.Now(), st) == FactoryReset(crc, old(flash.Now()), oB, oA, o1, o2)
  {
    hide EraseAll, Save, Select, Decode, Config.Strings, Config.Fits;
    var (winner, current) := Chosen(crc, flash.cells);
    if winner == Neither || current.token == [] {
      st := EraseBoth(crc, flash, oB, oA);
      return;
    }
    var cleared := new ConfigCell(Kept(current));
    st := EraseBoth(crc, flash, oB, oA);
    if st != SaveOk {
      return;
    }
    st := FlashSave(crc, flash, cleared, o1, o2);
  }

  lemma BlankUnreadable(crc: Checksum)
    ensures Decode(crc, Fill(0xFF, SECTOR)).None?
  {
    assert Fill(0xFF, SECTOR)[0..4][0] == 0xFF;
  }

  lemma EraseOneAt(c: Chip, slot: Winner, o: Outcome)
    requires OnBoard(c) && SectorOf(slot)
    ensures var d := EraseOne(c, slot, o);
            && d.noise == c.noise && Sector(d.cells, OtherSector(slot)) == Sector(c.cells, OtherSector(slot))
            && (!c.lit || !o.Runs() ==> d == c)
            && (c.lit && o.Runs() && c.fuel == 0 ==>
                  !d.lit && Sector(d.cells, slot) == if Unbegun(c) then Sector(c.cells, slot) else TornSector(c, slot))
            && (c.lit && o.Runs() && c.fuel >= 1 ==>
                  d.lit && d.fuel == c.fuel - 1 && Sector(d.cells, slot) == Fill(0xFF, SECTOR))
  {
    if o.Runs() {
      var off, other := Offset(|c.cells|, slot), Offset(|c.cells|, OtherSector(slot));
      ConfinedElsewhere(c, Erase(c, off, SECTOR), off, off + SECTOR, other, other + SECTOR);
    }
  }

  lemma SaveUnlit(crc: Checksum, c: Chip, cfg: Config, o1: Outcome, o2: Outcome)
    requires OnBoard(c) && !c.lit
    ensures Save(crc, c, cfg, o1, o2).0 == c
  {
    hide Chosen, Encode, Attempt, Image;
    var next := cfg.(seqno := NextSeq(Load(crc, c.cells)));
    if Encode(crc, next).Some? {
      var slot, image := Target(Chosen(crc, c.cells).0), Image(Encode(crc, next).value);
      AttemptUnlit(c, slot, image, o1);
      AttemptUnlit(c, slot, image, o2);
    }
  }

  /** Where the erasing of both sectors gets to. */
  datatype Cleared = NoneCleared | OnlyB | BothCleared(spare: nat)

  /** By supply and by what flash_safe_execute did to the two erases; `BothCleared` keeps the supply left. */
  function ClearedBy(fuel: nat, clean: bool, oB: Outcome, oA: Outcome): Cleared {
    if !oB.Runs() || (fuel == 0 && clean) then NoneCleared
    else if fuel == 0 || !oB.Ran? || !oA.Runs() || (fuel == 1 && clean) then OnlyB
    else BothCleared(if fuel == 1 then 0 else fuel - 2)
  }

  /** What loads after the erasing: what was held, sector A on its own, or nothing. */
  lemma EraseAllAt(crc: Checksum, c: Chip, oB: Outcome, oA: Outcome)
    requires OnBoard(c) && c.lit && TornUnreadable(crc, c)
    ensures var (d, st) := EraseAll(crc, c, oB, oA);
            && d.noise == c.noise
            && Load(crc, d.cells) == (match ClearedBy(c.fuel, c.noise.None?, oB, oA)
                                      case NoneCleared => Load(crc, c.cells)
                                      case OnlyB => Decode(crc, Sector(c.cells, First))
                                      case BothCleared(_) => None)
            && (d.lit && st == SaveOk <==> oB.Ran? && oA.Ran? && c.fuel >= 2)
            && (d.lit && st == SaveOk ==> d.fuel == c.fuel - 2)
  {
    hide Decode, Sector, EraseOne;
    BlankUnreadable(crc);
    EraseOneAt(c, Second, oB);
    var d := EraseOne(c, Second, oB);
    EraseOneAt(d, First, oA);
  }

  lemma EraseAllReports(crc: Checksum, c: Chip, oB: Outcome, oA: Outcome)
    requires OnBoard(c)
    ensures var last := if oB.Ran? then oA else oB;
            var st := EraseAll(crc, c, oB, oA).1;
            && (last.Refused? ==> st == ErrLocked) && (last.TimedOut? ==> st == ErrVerify)
            && (last.Ran? ==> if Load(crc, EraseAll(crc, c, oB, oA).0.cells) == None then st == SaveOk else st == ErrVerify)
  {
    hide EraseOne, Chosen;
  }

  /** Whether a configuration is an identity to be kept. */
  predicate HasIdentity(held: Option<Config>) {
    held.Some? && held.value.token != []
  }

  /** Who the device is, and nothing that anyone chose: no network, no relay, no owner. */
  function Identity(device: seq<byte>, token: seq<byte>): (c: Config)
    ensures c.device == device && c.token == token
    ensures c.ssid == [] && c.psk == [] && c.relay == [] && c.email == [] && c.auth == 255 && c.flags == 0 && c.seqno == 1
  {
    Config(1, [], [], AUTH_AUTO, [], device, token, [], 0)
  }

  /** Exactly what loads after a factory reset, for every supply, every answer and every device. */
  lemma ResetAt(crc: Checksum, c: Chip, oB: Outcome, oA: Outcome, o1: Outcome, o2: Outcome)
    requires OnBoard(c) && c.lit && TornUnreadable(crc, c)
    ensures var held := Load(crc, c.cells);
            Load(crc, FactoryReset(crc, c, oB, oA, o1, o2).0.cells) ==
            match ClearedBy(c.fuel, c.noise.None?, oB, oA)
            case NoneCleared => held
            case OnlyB => Decode(crc, Sector(c.cells, First))
            case BothCleared(spare) =>
              if HasIdentity(held) && oA.Ran? && c.fuel >= 2 && SaveFate(spare, c.noise.None?, o1, o2) == Written
              then Some(Identity(held.value.device, held.value.token)) else None
  {
    hide Decode, Sector, Save, EraseAll, SaveFate;
    var held := Load(crc, c.cells);
    EraseAllAt(crc, c, oB, oA);
    var (d, st) := EraseAll(crc, c, oB, oA);
    if HasIdentity(held) && st == SaveOk {
      if d.lit {
        SaveAt(crc, d, Kept(held.value), o1, o2);
      } else {
        SaveUnlit(crc, d, Kept(held.value), o1, o2);
      }
    }
  }

  /**
   * A reset that reports success has got through: the device keeps its name and its token, if it
   * has one, and everything else is gone. And it does report that when nothing goes wrong.
   */
  lemma ResetKeepsIdentityOnly(crc: Checksum, c: Chip, oB: Outcome, oA: Outcome, o1: Outcome, o2: Outcome)
    requires OnBoard(c) && c.lit && TornUnreadable(crc, c)
    ensures var (d, st) := FactoryReset(crc, c, oB, oA, o1, o2);
            var (held, now) := (Load(crc, c.cells), Load(crc, d.cells));
            && (d.lit && st == SaveOk ==>
                  if held.Some? && held.value.token != []
                  then now.Some? && now.value.device == held.value.device && now.value.token == held.value.token
                       && now.value.ssid == [] && now.value.psk == [] && now.value.relay == [] && now.value.email == []
                       && now.value.auth == 255 && now.value.flags == 0 && now.value.seqno == 1
                  else now == None)
            && (c.fuel >= 4 && oB == Ran && oA == Ran && o1 == Ran ==> d.lit && st == SaveOk)
            && (oB.Refused? || (oB.Ran? && oA.Refused?) ==> st == ErrLocked)
            && (oB.TimedOut? || (oB.Ran? && oA.TimedOut?) ==> st == ErrVerify)
  {
    hide Decode, Sector, Save, EraseAll, SaveFate;
    ResetAt(crc, c, oB, oA, o1, o2);
    EraseAllAt(crc, c, oB, oA);
    EraseAllReports(crc, c, oB, oA);
    var held := Load(crc, c.cells);
    var (d, st) := EraseAll(crc, c, oB, oA);
    if HasIdentity(held) && st == SaveOk && d.lit {
      SaveAt(crc, d, Kept(held.value), o1, o2);
      SaveSectors(crc, d, Kept(held.value), o1, o2);
      if o1 == Ran && d.fuel >= 2 {
        SavedAtOnce(crc, d, Kept(held.value), o2);
      }
    } else if HasIdentity(held) && st == SaveOk {
      SaveUnlit(crc, d, Kept(held.value), o1, o2);
    }
  }

  lemma SavedAtOnce(crc: Checksum, c: Chip, cfg: Config, o2: Outcome)
    requires OnBoard(c) && c.lit && c.fuel >= 2 && cfg.Fits()
    ensures var (d, _, st) := Save(crc, c, cfg, Ran, o2);
            d.lit && st == SaveOk
  {
    hide Attempt, Sector, Chosen, Load, Encode, Image;
    var image := Image(Encode(crc, cfg.(seqno := NextSeq(Load(crc, c.cells)))).value);
    AttemptAt(c, Target(Chosen(crc, c.cells).0), image, Ran);
  }

  /** A supply that may fail at this step in this way. */
  ghost predicate Failing(crc: Checksum, c: Chip, fuel: nat, noise: Option<seq<byte>>)
    requires OnBoard(c)
  {
    Covers(noise, |c.cells|) && TornUnreadable(crc, c.(noise := noise))
  }

  /** What a reset may leave: nothing, what was there if it did not begin, or the identity alone. */
  predicate Wanted(held: Option<Config>, now: Option<Config>) {
    now == None || now == held || (HasIdentity(held) && now == Some(Identity(held.value.device, held.value.token)))
  }

  /**
   * A reset can bring an older configuration back: once B is erased and A is not, what loads is
   * sector A, which is the previous configuration whenever B was the live one. It never does,
   * however it is cut and whatever flash_safe_execute answers, exactly when sector A holds
   * nothing that reads, what is live, or the bare identity.
   */
  lemma ResetNeverGoesBackExactly(crc: Checksum, c: Chip)
    requires OnBoard(c) && c.lit
    ensures (forall fuel: nat, noise, oB, oA, o1, o2 :: Failing(crc, c, fuel, noise) ==>
               Wanted(Load(crc, c.cells),
                      Load(crc, FactoryReset(crc, c.(fuel := fuel, noise := noise), oB, oA, o1, o2).0.cells)))
            <==> Wanted(Load(crc, c.cells), Decode(crc, Sector(c.cells, First)))
  {
    hide Decode, Sector, FactoryReset, Load, ClearedBy, SaveFate;
    var held, a := Load(crc, c.cells), Decode(crc, Sector(c.cells, First));
    forall fuel: nat, noise, oB, oA, o1, o2 | Failing(crc, c, fuel, noise)
      ensures var now := Load(crc, FactoryReset(crc, c.(fuel := fuel, noise := noise), oB, oA, o1, o2).0.cells);
              (Wanted(held, now) || now == a) && (ClearedBy(fuel, noise.None?, oB, oA) == OnlyB ==> now == a)
    {
      ResetAt(crc, c.(fuel := fuel, noise := noise), oB, oA, o1, o2);
    }
    CleanCutFails(crc, c);
    CutAfterB();
    var now := Load(crc, FactoryReset(crc, c.(fuel := 1, noise := None), Ran, Ran, Ran, Ran).0.cells);
    assert now == a;
  }

  lemma CleanCutFails(crc: Checksum, c: Chip)
    requires OnBoard(c)
    ensures Failing(crc, c, 1, None)
  {
  }

  lemma CutAfterB()
    ensures ClearedBy(1, true, Ran, Ran) == OnlyB
  {
  }

  /** It takes no power cut: a second erase that is refused does the same, on exactly the same condition. */
  lemma RefusedEraseGoesBackExactly(crc: Checksum, c: Chip)
    requires OnBoard(c) && c.lit && c.fuel >= 6 && TornUnreadable(crc, c)
    ensures (forall oB, oA, o1, o2 ::
               Wanted(Load(crc, c.cells), Load(crc, FactoryReset(crc, c, oB, oA, o1, o2).0.cells)))
            <==> Wanted(Load(crc, c.cells), Decode(crc, Sector(c.cells, First)))
  {
    hide Decode, Sector, FactoryReset, Load, SaveFate;
    var held, a := Load(crc, c.cells), Decode(crc, Sector(c.cells, First));
    forall oB, oA, o1, o2
      ensures var now := Load(crc, FactoryReset(crc, c, oB, oA, o1, o2).0.cells);
              (Wanted(held, now) || now == a) && (oB == Ran && oA == Refused ==> now == a)
    {
      ResetAt(crc, c, oB, oA, o1, o2);
    }
    var now := Load(crc, FactoryReset(crc, c, Ran, Refused, Ran, Ran).0.cells);
    assert now == a;
  }
}
