/**
 * Signed offers of an image linked for the slot that is running. The header does not say which
 * slot its image is for, so such an image is accepted, written to the spare slot, verified and
 * staged (firmware/src/proto/proto.c, firmware/src/ota/ota.c). The loader then refuses its vector
 * table and goes back, which is harmless as long as the record still names the slot it goes back
 * to when the next transfer begins, and not otherwise.
 */
module OtaOffers {
  import opened Bytes
  import opened Flash
  import opened Layout
  import opened OtaState
  import opened OtaRecord
  import opened OtaWriter
  import opened OtaTransfer
  import opened OtaDevice
  import opened OtaSystem

  // How long the supply has to last

  ghost predicate Lasts(c: Chip, d: Chip, n: nat) {
    d.lit && d.fuel + n >= c.fuel && d.noise == c.noise
  }

  lemma {:induction false} EraseFromLasts(c: Chip, base: nat, off: nat, span: nat, n: nat)
    requires OnBoard(c) && base + span <= |c.cells| && c.lit && off + n >= span && c.fuel >= n
    ensures Lasts(c, EraseFrom(c, base, off, span), n)
    decreases span - off
  {
    if off < span {
      var step := if span - off > ERASE_STEP then ERASE_STEP else span - off;
      EraseFromLasts(Erase(c, base + off, step), base, off + ERASE_STEP, span, n - 1);
    }
  }

  lemma TakeOnceLasts(c: Chip, w: Writer, data: seq<byte>)
    requires OnBoard(c) && w.Sized() && w.active && 0 < |data| <= w.total - w.written && c.lit && c.fuel >= 1
    ensures Lasts(c, TakeOnce(c, w, data).0, 1)
  {
    hide Anded;
  }

  lemma {:induction false} TakeLasts(c: Chip, w: Writer, data: seq<byte>)
    requires OnBoard(c) && w.Sized() && w.active && |data| <= w.total - w.written && c.lit && c.fuel >= |data|
    ensures Lasts(c, Take(c, w, data).0, |data|)
    decreases |data|
  {
    hide TakeOnce;
    if data != [] {
      var (d, v, n, ok) := TakeOnce(c, w, data);
      TakeOnceLasts(c, w, data);
      if ok {
        TakeLasts(d, v, data[n..]);
      }
    }
  }

  lemma EndLasts(sha: Digest, c: Chip, w: Writer)
    requires OnBoard(c) && w.Sized() && c.lit && c.fuel >= 1
    ensures Lasts(c, End(sha, c, w).0, 1)
  {
    hide Anded;
  }

  // A transfer, begun and part-way

  /** The offer is taken up: the spare slot is cleared and the writer waits for the first byte. */
  lemma TransferBegins(env: Env, c: Chip, a: App, h: Header)
    requires OnBoard(c) && c.lit && a.running <= SLOT_B && a.offer == Some(h) && !a.w.active && HeaderOk(env, h)
    requires c.fuel >= Span(h.len)
    ensures var (d, b) := RunOffer(env, c, a, true);
            var spare := OtherSlot(a.running);
            && Lasts(c, d, Span(h.len)) && Streams(d, b.w, [])
            && b == a.(w := Writer(true, spare, 0, h.len, [], [], h.sha),
                       link := Link(true, false, 0, h.len, spare, h.version), offer := None)
            && Confined(c, d, SlotOffset(spare), SlotOffset(spare) + SLOT_SIZE)
  {
    hide Streams;
    var spare := OtherSlot(a.running);
    var base := SlotOffset(spare);
    SpanFits(h.len);
    BeginStreams(c, a.w, h, spare, a.running);
    EraseFromLasts(c, base, 0, Span(h.len), Span(h.len));
    ConfinedWiden(c, Begin(c, a.w, h, spare, a.running).0, base, base + Span(h.len), base, base + SLOT_SIZE);
  }

  /** The first frame of it, whole pages and not yet all: they are in flash, and the rest is blank. */
  lemma PartArrives(env: Env, c: Chip, a: App, q: seq<byte>)
    requires OnBoard(c) && c.lit && c.fuel >= |q| && Streams(c, a.w, []) && a.w.seen == []
    requires a.link.receiving && a.link.got == 0 && a.link.total == a.w.total && |q| < a.w.total && |q| % PAGE == 0
    requires IsVersion(a.st.version) && IsVersion(a.link.version)
    ensures var (d, b, keep) := Binary(env, c, a, q);
            && d.lit && b.st == a.st && b.running == a.running && d.noise == c.noise
            && Begins(d, a.w.slot, q, Span(a.w.total))
            && Confined(c, d, SlotOffset(a.w.slot), SlotOffset(a.w.slot) + SLOT_SIZE)
  {
    hide Take, Finish, Begins;
    StreamsMeans(c, a.w, []);
    assert a.w.written == 0;
    var (d, w, status) := Chunk(c, a.w, q);
    TakeLasts(c, a.w.(seen := a.w.seen + q), q);
    ChunkStreams(c, a.w, [], q);
    assert [] + q == q;
    AllInFlash(d, w, q);
    ChunkConfined(c, a.w, q);
    SpanFits(a.w.total);
    var base := SlotOffset(a.w.slot);
    ConfinedWiden(c, d, base, base + Span(a.w.total), base, base + SLOT_SIZE);
  }

  lemma AllInFlash(c: Chip, w: Writer, q: seq<byte>)
    requires OnBoard(c) && Streams(c, w, q) && |q| % PAGE == 0
    ensures Begins(c, w.slot, q, Span(w.total))
  {
    assert w.written == w.Done() + |w.page|;
    assert |w.page| == 0;
    assert q[..w.Done()] == q;
  }

  // Which slot the loader takes then

  /** Whole pages `q` and nothing after them do not make a release, nor does any part of them. */
  ghost predicate OnlyPart(env: Env, slot: byte, q: seq<byte>) {
    forall r :: env.release(slot, r) ==> !(r <= q) && !(q + [0xFF] <= r)
  }

  lemma PartIsIncomplete(env: Env, c: Chip, slot: byte, q: seq<byte>, span: nat)
    requires OnBoard(c) && slot <= SLOT_B && Begins(c, slot, q, span) && |q| < span && OnlyPart(env, slot, q)
    ensures !Complete(env, c.cells, slot)
  {
    var s := SlotBytes(c.cells, slot);
    SlotBegins(c, slot, q, span);
    var base := SlotOffset(slot);
    assert s[|q|] == c.cells[base..base + span][|q|] == (q + Fill(0xFF, span - |q|))[|q|] == 0xFF;
    if Complete(env, c.cells, slot) {
      var n: nat :| n <= SLOT_SIZE && env.release(slot, s[..n]);
      PrefixOfPart(s, q, n);
    }
  }

  lemma PrefixOfPart(s: seq<byte>, q: seq<byte>, n: nat)
    requires |q| < |s| && s[..|q|] == q && s[|q|] == 0xFF && n <= |s|
    ensures s[..n] <= q || q + [0xFF] <= s[..n]
  {
    if n <= |q| {
      assert q[..n] == s[..|q|][..n] == s[..n];
    } else {
      assert s[..n][..|q|] == q && s[..n][|q|] == 0xFF;
      assert s[..n][..|q| + 1] == q + [0xFF];
    }
  }

  /** The part carries the vector table of the image, and that is all the loader looks at. */
  lemma PartBoots(env: Env, c: Chip, slot: byte, p: seq<byte>, q: seq<byte>, span: nat)
    requires Sane(env) && OnBoard(c) && slot <= SLOT_B && Begins(c, slot, q, span)
    requires env.release(slot, p) && q <= p && env.vectors + 8 <= |q|
    ensures Bootable(env, c.cells, slot)
  {
    var s, v := SlotBytes(c.cells, slot), env.vectors;
    SlotBegins(c, slot, q, span);
    assert s[v..v + 4] == s[..|q|][v..v + 4] == p[v..v + 4];
    assert s[v + 4..v + 8] == s[..|q|][v + 4..v + 8] == p[v + 4..v + 8];
  }

  /** Events one after another, each possible where it comes. */
  ghost predicate Reaches(env: Env, s: Sys, events: seq<Event>, t: Sys)
    decreases |events|
  {
    if events == [] then s == t
    else
      && Formed(s) && env.vectors <= 0x100 && Fair(env, s, events[0])
      && Reaches(env, OtaSystem.Step(env, s, events[0]), events[1..], t)
  }

  /** That is a run, in the sense of OtaSystem. */
  lemma {:induction false} ReachIsRun(env: Env, s: Sys, events: seq<Event>, t: Sys) returns (trace: seq<Sys>)
    requires Reaches(env, s, events, t)
    ensures Run(env, trace, events) && trace[0] == s && trace[|events|] == t
    decreases |events|
  {
    hide OtaSystem.Step, TornUnreadable, Promised, Printable;
    if events == [] {
      trace := [s];
    } else {
      var rest := ReachIsRun(env, OtaSystem.Step(env, s, events[0]), events[1..], t);
      trace := [s] + rest;
      forall i | 0 <= i < |events|
        ensures Happens(env, trace[i], events[i], trace[i + 1])
      {
        if i > 0 {
          assert Happens(env, rest[i - 1], events[1..][i - 1], rest[i - 1 + 1]);
        }
      }
    }
  }

  lemma ReachStep(env: Env, s: Sys, e: Event, t: Sys)
    requires Formed(s) && env.vectors <= 0x100 && Fair(env, s, e) && t == OtaSystem.Step(env, s, e)
    ensures Reaches(env, s, [e], t)
  {
    hide OtaSystem.Step, Fair, Formed;
    assert [e][1..] == [];
  }

  lemma {:induction false} ReachThen(env: Env, s: Sys, first: seq<Event>, t: Sys, second: seq<Event>, u: Sys)
    requires Reaches(env, s, first, t) && Reaches(env, t, second, u)
    ensures Reaches(env, s, first + second, u)
    decreases |first|
  {
    hide OtaSystem.Step, TornUnreadable, Promised, Printable;
    if first == [] {
      assert first + second == second;
    } else {
      ReachThen(env, OtaSystem.Step(env, s, first[0]), first[1..], t, second, u);
      assert (first + second)[0] == first[0] && (first + second)[1..] == first[1..] + second;
    }
  }

  // A transfer that begins with the record unsettled

  lemma StillFormed(env: Env, c: Chip, a: App, h: Header)
    requires OnBoard(c) && AppInv(env, c, a) && a.offer == Some(h) && c.fuel >= Span(h.len)
    ensures c.lit && Formed(Sys(c, Some(a))) && Formed(Alive(RunOffer(env, c, a, true).0, RunOffer(env, c, a, true).1))
    ensures !a.w.active && HeaderOk(env, h) && a.st.confirmed && a.running <= SLOT_B && InStep(env, c.cells, a)
  {
    hide Load, Complete, Promised, Streams, Ready, Settled;
    CompleteNames(env, c.cells, a.running);
    TransferBegins(env, c, a, h);
  }

  /** Its first pages are enough for the loader to enter what is not a release. */
  lemma UnsettledEnters(env: Env, c: Chip, a: App, h: Header, p: seq<byte>, q: seq<byte>) returns (t: Sys)
    requires Sane(env) && OnBoard(c) && AppInv(env, c, a) && a.offer == Some(h)
    requires !Settled(env, c.cells, a.running) && c.fuel >= Span(h.len) + |q|
    requires env.release(OtherSlot(a.running), p) && q <= p && |q| % PAGE == 0 && env.vectors + 8 <= |q| < h.len
    requires OnlyPart(env, OtherSlot(a.running), q)
    ensures Reaches(env, Sys(c, Some(a)), [Pump(true), Frame(q)], t) && OnBoard(t.chip)
    ensures var (d, entered) := Loader(env, Powered(t.chip, 0, None));
            entered == Some(OtherSlot(a.running)) && !Complete(env, d.cells, OtherSlot(a.running))
  {
    hide AppInv, InStep, Settled, Load, Streams, Complete, RunOffer, Binary, HeaderOk, Begins, OnlyPart, Bootable;
    var spare := OtherSlot(a.running);
    StillFormed(env, c, a, h);
    TransferBegins(env, c, a, h);
    var (c1, a1) := RunOffer(env, c, a, true);
    var s1 := Sys(c1, Some(a1));
    ReachStep(env, Sys(c, Some(a)), Pump(true), s1);
    PartArrives(env, c1, a1, q);
    var (c2, a2, _) := Binary(env, c1, a1, q);
    t := Sys(c2, Some(a2));
    ReachStep(env, s1, Frame(q), t);
    ReachThen(env, Sys(c, Some(a)), [Pump(true)], s1, [Frame(q)], t);
    assert [Pump(true)] + [Frame(q)] == [Pump(true), Frame(q)];
    ConfinedTrans(c, c1, c2, SlotOffset(spare), SlotOffset(spare) + SLOT_SIZE);
    SlotWrite(env, c, c2, spare);
    SpanFits(h.len);
    UnsettledStays(env, c, Powered(c2, 0, None), a);
    PartBoots(env, c2, spare, p, q, Span(h.len));
    PartIsIncomplete(env, c2, spare, q, Span(h.len));
  }

  /** What the loader does with a record it does not rewrite depends on nothing else. */
  lemma UnsettledStays(env: Env, c: Chip, d: Chip, a: App)
    requires OnBoard(c) && OnBoard(d) && InStep(env, c.cells, a) && a.st.confirmed && a.running <= SLOT_B
    requires !Settled(env, c.cells, a.running) && Load(env.crc, d.cells) == Load(env.crc, c.cells)
    ensures LoaderRecord(env, d) == (d, OtherSlot(a.running))
  {
    hide Load, Save;
  }

  /**
   * From here, whatever supply is left and whatever frames come, as many as there may be, a reset
   * at any moment of the transfer finds the loader entering a complete slot.
   */
  ghost predicate TransferSafe(env: Env, s: Sys) {
    forall left: nat, sent: bool, frames: seq<Event>, t: Sys, fuel: nat, noise: Option<seq<byte>> ::
      Reaches(env, s.(chip := s.chip.(fuel := left)), [Pump(sent)] + frames, t) && OnlyFrames(frames)
      && Loadable(env, t.chip, fuel, noise) ==>
        EntersComplete(env, Powered(t.chip, fuel, noise))
  }

  predicate OnlyFrames(events: seq<Event>) {
    forall e :: e in events ==> e.Frame?
  }

  ghost predicate Loadable(env: Env, c: Chip, fuel: nat, noise: Option<seq<byte>>) {
    OnBoard(c) && Covers(noise, |c.cells|) && TornUnreadable(env.crc, Powered(c, fuel, noise))
  }

  ghost predicate EntersComplete(env: Env, c: Chip) {
    OnBoard(c) && env.vectors <= 0x100
    && var (d, entered) := Loader(env, c);
       entered.Some? && Complete(env, d.cells, entered.value)
  }

  lemma FuelFree(env: Env, s: Sys, left: nat)
    requires Inv(env, s)
    ensures Inv(env, s.(chip := s.chip.(fuel := left)))
  {
    hide Load, Complete, Promised, Ready, Settled;
  }

  lemma {:induction false} FramesKeepInv(env: Env, s: Sys, frames: seq<Event>, t: Sys)
    requires Sane(env) && Inv(env, s) && Reaches(env, s, frames, t) && OnlyFrames(frames)
    ensures Inv(env, t)
    decreases |frames|
  {
    hide Inv, OtaSystem.Step, Formed, TornUnreadable, Promised;
    if frames != [] {
      assert frames[0] in frames;
      StepKeeps(env, s, frames[0]);
      FramesKeepInv(env, OtaSystem.Step(env, s, frames[0]), frames[1..], t);
    }
  }

  lemma SettledIsSafe(env: Env, s: Sys, sent: bool, frames: seq<Event>, t: Sys, fuel: nat, noise: Option<seq<byte>>)
    requires Sane(env) && Inv(env, s) && s.app.Some? && Settled(env, s.chip.cells, s.app.value.running)
    requires Reaches(env, s, [Pump(sent)] + frames, t) && OnlyFrames(frames) && Loadable(env, t.chip, fuel, noise)
    ensures EntersComplete(env, Powered(t.chip, fuel, noise))
  {
    hide Inv, OtaSystem.Step, Settled, SafeFlash, Loader, Complete, TornUnreadable, Promised;
    var events := [Pump(sent)] + frames;
    assert events[0] == Pump(sent) && events[1..] == frames;
    StepKeeps(env, s, Pump(sent));
    FramesKeepInv(env, OtaSystem.Step(env, s, Pump(sent)), frames, t);
    InvParts(env, t);
    LoaderSafe(env, Powered(t.chip, fuel, noise));
  }

  /**
   * A transfer may begin exactly when the record is settled on the running slot: it is confirmed
   * and names that slot, or there is none and the slot is A. `q` is any whole number of pages
   * that carries the vector table of some image for the spare slot without being one.
   */
  lemma BeginIsSafeExactly(env: Env, s: Sys, a: App, h: Header, p: seq<byte>, q: seq<byte>)
    requires Sane(env) && Inv(env, s) && s.app == Some(a) && a.offer == Some(h)
    requires env.release(OtherSlot(a.running), p) && q <= p && |q| % PAGE == 0 && env.vectors + 8 <= |q| < h.len
    requires OnlyPart(env, OtherSlot(a.running), q)
    ensures TransferSafe(env, s) <==> Settled(env, s.chip.cells, a.running)
  {
    hide Inv, AppInv, Settled, Reaches, Loadable, EntersComplete, OnlyFrames, OnlyPart;
    InvParts(env, s);
    if Settled(env, s.chip.cells, a.running) {
      forall left: nat, sent: bool, frames: seq<Event>, t: Sys, fuel: nat, noise: Option<seq<byte>> |
        Reaches(env, s.(chip := s.chip.(fuel := left)), [Pump(sent)] + frames, t) && OnlyFrames(frames)
        && Loadable(env, t.chip, fuel, noise)
        ensures EntersComplete(env, Powered(t.chip, fuel, noise))
      {
        FuelFree(env, s, left);
        SettledIsSafe(env, s.(chip := s.chip.(fuel := left)), sent, frames, t, fuel, noise);
      }
    } else {
      var left := Span(h.len) + |q|;
      FuelFree(env, s, left);
      var c := s.chip.(fuel := left);
      InvParts(env, Sys(c, Some(a)));
      assert s.(chip := c) == Sys(c, Some(a));
      var t := UnsettledEnters(env, c, a, h, p, q);
      assert [Pump(true)] + [Frame(q)] == [Pump(true), Frame(q)];
      EntersIncomplete(env, t, q, OtherSlot(a.running));
    }
  }

  lemma EntersIncomplete(env: Env, t: Sys, q: seq<byte>, slot: byte)
    requires OnBoard(t.chip) && env.vectors <= 0x100
    requires var (d, entered) := Loader(env, Powered(t.chip, 0, None));
             entered == Some(slot) && !Complete(env, d.cells, slot)
    ensures OnlyFrames([Frame(q)]) && Loadable(env, t.chip, 0, None) && !EntersComplete(env, Powered(t.chip, 0, None))
  {
    hide Loader, Complete;
  }

  // The run in which that goes wrong

  /** The last frame of a transfer, all of it at once: the slot holds the payload, and the record stages it. */
  lemma Delivered(env: Env, c: Chip, a: App, p: seq<byte>)
    requires OnBoard(c) && c.lit && TornUnreadable(env.crc, c) && c.fuel >= |p| + 5 && Streams(c, a.w, []) && a.w.seen == []
    requires a.link.receiving && a.link.got == 0 && a.link.total == a.w.total == |p| && env.sha(p) == a.w.expected
    requires a.w.slot == a.link.slot == OtherSlot(a.running) && a.running <= SLOT_B
    requires IsVersion(a.st.version) && NamesSlots(a.st) && IsVersion(a.link.version) && Printable(a.link.version)
    ensures var (d, b, _) := Binary(env, c, a, p);
            var next := Stage(a.st.(active := a.running, confirmed := true), a.w.slot, a.link.version);
            && d.lit && Load(env.crc, d.cells) == Some(next) && b.running == a.running
            && Begins(d, a.w.slot, p, Span(|p|))
            && SlotBytes(d.cells, a.running) == SlotBytes(c.cells, a.running)
  {
    hide Take, End, Begins, Streams, Load, Save, StageSlot;
    StreamsMeans(c, a.w, []);
    assert a.w.written == 0;
    var (c1, w1, status) := Chunk(c, a.w, p);
    TakeLasts(c, a.w.(seen := a.w.seen + p), p);
    ChunkStreams(c, a.w, [], p);
    assert [] + p == p;
    ChunkKeepsTerms(c, a.w, p);
    StreamsMeans(c1, w1, p);
    EndLasts(env.sha, c1, w1);
    EndStreams(env.sha, c1, w1, p);
    var (c2, w2, ended) := End(env.sha, c1, w1);
    assert ended == Ok;
    ChunkConfined(c, a.w, p);
    EndConfined(env.sha, c1, w1);
    SpanFits(|p|);
    var base := SlotOffset(a.w.slot);
    ConfinedTrans(c, c1, c2, base, base + Span(|p|));
    ConfinedWiden(c, c2, base, base + Span(|p|), base, base + SLOT_SIZE);
    SlotWrite(env, c, c2, a.w.slot);
    var b := a.(w := w2, link := a.link.(got := |p|, receiving := false, draining := true));
    Staged(env, c2, b, p);
    assert Binary(env, c, a, p) == Finish(env, c1, a.(w := w1, link := a.link.(got := |p|)));
  }

  lemma Staged(env: Env, c: Chip, a: App, p: seq<byte>)
    requires OnBoard(c) && c.lit && TornUnreadable(env.crc, c) && c.fuel >= 4 && a.running <= SLOT_B
    requires a.link.slot == OtherSlot(a.running) && Begins(c, a.link.slot, p, Span(|p|))
    requires IsVersion(a.st.version) && NamesSlots(a.st) && IsVersion(a.link.version) && Printable(a.link.version)
    ensures var (d, b, _) := StageSlot(env, c, a, a.link.slot, a.link.version);
            var next := Stage(a.st.(active := a.running, confirmed := true), a.link.slot, a.link.version);
            && d.lit && Load(env.crc, d.cells) == Some(next) && b.running == a.running
            && Begins(d, a.link.slot, p, Span(|p|))
            && SlotBytes(d.cells, a.running) == SlotBytes(c.cells, a.running)
  {
    hide Save, Load, Decode, Begins;
    var next := Stage(a.st.(active := a.running, confirmed := true), a.link.slot, a.link.version);
    SaveAt(env.crc, c, next);
    SaveThenLoad(env.crc, c, next);
    RecordWrite(env.crc, c, next, a.running);
    RecordWrite(env.crc, c, next, a.link.slot);
    BeginsStays(c, Save(env.crc, c, next).0, a.link.slot, p, Span(|p|));
  }

  lemma BeginsStays(c: Chip, d: Chip, slot: byte, q: seq<byte>, span: nat)
    requires OnBoard(c) && OnBoard(d) && slot <= SLOT_B && Begins(c, slot, q, span)
    requires SlotBytes(c.cells, slot) == SlotBytes(d.cells, slot)
    ensures Begins(d, slot, q, span)
  {
    var base := SlotOffset(slot);
    SliceOfSlice(c.cells, base, SLOT_SIZE, span);
    SliceOfSlice(d.cells, base, SLOT_SIZE, span);
  }

  /** A loader that is cut during its own save: nothing runs, and the slots are as they were. */
  lemma LoaderCut(env: Env, c: Chip, app: Option<App>, fuel: nat, build: seq<byte>, s: Rec)
    requires Formed(Sys(c, app)) && env.vectors <= 0x100 && Load(env.crc, c.cells) == Some(s) && !s.confirmed && s.trial > 0
    requires fuel < 4 && IsVersion(build) && Printable(build)
    ensures var d := Save(env.crc, Powered(c, fuel, None), OnBoot(s).0).0;
            && OnBoard(d) && !d.lit && Reaches(env, Sys(c, app), [PowerUp(fuel, None, build)], Sys(d, None))
            && SlotBytes(d.cells, SLOT_A) == SlotBytes(c.cells, SLOT_A)
            && SlotBytes(d.cells, SLOT_B) == SlotBytes(c.cells, SLOT_B)
            && Decode(env.crc, Copy(d.cells, 0)) == (if fuel >= 2 then Some(OnBoot(s).0)
                                                     else if fuel == 0 then Decode(env.crc, Copy(c.cells, 0)) else None)
            && Decode(env.crc, Copy(d.cells, 1)) == (if fuel <= 2 then Decode(env.crc, Copy(c.cells, 1)) else None)
  {
    hide Save, Decode, Copy, Bootable;
    var p, next := Powered(c, fuel, None), OnBoot(s).0;
    LoadedReads(env, c.cells, s);
    SaveAt(env.crc, p, next);
    RecordWrite(env.crc, p, next, SLOT_A);
    RecordWrite(env.crc, p, next, SLOT_B);
    ReachStep(env, Sys(c, app), PowerUp(fuel, None, build), Reset(env, p, build));
  }

  lemma LoadedReads(env: Env, cells: seq<byte>, s: Rec)
    requires |cells| >= MIN_FLASH && Load(env.crc, cells) == Some(s)
    ensures IsVersion(s.version) && Printable(s.version) && NamesSlots(s)
  {
    hide Copy;
  }

  /** Two cuts in a row, during the first two boots of a trial, and there is no record. */
  lemma RecordLost(env: Env, c: Chip, app: Option<App>, build: seq<byte>, s: Rec) returns (d: Chip)
    requires Formed(Sys(c, app)) && env.vectors <= 0x100 && Load(env.crc, c.cells) == Some(s) && !s.confirmed && s.trial > 1
    requires IsVersion(build) && Printable(build)
    ensures OnBoard(d) && Load(env.crc, d.cells) == None
    ensures Reaches(env, Sys(c, app), [PowerUp(3, None, build), PowerUp(1, None, build)], Sys(d, None))
    ensures SlotBytes(d.cells, SLOT_A) == SlotBytes(c.cells, SLOT_A)
    ensures SlotBytes(d.cells, SLOT_B) == SlotBytes(c.cells, SLOT_B)
  {
    hide Save, Decode, Copy, Reaches;
    LoaderCut(env, c, app, 3, build, s);
    var once := Save(env.crc, Powered(c, 3, None), OnBoot(s).0).0;
    LoaderCut(env, once, None, 1, build, OnBoot(s).0);
    d := Save(env.crc, Powered(once, 1, None), OnBoot(OnBoot(s).0).0).0;
    ReachThen(env, Sys(c, app), [PowerUp(3, None, build)], Sys(once, None), [PowerUp(1, None, build)], Sys(d, None));
    assert [PowerUp(3, None, build)] + [PowerUp(1, None, build)] == [PowerUp(3, None, build), PowerUp(1, None, build)];
  }

  /** An application with nothing under way takes up a good offer. */
  lemma OfferTaken(env: Env, c: Chip, a: App, h: Header)
    requires Sane(env) && Inv(env, Sys(c, Some(a))) && a.st.confirmed && !a.link.receiving && a.offer.None?
    requires HeaderOk(env, h) && h.version != a.build && Promised(env, OtherSlot(a.running), h.len, h.sha)
    ensures var b := a.(offer := Some(h));
            Inv(env, Sys(c, Some(b))) && Reaches(env, Sys(c, Some(a)), [Offer(h, false)], Sys(c, Some(b)))
  {
    hide Load, Complete, Promised, Streams, Ready, Settled, HeaderOk, SafeFlash;
    OfferKeeps(env, c, a, h, false);
    ReachStep(env, Sys(c, Some(a)), Offer(h, false), Alive(c, Offered(env, a, h, false)));
  }

  /** A whole transfer in one frame, from a settled record: delivered, staged, and good. */
  lemma WholeTransferRun(env: Env, c: Chip, a: App, h: Header, p: seq<byte>) returns (t: Sys)
    requires Sane(env) && Inv(env, Sys(c, Some(a))) && a.offer == Some(h) && Settled(env, c.cells, a.running)
    requires |p| == h.len && env.sha(p) == h.sha && c.fuel >= Span(h.len) + h.len + 5
    ensures Reaches(env, Sys(c, Some(a)), [Pump(true), Frame(p)], t) && Inv(env, t) && t.app.Some?
    ensures Load(env.crc, t.chip.cells) == Some(Stage(a.st.(active := a.running, confirmed := true), OtherSlot(a.running), h.version))
    ensures a.running <= SLOT_B && Begins(t.chip, OtherSlot(a.running), p, Span(h.len))
    ensures SlotBytes(t.chip.cells, a.running) == SlotBytes(c.cells, a.running)
  {
    hide AppInv, InStep, Settled, Load, Streams, Complete, RunOffer, Binary, HeaderOk, Begins, SafeFlash;
    InvParts(env, Sys(c, Some(a)));
    StillFormed(env, c, a, h);
    StepNames(env, c, a);
    TransferBegins(env, c, a, h);
    var (c1, a1) := RunOffer(env, c, a, true);
    var s1 := Sys(c1, Some(a1));
    ReachStep(env, Sys(c, Some(a)), Pump(true), s1);
    StepKeeps(env, Sys(c, Some(a)), Pump(true));
    HeaderNames(env, h);
    var spare := OtherSlot(a.running);
    SlotWrite(env, c, c1, spare);
    Delivered(env, c1, a1, p);
    var (c2, a2, _) := Binary(env, c1, a1, p);
    t := Sys(c2, Some(a2));
    ReachStep(env, s1, Frame(p), t);
    StepKeeps(env, s1, Frame(p));
    ReachThen(env, Sys(c, Some(a)), [Pump(true)], s1, [Frame(p)], t);
    assert [Pump(true)] + [Frame(p)] == [Pump(true), Frame(p)];
  }

  lemma StepNames(env: Env, c: Chip, a: App)
    requires OnBoard(c) && AppInv(env, c, a)
    ensures IsVersion(a.st.version) && NamesSlots(a.st) && TornUnreadable(env.crc, c)
  {
    hide Load, Complete, Promised, Streams, Ready, Settled;
  }

  lemma HeaderNames(env: Env, h: Header)
    requires HeaderOk(env, h)
    ensures IsVersion(h.version) && Printable(h.version) && 0 < h.len <= SLOT_SIZE
  {
  }

  /** With no record and an image in A that is linked for B, the loader goes back to B, where nothing is on trial. */
  lemma FallsBack(env: Env, c: Chip, fuel: nat, build: seq<byte>)
    requires Sane(env) && !env.matched && OnBoard(c) && Load(env.crc, c.cells) == None
    requires Complete(env, c.cells, SLOT_B) && Holds(env, c.cells, SLOT_A, SLOT_B)
    requires IsVersion(build) && Printable(build)
    ensures var d := Powered(c, fuel, None);
            var a := Init(env, d.cells, SLOT_B, build);
            && Reaches(env, Sys(c, None), [PowerUp(fuel, None, build)], Sys(d, Some(a)))
            && Inv(env, Sys(d, Some(a))) && a.running == SLOT_B && a.build == build && a.st.confirmed
            && !a.link.receiving && a.offer.None? && !Settled(env, d.cells, SLOT_B)
  {
    hide Holds, Load, Bootable, AppInv, SafeFlash;
    var d := Powered(c, fuel, None);
    assert OtherSlot(SLOT_B) == SLOT_A;
    ForeignNeverBoots(env, d.cells, SLOT_A);
    CompleteBoots(env, d.cells, SLOT_B);
    ReadyIsSafe(env, d.cells);
    ResetKeeps(env, d, build);
    assert Loader(env, d) == (d, Some(SLOT_B));
    assert Reset(env, d, build) == Sys(d, Some(Init(env, d.cells, SLOT_B, build)));
    ReachStep(env, Sys(c, None), PowerUp(fuel, None, build), Reset(env, d, build));
  }

  lemma ReadyIsSafe(env: Env, cells: seq<byte>)
    requires |cells| >= MIN_FLASH && !env.matched && Complete(env, cells, SLOT_B) && Holds(env, cells, SLOT_A, SLOT_B)
    ensures SafeFlash(env, cells)
  {
    hide Load, Holds;
    assert OtherSlot(SLOT_B) == SLOT_A;
    assert Ready(env, cells);
  }

  /** Two images: one signed and linked for B, one signed and linked for A, of which `q` is the first pages. */
  ghost predicate TwoImages(env: Env, build: seq<byte>, hb: Header, b: seq<byte>, ha: Header, p: seq<byte>, q: seq<byte>) {
    && HeaderOk(env, hb) && hb.version != build && |b| == hb.len && env.sha(b) == hb.sha
    && Admitted(env, SLOT_B, hb.len, hb.sha)
    && HeaderOk(env, ha) && ha.version != build && Admitted(env, SLOT_A, ha.len, ha.sha)
    && env.release(SLOT_A, p) && q <= p && |q| % PAGE == 0 && env.vectors + 8 <= |q| < ha.len && OnlyPart(env, SLOT_A, q)
  }

  /**
   * From any device running a settled image in B: the image for B is offered, written to A,
   * verified and staged; the first two boots of its trial are cut while the loader saves, and the
   * record is gone; the loader takes A, refuses its table and goes back to B; a correct offer
   * starts filling A; and after its first pages a reset enters A, which is not a release.
   */
  lemma WrongSlotRun(env: Env, c: Chip, a: App, hb: Header, b: seq<byte>, ha: Header, p: seq<byte>, q: seq<byte>)
    returns (events: seq<Event>, t: Sys)
    requires Sane(env) && !env.matched && Inv(env, Sys(c, Some(a))) && a.running == SLOT_B && Settled(env, c.cells, SLOT_B)
    requires a.st.confirmed && !a.link.receiving && a.offer.None? && IsVersion(a.build) && Printable(a.build)
    requires TwoImages(env, a.build, hb, b, ha, p, q) && c.fuel >= Span(hb.len) + hb.len + 5
    ensures Reaches(env, Sys(c, Some(a)), events, t) && OnBoard(t.chip)
    ensures var (d, entered) := Loader(env, Powered(t.chip, 0, None));
            entered == Some(SLOT_A) && !Complete(env, d.cells, SLOT_A)
  {
    hide Inv, AppInv, Reaches, Load, Loader, Holds, HeaderOk, Begins, Settled, OnlyPart, Init, InStep;
    var s := Sys(c, Some(a));
    var s1 := Sys(c, Some(a.(offer := Some(hb))));
    OfferTaken(env, c, a, hb);
    var s2 := WholeTransferRun(env, c, a.(offer := Some(hb)), hb, b);
    ReachThen(env, s, [Offer(hb, false)], s1, [Pump(true), Frame(b)], s2);
    events := [Offer(hb, false)] + [Pump(true), Frame(b)];
    InvFormed(env, s2);
    var staged := Stage(a.st.(active := SLOT_B, confirmed := true), SLOT_A, hb.version);
    var d := RecordLost(env, s2.chip, s2.app, a.build, staged);
    ReachThen(env, s, events, s2, [PowerUp(3, None, a.build), PowerUp(1, None, a.build)], Sys(d, None));
    events := events + [PowerUp(3, None, a.build), PowerUp(1, None, a.build)];
    InvParts(env, s);
    BothLinkedForB(env, c, s2.chip, d, hb, b);
    var left := Span(ha.len) + |q|;
    FallsBack(env, d, left, a.build);
    var back := Powered(d, left, None);
    var again := Init(env, back.cells, SLOT_B, a.build);
    ReachThen(env, s, events, Sys(d, None), [PowerUp(left, None, a.build)], Sys(back, Some(again)));
    events := events + [PowerUp(left, None, a.build)];
    OfferTaken(env, back, again, ha);
    var taken := again.(offer := Some(ha));
    ReachThen(env, s, events, Sys(back, Some(again)), [Offer(ha, false)], Sys(back, Some(taken)));
    events := events + [Offer(ha, false)];
    InvParts(env, Sys(back, Some(taken)));
    t := UnsettledEnters(env, back, taken, ha, p, q);
    ReachThen(env, s, events, Sys(back, Some(taken)), [Pump(true), Frame(q)], t);
    events := events + [Pump(true), Frame(q)];
  }

  /** What the two slots hold once the image for B has been written to A and the record has been lost. */
  lemma BothLinkedForB(env: Env, c: Chip, mid: Chip, d: Chip, hb: Header, b: seq<byte>)
    requires OnBoard(c) && OnBoard(mid) && OnBoard(d) && Complete(env, c.cells, SLOT_B)
    requires SlotBytes(mid.cells, SLOT_B) == SlotBytes(c.cells, SLOT_B) == SlotBytes(d.cells, SLOT_B)
    requires SlotBytes(mid.cells, SLOT_A) == SlotBytes(d.cells, SLOT_A) && Begins(mid, SLOT_A, b, Span(hb.len))
    requires |b| == hb.len && env.sha(b) == hb.sha && Admitted(env, SLOT_B, hb.len, hb.sha)
    ensures Complete(env, d.cells, SLOT_B) && Holds(env, d.cells, SLOT_A, SLOT_B)
  {
    CompleteStays(env, c.cells, d.cells, SLOT_B);
    SlotBegins(mid, SLOT_A, b, Span(hb.len));
    assert env.release(SLOT_B, SlotBytes(d.cells, SLOT_A)[..|b|]);
  }

  // And from the factory

  /** First power: no record, and the loader enters A. */
  lemma FactoryBoots(env: Env, c: Chip, fuel: nat, build: seq<byte>)
    requires Sane(env) && OnBoard(c) && Complete(env, c.cells, SLOT_A) && Load(env.crc, c.cells) == None
    requires IsVersion(build) && Printable(build)
    ensures var d := Powered(c, fuel, None);
            var a := Init(env, d.cells, SLOT_A, build);
            && Reaches(env, Sys(c, None), [PowerUp(fuel, None, build)], Sys(d, Some(a)))
            && Inv(env, Sys(d, Some(a))) && a.running == SLOT_A && a.build == build && a.st.confirmed
            && !a.link.receiving && a.offer.None? && Settled(env, d.cells, SLOT_A)
  {
    hide Holds, Load, Bootable, AppInv, Ready;
    var d := Powered(c, fuel, None);
    CompleteBoots(env, d.cells, SLOT_A);
    ResetKeeps(env, d, build);
    ReachStep(env, Sys(c, None), PowerUp(fuel, None, build), Reset(env, d, build));
  }

  /** A staged image that is complete is entered, on trial. */
  lemma TrialBoots(env: Env, s: Sys, fuel: nat, build: seq<byte>, r: Rec) returns (t: Sys)
    requires Sane(env) && Inv(env, s) && Complete(env, s.chip.cells, SLOT_B) && Load(env.crc, s.chip.cells) == Some(r)
    requires !r.confirmed && r.trial > 0 && r.active == SLOT_B && fuel >= 4 && IsVersion(build) && Printable(build)
    ensures Reaches(env, s, [PowerUp(fuel, None, build)], t) && Inv(env, t) && t.app.Some?
    ensures t.chip.fuel == fuel - 4 && t.chip.noise.None? && Load(env.crc, t.chip.cells) == Some(OnBoot(r).0)
    ensures var a := t.app.value;
            a.running == SLOT_B && a.build == build && a.st == OnBoot(r).0 && !a.link.receiving && a.offer.None?
  {
    hide Save, Load, Decode, Copy, Bootable, AppInv, Ready, Holds, SafeFlash;
    InvFormed(env, s);
    InvParts(env, s);
    var p, next := Powered(s.chip, fuel, None), OnBoot(r).0;
    LoadedReads(env, s.chip.cells, r);
    SaveAt(env.crc, p, next);
    SaveThenLoad(env.crc, p, next);
    SaveKeepsSlot(env, p, next, SLOT_B, SLOT_B);
    var d := Save(env.crc, p, next).0;
    CompleteBoots(env, d.cells, SLOT_B);
    ResetKeeps(env, p, build);
    SaveNoise(env.crc, p, next);
    t := Sys(d, Some(Init(env, d.cells, SLOT_B, build)));
    assert Reset(env, p, build) == t;
    ReachStep(env, s, PowerUp(fuel, None, build), t);
  }

  lemma SaveNoise(crc: Checksum, c: Chip, s: Rec)
    requires OnBoard(c) && IsVersion(s.version)
    ensures Save(crc, c, s).0.noise == c.noise
  {
    hide Save;
    SaveConfined(crc, c, s);
  }

  /** The relay's acknowledgement settles it. */
  lemma AckSettles(env: Env, s: Sys, a: App) returns (t: Sys)
    requires Sane(env) && Inv(env, s) && s.app == Some(a) && !a.st.confirmed && a.running == SLOT_B && s.chip.fuel >= 4
    requires !a.link.receiving && a.offer.None?
    ensures Reaches(env, s, [Ack], t) && Inv(env, t) && t.chip.fuel == s.chip.fuel - 4
    ensures t.app.Some? && Settled(env, t.chip.cells, SLOT_B)
    ensures var b := t.app.value;
            b.running == SLOT_B && b.build == a.build && b.st.confirmed && !b.link.receiving && b.offer.None?
  {
    hide Save, Load, Decode, Copy, Ready, Complete, SafeFlash, Streams, Promised;
    InvFormed(env, s);
    InvParts(env, s);
    StepNames(env, s.chip, a);
    var next := Confirm(a.st).(active := SLOT_B, fallback := SLOT_B);
    SaveAt(env.crc, s.chip, next);
    SaveThenLoad(env.crc, s.chip, next);
    StepKeeps(env, s, Ack);
    t := OtaSystem.Step(env, s, Ack);
    ReachStep(env, s, Ack, t);
  }

  /**
   * So the claim does not hold of a relay that offers images without regard to slots: from any part
   * as it leaves the factory there is a run, of properly signed offers only, after which the
   * loader enters a slot that does not hold a release. `h` is the first update, to B.
   */
  lemma FactoryRunFails(env: Env, c: Chip, build: seq<byte>, h: Header, x: seq<byte>,
                        hb: Header, b: seq<byte>, ha: Header, p: seq<byte>, q: seq<byte>)
    returns (trace: seq<Sys>, events: seq<Event>, t: Sys)
    requires Sane(env) && !env.matched && OnBoard(c) && Complete(env, c.cells, SLOT_A) && Load(env.crc, c.cells) == None
    requires IsVersion(build) && Printable(build) && HeaderOk(env, h) && h.version != build
    requires |x| == h.len && env.sha(x) == h.sha && Admitted(env, SLOT_B, h.len, h.sha)
    requires TwoImages(env, h.version, hb, b, ha, p, q)
    ensures Run(env, trace, events) && trace[0] == Sys(c, None) && trace[|events|] == t && OnBoard(t.chip)
    ensures var (d, entered) := Loader(env, Powered(t.chip, 0, None));
            entered == Some(SLOT_A) && !Complete(env, d.cells, SLOT_A)
  {
    hide Inv, AppInv, Reaches, Run, Load, Loader, Holds, HeaderOk, Begins, Settled, Init, InStep, Admitted, TwoImages;
    var s, left := Sys(c, None), Span(h.len) + h.len + 5;
    FactoryBoots(env, c, left, build);
    var c1 := Powered(c, left, None);
    var a1 := Init(env, c1.cells, SLOT_A, build);
    assert OtherSlot(SLOT_A) == SLOT_B;
    OfferTaken(env, c1, a1, h);
    var a2 := a1.(offer := Some(h));
    events := [PowerUp(left, None, build)];
    ReachThen(env, s, events, Sys(c1, Some(a1)), [Offer(h, false)], Sys(c1, Some(a2)));
    events := events + [Offer(h, false)];
    var s3 := WholeTransferRun(env, c1, a2, h, x);
    ReachThen(env, s, events, Sys(c1, Some(a2)), [Pump(true), Frame(x)], s3);
    events := events + [Pump(true), Frame(x)];
    InvFormed(env, s3);
    ImageInB(env, s3.chip, h, x);
    HeaderNames(env, h);
    BigEnough(env, h.version, hb, b, ha, p, q);
    var more := Span(hb.len) + hb.len + 5 + 8;
    var staged := Stage(a2.st.(active := SLOT_A, confirmed := true), SLOT_B, h.version);
    var s4 := TrialBoots(env, s3, more, h.version, staged);
    ReachThen(env, s, events, s3, [PowerUp(more, None, h.version)], s4);
    events := events + [PowerUp(more, None, h.version)];
    var s5 := AckSettles(env, s4, s4.app.value);
    ReachThen(env, s, events, s4, [Ack], s5);
    events := events + [Ack];
    assert s5 == Sys(s5.chip, Some(s5.app.value));
    var rest: seq<Event>;
    rest, t := WrongSlotRun(env, s5.chip, s5.app.value, hb, b, ha, p, q);
    ReachThen(env, s, events, s5, rest, t);
    events := events + rest;
    trace := ReachIsRun(env, s, events, t);
  }

  lemma ImageInB(env: Env, c: Chip, h: Header, x: seq<byte>)
    requires OnBoard(c) && Begins(c, SLOT_B, x, Span(h.len))
    requires |x| == h.len && env.sha(x) == h.sha && Admitted(env, SLOT_B, h.len, h.sha)
    ensures Complete(env, c.cells, SLOT_B)
  {
    SlotBegins(c, SLOT_B, x, Span(h.len));
    assert env.release(SLOT_B, SlotBytes(c.cells, SLOT_B)[..|x|]);
  }

  lemma BigEnough(env: Env, build: seq<byte>, hb: Header, b: seq<byte>, ha: Header, p: seq<byte>, q: seq<byte>)
    requires TwoImages(env, build, hb, b, ha, p, q)
    ensures HeaderOk(env, hb) && |b| == hb.len
  {
  }

  // There is such a world

  /** A small image for a slot: a vector table, zeros, and a last byte. */
  function SmallImage(slot: byte): (p: seq<byte>)
    requires slot <= SLOT_B
    ensures |p| == 600 && p[512] == 0
  {
    Le32(0x2000_1000) + Le32(XIP_BASE + SlotOffset(slot) + 1) + Fill(0, 591) + [1]
  }

  function SmallWorld(crc: Checksum): Env {
    Env(crc, (p: seq<byte>) => p, (h: Header) => true,
        (slot: byte, p: seq<byte>) => slot <= SLOT_B && p == SmallImage(slot),
        false, 0, 0x2000_0000, 0x2008_2000)
  }

  lemma SmallTable(env: Env, slot: byte)
    requires slot <= SLOT_B && env.vectors == 0 && env.ramBase == 0x2000_0000 && env.ramEnd == 0x2008_2000
    ensures VectorsOk(env, slot, SmallImage(slot))
  {
    var p := SmallImage(slot);
    assert p[0..4] == Le32(0x2000_1000) && p[4..8] == Le32(XIP_BASE + SlotOffset(slot) + 1);
    Le32RoundTrip(0x2000_1000);
    Le32RoundTrip(XIP_BASE + SlotOffset(slot) + 1);
  }

  lemma SmallWorldIsSane(crc: Checksum)
    ensures Sane(SmallWorld(crc))
    ensures forall slot: byte :: slot <= SLOT_B ==> Admitted(SmallWorld(crc), slot, 600, SmallImage(slot))
  {
    hide SmallImage, VectorsOk;
    var env := SmallWorld(crc);
    SmallTable(env, SLOT_A);
    SmallTable(env, SLOT_B);
    assert env.sha == SmallWorld(crc).sha;
  }

  /** In it, a part from the factory and everything the run above asks for. */
  lemma SmallWorldFails(crc: Checksum) returns (c: Chip, trace: seq<Sys>, events: seq<Event>, t: Sys)
    ensures var env := SmallWorld(crc);
            && Sane(env) && OnBoard(c) && Complete(env, c.cells, SLOT_A) && Load(env.crc, c.cells) == None
            && Run(env, trace, events) && trace[0] == Sys(c, None) && trace[|events|] == t && OnBoard(t.chip)
            && var (d, entered) := Loader(env, Powered(t.chip, 0, None));
               entered == Some(SLOT_A) && !Complete(env, d.cells, SLOT_A)
  {
    hide SmallImage, Reaches, Run, Loader, Load, Holds, OnlyPart, Admitted, Sane;
    var env := SmallWorld(crc);
    SmallWorldIsSane(crc);
    c := FactoryPart(crc);
    var h, hb, ha := SmallHeader(0x31, SLOT_B), SmallHeader(0x32, SLOT_B), SmallHeader(0x33, SLOT_A);
    SmallHeaders(crc);
    var p := SmallImage(SLOT_A);
    SmallPart(crc);
    assert TwoImages(env, h.version, hb, SmallImage(SLOT_B), ha, p, p[..512]);
    trace, events, t := FactoryRunFails(env, c, [0x30], h, SmallImage(SLOT_B), hb, SmallImage(SLOT_B), ha, p, p[..512]);
  }

  function SmallHeader(version: byte, slot: byte): Header
    requires slot <= SLOT_B
  {
    Header([version], 600, SmallImage(slot))
  }

  lemma SmallHeaders(crc: Checksum)
    ensures forall v: byte, slot: byte :: 0x30 <= v <= 0x39 && slot <= SLOT_B ==> HeaderOk(SmallWorld(crc), SmallHeader(v, slot))
    ensures IsVersion([0x30]) && Printable([0x30])
    ensures forall p :: SmallWorld(crc).sha(p) == p
  {
    hide SmallImage;
  }

  lemma SmallPart(crc: Checksum)
    ensures OnlyPart(SmallWorld(crc), SLOT_A, SmallImage(SLOT_A)[..512])
    ensures SmallWorld(crc).release(SLOT_A, SmallImage(SLOT_A))
  {
    hide SmallImage;
    var p := SmallImage(SLOT_A);
    assert |p| == 600 && p[512] == 0;
  }

  /** Slot A written, everything else blank. */
  lemma FactoryPart(crc: Checksum) returns (c: Chip)
    ensures OnBoard(c) && Complete(SmallWorld(crc), c.cells, SLOT_A) && Load(crc, c.cells) == None
  {
    hide SmallImage, Decode;
    var image, blank := SmallImage(SLOT_A), Fill(0xFF, MIN_FLASH);
    c := Chip(Splice(blank, SlotOffset(SLOT_A), image), 0, false, None, []);
    var s := SlotBytes(c.cells, SLOT_A);
    SliceOfSlice(c.cells, SlotOffset(SLOT_A), SLOT_SIZE, 600);
    SpliceHolds(blank, SlotOffset(SLOT_A), image, 600);
    assert image[..600] == image;
    assert SmallWorld(crc).release(SLOT_A, s[..600]);
    BlankUnreadable(crc);
    assert Copy(c.cells, 0) == Fill(0xFF, RECORD_LEN) && Copy(c.cells, 1) == Fill(0xFF, RECORD_LEN);
  }
}
