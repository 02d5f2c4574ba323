/** Streaming an image into the spare slot (firmware/src/ota/ota_write.c, and the digest of image.c). */
module OtaWriter {
  import opened Bytes
  import opened Flash
  import opened Layout
  import opened OtaState

  const ERASE_STEP: nat := 0x1_0000

  /** SHA-256, about which nothing is assumed. */
  type Digest = seq<byte> -> seq<byte>

  /** The signed fields of an image header the device acts on. */
  datatype Header = Header(version: seq<byte>, len: nat, sha: seq<byte>)

  datatype Status = Ok | ErrLength | ErrBoard | ErrDigest

  /** The writer: `page` holds the bytes not yet programmed, `seen` the bytes hashed so far. */
  datatype Writer = Writer(active: bool, slot: byte, written: nat, total: nat,
                           page: seq<byte>, seen: seq<byte>, expected: seq<byte>)
  {
    predicate Sized() {
      |page| <= written <= total <= SLOT_SIZE && |page| < PAGE && (active ==> Done() % PAGE == 0)
    }

    /** Payload bytes already in flash. */
    function Done(): int {
      written - |page|
    }
  }

  const IDLE: Writer := Writer(false, 0, 0, 0, [], [], [])

  function Abort(w: Writer): Writer {
    w.(active := false, page := [])
  }

  /** The bytes cleared for a payload: whole sectors. */
  function Span(len: nat): nat {
    (len + SECTOR - 1) / SECTOR * SECTOR
  }

  function EraseFrom(c: Chip, base: nat, off: nat, span: nat): (d: Chip)
    requires OnBoard(c) && base + span <= |c.cells|
    ensures OnBoard(d) && |d.cells| == |c.cells|
    decreases span - off
  {
    if off >= span then c
    else EraseFrom(Erase(c, base + off, if span - off > ERASE_STEP then ERASE_STEP else span - off), base, off + ERASE_STEP, span)
  }

  lemma SpanFits(len: nat)
    requires 0 < len <= SLOT_SIZE
    ensures len <= Span(len) <= SLOT_SIZE && Span(len) % PAGE == 0
  {
    assert SLOT_SIZE == 176 * SECTOR;
    assert Span(len) == (len + SECTOR - 1) / SECTOR * 16 * PAGE;
  }

  function Begin(c: Chip, w: Writer, h: Header, slot: byte, running: byte): (r: (Chip, Writer, Status))
    requires OnBoard(c)
    ensures OnBoard(r.0) && |r.0.cells| == |c.cells|
  {
    if w.active then (c, w, ErrLength)
    else if slot > SLOT_B || slot == running then (c, w, ErrBoard)
    else if h.len == 0 || h.len > SLOT_SIZE then (c, w, ErrLength)
    else
      SpanFits(h.len);
      (EraseFrom(c, SlotOffset(slot), 0, Span(h.len)), Writer(true, slot, 0, h.len, [], [], h.sha), Ok)
  }

  /** One page, at the place the bytes before it end; the flag is the read-back. */
  function ProgramPage(c: Chip, slot: byte, done: nat, page: seq<byte>): (r: (Chip, bool))
    requires OnBoard(c) && |page| == PAGE && done + PAGE <= SLOT_SIZE
    ensures OnBoard(r.0) && |r.0.cells| == |c.cells|
  {
    var off := SlotOffset(slot) + done;
    var d := Program(c, off, page);
    (d, d.cells[off..off + PAGE] == page)
  }

  /** One turn of the loop in rw_ota_write_chunk: how much it took, and whether flash took the page. */
  function TakeOnce(c: Chip, w: Writer, data: seq<byte>): (r: (Chip, Writer, nat, bool))
    requires OnBoard(c) && w.Sized() && w.active && 0 < |data| <= w.total - w.written
    ensures OnBoard(r.0) && |r.0.cells| == |c.cells| && 0 < r.2 <= |data|
    ensures r.3 ==> r.1.Sized() && r.1.active && r.1.total == w.total && r.1.written == w.written + r.2
    ensures !r.3 ==> Abort(r.1).Sized()
  {
    var room := PAGE - |w.page|;
    var take := if |data| < room then |data| else room;
    var v := w.(page := w.page + data[..take], written := w.written + take);
    if |v.page| == PAGE then
      PageFits(w.Done(), w.total);
      var (d, ok) := ProgramPage(c, w.slot, w.Done(), v.page);
      (d, if ok then v.(page := []) else v, take, ok)
    else
      (c, v, take, true)
  }

  function Take(c: Chip, w: Writer, data: seq<byte>): (r: (Chip, Writer, Status))
    requires OnBoard(c) && w.Sized() && w.active && |data| <= w.total - w.written
    ensures OnBoard(r.0) && |r.0.cells| == |c.cells| && r.1.Sized()
    ensures r.2 == Ok ==> r.1.active && r.1.total == w.total && r.1.written == w.written + |data|
    decreases |data|
  {
    if data == [] then (c, w, Ok)
    else
      var (d, v, n, ok) := TakeOnce(c, w, data);
      if ok then Take(d, v, data[n..]) else (d, Abort(v), ErrDigest)
  }

  function Chunk(c: Chip, w: Writer, data: seq<byte>): (r: (Chip, Writer, Status))
    requires OnBoard(c) && w.Sized()
    ensures OnBoard(r.0) && |r.0.cells| == |c.cells| && r.1.Sized()
  {
    if !w.active then (c, w, ErrLength)
    else if |data| > w.total - w.written then (c, Abort(w), ErrLength)
    else Take(c, w.(seen := w.seen + data), data)
  }

  function Padded(page: seq<byte>): (p: seq<byte>)
    requires |page| <= PAGE
    ensures |p| == PAGE
  {
    page + Fill(0xFF, PAGE - |page|)
  }

  /** rw_ota_digest_finish: the count first, then the hash. */
  function Verdict(sha: Digest, seen: seq<byte>, total: nat, expected: seq<byte>): Status {
    if |seen| != total then ErrLength
    else if sha(seen) != expected then ErrDigest
    else Ok
  }

  function End(sha: Digest, c: Chip, w: Writer): (r: (Chip, Writer, Status))
    requires OnBoard(c) && w.Sized()
    ensures OnBoard(r.0) && |r.0.cells| == |c.cells| && r.1.Sized()
  {
    if !w.active then (c, w, ErrLength)
    else if |w.page| > 0 then
      PageFits(w.Done(), w.total);
      var (d, ok) := ProgramPage(c, w.slot, w.Done(), Padded(w.page));
      if ok then (d, w.(active := false, page := []), Verdict(sha, w.seen, w.total, w.expected))
      else (d, Abort(w), ErrDigest)
    else (c, w.(active := false), Verdict(sha, w.seen, w.total, w.expected))
  }

  /**
   * Who is turned away: a second transfer while one is on, the running slot and any there is not, and a
   * payload of no bytes or more than fit. Nothing is erased for any of them.
   */
  lemma BeginsExactly(c: Chip, w: Writer, h: Header, slot: byte, running: byte)
    requires OnBoard(c)
    ensures var (d, v, st) := Begin(c, w, h, slot, running);
            var (here, fits) := (slot <= SLOT_B && slot != running, 0 < h.len <= 704 * 1024);
            && (st == Ok <==> !w.active && here && fits)
            && (st == ErrLength <==> w.active || (here && !fits))
            && (st == ErrBoard <==> !w.active && !here)
            && (st != Ok ==> d == c && v == w)
            && (st == Ok ==> v == Writer(true, slot, 0, h.len, [], [], h.sha))
  {
    hide EraseFrom;
  }

  /** Chunks and ends outside a transfer, and what a chunk that is too long does to one. */
  lemma OutsideTransfer(sha: Digest, c: Chip, w: Writer, data: seq<byte>)
    requires OnBoard(c) && w.Sized()
    ensures !w.active ==> Chunk(c, w, data) == (c, w, ErrLength) && End(sha, c, w) == (c, w, ErrLength)
    ensures var (d, v, st) := Chunk(c, w, data);
            w.active && |data| > w.total - w.written ==> st == ErrLength && d == c && !v.active && v.page == []
    ensures !End(sha, c, w).1.active && !Abort(w).active && Abort(w).page == []
  {
    hide Take, ProgramPage;
  }

  lemma PageFits(done: nat, total: nat)
    requires done % PAGE == 0 && done < total <= SLOT_SIZE
    ensures done + PAGE <= Span(total) <= SLOT_SIZE
  {
    SpanFits(total);
    assert SLOT_SIZE == 2816 * PAGE;
  }

  // The code

  /** The file-scope writer, its page a fixed buffer. */
  class WriterUnit {
    const flash: FlashPart
    var active: bool
    var slot: byte
    var base: nat
    var written: nat
    var total: nat
    var held: nat
    const page: array<byte>
    var seen: seq<byte>
    var expected: seq<byte>

    ghost predicate Valid()
      reads this, page, flash
    {
      && page.Length == PAGE && held < PAGE && base == SlotOffset(slot)
      && Now().Sized() && OnBoard(flash.Now())
    }

    ghost function Now(): Writer
      requires page.Length == PAGE && held <= PAGE
      reads this, page
    {
      Writer(active, slot, written, total, page[..held], seen, expected)
    }

    constructor (flash: FlashPart)
      requires OnBoard(flash.Now())
      ensures Valid() && Now() == IDLE && this.flash == flash && fresh(page)
    {
      this.flash := flash;
      active, slot, base, written, total, held := false, 0, SlotOffset(0), 0, 0, 0;
      page := new byte[PAGE](_ => 0);
      seen, expected := [], [];
    }

    method AbortTransfer()
      requires page.Length == PAGE && held <= PAGE && base == SlotOffset(slot)
      requires Abort(Now()).Sized() && OnBoard(flash.Now())
      modifies this`active, this`held
      ensures Valid() && Now() == Abort(old(Now()))
    {
      active := false;
      held := 0;
    }

    method BeginTransfer(h: Header, target: byte, running: byte) returns (status: Status)
      requires Valid()
      modifies this, page, flash
      ensures Valid()
      ensures (flash.Now(), Now(), status) == Begin(old(flash.Now()), old(Now()), h, target, running)
    {
      if active {
        return ErrLength;
      }
      if target > SLOT_B || target == running {
        return ErrBoard;
      }
      if h.len == 0 || h.len > SLOT_SIZE {
        return ErrLength;
      }
      active, slot, base, written, total, held := true, target, SlotOffset(target), 0, h.len, 0;
      seen, expected := [], h.sha;
      SpanFits(h.len);
      ClearSpan(Span(h.len));
      assert page[..held] == [];
      status := Ok;
    }

    /** The erase loop, a 64 KB step at a time. */
    method ClearSpan(span: nat)
      requires OnBoard(flash.Now()) && base + span <= |flash.cells|
      modifies flash
      ensures flash.Now() == EraseFrom(old(flash.Now()), base, 0, span)
    {
      hide Erase, Confined;
      var off := 0;
      ghost var c := flash.Now();
      while off < span
        invariant OnBoard(flash.Now()) && |flash.cells| == |c.cells|
        invariant EraseFrom(flash.Now(), base, off, span) == EraseFrom(c, base, 0, span)
      {
        var n := span - off;
        if n > ERASE_STEP {
          n := ERASE_STEP;
        }
        flash.RangeErase(base + off, n);
        off := off + ERASE_STEP;
      }
    }

    /** program_page: the page is full and its bytes are already counted in `written`. */
    method ProgramHeld() returns (ok: bool)
      requires page.Length == PAGE && held == PAGE && base == SlotOffset(slot)
      requires OnBoard(flash.Now()) && PAGE <= written <= SLOT_SIZE
      modifies this`held, flash
      ensures (flash.Now(), ok) == ProgramPage(old(flash.Now()), slot, written - PAGE, page[..])
      ensures held == if ok then 0 else PAGE
    {
      hide Program;
      var offset := base + (written - held);
      flash.RangeProgram(offset, page[..]);
      if flash.cells[offset..offset + PAGE] != page[..] {
        return false;
      }
      held := 0;
      ok := true;
    }

    method AddChunk(data: seq<byte>) returns (status: Status)
      requires Valid()
      modifies this, page, flash
      ensures Valid()
      ensures (flash.Now(), Now(), status) == Chunk(old(flash.Now()), old(Now()), data)
    {
      hide TakeOnce;
      if !active {
        return ErrLength;
      }
      if |data| > total - written {
        AbortTransfer();
        return ErrLength;
      }
      seen := seen + data;
      ghost var c, w := flash.Now(), Now();
      var at := 0;
      assert data[at..] == data;
      while at < |data|
        invariant Valid() && active && |flash.cells| == |c.cells|
        invariant at <= |data| && |data| - at <= total - written
        invariant Take(flash.Now(), Now(), data[at..]) == Take(c, w, data)
      {
        ghost var rest := data[at..];
        var n, ok := TakeOneTurn(data, at);
        assert data[at + n..] == rest[n..];
        at := at + n;
        if !ok {
          AbortTransfer();
          return ErrDigest;
        }
      }
      status := Ok;
    }

    /** rw_ota_write_end, `sha` standing for the hash library. */
    method EndTransfer(sha: Digest) returns (status: Status)
      requires Valid()
      modifies this, page, flash
      ensures Valid()
      ensures (flash.Now(), Now(), status) == End(sha, old(flash.Now()), old(Now()))
    {
      hide ProgramPage;
      if !active {
        return ErrLength;
      }
      ghost var w := Now();
      if held > 0 {
        for i := held to PAGE
          invariant page[..held] == w.page
          invariant forall j :: held <= j < i ==> page[j] == 0xFF
          modifies page
        {
          page[i] := 0xFF;
        }
        assert page[..] == Padded(w.page);
        PageFits(w.Done(), total);
        var was := held;
        held := PAGE;
        written := written + (PAGE - was);
        var ok := ProgramHeld();
        written := written - (PAGE - was);
        if !ok {
          AbortTransfer();
          return ErrDigest;
        }
      }
      status := Verdict(sha, seen, total, expected);
      active := false;
      assert page[..held] == [];
    }

    method TakeOneTurn(data: seq<byte>, at: nat) returns (take: nat, ok: bool)
      requires Valid() && active && at < |data| && |data| - at <= total - written
      modifies this`held, this`written, page, flash
      ensures page.Length == PAGE && held <= PAGE
      ensures (flash.Now(), Now(), take, ok) == TakeOnce(old(flash.Now()), old(Now()), data[at..])
    {
      hide ProgramPage;
      ghost var w := Now();
      var room := PAGE - held;
      take := if |data| - at < room then |data| - at else room;
      CopyIn(data, at, take);
      assert data[at..][..take] == data[at..at + take];
      assert page[..held + take] == page[..held] + page[held..held + take];
      held := held + take;
      written := written + take;
      assert page[..held] == w.page + data[at..][..take];
      PageFits(w.Done(), total);
      ok := true;
      if held == PAGE {
        assert page[..] == page[..held];
        ok := ProgramHeld();
      }
    }

    /** memcpy into the page after the bytes it holds. */
    method CopyIn(data: seq<byte>, at: nat, take: nat)
      requires held + take <= page.Length && at + take <= |data|
      modifies page
      ensures page[..held] == old(page[..held])
      ensures page[held..held + take] == data[at..at + take]
    {
      for i := 0 to take
        invariant page[..held] == old(page[..held])
        invariant page[held..held + i] == data[at..at + i]
      {
        page[held + i] := data[at + i];
      }
    }
  }

  // However the payload is cut

  ghost predicate Joins(w: Writer, v: Writer, a: seq<byte>) {
    && w.Sized() && w.active && a != [] && |a| < PAGE - |w.page|
    && v.Sized() && v == w.(page := w.page + a, written := w.written + |a|)
  }

  lemma TakeOnceJoined(c: Chip, w: Writer, v: Writer, a: seq<byte>, b: seq<byte>,
                       d: Chip, x: Writer, n: nat, ok: bool)
    requires OnBoard(c) && Joins(w, v, a) && b != [] && |b| <= v.total - v.written
    requires TakeOnce(c, v, b) == (d, x, n, ok)
    ensures TakeOnce(c, w, a + b) == (d, x, |a| + n, ok)
  {
    hide ProgramPage;
    var room := PAGE - |v.page|;
    var take := if |b| < room then |b| else room;
    assert (a + b)[..|a| + take] == a + b[..take];
    assert w.page + (a + b[..take]) == v.page + b[..take];
    assert w.Done() == v.Done();
  }

  /** Bytes that do not fill the page only join it. */
  lemma TakeShort(c: Chip, w: Writer, v: Writer, a: seq<byte>)
    requires OnBoard(c) && Joins(w, v, a)
    ensures Take(c, w, a) == (c, v, Ok)
  {
    hide ProgramPage, Take;
    assert a[..|a|] == a;
    TakeStepTo(c, w, a, c, v, |a|, true, []);
    TakeNothing(c, v);
  }

  lemma TakeAfterShort(c: Chip, w: Writer, v: Writer, a: seq<byte>, b: seq<byte>)
    requires OnBoard(c) && Joins(w, v, a) && b != [] && |b| <= v.total - v.written
    ensures Take(c, w, a + b) == Take(c, v, b)
  {
    hide TakeOnce, Take;
    var (d, x, n, ok) := TakeOnce(c, v, b);
    TakeStepTo(c, v, b, d, x, n, ok, b[n..]);
    TakeOnceJoined(c, w, v, a, b, d, x, n, ok);
    assert (a + b)[|a| + n..] == b[n..];
    TakeStepTo(c, w, a + b, d, x, |a| + n, ok, b[n..]);
  }

  lemma TakeStepTo(c: Chip, w: Writer, data: seq<byte>, d: Chip, v: Writer, n: nat, ok: bool, rest: seq<byte>)
    requires OnBoard(c) && w.Sized() && w.active && 0 < |data| <= w.total - w.written
    requires TakeOnce(c, w, data) == (d, v, n, ok) && rest == data[n..]
    ensures ok ==> Take(c, w, data) == Take(d, v, rest)
    ensures !ok ==> Take(c, w, data) == (d, Abort(v), ErrDigest)
  {
    hide TakeOnce;
  }

  lemma TakeNothing(c: Chip, w: Writer)
    requires OnBoard(c) && w.Sized() && w.active
    ensures Take(c, w, []) == (c, w, Ok)
  {
  }

  /** Once the page can be filled, what lies beyond it does not matter yet. */
  lemma TakeOnceFull(c: Chip, w: Writer, a: seq<byte>, b: seq<byte>)
    requires OnBoard(c) && w.Sized() && w.active && |a| + |b| <= w.total - w.written
    requires a != [] && |a| >= PAGE - |w.page|
    ensures TakeOnce(c, w, a + b) == TakeOnce(c, w, a)
    ensures var n := TakeOnce(c, w, a).2;
            n == PAGE - |w.page| && (a + b)[n..] == a[n..] + b
  {
    hide ProgramPage;
    var n := PAGE - |w.page|;
    assert (a + b)[..n] == a[..n];
  }

  /** Taking two pieces is taking them joined. */
  lemma {:induction false} TakeConcat(c: Chip, w: Writer, a: seq<byte>, b: seq<byte>)
    requires OnBoard(c) && w.Sized() && w.active && |a| + |b| <= w.total - w.written
    ensures var (d, v, st) := Take(c, w, a);
            Take(c, w, a + b) == if st == Ok then Take(d, v, b) else (d, v, st)
    decreases |a|
  {
    hide Take, TakeOnce;
    if a == [] {
      TakeNothing(c, w);
      assert a + b == b;
    } else if |a| >= PAGE - |w.page| {
      var (d, v, n, ok) := TakeOnce(c, w, a);
      TakeOnceFull(c, w, a, b);
      TakeStepTo(c, w, a, d, v, n, ok, a[n..]);
      TakeStepTo(c, w, a + b, d, v, n, ok, a[n..] + b);
      if ok {
        TakeConcat(d, v, a[n..], b);
      }
    } else {
      var v := w.(page := w.page + a, written := w.written + |a|);
      TakeShort(c, w, v, a);
      if b == [] {
        TakeNothing(c, v);
        assert a + b == a;
      } else {
        TakeAfterShort(c, w, v, a, b);
      }
    }
  }

  function Concat(chunks: seq<seq<byte>>): seq<byte> {
    if chunks == [] then [] else chunks[0] + Concat(chunks[1..])
  }

  /** A session's frames, each written as it arrives, up to the first that is not accepted. */
  function Feed(c: Chip, w: Writer, chunks: seq<seq<byte>>): (r: (Chip, Writer, Status))
    requires OnBoard(c) && w.Sized()
    ensures OnBoard(r.0) && |r.0.cells| == |c.cells| && r.1.Sized()
    decreases |chunks|
  {
    if chunks == [] then (c, w, Ok)
    else
      var (d, v, st) := Chunk(c, w, chunks[0]);
      if st == Ok then Feed(d, v, chunks[1..]) else (d, v, st)
  }

  lemma TakeOnceIgnoresSeen(c: Chip, w: Writer, seen: seq<byte>, data: seq<byte>)
    requires OnBoard(c) && w.Sized() && w.active && 0 < |data| <= w.total - w.written
    ensures var (d, v, n, ok) := TakeOnce(c, w, data);
            TakeOnce(c, w.(seen := seen), data) == (d, v.(seen := seen), n, ok) && v.seen == w.seen
  {
    hide ProgramPage;
  }

  /** Hashing only appends, so it commutes with everything the page and flash do. */
  lemma {:induction false} TakeIgnoresSeen(c: Chip, w: Writer, seen: seq<byte>, data: seq<byte>)
    requires OnBoard(c) && w.Sized() && w.active && |data| <= w.total - w.written
    ensures var (d, v, st) := Take(c, w, data);
            && Take(c, w.(seen := seen), data) == (d, v.(seen := seen), st)
            && v.seen == w.seen
    decreases |data|
  {
    hide TakeOnce;
    if data != [] {
      var (d, v, n, ok) := TakeOnce(c, w, data);
      TakeOnceIgnoresSeen(c, w, seen, data);
      if ok {
        TakeIgnoresSeen(d, v, seen, data[n..]);
      }
    }
  }

  /** However the payload is cut into frames, flash, writer and hash end the same. */
  lemma {:induction false} FeedIsOneChunk(c: Chip, w: Writer, chunks: seq<seq<byte>>)
    requires OnBoard(c) && w.Sized() && w.active && |Concat(chunks)| <= w.total - w.written
    ensures var (d, v, st) := Feed(c, w, chunks);
            var (e, u, su) := Chunk(c, w, Concat(chunks));
            st == su && d == e && v.(seen := u.seen) == u && (st == Ok ==> v == u)
    decreases |chunks|
  {
    hide Take;
    if chunks == [] {
      TakeNothing(c, w);
      assert w.(seen := w.seen + []) == w;
    } else {
      var a, b := chunks[0], Concat(chunks[1..]);
      var w1 := w.(seen := w.seen + a);
      var w2 := w.(seen := w.seen + (a + b));
      var (d, v, st) := Take(c, w1, a);
      TakeIgnoresSeen(c, w1, w2.seen, a);
      TakeConcat(c, w2, a, b);
      if st == Ok {
        FeedIsOneChunk(d, v, chunks[1..]);
        assert w1.seen + b == w2.seen;
      }
    }
  }
}
