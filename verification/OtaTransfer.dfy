/** What a transfer as a whole leaves in flash (firmware/src/ota/ota_write.c). */
module OtaTransfer {
  import opened Bytes
  import opened Flash
  import opened Layout
  import opened OtaState
  import opened OtaWriter

  // The steps a transfer takes, in order

  function EraseOps(base: nat, off: nat, span: nat): seq<Op>
    decreases span - off
  {
    if off >= span then []
    else [Erasing(base + off, if span - off > ERASE_STEP then ERASE_STEP else span - off)]
         + EraseOps(base, off + ERASE_STEP, span)
  }

  /** Each page from the `from`-th to the one before the `to`-th, once. */
  function PageOps(base: nat, from: nat, to: nat): (ops: seq<Op>)
    requires from <= to
    ensures |ops| == to - from
    ensures forall i :: 0 <= i < to - from ==> ops[i] == Programming(base + PAGE * (from + i), PAGE)
  {
    seq(to - from, i requires 0 <= i < to - from => Programming(base + PAGE * (from + i), PAGE))
  }

  lemma PageOpsConcat(base: nat, from: nat, mid: nat, to: nat)
    requires from <= mid <= to
    ensures PageOps(base, from, mid) + PageOps(base, mid, to) == PageOps(base, from, to)
  {
  }

  // Clearing

  lemma {:induction false} EraseFromConfined(c: Chip, base: nat, off: nat, span: nat)
    requires OnBoard(c) && base + span <= |c.cells|
    ensures Confined(c, EraseFrom(c, base, off, span), base, base + span)
    decreases span - off
  {
    if off < span {
      var n := if span - off > ERASE_STEP then ERASE_STEP else span - off;
      var d := Erase(c, base + off, n);
      ConfinedWiden(c, d, base + off, base + off + n, base, base + span);
      EraseFromConfined(d, base, off + ERASE_STEP, span);
      ConfinedTrans(c, d, EraseFrom(c, base, off, span), base, base + span);
    }
  }

  lemma {:induction false} EraseFromClears(c: Chip, base: nat, off: nat, span: nat)
    requires OnBoard(c) && base + span <= |c.cells| && EraseFrom(c, base, off, span).lit
    ensures var d := EraseFrom(c, base, off, span);
            && c.lit && d.log == c.log + EraseOps(base, off, span)
            && (forall i :: base <= i < base + span && off <= i - base ==> d.cells[i] == 0xFF)
            && (forall i :: 0 <= i < |c.cells| && i < base + off ==> d.cells[i] == c.cells[i])
    decreases span - off
  {
    hide Step;
    if off < span {
      var n := if span - off > ERASE_STEP then ERASE_STEP else span - off;
      var d := Erase(c, base + off, n);
      EraseFromClears(d, base, off + ERASE_STEP, span);
      assert d.log + EraseOps(base, off + ERASE_STEP, span) == c.log + EraseOps(base, off, span);
    }
  }

  // Streaming

  /** The first `span` bytes of a slot: `q`, then nothing written since the erase. */
  ghost predicate Begins(c: Chip, slot: byte, q: seq<byte>, span: nat)
    requires OnBoard(c) && slot <= SLOT_B
  {
    |q| <= span <= SLOT_SIZE
    && c.cells[SlotOffset(slot)..SlotOffset(slot) + span] == q + Fill(0xFF, span - |q|)
  }

  /** `p` has been taken: whole pages are in flash, the rest is held, and what follows is blank. */
  ghost predicate Streams(c: Chip, w: Writer, p: seq<byte>)
    requires OnBoard(c)
  {
    && w.active && w.Sized() && w.slot <= SLOT_B && 0 < w.total
    && |p| == w.written && w.page == p[w.Done()..]
    && Begins(c, w.slot, p[..w.Done()], Span(w.total))
  }

  lemma BeginStreams(c: Chip, w: Writer, h: Header, slot: byte, running: byte)
    requires OnBoard(c) && !w.active && slot <= SLOT_B && slot != running && 0 < h.len <= SLOT_SIZE
    ensures var (d, v, st) := Begin(c, w, h, slot, running);
            var base := SlotOffset(slot);
            && st == Ok && v == Writer(true, slot, 0, h.len, [], [], h.sha)
            && h.len <= Span(h.len) <= SLOT_SIZE
            && Confined(c, d, base, base + Span(h.len))
            && (d.lit ==> Streams(d, v, []) && d.log == c.log + EraseOps(base, 0, Span(h.len)))
  {
    SpanFits(h.len);
    var base := SlotOffset(slot);
    EraseFromConfined(c, base, 0, Span(h.len));
    var d := EraseFrom(c, base, 0, Span(h.len));
    if d.lit {
      EraseFromClears(c, base, 0, Span(h.len));
    }
  }

  /** A page programmed where the content ends extends it by exactly that page. */
  lemma ProgramPageExtends(c: Chip, slot: byte, q: seq<byte>, page: seq<byte>, span: nat)
    requires OnBoard(c) && slot <= SLOT_B && |page| == PAGE && |q| + PAGE <= span
    requires Begins(c, slot, q, span)
    ensures var (d, ok) := ProgramPage(c, slot, |q|, page);
            d.lit ==> ok && d.log == c.log + [Programming(SlotOffset(slot) + |q|, PAGE)] && Begins(d, slot, q + page, span)
  {
    hide Step, Anded;
    var base, off := SlotOffset(slot), SlotOffset(slot) + |q|;
    var d := Program(c, off, page);
    BlankAfter(c.cells, base, q, PAGE, span);
    ProgramOnErased(page);
    if d.lit {
      ExtendSplice(c.cells, base, q, page, span);
    }
  }

  lemma BlankAfter(cells: seq<byte>, base: nat, q: seq<byte>, n: nat, span: nat)
    requires base + span <= |cells| && |q| + n <= span
    requires cells[base..base + span] == q + Fill(0xFF, span - |q|)
    ensures cells[base + |q|..base + |q| + n] == Fill(0xFF, n)
  {
    var was, blank := cells[base + |q|..base + |q| + n], Fill(0xFF, n);
    forall i | 0 <= i < n
      ensures was[i] == blank[i]
    {
      assert was[i] == cells[base..base + span][|q| + i];
    }
  }

  lemma ExtendSplice(cells: seq<byte>, base: nat, q: seq<byte>, page: seq<byte>, span: nat)
    requires base + span <= |cells| && |q| + |page| <= span
    requires cells[base..base + span] == q + Fill(0xFF, span - |q|)
    ensures var after := Splice(cells, base + |q|, page);
            && after[base..base + span] == q + page + Fill(0xFF, span - |q| - |page|)
            && after[base + |q|..base + |q| + |page|] == page
  {
    var was, now := cells[base..base + span], Splice(cells, base + |q|, page)[base..base + span];
    assert now == was[..|q|] + page + was[|q| + |page|..];
  }

  lemma TakeOnceConfined(c: Chip, w: Writer, data: seq<byte>)
    requires OnBoard(c) && w.Sized() && w.active && w.slot <= SLOT_B && 0 < |data| <= w.total - w.written
    ensures Span(w.total) <= SLOT_SIZE
    ensures var base := SlotOffset(w.slot);
            Confined(c, TakeOnce(c, w, data).0, base, base + Span(w.total))
    ensures TakeOnce(c, w, data).1.slot == w.slot
  {
    SpanFits(w.total);
    if |data| >= PAGE - |w.page| {
      PageFits(w.Done(), w.total);
      var off, base := SlotOffset(w.slot) + w.Done(), SlotOffset(w.slot);
      ConfinedWiden(c, TakeOnce(c, w, data).0, off, off + PAGE, base, base + Span(w.total));
    }
  }

  lemma TakeOnceStreams(c: Chip, w: Writer, p: seq<byte>, data: seq<byte>)
    requires OnBoard(c) && Streams(c, w, p) && 0 < |data| <= w.total - w.written
    ensures var (d, v, n, ok) := TakeOnce(c, w, data);
            d.lit ==> && ok && Streams(d, v, p + data[..n]) && v.slot == w.slot
                      && d.log == c.log + PageOps(SlotOffset(w.slot), w.Done() / PAGE, v.Done() / PAGE)
  {
    hide ProgramPage;
    var base, done := SlotOffset(w.slot), w.Done();
    var (d, v, n, ok) := TakeOnce(c, w, data);
    var q := p + data[..n];
    var page := w.page + data[..n];
    assert page == q[done..] && q[..done] == p[..done];
    assert PAGE * (done / PAGE) == done;
    if |page| == PAGE {
      PageFits(done, w.total);
      ProgramPageExtends(c, w.slot, p[..done], page, Span(w.total));
      assert q[..done + PAGE] == p[..done] + page;
      assert PageOps(base, done / PAGE, done / PAGE + 1) == [Programming(base + done, PAGE)];
    } else {
      assert v.Done() == done;
    }
  }

  lemma {:induction false} TakeConfined(c: Chip, w: Writer, data: seq<byte>)
    requires OnBoard(c) && w.Sized() && w.active && w.slot <= SLOT_B && |data| <= w.total - w.written
    ensures Confined(c, Take(c, w, data).0, SlotOffset(w.slot), SlotOffset(w.slot) + Span(w.total))
    ensures Take(c, w, data).1.slot == w.slot
    decreases |data|
  {
    hide TakeOnce;
    if data != [] {
      TakeOnceConfined(c, w, data);
      var (d, v, n, ok) := TakeOnce(c, w, data);
      if ok {
        TakeConfined(d, v, data[n..]);
        ConfinedTrans(c, d, Take(d, v, data[n..]).0, SlotOffset(w.slot), SlotOffset(w.slot) + Span(w.total));
      }
    }
  }

  lemma {:induction false} TakeStreams(c: Chip, w: Writer, p: seq<byte>, data: seq<byte>)
    requires OnBoard(c) && Streams(c, w, p) && |data| <= w.total - w.written && Take(c, w, data).0.lit
    ensures var (d, v, st) := Take(c, w, data);
            && st == Ok && Streams(d, v, p + data) && v.slot == w.slot && v.total == w.total && w.Done() <= v.Done()
            && d.log == c.log + PageOps(SlotOffset(w.slot), w.Done() / PAGE, v.Done() / PAGE)
    decreases |data|
  {
    hide TakeOnce, Begins;
    var base := SlotOffset(w.slot);
    if data == [] {
      assert p + data == p;
      assert c.log + PageOps(base, w.Done() / PAGE, w.Done() / PAGE) == c.log;
    } else {
      TakeOnceStreams(c, w, p, data);
      var (d, v, n, ok) := TakeOnce(c, w, data);
      TakeOnceConfined(c, w, data);
      if ok {
        TakeConfined(d, v, data[n..]);
        TakeStreams(d, v, p + data[..n], data[n..]);
        assert p + data[..n] + data[n..] == p + data;
        PageOpsConcat(base, w.Done() / PAGE, v.Done() / PAGE, Take(d, v, data[n..]).1.Done() / PAGE);
      }
    }
  }

  /** One frame: refused exactly when it would overrun what was promised. */
  lemma ChunkStreams(c: Chip, w: Writer, p: seq<byte>, data: seq<byte>)
    requires OnBoard(c) && Streams(c, w, p) && w.seen == p
    ensures var (d, v, st) := Chunk(c, w, data);
            d.lit ==> && (st == Ok <==> |p| + |data| <= w.total) && v.slot == w.slot && (st != Ok ==> st == ErrLength && !v.active)
                      && (st == Ok ==> Streams(d, v, p + data) && v.seen == p + data && v.total == w.total
                                       && v.expected == w.expected && w.Done() <= v.Done()
                                       && d.log == c.log + PageOps(SlotOffset(w.slot), w.Done() / PAGE, v.Done() / PAGE))
  {
    hide Take, Begins;
    if |data| <= w.total - w.written {
      var u := w.(seen := w.seen + data);
      if Take(c, u, data).0.lit {
        TakeStreams(c, u, p, data);
        TakeKeepsTerms(c, u, data);
      }
    }
  }

  lemma {:induction false} TakeKeepsTerms(c: Chip, w: Writer, data: seq<byte>)
    requires OnBoard(c) && w.Sized() && w.active && |data| <= w.total - w.written
    ensures var v := Take(c, w, data).1;
            v.seen == w.seen && v.expected == w.expected && v.slot == w.slot && v.total == w.total
    decreases |data|
  {
    hide ProgramPage;
    if data != [] {
      var (d, v, n, ok) := TakeOnce(c, w, data);
      if ok {
        TakeKeepsTerms(d, v, data[n..]);
      }
    }
  }

  lemma ChunkConfined(c: Chip, w: Writer, data: seq<byte>)
    requires OnBoard(c) && w.Sized() && w.slot <= SLOT_B
    ensures var (d, v, st) := Chunk(c, w, data);
            && Confined(c, d, SlotOffset(w.slot), SlotOffset(w.slot) + Span(w.total))
            && v.slot == w.slot && v.total == w.total && (st != Ok ==> !v.active || v == w)
  {
    hide Take;
    if w.active && |data| <= w.total - w.written {
      var u := w.(seen := w.seen + data);
      TakeConfined(c, u, data);
      TakeKeepsTerms(c, u, data);
      TakeFailsInactive(c, u, data);
    }
  }

  lemma {:induction false} TakeFailsInactive(c: Chip, w: Writer, data: seq<byte>)
    requires OnBoard(c) && w.Sized() && w.active && |data| <= w.total - w.written
    ensures Take(c, w, data).2 != Ok ==> !Take(c, w, data).1.active
    decreases |data|
  {
    hide ProgramPage;
    if data != [] {
      var (d, v, n, ok) := TakeOnce(c, w, data);
      if ok {
        TakeFailsInactive(d, v, data[n..]);
      }
    }
  }

  lemma {:induction false} FeedConfined(c: Chip, w: Writer, chunks: seq<seq<byte>>)
    requires OnBoard(c) && w.Sized() && w.slot <= SLOT_B
    ensures var (d, v, _) := Feed(c, w, chunks);
            && Confined(c, d, SlotOffset(w.slot), SlotOffset(w.slot) + Span(w.total))
            && v.slot == w.slot && v.total == w.total
    decreases |chunks|
  {
    hide Chunk;
    if chunks != [] {
      ChunkConfined(c, w, chunks[0]);
      var (d, v, st) := Chunk(c, w, chunks[0]);
      if st == Ok {
        FeedConfined(d, v, chunks[1..]);
        ConfinedTrans(c, d, Feed(d, v, chunks[1..]).0, SlotOffset(w.slot), SlotOffset(w.slot) + Span(w.total));
      }
    }
  }

  lemma {:induction false} FeedStreams(c: Chip, w: Writer, p: seq<byte>, chunks: seq<seq<byte>>)
    requires OnBoard(c) && Streams(c, w, p) && w.seen == p && Feed(c, w, chunks).0.lit
    ensures var (d, v, st) := Feed(c, w, chunks);
            var q := p + Concat(chunks);
            && (st == Ok <==> |q| <= w.total)
            && (st == Ok ==> Streams(d, v, q) && v.seen == q && v.slot == w.slot && v.total == w.total
                             && v.expected == w.expected && w.Done() <= v.Done()
                             && d.log == c.log + PageOps(SlotOffset(w.slot), w.Done() / PAGE, v.Done() / PAGE))
    decreases |chunks|
  {
    hide Chunk, Begins;
    var base := SlotOffset(w.slot);
    if chunks == [] {
      assert p + Concat(chunks) == p;
      assert c.log + PageOps(base, w.Done() / PAGE, w.Done() / PAGE) == c.log;
    } else {
      ChunkStreams(c, w, p, chunks[0]);
      var (d, v, st) := Chunk(c, w, chunks[0]);
      ChunkConfined(c, w, chunks[0]);
      assert p + chunks[0] + Concat(chunks[1..]) == p + Concat(chunks);
      if st == Ok {
        FeedConfined(d, v, chunks[1..]);
        FeedStreams(d, v, p + chunks[0], chunks[1..]);
        var (_, u, su) := Feed(d, v, chunks[1..]);
        if su == Ok {
          PageOpsConcat(base, w.Done() / PAGE, v.Done() / PAGE, u.Done() / PAGE);
        }
      }
    }
  }

  /** The pages a payload occupies. */
  function Pages(len: nat): nat {
    (len + PAGE - 1) / PAGE
  }

  lemma EndConfined(sha: Digest, c: Chip, w: Writer)
    requires OnBoard(c) && w.Sized() && w.slot <= SLOT_B
    ensures Confined(c, End(sha, c, w).0, SlotOffset(w.slot), SlotOffset(w.slot) + Span(w.total))
    ensures !End(sha, c, w).1.active
  {
    if w.active && |w.page| > 0 {
      PageFits(w.Done(), w.total);
      var off, base := SlotOffset(w.slot) + w.Done(), SlotOffset(w.slot);
      ConfinedWiden(c, End(sha, c, w).0, off, off + PAGE, base, base + Span(w.total));
    }
  }

  lemma EndStreams(sha: Digest, c: Chip, w: Writer, p: seq<byte>)
    requires OnBoard(c) && Streams(c, w, p) && w.seen == p
    ensures var (d, v, st) := End(sha, c, w);
            var base := SlotOffset(w.slot);
            d.lit ==> && st == Verdict(sha, p, w.total, w.expected) && !v.active
                      && Begins(d, w.slot, p, Span(w.total)) && w.Done() / PAGE <= Pages(|p|)
                      && d.log == c.log + PageOps(base, w.Done() / PAGE, Pages(|p|))
  {
    hide ProgramPage;
    var base, done := SlotOffset(w.slot), w.Done();
    assert PAGE * (done / PAGE) == done && p == p[..done] + w.page;
    if |w.page| > 0 {
      var page := Padded(w.page);
      PageFits(done, w.total);
      ProgramPageExtends(c, w.slot, p[..done], page, Span(w.total));
      PagesOf(done, |w.page|);
      assert PageOps(base, done / PAGE, done / PAGE + 1) == [Programming(base + done, PAGE)];
      var span := Span(w.total);
      assert p[..done] + page + Fill(0xFF, span - done - PAGE) == p + Fill(0xFF, span - |p|);
    } else {
      PagesOf(done, 0);
      assert c.log + PageOps(base, done / PAGE, done / PAGE) == c.log;
    }
  }

  lemma PagesOf(done: nat, held: nat)
    requires done % PAGE == 0 && held < PAGE
    ensures Pages(done + held) == if held == 0 then done / PAGE else done / PAGE + 1
  {
  }

  lemma Appended(log: seq<Op>, a: seq<Op>, b: seq<Op>)
    ensures log + a + b == log + (a + b)
  {
  }

  lemma LitBefore(c: Chip, d: Chip, lo: nat, hi: nat)
    requires Confined(c, d, lo, hi)
    ensures d.lit ==> c.lit
  {
  }

  lemma VerdictOk(sha: Digest, p: seq<byte>, h: Header)
    ensures Verdict(sha, p, h.len, h.sha) == Ok <==> |p| == h.len && sha(p) == h.sha
  {
  }

  /**
   * A whole transfer, whatever frames it arrives in and wherever the supply fails.
   *
   * If the supply outlasts it: the frames are accepted exactly when they do not overrun the
   * promised length; the verdict is OK exactly for the promised length and digest; the slot
   * starts with the payload, the rest of the cleared span blank; and the part saw the erases,
   * then each page of the payload once, in order. In every case nothing outside the cleared
   * span of the target slot was addressed.
   */
  lemma WholeTransfer(sha: Digest, c: Chip, w: Writer, h: Header, slot: byte, running: byte, chunks: seq<seq<byte>>)
    requires OnBoard(c) && w.Sized() && !w.active
    requires slot <= SLOT_B && slot != running && 0 < h.len <= SLOT_SIZE
    ensures var base, span, p := SlotOffset(slot), Span(h.len), Concat(chunks);
            var (c1, w1, began) := Begin(c, w, h, slot, running);
            began == Ok && w1.Sized() &&
            var (c2, w2, fed) := Feed(c1, w1, chunks);
            var (c3, w3, ended) := End(sha, c2, w2);
            && Confined(c, c3, base, base + span)
            && (c2.lit ==> (fed == Ok <==> |p| <= h.len))
            && (c3.lit && fed == Ok ==>
                && (ended == Ok <==> |p| == h.len && sha(p) == h.sha)
                && Begins(c3, slot, p, span)
                && c3.log == c.log + EraseOps(base, 0, span) + PageOps(base, 0, Pages(|p|)))
  {
    hide Begin, Feed, End, Begins, EraseOps, Verdict, SlotOffset, Pages, PageOps, Confined;
    var base, span, p := SlotOffset(slot), Span(h.len), Concat(chunks);
    BeginStreams(c, w, h, slot, running);
    var (c1, w1, began) := Begin(c, w, h, slot, running);
    FeedConfined(c1, w1, chunks);
    var (c2, w2, fed) := Feed(c1, w1, chunks);
    EndConfined(sha, c2, w2);
    var (c3, w3, ended) := End(sha, c2, w2);
    assert Confined(c, c3, base, base + span) by {
      ConfinedTrans(c, c1, c2, base, base + span);
      ConfinedTrans(c, c2, c3, base, base + span);
    }
    LitBefore(c1, c2, base, base + span);
    LitBefore(c2, c3, base, base + span);
    if c2.lit {
      FeedStreams(c1, w1, [], chunks);
      assert [] + p == p;
      if fed == Ok {
        EndStreams(sha, c2, w2, p);
        VerdictOk(sha, p, h);
        if c3.lit {
          PageOpsConcat(base, 0, w2.Done() / PAGE, Pages(|p|));
          Appended(c1.log, PageOps(base, 0, w2.Done() / PAGE), PageOps(base, w2.Done() / PAGE, Pages(|p|)));
        }
      }
    }
  }
}
