/**
 * NOR flash under a supply that may fail.
 *
 * Erasing sets bits, programming only clears them, and every erase or program is one step. A
 * chip carries the number of further steps its supply will last (`fuel`). When that number is
 * zero the supply fails at the next step: before it, so that it never happens, if there is no
 * `noise`; part-way through, so that the region it addressed is left holding the noise, if there
 * is. Noise is arbitrary, a theorem may constrain it but the code cannot see it. Nothing happens
 * afterwards.
 */
module Flash {
  import opened Bytes

  const SECTOR: nat := 4096
  const PAGE: nat := 256

  datatype Op = Erasing(off: nat, len: nat) | Programming(off: nat, len: nat)

  datatype Chip = Chip(cells: seq<byte>, fuel: nat, lit: bool, noise: Option<seq<byte>>, log: seq<Op>) {
    predicate Sound() {
      Covers(noise, |cells|)
    }
  }

  predicate Covers(noise: Option<seq<byte>>, size: nat) {
    noise.Some? ==> |noise.value| == size
  }

  /** What programming `data` over `was` leaves in one byte. */
  function And(was: byte, data: byte): byte {
    FromBits(seq(8, i requires 0 <= i < 8 => Bits(was)[i] && Bits(data)[i]))
  }

  function Anded(was: seq<byte>, data: seq<byte>): (r: seq<byte>)
    requires |was| == |data|
    ensures |r| == |data|
  {
    seq(|data|, i requires 0 <= i < |data| => And(was[i], data[i]))
  }

  lemma AndErased(b: byte)
    ensures And(0xFF, b) == b
  {
    forall k | 0 <= k < 8
      ensures Bits(0xFF)[k]
    {
      assert ToBits(0xFF, 8) == [true] + ([true] + ToBits(0x3F, 6));
      assert ToBits(0x3F, 6) == [true] + ([true] + ToBits(0xF, 4));
      assert ToBits(0xF, 4) == [true] + ([true] + ToBits(0x3, 2));
    }
    assert seq(8, k requires 0 <= k < 8 => Bits(0xFF)[k] && Bits(b)[k]) == Bits(b);
    FromBitsOfBits(b);
  }

  lemma ProgramOnErased(data: seq<byte>)
    ensures Anded(Fill(0xFF, |data|), data) == data
  {
    forall i | 0 <= i < |data|
      ensures Anded(Fill(0xFF, |data|), data)[i] == data[i]
    {
      AndErased(data[i]);
    }
  }

  /** One flash step at `op`, leaving `result` in its region if the supply holds. */
  function Step(c: Chip, op: Op, result: seq<byte>): (d: Chip)
    requires c.Sound() && op.off + op.len <= |c.cells| && |result| == op.len
    ensures d.Sound() && Confined(c, d, op.off, op.off + op.len)
  {
    if !c.lit then
      c
    else if c.fuel == 0 then
      if c.noise.None? then c.(lit := false)
      else
        var torn := c.noise.value[op.off..op.off + op.len];
        c.(cells := Splice(c.cells, op.off, torn), lit := false, log := c.log + [op])
    else
      c.(cells := Splice(c.cells, op.off, result), fuel := c.fuel - 1, log := c.log + [op])
  }

  function Erase(c: Chip, off: nat, n: nat): (d: Chip)
    requires c.Sound() && off + n <= |c.cells|
    ensures d.Sound() && Confined(c, d, off, off + n)
    ensures d.lit ==> c.lit && d.cells == Splice(c.cells, off, Fill(0xFF, n)) && d.log == c.log + [Erasing(off, n)]
  {
    Step(c, Erasing(off, n), Fill(0xFF, n))
  }

  function Program(c: Chip, off: nat, data: seq<byte>): (d: Chip)
    requires c.Sound() && off + |data| <= |c.cells|
    ensures d.Sound() && Confined(c, d, off, off + |data|)
    ensures d.lit ==> c.lit && d.log == c.log + [Programming(off, |data|)]
                      && d.cells == Splice(c.cells, off, Anded(c.cells[off..off + |data|], data))
  {
    Step(c, Programming(off, |data|), Anded(c.cells[off..off + |data|], data))
  }

  predicate Inside(op: Op, lo: nat, hi: nat) {
    lo <= op.off && op.off + op.len <= hi
  }

  /** From `c` to `d`, only steps inside [lo, hi) were attempted and only cells there changed. */
  ghost predicate Confined(c: Chip, d: Chip, lo: nat, hi: nat) {
    && |d.cells| == |c.cells| && d.noise == c.noise
    && (d.lit ==> c.lit)
    && (forall i :: 0 <= i < |c.cells| && !(lo <= i < hi) ==> d.cells[i] == c.cells[i])
    && c.log <= d.log
    && (forall i :: |c.log| <= i < |d.log| ==> Inside(d.log[i], lo, hi))
  }

  lemma ConfinedTrans(c: Chip, d: Chip, e: Chip, lo: nat, hi: nat)
    requires Confined(c, d, lo, hi) && Confined(d, e, lo, hi)
    ensures Confined(c, e, lo, hi)
  {
  }

  lemma ConfinedWiden(c: Chip, d: Chip, lo: nat, hi: nat, lo': nat, hi': nat)
    requires Confined(c, d, lo, hi) && lo' <= lo && hi <= hi'
    ensures Confined(c, d, lo', hi')
  {
  }

  lemma ConfinedElsewhere(c: Chip, d: Chip, lo: nat, hi: nat, from: nat, to: nat)
    requires Confined(c, d, lo, hi) && from <= to <= |c.cells|
    requires to <= lo || hi <= from
    ensures d.cells[from..to] == c.cells[from..to]
  {
  }

  /** The part itself, as the code sees it: two operations and memory-mapped reads. */
  class FlashPart {
    var cells: seq<byte>
    var fuel: nat
    var lit: bool
    var noise: Option<seq<byte>>
    var log: seq<Op>

    ghost function Now(): Chip
      reads this
    {
      Chip(cells, fuel, lit, noise, log)
    }

    constructor (chip: Chip)
      ensures Now() == chip
    {
      cells, fuel, lit, noise, log := chip.cells, chip.fuel, chip.lit, chip.noise, chip.log;
    }

    /** flash_range_erase. */
    method RangeErase(off: nat, n: nat)
      requires Now().Sound() && off + n <= |cells|
      modifies this
      ensures Now() == Erase(old(Now()), off, n)
    {
      if lit {
        if fuel == 0 {
          if noise.Some? {
            log := log + [Erasing(off, n)];
            cells := Splice(cells, off, noise.value[off..off + n]);
          }
          lit := false;
        } else {
          log := log + [Erasing(off, n)];
          cells := Splice(cells, off, Fill(0xFF, n));
          fuel := fuel - 1;
        }
      }
    }

    /** flash_range_program. */
    method RangeProgram(off: nat, data: seq<byte>)
      requires Now().Sound() && off + |data| <= |cells|
      modifies this
      ensures Now() == Program(old(Now()), off, data)
    {
      if lit {
        if fuel == 0 {
          if noise.Some? {
            log := log + [Programming(off, |data|)];
            cells := Splice(cells, off, noise.value[off..off + |data|]);
          }
          lit := false;
        } else {
          log := log + [Programming(off, |data|)];
          cells := Splice(cells, off, Anded(cells[off..off + |data|], data));
          fuel := fuel - 1;
        }
      }
    }
  }
}
