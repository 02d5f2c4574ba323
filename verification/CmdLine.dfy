/** Splitting a command line into arguments (firmware/src/usbcfg/cmdline.c). */
module CmdLine {
  import opened Bytes
  import Utf8

  const MAX_LINE: nat := 512
  const MAX_ARGS: nat := 6
  const SPACE: byte := 0x20
  const QUOTE: byte := 0x22
  const BACKSLASH: byte := 0x5C

  datatype Status = Fine | TooLong | BadFrame | BadArgs

  /** The arguments read so far, how the parse ended, and how many bytes of storage it wrote. */
  datatype Parsed = Parsed(status: Status, args: seq<seq<byte>>, used: nat)

  /** One argument: its bytes, where the line goes on, and whether it was well formed. */
  datatype Token = Token(text: seq<byte>, next: nat, ok: bool)

  function SkipSpaces(line: seq<byte>, i: nat): (j: nat)
    requires i <= |line|
    ensures i <= j <= |line| && (j < |line| ==> line[j] != SPACE)
    ensures forall k :: i <= k < j ==> line[k] == SPACE
    decreases |line| - i
  {
    if i < |line| && line[i] == SPACE then SkipSpaces(line, i + 1) else i
  }

  /** Where an argument may stop: at a space or at the end of the line. */
  predicate Stops(line: seq<byte>, i: nat) {
    i == |line| || (i < |line| && line[i] == SPACE)
  }

  /** Inside quotes: two escapes, and the closing quote must end the argument. */
  function ReadQuoted(line: seq<byte>, i: nat, text: seq<byte>): (t: Token)
    requires i <= |line|
    ensures t.next <= |line| && |t.text| + i <= |text| + t.next
    ensures t.ok ==> |t.text| + i < |text| + t.next && Stops(line, t.next)
    decreases |line| - i
  {
    if i == |line| then Token(text, i, false)
    else if line[i] == BACKSLASH then
      if i + 1 >= |line| then Token(text, i, false)
      else if line[i + 1] != QUOTE && line[i + 1] != BACKSLASH then Token(text, i, false)
      else ReadQuoted(line, i + 2, text + [line[i + 1]])
    else if line[i] == QUOTE then Token(text, i + 1, Stops(line, i + 1))
    else ReadQuoted(line, i + 1, text + [line[i]])
  }

  function ReadBare(line: seq<byte>, i: nat, text: seq<byte>): (t: Token)
    requires i <= |line|
    ensures t.next <= |line| && |t.text| + i == |text| + t.next
    ensures t.ok ==> Stops(line, t.next) && (t.next == i ==> Stops(line, i))
    decreases |line| - i
  {
    if Stops(line, i) then Token(text, i, true)
    else if line[i] == QUOTE || line[i] == BACKSLASH then Token(text, i, false)
    else ReadBare(line, i + 1, text + [line[i]])
  }

  /** One argument. Quotes cost two bytes that are not stored; a bare argument is stored as it is. */
  function ReadToken(line: seq<byte>, i: nat): (t: Token)
    requires i < |line| && line[i] != SPACE
    ensures t.next <= |line| && |t.text| + i <= t.next
    ensures t.ok ==> i < t.next && Stops(line, t.next)
    ensures t.ok ==> if line[i] == QUOTE then |t.text| + i + 2 <= t.next else |t.text| + i == t.next
  {
    if line[i] == QUOTE then ReadQuoted(line, i + 1, []) else ReadBare(line, i, [])
  }

  /** The loop of rw_cmdline_parse, from `i`. */
  function ParseFrom(line: seq<byte>, i: nat, args: seq<seq<byte>>, used: nat): Parsed
    requires i <= |line|
    decreases |line| - i
  {
    var j := SkipSpaces(line, i);
    if j == |line| then Parsed(Fine, args, used)
    else if |args| >= MAX_ARGS then Parsed(BadArgs, args, used)
    else
      var t := ReadToken(line, j);
      if !t.ok then Parsed(BadFrame, args, used + |t.text|)
      else ParseFrom(line, t.next, args + [t.text], used + |t.text| + 1)
  }

  /** rw_cmdline_parse. */
  function Parse(line: seq<byte>): Parsed {
    if |line| + 1 > MAX_LINE then Parsed(TooLong, [], 0)
    else if !Utf8.Valid(line) then Parsed(BadFrame, [], 0)
    else ParseFrom(line, 0, [], 0)
  }

  // The code, writing into its storage

  /** The arguments in what has been written of storage: each from its start to its terminator. */
  ghost predicate Holds(written: seq<byte>, starts: seq<nat>, args: seq<seq<byte>>) {
    && |starts| == |args|
    && forall k :: 0 <= k < |args| ==> HoldsOne(written, starts[k], args[k])
  }

  ghost predicate HoldsOne(written: seq<byte>, start: nat, arg: seq<byte>) {
    start + |arg| < |written| && written[start..start + |arg|] == arg && written[start + |arg|] == 0
  }

  lemma HoldsMore(written: seq<byte>, starts: seq<nat>, args: seq<seq<byte>>, text: seq<byte>)
    requires Holds(written, starts, args)
    ensures Holds(written + text + [0], starts + [|written|], args + [text])
  {
    var now := written + text + [0];
    forall k | 0 <= k < |args|
      ensures HoldsOne(now, starts[k], args[k])
    {
      assert HoldsOne(written, starts[k], args[k]);
      assert now[starts[k]..starts[k] + |args[k]|] == written[starts[k]..starts[k] + |args[k]|];
    }
    assert now[|written|..|written| + |text|] == text;
  }

  class CommandLine {
    const storage: array<byte>
    var starts: seq<nat>

    ghost predicate Valid() {
      storage.Length == MAX_LINE
    }

    constructor ()
      ensures Valid() && fresh(storage)
    {
      storage := new byte[MAX_LINE](_ => 0);
      starts := [];
    }

    /** One quoted argument into storage from `w`, its opening quote already passed. */
    method ReadQuotedInto(line: seq<byte>, i: nat, w: nat) returns (next: nat, end: nat, ok: bool)
      requires Valid() && i <= |line| && w + (|line| - i) < MAX_LINE
      modifies storage
      ensures var t := ReadQuoted(line, i, []);
              next == t.next && ok == t.ok && w <= end < MAX_LINE
              && storage[..end] == old(storage[..w]) + t.text
    {
      next, end := i, w;
      ghost var pre, text: seq<byte> := storage[..w], [];
      assert pre + text == pre;
      while next < |line| && line[next] != QUOTE
        invariant i <= next <= |line| && w <= end && end - w <= next - i
        invariant storage[..end] == pre + text && ReadQuoted(line, next, text) == ReadQuoted(line, i, [])
      {
        var c := line[next];
        if c == BACKSLASH {
          if next + 1 >= |line| || (line[next + 1] != QUOTE && line[next + 1] != BACKSLASH) {
            return next, end, false;
          }
          c := line[next + 1];
          next := next + 1;
        }
        Append(end, c);
        assert pre + text + [c] == pre + (text + [c]);
        text := text + [c];
        end := end + 1;
        next := next + 1;
      }
      if next == |line| {
        return next, end, false;
      }
      next := next + 1;
      ok := next == |line| || line[next] == SPACE;
    }

    method Append(w: nat, c: byte)
      requires Valid() && w < MAX_LINE
      modifies storage
      ensures storage[..w + 1] == old(storage[..w]) + [c]
    {
      storage[w] := c;
    }

    /** One bare argument into storage from `w`. */
    method ReadBareInto(line: seq<byte>, i: nat, w: nat) returns (next: nat, end: nat, ok: bool)
      requires Valid() && i <= |line| && w + (|line| - i) < MAX_LINE
      modifies storage
      ensures var t := ReadBare(line, i, []);
              next == t.next && ok == t.ok && w <= end < MAX_LINE
              && storage[..end] == old(storage[..w]) + t.text
    {
      next, end := i, w;
      ghost var pre, text: seq<byte> := storage[..w], [];
      assert pre + text == pre;
      while next < |line| && line[next] != SPACE
        invariant i <= next <= |line| && end - w == next - i
        invariant storage[..end] == pre + text && ReadBare(line, next, text) == ReadBare(line, i, [])
      {
        if line[next] == QUOTE || line[next] == BACKSLASH {
          return next, end, false;
        }
        Append(end, line[next]);
        assert pre + text + [line[next]] == pre + (text + [line[next]]);
        text := text + [line[next]];
        end := end + 1;
        next := next + 1;
      }
      ok := true;
    }

    /** One argument and its terminator. */
    method ReadInto(line: seq<byte>, i: nat, w: nat) returns (next: nat, end: nat, ok: bool)
      requires Valid() && i < |line| && line[i] != SPACE && w + (|line| - i) < MAX_LINE
      modifies storage
      ensures var t := ReadToken(line, i);
              next == t.next && ok == t.ok
              && (ok ==> end == w + |t.text| + 1 && end <= MAX_LINE
                         && storage[..end] == old(storage[..w]) + t.text + [0])
    {
      if line[i] == QUOTE {
        next, end, ok := ReadQuotedInto(line, i + 1, w);
      } else {
        next, end, ok := ReadBareInto(line, i, w);
      }
      if ok {
        ghost var text := ReadToken(line, i).text;
        assert storage[..end] == old(storage[..w]) + text;
        Append(end, 0);
        end := end + 1;
      }
    }

    /** rw_cmdline_parse: the status the line deserves and, when it is fine, its arguments in storage. */
    method ParseLine(line: seq<byte>) returns (status: Status)
      requires Valid() && 0 !in line
      modifies this, storage
      ensures status == Parse(line).status
      ensures status == Fine ==>
                Parse(line).used <= MAX_LINE && Holds(storage[..Parse(line).used], starts, Parse(line).args)
    {
      hide ReadToken, Holds, HoldsOne, Utf8.Valid;
      starts := [];
      if |line| + 1 > MAX_LINE {
        return TooLong;
      }
      var valid := Utf8.IsValidString(line);
      if !valid {
        return BadFrame;
      }
      var i: nat, w: nat := 0, 0;
      ghost var args: seq<seq<byte>> := [];
      NothingHeld();
      assert storage[..w] == [];
      while i < |line|
        invariant i <= |line| && w <= i + 1 && (w > i ==> Stops(line, i))
        invariant Holds(storage[..w], starts, args)
        invariant ParseFrom(line, i, args, w) == Parse(line)
        decreases |line| - i
      {
        Counted(storage[..w], starts, args);
        ghost var start := i;
        while i < |line| && line[i] == SPACE
          invariant start <= i <= |line| && SkipSpaces(line, i) == SkipSpaces(line, start)
          invariant w <= i || (i == start && Stops(line, i))
        {
          i := i + 1;
        }
        if i == |line| {
          break;
        }
        if |starts| >= MAX_ARGS {
          return BadArgs;
        }
        ghost var t := ReadToken(line, i);
        ghost var written := storage[..w];
        var next, end, ok := ReadInto(line, i, w);
        if !ok {
          return BadFrame;
        }
        HoldsMore(written, starts, args, t.text);
        ParseStep(line, start, args, w);
        starts := starts + [w];
        args := args + [t.text];
        i, w := next, end;
      }
      status := Fine;
    }
  }

  lemma NothingHeld()
    ensures Holds([], [], [])
  {
  }

  lemma Counted(written: seq<byte>, starts: seq<nat>, args: seq<seq<byte>>)
    requires Holds(written, starts, args)
    ensures |starts| == |args|
  {
  }

  lemma ParseStep(line: seq<byte>, i: nat, args: seq<seq<byte>>, used: nat)
    requires i <= |line| && SkipSpaces(line, i) < |line| && |args| < MAX_ARGS
    requires ReadToken(line, SkipSpaces(line, i)).ok
    ensures var t := ReadToken(line, SkipSpaces(line, i));
            ParseFrom(line, i, args, used) == ParseFrom(line, t.next, args + [t.text], used + |t.text| + 1)
  {
    hide ReadToken, SkipSpaces;
  }

  // What it writes

  /** After each argument, at most one byte more has been written than read. */
  lemma {:induction false} WritesBounded(line: seq<byte>, i: nat, args: seq<seq<byte>>, used: nat)
    requires i <= |line| && used <= i + 1 && (used == i + 1 ==> Stops(line, i))
    ensures ParseFrom(line, i, args, used).used <= |line| + 1
    decreases |line| - i
  {
    hide ReadToken;
    var j := SkipSpaces(line, i);
    if j < |line| && |args| < MAX_ARGS {
      var t := ReadToken(line, j);
      if t.ok {
        WritesBounded(line, t.next, args + [t.text], used + |t.text| + 1);
      }
    }
  }

  /** Every line, accepted or refused, writes at most its length and one byte, so storage is never overrun. */
  lemma StorageSuffices(line: seq<byte>)
    ensures Parse(line).used <= |line| + 1 && Parse(line).used <= MAX_LINE
  {
    if |line| + 1 <= MAX_LINE && Utf8.Valid(line) {
      WritesBounded(line, 0, [], 0);
    }
  }

  // One buffer for both

  /** An argument unescaped within the buffer: the buffer then, where reading and writing stand, and whether it was well formed. */
  datatype Place = Place(buf: seq<byte>, next: nat, w: nat, ok: bool)

  function SkipIn(buf: seq<byte>, len: nat, i: nat): (j: nat)
    requires i <= len <= |buf|
    ensures i <= j <= len && (j < len ==> buf[j] != SPACE)
    decreases len - i
  {
    if i < len && buf[i] == SPACE then SkipIn(buf, len, i + 1) else i
  }

  function QuotedInPlace(buf: seq<byte>, len: nat, i: nat, w: nat): (p: Place)
    requires i <= len <= |buf| && w + (len - i) <= |buf|
    ensures |p.buf| == |buf| && i <= p.next <= len && w <= p.w && p.w - w <= p.next - i && (p.ok ==> p.w - w < p.next - i)
    decreases len - i
  {
    if i == len then Place(buf, i, w, false)
    else if buf[i] == BACKSLASH then
      if i + 1 >= len then Place(buf, i, w, false)
      else if buf[i + 1] != QUOTE && buf[i + 1] != BACKSLASH then Place(buf, i, w, false)
      else QuotedInPlace(buf[w := buf[i + 1]], len, i + 2, w + 1)
    else if buf[i] == QUOTE then Place(buf, i + 1, w, i + 1 == len || buf[i + 1] == SPACE)
    else QuotedInPlace(buf[w := buf[i]], len, i + 1, w + 1)
  }

  function BareInPlace(buf: seq<byte>, len: nat, i: nat, w: nat): (p: Place)
    requires i <= len <= |buf| && w + (len - i) <= |buf|
    ensures |p.buf| == |buf| && i <= p.next <= len && w <= p.w && p.w - w == p.next - i
    ensures p.ok && i < len && buf[i] != SPACE ==> i < p.next
    ensures w == i + 1 && i < len && buf[i] == 0 ==> p.ok && p.next == len
    decreases len - i
  {
    if i == len || buf[i] == SPACE then Place(buf, i, w, true)
    else if buf[i] == QUOTE || buf[i] == BACKSLASH then Place(buf, i, w, false)
    else BareInPlace(buf[w := buf[i]], len, i + 1, w + 1)
  }

  function TokenInPlace(buf: seq<byte>, len: nat, i: nat, w: nat): (p: Place)
    requires i < len <= |buf| && w + (len - i) <= |buf| && buf[i] != SPACE
    ensures |p.buf| == |buf| && i <= p.next <= len && w <= p.w && p.w - w <= p.next - i && (p.ok ==> i < p.next)
  {
    if buf[i] == QUOTE then QuotedInPlace(buf, len, i + 1, w) else BareInPlace(buf, len, i, w)
  }

  /** How a parse in one buffer ends: the buffer, where the arguments start in it, and how far it wrote. */
  datatype Split = Split(status: Status, buf: seq<byte>, starts: seq<nat>, used: nat)

  /** A terminator stored. One that falls past the end of the buffer is not in it, but counts as written. */
  function Put(buf: seq<byte>, w: nat, x: byte): (after: seq<byte>)
    ensures |after| == |buf|
  {
    if w < |buf| then buf[w := x] else buf
  }

  /**
   * Where writing can stand: not past reading, except by one, when what is read next is the
   * terminator just written, and at the end of the line, by two. The buffer holds the line and its
   * terminator, so by then it has been left.
   */
  predicate Room(buf: seq<byte>, len: nat, i: nat, w: nat)
    requires i <= len
  {
    len + 1 <= |buf| && (w <= i || (i == len && w <= len + 2) || (w == i + 1 && i < len && buf[i] == 0))
  }

  function FromPlace(buf: seq<byte>, len: nat, i: nat, w: nat, starts: seq<nat>): (r: Split)
    requires i <= len && Room(buf, len, i, w)
    ensures |r.buf| == |buf|
    decreases len - i
  {
    var j := SkipIn(buf, len, i);
    if j == len then Split(Fine, buf, starts, w)
    else if |starts| >= MAX_ARGS then Split(BadArgs, buf, starts, w)
    else
      var p := TokenInPlace(buf, len, j, w);
      if !p.ok then Split(BadFrame, p.buf, starts, p.w)
      else FromPlace(Put(p.buf, p.w, 0), len, p.next, p.w + 1, starts + [w])
  }

  /** rw_cmdline_parse with `line` and `storage` the same buffer. */
  function InPlace(buf: seq<byte>, len: nat): (r: Split)
    requires len + 1 <= |buf|
  {
    if len + 1 > MAX_LINE then Split(TooLong, buf, [], 0)
    else if !Utf8.Valid(buf[..len]) then Split(BadFrame, buf, [], 0)
    else FromPlace(buf, len, 0, 0, [])
  }

  lemma StillRoom(buf: seq<byte>, len: nat, i: nat, w: nat)
    requires i <= len && Room(buf, len, i, w) && SkipIn(buf, len, i) < len
    ensures var j := SkipIn(buf, len, i);
            && w + (len - j) <= |buf|
            && (var p := TokenInPlace(buf, len, j, w);
                p.ok ==> p.w <= |buf| && Room(Put(p.buf, p.w, 0), len, p.next, p.w + 1))
  {
  }

  method ReadQuotedInPlace(buf: array<byte>, len: nat, i: nat, w: nat) returns (next: nat, end: nat, ok: bool)
    requires i <= len <= buf.Length && w + (len - i) <= buf.Length
    modifies buf
    ensures Place(buf[..], next, end, ok) == QuotedInPlace(old(buf[..]), len, i, w)
  {
    ghost var whole := QuotedInPlace(buf[..], len, i, w);
    next, end := i, w;
    while next < len && buf[next] != QUOTE
      invariant next <= len && end + (len - next) <= buf.Length
      invariant QuotedInPlace(buf[..], len, next, end) == whole
    {
      var c := buf[next];
      if c == BACKSLASH {
        if next + 1 >= len || (buf[next + 1] != QUOTE && buf[next + 1] != BACKSLASH) {
          return next, end, false;
        }
        c := buf[next + 1];
        next := next + 1;
      }
      ghost var was := buf[..];
      buf[end] := c;
      assert buf[..] == was[end := c];
      end := end + 1;
      next := next + 1;
    }
    if next == len {
      return next, end, false;
    }
    next := next + 1;
    ok := next == len || buf[next] == SPACE;
  }

  method ReadBareInPlace(buf: array<byte>, len: nat, i: nat, w: nat) returns (next: nat, end: nat, ok: bool)
    requires i <= len <= buf.Length && w + (len - i) <= buf.Length
    modifies buf
    ensures Place(buf[..], next, end, ok) == BareInPlace(old(buf[..]), len, i, w)
  {
    ghost var whole := BareInPlace(buf[..], len, i, w);
    next, end := i, w;
    while next < len && buf[next] != SPACE
      invariant next <= len && end + (len - next) <= buf.Length
      invariant BareInPlace(buf[..], len, next, end) == whole
    {
      if buf[next] == QUOTE || buf[next] == BACKSLASH {
        return next, end, false;
      }
      ghost var was := buf[..];
      buf[end] := buf[next];
      assert buf[..] == was[end := was[next]];
      end := end + 1;
      next := next + 1;
    }
    ok := true;
  }

  /** One argument, unescaped within the buffer. */
  method ReadInPlace(buf: array<byte>, len: nat, i: nat, w: nat) returns (next: nat, end: nat, ok: bool)
    requires i < len <= buf.Length && w + (len - i) <= buf.Length && buf[i] != SPACE
    modifies buf
    ensures Place(buf[..], next, end, ok) == TokenInPlace(old(buf[..]), len, i, w)
  {
    hide QuotedInPlace, BareInPlace;
    if buf[i] == QUOTE {
      next, end, ok := ReadQuotedInPlace(buf, len, i + 1, w);
    } else {
      next, end, ok := ReadBareInPlace(buf, len, i, w);
    }
  }

  /**
   * The code on one buffer, for a line that ends at its first terminator. `w` is how far it writes; a
   * terminator that the code would write past the end is not stored.
   */
  method ParseInPlace(buf: array<byte>, len: nat) returns (status: Status, starts: seq<nat>, w: nat)
    requires len + 1 <= buf.Length && 0 !in buf[..len]
    modifies buf
    ensures var r := InPlace(old(buf[..]), len);
            status == r.status && starts == r.starts && w == r.used && buf[..] == r.buf
  {
    hide Utf8.Valid, TokenInPlace, FromPlace, Put;
    starts, w := [], 0;
    if len + 1 > MAX_LINE {
      status := TooLong;
      return;
    }
    assert buf[..][..len] == buf[..len];
    var valid := Utf8.IsValidString(buf[..len]);
    if !valid {
      status := BadFrame;
      return;
    }
    ghost var whole := InPlace(buf[..], len);
    var i: nat := 0;
    while i < len
      invariant i <= len && Room(buf[..], len, i, w) && FromPlace(buf[..], len, i, w, starts) == whole
      decreases len - i
    {
      ghost var now, from := buf[..], i;
      while i < len && buf[i] == SPACE
        invariant from <= i <= len && SkipIn(now, len, i) == SkipIn(now, len, from) && buf[..] == now
      {
        i := i + 1;
      }
      if i == len || |starts| >= MAX_ARGS {
        PlaceEnds(now, len, from, w, starts);
        status := if i == len then Fine else BadArgs;
        return;
      }
      PlaceStep(now, len, from, w, starts);
      StillRoom(now, len, from, w);
      var next, end, ok := ReadInPlace(buf, len, i, w);
      if !ok {
        status, w := BadFrame, end;
        return;
      }
      ghost var was := buf[..];
      if end < buf.Length {
        buf[end] := 0;
      }
      PutDone(was, end, buf[..]);
      starts := starts + [w];
      i, w := next, end + 1;
    }
    PlaceEnds(buf[..], len, len, w, starts);
    status := Fine;
  }

  lemma PutDone(was: seq<byte>, w: nat, now: seq<byte>)
    requires now == if w < |was| then was[w := 0] else was
    ensures now == Put(was, w, 0)
  {
  }

  // When that comes to the same

  /** What is still to be read from `i` on is as it was. */
  predicate Ahead(buf: seq<byte>, line: seq<byte>, i: nat) {
    |line| <= |buf| && forall k :: i <= k < |line| ==> buf[k] == line[k]
  }

  lemma WholeLineAhead(buf: seq<byte>, line: seq<byte>)
    requires |line| <= |buf| && buf[..|line|] == line
    ensures Ahead(buf, line, 0)
  {
  }

  lemma QuotedUnfolds(buf: seq<byte>, len: nat, i: nat, w: nat)
    requires i < len <= |buf| && w + (len - i) <= |buf|
    ensures QuotedInPlace(buf, len, i, w) ==
            if buf[i] == QUOTE then Place(buf, i + 1, w, i + 1 == len || buf[i + 1] == SPACE)
            else if buf[i] != BACKSLASH then QuotedInPlace(buf[w := buf[i]], len, i + 1, w + 1)
            else if i + 1 < len && (buf[i + 1] == QUOTE || buf[i + 1] == BACKSLASH)
            then QuotedInPlace(buf[w := buf[i + 1]], len, i + 2, w + 1)
            else Place(buf, i, w, false)
  {
  }

  lemma ReadUnfolds(line: seq<byte>, i: nat, text: seq<byte>)
    requires i < |line|
    ensures ReadQuoted(line, i, text) ==
            if line[i] == QUOTE then Token(text, i + 1, Stops(line, i + 1))
            else if line[i] != BACKSLASH then ReadQuoted(line, i + 1, text + [line[i]])
            else if i + 1 < |line| && (line[i + 1] == QUOTE || line[i + 1] == BACKSLASH)
            then ReadQuoted(line, i + 2, text + [line[i + 1]])
            else Token(text, i, false)
  {
  }

  lemma NothingToRead(buf: seq<byte>, line: seq<byte>, w: nat, text: seq<byte>)
    requires |line| <= |buf| && w <= |buf|
    ensures QuotedInPlace(buf, |line|, |line|, w) == Place(buf, |line|, w, false)
    ensures ReadQuoted(line, |line|, text) == Token(text, |line|, false)
  {
  }

  /** Unescaping behind the reading: the text is the token's, and what is still to be read is untouched. */
  lemma {:induction false} QuotedTracks(buf: seq<byte>, line: seq<byte>, i: nat, w: nat, pre: seq<byte>, text: seq<byte>)
    requires w <= i <= |line| && Ahead(buf, line, i) && buf[..w] == pre + text
    ensures var (p, t) := (QuotedInPlace(buf, |line|, i, w), ReadQuoted(line, i, text));
            && p.next == t.next && p.ok == t.ok && p.buf[..p.w] == pre + t.text
            && Ahead(p.buf, line, p.next) && p.w <= p.next
    decreases |line| - i
  {
    hide QuotedInPlace, ReadQuoted;
    if i == |line| {
      NothingToRead(buf, line, w, text);
    } else {
      QuotedUnfolds(buf, |line|, i, w);
      ReadUnfolds(line, i, text);
      SameAt(buf, line, i);
      if line[i] == BACKSLASH {
        if i + 1 < |line| && (line[i + 1] == QUOTE || line[i + 1] == BACKSLASH) {
          Written(buf, line, i, w, pre, text, line[i + 1], i + 2);
          QuotedTracks(buf[w := line[i + 1]], line, i + 2, w + 1, pre, text + [line[i + 1]]);
        }
      } else if line[i] != QUOTE {
        Written(buf, line, i, w, pre, text, line[i], i + 1);
        QuotedTracks(buf[w := line[i]], line, i + 1, w + 1, pre, text + [line[i]]);
      }
    }
  }

  lemma SameAt(buf: seq<byte>, line: seq<byte>, i: nat)
    requires i < |line| && Ahead(buf, line, i)
    ensures buf[i] == line[i] && Ahead(buf, line, i + 1)
    ensures i + 1 < |line| ==> buf[i + 1] == line[i + 1]
  {
  }

  lemma Written(buf: seq<byte>, line: seq<byte>, i: nat, w: nat, pre: seq<byte>, text: seq<byte>, c: byte, next: nat)
    requires w <= i < next <= |line| && Ahead(buf, line, i) && buf[..w] == pre + text
    ensures var after := buf[w := c];
            Ahead(after, line, next) && after[..w + 1] == pre + (text + [c])
  {
    assert buf[w := c][..w + 1] == buf[..w] + [c];
  }

  lemma {:induction false} BareTracks(buf: seq<byte>, line: seq<byte>, i: nat, w: nat, pre: seq<byte>, text: seq<byte>)
    requires w <= i <= |line| && Ahead(buf, line, i) && buf[..w] == pre + text
    ensures var (p, t) := (BareInPlace(buf, |line|, i, w), ReadBare(line, i, text));
            && p.next == t.next && p.ok == t.ok && p.buf[..p.w] == pre + t.text
            && Ahead(p.buf, line, p.next) && p.w <= p.next
    decreases |line| - i
  {
    if i < |line| {
      assert buf[i] == line[i];
      if line[i] != SPACE && line[i] != QUOTE && line[i] != BACKSLASH {
        Written(buf, line, i, w, pre, text, line[i], i + 1);
        BareTracks(buf[w := line[i]], line, i + 1, w + 1, pre, text + [line[i]]);
      }
    }
  }

  lemma TokenTracks(buf: seq<byte>, line: seq<byte>, i: nat, w: nat)
    requires w <= i < |line| && Ahead(buf, line, i) && line[i] != SPACE
    ensures buf[i] == line[i]
    ensures var (p, t) := (TokenInPlace(buf, |line|, i, w), ReadToken(line, i));
            && p.next == t.next && p.ok == t.ok && p.w == w + |t.text| && p.buf[..p.w] == buf[..w] + t.text
            && Ahead(p.buf, line, p.next)
  {
    hide QuotedInPlace, ReadQuoted, BareInPlace, ReadBare;
    assert buf[i] == line[i];
    assert buf[..w] == buf[..w] + [];
    if line[i] == QUOTE {
      QuotedTracks(buf, line, i + 1, w, buf[..w], []);
    } else {
      BareTracks(buf, line, i, w, buf[..w], []);
    }
  }

  lemma {:induction false} SkipTracks(buf: seq<byte>, line: seq<byte>, i: nat)
    requires i <= |line| && Ahead(buf, line, i)
    ensures SkipIn(buf, |line|, i) == SkipSpaces(line, i)
    decreases |line| - i
  {
    if i < |line| {
      SkipTracks(buf, line, i + 1);
    }
  }

  /** Writing stands behind reading, with at least the next space between them. */
  predicate Behind(line: seq<byte>, i: nat, w: nat)
    requires i <= |line|
  {
    w < i || (w == i && if i == 0 then line == [] || line[0] == SPACE || line[0] == QUOTE else Stops(line, i))
  }

  lemma PlaceStep(buf: seq<byte>, len: nat, i: nat, w: nat, starts: seq<nat>)
    requires i <= len && Room(buf, len, i, w) && SkipIn(buf, len, i) < len && |starts| < MAX_ARGS
    ensures var p := TokenInPlace(buf, len, SkipIn(buf, len, i), w);
            FromPlace(buf, len, i, w, starts) ==
            if p.ok then FromPlace(Put(p.buf, p.w, 0), len, p.next, p.w + 1, starts + [w]) else Split(BadFrame, p.buf, starts, p.w)
  {
    hide TokenInPlace, SkipIn;
  }

  lemma PlaceEnds(buf: seq<byte>, len: nat, i: nat, w: nat, starts: seq<nat>)
    requires i <= len && Room(buf, len, i, w) && (SkipIn(buf, len, i) == len || |starts| >= MAX_ARGS)
    ensures FromPlace(buf, len, i, w, starts) ==
            Split(if SkipIn(buf, len, i) == len then Fine else BadArgs, buf, starts, w)
  {
    hide TokenInPlace, SkipIn;
  }

  lemma ParseEnds(line: seq<byte>, i: nat, args: seq<seq<byte>>, used: nat)
    requires i <= |line|
    ensures var (j, s) := (SkipSpaces(line, i), ParseFrom(line, i, args, used));
            && (j == |line| ==> s == Parsed(Fine, args, used))
            && (j < |line| && |args| >= MAX_ARGS ==> s.status == BadArgs)
            && (j < |line| && |args| < MAX_ARGS && !ReadToken(line, j).ok ==> s.status == BadFrame)
  {
    hide ReadToken, SkipSpaces;
  }

  /** The terminator after an argument. */
  lemma Sealed(buf: seq<byte>, line: seq<byte>, next: nat, w: nat, pre: seq<byte>, text: seq<byte>)
    requires next <= |line| && w < |buf| && buf[..w] == pre + text && Ahead(buf, line, next)
    ensures var after := buf[w := 0];
            after[..w + 1] == pre + text + [0] && (w < next || next == |line| ==> Ahead(after, line, next))
  {
    assert buf[w := 0][..w + 1] == buf[..w] + [0];
  }

  lemma PutStores(buf: seq<byte>, w: nat)
    requires w < |buf|
    ensures Put(buf, w, 0) == buf[w := 0]
  {
  }

  lemma StaysBehind(line: seq<byte>, i: nat, w: nat)
    requires i <= |line| && Behind(line, i, w) && SkipSpaces(line, i) < |line| && ReadToken(line, SkipSpaces(line, i)).ok
    ensures var t := ReadToken(line, SkipSpaces(line, i));
            Behind(line, t.next, w + |t.text| + 1)
  {
    hide ReadToken, SkipSpaces;
    SkipMoves(line, i);
  }

  /** One argument further, writing is still behind. */
  lemma StepTracks(buf: seq<byte>, line: seq<byte>, i: nat, w: nat, starts: seq<nat>, args: seq<seq<byte>>)
    requires |line| + 1 <= |buf| && i <= |line| && Ahead(buf, line, i) && Behind(line, i, w)
    requires Holds(buf[..w], starts, args) && SkipSpaces(line, i) < |line|
    ensures SkipIn(buf, |line|, i) == SkipSpaces(line, i)
    ensures var j := SkipSpaces(line, i);
            var (p, t) := (TokenInPlace(buf, |line|, j, w), ReadToken(line, j));
            && p.ok == t.ok && p.next == t.next && p.w == w + |t.text| <= |line|
            && (t.ok ==> var after := Put(p.buf, p.w, 0);
                         && Ahead(after, line, p.next) && Behind(line, p.next, p.w + 1)
                         && Holds(after[..p.w + 1], starts + [w], args + [t.text]))
  {
    hide *;
    SkipTracks(buf, line, i);
    BehindMeans(line, i, w);
    var j := SkipSpaces(line, i);
    AheadStays(buf, line, i, j);
    TokenTracks(buf, line, j, w);
    var p, t := TokenInPlace(buf, |line|, j, w), ReadToken(line, j);
    if t.ok {
      StaysBehind(line, i, w);
      BehindMeans(line, p.next, p.w + 1);
      PutStores(p.buf, p.w);
      Sealed(p.buf, line, p.next, p.w, buf[..w], t.text);
      HoldsMore(buf[..w], starts, args, t.text);
      assert |buf[..w]| == w;
    }
  }

  lemma AheadStays(buf: seq<byte>, line: seq<byte>, i: nat, j: nat)
    requires i <= j && Ahead(buf, line, i)
    ensures Ahead(buf, line, j)
  {
  }

  /** As long as it does, the parse in one buffer is the parse in two. */
  lemma {:induction false} RunTracks(buf: seq<byte>, line: seq<byte>, i: nat, w: nat, starts: seq<nat>, args: seq<seq<byte>>)
    requires |line| + 1 <= |buf| && i <= |line| && Ahead(buf, line, i) && Behind(line, i, w)
    requires Holds(buf[..w], starts, args)
    ensures var (r, s) := (FromPlace(buf, |line|, i, w, starts), ParseFrom(line, i, args, w));
            && r.status == s.status && r.used <= |line| + 1
            && (s.status == Fine ==> Holds(r.buf[..r.used], r.starts, s.args))
    decreases |line| - i
  {
    hide ReadToken, TokenInPlace, Holds, SkipIn, SkipSpaces, FromPlace, ParseFrom, Behind;
    BehindMeans(line, i, w);
    SkipTracks(buf, line, i);
    Counted(buf[..w], starts, args);
    ParseEnds(line, i, args, w);
    var j := SkipSpaces(line, i);
    if j == |line| || |args| >= MAX_ARGS {
      PlaceEnds(buf, |line|, i, w, starts);
    } else {
      StepTracks(buf, line, i, w, starts, args);
      PlaceStep(buf, |line|, i, w, starts);
      var (p, t) := (TokenInPlace(buf, |line|, j, w), ReadToken(line, j));
      if t.ok {
        ParseStep(line, i, args, w);
        RunTracks(Put(p.buf, p.w, 0), line, p.next, p.w + 1, starts + [w], args + [t.text]);
      }
    }
  }

  lemma BehindMeans(line: seq<byte>, i: nat, w: nat)
    requires i <= |line| && Behind(line, i, w)
    ensures w <= i
  {
  }

  lemma SkipMoves(line: seq<byte>, i: nat)
    requires i <= |line|
    ensures i < |line| && line[i] == SPACE ==> SkipSpaces(line, i) > i
    ensures i < |line| && line[i] != SPACE ==> SkipSpaces(line, i) == i
  {
  }

  // When it does not

  /** A bare argument at the very start of the line, with more behind it. */
  predicate BareFirst(line: seq<byte>) {
    line != [] && line[0] != SPACE && line[0] != QUOTE && ReadToken(line, 0).ok && ReadToken(line, 0).next < |line|
  }

  /** Zeros are copied over zeros, one place on, to the end of the line. */
  lemma {:induction false} ZerosSpread(buf: seq<byte>, len: nat, i: nat)
    requires i <= len && len + 1 <= |buf| && i < |buf| && buf[i] == 0 && i + 1 + (len - i) <= |buf|
    ensures var p := BareInPlace(buf, len, i, i + 1);
            && p.ok && p.next == len && p.w == len + 1 && p.buf[..i + 1] == buf[..i + 1] && (i < len ==> p.buf[i + 1] == 0)
    decreases len - i
  {
    if i < len {
      var after := buf[i + 1 := 0];
      ZerosSpread(after, len, i + 1);
      var p := BareInPlace(after, len, i + 1, i + 2);
      assert p.buf[..i + 1] == p.buf[..i + 2][..i + 1] == after[..i + 2][..i + 1] == buf[..i + 1];
      assert p.buf[i + 1] == p.buf[..i + 2][i + 1] == after[..i + 2][i + 1] == 0;
    }
  }

  /**
   * Then the terminator of that argument erases the space behind it, and what comes out is the
   * argument and an empty one, whatever else was on the line.
   */
  lemma BareFirstGarbles(buf: seq<byte>, line: seq<byte>)
    requires |line| + 1 <= |buf| && buf[..|line|] == line && BareFirst(line)
    ensures var r := FromPlace(buf, |line|, 0, 0, []);
            && r.status == Fine && r.used == |line| + 2
            && Holds(r.buf[..|line| + 1], r.starts, [ReadToken(line, 0).text, []])
  {
    hide ReadToken, Holds, FromPlace, Room;
    var after := FirstStep(buf, line);
    SecondIsEmpty(after, |line|, |ReadToken(line, 0).text|, ReadToken(line, 0).text);
  }

  /** The first argument of such a line, and the terminator where the space was. */
  lemma FirstStep(buf: seq<byte>, line: seq<byte>) returns (after: seq<byte>)
    requires |line| + 1 <= |buf| && buf[..|line|] == line && BareFirst(line)
    ensures var (len, text) := (|line|, ReadToken(line, 0).text);
            && |after| == |buf| && 0 < |text| < len && after[..|text| + 1] == text + [0]
            && Room(buf, len, 0, 0) && Room(after, len, |text|, |text| + 1)
            && FromPlace(buf, len, 0, 0, []) == FromPlace(after, len, |text|, |text| + 1, [0])
  {
    hide ReadToken, TokenInPlace, FromPlace, Put;
    var t, len := ReadToken(line, 0), |line|;
    WholeLineAhead(buf, line);
    TokenTracks(buf, line, 0, 0);
    var p := TokenInPlace(buf, len, 0, 0);
    assert SkipIn(buf, len, 0) == 0;
    StillRoom(buf, len, 0, 0);
    PlaceStep(buf, len, 0, 0, []);
    FirstSealed(p.buf, p.w, buf[..0], t.text);
    PutStores(p.buf, p.w);
    Singles(t.text);
    after := Put(p.buf, p.w, 0);
  }

  lemma FirstSealed(buf: seq<byte>, w: nat, pre: seq<byte>, text: seq<byte>)
    requires w < |buf| && pre == [] && buf[..w] == pre + text
    ensures w == |text| && buf[w := 0][..w + 1] == text + [0]
  {
    assert buf[w := 0][..w + 1] == buf[..w] + [0];
    assert pre + text == text;
  }

  lemma SecondIsEmpty(buf: seq<byte>, len: nat, k: nat, text: seq<byte>)
    requires 0 < k < len && len + 1 <= |buf| && k == |text| && buf[..k + 1] == text + [0]
    ensures var r := FromPlace(buf, len, k, k + 1, [0]);
            && r.status == Fine && r.used == len + 2 && Holds(r.buf[..len + 1], r.starts, [text, []])
  {
    hide BareInPlace, Holds, HoldsOne, FromPlace;
    assert buf[k] == buf[..k + 1][k] == 0;
    assert SkipIn(buf, len, k) == k;
    ZerosSpread(buf, len, k);
    var p := TokenInPlace(buf, len, k, k + 1);
    assert p == BareInPlace(buf, len, k, k + 1);
    PlaceStep(buf, len, k, k + 1, [0]);
    var last := Put(p.buf, p.w, 0);
    PlaceEnds(last, len, len, len + 2, [0, k + 1]);
    assert [0] + [k + 1] == [0, k + 1];
    var written := last[..len + 1];
    assert written[..k + 1] == p.buf[..k + 1] == text + [0] && written[k + 1] == 0;
    HoldsTwo(written, k, text);
  }

  lemma HoldsTwo(written: seq<byte>, k: nat, text: seq<byte>)
    requires k + 1 < |written| && k == |text| && written[..k + 1] == text + [0] && written[k + 1] == 0
    ensures Holds(written, [0, k + 1], [text, []])
  {
    assert written[0..k] == written[..k + 1][..k] == text && written[k] == written[..k + 1][k] == 0;
    assert HoldsOne(written, 0, text);
    assert written[k + 1..k + 1] == [];
    assert HoldsOne(written, k + 1, []);
  }

  /** Spaces, two quotes, and nothing more: the one rest of a line that reads as a single empty argument. */
  predicate OneEmptyMore(line: seq<byte>, i: nat)
    requires i <= |line|
  {
    var j := SkipSpaces(line, i);
    j + 2 <= |line| && line[j] == QUOTE && line[j + 1] == QUOTE && SkipSpaces(line, j + 2) == |line|
  }

  lemma {:induction false} QuotedKeeps(line: seq<byte>, i: nat, text: seq<byte>)
    requires i <= |line|
    ensures text <= ReadQuoted(line, i, text).text
    decreases |line| - i
  {
    if i < |line| && line[i] == BACKSLASH {
      if i + 1 < |line| && (line[i + 1] == QUOTE || line[i + 1] == BACKSLASH) {
        QuotedKeeps(line, i + 2, text + [line[i + 1]]);
      }
    } else if i < |line| && line[i] != QUOTE {
      QuotedKeeps(line, i + 1, text + [line[i]]);
    }
  }

  /** An argument read as empty is two quotes. */
  lemma EmptyIsQuotes(line: seq<byte>, i: nat)
    requires i < |line| && line[i] != SPACE
    ensures var t := ReadToken(line, i);
            t.ok && t.text == [] <==> i + 2 <= |line| && line[i] == QUOTE && line[i + 1] == QUOTE && Stops(line, i + 2)
    ensures var t := ReadToken(line, i);
            t.ok && t.text == [] ==> t.next == i + 2
  {
    if line[i] == QUOTE && i + 1 < |line| && line[i + 1] != QUOTE {
      if line[i + 1] == BACKSLASH {
        if i + 2 < |line| && (line[i + 2] == QUOTE || line[i + 2] == BACKSLASH) {
          QuotedKeeps(line, i + 3, [] + [line[i + 2]]);
        }
      } else {
        QuotedKeeps(line, i + 2, [] + [line[i + 1]]);
      }
    }
  }

  lemma {:induction false} ArgsGrow(line: seq<byte>, i: nat, args: seq<seq<byte>>, used: nat)
    requires i <= |line|
    ensures args <= ParseFrom(line, i, args, used).args
    decreases |line| - i
  {
    hide ReadToken;
    var j := SkipSpaces(line, i);
    if j < |line| && |args| < MAX_ARGS && ReadToken(line, j).ok {
      var t := ReadToken(line, j);
      ArgsGrow(line, t.next, args + [t.text], used + |t.text| + 1);
    }
  }

  lemma StopsSkips(line: seq<byte>, i: nat)
    requires i <= |line| && SkipSpaces(line, i) == |line|
    ensures Stops(line, i)
  {
  }

  lemma OneEmptyExactly(line: seq<byte>, i: nat, first: seq<byte>, used: nat)
    requires i <= |line|
    ensures var s := ParseFrom(line, i, [first], used);
            s.status == Fine && s.args == [first, []] <==> OneEmptyMore(line, i)
  {
    hide ReadToken;
    var j := SkipSpaces(line, i);
    if j < |line| {
      var t := ReadToken(line, j);
      EmptyIsQuotes(line, j);
      if t.ok {
        var args := [first] + [t.text];
        assert args == [first, t.text];
        ArgsGrow(line, t.next, args, used + |t.text| + 1);
        var k := SkipSpaces(line, t.next);
        if k < |line| && ReadToken(line, k).ok {
          var u := ReadToken(line, k);
          ArgsGrow(line, u.next, args + [u.text], used + |t.text| + 1 + |u.text| + 1);
        }
      }
      if j + 2 <= |line| && SkipSpaces(line, j + 2) == |line| {
        StopsSkips(line, j + 2);
      }
    }
  }

  /** The line is not refused before it is split. */
  predicate GetsSplit(line: seq<byte>) {
    |line| + 1 <= MAX_LINE && Utf8.Valid(line)
  }

  /** The line gets as far as being split, starts with a bare argument, and goes on with more than an empty one. */
  predicate Garbled(line: seq<byte>) {
    GetsSplit(line) && BareFirst(line) && !OneEmptyMore(line, ReadToken(line, 0).next)
  }

  /** The arguments as their users see them: each a string from its start to the first terminator. */
  function ArgsAt(buf: seq<byte>, starts: seq<nat>): (args: seq<seq<byte>>)
    ensures |args| == |starts|
  {
    seq(|starts|, k requires 0 <= k < |starts| => if starts[k] <= |buf| then UpToNul(buf[starts[k]..]) else [])
  }

  predicate Agrees(r: Split, s: Parsed) {
    r.status == s.status && (s.status == Fine ==> ArgsAt(r.buf, r.starts) == s.args)
  }

  predicate NulFree(args: seq<seq<byte>>) {
    forall k :: 0 <= k < |args| ==> 0 !in args[k]
  }

  /** What is held, and free of terminators, is what is seen. */
  lemma HeldIsSeen(buf: seq<byte>, used: nat, starts: seq<nat>, args: seq<seq<byte>>)
    requires used <= |buf| && Holds(buf[..used], starts, args) && NulFree(args)
    ensures ArgsAt(buf, starts) == args
  {
    forall k | 0 <= k < |args|
      ensures ArgsAt(buf, starts)[k] == args[k]
    {
      assert HoldsOne(buf[..used], starts[k], args[k]);
      OneIsSeen(buf, used, starts[k], args[k]);
    }
  }

  lemma OneIsSeen(buf: seq<byte>, used: nat, a: nat, arg: seq<byte>)
    requires used <= |buf| && HoldsOne(buf[..used], a, arg) && 0 !in arg
    ensures a <= |buf| && UpToNul(buf[a..]) == arg
  {
    var written, n := buf[..used], |arg|;
    var rest := buf[a + n..];
    assert rest[0] == written[a + n] == 0;
    assert buf[a..] == buf[a..a + n] + rest && buf[a..a + n] == written[a..a + n];
    UpToNulOfPadded(arg, rest);
  }

  lemma {:induction false} QuotedNulFree(line: seq<byte>, i: nat, text: seq<byte>)
    requires i <= |line| && 0 !in line && 0 !in text
    ensures 0 !in ReadQuoted(line, i, text).text
    decreases |line| - i
  {
    if i < |line| && line[i] == BACKSLASH {
      if i + 1 < |line| && (line[i + 1] == QUOTE || line[i + 1] == BACKSLASH) {
        QuotedNulFree(line, i + 2, text + [line[i + 1]]);
      }
    } else if i < |line| && line[i] != QUOTE {
      QuotedNulFree(line, i + 1, text + [line[i]]);
    }
  }

  lemma {:induction false} BareNulFree(line: seq<byte>, i: nat, text: seq<byte>)
    requires i <= |line| && 0 !in line && 0 !in text
    ensures 0 !in ReadBare(line, i, text).text
    decreases |line| - i
  {
    if i < |line| && line[i] != SPACE && line[i] != QUOTE && line[i] != BACKSLASH {
      BareNulFree(line, i + 1, text + [line[i]]);
    }
  }

  lemma TokenNulFree(line: seq<byte>, i: nat)
    requires i < |line| && line[i] != SPACE && 0 !in line
    ensures 0 !in ReadToken(line, i).text
  {
    QuotedNulFree(line, i + 1, []);
    BareNulFree(line, i, []);
  }

  lemma {:induction false} ArgsNulFree(line: seq<byte>, i: nat, args: seq<seq<byte>>, used: nat)
    requires i <= |line| && 0 !in line && NulFree(args)
    ensures NulFree(ParseFrom(line, i, args, used).args)
    decreases |line| - i
  {
    hide ReadToken;
    var j := SkipSpaces(line, i);
    if j < |line| && |args| < MAX_ARGS && ReadToken(line, j).ok {
      TokenNulFree(line, j);
      var t := ReadToken(line, j);
      ArgsNulFree(line, t.next, args + [t.text], used + |t.text| + 1);
    }
  }

  /**
   * Line and storage may be one buffer, of any size that holds the line and its terminator, status
   * and arguments being those of two buffers and nothing being written past what two would need,
   * exactly for the lines refused before they are split and those that do not start with a bare
   * argument with more behind it.
   */
  lemma AliasingSafeExactly(line: seq<byte>, buf: seq<byte>)
    requires 0 !in line && |line| + 1 <= |buf| && buf[..|line|] == line
    ensures var r := InPlace(buf, |line|);
            Agrees(r, Parse(line)) && r.used <= |line| + 1 <==> !(GetsSplit(line) && BareFirst(line))
  {
    hide Utf8.Valid, InPlace, Parse, Agrees, BareFirst;
    AliasingAgreesExactly(line, buf);
    AliasingStaysExactly(line, buf);
  }

  /**
   * It stays within the line and its terminator for exactly those lines;
   * for any other it writes one byte more, and for a refused one nothing.
   */
  lemma AliasingStaysExactly(line: seq<byte>, buf: seq<byte>)
    requires 0 !in line && |line| + 1 <= |buf| && buf[..|line|] == line
    ensures InPlace(buf, |line|).used == |line| + 2 || InPlace(buf, |line|).used <= |line| + 1
    ensures InPlace(buf, |line|).used <= |line| + 1 <==> !(GetsSplit(line) && BareFirst(line))
    ensures !GetsSplit(line) ==> InPlace(buf, |line|).used == 0 && InPlace(buf, |line|).buf == buf
  {
    hide Utf8.Valid, FromPlace, ParseFrom, Holds, ReadToken, ArgsAt;
    if GetsSplit(line) {
      if BareFirst(line) {
        BareFirstGarbles(buf, line);
      } else {
        ArgsNulFree(line, 0, [], 0);
        NotBareFirst(line, buf);
      }
    }
  }

  /**
   * Status and arguments alone agree for one family more: a bare argument with a single empty one
   * behind it, which is what comes out in any case.
   */
  lemma AliasingAgreesExactly(line: seq<byte>, buf: seq<byte>)
    requires 0 !in line && |line| + 1 <= |buf| && buf[..|line|] == line
    ensures Agrees(InPlace(buf, |line|), Parse(line)) <==> !Garbled(line)
  {
    hide Utf8.Valid, FromPlace, ParseFrom, Holds, ReadToken, ArgsAt;
    if |line| + 1 <= MAX_LINE && Utf8.Valid(line) {
      ArgsNulFree(line, 0, [], 0);
      if BareFirst(line) {
        BareFirstGarbles(buf, line);
        FirstParsed(line);
        var t := ReadToken(line, 0);
        TokenNulFree(line, 0);
        HeldIsSeen(FromPlace(buf, |line|, 0, 0, []).buf, |line| + 1, FromPlace(buf, |line|, 0, 0, []).starts, [t.text, []]);
        OneEmptyExactly(line, t.next, t.text, |t.text| + 1);
      } else {
        NotBareFirst(line, buf);
      }
    }
  }

  lemma FirstParsed(line: seq<byte>)
    requires line != [] && line[0] != SPACE && ReadToken(line, 0).ok
    ensures var t := ReadToken(line, 0);
            ParseFrom(line, 0, [], 0) == ParseFrom(line, t.next, [t.text], |t.text| + 1)
  {
    hide ReadToken;
    assert SkipSpaces(line, 0) == 0;
    assert [] + [ReadToken(line, 0).text] == [ReadToken(line, 0).text];
  }

  lemma NotBareFirst(line: seq<byte>, buf: seq<byte>)
    requires 0 !in line && |line| + 1 <= |buf| && buf[..|line|] == line && !BareFirst(line)
    requires NulFree(ParseFrom(line, 0, [], 0).args)
    ensures Agrees(FromPlace(buf, |line|, 0, 0, []), ParseFrom(line, 0, [], 0))
    ensures FromPlace(buf, |line|, 0, 0, []).used <= |line| + 1
  {
    hide FromPlace, ParseFrom, Holds, ReadToken, ArgsAt;
    assert buf[..0] == [];
    WholeLineAhead(buf, line);
    NothingHeld();
    if line == [] || line[0] == SPACE || line[0] == QUOTE {
      RunTracks(buf, line, 0, 0, [], []);
    } else {
      AloneTracks(buf, line);
    }
    var (r, s) := (FromPlace(buf, |line|, 0, 0, []), ParseFrom(line, 0, [], 0));
    if s.status == Fine {
      HeldIsSeen(r.buf, r.used, r.starts, s.args);
    }
  }

  /** A bare argument with nothing behind it, or one that is malformed. */
  lemma AloneTracks(buf: seq<byte>, line: seq<byte>)
    requires |line| + 1 <= |buf| && Ahead(buf, line, 0)
    requires line != [] && line[0] != SPACE && line[0] != QUOTE && !BareFirst(line)
    ensures var (r, s) := (FromPlace(buf, |line|, 0, 0, []), ParseFrom(line, 0, [], 0));
            && r.status == s.status && r.used <= |line| + 1
            && (s.status == Fine ==> Holds(r.buf[..r.used], r.starts, s.args))
  {
    hide ReadToken, TokenInPlace, Holds, FromPlace, ParseFrom;
    TokenTracks(buf, line, 0, 0);
    assert SkipIn(buf, |line|, 0) == 0 && SkipSpaces(line, 0) == 0;
    PlaceStep(buf, |line|, 0, 0, []);
    ParseEnds(line, 0, [], 0);
    if ReadToken(line, 0).ok {
      FirstParsed(line);
      AloneHeld(TokenInPlace(buf, |line|, 0, 0), buf, line);
    }
  }

  lemma AloneHeld(p: Place, buf: seq<byte>, line: seq<byte>)
    requires line != [] && line[0] != SPACE && line[0] != QUOTE && ReadToken(line, 0).ok
    requires p.next == |line| == ReadToken(line, 0).next && |line| + 1 <= |p.buf| && p.w <= |line| && p.ok
    requires 0 <= |buf| && p.w == |ReadToken(line, 0).text| && p.buf[..p.w] == buf[..0] + ReadToken(line, 0).text
    ensures var t := ReadToken(line, 0);
            var none: seq<nat> := [];
            var (r, s) := (FromPlace(Put(p.buf, p.w, 0), |line|, |line|, p.w + 1, none + [0]),
                           ParseFrom(line, |line|, [t.text], |t.text| + 1));
            r.status == s.status == Fine && r.used == p.w + 1 <= |p.buf| && Holds(r.buf[..r.used], r.starts, s.args)
  {
    hide ReadToken, Holds, FromPlace, ParseFrom;
    var t := ReadToken(line, 0);
    NothingHeld();
    HoldsMore([], [], [], t.text);
    FirstSealed(p.buf, p.w, buf[..0], t.text);
    Singles(t.text);
    assert [] + t.text == t.text;
    EndOfLine(Put(p.buf, p.w, 0), line, p.w + 1, [0], [t.text]);
  }

  lemma Singles(text: seq<byte>)
    ensures var args: seq<seq<byte>> := [];
            args + [text] == [text]
    ensures var starts: seq<nat> := [];
            starts + [0] == [0]
  {
  }

  lemma EndOfLine(buf: seq<byte>, line: seq<byte>, w: nat, starts: seq<nat>, args: seq<seq<byte>>)
    requires |line| + 1 <= |buf| && w <= |line| + 2
    ensures FromPlace(buf, |line|, |line|, w, starts) == Split(Fine, buf, starts, w)
    ensures ParseFrom(line, |line|, args, w) == Parsed(Fine, args, w)
  {
  }

  /** The least of them: `a b` in two buffers is a and b, in one it is a and nothing. */
  lemma AliasingGarbles(buf: seq<byte>)
    requires 4 <= |buf| && buf[..3] == [0x61, SPACE, 0x62]
    ensures var line := buf[..3];
            && Parse(line).status == Fine && Parse(line).args == [[0x61], [0x62]]
            && InPlace(buf, 3).status == Fine && ArgsAt(InPlace(buf, 3).buf, InPlace(buf, 3).starts) == [[0x61], []]
  {
    hide FromPlace, ParseFrom, Holds, ArgsAt, Utf8.Valid;
    var line := buf[..3];
    ValidAscii(0x61);
    ValidAscii(SPACE);
    ValidAscii(0x62);
    ValidJoin([0x61], [SPACE]);
    ValidJoin([0x61] + [SPACE], [0x62]);
    assert line == [0x61] + [SPACE] + [0x62];
    AbParses(line);
    BareFirstGarbles(buf, line);
    TokenNulFree(line, 0);
    var r := FromPlace(buf, 3, 0, 0, []);
    HeldIsSeen(r.buf, 4, r.starts, [[0x61], []]);
  }

  lemma AbParses(line: seq<byte>)
    requires line == [0x61, SPACE, 0x62]
    ensures ReadToken(line, 0) == Token([0x61], 1, true) && BareFirst(line)
    ensures ParseFrom(line, 0, [], 0) == Parsed(Fine, [[0x61], [0x62]], 4)
  {
    var none: seq<byte> := [];
    assert ReadBare(line, 1, none + [0x61]) == Token([0x61], 1, true);
    assert ReadBare(line, 3, none + [0x62]) == Token([0x62], 3, true);
    assert ReadToken(line, 2) == Token([0x62], 3, true);
    assert SkipSpaces(line, 0) == 0 && SkipSpaces(line, 1) == SkipSpaces(line, 2) == 2 && SkipSpaces(line, 3) == 3;
    var args: seq<seq<byte>> := [];
    assert args + [[0x61]] == [[0x61]] && [[0x61]] + [[0x62]] == [[0x61], [0x62]];
    assert ParseFrom(line, 3, [[0x61], [0x62]], 4) == Parsed(Fine, [[0x61], [0x62]], 4);
    assert ParseFrom(line, 1, [[0x61]], 2) == ParseFrom(line, 3, [[0x61], [0x62]], 4);
  }

  // Quoting and parsing

  function EscapeByte(b: byte): (e: seq<byte>)
    ensures |e| > 0
  {
    if b == QUOTE || b == BACKSLASH then [BACKSLASH, b] else [b]
  }

  function Escaped(s: seq<byte>): seq<byte> {
    if s == [] then [] else EscapeByte(s[0]) + Escaped(s[1..])
  }

  function Quoted(s: seq<byte>): (q: seq<byte>)
    ensures |q| >= 2
  {
    [QUOTE] + Escaped(s) + [QUOTE]
  }

  /** The arguments, quoted, one space between them. */
  function Line(args: seq<seq<byte>>): seq<byte> {
    if args == [] then [] else Quoted(args[0]) + (if |args| == 1 then [] else [SPACE] + Line(args[1..]))
  }

  /** The escaped text stands in the line at `i`. */
  predicate At(line: seq<byte>, i: nat, e: seq<byte>) {
    i + |e| <= |line| && forall k :: 0 <= k < |e| ==> line[i + k] == e[k]
  }

  lemma SliceIsAt(line: seq<byte>, i: nat, e: seq<byte>)
    requires i + |e| <= |line| && line[i..i + |e|] == e
    ensures At(line, i, e)
  {
    forall k | 0 <= k < |e|
      ensures line[i + k] == e[k]
    {
      assert line[i + k] == line[i..i + |e|][k];
    }
  }

  lemma AtSplits(line: seq<byte>, i: nat, e: seq<byte>, a: seq<byte>, b: seq<byte>)
    requires At(line, i, e) && e == a + b
    ensures At(line, i, a) && At(line, i + |a|, b)
  {
    forall k | 0 <= k < |a|
      ensures line[i + k] == a[k]
    {
      assert e[k] == a[k];
    }
    forall k | 0 <= k < |b|
      ensures line[i + |a| + k] == b[k]
    {
      assert line[i + (|a| + k)] == e[|a| + k];
    }
  }

  lemma {:induction false} ReadEscaped(line: seq<byte>, i: nat, text: seq<byte>, s: seq<byte>)
    requires At(line, i, Escaped(s)) && i + |Escaped(s)| < |line| && line[i + |Escaped(s)|] == QUOTE
    ensures ReadQuoted(line, i, text) ==
            Token(text + s, i + |Escaped(s)| + 1,
                  i + |Escaped(s)| + 1 == |line| || line[i + |Escaped(s)| + 1] == SPACE)
    decreases |s|
  {
    hide ReadQuoted, Escaped;
    ReadUnfolds(line, i, text);
    if s == [] {
      EscapedOfNone();
      assert text + s == text;
    } else {
      var b := EscapeByte(s[0]);
      EscapedCons(s);
      AtSplits(line, i, Escaped(s), b, Escaped(s[1..]));
      assert line[i + 0] == b[0] && (|b| == 2 ==> line[i + 1] == b[1]);
      assert text + [s[0]] + s[1..] == text + s;
      ReadEscaped(line, i + |b|, text + [s[0]], s[1..]);
    }
  }

  lemma MiddleOfSlice(s: seq<byte>, off: nat, n: nat, lo: nat, hi: nat)
    requires off + n <= |s| && lo <= hi <= n
    ensures s[off..off + n][lo..hi] == s[off + lo..off + hi]
  {
    var t := s[off..off + n];
    forall k | 0 <= k < hi - lo
      ensures t[lo..hi][k] == s[off + lo..off + hi][k]
    {
      assert t[lo..hi][k] == t[lo + k] == s[off + (lo + k)];
    }
  }

  lemma ReadQuotedArg(line: seq<byte>, i: nat, s: seq<byte>)
    requires i + |Quoted(s)| <= |line| && line[i..i + |Quoted(s)|] == Quoted(s) && Stops(line, i + |Quoted(s)|)
    ensures line[i] == QUOTE && ReadToken(line, i) == Token(s, i + |Quoted(s)|, true)
  {
    hide Escaped, ReadQuoted, ReadBare;
    var q, e := line[i..i + |Quoted(s)|], Escaped(s);
    assert line[i] == q[0] && line[i + 1 + |e|] == q[|q| - 1];
    MiddleOfSlice(line, i, |q|, 1, 1 + |e|);
    assert q[1..1 + |e|] == e;
    SliceIsAt(line, i + 1, e);
    ReadEscaped(line, i + 1, [], s);
    assert [] + s == s;
  }

  lemma LineOfNone()
    ensures Line([]) == []
  {
  }

  lemma LineParts(line: seq<byte>, i: nat, args: seq<seq<byte>>)
    requires i <= |line| && line[i..] == Line(args) && args != []
    ensures var q := Quoted(args[0]);
            i + |q| <= |line| && line[i..i + |q|] == q && Stops(line, i + |q|)
            && (|args| == 1 ==> i + |q| == |line|)
            && (|args| > 1 ==> i + |q| < |line| && line[i + |q| + 1..] == Line(args[1..]))
  {
    hide Quoted, Escaped;
    var q := Quoted(args[0]);
    assert line[i..][..|q|] == q;
    assert line[i..i + |q|] == line[i..][..|q|];
    if |args| > 1 {
      assert line[i..] == q + ([SPACE] + Line(args[1..]));
      assert line[i + |q|] == line[i..][|q|];
      assert line[i + |q| + 1..] == line[i..][|q| + 1..];
    }
  }

  lemma {:induction false} ParseQuoted(line: seq<byte>, i: nat, done: seq<seq<byte>>, used: nat, args: seq<seq<byte>>)
    requires i <= |line| && line[i..] == Line(args) && |done| + |args| <= MAX_ARGS
    ensures var r := ParseFrom(line, i, done, used);
            r.status == Fine && r.args == done + args
    decreases |args|
  {
    hide ReadToken, Quoted, Line;
    if args == [] {
      LineOfNone();
      assert i == |line| && done + args == done;
    } else {
      LineParts(line, i, args);
      ReadQuotedArg(line, i, args[0]);
      assert SkipSpaces(line, i) == i;
      ParseStep(line, i, done, used);
      ParseQuotedRest(line, i, done, used, args);
    }
  }

  lemma ParseQuotedRest(line: seq<byte>, i: nat, done: seq<seq<byte>>, used: nat, args: seq<seq<byte>>)
    requires args != [] && i <= |line| && line[i..] == Line(args) && |done| + |args| <= MAX_ARGS
    requires i + |Quoted(args[0])| <= |line|
    ensures var r := ParseFrom(line, i + |Quoted(args[0])|, done + [args[0]], used + |args[0]| + 1);
            r.status == Fine && r.args == done + args
    decreases |args|, 0
  {
    hide ReadToken, Quoted, Line, ParseFrom;
    LineParts(line, i, args);
    var next := i + |Quoted(args[0])|;
    assert done + [args[0]] + args[1..] == done + args;
    if |args| == 1 {
      assert args[1..] == [] && line[next..] == [];
      LineOfNone();
      ParseQuoted(line, next, done + [args[0]], used + |args[0]| + 1, []);
    } else {
      ParseQuoted(line, next + 1, done + [args[0]], used + |args[0]| + 1, args[1..]);
      SpaceSkipped(line, next, done + [args[0]], used + |args[0]| + 1);
    }
  }

  lemma SpaceSkipped(line: seq<byte>, i: nat, args: seq<seq<byte>>, used: nat)
    requires i < |line| && line[i] == SPACE
    ensures ParseFrom(line, i, args, used) == ParseFrom(line, i + 1, args, used)
  {
    hide ReadToken;
    assert SkipSpaces(line, i) == SkipSpaces(line, i + 1);
  }

  // The quoted line is valid text when its arguments are

  lemma {:induction false} EncodedThen(cps: seq<Utf8.scalar>, b: seq<byte>)
    requires Utf8.Valid(b)
    ensures Utf8.Valid(Utf8.Encoded(cps) + b)
    decreases |cps|
  {
    hide Utf8.DecodeOne, Utf8.Put;
    if cps == [] {
      assert Utf8.Encoded(cps) + b == b;
    } else {
      var rest := Utf8.Encoded(cps[1..]) + b;
      EncodedThen(cps[1..], b);
      Utf8.DecodeOfPut(cps[0], rest);
      assert Utf8.Encoded(cps) + b == Utf8.Put(cps[0]) + rest;
      assert (Utf8.Put(cps[0]) + rest)[|Utf8.Put(cps[0])|..] == rest;
    }
  }

  lemma NothingIsValid()
    ensures Utf8.Valid([])
  {
  }

  lemma ValidJoin(a: seq<byte>, b: seq<byte>)
    requires Utf8.Valid(a) && Utf8.Valid(b)
    ensures Utf8.Valid(a + b)
  {
    hide Utf8.Valid;
    var cps := Utf8.ValidIsEncoded(a);
    EncodedThen(cps, b);
  }

  lemma ValidAscii(b: byte)
    requires b < 0x80
    ensures Utf8.Valid([b])
  {
    assert Utf8.DecodeOne([b]) == Utf8.Char(b, 1) by {
      Utf8.DecodeOfPut(b, []);
      assert Utf8.Put(b) + [] == [b];
    }
  }

  lemma EscapedCons(s: seq<byte>)
    requires s != []
    ensures Escaped(s) == EscapeByte(s[0]) + Escaped(s[1..])
  {
  }

  lemma {:induction false} EscapedJoin(a: seq<byte>, b: seq<byte>)
    ensures Escaped(a + b) == Escaped(a) + Escaped(b)
    decreases |a|
  {
    hide EscapeByte, Escaped;
    if a == [] {
      assert a + b == b;
      EscapedOfNone();
    } else {
      EscapedJoin(a[1..], b);
      EscapedCons(a);
      EscapedCons(a + b);
      assert (a + b)[0] == a[0] && (a + b)[1..] == a[1..] + b;
    }
  }

  lemma EscapedOfNone()
    ensures Escaped([]) == []
  {
  }

  lemma {:induction false} EscapedPlain(s: seq<byte>)
    requires forall k :: 0 <= k < |s| ==> s[k] != QUOTE && s[k] != BACKSLASH
    ensures Escaped(s) == s
    decreases |s|
  {
    if s != [] {
      EscapedPlain(s[1..]);
      assert s == [s[0]] + s[1..];
    }
  }

  lemma EscapedChar(cp: Utf8.scalar)
    ensures Utf8.Valid(Escaped(Utf8.Put(cp)))
  {
    hide Utf8.Valid;
    var p := Utf8.Put(cp);
    assert Utf8.Encoded([cp]) == p by { assert Utf8.Encoded([cp][1..]) == []; }
    Utf8.EncodedIsValid([cp]);
    if cp == QUOTE || cp == BACKSLASH {
      ValidAscii(BACKSLASH);
      ValidAscii(cp);
      ValidJoin([BACKSLASH], [cp]);
      assert Escaped([cp]) == [BACKSLASH] + [cp] by { assert Escaped([cp][1..]) == []; }
    } else {
      assert cp < 0x80 || forall k :: 0 <= k < |p| ==> p[k] >= 0x80;
      EscapedPlain(p);
    }
  }

  lemma {:induction false} EscapedValid(cps: seq<Utf8.scalar>)
    ensures Utf8.Valid(Escaped(Utf8.Encoded(cps)))
    decreases |cps|
  {
    hide Utf8.Valid, Utf8.Put;
    if cps == [] {
      assert Escaped([]) == [];
      NothingIsValid();
    } else {
      EscapedValid(cps[1..]);
      EscapedChar(cps[0]);
      EscapedJoin(Utf8.Put(cps[0]), Utf8.Encoded(cps[1..]));
      ValidJoin(Escaped(Utf8.Put(cps[0])), Escaped(Utf8.Encoded(cps[1..])));
    }
  }

  lemma QuotedValid(s: seq<byte>)
    requires Utf8.Valid(s)
    ensures Utf8.Valid(Quoted(s))
  {
    hide Utf8.Valid, Escaped;
    var cps := Utf8.ValidIsEncoded(s);
    EscapedValid(cps);
    ValidAscii(QUOTE);
    ValidJoin([QUOTE], Escaped(s));
    ValidJoin([QUOTE] + Escaped(s), [QUOTE]);
  }

  lemma {:induction false} LineValid(args: seq<seq<byte>>)
    requires forall k :: 0 <= k < |args| ==> Utf8.Valid(args[k])
    ensures Utf8.Valid(Line(args))
    decreases |args|
  {
    hide Utf8.Valid, Quoted;
    if args == [] {
      NothingIsValid();
    } else {
      QuotedValid(args[0]);
      if |args| == 1 {
        assert Quoted(args[0]) + [] == Quoted(args[0]);
      } else {
        LineValid(args[1..]);
        ValidAscii(SPACE);
        ValidJoin([SPACE], Line(args[1..]));
        ValidJoin(Quoted(args[0]), [SPACE] + Line(args[1..]));
      }
    }
  }

  /** At most six valid arguments, quoted onto a line that fits, come back as they were. */
  lemma QuoteThenParse(args: seq<seq<byte>>)
    requires |args| <= MAX_ARGS && |Line(args)| + 1 <= MAX_LINE
    requires forall k :: 0 <= k < |args| ==> Utf8.Valid(args[k])
    ensures Parse(Line(args)).status == Fine && Parse(Line(args)).args == args
  {
    hide Utf8.Valid, Line, ParseFrom;
    LineValid(args);
    assert Line(args)[0..] == Line(args);
    ParseQuoted(Line(args), 0, [], 0, args);
    assert [] + args == args;
  }
}
