/**
 * Thousandths as JSON numbers: written by rw_jw_milli (firmware/src/proto/json.c), read by num_milli
 * (firmware/src/plug/shelly.c). `long` is 32 bits on the device and wraps.
 */
module JsonMilli {
  import opened Bytes

  const MINUS: byte := 0x2D
  const POINT: byte := 0x2E
  const LONG_MAX: int := 0x7FFF_FFFF
  const READ_MAX: int := 2147482999

  predicate IsLong(v: int) {
    -LONG_MAX - 1 <= v <= LONG_MAX
  }

  /** Two's complement wrap-around. */
  function Wrap(v: int): (w: int)
    ensures IsLong(w) && (IsLong(v) ==> w == v)
  {
    (v + 0x8000_0000) % 0x1_0000_0000 - 0x8000_0000
  }

  // Writing

  function Digit(d: nat): byte
    requires d < 10
  {
    0x30 + d
  }

  predicate IsDigit(b: byte) {
    0x30 <= b <= 0x39
  }

  function Decimal(n: nat): (s: seq<byte>)
    ensures s != [] && forall i :: 0 <= i < |s| ==> IsDigit(s[i])
  {
    if n < 10 then [Digit(n)] else Decimal(n / 10) + [Digit(n % 10)]
  }

  function Three(f: nat): (s: seq<byte>)
    requires f < 1000
    ensures |s| == 3 && forall i :: 0 <= i < 3 ==> IsDigit(s[i])
  {
    [Digit(f / 100), Digit(f / 10 % 10), Digit(f % 10)]
  }

  /** Without the zeros at its end. */
  function Trimmed(s: seq<byte>): (t: seq<byte>)
    ensures t <= s && (t == [] || t[|t| - 1] != 0x30)
    ensures forall i :: |t| <= i < |s| ==> s[i] == 0x30
  {
    if s == [] || s[|s| - 1] != 0x30 then s else Trimmed(s[..|s| - 1])
  }

  function Magnitude(m: int): nat {
    if m < 0 then -m else m
  }

  /** rw_jw_milli: the sign by hand, and no trailing zeros. */
  function MilliText(m: int): seq<byte> {
    var a := Magnitude(m);
    (if m < 0 then [MINUS] else []) + Decimal(a / 1000)
    + (if a % 1000 == 0 then [] else [POINT] + Trimmed(Three(a % 1000)))
  }

  method WriteMilli(m: int) returns (text: seq<byte>)
    ensures text == MilliText(m)
  {
    hide Decimal, Three, Trimmed;
    var a := Magnitude(m);
    var sign := if m < 0 then [MINUS] else [];
    if a % 1000 == 0 {
      return sign + Decimal(a / 1000);
    }
    var head := sign + Decimal(a / 1000) + [POINT];
    var three := Three(a % 1000);
    text := head + three;
    var end: nat := |text|;
    while text[end - 1] == 0x30
      invariant |head| <= end <= |text|
      invariant Trimmed(three[..end - |head|]) == Trimmed(three)
      decreases end
    {
      TextEnd(head, three, end);
      TrimOne(three, end - |head|);
      end := end - 1;
    }
    TextEnd(head, three, end);
    TrimDone(three[..end - |head|]);
    text := text[..end];
  }

  lemma TrimDone(s: seq<byte>)
    requires s == [] || s[|s| - 1] != 0x30
    ensures Trimmed(s) == s
  {
  }

  lemma TextEnd(head: seq<byte>, tail: seq<byte>, end: nat)
    requires head != [] && head[|head| - 1] == POINT && |head| <= end <= |head| + |tail|
    ensures var kept := tail[..end - |head|];
            (head + tail)[end - 1] == (if kept == [] then POINT else kept[|kept| - 1]) && (head + tail)[..end] == head + kept
  {
  }

  lemma TrimOne(s: seq<byte>, n: nat)
    requires 0 < n <= |s| && s[n - 1] == 0x30
    ensures Trimmed(s[..n - 1]) == Trimmed(s[..n])
  {
    assert s[..n][..n - 1] == s[..n - 1];
  }

  // Reading

  /** The digits before the point; the check before each step is the code's, and the step wraps. */
  function Whole(s: seq<byte>, acc: int): (Option<int>, seq<byte>)
    decreases |s|
  {
    if s == [] || !IsDigit(s[0]) then (Some(acc), s)
    else if acc > LONG_MAX / 10 then (None, s)
    else Whole(s[1..], Wrap(acc * 10 + (s[0] - 0x30)))
  }

  /** The digits after it: three count, the rest are dropped. */
  function Thousandths(s: seq<byte>, acc: int, scale: nat): (int, seq<byte>)
    decreases |s|
  {
    if s == [] || !IsDigit(s[0]) then (acc, s)
    else Thousandths(s[1..], acc + (s[0] - 0x30) * scale, scale / 10)
  }

  /** The number after its sign. */
  function ReadUnsigned(t: seq<byte>): (r: Option<int>)
    ensures r.Some? ==> IsLong(r.value)
  {
    if t == [] || !IsDigit(t[0]) then None
    else
      match Whole(t, 0)
      case (None, _) => None
      case (Some(whole), u) =>
        var (frac, rest) := if u != [] && u[0] == POINT then Thousandths(u[1..], 0, 100) else (0, u);
        if rest != [] then None
        else if whole > (LONG_MAX - 999) / 1000 then None
        else Some(Wrap(whole * 1000 + frac))
  }

  /** num_milli, from the text of a primitive token. */
  function ReadMilli(s: seq<byte>): Option<int> {
    if s != [] && s[0] == MINUS then
      match ReadUnsigned(s[1..])
      case None => None
      case Some(v) => Some(Wrap(-v))
    else ReadUnsigned(s)
  }

  // They undo each other, as far as the reader goes

  lemma {:induction false} WholeOfDecimal(n: nat, rest: seq<byte>)
    requires n <= LONG_MAX && (rest == [] || !IsDigit(rest[0]))
    ensures Whole(Decimal(n) + rest, 0) == (Some(n), rest)
    decreases n
  {
    WholeFrom(n, rest);
  }

  /** Reading a number's digits is reading its front and then the last digit. */
  lemma {:induction false} WholeFrom(n: nat, rest: seq<byte>)
    requires n <= LONG_MAX
    ensures Whole(Decimal(n) + rest, 0) == Whole(rest, n)
    decreases n
  {
    if n < 10 {
      assert ([Digit(n)] + rest)[1..] == rest;
    } else {
      var last := [Digit(n % 10)] + rest;
      assert Decimal(n) + rest == Decimal(n / 10) + last;
      WholeFrom(n / 10, last);
      assert last[1..] == rest;
    }
  }

  lemma TrimmedThree(f: nat)
    requires 0 < f < 1000
    ensures Thousandths(Trimmed(Three(f)), 0, 100) == (f, [])
    ensures Trimmed(Three(f)) != []
  {
    var t, a, b, c := Three(f), f / 100, f / 10 % 10, f % 10;
    assert f == a * 100 + b * 10 + c;
    assert t[..2] == [Digit(a), Digit(b)] && t[..2][..1] == [Digit(a)];
    var z: seq<byte> := [];
    assert t[1..] == [Digit(b), Digit(c)] && t[1..][1..] == [Digit(c)] && [Digit(c)][1..] == z;
    assert [Digit(a), Digit(b)][1..] == [Digit(b)] && [Digit(b)][1..] == z && [Digit(a)][1..] == z;
    assert Thousandths(z, a * 100, 10) == (a * 100, z);
    assert Thousandths(z, a * 100 + b * 10, 1) == (a * 100 + b * 10, z);
    assert Thousandths(z, f, 0) == (f, z);
    if c != 0 {
      assert Trimmed(t) == t;
      assert Thousandths(t, 0, 100) == Thousandths([Digit(b), Digit(c)], a * 100, 10);
      assert Thousandths([Digit(b), Digit(c)], a * 100, 10) == Thousandths([Digit(c)], a * 100 + b * 10, 1);
    } else if b != 0 {
      assert Trimmed(t) == [Digit(a), Digit(b)];
      assert Thousandths([Digit(a), Digit(b)], 0, 100) == Thousandths([Digit(b)], a * 100, 10);
    } else {
      assert Trimmed(t) == Trimmed(t[..2]);
      assert Trimmed([Digit(a), Digit(b)]) == Trimmed([Digit(a), Digit(b)][..1]);
      assert [Digit(a), Digit(b)][..1] == [Digit(a)];
    }
  }

  function Body(a: nat): seq<byte> {
    Decimal(a / 1000) + (if a % 1000 == 0 then [] else [POINT] + Trimmed(Three(a % 1000)))
  }

  lemma ReadBody(a: nat)
    requires a <= LONG_MAX + 1
    ensures ReadUnsigned(Body(a)) == if a <= READ_MAX then Some(a as int) else None
    ensures Body(a) != [] && IsDigit(Body(a)[0])
  {
    hide Whole, Thousandths, Decimal, Trimmed, Three;
    var tail: seq<byte> := if a % 1000 == 0 then [] else [POINT] + Trimmed(Three(a % 1000));
    WholeOfDecimal(a / 1000, tail);
    assert Body(a)[0] == Decimal(a / 1000)[0];
    if a % 1000 != 0 {
      TrimmedThree(a % 1000);
      assert tail[1..] == Trimmed(Three(a % 1000));
    }
  }

  /**
   * Every value the device can hold is written as a number that reads back as itself, exactly up
   * to 2147482999 in magnitude; beyond that the reader refuses it.
   */
  lemma MilliRoundTrip(m: int)
    requires IsLong(m)
    ensures ReadMilli(MilliText(m)) == if Magnitude(m) <= READ_MAX then Some(m) else None
  {
    hide ReadUnsigned, Decimal, Trimmed, Three;
    var body := Body(Magnitude(m));
    ReadBody(Magnitude(m));
    assert MilliText(m) == (if m < 0 then [MINUS] else []) + body;
    assert ([MINUS] + body)[1..] == body && [] + body == body;
  }

  // Numbers of any length

  predicate AllDigits(s: seq<byte>) {
    forall i :: 0 <= i < |s| ==> IsDigit(s[i])
  }

  /** The number these digits write, with `acc` already read. */
  function NumFrom(acc: nat, s: seq<byte>): (n: nat)
    requires AllDigits(s)
    ensures n >= acc
    decreases |s|
  {
    if s == [] then acc else NumFrom(10 * acc + (s[0] - 0x30), s[1..])
  }

  /**
   * Digits that outgrow a long at one of the two numbers the overflow check lets by, 2147483648
   * and 2147483649. The wrapped value starts the reading over: with what follows, after a 1 in
   * the second case.
   */
  function Overrun(s: seq<byte>, acc: nat): (r: Option<seq<byte>>)
    requires AllDigits(s)
    ensures r.Some? ==> |r.value| <= |s| && AllDigits(r.value) && NumFrom(acc, s) > LONG_MAX
    ensures r.Some? && acc < 10 ==> |r.value| < |s|
    decreases |s|
  {
    if s == [] then None
    else
      var n := 10 * acc + (s[0] - 0x30);
      if n <= LONG_MAX then Overrun(s[1..], n)
      else if n == LONG_MAX + 1 then Some(s[1..])
      else if n == LONG_MAX + 2 then Some([0x31] + s[1..])
      else None
  }

  /** Any number in plain decimal notation: a sign or none, digits, and a point with digits behind it or none. */
  datatype Numeral = Numeral(negative: bool, whole: seq<byte>, fraction: Option<seq<byte>>) {
    predicate Valid() {
      whole != [] && AllDigits(whole) && (fraction.Some? ==> AllDigits(fraction.value))
    }

    function Tail(): seq<byte> {
      if fraction.Some? then [POINT] + fraction.value else []
    }

    function Text(): seq<byte> {
      (if negative then [MINUS] else []) + (whole + Tail())
    }
  }

  /** Three digits of a fraction count, as thousandths. */
  function Milli(fraction: Option<seq<byte>>): (f: nat)
    requires fraction.Some? ==> AllDigits(fraction.value)
  {
    if fraction.None? then 0 else NumFrom(0, (fraction.value + [0x30, 0x30, 0x30])[..3])
  }

  /** What the digits before the point stand for, to the reader. */
  function WholeMeant(s: seq<byte>): (r: Option<nat>)
    requires AllDigits(s)
    ensures r.Some? ==> r.value <= READ_MAX / 1000
    decreases |s|
  {
    if NumFrom(0, s) <= LONG_MAX then
      if NumFrom(0, s) <= READ_MAX / 1000 then Some(NumFrom(0, s)) else None
    else
      match Overrun(s, 0)
      case None => None
      case Some(t) => if t == [] then Some(0) else WholeMeant(t)
  }

  function Signed(negative: bool, whole: nat, f: nat): int {
    if negative then -(1000 * whole + f) else 1000 * whole + f
  }

  /** What a number reads as, in thousandths. */
  function Meant(n: Numeral): Option<int>
    requires n.Valid()
  {
    match WholeMeant(n.whole)
    case None => None
    case Some(w) => Some(Signed(n.negative, w, Milli(n.fraction)))
  }

  /** What it should read as: its value cut to thousandths, or nothing if that is out of range. */
  function Right(n: Numeral): Option<int>
    requires n.Valid()
  {
    if NumFrom(0, n.whole) <= READ_MAX / 1000
    then Some(Signed(n.negative, NumFrom(0, n.whole), Milli(n.fraction))) else None
  }

  lemma {:induction false} WholeFits(s: seq<byte>, acc: nat)
    requires AllDigits(s) && NumFrom(acc, s) <= LONG_MAX
    ensures Whole(s, acc) == (Some(NumFrom(acc, s)), [])
    decreases |s|
  {
    if s != [] {
      WholeFits(s[1..], 10 * acc + (s[0] - 0x30));
    }
  }

  /** The two wrapped values, one digit further on. */
  lemma WrappedStep(d: nat)
    requires d < 10
    ensures Wrap((-LONG_MAX - 1) * 10 + d) == d && Wrap(-LONG_MAX * 10 + d) == 10 + d
  {
  }

  /** Reading on from a wrapped value is reading afresh. */
  lemma WholeAfterWrap(rest: seq<byte>)
    requires AllDigits(rest)
    ensures rest != [] ==> Whole(rest, -LONG_MAX - 1) == Whole(rest, 0)
    ensures rest == [] ==> Whole(rest, -LONG_MAX - 1) == (Some(-LONG_MAX - 1), [])
    ensures rest != [] ==> Whole(rest, -LONG_MAX) == Whole([0x31] + rest, 0)
    ensures rest == [] ==> Whole(rest, -LONG_MAX) == (Some(-LONG_MAX), [])
  {
    if rest != [] {
      WrappedStep(rest[0] - 0x30);
      assert ([0x31] + rest)[1..] == rest;
      assert Whole([0x31] + rest, 0) == Whole(rest, 1);
    }
  }

  lemma {:induction false} WholeOverruns(s: seq<byte>, acc: nat)
    requires AllDigits(s) && acc <= LONG_MAX < NumFrom(acc, s)
    ensures match Overrun(s, acc)
            case None => Whole(s, acc).0 == None
            case Some(t) =>
              if t == [] then Whole(s, acc) == (Some(-LONG_MAX - 1), [])
              else Whole(s, acc) == Whole(t, 0) || (t == [0x31] && Whole(s, acc) == (Some(-LONG_MAX), []))
    decreases |s|
  {
    hide Wrap;
    var n: nat := 10 * acc + (s[0] - 0x30);
    if acc <= LONG_MAX / 10 {
      if n <= LONG_MAX {
        assert Wrap(n) == n;
        WholeOverruns(s[1..], n);
      } else {
        WrappedOnce();
        WholeAfterWrap(s[1..]);
      }
    }
  }

  lemma WrappedOnce()
    ensures Wrap(LONG_MAX + 1) == -LONG_MAX - 1 && Wrap(LONG_MAX + 2) == -LONG_MAX
  {
  }

  /** The digits end where they end, whatever stands behind them. */
  lemma {:induction false} WholeThen(s: seq<byte>, rest: seq<byte>, acc: int)
    requires AllDigits(s) && (rest == [] || !IsDigit(rest[0]))
    ensures var (w, u) := Whole(s, acc);
            if w.None? then Whole(s + rest, acc).0 == None else u == [] && Whole(s + rest, acc) == (w, rest)
    decreases |s|
  {
    hide Wrap;
    if s == [] {
      assert s + rest == rest;
    } else {
      assert (s + rest)[1..] == s[1..] + rest;
      if acc <= LONG_MAX / 10 {
        WholeThen(s[1..], rest, Wrap(acc * 10 + (s[0] - 0x30)));
      }
    }
  }

  lemma {:induction false} NoScaleLeft(s: seq<byte>, acc: int)
    requires AllDigits(s)
    ensures Thousandths(s, acc, 0) == (acc, [])
    decreases |s|
  {
    if s != [] {
      assert (s[0] - 0x30) * 0 == 0;
      NoScaleLeft(s[1..], acc);
    }
  }

  function Value(digit: byte): (v: nat)
    requires IsDigit(digit)
    ensures v < 10
  {
    digit - 0x30
  }

  lemma NumOfThree(s: seq<byte>)
    requires |s| == 3 && AllDigits(s)
    ensures NumFrom(0, s) == 100 * Value(s[0]) + 10 * Value(s[1]) + Value(s[2]) < 1000
  {
    assert s[1..][0] == s[1] && s[1..][1..] == s[2..] && s[2..][0] == s[2];
    assert NumFrom(s[0] - 0x30, s[1..]) == NumFrom(10 * Value(s[0]) + Value(s[1]), s[2..]);
    assert s[2..][1..] == [];
  }

  /** Reading the fraction is taking its first three digits, zeros standing in for those it lacks. */
  lemma ThousandthsAreMilli(s: seq<byte>)
    requires AllDigits(s)
    ensures Thousandths(s, 0, 100) == (Milli(Some(s)), []) && Milli(Some(s)) < 1000
  {
    var three := (s + [0x30, 0x30, 0x30])[..3];
    NumOfThree(three);
    if |s| > 0 {
      var t := s[1..];
      assert Thousandths(s, 0, 100) == Thousandths(t, 100 * Value(s[0]), 10);
      if |s| > 1 {
        assert t[0] == s[1] && t[1..] == s[2..];
        var u := s[2..];
        assert Thousandths(t, 100 * Value(s[0]), 10) == Thousandths(u, 100 * Value(s[0]) + 10 * Value(s[1]), 1);
        if |s| > 2 {
          assert u[0] == s[2];
          NoScaleLeft(u[1..], 100 * Value(s[0]) + 10 * Value(s[1]) + Value(s[2]));
        }
      }
    }
  }

  lemma MilliSmall(fraction: Option<seq<byte>>)
    requires fraction.Some? ==> AllDigits(fraction.value)
    ensures Milli(fraction) < 1000
  {
    if fraction.Some? {
      ThousandthsAreMilli(fraction.value);
    }
  }

  /** The wrapped whole part, scaled and wrapped again, is what it should be of what is meant. */
  lemma {:induction false} WholeIsMeant(s: seq<byte>, f: nat)
    requires AllDigits(s) && s != [] && f < 1000
    ensures var w := Whole(s, 0).0;
            && (WholeMeant(s).None? <==> w.None? || w.value > READ_MAX / 1000)
            && (WholeMeant(s).Some? ==> Wrap(w.value * 1000 + f) == 1000 * WholeMeant(s).value + f)
    decreases |s|
  {
    hide Wrap, Whole, Overrun;
    if NumFrom(0, s) <= LONG_MAX {
      WholeFits(s, 0);
    } else {
      WholeOverruns(s, 0);
      WrappedScaled(f);
      var r := Overrun(s, 0);
      if r.Some? && r.value != [] {
        WholeIsMeant(r.value, f);
        OneMeant();
      }
    }
  }

  lemma WrappedScaled(f: nat)
    requires f < 1000
    ensures Wrap((-LONG_MAX - 1) * 1000 + f) == f && Wrap(-LONG_MAX * 1000 + f) == 1000 + f
  {
  }

  lemma OneMeant()
    ensures WholeMeant([0x31]) == Some(1)
  {
    assert NumFrom(0, [0x31]) == NumFrom(1, [0x31][1..]) == 1;
  }

  lemma ReadsUnsigned(n: Numeral)
    requires n.Valid()
    ensures ReadUnsigned(n.whole + n.Tail()) ==
            match WholeMeant(n.whole)
            case None => None
            case Some(w) => Some(1000 * w + Milli(n.fraction))
  {
    hide Whole, Wrap, Thousandths, WholeMeant, Milli;
    var t := n.whole + n.Tail();
    assert t[0] == n.whole[0];
    WholeThen(n.whole, n.Tail(), 0);
    MilliSmall(n.fraction);
    WholeIsMeant(n.whole, Milli(n.fraction));
    if n.fraction.Some? {
      ThousandthsAreMilli(n.fraction.value);
      assert n.Tail()[1..] == n.fraction.value;
    } else {
      NoFraction();
    }
  }

  lemma NoFraction()
    ensures Milli(None) == 0
  {
  }

  /** Any number in plain decimal notation, however long, reads as `Meant` says. */
  lemma NumberMeans(n: Numeral)
    requires n.Valid()
    ensures ReadMilli(n.Text()) == Meant(n)
  {
    hide ReadUnsigned, WholeMeant, Milli;
    ReadsUnsigned(n);
    MilliSmall(n.fraction);
    var t := n.whole + n.Tail();
    assert ([MINUS] + t)[1..] == t && [] + t == t && t[0] == n.whole[0];
  }

  /** And nothing else reads as anything. */
  lemma OnlyNumbersRead(s: seq<byte>)
    requires ReadMilli(s).Some?
    ensures exists n: Numeral :: n.Valid() && n.Text() == s
  {
    hide Whole, Thousandths, Wrap;
    var negative := s != [] && s[0] == MINUS;
    var t := if negative then s[1..] else s;
    WholeSplits(t, 0);
    var (whole, u) := Whole(t, 0);
    var digits := t[..|t| - |u|];
    var n: Numeral;
    if u != [] && u[0] == POINT {
      ThousandthsSplit(u[1..], 0, 100);
      n := Numeral(negative, digits, Some(u[1..]));
      assert u == [POINT] + u[1..];
    } else {
      n := Numeral(negative, digits, None);
      assert digits + [] == t;
    }
    assert t == digits + u;
    assert digits != [] by {
      WholeMoves(t);
    }
    assert s == (if negative then [MINUS] else []) + t;
    assert n.Valid() && n.Text() == s;
  }

  lemma {:induction false} WholeSplits(s: seq<byte>, acc: int)
    ensures var (w, u) := Whole(s, acc);
            |u| <= |s| && u == s[|s| - |u|..] && AllDigits(s[..|s| - |u|])
    decreases |s|
  {
    hide Wrap;
    if s != [] && IsDigit(s[0]) && acc <= LONG_MAX / 10 {
      WholeSplits(s[1..], Wrap(acc * 10 + (s[0] - 0x30)));
      var u := Whole(s, acc).1;
      assert s[..|s| - |u|] == [s[0]] + s[1..][..|s| - 1 - |u|];
    }
  }

  lemma WholeMoves(s: seq<byte>)
    requires s != [] && IsDigit(s[0])
    ensures |Whole(s, 0).1| < |s|
  {
    hide Wrap;
    WholeSplits(s[1..], Wrap(s[0] - 0x30));
  }

  lemma {:induction false} ThousandthsSplit(s: seq<byte>, acc: int, scale: nat)
    requires Thousandths(s, acc, scale).1 == []
    ensures AllDigits(s)
    decreases |s|
  {
    if s != [] {
      ThousandthsSplit(s[1..], acc + (s[0] - 0x30) * scale, scale / 10);
    }
  }

  /**
   * So a number is read right or refused exactly when the digits before its point do not outgrow a
   * long at 2147483648 or 2147483649, or do and what the reading starts over with is itself out of range.
   */
  lemma NumberReadsExactly(n: Numeral)
    requires n.Valid()
    ensures ReadMilli(n.Text()) == Right(n) <==>
            match Overrun(n.whole, 0)
            case None => true
            case Some(t) => t != [] && WholeMeant(t) == None
  {
    hide ReadMilli, Overrun;
    NumberMeans(n);
  }

  /** Spelled out: 2147483648 and more digits read as those digits, 2147483649 and more as a 1 before them. */
  lemma StartsOver(at: nat, t: seq<byte>, n: Numeral)
    requires at == LONG_MAX + 1 && AllDigits(t) && n.Valid()
    ensures n.(whole := Decimal(at) + t).Valid() && n.(whole := Decimal(at + 1) + t).Valid()
    ensures ReadMilli(n.(whole := Decimal(at) + t).Text()) == ReadMilli(n.(whole := if t == [] then [0x30] else t).Text())
    ensures ReadMilli(n.(whole := Decimal(at + 1) + t).Text()) == ReadMilli(n.(whole := [0x31] + t).Text())
  {
    hide ReadMilli, WholeMeant, Decimal;
    DecimalDigits(at, t);
    DecimalDigits(at + 1, t);
    NumberMeans(n.(whole := Decimal(at) + t));
    NumberMeans(n.(whole := Decimal(at + 1) + t));
    NumberMeans(n.(whole := [0x31] + t));
    NumberMeans(n.(whole := if t == [] then [0x30] else t));
    OverrunOf(at, t);
    OverrunOf(at + 1, t);
    ZeroMeant();
  }

  lemma ZeroMeant()
    ensures WholeMeant([0x30]) == Some(0)
  {
    assert NumFrom(0, [0x30]) == NumFrom(0, [0x30][1..]) == 0;
  }

  lemma DecimalDigits(n: nat, t: seq<byte>)
    requires AllDigits(t)
    ensures AllDigits(Decimal(n) + t) && Decimal(n) + t != []
  {
  }

  lemma OverrunOf(n: nat, t: seq<byte>)
    requires (n == LONG_MAX + 1 || n == LONG_MAX + 2) && AllDigits(t)
    ensures AllDigits(Decimal(n) + t)
    ensures var r: seq<byte> := if n == LONG_MAX + 1 then t else [0x31] + t;
            Overrun(Decimal(n) + t, 0) == Some(r)
            && WholeMeant(Decimal(n) + t) == if r == [] then Some(0) else WholeMeant(r)
  {
    hide Decimal, WholeMeant;
    DecimalDigits(n, t);
    DecimalOf(n);
    var last := [Digit(n % 10)] + t;
    assert Decimal(n) + t == Decimal(n / 10) + last;
    OverrunFrom(n / 10, last);
    assert last[1..] == t;
    MeantOverrun(Decimal(n) + t);
  }

  lemma MeantOverrun(s: seq<byte>)
    requires AllDigits(s) && Overrun(s, 0).Some?
    ensures WholeMeant(s) == if Overrun(s, 0).value == [] then Some(0) else WholeMeant(Overrun(s, 0).value)
  {
    hide Overrun;
  }

  lemma {:induction false} OverrunFrom(n: nat, rest: seq<byte>)
    requires n <= LONG_MAX && AllDigits(rest)
    ensures AllDigits(Decimal(n) + rest) && Overrun(Decimal(n) + rest, 0) == Overrun(rest, n)
    decreases n
  {
    DecimalDigits(n, rest);
    if n < 10 {
      assert ([Digit(n)] + rest)[1..] == rest;
    } else {
      var last := [Digit(n % 10)] + rest;
      assert Decimal(n) + rest == Decimal(n / 10) + last;
      OverrunFrom(n / 10, last);
      assert last[1..] == rest;
    }
  }

  /** The overflow check is one digit short: a body's 2147483648 is not refused but read as nothing. */
  lemma OverflowReadsAsZero(n: nat)
    requires n == LONG_MAX + 1
    ensures ReadMilli(Decimal(n)) == Some(0)
  {
    hide Decimal;
    var last := [Digit(n % 10)];
    var z: seq<byte> := [];
    DecimalOf(n);
    WholeFrom(n / 10, last);
    assert last[1..] == z && Decimal(n)[0] == Decimal(n / 10)[0];
    LastDigit(n / 10, last);
  }

  lemma DecimalOf(n: nat)
    requires n >= 10
    ensures Decimal(n) == Decimal(n / 10) + [Digit(n % 10)]
  {
  }

  lemma LastDigit(n: nat, last: seq<byte>)
    requires |last| == 1 && IsDigit(last[0]) && n <= LONG_MAX / 10
    ensures Whole(last, n) == (Some(Wrap(n * 10 + last[0] - 0x30)), [])
  {
    var z: seq<byte> := [];
    assert last[1..] == z && Whole(z, Wrap(n * 10 + last[0] - 0x30)) == (Some(Wrap(n * 10 + last[0] - 0x30)), z);
  }
}
