/**
 * The host list of a scan result, chosen and written under a byte budget
 * (firmware/src/proto/scan_json.c, and run_scan of firmware/src/proto/proto.c).
 */
module ScanJson {
  import opened Bytes
  import opened Json

  const HOSTS_MAX: nat := 24
  const OUT_MAX: nat := 2048
  const TAIL_RESERVE: nat := 20

  datatype Host = Host(ip: seq<byte>, mac: seq<byte>, name: seq<byte>)

  function UpperHex(d: nat): byte
    requires d < 16
  {
    if d < 10 then 0x30 + d else 0x41 + d - 10
  }

  function MacText(mac: seq<byte>): seq<byte> {
    if mac == [] then []
    else [UpperHex(mac[0] / 16), UpperHex(mac[0] % 16)] + (if |mac| == 1 then [] else [0x3A]) + MacText(mac[1..])
  }

  function Field(key: string, value: seq<byte>): seq<byte>
    requires forall i :: 0 <= i < |key| ==> key[i] < 128 as char
  {
    Key(Ascii(key)) + Quoted(value)
  }

  /** One entry; a host without a name has no name field. */
  function HostText(h: Host): (t: seq<byte>)
    ensures |t| > 0
  {
    Ascii("{") + Field("ip", h.ip) + Ascii(",") + Field("mac", MacText(h.mac))
    + (if h.name == [] then [] else Ascii(",") + Field("name", h.name)) + Ascii("}")
  }

  predicate Named(h: Host) {
    h.name != []
  }

  /** write_host: an entry, after a comma unless it is the first. */
  function Written(w: Writer, h: Host, first: bool): Writer {
    Raw(w, (if first then [] else Ascii(",")) + HostText(h))
  }

  /** try_host: write and measure, and take it back if too little would be left. */
  function Tried(w: Writer, h: Host, first: bool, reserve: nat): (Writer, bool) {
    var u := Written(w, h, first);
    if !u.ok || |u.out| + reserve >= u.cap then (w, false) else (u, true)
  }

  /** One pass of the selection: which hosts it keeps, and where it leaves the writer. */
  function Pass(w: Writer, hosts: seq<Host>, named: bool, first: bool, reserve: nat): (r: (seq<bool>, Writer, bool))
    ensures |r.0| == |hosts|
    decreases |hosts|
  {
    if hosts == [] then ([], w, first)
    else if Named(hosts[0]) != named then
      var (bits, u, f) := Pass(w, hosts[1..], named, first, reserve);
      ([false] + bits, u, f)
    else
      var (v, ok) := Tried(w, hosts[0], first, reserve);
      var (bits, u, f) := Pass(v, hosts[1..], named, first && !ok, reserve);
      ([ok] + bits, u, f)
  }

  function Either(a: seq<bool>, b: seq<bool>): (c: seq<bool>)
    requires |a| == |b|
    ensures |c| == |a|
  {
    seq(|a|, i requires 0 <= i < |a| => a[i] || b[i])
  }

  /** The second writing: those kept, in the caller's order. */
  function WrittenAll(w: Writer, hosts: seq<Host>, keep: seq<bool>, first: bool): Writer
    requires |keep| == |hosts|
    decreases |hosts|
  {
    if hosts == [] then w
    else if keep[0] then WrittenAll(Written(w, hosts[0], first), hosts[1..], keep[1..], false)
    else WrittenAll(w, hosts[1..], keep[1..], first)
  }

  function Opened(w: Writer): Writer {
    Raw(w, Key(Ascii("hosts")) + Ascii("["))
  }

  /** Named hosts are chosen first, then the others. */
  function Chosen(w: Writer, hosts: seq<Host>, reserve: nat): (keep: seq<bool>)
    ensures |keep| == |hosts|
  {
    var (named, u, first) := Pass(w, hosts, true, true, reserve);
    Either(named, Pass(u, hosts, false, first, reserve).0)
  }

  /** Hosts past the 24th are not looked at. */
  function Capped(hosts: seq<Host>): (few: seq<Host>)
    ensures few <= hosts && |few| <= HOSTS_MAX
  {
    if |hosts| > HOSTS_MAX then hosts[..HOSTS_MAX] else hosts
  }

  /** rw_scan_json_hosts: the array of those of the first 24 that are chosen, and whether that is all of them. */
  function HostArray(w: Writer, hosts: seq<Host>, reserve: nat): (Writer, bool) {
    var start, few := Opened(w), Capped(hosts);
    var keep := Chosen(start, few, reserve);
    (Raw(WrittenAll(start, few, keep, true), Ascii("]")), forall i :: 0 <= i < |keep| ==> keep[i])
  }

  // The budget

  /** What the entries kept cost, a separator counted with each. */
  function Cost(hosts: seq<Host>, keep: seq<bool>): nat
    requires |keep| == |hosts|
    decreases |hosts|
  {
    if hosts == [] then 0
    else (if keep[0] then |HostText(hosts[0])| + 1 else 0) + Cost(hosts[1..], keep[1..])
  }

  /** The length of a list of entries: their cost, less the separator the first does not have. */
  function ListLength(hosts: seq<Host>, keep: seq<bool>, first: bool): nat
    requires |keep| == |hosts|
  {
    CostPositive(hosts, keep);
    if first && true in keep then Cost(hosts, keep) - 1 else Cost(hosts, keep)
  }

  lemma {:induction false} CostPositive(hosts: seq<Host>, keep: seq<bool>)
    requires |keep| == |hosts|
    ensures true in keep <==> Cost(hosts, keep) > 0
    decreases |hosts|
  {
    if hosts != [] {
      CostPositive(hosts[1..], keep[1..]);
      assert keep == [keep[0]] + keep[1..];
    }
  }

  lemma {:induction false} EitherCost(hosts: seq<Host>, a: seq<bool>, b: seq<bool>)
    requires |a| == |b| == |hosts| && forall i :: 0 <= i < |a| ==> !(a[i] && b[i])
    ensures Cost(hosts, Either(a, b)) == Cost(hosts, a) + Cost(hosts, b)
    decreases |hosts|
  {
    if hosts != [] {
      assert Either(a, b)[1..] == Either(a[1..], b[1..]);
      EitherCost(hosts[1..], a[1..], b[1..]);
    }
  }

  lemma WrittenFits(w: Writer, h: Host, first: bool)
    requires w.ok
    ensures var n := |HostText(h)| + (if first then 0 else 1);
            var u := Written(w, h, first);
            && (|w.out| + n < w.cap ==> u.ok && u.cap == w.cap && |u.out| == |w.out| + n)
            && (|w.out| < w.cap <= |w.out| + n ==> !u.ok)
  {
    hide HostText;
    RawFits(w, (if first then [] else Ascii(",")) + HostText(h));
  }

  /** A pass that starts with room to spare ends with room to spare, having written what it kept. */
  lemma {:induction false} PassFits(w: Writer, hosts: seq<Host>, named: bool, first: bool, reserve: nat)
    requires w.ok && |w.out| + reserve < w.cap
    ensures var (bits, u, f) := Pass(w, hosts, named, first, reserve);
            && u.ok && u.cap == w.cap && |u.out| == |w.out| + ListLength(hosts, bits, first)
            && |u.out| + reserve < w.cap && f == (first && !(true in bits))
            && forall i :: 0 <= i < |hosts| && bits[i] ==> Named(hosts[i]) == named
    decreases |hosts|
  {
    hide HostText, Written;
    if hosts != [] {
      var h := hosts[0];
      WrittenFits(w, h, first);
      if Named(h) != named {
        PassFits(w, hosts[1..], named, first, reserve);
        BitsCons(hosts, false, Pass(w, hosts[1..], named, first, reserve).0, first);
      } else {
        var (v, ok) := Tried(w, h, first, reserve);
        PassFits(v, hosts[1..], named, first && !ok, reserve);
        BitsCons(hosts, ok, Pass(v, hosts[1..], named, first && !ok, reserve).0, first);
      }
    }
  }

  lemma BitsCons(hosts: seq<Host>, bit: bool, bits: seq<bool>, first: bool)
    requires hosts != [] && |bits| + 1 == |hosts|
    ensures var all := [bit] + bits;
            && (true in all <==> bit || true in bits)
            && ListLength(hosts, all, first) ==
               (if bit then |HostText(hosts[0])| + (if first then 0 else 1) + ListLength(hosts[1..], bits, false)
                else ListLength(hosts[1..], bits, first))
  {
    hide HostText;
    var all := [bit] + bits;
    assert all[1..] == bits;
    assert true in all <==> bit || true in bits;
  }

  /** Writing what fits, in any order, fits. */
  lemma {:induction false} WrittenAllFits(w: Writer, hosts: seq<Host>, keep: seq<bool>, first: bool)
    requires w.ok && |keep| == |hosts| && |w.out| + ListLength(hosts, keep, first) < w.cap
    ensures var u := WrittenAll(w, hosts, keep, first);
            u.ok && u.cap == w.cap && |u.out| == |w.out| + ListLength(hosts, keep, first)
    decreases |hosts|
  {
    hide HostText, Written;
    if hosts != [] {
      BitsCons(hosts, keep[0], keep[1..], first);
      assert [keep[0]] + keep[1..] == keep;
      if keep[0] {
        WrittenFits(w, hosts[0], first);
        WrittenAllFits(Written(w, hosts[0], first), hosts[1..], keep[1..], false);
      } else {
        WrittenAllFits(w, hosts[1..], keep[1..], first);
      }
    }
  }

  lemma ChosenFits(w: Writer, hosts: seq<Host>, reserve: nat)
    requires w.ok && |w.out| + reserve < w.cap
    ensures |w.out| + ListLength(hosts, Chosen(w, hosts, reserve), true) + reserve < w.cap
  {
    hide Pass, HostText;
    var (a, u, first) := Pass(w, hosts, true, true, reserve);
    PassFits(w, hosts, true, true, reserve);
    var b := Pass(u, hosts, false, first, reserve).0;
    PassFits(u, hosts, false, first, reserve);
    EitherCost(hosts, a, b);
    CostPositive(hosts, a);
    CostPositive(hosts, b);
    CostPositive(hosts, Either(a, b));
  }

  /**
   * With the reserve free before the array, the array is written whole, the second writing never
   * runs out though it reorders the entries, and what the reserve is for still fits after it.
   */
  lemma ArrayFits(w: Writer, hosts: seq<Host>, reserve: nat, tail: seq<byte>)
    requires w.ok && |w.out| + |Key(Ascii("hosts")) + Ascii("[")| + reserve < w.cap && |tail| + 1 <= reserve
    ensures var (u, _) := HostArray(w, hosts, reserve);
            u.ok && u.cap == w.cap && Raw(u, tail).ok && |Raw(u, tail).out| < w.cap
  {
    hide Pass, HostText;
    RawFits(w, Key(Ascii("hosts")) + Ascii("["));
    var start, few := Opened(w), Capped(hosts);
    var keep := Chosen(start, few, reserve);
    ChosenFits(start, few, reserve);
    WrittenAllFits(start, few, keep, true);
    var all := WrittenAll(start, few, keep, true);
    RawFits(all, Ascii("]"));
    RawFits(Raw(all, Ascii("]")), tail);
  }

  // The whole frame

  function Prefix(req: seq<byte>, gateway: seq<byte>): seq<byte> {
    Ascii("{") + Field("t", Ascii("scan_result")) + Ascii(",") + Field("req_id", req) + Ascii(",")
    + Key(Ascii("ok")) + Ascii("true") + Ascii(",") + Field("gateway", gateway) + Ascii(",")
  }

  function Tail(all: bool): seq<byte> {
    Ascii(",") + Key(Ascii("truncated")) + Ascii(if all then "false" else "true") + Ascii("}")
  }

  /** run_scan's frame. */
  function Frame(req: seq<byte>, gateway: seq<byte>, hosts: seq<Host>): Writer {
    var (w, all) := HostArray(Raw(Writer([], OUT_MAX, true), Prefix(req, gateway)), hosts, TAIL_RESERVE);
    Raw(w, Tail(all))
  }

  lemma {:induction false} PlainUnescaped(s: seq<byte>)
    requires forall i :: 0 <= i < |s| ==> s[i] >= 0x20 && s[i] != QUOTE && s[i] != BACKSLASH
    ensures Escaped(s) == s
    decreases |s|
  {
    if s != [] {
      PlainUnescaped(s[1..]);
      assert [s[0]] + s[1..] == s;
    }
  }

  /** A plain name between quotes, and the colon after it. */
  function Label(k: string): seq<byte>
    requires forall i :: 0 <= i < |k| ==> k[i] < 128 as char
  {
    [QUOTE] + Ascii(k) + [QUOTE, 0x3A]
  }

  lemma PlainKey(k: string)
    requires forall i :: 0 <= i < |k| ==> ' ' <= k[i] < 128 as char && k[i] != '"' && k[i] != '\\'
    ensures Key(Ascii(k)) == Label(k)
  {
    PlainUnescaped(Ascii(k));
  }

  lemma FieldText(k: string, value: seq<byte>)
    requires forall i :: 0 <= i < |k| ==> ' ' <= k[i] < 128 as char && k[i] != '"' && k[i] != '\\'
    ensures Field(k, value) == Label(k) + Quoted(value)
  {
    hide Quoted, Key, Label;
    PlainKey(k);
  }

  /** What comes before the list. */
  function Before(req: seq<byte>, gateway: seq<byte>): seq<byte> {
    Ascii("{") + (Label("t") + Quoted(Ascii("scan_result"))) + Ascii(",") + (Label("req_id") + Quoted(req)) + Ascii(",")
    + Label("ok") + Ascii("true") + Ascii(",") + (Label("gateway") + Quoted(gateway)) + Ascii(",")
  }

  /** The frame around the list, as text. */
  lemma FrameText(req: seq<byte>, gateway: seq<byte>)
    ensures Prefix(req, gateway) == Before(req, gateway)
  {
    hide Key, Quoted, Label, Field, Ascii;
    assert Field("t", Ascii("scan_result")) == Label("t") + Quoted(Ascii("scan_result")) by {
      FieldText("t", Ascii("scan_result"));
    }
    assert Field("req_id", req) == Label("req_id") + Quoted(req) by {
      FieldText("req_id", req);
    }
    assert Field("gateway", gateway) == Label("gateway") + Quoted(gateway) by {
      FieldText("gateway", gateway);
    }
    assert Key(Ascii("ok")) == Label("ok") by {
      PlainKey("ok");
    }
  }

  lemma TailText(all: bool)
    ensures Tail(all) == Ascii(",") + Label("truncated") + (if all then Ascii("false") else Ascii("true")) + Ascii("}")
  {
    hide Key, Label, Ascii;
    PlainKey("truncated");
  }

  /** And an entry of it: the name is there exactly when there is one. */
  lemma EntryText(h: Host)
    ensures HostText(h) == Ascii("{") + (Label("ip") + Quoted(h.ip)) + Ascii(",") + (Label("mac") + Quoted(MacText(h.mac)))
                           + (if |h.name| > 0 then Ascii(",") + (Label("name") + Quoted(h.name)) else []) + Ascii("}")
    ensures Named(h) <==> |h.name| > 0
  {
    hide Key, Quoted, MacText, Label;
    PlainKey("ip");
    PlainKey("mac");
    PlainKey("name");
  }

  /** An address as text: two upper-case digits a byte, most significant first, with colons between. */
  lemma {:induction false} MacTextReads(mac: seq<byte>, k: nat)
    requires k < |mac|
    ensures var t := MacText(mac);
            && |t| == 3 * |mac| - 1
            && t[3 * k] == UpperHex(mac[k] / 16) && t[3 * k + 1] == UpperHex(mac[k] % 16)
            && (k + 1 < |mac| ==> t[3 * k + 2] == 0x3A)
    decreases |mac|
  {
    hide UpperHex;
    if k > 0 {
      MacTextReads(mac[1..], k - 1);
    } else if |mac| > 1 {
      MacTextReads(mac[1..], 0);
    }
  }

  lemma UpperHexReads(d: nat)
    requires d < 16
    ensures UpperHex(d) as char == "0123456789ABCDEF"[d] && Hex1(UpperHex(d)) == Some(d)
  {
  }

  lemma TailLength(all: bool)
    ensures |Tail(all)| <= 19
  {
    PlainUnescaped(Ascii("truncated"));
  }

  lemma PrefixLength(req: seq<byte>, gateway: seq<byte>)
    requires |req| <= 36 && |gateway| <= 15
    ensures |Prefix(req, gateway)| <= 800
    ensures |Key(Ascii("hosts")) + Ascii("[")| <= 40
  {
    hide Quoted, Ascii;
  }

  /** A scan result always fits its buffer, whatever was found and however it is named. */
  lemma FrameFits(req: seq<byte>, gateway: seq<byte>, hosts: seq<Host>)
    requires |req| <= 36 && |gateway| <= 15
    ensures var f := Frame(req, gateway, hosts);
            f.ok && |f.out| < OUT_MAX
  {
    hide Pass, HostText, HostArray, Prefix, Tail;
    var empty := Writer([], OUT_MAX, true);
    PrefixLength(req, gateway);
    RawFits(empty, Prefix(req, gateway));
    var w := Raw(empty, Prefix(req, gateway));
    var all := HostArray(w, hosts, TAIL_RESERVE).1;
    TailLength(all);
    ArrayFits(w, hosts, TAIL_RESERVE, Tail(all));
  }

  // Which hosts

  /** The hosts kept, in order. */
  function Kept(hosts: seq<Host>, keep: seq<bool>): seq<Host>
    requires |keep| == |hosts|
    decreases |hosts|
  {
    if hosts == [] then [] else (if keep[0] then [hosts[0]] else []) + Kept(hosts[1..], keep[1..])
  }

  function NamedOf(hosts: seq<Host>): seq<Host> {
    if hosts == [] then [] else (if Named(hosts[0]) then [hosts[0]] else []) + NamedOf(hosts[1..])
  }

  /** A pass sees only its own kind. */
  lemma {:induction false} PassSeesNamed(w: Writer, hosts: seq<Host>, first: bool, reserve: nat)
    ensures Kept(hosts, Pass(w, hosts, true, first, reserve).0)
            == Kept(NamedOf(hosts), Pass(w, NamedOf(hosts), true, first, reserve).0)
    ensures Pass(w, hosts, true, first, reserve).1 == Pass(w, NamedOf(hosts), true, first, reserve).1
    decreases |hosts|
  {
    hide Tried;
    if hosts != [] {
      var rest := hosts[1..];
      if Named(hosts[0]) {
        var (v, ok) := Tried(w, hosts[0], first, reserve);
        PassSeesNamed(v, rest, first && !ok, reserve);
        assert NamedOf(hosts)[1..] == NamedOf(rest);
        KeptCons(hosts, ok, Pass(v, rest, true, first && !ok, reserve).0);
        KeptCons(NamedOf(hosts), ok, Pass(v, NamedOf(rest), true, first && !ok, reserve).0);
      } else {
        PassSeesNamed(w, rest, first, reserve);
        KeptCons(hosts, false, Pass(w, rest, true, first, reserve).0);
        assert [] + NamedOf(rest) == NamedOf(rest);
      }
    }
  }

  lemma KeptCons(hosts: seq<Host>, bit: bool, bits: seq<bool>)
    requires hosts != [] && |bits| + 1 == |hosts|
    ensures Kept(hosts, [bit] + bits) == (if bit then [hosts[0]] else []) + Kept(hosts[1..], bits)
    ensures !bit ==> Kept(hosts, [bit] + bits) == Kept(hosts[1..], bits)
  {
    assert ([bit] + bits)[1..] == bits;
    assert [] + Kept(hosts[1..], bits) == Kept(hosts[1..], bits);
  }

  lemma {:induction false} NamedAmongKept(hosts: seq<Host>, a: seq<bool>, b: seq<bool>)
    requires |a| == |b| == |hosts|
    requires forall i :: 0 <= i < |hosts| ==> (a[i] ==> Named(hosts[i])) && (b[i] ==> !Named(hosts[i]))
    ensures NamedOf(Kept(hosts, Either(a, b))) == Kept(hosts, a)
    decreases |hosts|
  {
    if hosts != [] {
      NamedAmongKept(hosts[1..], a[1..], b[1..]);
      assert Either(a, b)[1..] == Either(a[1..], b[1..]);
      var rest := Kept(hosts[1..], Either(a, b)[1..]);
      assert ([hosts[0]] + rest)[1..] == rest && [] + rest == rest;
      assert [] + NamedOf(rest) == NamedOf(rest);
    }
  }

  lemma {:induction false} PassOwnKind(w: Writer, hosts: seq<Host>, named: bool, first: bool, reserve: nat)
    ensures var bits := Pass(w, hosts, named, first, reserve).0;
            forall i :: 0 <= i < |hosts| && bits[i] ==> Named(hosts[i]) == named
    decreases |hosts|
  {
    hide Tried;
    if hosts != [] {
      var (v, ok) := Tried(w, hosts[0], first, reserve);
      PassOwnKind(v, hosts[1..], named, first && !ok, reserve);
      PassOwnKind(w, hosts[1..], named, first, reserve);
    }
  }

  /** The named hosts kept are those that would be kept if there were no others. */
  lemma NamedComeFirst(w: Writer, hosts: seq<Host>, reserve: nat)
    ensures NamedOf(Kept(hosts, Chosen(w, hosts, reserve)))
            == Kept(NamedOf(hosts), Pass(w, NamedOf(hosts), true, true, reserve).0)
  {
    hide Pass;
    var (a, u, first) := Pass(w, hosts, true, true, reserve);
    PassOwnKind(w, hosts, true, true, reserve);
    PassOwnKind(u, hosts, false, first, reserve);
    NamedAmongKept(hosts, a, Pass(u, hosts, false, first, reserve).0);
    PassSeesNamed(w, hosts, true, reserve);
  }

  /** Everything is kept exactly when every host is in the list, in the caller's order. */
  lemma {:induction false} KeptIsAll(hosts: seq<Host>, keep: seq<bool>)
    requires |keep| == |hosts|
    ensures (forall i :: 0 <= i < |keep| ==> keep[i]) <==> Kept(hosts, keep) == hosts
    ensures |Kept(hosts, keep)| <= |hosts|
    decreases |hosts|
  {
    if hosts != [] {
      KeptIsAll(hosts[1..], keep[1..]);
      assert keep == [keep[0]] + keep[1..];
      assert hosts == [hosts[0]] + hosts[1..];
      assert keep[0] ==> ([hosts[0]] + Kept(hosts[1..], keep[1..]))[1..] == Kept(hosts[1..], keep[1..]);
    }
  }

  /**
   * The flag that says whether the list is all of them: true exactly when each of the first 24
   * hosts is in it. So it can be believed exactly when there are no more than 24.
   */
  lemma AllMeansAllExactly(w: Writer, hosts: seq<Host>, reserve: nat)
    ensures var (list, all) := (Kept(Capped(hosts), Chosen(Opened(w), Capped(hosts), reserve)), HostArray(w, hosts, reserve).1);
            && (all <==> list == Capped(hosts))
            && (list == hosts <==> all && |hosts| <= HOSTS_MAX)
  {
    hide Pass, Kept;
    KeptIsAll(Capped(hosts), Chosen(Opened(w), Capped(hosts), reserve));
  }

  // What is in the array

  function Joined(hosts: seq<Host>, first: bool): seq<byte>
    decreases |hosts|
  {
    if hosts == [] then [] else (if first then [] else Ascii(",")) + HostText(hosts[0]) + Joined(hosts[1..], false)
  }

  lemma WrittenText(w: Writer, h: Host, first: bool)
    requires Written(w, h, first).ok && w.ok && |w.out| < w.cap
    ensures Written(w, h, first).out == w.out + ((if first then [] else Ascii(",")) + HostText(h))
  {
    hide HostText;
    RawFits(w, (if first then [] else Ascii(",")) + HostText(h));
  }

  /** The array holds the entries of the hosts kept, in the caller's order, separated by commas. */
  lemma {:induction false} ArrayHolds(w: Writer, hosts: seq<Host>, keep: seq<bool>, first: bool)
    requires w.ok && |keep| == |hosts| && |w.out| + ListLength(hosts, keep, first) < w.cap
    ensures WrittenAll(w, hosts, keep, first).out == w.out + Joined(Kept(hosts, keep), first)
    decreases |hosts|
  {
    hide HostText, Written;
    if hosts == [] {
      assert w.out + [] == w.out;
    } else {
      BitsCons(hosts, keep[0], keep[1..], first);
      KeptCons(hosts, keep[0], keep[1..]);
      assert [keep[0]] + keep[1..] == keep;
      if keep[0] {
        WrittenFits(w, hosts[0], first);
        var u := Written(w, hosts[0], first);
        WrittenText(w, hosts[0], first);
        ArrayHolds(u, hosts[1..], keep[1..], false);
        var rest := Kept(hosts[1..], keep[1..]);
        assert ([hosts[0]] + rest)[1..] == rest;
      } else {
        ArrayHolds(w, hosts[1..], keep[1..], first);
      }
    }
  }

  // The code

  method WriteHost(w: JsonWriter, h: Host, first: bool)
    requires w.Valid()
    modifies w, w.buf
    ensures w.Valid() && w.Now() == Written(old(w.Now()), h, first)
  {
    hide Raw, Key, Quoted, MacText;
    ghost var start := w.Now();
    ghost var text: seq<byte> := [];
    RawNothing(start);
    if !first {
      text := Piece(w, start, text, Ascii(","));
    }
    text := Piece(w, start, text, Ascii("{"));
    text := PieceField(w, start, text, Ascii("ip"), h.ip);
    text := Piece(w, start, text, Ascii(","));
    text := PieceField(w, start, text, Ascii("mac"), MacText(h.mac));
    if h.name != [] {
      text := Piece(w, start, text, Ascii(","));
      text := PieceField(w, start, text, Ascii("name"), h.name);
    }
    text := Piece(w, start, text, Ascii("}"));
    Assembled(text, h, first);
  }

  lemma RawNothing(w: Writer)
    ensures Raw(w, []) == w
  {
  }

  /** Writing one more piece of a text that has been written as far as `done`. */
  method Piece(w: JsonWriter, ghost start: Writer, ghost done: seq<byte>, text: seq<byte>) returns (ghost more: seq<byte>)
    requires w.Valid() && w.Now() == Raw(start, done)
    modifies w, w.buf
    ensures w.Valid() && more == done + text && w.Now() == Raw(start, more)
  {
    RawConcat(start, done, text);
    w.PutRaw(text);
    more := done + text;
  }

  method PieceField(w: JsonWriter, ghost start: Writer, ghost done: seq<byte>, key: seq<byte>, value: seq<byte>)
    returns (ghost more: seq<byte>)
    requires w.Valid() && w.Now() == Raw(start, done)
    modifies w, w.buf
    ensures w.Valid() && more == done + (Key(key) + Quoted(value)) && w.Now() == Raw(start, more)
  {
    RawConcat(start, done, Key(key) + Quoted(value));
    RawConcat(w.Now(), Key(key), Quoted(value));
    w.PutKey(key);
    w.PutString(value);
    more := done + (Key(key) + Quoted(value));
  }

  lemma Assembled(text: seq<byte>, h: Host, first: bool)
    requires text == (if first then [] else [] + Ascii(",")) + Ascii("{") + (Key(Ascii("ip")) + Quoted(h.ip)) + Ascii(",")
                     + (Key(Ascii("mac")) + Quoted(MacText(h.mac)))
                     + (if h.name == [] then [] else Ascii(",") + (Key(Ascii("name")) + Quoted(h.name))) + Ascii("}")
    ensures text == (if first then [] else Ascii(",")) + HostText(h)
  {
    hide Key, Quoted, MacText;
  }

  method TryHost(w: JsonWriter, h: Host, first: bool, reserve: nat) returns (ok: bool)
    requires w.Valid()
    modifies w, w.buf
    ensures w.Valid() && (w.Now(), ok) == Tried(old(w.Now()), h, first, reserve)
    ensures w.len >= old(w.len) && w.buf[..old(w.len)] == old(w.buf[..w.len])
  {
    hide Written;
    ghost var before := w.Now();
    var oldLen, oldOk := w.len, w.ok;
    WriteHost(w, h, first);
    WrittenAppends(before, h, first);
    ghost var after := w.Now();
    assert w.buf[..oldLen] == after.out[..oldLen] == before.out;
    if !w.ok || w.len + reserve >= w.buf.Length {
      w.Rewind(oldLen, oldOk);
      return false;
    }
    ok := true;
  }

  lemma WrittenAppends(w: Writer, h: Host, first: bool)
    ensures w.out <= Written(w, h, first).out && Written(w, h, first).cap == w.cap
  {
    hide HostText;
    RawAppends(w, (if first then [] else Ascii(",")) + HostText(h));
  }

  /** One host of a pass, if it is of the kind the pass wants. */
  method SelectOne(w: JsonWriter, hosts: seq<Host>, i: nat, named: bool, first: bool, reserve: nat, keep: array<bool>)
    returns (ok: bool)
    requires w.Valid() && keep.Length == |hosts| && i < |hosts|
    modifies w, w.buf, keep
    ensures w.Valid()
    ensures (w.Now(), ok) == if Named(hosts[i]) == named then Tried(old(w.Now()), hosts[i], first, reserve) else (old(w.Now()), false)
    ensures keep[..] == old(keep[..])[i := old(keep[i]) || ok]
    ensures old(w.Now()).out <= w.Now().out
  {
    hide Tried;
    if Named(hosts[i]) != named {
      return false;
    }
    ok := TryHost(w, hosts[i], first, reserve);
    if ok {
      keep[i] := true;
    }
  }

  /** One pass over the hosts, marking those kept. */
  method SelectPass(w: JsonWriter, hosts: seq<Host>, named: bool, first: bool, reserve: nat, keep: array<bool>)
    returns (stillFirst: bool, dropped: bool)
    requires w.Valid() && keep.Length == |hosts|
    modifies w, w.buf, keep
    ensures w.Valid()
    ensures var (bits, u, f) := Pass(old(w.Now()), hosts, named, first, reserve);
            && w.Now() == u && stillFirst == f && keep[..] == Either(old(keep[..]), bits)
            && (dropped <==> Drops(hosts, named, bits))
    ensures old(w.Now()).out <= w.Now().out
  {
    hide Tried, Pass, Drops, Named, Either, SoFar, Marks;
    stillFirst, dropped := first, false;
    ghost var start, was := w.Now(), keep[..];
    ghost var bits: seq<bool> := [];
    NothingDropped(hosts, named);
    NothingSoFar(start, hosts, named, first, reserve);
    MarksNone(was);
    for i := 0 to |hosts|
      invariant w.Valid() && |bits| == i
      invariant SoFar(start, hosts, named, first, reserve, bits, w.Now(), stillFirst)
      invariant |was| == |hosts| && Marks(keep[..], was, bits)
      invariant dropped <==> Drops(hosts, named, bits)
      invariant start.out <= w.Now().out
    {
      OneMore(start, hosts, named, first, reserve, bits, w.Now(), stillFirst);
      ghost var marks := keep[..];
      var ok := SelectOne(w, hosts, i, named, stillFirst, reserve, keep);
      DropsSnoc(hosts, named, bits, ok);
      MarksMore(marks, was, bits, ok);
      bits := bits + [ok];
      if ok {
        stillFirst := false;
      } else if Named(hosts[i]) == named {
        dropped := true;
      }
    }
    AllSoFar(start, hosts, named, first, reserve, bits, w.Now(), stillFirst);
    MarksAll(keep[..], was, bits);
  }

  /** The pass as a whole is what has been decided and the pass over the rest. */
  ghost predicate SoFar(start: Writer, hosts: seq<Host>, named: bool, first: bool, reserve: nat,
                        bits: seq<bool>, now: Writer, stillFirst: bool) {
    |bits| <= |hosts|
    && var (rest, u, f) := Pass(now, hosts[|bits|..], named, stillFirst, reserve);
       Pass(start, hosts, named, first, reserve) == (bits + rest, u, f)
  }

  lemma NothingSoFar(start: Writer, hosts: seq<Host>, named: bool, first: bool, reserve: nat)
    ensures SoFar(start, hosts, named, first, reserve, [], start, first)
  {
    hide Pass;
    assert hosts[0..] == hosts;
    var bits := Pass(start, hosts, named, first, reserve).0;
    assert [] + bits == bits;
  }

  lemma OneMore(start: Writer, hosts: seq<Host>, named: bool, first: bool, reserve: nat,
                bits: seq<bool>, now: Writer, stillFirst: bool)
    requires SoFar(start, hosts, named, first, reserve, bits, now, stillFirst) && |bits| < |hosts|
    ensures var h := hosts[|bits|];
            var (v, ok) := if Named(h) == named then Tried(now, h, stillFirst, reserve) else (now, false);
            SoFar(start, hosts, named, first, reserve, bits + [ok], v, stillFirst && !ok)
  {
    hide Pass, Tried, Named;
    var i := |bits|;
    assert hosts[i..][0] == hosts[i] && hosts[i..][1..] == hosts[i + 1..];
    PassUnfolds(now, hosts[i..], named, stillFirst, reserve);
    var (v, ok) := if Named(hosts[i]) == named then Tried(now, hosts[i], stillFirst, reserve) else (now, false);
    var rest := Pass(v, hosts[i + 1..], named, stillFirst && !ok, reserve).0;
    assert bits + ([ok] + rest) == bits + [ok] + rest;
  }

  lemma AllSoFar(start: Writer, hosts: seq<Host>, named: bool, first: bool, reserve: nat,
                 bits: seq<bool>, now: Writer, stillFirst: bool)
    requires SoFar(start, hosts, named, first, reserve, bits, now, stillFirst) && |bits| == |hosts|
    ensures Pass(start, hosts, named, first, reserve) == (bits, now, stillFirst)
  {
    hide Pass;
    assert hosts[|hosts|..] == [];
    PassOfNone(now, named, stillFirst, reserve);
    assert bits + [] == bits;
  }

  /** Some host of this kind was not kept, among those the bits speak of. */
  ghost predicate Drops(hosts: seq<Host>, named: bool, bits: seq<bool>) {
    exists i :: 0 <= i < |bits| && i < |hosts| && Named(hosts[i]) == named && !bits[i]
  }

  lemma NothingDropped(hosts: seq<Host>, named: bool)
    ensures !Drops(hosts, named, [])
  {
  }

  lemma DropsSnoc(hosts: seq<Host>, named: bool, bits: seq<bool>, bit: bool)
    requires |bits| < |hosts|
    ensures Drops(hosts, named, bits + [bit]) <==> Drops(hosts, named, bits) || (Named(hosts[|bits|]) == named && !bit)
  {
    var all := bits + [bit];
    if Drops(hosts, named, bits) {
      var i :| 0 <= i < |bits| && i < |hosts| && Named(hosts[i]) == named && !bits[i];
      assert !all[i];
    }
    if Named(hosts[|bits|]) == named && !bit {
      assert !all[|bits|];
    }
  }

  /** The array half-way through a pass: what it held, with the bits decided so far put in. */
  ghost predicate Marks(now: seq<bool>, was: seq<bool>, bits: seq<bool>) {
    && |now| == |was| >= |bits|
    && forall i :: 0 <= i < |was| ==> now[i] == (was[i] || (i < |bits| && bits[i]))
  }

  lemma MarksNone(was: seq<bool>)
    ensures Marks(was, was, [])
  {
  }

  lemma MarksMore(now: seq<bool>, was: seq<bool>, bits: seq<bool>, bit: bool)
    requires |bits| < |was| && Marks(now, was, bits)
    ensures |now| == |was| && Marks(now[|bits| := now[|bits|] || bit], was, bits + [bit])
  {
  }

  lemma MarksAll(now: seq<bool>, was: seq<bool>, bits: seq<bool>)
    requires |bits| == |was| && Marks(now, was, bits)
    ensures now == Either(was, bits)
  {
  }

  lemma PassUnfolds(w: Writer, hosts: seq<Host>, named: bool, first: bool, reserve: nat)
    requires hosts != []
    ensures var mine := Named(hosts[0]) == named;
            var (v, ok) := if mine then Tried(w, hosts[0], first, reserve) else (w, false);
            var (bits, u, f) := Pass(v, hosts[1..], named, first && !ok, reserve);
            Pass(w, hosts, named, first, reserve) == ([ok] + bits, u, f)
  {
    hide Tried;
  }

  lemma PassOfNone(w: Writer, named: bool, first: bool, reserve: nat)
    ensures Pass(w, [], named, first, reserve) == ([], w, first)
  {
  }

  method WriteKept(w: JsonWriter, hosts: seq<Host>, keep: array<bool>)
    requires w.Valid() && keep.Length == |hosts|
    modifies w, w.buf
    ensures w.Valid() && w.Now() == WrittenAll(old(w.Now()), hosts, keep[..], true)
  {
    hide Written;
    var first := true;
    ghost var start, bits := w.Now(), keep[..];
    assert hosts[0..] == hosts && bits[0..] == bits;
    for i := 0 to |hosts|
      invariant w.Valid() && keep[..] == bits
      invariant WrittenAll(w.Now(), hosts[i..], bits[i..], first) == WrittenAll(start, hosts, bits, true)
    {
      assert hosts[i..][1..] == hosts[i + 1..] && bits[i..][1..] == bits[i + 1..];
      if keep[i] {
        WriteHost(w, hosts[i], first);
        first := false;
      }
    }
    assert hosts[|hosts|..] == [];
  }

  /** Both passes: which hosts are kept, and whether that is all of them. */
  method SelectHosts(w: JsonWriter, hosts: seq<Host>, reserve: nat, keep: array<bool>) returns (all: bool)
    requires w.Valid() && keep.Length == |hosts| && forall i :: 0 <= i < |hosts| ==> !keep[i]
    modifies w, w.buf, keep
    ensures w.Valid() && keep[..] == Chosen(old(w.Now()), hosts, reserve)
    ensures all <==> forall i :: 0 <= i < keep.Length ==> keep[i]
    ensures old(w.Now()).out <= w.Now().out
  {
    hide Pass;
    ghost var start := w.Now();
    var first, droppedNamed := SelectPass(w, hosts, true, true, reserve, keep);
    ghost var named := Pass(start, hosts, true, true, reserve).0;
    ghost var middle := w.Now();
    assert keep[..] == named;
    var _, droppedOther := SelectPass(w, hosts, false, first, reserve, keep);
    ghost var others := Pass(middle, hosts, false, first, reserve).0;
    assert keep[..] == Either(named, others);
    all := !(droppedNamed || droppedOther);
    PassOwnKind(start, hosts, true, true, reserve);
    PassOwnKind(middle, hosts, false, first, reserve);
    DroppedMeans(hosts, named, others);
    assert forall i :: 0 <= i < keep.Length ==> keep[i] == Either(named, others)[i];
  }

  /** The code of rw_scan_json_hosts. */
  method HostsInto(w: JsonWriter, hosts: seq<Host>, reserve: nat) returns (all: bool)
    requires w.Valid()
    modifies w, w.buf
    ensures w.Valid() && (w.Now(), all) == HostArray(old(w.Now()), hosts, reserve)
  {
    hide Pass, Chosen, WrittenAll, Raw, Key;
    RawConcat(w.Now(), Key(Ascii("hosts")), Ascii("["));
    w.PutKey(Ascii("hosts"));
    w.PutRaw(Ascii("["));
    var startLen, startOk := w.len, w.ok;
    ghost var start := w.Now();
    var few := hosts;
    if |few| > HOSTS_MAX {
      few := few[..HOSTS_MAX];
    }
    assert few == Capped(hosts);
    var keep := new bool[|few|](_ => false);
    all := SelectHosts(w, few, reserve, keep);
    ghost var bits := keep[..];
    assert bits == Chosen(start, few, reserve);
    assert w.buf[..startLen] == w.Now().out[..startLen] == start.out;
    w.Rewind(startLen, startOk);
    WriteKept(w, few, keep);
    w.PutRaw(Ascii("]"));
  }

  lemma DroppedMeans(hosts: seq<Host>, a: seq<bool>, b: seq<bool>)
    requires |a| == |b| == |hosts|
    requires forall i :: 0 <= i < |hosts| ==> (a[i] ==> Named(hosts[i])) && (b[i] ==> !Named(hosts[i]))
    ensures (forall i :: 0 <= i < |hosts| ==> Either(a, b)[i])
            <==> !(Drops(hosts, true, a) || Drops(hosts, false, b))
  {
    if i :| 0 <= i < |hosts| && Named(hosts[i]) == true && !a[i] {
      assert !Either(a, b)[i];
    }
    if i :| 0 <= i < |hosts| && Named(hosts[i]) == false && !b[i] {
      assert !Either(a, b)[i];
    }
  }
}
