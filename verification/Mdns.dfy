/**
 * Names in a DNS message, which may end in a pointer to the rest of another name
 * (firmware/src/net/mdns.c; section 4.1.4 of RFC 1035).
 */
module Mdns {
  import opened Bytes
  import Utf8

  const MAX_POINTER_HOPS: nat := 8

  predicate IsPointer(b: byte) {
    b / 64 == 3
  }

  /** Where the pointer at `at` points. */
  function Target(pkt: seq<byte>, at: nat): nat
    requires at + 2 <= |pkt|
  {
    var high: int := pkt[at] % 64;
    high * 256 + pkt[at + 1]
  }

  /** The name at `at` written out without pointers: length-prefixed labels and a zero. At most `hops` are followed. */
  function NameAt(pkt: seq<byte>, at: nat, hops: nat): Option<seq<byte>>
    decreases hops, |pkt| - at
  {
    if at >= |pkt| then None
    else
      var b := pkt[at];
      if IsPointer(b) then
        if hops == 0 || at + 2 > |pkt| then None else NameAt(pkt, Target(pkt, at), hops - 1)
      else if b == 0 then Some([0])
      else if b >= 64 || at + 1 + b > |pkt| then None
      else
        match NameAt(pkt, at + 1 + b, hops)
        case None => None
        case Some(rest) => Some(pkt[at..at + 1 + b] + rest)
  }

  /** The two top bits mark a pointer, and the other fourteen are where it points, as section 4.1.4 of RFC 1035 has it. */
  lemma FollowsPointer(pkt: seq<byte>, at: nat, hops: nat)
    requires at < |pkt| && pkt[at] >= 0xC0
    ensures NameAt(pkt, at, hops) ==
            if hops == 0 || at + 1 >= |pkt| then None
            else NameAt(pkt, (pkt[at] as nat - 0xC0) * 256 + (pkt[at + 1] as nat), hops - 1)
    ensures LabelAt(pkt, at, hops) ==
            if hops == 0 || at + 1 >= |pkt| then None
            else LabelAt(pkt, (pkt[at] as nat - 0xC0) * 256 + (pkt[at + 1] as nat), hops - 1)
  {
  }

  /** A name without pointers. */
  predicate WireName(s: seq<byte>) {
    s != [] && s[0] < 64 && if s[0] == 0 then |s| == 1 else |s| > 1 + s[0] && WireName(s[1 + s[0]..])
  }

  /** A label in common and the rest equal, or not the same name. */
  lemma LabelMatches(pkt: seq<byte>, at: nat, hops: nat, want: seq<byte>)
    requires at < |pkt| && 0 < pkt[at] < 64 && WireName(want)
    ensures NameAt(pkt, at, hops) == Some(want) <==>
            var b := pkt[at];
            && at + 1 + b <= |pkt| && want[0] == b && pkt[at + 1..at + 1 + b] == want[1..1 + b]
            && NameAt(pkt, at + 1 + b, hops) == Some(want[1 + b..])
  {
    var b := pkt[at];
    if at + 1 + b <= |pkt| {
      var mine, rest := pkt[at..at + 1 + b], NameAt(pkt, at + 1 + b, hops);
      assert mine[1..] == pkt[at + 1..at + 1 + b];
      if rest.Some? {
        assert (mine + rest.value)[..1 + b] == mine && (mine + rest.value)[1 + b..] == rest.value;
      }
      if want[0] == b {
        assert want == want[..1 + b] + want[1 + b..] && want[..1 + b][1..] == want[1..1 + b];
        if mine[1..] == want[1..1 + b] {
          assert mine == [b] + mine[1..] && want[..1 + b] == [b] + want[..1 + b][1..];
        }
      }
    }
  }

  predicate Same(pkt: seq<byte>, at: nat, hops: nat, want: seq<byte>, w: nat) {
    w < |want| && WireName(want[w..]) && NameAt(pkt, at, hops) == Some(want[w..])
  }

  lemma SameAtPointer(pkt: seq<byte>, at: nat, hops: nat, want: seq<byte>, w: nat)
    requires at < |pkt| && IsPointer(pkt[at])
    ensures Same(pkt, at, hops, want, w) ==
            (hops > 0 && at + 2 <= |pkt| && Same(pkt, Target(pkt, at), hops - 1, want, w))
  {
  }

  lemma SameAtLabel(pkt: seq<byte>, at: nat, hops: nat, want: seq<byte>, w: nat)
    requires at < |pkt| && !IsPointer(pkt[at]) && w < |want| && WireName(want[w..])
    ensures pkt[at] != want[w] ==> !Same(pkt, at, hops, want, w)
    ensures pkt[at] == want[w] == 0 ==> Same(pkt, at, hops, want, w)
    ensures var b := pkt[at];
            b == want[w] && b != 0 ==>
              && w + 1 + b < |want| && WireName(want[w + 1 + b..])
              && Same(pkt, at, hops, want, w) ==
                 (at + 1 + b <= |pkt| && pkt[at + 1..at + 1 + b] == want[w + 1..w + 1 + b]
                  && Same(pkt, at + 1 + b, hops, want, w + 1 + b))
  {
    hide NameAt, IsPointer;
    var b := pkt[at];
    assert want[w..][0] == want[w];
    NameEnds(pkt, at, hops);
    if 0 < b < 64 {
      LabelMatches(pkt, at, hops, want[w..]);
      if b == want[w] {
        Shifted(want, w, b);
      }
    } else if b == want[w] {
      assert want[w..] == [0];
    }
  }

  lemma NameEnds(pkt: seq<byte>, at: nat, hops: nat)
    requires at < |pkt| && !IsPointer(pkt[at])
    ensures pkt[at] == 0 ==> NameAt(pkt, at, hops) == Some([0])
    ensures pkt[at] >= 64 ==> NameAt(pkt, at, hops) == None
  {
  }

  lemma Shifted(want: seq<byte>, w: nat, b: nat)
    requires w + 1 + b <= |want|
    ensures want[w..][1..1 + b] == want[w + 1..w + 1 + b] && want[w..][1 + b..] == want[w + 1 + b..]
  {
  }

  /** name_equals: whether the name at `at`, pointers followed, is this one. */
  method NameEquals(pkt: seq<byte>, at: nat, want: seq<byte>) returns (same: bool)
    requires WireName(want)
    ensures same <==> NameAt(pkt, at, MAX_POINTER_HOPS) == Some(want)
  {
    hide NameAt, IsPointer, Target, WireName, Same;
    var here: nat, hops: nat, w: nat := at, MAX_POINTER_HOPS, 0;
    SameFromStart(pkt, at, MAX_POINTER_HOPS, want);
    while here < |pkt|
      invariant w < |want| && WireName(want[w..])
      invariant Same(pkt, here, hops, want, w) == Same(pkt, at, MAX_POINTER_HOPS, want, 0)
      decreases hops, |pkt| - here
    {
      var b := pkt[here];
      if IsPointer(b) {
        SameAtPointer(pkt, here, hops, want, w);
        if hops == 0 || here + 2 > |pkt| {
          return false;
        }
        hops := hops - 1;
        here := Target(pkt, here);
      } else {
        SameAtLabel(pkt, here, hops, want, w);
        if b != want[w] {
          return false;
        }
        if b == 0 {
          return true;
        }
        if here + 1 + b > |pkt| {
          return false;
        }
        if pkt[here + 1..here + 1 + b] != want[w + 1..w + 1 + b] {
          return false;
        }
        here, w := here + b + 1, w + b + 1;
      }
    }
    PastTheEnd(pkt, here, hops, want, w);
    same := false;
  }

  lemma SameFromStart(pkt: seq<byte>, at: nat, hops: nat, want: seq<byte>)
    requires WireName(want)
    ensures |want| > 0 && want[0..] == want && Same(pkt, at, hops, want, 0) == (NameAt(pkt, at, hops) == Some(want))
  {
  }

  lemma PastTheEnd(pkt: seq<byte>, at: nat, hops: nat, want: seq<byte>, w: nat)
    requires at >= |pkt|
    ensures !Same(pkt, at, hops, want, w)
  {
  }

  /** The first label of the name at `at`, as bytes. */
  function LabelAt(pkt: seq<byte>, at: nat, hops: nat): Option<seq<byte>>
    decreases hops
  {
    if at >= |pkt| then None
    else
      var n := pkt[at];
      if IsPointer(n) then
        if hops == 0 || at + 2 > |pkt| then None else LabelAt(pkt, Target(pkt, at), hops - 1)
      else if n == 0 || n >= 64 || at + 1 + n > |pkt| then None
      else Some(pkt[at + 1..at + 1 + n])
  }

  /** Where no pointer stands, a label is 1 to 63 bytes that are all in the packet; the last may be the packet's last. */
  lemma LabelExactly(pkt: seq<byte>, at: nat, hops: nat)
    requires at < |pkt| ==> pkt[at] < 0xC0
    ensures LabelAt(pkt, at, hops).Some? <==> at < |pkt| && 1 <= pkt[at] <= 63 && at + pkt[at] < |pkt|
    ensures LabelAt(pkt, at, hops).Some? ==>
              var l := LabelAt(pkt, at, hops).value;
              |l| == pkt[at] && forall i :: 0 <= i < |l| ==> l[i] == pkt[at + 1 + i]
  {
  }

  /** Where there is a whole name, other than the root, that is its first label. */
  lemma {:induction false} LabelOfName(pkt: seq<byte>, at: nat, hops: nat)
    requires NameAt(pkt, at, hops).Some? && NameAt(pkt, at, hops).value != [0]
    ensures var name := NameAt(pkt, at, hops).value;
            name != [] && 1 + name[0] <= |name| && LabelAt(pkt, at, hops) == Some(name[1..1 + name[0]])
    decreases hops
  {
    var b := pkt[at];
    if IsPointer(b) {
      LabelOfName(pkt, Target(pkt, at), hops - 1);
    } else {
      var name := NameAt(pkt, at, hops).value;
      assert name[..1 + b] == pkt[at..at + 1 + b];
      assert name[1..1 + b] == name[..1 + b][1..] == pkt[at + 1..at + 1 + b];
    }
  }

  /**
   * first_label: nothing if there is no label or it is not showable text, otherwise the longest
   * prefix of whole characters that leaves room for the terminator.
   */
  method FirstLabel(pkt: seq<byte>, at: nat, room: nat) returns (r: Option<seq<byte>>)
    requires room > 0
    ensures r.None? <==> LabelAt(pkt, at, MAX_POINTER_HOPS).None?
                         || !exists cps :: Utf8.Showable(cps) && Utf8.Encoded(cps) == LabelAt(pkt, at, MAX_POINTER_HOPS).value
    ensures r.Some? ==> exists cps ::
              && Utf8.Showable(cps) && Some(Utf8.Encoded(cps)) == LabelAt(pkt, at, MAX_POINTER_HOPS)
              && r.value == Utf8.Encoded(cps[..Utf8.Keep(cps, room - 1)])
  {
    hide Utf8.Showable, Utf8.Keep, Utf8.Encoded, NameAt;
    var here: nat, hops: nat := at, MAX_POINTER_HOPS;
    while here < |pkt| && IsPointer(pkt[here])
      invariant LabelAt(pkt, here, hops) == LabelAt(pkt, at, MAX_POINTER_HOPS)
      decreases hops
    {
      if hops == 0 || here + 2 > |pkt| {
        return None;
      }
      hops := hops - 1;
      here := Target(pkt, here);
    }
    if here >= |pkt| {
      return None;
    }
    var n := pkt[here];
    if n == 0 || n >= 64 || here + 1 + n > |pkt| {
      return None;
    }
    r := Utf8.FirstLabel(pkt[here + 1..here + 1 + n], room - 1);
  }
}
