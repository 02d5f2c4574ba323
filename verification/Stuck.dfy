/**
 * The stuck detector: network but no relay for fifteen minutes, on a device that has held a link
 * this boot (firmware/src/diag/stuck.c). Its clock is a 32-bit millisecond counter that wraps;
 * the theorems are about the true time.
 */
module Stuck {
  import opened Bytes

  const ARM_MS: nat := 60_000
  const TRIGGER_MS: nat := 900_000
  const WRAP: nat := 0x1_0000_0000

  datatype Detector = Detector(armed: bool, linked: bool, linkedSince: u32, unlinkedSince: u32)

  const ZEROED: Detector := Detector(false, false, 0, 0)

  /** rw_stuck_step: the detector after one pass, and whether it says to restart. */
  function Step(s: Detector, net: bool, relay: bool, now: u32): (Detector, bool) {
    if !net then (Detector(s.armed, false, 0, 0), false)
    else if relay then
      var since := if s.linked then s.linkedSince else now;
      (Detector(s.armed || Sub32(now, since) >= ARM_MS, true, since, 0), false)
    else
      var since := if s.unlinkedSince != 0 then s.unlinkedSince else if now != 0 then now else 1;
      (Detector(s.armed, false, if s.linked then 0 else s.linkedSince, since), s.armed && Sub32(now, since) >= TRIGGER_MS)
  }

  class StuckDetector {
    var armed: bool
    var linked: bool
    var linkedSince: u32
    var unlinkedSince: u32

    ghost function Now(): Detector
      reads this
    {
      Detector(armed, linked, linkedSince, unlinkedSince)
    }

    constructor ()
      ensures Now() == ZEROED
    {
      armed, linked, linkedSince, unlinkedSince := false, false, 0, 0;
    }

    method Pass(net: bool, relay: bool, now: u32) returns (stuck: bool)
      modifies this
      ensures (Now(), stuck) == Step(old(Now()), net, relay, now)
    {
      if !net {
        linked := false;
        linkedSince := 0;
        unlinkedSince := 0;
        return false;
      }
      if relay {
        if !linked {
          linked := true;
          linkedSince := now;
        }
        unlinkedSince := 0;
        if !armed && Sub32(now, linkedSince) >= ARM_MS {
          armed := true;
        }
        return false;
      }
      if linked {
        linked := false;
        linkedSince := 0;
      }
      if unlinkedSince == 0 {
        unlinkedSince := if now != 0 then now else 1;
      }
      if !armed {
        return false;
      }
      stuck := Sub32(now, unlinkedSince) >= TRIGGER_MS;
    }
  }

  // The truth, on a clock that does not wrap

  /** One pass of the main loop: what it saw, at what time. */
  datatype Pass = Pass(net: bool, relay: bool, time: nat)

  predicate Linked(p: Pass) {
    p.net && p.relay
  }

  predicate Unlinked(p: Pass) {
    p.net && !p.relay
  }

  /** Time does not go back, and the loop is never away for anything like 49 days. */
  ghost predicate Clocked(ps: seq<Pass>) {
    forall i :: 0 < i < |ps| ==> ps[i - 1].time <= ps[i].time < ps[i - 1].time + WRAP - TRIGGER_MS
  }

  /** The first pass of the unbroken link, or of the unbroken lack of one, that pass `i` is in. */
  function LinkStart(ps: seq<Pass>, i: nat): (k: nat)
    requires i < |ps| && Linked(ps[i])
    ensures k <= i && forall j :: k <= j <= i ==> Linked(ps[j])
    ensures k == 0 || !Linked(ps[k - 1])
  {
    if i > 0 && Linked(ps[i - 1]) then LinkStart(ps, i - 1) else i
  }

  function StretchStart(ps: seq<Pass>, i: nat): (k: nat)
    requires i < |ps| && Unlinked(ps[i])
    ensures k <= i && forall j :: k <= j <= i ==> Unlinked(ps[j])
    ensures k == 0 || !Unlinked(ps[k - 1])
  {
    if i > 0 && Unlinked(ps[i - 1]) then StretchStart(ps, i - 1) else i
  }

  /** At this pass an unbroken link is seen to have held for a minute. */
  predicate HoldsLink(ps: seq<Pass>, i: nat)
    requires i < |ps|
  {
    Linked(ps[i]) && ps[i].time - ps[LinkStart(ps, i)].time >= ARM_MS
  }

  ghost predicate HasHeld(ps: seq<Pass>, i: nat)
    requires i < |ps|
  {
    exists j :: 0 <= j <= i && HoldsLink(ps, j)
  }

  /** What the module is for: a link held earlier this boot, then fifteen minutes of network without one. */
  ghost predicate IsStuck(ps: seq<Pass>, i: nat)
    requires i < |ps|
  {
    Unlinked(ps[i]) && HasHeld(ps, i) && ps[i].time - ps[StretchStart(ps, i)].time >= TRIGGER_MS
  }

  /** The stretch without a link began when the counter read zero, which is also its "not unlinked" mark. */
  predicate BeganAtWrap(ps: seq<Pass>, i: nat)
    requires i < |ps| && Unlinked(ps[i])
  {
    ps[StretchStart(ps, i)].time % WRAP == 0
  }

  /** What the detector in fact says. A stretch that begins as the counter wraps counts from one millisecond later. */
  ghost predicate SaysStuck(ps: seq<Pass>, i: nat)
    requires i < |ps|
  {
    Unlinked(ps[i]) && HasHeld(ps, i) &&
    var length := ps[i].time - ps[StretchStart(ps, i)].time;
    if BeganAtWrap(ps, i) then length == 0 || length > TRIGGER_MS else length >= TRIGGER_MS
  }

  /** The detector after passes 0 to `n - 1` of a boot. */
  function After(ps: seq<Pass>, n: nat): Detector
    requires n <= |ps|
  {
    if n == 0 then ZEROED
    else Step(After(ps, n - 1), ps[n - 1].net, ps[n - 1].relay, ps[n - 1].time % WRAP).0
  }

  predicate Fires(ps: seq<Pass>, i: nat)
    requires i < |ps|
  {
    Step(After(ps, i), ps[i].net, ps[i].relay, ps[i].time % WRAP).1
  }

  /** What the fields stand for after pass `i`. */
  ghost predicate Means(ps: seq<Pass>, i: nat, s: Detector)
    requires i < |ps|
  {
    && s.armed == HasHeld(ps, i) && s.linked == Linked(ps[i])
    && (Linked(ps[i]) ==>
          var start := ps[LinkStart(ps, i)].time;
          s.linkedSince == start % WRAP && start <= ps[i].time && (!s.armed ==> ps[i].time - start < ARM_MS))
    && (if Unlinked(ps[i]) then
          var start := ps[StretchStart(ps, i)].time;
          && s.unlinkedSince == Nudged(start) && start <= ps[i].time
        else s.unlinkedSince == 0)
  }

  /** The counter's difference is the true one for anything shorter than a wrap. */
  lemma Elapsed(now: nat, since: nat)
    requires since <= now < since + WRAP
    ensures Sub32(now % WRAP, since % WRAP) == now - since
  {
  }

  lemma Earlier(ps: seq<Pass>, i: nat)
    requires 0 < i < |ps|
    ensures HasHeld(ps, i) <==> HasHeld(ps, i - 1) || HoldsLink(ps, i)
  {
    if HasHeld(ps, i) {
      var j :| 0 <= j <= i && HoldsLink(ps, j);
      assert j == i || HasHeld(ps, i - 1);
    }
    if HasHeld(ps, i - 1) {
      var j :| 0 <= j <= i - 1 && HoldsLink(ps, j);
      assert 0 <= j <= i;
    }
  }

  lemma FirstPass(ps: seq<Pass>)
    requires 0 < |ps|
    ensures Means(ps, 0, After(ps, 1)) && !Fires(ps, 0) && !SaysStuck(ps, 0)
  {
    assert After(ps, 0) == ZEROED && !HoldsLink(ps, 0);
    if Linked(ps[0]) {
      Elapsed(ps[0].time, ps[0].time);
    }
  }

  lemma NextPass(ps: seq<Pass>, i: nat)
    requires 0 < i < |ps| && Clocked(ps) && Means(ps, i - 1, After(ps, i)) && !SaysStuck(ps, i - 1)
    ensures Means(ps, i, After(ps, i + 1)) && (Fires(ps, i) <==> SaysStuck(ps, i))
  {
    Earlier(ps, i);
    var p, q := ps[i - 1], ps[i];
    if Linked(q) {
      var start := ps[LinkStart(ps, i)].time;
      assert HoldsLink(ps, i) <==> q.time - start >= ARM_MS;
      if !After(ps, i).armed {
        Elapsed(q.time, start);
      }
    } else if Unlinked(q) {
      assert !HoldsLink(ps, i);
      if HasHeld(ps, i) {
        UnlinkedPass(ps, i);
      }
    }
  }

  /** The nudge: a start that reads zero is counted from one millisecond later, modulo the wrap. */
  lemma NudgedElapsed(now: nat, start: nat)
    requires start <= now < start + WRAP
    ensures Sub32(now % WRAP, Nudged(start)) ==
            if start % WRAP != 0 then now - start else if now == start then WRAP - 1 else now - start - 1
  {
    if start % WRAP != 0 {
      Elapsed(now, start);
    } else if now > start {
      Elapsed(now, start + 1);
    }
  }

  function Nudged(start: nat): u32 {
    if start % WRAP == 0 then 1 else start % WRAP
  }

  lemma SinceOf(ps: seq<Pass>, i: nat)
    requires 0 < i < |ps| && Clocked(ps) && Means(ps, i - 1, After(ps, i)) && Unlinked(ps[i])
    ensures var s, start := After(ps, i), ps[StretchStart(ps, i)].time;
            && start <= ps[i].time && (StretchStart(ps, i) == i || (StretchStart(ps, i) == StretchStart(ps, i - 1) && Unlinked(ps[i - 1])))
            && (if s.unlinkedSince != 0 then s.unlinkedSince else Nudged(ps[i].time)) == Nudged(start)
  {
  }

  lemma UnlinkedPass(ps: seq<Pass>, i: nat)
    requires 0 < i < |ps| && Clocked(ps) && Means(ps, i - 1, After(ps, i)) && !SaysStuck(ps, i - 1)
    requires Unlinked(ps[i]) && HasHeld(ps, i) && HasHeld(ps, i - 1)
    ensures Fires(ps, i) <==> SaysStuck(ps, i)
  {
    SinceOf(ps, i);
    var now, start := ps[i].time, ps[StretchStart(ps, i)].time;
    hide After, HasHeld;
    NudgedElapsed(now, start);
  }

  lemma {:induction false} FieldsMean(ps: seq<Pass>, i: nat)
    requires i < |ps| && Clocked(ps) && forall j :: 0 <= j < i ==> !SaysStuck(ps, j)
    ensures Means(ps, i, After(ps, i + 1)) && (Fires(ps, i) <==> SaysStuck(ps, i))
    decreases i
  {
    hide Step, Means, SaysStuck, HasHeld;
    if i == 0 {
      FirstPass(ps);
    } else {
      FieldsMean(ps, i - 1);
      NextPass(ps, i);
    }
  }

  lemma {:induction false} FiresAsSaid(ps: seq<Pass>, i: nat)
    requires i < |ps| && Clocked(ps) && forall j :: 0 <= j < i ==> !Fires(ps, j)
    ensures forall j :: 0 <= j < i ==> !SaysStuck(ps, j)
    ensures Fires(ps, i) <==> SaysStuck(ps, i)
    decreases i
  {
    hide Step, Means, SaysStuck, HasHeld;
    if i > 0 {
      FiresAsSaid(ps, i - 1);
    }
    FieldsMean(ps, i);
  }

  /**
   * The first time the detector fires is the first time the device is stuck, to the millisecond,
   * across any number of wraps, exactly when the stretch in question did not begin as the counter
   * read zero.
   */
  lemma FiresExactlyWhenStuck(ps: seq<Pass>, i: nat)
    requires i < |ps| && Clocked(ps) && forall j :: 0 <= j < i ==> !Fires(ps, j)
    requires Unlinked(ps[i]) ==> !BeganAtWrap(ps, i)
    ensures Fires(ps, i) <==> IsStuck(ps, i)
  {
    FiresAsSaid(ps, i);
  }

  /** It never fires before a link has held this boot; in particular not twice for one outage. */
  lemma NeverWithoutAHeldLink(ps: seq<Pass>, i: nat)
    requires i < |ps| && Clocked(ps) && forall j :: 0 <= j < i ==> !Fires(ps, j)
    requires forall j :: 0 <= j < i ==> !HoldsLink(ps, j)
    ensures !Fires(ps, i)
  {
    FiresAsSaid(ps, i);
  }

  /**
   * The exception is a false alarm: on an armed device that loses its link at the very
   * millisecond the counter wraps to zero, the detector fires at once.
   */
  lemma FalseAlarmAtWrap(ps: seq<Pass>, i: nat)
    requires 0 < i < |ps| && Clocked(ps) && forall j :: 0 <= j < i ==> !Fires(ps, j)
    requires HasHeld(ps, i - 1) && Linked(ps[i - 1]) && Unlinked(ps[i]) && ps[i].time % WRAP == 0
    ensures Fires(ps, i) && !IsStuck(ps, i)
  {
    FiresAsSaid(ps, i);
    Earlier(ps, i);
  }

  /** Such a run: a link held for a minute, lost as the counter wraps. */
  lemma FalseAlarmExample()
    ensures var ps := [Pass(true, true, WRAP - 60_001), Pass(true, true, WRAP - 1), Pass(true, false, WRAP)];
            Clocked(ps) && !Fires(ps, 0) && !Fires(ps, 1) && Fires(ps, 2) && !IsStuck(ps, 2)
  {
    var ps := [Pass(true, true, WRAP - 60_001), Pass(true, true, WRAP - 1), Pass(true, false, WRAP)];
    assert LinkStart(ps, 1) == LinkStart(ps, 0) == 0;
    assert HoldsLink(ps, 1);
    assert After(ps, 1).linkedSince == WRAP - 60_001;
    FalseAlarmAtWrap(ps, 2);
  }
}
