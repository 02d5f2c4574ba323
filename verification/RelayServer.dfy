/** The reference relay: its wake limiter and its registry of device connections (relay-reference/server.js). */
module RelayServer {
  import opened Bytes

  // The limiter

  const WAKE_RATE_LIMIT: nat := 30
  const WAKE_RATE_WINDOW_MS: int := 60_000

  /** The timestamps still inside the window at `now`. */
  function Recent(times: seq<int>, now: int): (r: seq<int>)
    ensures |r| <= |times|
  {
    if times == [] then []
    else (if now - times[0] < WAKE_RATE_WINDOW_MS then [times[0]] else []) + Recent(times[1..], now)
  }

  /** admitWake: the timestamps kept, and whether this wake goes through. */
  function Admit(times: seq<int>, now: int): (seq<int>, bool) {
    var kept := Recent(times, now);
    if |kept| >= WAKE_RATE_LIMIT then (kept, false) else (kept + [now], true)
  }

  class DeviceRecord {
    var wakeTimestamps: seq<int>

    constructor ()
      ensures wakeTimestamps == []
    {
      wakeTimestamps := [];
    }

    method AdmitWake(now: int) returns (ok: bool)
      modifies this
      ensures (wakeTimestamps, ok) == Admit(old(wakeTimestamps), now)
    {
      var kept, i := [], 0;
      assert wakeTimestamps[0..] == wakeTimestamps;
      while i < |wakeTimestamps|
        invariant i <= |wakeTimestamps|
        invariant kept + Recent(wakeTimestamps[i..], now) == Recent(wakeTimestamps, now)
      {
        assert wakeTimestamps[i..][1..] == wakeTimestamps[i + 1..];
        if now - wakeTimestamps[i] < WAKE_RATE_WINDOW_MS {
          kept := kept + [wakeTimestamps[i]];
        }
        i := i + 1;
      }
      assert wakeTimestamps[i..] == [];
      assert kept == Recent(wakeTimestamps, now);
      wakeTimestamps := kept;
      if |kept| >= WAKE_RATE_LIMIT {
        return false;
      }
      wakeTimestamps := wakeTimestamps + [now];
      ok := true;
    }
  }

  /** The record after wakes asked for at these times, and the times of those let through. */
  function Served(asks: seq<int>): (seq<int>, seq<int>) {
    if asks == [] then ([], [])
    else
      var last := |asks| - 1;
      var (times, admitted) := Served(asks[..last]);
      var (kept, ok) := Admit(times, asks[last]);
      (kept, if ok then admitted + [asks[last]] else admitted)
  }

  predicate NonDecreasing(ts: seq<int>) {
    forall i, j :: 0 <= i < j < |ts| ==> ts[i] <= ts[j]
  }

  /** How many of these fall in the 60 seconds from `from`. */
  function InWindow(ts: seq<int>, from: int): nat {
    if ts == [] then 0
    else InWindow(ts[..|ts| - 1], from) + if from <= ts[|ts| - 1] < from + WAKE_RATE_WINDOW_MS then 1 else 0
  }

  lemma RecentUnfolds(times: seq<int>, now: int)
    ensures Recent(times, now) ==
            if times == [] then []
            else (if now - times[0] < WAKE_RATE_WINDOW_MS then [times[0]] else []) + Recent(times[1..], now)
  {
  }

  lemma {:induction false} RecentSnoc(ts: seq<int>, t: int, now: int)
    ensures Recent(ts + [t], now) == Recent(ts, now) + (if now - t < WAKE_RATE_WINDOW_MS then [t] else [])
    decreases |ts|
  {
    hide Recent;
    RecentUnfolds(ts + [t], now);
    RecentUnfolds(ts, now);
    if ts == [] {
      assert (ts + [t])[1..] == [];
      RecentUnfolds([], now);
    } else {
      assert (ts + [t])[1..] == ts[1..] + [t];
      RecentSnoc(ts[1..], t, now);
    }
  }

  /** Pruning at an earlier time loses nothing a later look would have kept. */
  lemma {:induction false} RecentOfRecent(ts: seq<int>, before: int, now: int)
    requires before <= now
    ensures Recent(Recent(ts, before), now) == Recent(ts, now)
    decreases |ts|
  {
    if ts != [] {
      RecentOfRecent(ts[1..], before, now);
      var rest := Recent(ts[1..], before);
      if before - ts[0] < WAKE_RATE_WINDOW_MS {
        assert ([ts[0]] + rest)[1..] == rest;
      } else {
        assert Recent(ts, before) == rest;
      }
    }
  }

  lemma {:induction false} RecentCounts(ts: seq<int>, now: int)
    requires forall i :: 0 <= i < |ts| ==> ts[i] <= now
    ensures |Recent(ts, now)| == InWindow(ts, now - WAKE_RATE_WINDOW_MS + 1)
    decreases |ts|
  {
    if ts != [] {
      var n := |ts| - 1;
      RecentCounts(ts[..n], now);
      RecentSnoc(ts[..n], ts[n], now);
      assert ts[..n] + [ts[n]] == ts;
    }
  }

  /** What the record holds is exactly the wakes let through inside the last window. */
  lemma {:induction false} RecordIsRecent(asks: seq<int>, now: int)
    requires NonDecreasing(asks) && (asks != [] ==> asks[|asks| - 1] <= now)
    ensures var (times, admitted) := Served(asks);
            && Recent(times, now) == Recent(admitted, now)
            && NonDecreasing(admitted) && (forall i :: 0 <= i < |admitted| ==> admitted[i] in asks)
    decreases |asks|
  {
    if asks != [] {
      var last := |asks| - 1;
      var t := asks[last];
      RecordIsRecent(asks[..last], t);
      var (times, admitted) := Served(asks[..last]);
      AdmitKeepsRecent(times, admitted, t, now);
      assert forall i :: 0 <= i < |admitted| ==> admitted[i] in asks[..last] && admitted[i] <= t;
    }
  }

  lemma AdmitKeepsRecent(times: seq<int>, admitted: seq<int>, t: int, now: int)
    requires Recent(times, t) == Recent(admitted, t) && t <= now
    ensures var (kept, ok) := Admit(times, t);
            Recent(kept, now) == Recent(if ok then admitted + [t] else admitted, now)
  {
    hide Recent;
    RecentOfRecent(times, t, now);
    RecentOfRecent(admitted, t, now);
    RecentSnoc(Recent(times, t), t, now);
    RecentSnoc(admitted, t, now);
  }

  lemma {:induction false} WindowShifts(ts: seq<int>, from: int, last: int)
    requires forall i :: 0 <= i < |ts| ==> ts[i] <= last
    requires last < from + WAKE_RATE_WINDOW_MS
    ensures InWindow(ts, from) <= InWindow(ts, last - WAKE_RATE_WINDOW_MS + 1)
    decreases |ts|
  {
    if ts != [] {
      WindowShifts(ts[..|ts| - 1], from, last);
    }
  }

  /** With a clock that does not step back, no 60 seconds ever hold more than 30 wakes. */
  lemma {:induction false} NeverOverLimit(asks: seq<int>, from: int)
    requires NonDecreasing(asks)
    ensures InWindow(Served(asks).1, from) <= WAKE_RATE_LIMIT
    decreases |asks|
  {
    hide Served, InWindow, Recent;
    if asks == [] {
      NoneServed(from);
    } else {
      var last := |asks| - 1;
      var t := asks[last];
      NeverOverLimit(asks[..last], from);
      RecordIsRecent(asks[..last], t);
      ServedSnoc(asks[..last], t);
      assert asks[..last] + [t] == asks;
      var (times, admitted) := Served(asks[..last]);
      assert forall i :: 0 <= i < |admitted| ==> admitted[i] in asks[..last] && admitted[i] <= t;
      InWindowSnoc(admitted, t, from);
      if Admit(times, t).1 && from <= t < from + WAKE_RATE_WINDOW_MS {
        RecentCounts(admitted, t);
        WindowShifts(admitted, from, t);
      }
    }
  }

  lemma NoneServed(from: int)
    ensures InWindow(Served([]).1, from) == 0
  {
  }

  /** And a wake is turned away only when the 60 seconds up to it are full. */
  lemma RefusedOnlyWhenFull(asks: seq<int>, now: int)
    requires NonDecreasing(asks) && (asks != [] ==> asks[|asks| - 1] <= now)
    ensures var (times, admitted) := Served(asks);
            Admit(times, now).1 <==> InWindow(admitted, now - WAKE_RATE_WINDOW_MS + 1) < WAKE_RATE_LIMIT
  {
    RecordIsRecent(asks, now);
    var (times, admitted) := Served(asks);
    assert forall i :: 0 <= i < |admitted| ==> admitted[i] in asks && admitted[i] <= now;
    RecentCounts(admitted, now);
  }

  lemma {:induction false} NoneRecent(times: seq<int>, t: int)
    requires forall i :: 0 <= i < |times| ==> times[i] == t
    ensures Recent(times, t + WAKE_RATE_WINDOW_MS) == [] && Recent(times, t) == times
    decreases |times|
  {
    if times != [] {
      NoneRecent(times[1..], t);
    }
  }

  lemma {:induction false} BurstAdmitted(asks: seq<int>, t: int)
    requires |asks| <= WAKE_RATE_LIMIT && forall i :: 0 <= i < |asks| ==> asks[i] == t
    ensures Served(asks) == (asks, asks) && InWindow(asks, t) == |asks|
    decreases |asks|
  {
    if asks != [] {
      var last := |asks| - 1;
      BurstAdmitted(asks[..last], t);
      NoneRecent(asks[..last], t);
      assert asks[..last] + [t] == asks;
    }
  }

  /**
   * A clock that steps back defeats it, by however little: thirty wakes, one a minute later, which
   * makes the record forget them, and one stamped up to a minute before that.
   */
  lemma SteppedClockForgets(asks: seq<int>, t: int, d: int)
    requires |asks| == WAKE_RATE_LIMIT && forall i :: 0 <= i < |asks| ==> asks[i] == t
    requires 1 <= d <= WAKE_RATE_WINDOW_MS
    ensures var ahead := t + WAKE_RATE_WINDOW_MS;
            InWindow(Served(asks + [ahead, ahead - d]).1, t) == WAKE_RATE_LIMIT + 1
  {
    hide Served, InWindow, Recent;
    var ahead := t + WAKE_RATE_WINDOW_MS;
    BurstAdmitted(asks, t);
    NoneRecent(asks, t);
    ServedSnoc(asks, ahead);
    assert [] + [ahead] == [ahead];
    OneRecent(ahead, ahead - d);
    ServedSnoc(asks + [ahead], ahead - d);
    assert asks + [ahead] + [ahead - d] == asks + [ahead, ahead - d];
    InWindowSnoc(asks, ahead, t);
    InWindowSnoc(asks + [ahead], ahead - d, t);
  }

  lemma OneRecent(t: int, now: int)
    requires now - t < WAKE_RATE_WINDOW_MS
    ensures Recent([t], now) == [t]
  {
    assert Recent([t][1..], now) == [];
  }

  /** From one wake to the next the clock goes back by no more than this. */
  ghost predicate StepsBackAtMost(asks: seq<int>, d: nat) {
    forall i :: 0 < i < |asks| ==> asks[i] >= asks[i - 1] - d
  }

  lemma {:induction false} NoStepsBack(asks: seq<int>)
    requires StepsBackAtMost(asks, 0)
    ensures NonDecreasing(asks)
    decreases |asks|
  {
    if |asks| > 1 {
      var last := |asks| - 1;
      NoStepsBack(asks[..last]);
      assert asks[last] >= asks[last - 1];
    }
  }

  ghost predicate LimitKept(d: nat) {
    forall asks: seq<int>, from: int :: StepsBackAtMost(asks, d) ==> InWindow(Served(asks).1, from) <= WAKE_RATE_LIMIT
  }

  /** So the limit holds on a clock that may step back by at most `d` exactly when `d` is zero. */
  lemma LimitKeptExactly(d: nat)
    ensures LimitKept(d) <==> d == 0
  {
    if d == 0 {
      forall asks: seq<int>, from: int | StepsBackAtMost(asks, d)
        ensures InWindow(Served(asks).1, from) <= WAKE_RATE_LIMIT
      {
        NoStepsBack(asks);
        NeverOverLimit(asks, from);
      }
    } else {
      var burst := seq(WAKE_RATE_LIMIT, _ => 0);
      var asks := burst + [WAKE_RATE_WINDOW_MS, WAKE_RATE_WINDOW_MS - 1];
      SteppedClockForgets(burst, 0, 1);
      assert StepsBackAtMost(asks, d);
      assert InWindow(Served(asks).1, 0) > WAKE_RATE_LIMIT;
    }
  }

  lemma ServedSnoc(asks: seq<int>, t: int)
    ensures var (times, admitted) := Served(asks);
            var (kept, ok) := Admit(times, t);
            Served(asks + [t]) == (kept, if ok then admitted + [t] else admitted)
  {
    assert (asks + [t])[..|asks|] == asks;
  }

  lemma InWindowSnoc(ts: seq<int>, t: int, from: int)
    ensures InWindow(ts + [t], from) == InWindow(ts, from) + if from <= t < from + WAKE_RATE_WINDOW_MS then 1 else 0
  {
    assert (ts + [t])[..|ts|] == ts;
  }
}
