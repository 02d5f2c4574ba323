/** The table a Wi-Fi scan fills as results stream in, and the list made of it (firmware/src/net/scan.c). */
module WifiScan {
  import opened Bytes
  import Utf8

  const SCAN_MAX: nat := 20
  const SSID_MAX: nat := 32

  datatype Entry = Entry(name: seq<byte>, rssi: int, channel: nat, auth: nat)

  /** A beacon as the driver reports it. */
  datatype Beacon = Beacon(ssid: seq<byte>, rssi: int, channel: nat, auth: nat)

  /** What of a beacon is listed: not a hidden network, not a name that is not text. */
  function Listed(b: Beacon): Option<Entry> {
    var name := if |b.ssid| > SSID_MAX then b.ssid[..SSID_MAX] else b.ssid;
    if b.ssid == [] then None
    else if 0 in name || !Utf8.Valid(name) then None
    else Some(Entry(name, b.rssi, b.channel, b.auth))
  }

  /** A beacon is listed exactly when it has a name, and the first 32 bytes of it are text; and as what was heard. */
  lemma ListedExactly(b: Beacon)
    ensures var (e, n) := (Listed(b), if |b.ssid| <= 32 then |b.ssid| else 32);
            && (e.Some? <==> n > 0 && Utf8.Valid(b.ssid[..n]) && forall i :: 0 <= i < n ==> b.ssid[i] != 0)
            && (e.Some? ==> e.value == Entry(b.ssid[..n], b.rssi, b.channel, b.auth))
  {
    assert |b.ssid| <= 32 ==> b.ssid[..|b.ssid|] == b.ssid;
  }

  /** Where this name is in the table; its length if nowhere. */
  function Find(t: seq<Entry>, name: seq<byte>): (i: nat)
    ensures i <= |t| && (i < |t| ==> t[i].name == name)
    ensures forall j :: 0 <= j < i ==> t[j].name != name
  {
    if t == [] then 0
    else
      var last := |t| - 1;
      var i := Find(t[..last], name);
      if i < last then i else if t[last].name == name then last else |t|
  }

  /** The first of the weakest entries. */
  function Weakest(t: seq<Entry>): (i: nat)
    requires t != []
    ensures i < |t| && forall j :: 0 <= j < |t| ==> t[i].rssi <= t[j].rssi
    ensures forall j :: 0 <= j < i ==> t[i].rssi < t[j].rssi
  {
    var last := |t| - 1;
    if last == 0 then 0
    else
      var i := Weakest(t[..last]);
      if t[last].rssi < t[i].rssi then last else i
  }

  /** on_result, for an entry that is listed. */
  function Heard(t: seq<Entry>, e: Entry): (r: seq<Entry>)
    ensures |t| <= SCAN_MAX ==> |r| <= SCAN_MAX
  {
    var i := Find(t, e.name);
    if i < |t| then (if e.rssi > t[i].rssi then t[i := e] else t)
    else if |t| < SCAN_MAX then t + [e]
    else
      var w := Weakest(t);
      if e.rssi <= t[w].rssi then t else t[w := e]
  }

  function Table(es: seq<Entry>): (t: seq<Entry>)
    ensures |t| <= SCAN_MAX
  {
    if es == [] then [] else Heard(Table(es[..|es| - 1]), es[|es| - 1])
  }

  // What the table is of everything heard

  /** The strongest entry ever heard under this name, the first of them. */
  function Best(es: seq<Entry>, name: seq<byte>): Option<Entry> {
    if es == [] then None
    else
      var e := es[|es| - 1];
      var b := Best(es[..|es| - 1], name);
      if e.name == name && (b.None? || e.rssi > b.value.rssi) then Some(e) else b
  }

  ghost predicate Distinct(t: seq<Entry>) {
    forall i, j :: 0 <= i < j < |t| ==> t[i].name != t[j].name
  }

  ghost predicate AreBest(t: seq<Entry>, es: seq<Entry>) {
    forall i :: 0 <= i < |t| ==> Best(es, t[i].name) == Some(t[i])
  }

  ghost predicate In(t: seq<Entry>, name: seq<byte>) {
    exists i :: 0 <= i < |t| && t[i].name == name
  }

  /** Whatever is not listed was never heard, or is no stronger than anything listed in a full table. */
  ghost predicate LeftOutAreWeaker(t: seq<Entry>, es: seq<Entry>) {
    forall name :: !In(t, name) && Best(es, name).Some? ==>
      |t| == SCAN_MAX && forall i :: 0 <= i < |t| ==> Best(es, name).value.rssi <= t[i].rssi
  }

  lemma BestSnoc(es: seq<Entry>, e: Entry, name: seq<byte>)
    ensures Best(es + [e], name) ==
            if e.name == name && (Best(es, name).None? || e.rssi > Best(es, name).value.rssi) then Some(e) else Best(es, name)
  {
    assert (es + [e])[..|es|] == es;
  }

  lemma InAfterUpdate(t: seq<Entry>, i: nat, e: Entry, name: seq<byte>)
    requires i < |t| && name != t[i].name
    ensures In(t[i := e], name) <==> In(t, name) || name == e.name
  {
    if In(t, name) {
      var j :| 0 <= j < |t| && t[j].name == name;
      assert t[i := e][j].name == name;
    }
    if name == e.name {
      assert t[i := e][i].name == name;
    }
  }

  lemma InAfterAppend(t: seq<Entry>, e: Entry, name: seq<byte>)
    ensures In(t + [e], name) <==> In(t, name) || name == e.name
  {
    assert (t + [e])[|t|] == e;
    if In(t, name) {
      var j :| 0 <= j < |t| && t[j].name == name;
      assert (t + [e])[j].name == name;
    }
  }

  ghost predicate Faithful(t: seq<Entry>, es: seq<Entry>) {
    |t| <= SCAN_MAX && Distinct(t) && AreBest(t, es) && LeftOutAreWeaker(t, es)
  }

  /** A name already listed: replaced by something stronger, or left alone. */
  lemma HeardAgain(t: seq<Entry>, es: seq<Entry>, e: Entry)
    requires Faithful(t, es) && Find(t, e.name) < |t|
    ensures Faithful(Heard(t, e), es + [e])
  {
    var i, r := Find(t, e.name), Heard(t, e);
    forall k | 0 <= k < |r|
      ensures Best(es + [e], r[k].name) == Some(r[k])
    {
      BestSnoc(es, e, r[k].name);
    }
    forall name | !In(r, name) && Best(es + [e], name).Some?
      ensures |r| == SCAN_MAX && forall k :: 0 <= k < |r| ==> Best(es + [e], name).value.rssi <= r[k].rssi
    {
      BestSnoc(es, e, name);
      SameNames(t, r, e.name);
      SameNames(t, r, name);
      assert In(t, e.name);
    }
  }

  lemma SameNames(t: seq<Entry>, r: seq<Entry>, name: seq<byte>)
    requires |t| == |r| && forall i :: 0 <= i < |t| ==> t[i].name == r[i].name
    ensures In(t, name) <==> In(r, name)
  {
    if In(t, name) {
      var j :| 0 <= j < |t| && t[j].name == name;
      assert r[j].name == name;
    }
  }

  /** A new name and room for it. */
  lemma HeardWithRoom(t: seq<Entry>, es: seq<Entry>, e: Entry)
    requires Faithful(t, es) && Find(t, e.name) == |t| < SCAN_MAX
    ensures Faithful(Heard(t, e), es + [e])
  {
    var r := Heard(t, e);
    forall k | 0 <= k < |r|
      ensures Best(es + [e], r[k].name) == Some(r[k])
    {
      BestSnoc(es, e, r[k].name);
    }
    forall name | !In(r, name)
      ensures Best(es + [e], name).None?
    {
      BestSnoc(es, e, name);
      InAfterAppend(t, e, name);
    }
  }

  /** A new name and a full table: it displaces the weakest if it is stronger. */
  lemma HeardWhenFull(t: seq<Entry>, es: seq<Entry>, e: Entry)
    requires Faithful(t, es) && Find(t, e.name) == |t| == SCAN_MAX
    ensures Faithful(Heard(t, e), es + [e])
  {
    var w, r := Weakest(t), Heard(t, e);
    forall k | 0 <= k < |r|
      ensures Best(es + [e], r[k].name) == Some(r[k])
    {
      BestSnoc(es, e, r[k].name);
      if e.rssi > t[w].rssi && k == w && Best(es, e.name).Some? {
        assert Best(es, e.name).value.rssi <= t[w].rssi;
      }
    }
    forall name | !In(r, name) && Best(es + [e], name).Some?
      ensures forall k :: 0 <= k < |r| ==> Best(es + [e], name).value.rssi <= r[k].rssi
    {
      BestSnoc(es, e, name);
      if e.rssi > t[w].rssi {
        if name == t[w].name {
          assert Best(es, name) == Some(t[w]);
          assert r[w] == e;
        } else {
          InAfterUpdate(t, w, e, name);
        }
      } else if name == e.name && Best(es, name).Some? {
        assert forall k :: 0 <= k < |t| ==> Best(es, name).value.rssi <= t[k].rssi;
      }
    }
  }

  /**
   * After any stream of results: the names are distinct, each with the strongest entry ever heard
   * for it even if it was displaced and came back; and no name left out was ever stronger than
   * the weakest kept.
   */
  lemma {:induction false} TableIsFaithful(es: seq<Entry>)
    ensures Faithful(Table(es), es)
    decreases |es|
  {
    if es != [] {
      var before, e := es[..|es| - 1], es[|es| - 1];
      TableIsFaithful(before);
      assert es == before + [e];
      var t := Table(before);
      if Find(t, e.name) < |t| {
        HeardAgain(t, before, e);
      } else if |t| < SCAN_MAX {
        HeardWithRoom(t, before, e);
      } else {
        HeardWhenFull(t, before, e);
      }
    }
  }

  // The list, strongest first

  /** The key goes in before the weaker ones at the end. */
  function Inserted(s: seq<Entry>, key: Entry): (r: seq<Entry>)
    ensures |r| == |s| + 1
  {
    if s != [] && s[|s| - 1].rssi < key.rssi then Inserted(s[..|s| - 1], key) + [s[|s| - 1]] else s + [key]
  }

  function SortedOf(s: seq<Entry>): (r: seq<Entry>)
    ensures |r| == |s|
  {
    if s == [] then [] else Inserted(SortedOf(s[..|s| - 1]), s[|s| - 1])
  }

  lemma SortedShort(s: seq<Entry>)
    ensures |s| < 2 ==> SortedOf(s) == s
    ensures s != [] ==> SortedOf(s[..1]) == s[..1]
  {
    if s != [] {
      assert SortedOf(s[..1][..0]) == [];
      assert |s| == 1 ==> s[..1] == s;
    }
  }

  ghost predicate Descending(s: seq<Entry>) {
    forall i, j :: 0 <= i < j < |s| ==> s[i].rssi >= s[j].rssi
  }

  /** The entries of one strength, in order. */
  function Level(s: seq<Entry>, rssi: int): seq<Entry> {
    if s == [] then []
    else Level(s[..|s| - 1], rssi) + if s[|s| - 1].rssi == rssi then [s[|s| - 1]] else []
  }

  lemma LevelSnoc(s: seq<Entry>, e: Entry, rssi: int)
    ensures Level(s + [e], rssi) == Level(s, rssi) + if e.rssi == rssi then [e] else []
  {
    assert (s + [e])[..|s|] == s;
  }

  lemma {:induction false} InsertedContents(s: seq<Entry>, key: Entry)
    ensures multiset(Inserted(s, key)) == multiset(s) + multiset{key}
    decreases |s|
  {
    if s != [] && s[|s| - 1].rssi < key.rssi {
      InsertedContents(s[..|s| - 1], key);
      assert s == s[..|s| - 1] + [s[|s| - 1]];
    }
  }

  lemma {:induction false} InsertedAbove(s: seq<Entry>, key: Entry, floor: int)
    requires key.rssi >= floor && forall i :: 0 <= i < |s| ==> s[i].rssi >= floor
    ensures forall i :: 0 <= i < |s| + 1 ==> Inserted(s, key)[i].rssi >= floor
    decreases |s|
  {
    if s != [] && s[|s| - 1].rssi < key.rssi {
      InsertedAbove(s[..|s| - 1], key, floor);
    }
  }

  lemma {:induction false} InsertedOrder(s: seq<Entry>, key: Entry)
    requires Descending(s)
    ensures Descending(Inserted(s, key))
    decreases |s|
  {
    if s != [] && s[|s| - 1].rssi < key.rssi {
      var init, last := s[..|s| - 1], s[|s| - 1];
      InsertedOrder(init, key);
      InsertedAbove(init, key, last.rssi);
    }
  }

  lemma {:induction false} InsertedLevel(s: seq<Entry>, key: Entry, rssi: int)
    ensures Level(Inserted(s, key), rssi) == Level(s, rssi) + if key.rssi == rssi then [key] else []
    decreases |s|
  {
    if s != [] && s[|s| - 1].rssi < key.rssi {
      var init, last := s[..|s| - 1], s[|s| - 1];
      InsertedLevel(init, key, rssi);
      LevelSnoc(Inserted(init, key), last, rssi);
      LevelBelow(init, key, last, rssi);
    } else {
      LevelSnoc(s, key, rssi);
    }
  }

  lemma LevelBelow(init: seq<Entry>, key: Entry, last: Entry, rssi: int)
    requires last.rssi < key.rssi
    ensures var k: seq<Entry> := if key.rssi == rssi then [key] else [];
            var l: seq<Entry> := if last.rssi == rssi then [last] else [];
            Level(init, rssi) + k + l == Level(init, rssi) + l + k
  {
  }

  lemma SortedSnoc(s: seq<Entry>, e: Entry)
    ensures SortedOf(s + [e]) == Inserted(SortedOf(s), e)
  {
    assert (s + [e])[..|s|] == s;
  }

  /** The list is the table, strongest first, equals in the order they were found. */
  lemma {:induction false} SortedList(s: seq<Entry>, rssi: int)
    ensures Descending(SortedOf(s)) && multiset(SortedOf(s)) == multiset(s)
    ensures Level(SortedOf(s), rssi) == Level(s, rssi)
    decreases |s|
  {
    hide Inserted, Descending, Level;
    if s == [] {
      NothingSorted(rssi);
    } else {
      var init, last := s[..|s| - 1], s[|s| - 1];
      assert s == init + [last];
      SortedList(init, rssi);
      SortedSnoc(init, last);
      InsertedOrder(SortedOf(init), last);
      InsertedContents(SortedOf(init), last);
      InsertedLevel(SortedOf(init), last, rssi);
      LevelSnoc(init, last, rssi);
    }
  }

  lemma NothingSorted(rssi: int)
    ensures Descending(SortedOf([])) && Level(SortedOf([]), rssi) == Level([], rssi)
  {
  }

  /** Where the shifting stops is where the key goes. */
  lemma {:induction false} InsertedPlace(s: seq<Entry>, key: Entry, j: nat)
    requires j <= |s| && (forall k :: j <= k < |s| ==> s[k].rssi < key.rssi) && (j > 0 ==> s[j - 1].rssi >= key.rssi)
    ensures Inserted(s, key) == s[..j] + [key] + s[j..]
    decreases |s|
  {
    if j < |s| {
      var init, last := s[..|s| - 1], s[|s| - 1];
      assert j > 0 ==> init[j - 1] == s[j - 1];
      assert forall k :: j <= k < |init| ==> init[k] == s[k];
      InsertedPlace(init, key, j);
      var head, tail := s[..j] + [key], init[j..];
      assert init[..j] == s[..j] && tail + [last] == s[j..];
      assert head + tail + [last] == head + (tail + [last]);
    }
  }

  // The code

  /** The file-scope table. */
  class ScanTable {
    const results: array<Entry>
    var count: nat

    ghost predicate Valid()
      reads this
    {
      results.Length == SCAN_MAX && count <= SCAN_MAX
    }

    ghost function Now(): seq<Entry>
      requires Valid()
      reads this, results
    {
      results[..count]
    }

    constructor ()
      ensures Valid() && Now() == [] && fresh(results)
    {
      results := new Entry[SCAN_MAX](_ => Entry([], 0, 0, 0));
      count := 0;
    }

    method OnResult(b: Beacon)
      requires Valid()
      modifies this, results
      ensures Valid()
      ensures Now() == match Listed(b) case None => old(Now()) case Some(e) => Heard(old(Now()), e)
    {
      hide Listed;
      var listed := ReadName(b);
      if listed.None? {
        return;
      }
      var e := listed.value;
      ghost var t := Now();
      var i := 0;
      while i < count && results[i].name != e.name
        invariant i <= count
        invariant forall j :: 0 <= j < i ==> t[j].name != e.name
      {
        i := i + 1;
      }
      assert i == Find(t, e.name);
      if i < count {
        if e.rssi > results[i].rssi {
          results[i] := e;
        }
        return;
      }
      var slot := count;
      if count < SCAN_MAX {
        count := count + 1;
      } else {
        slot := FindWeakest();
        if e.rssi <= results[slot].rssi {
          return;
        }
      }
      results[slot] := e;
    }

    /** The name copied, cut and checked. */
    method ReadName(b: Beacon) returns (e: Option<Entry>)
      ensures e == Listed(b)
    {
      hide Utf8.Valid;
      if b.ssid == [] {
        return None;
      }
      var name := if |b.ssid| > SSID_MAX then b.ssid[..SSID_MAX] else b.ssid;
      if 0 in name {
        return None;
      }
      var text := Utf8.IsValidString(name);
      e := if text then Some(Entry(name, b.rssi, b.channel, b.auth)) else None;
    }

    method FindWeakest() returns (slot: nat)
      requires Valid() && count > 0
      ensures slot < count && slot == Weakest(Now())
    {
      slot := 0;
      for i := 1 to count
        invariant slot < i && slot == Weakest(results[..i])
      {
        assert results[..i + 1][..i] == results[..i];
        if results[i].rssi < results[slot].rssi {
          slot := i;
        }
      }
    }

    /** The insertion sort, in place. */
    method Sort()
      requires Valid()
      modifies results
      ensures Valid() && Now() == SortedOf(old(Now()))
    {
      hide Inserted, SortedOf, Distinct;
      ghost var t := Now();
      SortedShort(t);
      if count < 2 {
        return;
      }
      assert results[..1] == t[..1];
      var i := 1;
      while i < count
        invariant 1 <= i <= count
        invariant results[..i] == SortedOf(t[..i])
        invariant forall k :: i <= k < count ==> results[k] == t[k]
      {
        InsertAt(i);
        SortedSnoc(t[..i], t[i]);
        assert t[..i] + [t[i]] == t[..i + 1];
        i := i + 1;
      }
      assert t[..count] == t;
    }

    method InsertAt(i: nat)
      requires Valid() && 0 < i < count
      modifies results
      ensures results[..i + 1] == Inserted(old(results[..i]), old(results[i]))
      ensures forall k :: i < k < results.Length ==> results[k] == old(results[k])
    {
      hide Inserted;
      ghost var pre := results[..i];
      var key := results[i];
      var j := i;
      while j > 0 && results[j - 1].rssi < key.rssi
        invariant j <= i
        invariant forall k :: 0 <= k < j ==> results[k] == pre[k]
        invariant forall k :: j < k <= i ==> results[k] == pre[k - 1]
        invariant forall k :: j <= k < i ==> pre[k].rssi < key.rssi
        invariant forall k :: i < k < results.Length ==> results[k] == old(results[k])
      {
        results[j] := results[j - 1];
        j := j - 1;
      }
      results[j] := key;
      InsertedPlace(pre, key, j);
      Shifted(results[..i + 1], pre, key, j);
    }
  }

  lemma Shifted(after: seq<Entry>, pre: seq<Entry>, key: Entry, j: nat)
    requires |after| == |pre| + 1 && j <= |pre| && after[j] == key
    requires forall k :: 0 <= k < j ==> after[k] == pre[k]
    requires forall k :: j < k < |after| ==> after[k] == pre[k - 1]
    ensures after == pre[..j] + [key] + pre[j..]
  {
  }
}
