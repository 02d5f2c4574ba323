/**
 * Walking the token array of a JSON document (firmware/src/proto/json.c, firmware/src/plug/shelly.c).
 *
 * The tokeniser is not modelled. What it produces is: the tokens of a tree in preorder, each
 * carrying the extent of its text, with the extents of children inside their parent's and in order.
 */
module JsonTokens {
  import opened Bytes

  datatype Kind = Object | Array | String | Primitive

  datatype Token = Token(kind: Kind, start: nat, end: nat, size: nat)

  /** A value, or a key: its own token and what hangs below it. An object's children alternate key and value. */
  datatype Tree = Node(tok: Token, kids: seq<Tree>)

  // What a tokeniser produces

  function Flatten(t: Tree): (ts: seq<Token>)
    ensures ts != [] && ts[0] == t.tok
    decreases t, 1
  {
    [t.tok] + FlattenAll(t.kids)
  }

  function FlattenAll(kids: seq<Tree>): seq<Token>
    decreases kids, 0
  {
    if kids == [] then [] else Flatten(kids[0]) + FlattenAll(kids[1..])
  }

  /** Extents nest, and come one after another. */
  ghost predicate Nested(t: Tree)
    decreases t
  {
    && t.tok.start <= t.tok.end
    && (forall k :: k in t.kids ==> Nested(k) && k.tok.start < t.tok.end && k.tok.end <= t.tok.end)
    && Consecutive(t.kids)
  }

  ghost predicate Consecutive(kids: seq<Tree>) {
    forall i :: 0 < i < |kids| ==> kids[i - 1].tok.end <= kids[i].tok.start
  }

  /** `n` keys, each followed by its value. */
  predicate Alternates(kids: seq<Tree>, n: nat)
    decreases n
  {
    if n == 0 then kids == [] else |kids| >= 2 && kids[0].kids == [] && Alternates(kids[2..], n - 1)
  }

  lemma {:induction false} AlternatesLength(kids: seq<Tree>, n: nat)
    requires Alternates(kids, n)
    ensures |kids| == 2 * n
    decreases n
  {
    if n > 0 {
      AlternatesLength(kids[2..], n - 1);
    }
  }

  ghost predicate Shaped(t: Tree)
    decreases t
  {
    && (forall k :: k in t.kids ==> Shaped(k))
    && match t.tok.kind
       case Object => Alternates(t.kids, t.tok.size)
       case Array => |t.kids| == t.tok.size
       case _ => t.kids == []
  }

  // The code

  /** rw_json_skip: past every later token that starts before this one ends. */
  function Skip(ts: seq<Token>, index: nat): (n: nat)
    requires index < |ts|
    ensures index < n <= |ts|
  {
    PastExtent(ts, index + 1, ts[index].end)
  }

  function PastExtent(ts: seq<Token>, i: nat, end: nat): (n: nat)
    requires i <= |ts|
    ensures i <= n <= |ts|
    decreases |ts| - i
  {
    if i == |ts| || ts[i].start >= end then i else PastExtent(ts, i + 1, end)
  }

  method SkipSubtree(ts: seq<Token>, index: nat) returns (end: nat)
    ensures end == if index < |ts| then Skip(ts, index) else |ts|
  {
    if index >= |ts| {
      return |ts|;
    }
    end := index + 1;
    while end < |ts|
      invariant end <= |ts| && PastExtent(ts, end, ts[index].end) == Skip(ts, index)
    {
      if ts[end].start >= ts[index].end {
        break;
      }
      end := end + 1;
    }
  }

  /** rw_json_eq: the token is a string or a primitive and its text is this. */
  predicate Reads(js: seq<byte>, t: Token, key: seq<byte>) {
    (t.kind == String || t.kind == Primitive) && t.start <= t.end <= |js| && js[t.start..t.end] == key
  }

  /** Key by key from `i`, `n` of them at most. */
  function FindFrom(js: seq<byte>, ts: seq<Token>, i: nat, n: nat, key: seq<byte>): Option<nat>
    decreases n
  {
    if n == 0 || i >= |ts| || i + 1 >= |ts| then None
    else if Reads(js, ts[i], key) then Some(i + 1)
    else FindFrom(js, ts, Skip(ts, i + 1), n - 1, key)
  }

  /** obj_find; with `obj` 0 it is rw_json_find. */
  function ObjFind(js: seq<byte>, ts: seq<Token>, obj: nat, key: seq<byte>): Option<nat> {
    if obj >= |ts| || ts[obj].kind != Object then None else FindFrom(js, ts, obj + 1, ts[obj].size, key)
  }

  method FindMember(js: seq<byte>, ts: seq<Token>, obj: nat, key: seq<byte>) returns (r: Option<nat>)
    ensures r == ObjFind(js, ts, obj, key)
  {
    if obj >= |ts| || ts[obj].kind != Object {
      return None;
    }
    var i: nat, n: nat := obj + 1, 0;
    while n < ts[obj].size && i < |ts|
      invariant n <= ts[obj].size
      invariant FindFrom(js, ts, i, ts[obj].size - n, key) == ObjFind(js, ts, obj, key)
    {
      var value := i + 1;
      if value >= |ts| {
        return None;
      }
      if Reads(js, ts[i], key) {
        return Some(value);
      }
      i := SkipSubtree(ts, value);
      n := n + 1;
    }
    r := None;
  }

  function SkipTimes(ts: seq<Token>, i: nat, n: nat): nat
    decreases n
  {
    if n == 0 then i else SkipTimes(ts, if i < |ts| then Skip(ts, i) else |ts|, n - 1)
  }

  /** arr_at. */
  function ArrAt(ts: seq<Token>, arr: nat, index: nat): (at: Option<nat>)
    ensures at.Some? ==> at.value < |ts|
  {
    if arr >= |ts| || ts[arr].kind != Array || index >= ts[arr].size then None
    else
      var i := SkipTimes(ts, arr + 1, index);
      if i < |ts| then Some(i) else None
  }

  method ElementAt(ts: seq<Token>, arr: nat, index: nat) returns (r: Option<nat>)
    ensures r == ArrAt(ts, arr, index)
  {
    if arr >= |ts| || ts[arr].kind != Array || index >= ts[arr].size {
      return None;
    }
    var i: nat := arr + 1;
    for n := 0 to index
      invariant SkipTimes(ts, i, index - n) == SkipTimes(ts, arr + 1, index)
    {
      i := SkipSubtree(ts, i);
    }
    r := if i < |ts| then Some(i) else None;
  }

  // What they find in the tokens of a tree

  /** Every token below a node starts before the node ends. */
  lemma {:induction false} BelowStartsInside(t: Tree, i: nat)
    requires Nested(t) && 0 < i < |Flatten(t)|
    ensures Flatten(t)[i].start < t.tok.end
    decreases t, 1
  {
    KidsStartInside(t.kids, t.tok.end, i - 1);
  }

  lemma {:induction false} KidsStartInside(kids: seq<Tree>, end: nat, i: nat)
    requires forall k :: k in kids ==> Nested(k) && k.tok.start < end && k.tok.end <= end
    requires i < |FlattenAll(kids)|
    ensures FlattenAll(kids)[i].start < end
    decreases kids, 0
  {
    var first := kids[0];
    if i == 0 {
    } else if i < |Flatten(first)| {
      BelowStartsInside(first, i);
    } else {
      KidsStartInside(kids[1..], end, i - |Flatten(first)|);
    }
  }

  /** The tokens `sub` stand at `at`, and what follows them starts no earlier than `end`. */
  ghost predicate Stands(ts: seq<Token>, at: nat, sub: seq<Token>, end: nat) {
    && at + |sub| <= |ts| && ts[at..at + |sub|] == sub
    && (at + |sub| < |ts| ==> ts[at + |sub|].start >= end)
  }

  lemma {:induction false} PastExtentStops(ts: seq<Token>, i: nat, n: nat, end: nat)
    requires i <= n <= |ts| && (forall j :: i <= j < n ==> ts[j].start < end) && (n < |ts| ==> ts[n].start >= end)
    ensures PastExtent(ts, i, end) == n
    decreases n - i
  {
    if i < n {
      PastExtentStops(ts, i + 1, n, end);
    }
  }

  /** Skipping from a node lands exactly past its subtree. */
  lemma SkipLandsPast(ts: seq<Token>, at: nat, t: Tree)
    requires Nested(t) && Stands(ts, at, Flatten(t), t.tok.end)
    ensures Skip(ts, at) == at + |Flatten(t)|
  {
    var sub := Flatten(t);
    assert ts[at] == ts[at..at + |sub|][0];
    forall j | at + 1 <= j < at + |sub|
      ensures ts[j].start < t.tok.end
    {
      assert ts[j] == ts[at..at + |sub|][j - at];
      BelowStartsInside(t, j - at);
    }
    PastExtentStops(ts, at + 1, at + |sub|, t.tok.end);
  }

  lemma Halves(ts: seq<Token>, at: nat, a: seq<Token>, b: seq<Token>)
    requires at + |a| + |b| <= |ts| && ts[at..at + |a| + |b|] == a + b
    ensures ts[at..at + |a|] == a && ts[at + |a|..at + |a| + |b|] == b
    ensures b != [] ==> ts[at + |a|] == b[0]
  {
    var all := ts[at..at + |a| + |b|];
    assert ts[at..at + |a|] == all[..|a|];
    assert ts[at + |a|..at + |a| + |b|] == all[|a|..];
    assert b != [] ==> ts[at + |a|] == all[|a|];
  }

  lemma FlattenCons(kids: seq<Tree>)
    requires kids != []
    ensures FlattenAll(kids) == Flatten(kids[0]) + FlattenAll(kids[1..])
    ensures if |kids| == 1 then FlattenAll(kids[1..]) == []
            else FlattenAll(kids[1..]) != [] && FlattenAll(kids[1..])[0] == kids[1].tok
  {
  }

  /** The children of a standing forest stand one after another. */
  lemma FirstStands(ts: seq<Token>, at: nat, kids: seq<Tree>, end: nat)
    requires kids != [] && Consecutive(kids) && kids[0].tok.end <= end
    requires Stands(ts, at, FlattenAll(kids), end)
    ensures Stands(ts, at, Flatten(kids[0]), kids[0].tok.end)
    ensures Stands(ts, at + |Flatten(kids[0])|, FlattenAll(kids[1..]), end)
  {
    hide Flatten, FlattenAll;
    FlattenCons(kids);
    Halves(ts, at, Flatten(kids[0]), FlattenAll(kids[1..]));
  }

  // Objects

  /** A name is a scalar, and its text within the document is this one, byte for byte. */
  ghost predicate Named(js: seq<byte>, t: Token, key: seq<byte>) {
    && t.kind != Object && t.kind != Array
    && t.end == t.start + |key| <= |js| && forall i :: 0 <= i < |key| ==> js[t.start + i] == key[i]
  }

  lemma ReadsNamed(js: seq<byte>, t: Token, key: seq<byte>)
    ensures Reads(js, t, key) <==> Named(js, t, key)
  {
    if t.start <= t.end <= |js| {
      assert forall i :: 0 <= i < t.end - t.start ==> js[t.start..t.end][i] == js[t.start + i];
    }
  }

  /** The first member of this name, among `n` alternating keys and values. */
  ghost function MemberOf(js: seq<byte>, kids: seq<Tree>, n: nat, key: seq<byte>): (m: Option<nat>)
    requires |kids| == 2 * n
    ensures m.Some? ==> m.value < n && Named(js, kids[2 * m.value].tok, key)
    ensures m.Some? ==> forall j :: 0 <= j < m.value ==> !Named(js, kids[2 * j].tok, key)
    ensures m.None? ==> forall j :: 0 <= j < n ==> !Named(js, kids[2 * j].tok, key)
    decreases n
  {
    if n == 0 then None
    else if Named(js, kids[0].tok, key) then Some(0)
    else
      match MemberOf(js, kids[2..], n - 1, key)
      case None => assert forall j :: 0 < j < n ==> kids[2 * j] == kids[2..][2 * (j - 1)]; None
      case Some(m) => assert forall j :: 0 < j < n ==> kids[2 * j] == kids[2..][2 * (j - 1)]; Some(m + 1)
  }

  lemma FindUnfolds(js: seq<byte>, ts: seq<Token>, i: nat, n: nat, key: seq<byte>)
    requires n > 0 && i + 1 < |ts|
    ensures FindFrom(js, ts, i, n, key) == if Reads(js, ts[i], key) then Some(i + 1) else FindFrom(js, ts, Skip(ts, i + 1), n - 1, key)
  {
  }

  /** How many tokens into the members that member's value is. */
  function Offset(js: seq<byte>, kids: seq<Tree>, n: nat, key: seq<byte>): Option<nat>
    requires Alternates(kids, n)
    decreases n
  {
    if n == 0 then None
    else if Reads(js, kids[0].tok, key) then Some(1)
    else
      match Offset(js, kids[2..], n - 1, key)
      case None => None
      case Some(w) => Some(1 + |Flatten(kids[1])| + w)
  }

  lemma {:induction false} OffsetIsMember(js: seq<byte>, kids: seq<Tree>, n: nat, key: seq<byte>)
    requires Alternates(kids, n)
    ensures |kids| == 2 * n
    ensures var m := MemberOf(js, kids, n, key);
            Offset(js, kids, n, key) == if m.None? then None else Some(|FlattenAll(kids[..2 * m.value + 1])|)
    decreases n
  {
    hide Flatten, FlattenAll, Reads, Named;
    AlternatesLength(kids, n);
    if n > 0 {
      ReadsNamed(js, kids[0].tok, key);
      LeafFlattens(kids[0]);
      if Reads(js, kids[0].tok, key) {
        assert kids[..1] == [kids[0]];
        LeafAlone(kids[0]);
      } else {
        OffsetIsMember(js, kids[2..], n - 1, key);
        var m := MemberOf(js, kids[2..], n - 1, key);
        if m.Some? {
          FlattenFront(kids, 2 * m.value + 1);
        }
      }
    }
  }

  /** A key and its value at the front of standing members: where the value is, and where the rest. */
  lemma MemberStands(ts: seq<Token>, at: nat, kids: seq<Tree>, n: nat, end: nat)
    requires n > 0 && Alternates(kids, n) && Consecutive(kids) && (forall k :: k in kids ==> Nested(k) && k.tok.end <= end)
    requires Stands(ts, at, FlattenAll(kids), end)
    ensures at + 1 < |ts| && ts[at] == kids[0].tok
    ensures Skip(ts, at + 1) == at + 1 + |Flatten(kids[1])|
    ensures Stands(ts, at + 1 + |Flatten(kids[1])|, FlattenAll(kids[2..]), end)
    ensures Consecutive(kids[2..]) && forall k :: k in kids[2..] ==> Nested(k) && k.tok.end <= end
  {
    hide Flatten, FlattenAll, Nested, Skip, Stands;
    var name, value := kids[0], kids[1];
    assert name in kids && value in kids;
    LeafFlattens(name);
    FirstStands(ts, at, kids, end);
    assert kids[1..][0] == value && kids[1..][1..] == kids[2..] && Consecutive(kids[1..]);
    FirstStands(ts, at + 1, kids[1..], end);
    StandsFirst(ts, at, name);
    StandsFirst(ts, at + 1, value);
    SkipLandsPast(ts, at + 1, value);
    assert forall k :: k in kids[2..] ==> k in kids;
  }

  lemma {:induction false} FindAmong(js: seq<byte>, ts: seq<Token>, at: nat, kids: seq<Tree>, n: nat, key: seq<byte>, end: nat)
    requires Alternates(kids, n) && Consecutive(kids) && (forall k :: k in kids ==> Nested(k) && k.tok.end <= end)
    requires Stands(ts, at, FlattenAll(kids), end)
    ensures var w := Offset(js, kids, n, key);
            FindFrom(js, ts, at, n, key) == if w.None? then None else Some(at + w.value)
    decreases n
  {
    hide Flatten, FlattenAll, Nested, FindFrom, Reads, Skip, Stands, Consecutive;
    if n == 0 {
      FindNone(js, ts, at, key);
    } else {
      MemberStands(ts, at, kids, n, end);
      FindUnfolds(js, ts, at, n, key);
      if !Reads(js, kids[0].tok, key) {
        FindAmong(js, ts, at + 1 + |Flatten(kids[1])|, kids[2..], n - 1, key, end);
      }
    }
  }

  lemma FindNone(js: seq<byte>, ts: seq<Token>, i: nat, key: seq<byte>)
    ensures FindFrom(js, ts, i, 0, key) == None
  {
  }

  lemma LeafFlattens(t: Tree)
    requires t.kids == []
    ensures Flatten(t) == [t.tok]
  {
  }

  lemma LeafAlone(t: Tree)
    requires t.kids == []
    ensures FlattenAll([t]) == [t.tok]
  {
    assert FlattenAll([t]) == Flatten(t) + FlattenAll([t][1..]);
  }

  lemma StandsFirst(ts: seq<Token>, at: nat, t: Tree)
    requires Stands(ts, at, Flatten(t), t.tok.end)
    ensures at < |ts| && ts[at] == t.tok
  {
    assert ts[at] == ts[at..at + |Flatten(t)|][0];
  }

  lemma FlattenFront(kids: seq<Tree>, n: nat)
    requires n + 2 <= |kids|
    ensures FlattenAll(kids[..n + 2]) == Flatten(kids[0]) + (Flatten(kids[1]) + FlattenAll(kids[2..][..n]))
  {
    hide Flatten, FlattenAll;
    var a := kids[..n + 2];
    FlattenCons(a);
    FlattenCons(a[1..]);
    assert a[1..][0] == kids[1] && a[1..][1..] == kids[2..][..n];
  }

  /** The tokens of a whole tree at the front of the array, or anywhere in it. */
  ghost predicate Document(ts: seq<Token>, at: nat, t: Tree) {
    Nested(t) && Shaped(t) && Stands(ts, at, Flatten(t), t.tok.end)
  }

  lemma KidsStand(ts: seq<Token>, at: nat, t: Tree)
    requires Document(ts, at, t)
    ensures at < |ts| && ts[at] == t.tok && Stands(ts, at + 1, FlattenAll(t.kids), t.tok.end)
  {
    var sub := Flatten(t);
    assert ts[at] == ts[at..at + |sub|][0];
    assert ts[at + 1..at + |sub|] == ts[at..at + |sub|][1..] == FlattenAll(t.kids);
  }

  /**
   * Looking a key up finds the value of the first direct member of that name, and nothing deeper;
   * the token found is that value's.
   */
  lemma ObjFindIsFirstMember(js: seq<byte>, ts: seq<Token>, at: nat, t: Tree, key: seq<byte>)
    requires Document(ts, at, t) && t.tok.kind == Object
    ensures |t.kids| == 2 * t.tok.size
    ensures var m := MemberOf(js, t.kids, t.tok.size, key);
            if m.None? then ObjFind(js, ts, at, key) == None
            else var where := at + 1 + |FlattenAll(t.kids[..2 * m.value + 1])|;
                 ObjFind(js, ts, at, key) == Some(where) && Document(ts, where, t.kids[2 * m.value + 1])
  {
    hide Flatten, FlattenAll, Stands, FindFrom, MemberOf, Offset, Nested, Consecutive;
    DocumentKids(ts, at, t);
    KidsStand(ts, at, t);
    FindAmong(js, ts, at + 1, t.kids, t.tok.size, key, t.tok.end);
    OffsetIsMember(js, t.kids, t.tok.size, key);
    var m := MemberOf(js, t.kids, t.tok.size, key);
    if m.Some? {
      var k := 2 * m.value + 1;
      assert t.kids[k] in t.kids;
      KidStands(ts, at + 1, t.kids, k, t.tok.end);
    }
  }

  lemma DocumentKids(ts: seq<Token>, at: nat, t: Tree)
    requires Document(ts, at, t)
    ensures Consecutive(t.kids) && forall k :: k in t.kids ==> Nested(k) && Shaped(k) && k.tok.end <= t.tok.end
  {
  }

  lemma {:induction false} KidStands(ts: seq<Token>, at: nat, kids: seq<Tree>, k: nat, end: nat)
    requires k < |kids| && Consecutive(kids) && (forall c :: c in kids ==> c.tok.end <= end)
    requires Stands(ts, at, FlattenAll(kids), end)
    ensures Stands(ts, at + |FlattenAll(kids[..k])|, Flatten(kids[k]), kids[k].tok.end)
    decreases k
  {
    hide Flatten, FlattenAll, Stands;
    FirstStands(ts, at, kids, end);
    if k == 0 {
      NoneFlatten(kids[..0]);
    } else {
      assert Consecutive(kids[1..]);
      KidStands(ts, at + |Flatten(kids[0])|, kids[1..], k - 1, end);
      FrontFlatten(kids, k);
    }
  }

  lemma NoneFlatten(kids: seq<Tree>)
    requires kids == []
    ensures FlattenAll(kids) == []
  {
  }

  lemma FrontFlatten(kids: seq<Tree>, k: nat)
    requires 0 < k <= |kids|
    ensures FlattenAll(kids[..k]) == Flatten(kids[0]) + FlattenAll(kids[1..][..k - 1])
  {
    assert kids[..k][1..] == kids[1..][..k - 1];
  }

  // Arrays

  lemma {:induction false} SkipsAlong(ts: seq<Token>, at: nat, kids: seq<Tree>, k: nat, end: nat)
    requires k <= |kids| && Consecutive(kids) && (forall c :: c in kids ==> Nested(c) && c.tok.end <= end)
    requires Stands(ts, at, FlattenAll(kids), end)
    ensures SkipTimes(ts, at, k) == at + |FlattenAll(kids[..k])|
    decreases k
  {
    hide Flatten, FlattenAll, Stands, Nested, Skip;
    if k == 0 {
      NoneFlatten(kids[..0]);
    } else {
      FirstStands(ts, at, kids, end);
      StandsFirst(ts, at, kids[0]);
      assert kids[0] in kids;
      SkipLandsPast(ts, at, kids[0]);
      assert Consecutive(kids[1..]);
      SkipsAlong(ts, at + |Flatten(kids[0])|, kids[1..], k - 1, end);
      FrontFlatten(kids, k);
    }
  }

  /** The k-th element is found at its own token, and past the last there is nothing. */
  lemma ArrAtIsElement(ts: seq<Token>, at: nat, t: Tree, k: nat)
    requires Document(ts, at, t) && t.tok.kind == Array
    ensures if k >= |t.kids| then ArrAt(ts, at, k) == None
            else var where := at + 1 + |FlattenAll(t.kids[..k])|;
                 ArrAt(ts, at, k) == Some(where) && Document(ts, where, t.kids[k])
  {
    hide Flatten, FlattenAll, Stands;
    DocumentKids(ts, at, t);
    KidsStand(ts, at, t);
    if k < |t.kids| {
      SkipsAlong(ts, at + 1, t.kids, k, t.tok.end);
      KidStands(ts, at + 1, t.kids, k, t.tok.end);
      StandsFirst(ts, at + 1 + |FlattenAll(t.kids[..k])|, t.kids[k]);
      assert t.kids[k] in t.kids;
    }
  }
}
