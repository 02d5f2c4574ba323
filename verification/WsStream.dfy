/**
 * What a server's byte stream means, said without the client: a sequence of frames (section 5.2 of
 * RFC 6455), fragments joined into messages (section 5.4), control frames answered in between
 * (section 5.5). The client of WsReceive does exactly this.
 */
module WsStream {
  import opened Bytes
  import opened WsFrame
  import opened WsReceive

  predicate LegalFrame(f: Frame) {
    Legal(Head(f.fin, f.op, |f.payload|)) && |f.payload| <= MAX_INBOUND
  }

  function FrameBytes(f: Frame): seq<byte>
    requires LegalFrame(f)
  {
    ServerHead(Head(f.fin, f.op, |f.payload|)) + f.payload
  }

  function StreamBytes(fs: seq<Frame>): seq<byte>
    requires forall f :: f in fs ==> LegalFrame(f)
  {
    if fs == [] then [] else FrameBytes(fs[0]) + StreamBytes(fs[1..])
  }

  // The reference

  /** Why a frame is not accepted: the peer closes, or the frame cannot stand where it does. */
  datatype Objection = PeerCloses | Fails(code: nat)

  /** The objection to a frame, given the fragments in hand; `takesBinary` says whether anyone takes binary frames. */
  function Refusal(takesBinary: bool, acc: Option<seq<byte>>, f: Frame): Option<Objection> {
    if f.op == CLOSE then Some(PeerCloses)
    else if f.op == TEXT && acc.Some? then Some(Fails(1002))
    else if f.op == CONT && acc.None? then Some(Fails(1002))
    else if f.op == CONT && |acc.value| + |f.payload| > MAX_INBOUND then Some(Fails(1009))
    else if f.op == BINARY && (!takesBinary || acc.Some? || !f.fin) then Some(Fails(1002))
    else None
  }

  /** The fragments in hand after an accepted frame. */
  function Joining(acc: Option<seq<byte>>, f: Frame): Option<seq<byte>>
    requires f.op == CONT ==> acc.Some?
  {
    if f.op == TEXT then (if f.fin then None else Some(f.payload))
    else if f.op == CONT then (if f.fin then None else Some(acc.value + f.payload))
    else acc
  }

  /** What an accepted frame causes: at most one action. */
  function Effect(acc: Option<seq<byte>>, f: Frame): (e: seq<Action>)
    requires f.op == CONT ==> acc.Some?
    ensures |e| <= 1
  {
    if f.op == PING then [Pong(f.payload)]
    else if f.op == BINARY then [Binary(f.payload)]
    else if f.op == TEXT && f.fin then [Text(f.payload)]
    else if f.op == CONT && f.fin then [Text(acc.value + f.payload)]
    else []
  }

  predicate Accepted(takesBinary: bool, acc: Option<seq<byte>>, fs: seq<Frame>)
    decreases |fs|
  {
    fs == []
    || (LegalFrame(fs[0]) && Refusal(takesBinary, acc, fs[0]).None?
        && Accepted(takesBinary, Joining(acc, fs[0]), fs[1..]))
  }

  function Meaning(takesBinary: bool, acc: Option<seq<byte>>, fs: seq<Frame>): seq<Action>
    requires Accepted(takesBinary, acc, fs)
    decreases |fs|
  {
    if fs == [] then [] else Effect(acc, fs[0]) + Meaning(takesBinary, Joining(acc, fs[0]), fs[1..])
  }

  function Left(takesBinary: bool, acc: Option<seq<byte>>, fs: seq<Frame>): Option<seq<byte>>
    requires Accepted(takesBinary, acc, fs)
    decreases |fs|
  {
    if fs == [] then acc else Left(takesBinary, Joining(acc, fs[0]), fs[1..])
  }

  // What the application and the transport make of it; `o` is everything done so far

  /** A close from this side: the frame, and the end at once if it cannot be sent. */
  function Closes(env: Env, o: seq<Action>, code: nat): seq<Action> {
    if env.sends(o + [CloseSent(code)]) then [CloseSent(code)] else [CloseSent(code), Ended(FailLocal, code)]
  }

  /** How a connection ends: the last things done, and what it is put down to when that is more than they say. */
  datatype End = End(actions: seq<Action>, blame: Option<Fail>)

  function Reacts(env: Env, o: seq<Action>, r: Reaction): Option<End> {
    match r
    case Carry => None
    case CloseWith(code) => Some(End(Closes(env, o, code), None))
    case Drop(why) => Some(End([Ended(why, 0)], None))
  }

  /** What follows the action just done if it ends the connection. */
  function Reply(env: Env, o: seq<Action>, last: Action): Option<End> {
    match last
    case Text(_) => Reacts(env, o, env.onText(o))
    case Binary(_) =>
      var (r, wanted) := env.onBinary(o);
      if r.Carry? && !wanted then Some(End(Closes(env, o, 1008), Some(FailProtocol))) else Reacts(env, o, r)
    case Pong(_) => if env.sends(o) then None else Some(End([Ended(FailLocal, 0)], None))
    case _ => None
  }

  /** A frame that cannot stand, or cannot be taken in. */
  function Refused(env: Env, o: seq<Action>, code: nat): End {
    End(Closes(env, o, code), Some(if code == 1009 then FailTooBig else FailProtocol))
  }

  /**
   * A close from the other side: its two code bytes echoed, high byte first, and the end; 1000
   * stands for a close without a code, and 4002 is the relay taking the device's access away.
   */
  function PeerClosed(payload: seq<byte>): seq<Action> {
    if |payload| < 2 then [Echo([]), Ended(FailPeerClosed, 1000)]
    else if payload[..2] == [0x0F, 0xA2] then [Echo([0x0F, 0xA2]), Ended(FailDeprovisioned, 4002)]
    else [Echo(payload[..2]), Ended(FailPeerClosed, BigEndian(payload[..2]))]
  }

  /** The number these bytes write, the most significant first. */
  function BigEndian(bytes: seq<byte>): nat {
    if bytes == [] then 0 else 256 * BigEndian(bytes[..|bytes| - 1]) + bytes[|bytes| - 1]
  }

  lemma TwoBytes(hi: byte, lo: byte)
    ensures BigEndian([hi, lo]) == 256 * hi + lo
  {
    assert [hi, lo][..1] == [hi] && [hi][..0] == [];
    assert BigEndian([hi]) == hi as nat;
  }

  /** Everything a frame brings about if the connection ends with it; None if it goes on. */
  function Break(env: Env, o: seq<Action>, acc: Option<seq<byte>>, f: Frame): Option<End> {
    match Refusal(env.hasBinary, acc, f)
    case Some(PeerCloses) => Some(End(PeerClosed(f.payload), None))
    case Some(Fails(code)) => Some(Refused(env, o, code))
    case None =>
      var e := Effect(acc, f);
      if e == [] then None
      else
        match Reply(env, o + e, e[0])
        case None => None
        case Some(more) => Some(End(e + more.actions, more.blame))
  }

  /** After each of these frames the connection goes on. */
  predicate CarriesOn(env: Env, o: seq<Action>, acc: Option<seq<byte>>, fs: seq<Frame>)
    requires Accepted(env.hasBinary, acc, fs)
    decreases |fs|
  {
    fs == []
    || (Break(env, o, acc, fs[0]).None? && CarriesOn(env, o + Effect(acc, fs[0]), Joining(acc, fs[0]), fs[1..]))
  }

  // The client

  /** The reassembly buffer holds the fragments in hand. */
  predicate Holds(s: Conn, acc: Option<seq<byte>>) {
    s.state == Open && s.msgActive == acc.Some? && (acc.Some? ==> s.msg == acc.value && |acc.value| <= MAX_INBOUND)
  }

  /**
   * Not open any more: closed if the end has been told, otherwise waiting for the peer's close. The
   * code is the one told or sent; the failure is what the end is put down to, or what it was told as.
   */
  predicate Over(s: Conn, was: Fail, blame: Option<Fail>) {
    s.out != [] &&
    match s.out[|s.out| - 1]
    case Ended(why, code) => s.state == Closed && s.code == code && s.fail == (if blame.Some? then blame.value else why)
    case CloseSent(code) => s.state == Closing && s.code == code && s.fail == (if blame.Some? then blame.value else was)
    case _ => false
  }

  lemma TurnOfFrame(env: Env, s: Conn, f: Frame, rest: seq<byte>)
    requires LegalFrame(f) && s.rx == FrameBytes(f) + rest
    ensures TurnOf(env, s) == Handle(env, s, f, rest)
  {
    hide Handle, ServerHead, ParseHeader;
    var head := ServerHead(Head(f.fin, f.op, |f.payload|));
    assert s.rx == head + (f.payload + rest);
    ParseOfServerHead(Head(f.fin, f.op, |f.payload|), f.payload + rest);
    var n := |head|;
    assert s.rx[n..n + |f.payload|] == f.payload && s.rx[n + |f.payload|..] == rest;
  }

  lemma CloseIsCloses(env: Env, s: Conn, code: nat)
    requires s.state == Open
    ensures var t := CloseLocal(env, s, code);
            t.out == s.out + Closes(env, s.out, code) && Over(t, s.fail, None)
  {
    assert s.out + [CloseSent(code), Ended(FailLocal, code)] == s.out + [CloseSent(code)] + [Ended(FailLocal, code)];
  }

  lemma ReactIsReacts(env: Env, s: Conn, r: Reaction)
    requires s.state == Open
    ensures var t := React(env, s, r);
            match Reacts(env, s.out, r)
            case None => t == s
            case Some(more) => t.out == s.out + more.actions && Over(t, s.fail, more.blame)
  {
    hide CloseLocal, Closes, Over;
    if r.CloseWith? {
      CloseIsCloses(env, s, r.code);
    } else if r.Drop? {
      DropIsOver(s, r.why);
    }
  }

  lemma DropIsOver(s: Conn, why: Fail)
    requires s.state == Open
    ensures Teardown(s, why, 0).out == s.out + [Ended(why, 0)] && Over(Teardown(s, why, 0), s.fail, None)
  {
  }

  /** An accepted frame after which the connection goes on has its effect and is gone from the buffer. */
  lemma HandleCarried(env: Env, s: Conn, acc: Option<seq<byte>>, f: Frame, rest: seq<byte>)
    requires Holds(s, acc) && LegalFrame(f) && Break(env, s.out, acc, f).None?
    ensures Refusal(env.hasBinary, acc, f).None?
    ensures var (t, turn) := Handle(env, s, f, rest);
            && turn == Again && Holds(t, Joining(acc, f)) && t.rx == rest
            && t.out == s.out + Effect(acc, f) && t.fail == s.fail && t.code == s.code
  {
    hide CloseLocal, Closes;
    assert s.out + [] == s.out && [] + f.payload == f.payload;
  }

  /** Any other ends the connection the way the reference says. */
  lemma HandleBroken(env: Env, s: Conn, acc: Option<seq<byte>>, f: Frame, rest: seq<byte>)
    requires Holds(s, acc) && LegalFrame(f) && Break(env, s.out, acc, f).Some?
    ensures var (t, turn) := Handle(env, s, f, rest);
            var end := Break(env, s.out, acc, f).value;
            turn == Stop && t.out == s.out + end.actions && Over(t, s.fail, end.blame)
  {
    if Refusal(env.hasBinary, acc, f).Some? {
      HandleRefused(env, s, acc, f, rest);
    } else {
      HandleReplied(env, s, acc, f, rest);
    }
  }

  /** The code the client reads is the one meant. */
  lemma CodeOfPeer(payload: seq<byte>)
    ensures PeerClosed(payload) ==
            [Echo(if |payload| >= 2 then payload[..2] else []),
             Ended(if CloseCode(payload) == DEPROVISIONED then FailDeprovisioned else FailPeerClosed, CloseCode(payload))]
  {
    if |payload| >= 2 {
      TwoBytes(payload[0], payload[1]);
      assert payload[..2] == [payload[0], payload[1]];
    }
  }

  lemma HandleRefused(env: Env, s: Conn, acc: Option<seq<byte>>, f: Frame, rest: seq<byte>)
    requires Holds(s, acc) && LegalFrame(f) && Refusal(env.hasBinary, acc, f).Some?
    ensures var (t, turn) := Handle(env, s, f, rest);
            var end := Break(env, s.out, acc, f).value;
            turn == Stop && t.out == s.out + end.actions && Over(t, s.fail, end.blame)
  {
    hide CloseLocal, Closes;
    CloseIsCloses(env, s, PROTOCOL_ERR);
    CloseIsCloses(env, s, TOO_BIG);
    if f.op == CLOSE {
      CodeOfPeer(f.payload);
      var o := s.out + [PeerClosed(f.payload)[0]];
      assert s.out + PeerClosed(f.payload) == o + [PeerClosed(f.payload)[1]];
    }
  }

  lemma HandleReplied(env: Env, s: Conn, acc: Option<seq<byte>>, f: Frame, rest: seq<byte>)
    requires Holds(s, acc) && LegalFrame(f) && Refusal(env.hasBinary, acc, f).None? && Break(env, s.out, acc, f).Some?
    ensures var (t, turn) := Handle(env, s, f, rest);
            var end := Break(env, s.out, acc, f).value;
            turn == Stop && t.out == s.out + end.actions && Over(t, s.fail, end.blame)
  {
    hide CloseLocal, Closes;
    var e := Effect(acc, f);
    var o := s.out + e;
    var more := Reply(env, o, e[0]).value;
    assert s.out + (e + more.actions) == o + more.actions && [] + f.payload == f.payload;
    if f.op == BINARY {
      assert o == s.out + [Binary(f.payload)];
      var t := s.(out := o);
      var (reaction, wanted) := env.onBinary(o);
      ReactIsReacts(env, t, reaction);
      CloseIsCloses(env, t, POLICY);
    } else if f.op != PING {
      var base := if f.op == TEXT then [] else s.msg;
      var t := s.(rx := rest, msg := base + f.payload, msgActive := false, out := o);
      ReactIsReacts(env, t, env.onText(o));
    }
  }

  lemma AcceptedJoins(takesBinary: bool, acc: Option<seq<byte>>, f: Frame)
    requires Refusal(takesBinary, acc, f).None?
    ensures f.op == CONT ==> acc.Some?
  {
  }

  lemma {:induction false} PumpCarried(env: Env, s: Conn, acc: Option<seq<byte>>, fs: seq<Frame>, r: seq<byte>)
    requires Holds(s, acc) && Accepted(env.hasBinary, acc, fs) && CarriesOn(env, s.out, acc, fs)
    requires (forall f :: f in fs ==> LegalFrame(f)) && s.rx == StreamBytes(fs) + r
    ensures exists t :: Holds(t, Left(env.hasBinary, acc, fs)) && t.rx == r && t.out == s.out + Meaning(env.hasBinary, acc, fs)
                        && t.fail == s.fail && t.code == s.code && Pump(env, s) == Pump(env, t)
    decreases |fs|
  {
    hide Handle, TurnOf, FrameBytes, LegalFrame, Refusal, Joining, Effect, Break;
    if fs == [] {
      assert s.rx == r && s.out + [] == s.out;
    } else {
      var rest := StreamBytes(fs[1..]) + r;
      assert s.rx == FrameBytes(fs[0]) + rest;
      TurnOfFrame(env, s, fs[0], rest);
      HandleCarried(env, s, acc, fs[0], rest);
      AcceptedJoins(env.hasBinary, acc, fs[0]);
      var t := TurnOf(env, s).0;
      PumpCarried(env, t, Joining(acc, fs[0]), fs[1..], r);
      assert t.out + Meaning(env.hasBinary, Joining(acc, fs[0]), fs[1..]) == s.out + Meaning(env.hasBinary, acc, fs);
    }
  }

  /** What the bytes after those frames do: wait for more, or end the connection with these actions. */
  datatype Tail = Incomplete | Final(end: End)

  ghost predicate Ends(env: Env, o: seq<Action>, acc: Option<seq<byte>>, r: seq<byte>, tail: Tail) {
    match ParseHeader(r)
    case NeedMore => tail == Incomplete
    case Bad => tail == Final(Refused(env, o, 1002))
    case TooLarge => tail == Final(Refused(env, o, 1009))
    case Good(h, size) =>
      if |r| < size + h.len then tail == Incomplete
      else exists f, rest :: LegalFrame(f) && r == FrameBytes(f) + rest && Break(env, o, acc, f).Some?
                             && tail == Final(Break(env, o, acc, f).value)
  }

  /** Frames after which the connection goes on, and then something that it waits on or ends with. */
  ghost predicate Decomposes(env: Env, o: seq<Action>, acc: Option<seq<byte>>, b: seq<byte>,
                             fs: seq<Frame>, r: seq<byte>, tail: Tail) {
    && Accepted(env.hasBinary, acc, fs) && CarriesOn(env, o, acc, fs) && (forall f :: f in fs ==> LegalFrame(f))
    && b == StreamBytes(fs) + r
    && Ends(env, o + Meaning(env.hasBinary, acc, fs), Left(env.hasBinary, acc, fs), r, tail)
  }

  lemma PumpTail(env: Env, s: Conn, acc: Option<seq<byte>>, tail: Tail)
    requires Holds(s, acc) && Ends(env, s.out, acc, s.rx, tail)
    ensures var (t, ok) := Pump(env, s);
            match tail
            case Incomplete => ok && t == s
            case Final(end) => !ok && t.out == s.out + end.actions && Over(t, s.fail, end.blame)
  {
    hide Handle, Break, CloseLocal, Closes;
    CloseIsCloses(env, s, PROTOCOL_ERR);
    CloseIsCloses(env, s, TOO_BIG);
    var p := ParseHeader(s.rx);
    if p.Good? && |s.rx| >= p.size + p.h.len {
      var f, rest :| LegalFrame(f) && s.rx == FrameBytes(f) + rest && Break(env, s.out, acc, f).Some?
                     && tail == Final(Break(env, s.out, acc, f).value);
      TurnOfFrame(env, s, f, rest);
      HandleBroken(env, s, acc, f, rest);
    }
  }

  /**
   * The meaning of a whole stream, for every application and every transport. If it is frames after
   * which the connection goes on, and then something that ends it, the client does what those
   * frames mean, fragments joined and pings answered in order, and then either waits for more or
   * ends as stated: because of the frame, because a callback closed or dropped the connection or
   * did not want what it got, or because something could not be sent. However the stream was cut up.
   */
  lemma StreamMeans(env: Env, s: Conn, acc: Option<seq<byte>>, segments: seq<seq<byte>>,
                    fs: seq<Frame>, r: seq<byte>, tail: Tail)
    requires Holds(s, acc) && s.rx == []
    requires Decomposes(env, s.out, acc, Joined(segments), fs, r, tail)
    ensures Settled(env, s)
    ensures var t := Feed(env, s, segments);
            match tail
            case Incomplete => t.state == Open && t.rx == r && t.out == s.out + Meaning(env.hasBinary, acc, fs)
            case Final(end) => t.out == s.out + Meaning(env.hasBinary, acc, fs) + end.actions && Over(t, s.fail, end.blame)
  {
    hide TurnOf, Handle, Ends, CarriesOn, Over;
    EmptyIsSettled(env, s);
    FeedIsPump(env, s, segments);
    var whole := More(s, Joined(segments));
    assert whole.rx == StreamBytes(fs) + r;
    PumpCarried(env, whole, acc, fs, r);
    var t :| Holds(t, Left(env.hasBinary, acc, fs)) && t.rx == r && t.out == s.out + Meaning(env.hasBinary, acc, fs)
             && t.fail == s.fail && t.code == s.code && Pump(env, whole) == Pump(env, t);
    PumpTail(env, t, Left(env.hasBinary, acc, fs), tail);
    if tail.Final? {
      SameIsOver(Feed(env, s, segments), Pump(env, t).0, s.fail, tail.end.blame);
    }
  }

  /**
   * A stream that ends with the peer's close, in bytes: whatever came before it, the close with
   * code bytes hi and lo is echoed and ends the connection with 256 * hi + lo, which is the end
   * of the device's access exactly for 0F A2; a close without them ends it with 1000.
   */
  lemma PeerCloseMeans(env: Env, s: Conn, acc: Option<seq<byte>>, segments: seq<seq<byte>>,
                       fs: seq<Frame>, hi: byte, lo: byte, reason: seq<byte>, rest: seq<byte>)
    requires Holds(s, acc) && s.rx == [] && |reason| <= 123
    requires Accepted(env.hasBinary, acc, fs) && CarriesOn(env, s.out, acc, fs) && (forall f :: f in fs ==> LegalFrame(f))
    ensures Settled(env, s)
    ensures Joined(segments) == StreamBytes(fs) + (FrameBytes(Frame(true, CLOSE, [hi, lo] + reason)) + rest) ==>
              var t := Feed(env, s, segments);
              && t.state == Closed && t.code == 256 * hi + lo
              && (t.fail == FailDeprovisioned <==> hi == 0x0F && lo == 0xA2)
              && (t.fail == FailPeerClosed <==> !(hi == 0x0F && lo == 0xA2))
              && t.out == s.out + Meaning(env.hasBinary, acc, fs) + [Echo([hi, lo]), Ended(t.fail, t.code)]
    ensures Joined(segments) == StreamBytes(fs) + (FrameBytes(Frame(true, CLOSE, [])) + rest) ==>
              var t := Feed(env, s, segments);
              && t.state == Closed && t.code == 1000 && t.fail == FailPeerClosed
              && t.out == s.out + Meaning(env.hasBinary, acc, fs) + [Echo([]), Ended(FailPeerClosed, 1000)]
  {
    hide TurnOf, Handle, CarriesOn, FrameBytes, Feed, PeerClosed, Settled;
    EmptyIsSettled(env, s);
    var payload := [hi, lo] + reason;
    assert payload[..2] == [hi, lo];
    TwoBytes(hi, lo);
    CodeIsBytes(payload, hi, lo);
    if Joined(segments) == StreamBytes(fs) + (FrameBytes(Frame(true, CLOSE, payload)) + rest) {
      ClosedBy(env, s, acc, segments, fs, payload, rest);
    }
    if Joined(segments) == StreamBytes(fs) + (FrameBytes(Frame(true, CLOSE, [])) + rest) {
      ClosedBy(env, s, acc, segments, fs, [], rest);
      NoCode();
    }
  }

  lemma NoCode()
    ensures PeerClosed([]) == [Echo([]), Ended(FailPeerClosed, 1000)]
  {
  }

  lemma CodeIsBytes(payload: seq<byte>, hi: byte, lo: byte)
    requires |payload| >= 2 && payload[..2] == [hi, lo]
    ensures PeerClosed(payload) ==
            [Echo([hi, lo]), Ended(if hi == 0x0F && lo == 0xA2 then FailDeprovisioned else FailPeerClosed, 256 * hi + lo)]
  {
    TwoBytes(hi, lo);
    assert [hi, lo] == [0x0F, 0xA2] <==> hi == 0x0F && lo == 0xA2;
  }

  /** What the client is left with is what it has told. */
  lemma ClosedBy(env: Env, s: Conn, acc: Option<seq<byte>>, segments: seq<seq<byte>>,
                 fs: seq<Frame>, payload: seq<byte>, rest: seq<byte>)
    requires Holds(s, acc) && s.rx == [] && LegalFrame(Frame(true, CLOSE, payload))
    requires Accepted(env.hasBinary, acc, fs) && CarriesOn(env, s.out, acc, fs) && (forall f :: f in fs ==> LegalFrame(f))
    requires Joined(segments) == StreamBytes(fs) + (FrameBytes(Frame(true, CLOSE, payload)) + rest)
    ensures Settled(env, s)
    ensures var t := Feed(env, s, segments);
            && t.out == s.out + Meaning(env.hasBinary, acc, fs) + PeerClosed(payload)
            && t.state == Closed && PeerClosed(payload)[1] == Ended(t.fail, t.code)
  {
    hide TurnOf, Ends, CarriesOn, LegalFrame, FrameBytes;
    EmptyIsSettled(env, s);
    FeedIsPump(env, s, segments);
    var f := Frame(true, CLOSE, payload);
    var r := FrameBytes(f) + rest;
    var whole := More(s, Joined(segments));
    assert whole.rx == StreamBytes(fs) + r;
    PumpCarried(env, whole, acc, fs, r);
    var t :| Holds(t, Left(env.hasBinary, acc, fs)) && t.rx == r && t.out == s.out + Meaning(env.hasBinary, acc, fs)
             && t.fail == s.fail && t.code == s.code && Pump(env, whole) == Pump(env, t);
    TurnOfFrame(env, t, f, rest);
    CodeOfPeer(payload);
    var o := t.out + [PeerClosed(payload)[0]];
    assert t.out + PeerClosed(payload) == o + [PeerClosed(payload)[1]];
  }

  lemma SameIsOver(s: Conn, t: Conn, was: Fail, blame: Option<Fail>)
    requires Same(s, t) && Over(t, was, blame)
    ensures Over(s, was, blame)
  {
  }

  lemma EmptyIsSettled(env: Env, s: Conn)
    requires s.state == Open && s.rx == []
    ensures Settled(env, s)
  {
  }

  lemma Prepend(env: Env, o: seq<Action>, acc: Option<seq<byte>>, f: Frame, rest: seq<byte>,
                fs: seq<Frame>, r: seq<byte>, tail: Tail)
    requires LegalFrame(f) && Refusal(env.hasBinary, acc, f).None? && Break(env, o, acc, f).None?
    requires Decomposes(env, o + Effect(acc, f), Joining(acc, f), rest, fs, r, tail)
    ensures Decomposes(env, o, acc, FrameBytes(f) + rest, [f] + fs, r, tail)
  {
    hide Ends, Refusal, Joining, Effect, Break, LegalFrame, FrameBytes;
    var all := [f] + fs;
    assert all[1..] == fs;
    assert FrameBytes(f) + rest == FrameBytes(f) + StreamBytes(fs) + r;
    AcceptedJoins(env.hasBinary, acc, f);
    var tailMeaning := Meaning(env.hasBinary, Joining(acc, f), fs);
    assert o + Effect(acc, f) + tailMeaning == o + (Effect(acc, f) + tailMeaning);
  }

  lemma NoFrames(env: Env, o: seq<Action>, acc: Option<seq<byte>>, b: seq<byte>, tail: Tail)
    requires Ends(env, o, acc, b, tail)
    ensures Decomposes(env, o, acc, b, [], b, tail)
  {
    hide Ends;
    assert o + [] == o;
    assert StreamBytes([]) + b == b;
  }

  lemma FrameBreaks(env: Env, o: seq<Action>, acc: Option<seq<byte>>, f: Frame, rest: seq<byte>)
    requires LegalFrame(f) && Break(env, o, acc, f).Some?
    ensures Ends(env, o, acc, FrameBytes(f) + rest, Final(Break(env, o, acc, f).value))
  {
    hide Break, ParseHeader, ServerHead;
    var h := Head(f.fin, f.op, |f.payload|);
    var r := FrameBytes(f) + rest;
    ParseOfServerHead(h, f.payload + rest);
    assert r == ServerHead(h) + (f.payload + rest);
    assert LegalFrame(f) && r == FrameBytes(f) + rest;
  }

  lemma BreakCoversRefusal(env: Env, o: seq<Action>, acc: Option<seq<byte>>, f: Frame)
    ensures Break(env, o, acc, f).None? ==> Refusal(env.hasBinary, acc, f).None?
  {
  }

  lemma JoiningCapped(takesBinary: bool, acc: Option<seq<byte>>, f: Frame)
    requires LegalFrame(f) && Refusal(takesBinary, acc, f).None? && (acc.Some? ==> |acc.value| <= MAX_INBOUND)
    ensures Joining(acc, f).Some? ==> |Joining(acc, f).value| <= MAX_INBOUND
  {
  }

  lemma FirstFrame(b: seq<byte>)
    requires ParseHeader(b).Good? && |b| >= ParseHeader(b).size + ParseHeader(b).h.len
    ensures var h, size := ParseHeader(b).h, ParseHeader(b).size;
            var f := Frame(h.fin, h.op, b[size..size + h.len]);
            LegalFrame(f) && b == FrameBytes(f) + b[size + h.len..]
  {
    hide ParseHeader, ServerHead;
    ParseSound(b);
    var h, size := ParseHeader(b).h, ParseHeader(b).size;
    assert b[..size] == ServerHead(h);
    assert b == b[..size] + b[size..size + h.len] + b[size + h.len..];
  }

  /** Where a stream stops being such frames, and what happens there. */
  lemma {:induction false} Decompose(env: Env, o: seq<Action>, acc: Option<seq<byte>>, b: seq<byte>)
    returns (fs: seq<Frame>, r: seq<byte>, tail: Tail)
    requires acc.Some? ==> |acc.value| <= MAX_INBOUND
    ensures Decomposes(env, o, acc, b, fs, r, tail)
    decreases |b|
  {
    hide ParseHeader, Decomposes, FrameBytes, LegalFrame, Break, Closes;
    var p := ParseHeader(b);
    fs, r := [], b;
    tail := if p.Bad? then Final(Refused(env, o, 1002))
            else if p.TooLarge? then Final(Refused(env, o, 1009)) else Incomplete;
    if p.Good? && |b| >= p.size + p.h.len {
      FirstFrame(b);
      var f := Frame(p.h.fin, p.h.op, b[p.size..p.size + p.h.len]);
      var rest := b[p.size + p.h.len..];
      BreakCoversRefusal(env, o, acc, f);
      if Break(env, o, acc, f).None? {
        JoiningCapped(env.hasBinary, acc, f);
        fs, r, tail := Decompose(env, o + Effect(acc, f), Joining(acc, f), rest);
        Prepend(env, o, acc, f, rest, fs, r, tail);
        fs := [f] + fs;
        return;
      }
      FrameBreaks(env, o, acc, f, rest);
      tail := Final(Break(env, o, acc, f).value);
    }
    NoFrames(env, o, acc, b, tail);
  }

  /** Every stream is of that form, so the meaning above covers all of them. */
  lemma EveryStreamEnds(env: Env, o: seq<Action>, acc: Option<seq<byte>>, b: seq<byte>)
    requires acc.Some? ==> |acc.value| <= MAX_INBOUND
    ensures exists fs, r, tail :: Decomposes(env, o, acc, b, fs, r, tail)
  {
    var fs, r, tail := Decompose(env, o, acc, b);
  }

  // Messages: what fragments are for

  /** What may follow the first fragment of a text: more of it, and control frames in between. */
  datatype Piece = Part(data: seq<byte>) | PingPiece(payload: seq<byte>) | PongPiece(payload: seq<byte>)

  predicate NoParts(ps: seq<Piece>) {
    forall p :: p in ps ==> !p.Part?
  }

  /** The text is in parts, the last of them final; controls are short. */
  predicate Continues(ps: seq<Piece>) {
    && ps != [] && ps[|ps| - 1].Part?
    && forall p :: p in ps && !p.Part? ==> |p.payload| <= 125
  }

  function PieceFrame(p: Piece, last: bool): Frame {
    match p
    case Part(d) => Frame(last, CONT, d)
    case PingPiece(q) => Frame(true, PING, q)
    case PongPiece(q) => Frame(true, PONG, q)
  }

  function PieceFrames(ps: seq<Piece>): seq<Frame> {
    if ps == [] then [] else [PieceFrame(ps[0], NoParts(ps[1..]))] + PieceFrames(ps[1..])
  }

  function PartsJoined(ps: seq<Piece>): seq<byte> {
    if ps == [] then [] else (if ps[0].Part? then ps[0].data else []) + PartsJoined(ps[1..])
  }

  function Pongs(ps: seq<Piece>): seq<Action> {
    if ps == [] then [] else (if ps[0].PingPiece? then [Pong(ps[0].payload)] else []) + Pongs(ps[1..])
  }

  lemma PieceStep(takesBinary: bool, a: seq<byte>, p: Piece, last: bool)
    requires if p.Part? then |a| + |p.data| <= MAX_INBOUND else |p.payload| <= 125 && |a| <= MAX_INBOUND
    ensures var f := PieceFrame(p, last);
            && LegalFrame(f) && Refusal(takesBinary, Some(a), f).None?
            && Joining(Some(a), f) == (if p.Part? then if last then None else Some(a + p.data) else Some(a))
            && Effect(Some(a), f) == (if p.Part? then if last then [Text(a + p.data)] else []
                                      else if p.PingPiece? then [Pong(p.payload)] else [])
  {
  }

  lemma AcceptCons(takesBinary: bool, acc: Option<seq<byte>>, f: Frame, fs: seq<Frame>)
    requires LegalFrame(f) && Refusal(takesBinary, acc, f).None? && Accepted(takesBinary, Joining(acc, f), fs)
    ensures Accepted(takesBinary, acc, [f] + fs)
    ensures Meaning(takesBinary, acc, [f] + fs) == Effect(acc, f) + Meaning(takesBinary, Joining(acc, f), fs)
    ensures Left(takesBinary, acc, [f] + fs) == Left(takesBinary, Joining(acc, f), fs)
  {
    assert ([f] + fs)[1..] == fs;
  }

  /** A text in any number of fragments, with pings between them, is the text joined, once, at the end. */
  lemma {:induction false} FragmentsJoin(takesBinary: bool, a: seq<byte>, ps: seq<Piece>)
    requires Continues(ps) && |a| + |PartsJoined(ps)| <= MAX_INBOUND
    ensures Accepted(takesBinary, Some(a), PieceFrames(ps))
    ensures Meaning(takesBinary, Some(a), PieceFrames(ps)) == Pongs(ps) + [Text(a + PartsJoined(ps))]
    ensures Left(takesBinary, Some(a), PieceFrames(ps)) == None
    decreases |ps|
  {
    hide *;
    LastPiece(ps);
    var p, rest := ps[0], ps[1..];
    Unfold(ps);
    var f := PieceFrame(p, NoParts(rest));
    PieceStep(takesBinary, a, p, NoParts(rest));
    var b := if p.Part? then a + p.data else a;
    NothingMore(takesBinary);
    if rest != [] {
      FragmentsJoin(takesBinary, b, rest);
    }
    AcceptCons(takesBinary, Some(a), f, PieceFrames(rest));
    var e: seq<Action> := if p.PingPiece? then [Pong(p.payload)] else [];
    assert rest != [] ==> e + (Pongs(rest) + [Text(b + PartsJoined(rest))]) == e + Pongs(rest) + [Text(b + PartsJoined(rest))];
    assert p.Part? ==> a + p.data + PartsJoined(rest) == a + (p.data + PartsJoined(rest));
    if rest == [] {
      assert PartsJoined(ps) == p.data && Pongs(ps) == [];
      assert Effect(Some(a), f) + [] == Pongs(ps) + [Text(a + p.data)];
    }
  }

  lemma Unfold(ps: seq<Piece>)
    requires ps != []
    ensures PieceFrames(ps) == [PieceFrame(ps[0], NoParts(ps[1..]))] + PieceFrames(ps[1..])
    ensures PartsJoined(ps) == (if ps[0].Part? then ps[0].data + PartsJoined(ps[1..]) else PartsJoined(ps[1..]))
    ensures Pongs(ps) == (if ps[0].PingPiece? then [Pong(ps[0].payload)] else []) + Pongs(ps[1..])
    ensures ps[1..] == [] ==> PieceFrames(ps[1..]) == [] && PartsJoined(ps[1..]) == [] && Pongs(ps[1..]) == []
  {
    assert [] + PartsJoined(ps[1..]) == PartsJoined(ps[1..]);
  }

  lemma LastPiece(ps: seq<Piece>)
    requires Continues(ps)
    ensures ps != [] && (ps[0].Part? || |ps[0].payload| <= 125)
    ensures if ps[1..] == [] then ps[0].Part? && NoParts(ps[1..]) else Continues(ps[1..]) && !NoParts(ps[1..])
  {
    assert ps[0] in ps;
    if ps[1..] != [] {
      assert ps[1..][|ps| - 2] == ps[|ps| - 1] && ps[|ps| - 1] in ps[1..];
    }
  }

  lemma NothingMore(takesBinary: bool)
    ensures Accepted(takesBinary, None, []) && Meaning(takesBinary, None, []) == [] && Left(takesBinary, None, []) == None
  {
  }
}
