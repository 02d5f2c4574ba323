/** The receive path of the WebSocket client (firmware/src/ws/ws.c; sections 5.4 and 5.5 of RFC 6455). */
module WsReceive {
  import opened Bytes
  import opened WsFrame

  const RX_SIZE: nat := 14 + MAX_INBOUND

  const NORMAL: nat := 1000
  const PROTOCOL_ERR: nat := 1002
  const POLICY: nat := 1008
  const TOO_BIG: nat := 1009
  const DEPROVISIONED: nat := 4002

  datatype State = Open | Closing | Closed

  datatype Fail = FailNone | FailProtocol | FailTooBig | FailPeerClosed | FailDeprovisioned | FailLocal | FailTimeout

  /** What the outside can see the client do, in order. Sends are recorded when attempted. */
  datatype Action =
    | Text(text: seq<byte>)
    | Binary(data: seq<byte>)
    | Pong(payload: seq<byte>)
    | CloseSent(code: nat)
    | Echo(body: seq<byte>)
    | Ended(why: Fail, code: nat)

  /** What a callback did to the connection before it returned. */
  datatype Reaction = Carry | CloseWith(code: nat) | Drop(why: Fail)

  /**
   * The application and the transport. Each answer may depend on everything the client has done
   * so far, and on nothing else.
   */
  datatype Env = Env(sends: seq<Action> -> bool, onText: seq<Action> -> Reaction,
                     hasBinary: bool, onBinary: seq<Action> -> (Reaction, bool))

  datatype Conn = Conn(state: State, fail: Fail, code: nat, rx: seq<byte>, msg: seq<byte>, msgActive: bool,
                       out: seq<Action>)

  /** ws_teardown. */
  function Teardown(s: Conn, why: Fail, code: nat): Conn {
    Conn(Closed, why, code, [], [], false, if s.state != Closed then s.out + [Ended(why, code)] else s.out)
  }

  /** rw_ws_close, once open. */
  function CloseLocal(env: Env, s: Conn, code: nat): Conn {
    if s.state != Open then s
    else
      var o := s.out + [CloseSent(code)];
      if env.sends(o) then s.(state := Closing, code := code, out := o)
      else Teardown(s.(out := o), FailLocal, code)
  }

  function FailWith(env: Env, s: Conn, code: nat, why: Fail): Conn {
    CloseLocal(env, s, code).(fail := why)
  }

  function React(env: Env, s: Conn, r: Reaction): Conn {
    match r
    case Carry => s
    case CloseWith(code) => CloseLocal(env, s, code)
    case Drop(why) => Teardown(s, why, 0)
  }

  datatype Turn = Wait | Stop | Again

  datatype Frame = Frame(fin: bool, op: byte, payload: seq<byte>)

  function CloseCode(payload: seq<byte>): nat {
    if |payload| >= 2 then payload[0] * 256 + (payload[1] as int) else NORMAL
  }

  function PeerClose(env: Env, s: Conn, payload: seq<byte>): Conn {
    var code := CloseCode(payload);
    var echoed := if s.state == Open then s.(out := s.out + [Echo(if |payload| >= 2 then payload[..2] else [])]) else s;
    Teardown(echoed, if code == DEPROVISIONED then FailDeprovisioned else FailPeerClosed, code)
  }

  /** deliver_message. */
  function Deliver(env: Env, s: Conn): Conn {
    var o := s.out + [Text(s.msg)];
    React(env, s.(out := o), env.onText(o)).(msg := [], msgActive := false)
  }

  function TextFrame(env: Env, s: Conn, f: Frame, rest: seq<byte>): (Conn, Turn) {
    if (f.op == TEXT) == s.msgActive then (FailWith(env, s, PROTOCOL_ERR, FailProtocol), Stop)
    else
      var base := if f.op == TEXT then [] else s.msg;
      if |base| + |f.payload| > MAX_INBOUND then
        (FailWith(env, s.(msg := base), TOO_BIG, FailTooBig), Stop)
      else
        var t := s.(rx := rest, msg := base + f.payload, msgActive := !f.fin);
        if !f.fin then (t, Again)
        else
          var u := Deliver(env, t);
          (u, if u.state == Open then Again else Stop)
  }

  function BinaryFrame(env: Env, s: Conn, f: Frame, rest: seq<byte>): (Conn, Turn) {
    if !env.hasBinary || !f.fin || s.msgActive then (FailWith(env, s, PROTOCOL_ERR, FailProtocol), Stop)
    else
      var o := s.out + [Binary(f.payload)];
      var (r, wanted) := env.onBinary(o);
      var t := React(env, s.(out := o), r);
      if t.state != Open then (t, Stop)
      else if !wanted then (FailWith(env, t, POLICY, FailProtocol), Stop)
      else (t.(rx := rest), Again)
  }

  /** The switch of pump_frames; `rest` is what follows the frame in the buffer. */
  function Handle(env: Env, s: Conn, f: Frame, rest: seq<byte>): (r: (Conn, Turn))
    ensures r.1 != Wait
    ensures r.1 == Again ==> r.0.rx == rest && r.0.state == s.state
    ensures r.1 == Stop ==> r.0.state != Open
  {
    if f.op == PING then
      var o := s.out + [Pong(f.payload)];
      if env.sends(o) then (s.(rx := rest, out := o), Again) else (Teardown(s.(out := o), FailLocal, 0), Stop)
    else if f.op == PONG then (s.(rx := rest), Again)
    else if f.op == CLOSE then (PeerClose(env, s, f.payload), Stop)
    else if f.op == TEXT || f.op == CONT then TextFrame(env, s, f, rest)
    else if f.op == BINARY then BinaryFrame(env, s, f, rest)
    else (FailWith(env, s, PROTOCOL_ERR, FailProtocol), Stop)
  }

  /** One turn of the loop in pump_frames. */
  function TurnOf(env: Env, s: Conn): (r: (Conn, Turn))
    ensures r.1 == Again ==> |r.0.rx| < |s.rx| && r.0.state == s.state
    ensures r.1 == Wait ==> r.0 == s
    ensures r.1 == Stop ==> r.0.state != Open
  {
    match ParseHeader(s.rx)
    case NeedMore => (s, Wait)
    case Bad => (FailWith(env, s, PROTOCOL_ERR, FailProtocol), Stop)
    case TooLarge => (FailWith(env, s, TOO_BIG, FailTooBig), Stop)
    case Good(h, size) =>
      if |s.rx| < size + h.len then (s, Wait)
      else Handle(env, s, Frame(h.fin, h.op, s.rx[size..size + h.len]), s.rx[size + h.len..])
  }

  /** pump_frames: the flag says whether the caller may go on. */
  function Pump(env: Env, s: Conn): (Conn, bool)
    decreases |s.rx|
  {
    var (t, turn) := TurnOf(env, s);
    match turn
    case Wait => (t, true)
    case Stop => (t, false)
    case Again => Pump(env, t)
  }

  /** on_recv: the segment goes in as the buffer has room, and each piece is pumped. */
  function Recv(env: Env, s: Conn, data: seq<byte>): Conn
    requires |s.rx| <= RX_SIZE
    decreases |data|
  {
    if data == [] then s
    else
      var space := RX_SIZE - |s.rx|;
      if space == 0 then FailWith(env, s, TOO_BIG, FailTooBig)
      else
        var n := if |data| < space then |data| else space;
        PumpShrinks(env, s.(rx := s.rx + data[..n]));
        var (t, more) := Pump(env, s.(rx := s.rx + data[..n]));
        if more then Recv(env, t, data[n..]) else t
  }

  lemma {:induction false} PumpShrinks(env: Env, s: Conn)
    ensures Pump(env, s).1 ==> |Pump(env, s).0.rx| <= |s.rx|
    decreases |s.rx|
  {
    hide Handle;
    var (t, turn) := TurnOf(env, s);
    if turn == Again {
      PumpShrinks(env, t);
    }
  }

  // However the stream is cut

  /** Equal in everything anyone can still observe: once the connection is not open, the buffers are not. */
  predicate Same(s: Conn, t: Conn) {
    && s.state == t.state && s.fail == t.fail && s.code == t.code && s.out == t.out
    && (s.state == Open ==> s == t)
  }

  function More(s: Conn, more: seq<byte>): Conn {
    s.(rx := s.rx + more)
  }

  /** Nothing in the buffer can be acted on yet. */
  predicate Settled(env: Env, s: Conn) {
    s.state == Open && TurnOf(env, s) == (s, Wait)
  }

  lemma CloseMore(env: Env, s: Conn, more: seq<byte>, code: nat)
    requires s.state == Open
    ensures Same(CloseLocal(env, s, code), CloseLocal(env, More(s, more), code))
    ensures CloseLocal(env, s, code).state != Open
  {
  }

  lemma ReactMore(env: Env, s: Conn, more: seq<byte>, r: Reaction)
    requires s.state == Open
    ensures var (t, u) := (React(env, s, r), React(env, More(s, more), r));
            if t.state == Open then t == s && u == More(s, more) else Same(t, u)
  {
    if r.CloseWith? {
      CloseMore(env, s, more, r.code);
    }
  }

  lemma HandleMore(env: Env, s: Conn, f: Frame, rest: seq<byte>, more: seq<byte>)
    requires s.state == Open
    ensures var (t, turn) := Handle(env, s, f, rest);
            var (u, turn') := Handle(env, More(s, more), f, rest + more);
            turn' == turn && (if turn == Again then u == More(t, more) else Same(t, u))
  {
    hide CloseLocal, React;
    CloseMore(env, s, more, PROTOCOL_ERR);
    if f.op == TEXT || f.op == CONT {
      var base := if f.op == TEXT then [] else s.msg;
      CloseMore(env, s.(msg := base), more, TOO_BIG);
      var o := s.out + [Text(base + f.payload)];
      var t := s.(rx := rest, msg := base + f.payload, msgActive := false, out := o);
      ReactMore(env, t, more, env.onText(o));
    } else if f.op == BINARY {
      var o := s.out + [Binary(f.payload)];
      ReactMore(env, s.(out := o), more, env.onBinary(o).0);
      CloseMore(env, s.(out := o), more, POLICY);
    }
  }

  /** Bytes that arrive later do not change what is done with a frame already complete. */
  lemma TurnMore(env: Env, s: Conn, more: seq<byte>)
    requires s.state == Open && TurnOf(env, s).1 != Wait
    ensures var (t, turn) := TurnOf(env, s);
            var (u, turn') := TurnOf(env, More(s, more));
            turn' == turn && (if turn == Again then u == More(t, more) else Same(t, u))
  {
    hide Handle, ParseHeader;
    ParseStable(s.rx, more);
    if ParseHeader(s.rx).Good? {
      var h, size := ParseHeader(s.rx).h, ParseHeader(s.rx).size;
      var n := size + h.len;
      var f := Frame(h.fin, h.op, s.rx[size..n]);
      assert (s.rx + more)[size..n] == s.rx[size..n] && (s.rx + more)[n..] == s.rx[n..] + more;
      HandleMore(env, s, f, s.rx[n..], more);
    }
  }

  lemma {:induction false} PumpMore(env: Env, s: Conn, more: seq<byte>)
    requires s.state == Open
    ensures var (t, ok) := Pump(env, s);
            var (u, ok') := Pump(env, More(s, more));
            if ok then Settled(env, t) && (u, ok') == Pump(env, More(t, more))
            else !ok' && t.state != Open && Same(t, u)
    decreases |s.rx|
  {
    hide TurnOf;
    var (t, turn) := TurnOf(env, s);
    if turn != Wait {
      TurnMore(env, s, more);
      if turn == Again {
        PumpMore(env, t, more);
      }
    }
  }

  /** A buffer with nothing to act on always has room. */
  lemma SettledHasRoom(env: Env, s: Conn)
    requires Settled(env, s)
    ensures |s.rx| < 4 + MAX_INBOUND < RX_SIZE
  {
    ParseShort(s.rx);
  }

  /**
   * The receive buffer is as good as an unbounded one: taking a segment in pieces as the buffer
   * has room is pumping it all at once, and the branch for a full buffer is never reached.
   */
  lemma {:induction false} RecvIsPump(env: Env, s: Conn, data: seq<byte>)
    requires Settled(env, s) && |s.rx| <= RX_SIZE
    ensures Same(Recv(env, s, data), Pump(env, More(s, data)).0)
    ensures Recv(env, s, data).state == Open ==> Settled(env, Recv(env, s, data))
    decreases |data|
  {
    hide TurnOf, Pump;
    SettledHasRoom(env, s);
    if data == [] {
      assert More(s, data) == s;
      PumpSettled(env, s);
    } else {
      var space := RX_SIZE - |s.rx|;
      var n := if |data| < space then |data| else space;
      var (t, ok) := Pump(env, More(s, data[..n]));
      PumpMore(env, More(s, data[..n]), data[n..]);
      assert s.rx + data[..n] + data[n..] == s.rx + data;
      assert More(More(s, data[..n]), data[n..]) == More(s, data);
      if ok {
        SettledHasRoom(env, t);
        RecvIsPump(env, t, data[n..]);
      }
    }
  }

  lemma PumpSettled(env: Env, s: Conn)
    requires Settled(env, s)
    ensures Pump(env, s) == (s, true)
  {
  }

  /** Segments as they arrive, until the connection is no longer open. */
  function Feed(env: Env, s: Conn, segments: seq<seq<byte>>): Conn
    requires |s.rx| <= RX_SIZE && (s.state == Open ==> Settled(env, s))
    decreases |segments|
  {
    if segments == [] || s.state != Open then s
    else
      RecvIsPump(env, s, segments[0]);
      var t := Recv(env, s, segments[0]);
      if t.state != Open then t
      else
        SettledHasRoom(env, t);
        Feed(env, t, segments[1..])
  }

  function Joined(segments: seq<seq<byte>>): seq<byte> {
    if segments == [] then [] else segments[0] + Joined(segments[1..])
  }

  lemma {:induction false} FeedIsPump(env: Env, s: Conn, segments: seq<seq<byte>>)
    requires |s.rx| <= RX_SIZE && Settled(env, s)
    ensures Same(Feed(env, s, segments), Pump(env, More(s, Joined(segments))).0)
    decreases |segments|
  {
    hide TurnOf, Pump, Recv;
    if segments == [] {
      assert More(s, []) == s;
      PumpSettled(env, s);
    } else {
      var a, b := segments[0], Joined(segments[1..]);
      RecvIsPump(env, s, a);
      var t := Recv(env, s, a);
      PumpMore(env, More(s, a), b);
      assert More(More(s, a), b) == More(s, a + b) by {
        assert s.rx + a + b == s.rx + (a + b);
      }
      PumpStops(env, More(s, a));
      if t.state == Open {
        SettledHasRoom(env, t);
        FeedIsPump(env, t, segments[1..]);
      }
    }
  }

  lemma {:induction false} PumpStops(env: Env, s: Conn)
    requires s.state == Open
    ensures var (t, ok) := Pump(env, s);
            ok <==> t.state == Open
    decreases |s.rx|
  {
    hide Handle;
    var (t, turn) := TurnOf(env, s);
    if turn == Again {
      PumpStops(env, t);
    }
  }

  /**
   * From an open connection, any two ways of cutting the same bytes into segments give the same
   * texts, binary frames, pongs and close, in the same order, and leave the connection in the
   * same state.
   */
  lemma SegmentationIrrelevant(env: Env, s: Conn, a: seq<seq<byte>>, b: seq<seq<byte>>)
    requires |s.rx| <= RX_SIZE && Settled(env, s) && Joined(a) == Joined(b)
    ensures Same(Feed(env, s, a), Feed(env, s, b))
  {
    FeedIsPump(env, s, a);
    FeedIsPump(env, s, b);
  }

  // What a closed connection leaves behind

  /** Nothing of a connection that is closed is left for the next. */
  predicate Clean(s: Conn) {
    s.state == Closed ==> s.rx == [] && s.msg == [] && !s.msgActive
  }

  lemma CloseCleans(env: Env, s: Conn, code: nat, why: Fail, r: Reaction)
    requires Clean(s)
    ensures Clean(CloseLocal(env, s, code)) && Clean(FailWith(env, s, code, why)) && Clean(React(env, s, r))
  {
  }

  lemma HandleCleans(env: Env, s: Conn, f: Frame, rest: seq<byte>)
    requires s.state == Open
    ensures Clean(Handle(env, s, f, rest).0)
  {
    hide CloseLocal, React;
    CloseCleans(env, s, PROTOCOL_ERR, FailProtocol, Carry);
    if f.op == TEXT || f.op == CONT {
      var base := if f.op == TEXT then [] else s.msg;
      CloseCleans(env, s.(msg := base), TOO_BIG, FailTooBig, Carry);
      var o := s.out + [Text(base + f.payload)];
      CloseCleans(env, s.(rx := rest, msg := base + f.payload, msgActive := false, out := o), 0, FailNone, env.onText(o));
    } else if f.op == BINARY {
      var o := s.out + [Binary(f.payload)];
      CloseCleans(env, s.(out := o), POLICY, FailProtocol, env.onBinary(o).0);
      CloseCleans(env, React(env, s.(out := o), env.onBinary(o).0), POLICY, FailProtocol, Carry);
    }
  }

  lemma {:induction false} PumpCleans(env: Env, s: Conn)
    requires s.state == Open
    ensures Clean(Pump(env, s).0)
    decreases |s.rx|
  {
    hide Handle, CloseLocal, ParseHeader;
    CloseCleans(env, s, PROTOCOL_ERR, FailProtocol, Carry);
    CloseCleans(env, s, TOO_BIG, FailTooBig, Carry);
    var p := ParseHeader(s.rx);
    if p.Good? && |s.rx| >= p.size + p.h.len {
      HandleCleans(env, s, Frame(p.h.fin, p.h.op, s.rx[p.size..p.size + p.h.len]), s.rx[p.size + p.h.len..]);
    }
    var (t, turn) := TurnOf(env, s);
    if turn == Again {
      PumpCleans(env, t);
    }
  }

  lemma {:induction false} RecvCleans(env: Env, s: Conn, data: seq<byte>)
    requires |s.rx| <= RX_SIZE && s.state == Open
    ensures Clean(Recv(env, s, data))
    decreases |data|
  {
    hide Pump, CloseLocal;
    var space := RX_SIZE - |s.rx|;
    CloseCleans(env, s, TOO_BIG, FailTooBig, Carry);
    if data != [] && space > 0 {
      var n := if |data| < space then |data| else space;
      var held := s.(rx := s.rx + data[..n]);
      PumpShrinks(env, held);
      PumpCleans(env, held);
      PumpStops(env, held);
      if Pump(env, held).1 {
        RecvCleans(env, Pump(env, held).0, data[n..]);
      }
    }
  }

  /** Whatever was received and however it ended: no part of a frame or of a message is carried into the next connection. */
  lemma {:induction false} NothingCarriedOver(env: Env, s: Conn, segments: seq<seq<byte>>)
    requires |s.rx| <= RX_SIZE && Settled(env, s)
    ensures Clean(Feed(env, s, segments))
    decreases |segments|
  {
    hide TurnOf, Pump, Recv;
    if segments != [] {
      RecvIsPump(env, s, segments[0]);
      RecvCleans(env, s, segments[0]);
      var t := Recv(env, s, segments[0]);
      if t.state == Open {
        SettledHasRoom(env, t);
        NothingCarriedOver(env, t, segments[1..]);
      }
    }
  }

  // Sizes

  predicate WithinCaps(a: Action) {
    match a
    case Text(t) => |t| <= MAX_INBOUND
    case Binary(d) => |d| <= MAX_INBOUND
    case Pong(p) => |p| <= 125
    case Echo(b) => |b| <= 2
    case _ => true
  }

  predicate AllWithinCaps(out: seq<Action>) {
    forall i :: 0 <= i < |out| ==> WithinCaps(out[i])
  }

  /** Nothing longer than the cap is ever reassembled, handed on, or sent back. */
  lemma {:induction false} PumpWithinCaps(env: Env, s: Conn)
    requires |s.msg| <= MAX_INBOUND && AllWithinCaps(s.out)
    ensures var t := Pump(env, s).0;
            |t.msg| <= MAX_INBOUND && AllWithinCaps(t.out) && s.out <= t.out
    decreases |s.rx|
  {
    hide Handle, ParseHeader;
    CloseWithinCaps(env, s, PROTOCOL_ERR);
    CloseWithinCaps(env, s, TOO_BIG);
    if ParseHeader(s.rx).Good? {
      var h, size := ParseHeader(s.rx).h, ParseHeader(s.rx).size;
      if |s.rx| >= size + h.len {
        ParseSound(s.rx);
        var f := Frame(h.fin, h.op, s.rx[size..size + h.len]);
        HandleWithinCaps(env, s, f, s.rx[size + h.len..]);
        var (t, turn) := TurnOf(env, s);
        if turn == Again {
          PumpWithinCaps(env, t);
        }
      }
    }
  }

  /** What was done stays done, and what is added is within the caps. */
  predicate Extends(s: Conn, t: Conn) {
    |t.msg| <= MAX_INBOUND && AllWithinCaps(t.out) && s.out <= t.out
  }

  lemma CloseWithinCaps(env: Env, s: Conn, code: nat)
    requires |s.msg| <= MAX_INBOUND && AllWithinCaps(s.out)
    ensures Extends(s, CloseLocal(env, s, code))
  {
  }

  lemma ReactWithinCaps(env: Env, s: Conn, r: Reaction)
    requires |s.msg| <= MAX_INBOUND && AllWithinCaps(s.out)
    ensures Extends(s, React(env, s, r))
  {
    if r.CloseWith? {
      CloseWithinCaps(env, s, r.code);
    }
  }

  lemma HandleWithinCaps(env: Env, s: Conn, f: Frame, rest: seq<byte>)
    requires |s.msg| <= MAX_INBOUND && AllWithinCaps(s.out)
    requires |f.payload| <= MAX_INBOUND && (f.op == PING ==> |f.payload| <= 125)
    ensures Extends(s, Handle(env, s, f, rest).0)
  {
    hide CloseLocal, React;
    CloseWithinCaps(env, s, PROTOCOL_ERR);
    if f.op == TEXT || f.op == CONT {
      var base := if f.op == TEXT then [] else s.msg;
      CloseWithinCaps(env, s.(msg := base), TOO_BIG);
      if |base| + |f.payload| <= MAX_INBOUND {
        var o := s.out + [Text(base + f.payload)];
        ReactWithinCaps(env, s.(rx := rest, msg := base + f.payload, msgActive := false, out := o), env.onText(o));
      }
    } else if f.op == BINARY {
      var o := s.out + [Binary(f.payload)];
      ReactWithinCaps(env, s.(out := o), env.onBinary(o).0);
      var t := React(env, s.(out := o), env.onBinary(o).0);
      CloseWithinCaps(env, t, POLICY);
    }
  }
}
