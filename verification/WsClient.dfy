/** The client object itself: fixed buffers, compacted in place (firmware/src/ws/ws.c). */
module WsClient {
  import opened Bytes
  import opened WsFrame
  import opened WsReceive

  class Client {
    const env: Env
    const rx: array<byte>
    const msg: array<byte>
    var state: State
    var fail: Fail
    var code: nat
    var rxLen: nat
    var msgLen: nat
    var msgActive: bool
    var out: seq<Action>

    ghost predicate Valid()
      reads this
    {
      && rx.Length == RX_SIZE && rxLen <= RX_SIZE && rx != msg
      && msg.Length == MAX_INBOUND + 1 && msgLen <= MAX_INBOUND
    }

    ghost function Now(): Conn
      requires Valid()
      reads this, rx, msg
    {
      Conn(state, fail, code, rx[..rxLen], msg[..msgLen], msgActive, out)
    }

    /** As the handshake leaves it, with nothing yet received after the response. */
    constructor (env: Env)
      ensures Valid() && Now() == Conn(Open, FailNone, 0, [], [], false, []) && this.env == env
      ensures fresh(rx) && fresh(msg)
    {
      this.env := env;
      rx := new byte[RX_SIZE](_ => 0);
      msg := new byte[MAX_INBOUND + 1](_ => 0);
      state, fail, code, rxLen, msgLen, msgActive, out := Open, FailNone, 0, 0, 0, false, [];
    }

    method TearDown(why: Fail, closeCode: nat)
      requires Valid()
      modifies this
      ensures Valid() && Now() == Teardown(old(Now()), why, closeCode)
    {
      var wasLive := state != Closed;
      state, fail, code := Closed, why, closeCode;
      rxLen, msgLen, msgActive := 0, 0, false;
      if wasLive {
        out := out + [Ended(why, closeCode)];
      }
    }

    method Close(closeCode: nat)
      requires Valid()
      modifies this
      ensures Valid() && Now() == CloseLocal(env, old(Now()), closeCode)
      ensures state != Closed ==> rxLen == old(rxLen) && msgLen == old(msgLen)
    {
      if state != Open {
        return;
      }
      out := out + [CloseSent(closeCode)];
      if !env.sends(out) {
        TearDown(FailLocal, closeCode);
        return;
      }
      state := Closing;
      code := closeCode;
    }

    method FailClosed(closeCode: nat, why: Fail)
      requires Valid()
      modifies this
      ensures Valid() && Now() == FailWith(env, old(Now()), closeCode, why)
    {
      Close(closeCode);
      fail := why;
    }

    /** Whatever the callback did to the connection. */
    method Callback(r: Reaction)
      requires Valid()
      modifies this
      ensures Valid() && Now() == React(env, old(Now()), r)
    {
      match r
      case Carry =>
      case CloseWith(c) => Close(c);
      case Drop(why) => TearDown(why, 0);
    }

    method DeliverMessage()
      requires Valid()
      modifies this, msg
      ensures Valid() && Now() == Deliver(env, old(Now()))
    {
      msg[msgLen] := 0;
      assert msg[..msgLen] == old(msg[..msgLen]);
      out := out + [Text(msg[..msgLen])];
      Callback(env.onText(out));
      msgLen := 0;
      msgActive := false;
    }

    /** memmove of what follows the frame to the front of the buffer. */
    method Consume(total: nat)
      requires Valid() && total <= rxLen
      modifies rx, this`rxLen
      ensures Valid() && Now() == old(Now()).(rx := old(rx[total..rxLen]))
    {
      var n := rxLen - total;
      for i := 0 to n
        invariant forall j :: 0 <= j < i ==> rx[j] == old(rx[total + j])
        invariant forall j :: total + i <= j < rxLen ==> rx[j] == old(rx[j])
        modifies rx
      {
        rx[i] := rx[total + i];
      }
      rxLen := n;
      assert rx[..rxLen] == old(rx[total..rxLen]);
    }

    method Append(payload: seq<byte>)
      requires Valid() && msgLen + |payload| <= MAX_INBOUND
      modifies msg, this`msgLen
      ensures Valid() && Now() == old(Now()).(msg := old(msg[..msgLen]) + payload)
    {
      for i := 0 to |payload|
        invariant msg[..msgLen] == old(msg[..msgLen])
        invariant msg[msgLen..msgLen + i] == payload[..i]
        modifies msg
      {
        msg[msgLen + i] := payload[i];
      }
      msgLen := msgLen + |payload|;
      assert msg[..msgLen] == old(msg[..msgLen]) + payload;
    }

    method HandleText(f: Frame, total: nat) returns (turn: Turn)
      requires Valid() && total <= rxLen
      modifies this, rx, msg
      ensures Valid() && (Now(), turn) == TextFrame(env, old(Now()), f, old(rx[total..rxLen]))
    {
      hide CloseLocal, Deliver;
      if f.op == TEXT {
        if msgActive {
          FailClosed(PROTOCOL_ERR, FailProtocol);
          return Stop;
        }
        msgLen := 0;
      } else if !msgActive {
        FailClosed(PROTOCOL_ERR, FailProtocol);
        return Stop;
      }
      if msgLen + |f.payload| > MAX_INBOUND {
        FailClosed(TOO_BIG, FailTooBig);
        return Stop;
      }
      Append(f.payload);
      msgActive := !f.fin;
      Consume(total);
      if f.fin {
        DeliverMessage();
        return if state == Open then Again else Stop;
      }
      turn := Again;
    }

    method HandleBinary(f: Frame, total: nat) returns (turn: Turn)
      requires Valid() && total <= rxLen
      modifies this, rx
      ensures Valid() && (Now(), turn) == BinaryFrame(env, old(Now()), f, old(rx[total..rxLen]))
    {
      if !env.hasBinary || !f.fin || msgActive {
        FailClosed(PROTOCOL_ERR, FailProtocol);
        return Stop;
      }
      out := out + [Binary(f.payload)];
      var (r, wanted) := env.onBinary(out);
      Callback(r);
      if state != Open {
        return Stop;
      }
      if !wanted {
        FailClosed(POLICY, FailProtocol);
        return Stop;
      }
      Consume(total);
      turn := Again;
    }

    /** The switch on the opcode of a frame that has arrived whole. */
    method HandleFrame(f: Frame, total: nat) returns (turn: Turn)
      requires Valid() && total <= rxLen
      modifies this, rx, msg
      ensures Valid() && (Now(), turn) == Handle(env, old(Now()), f, old(rx[total..rxLen]))
    {
      hide CloseLocal, TextFrame, BinaryFrame, CloseCode;
      if f.op == PING {
        out := out + [Pong(f.payload)];
        if !env.sends(out) {
          TearDown(FailLocal, 0);
          return Stop;
        }
        Consume(total);
        return Again;
      } else if f.op == PONG {
        Consume(total);
        return Again;
      } else if f.op == CLOSE {
        var c := CloseCode(f.payload);
        if state == Open {
          out := out + [Echo(if |f.payload| >= 2 then f.payload[..2] else [])];
        }
        TearDown(if c == DEPROVISIONED then FailDeprovisioned else FailPeerClosed, c);
        return Stop;
      } else if f.op == TEXT || f.op == CONT {
        turn := HandleText(f, total);
      } else if f.op == BINARY {
        turn := HandleBinary(f, total);
      } else {
        FailClosed(PROTOCOL_ERR, FailProtocol);
        turn := Stop;
      }
    }

    /** pump_frames. */
    method PumpFrames() returns (more: bool)
      requires Valid()
      modifies this, rx, msg
      ensures Valid() && (Now(), more) == Pump(env, old(Now()))
    {
      hide Handle, ParseHeader;
      while true
        invariant Valid() && Pump(env, Now()) == Pump(env, old(Now()))
        decreases rxLen
      {
        var turn := OneTurn();
        if turn != Again {
          return turn == Wait;
        }
      }
    }

    method OneTurn() returns (turn: Turn)
      requires Valid()
      modifies this, rx, msg
      ensures Valid() && (Now(), turn) == TurnOf(env, old(Now()))
    {
      hide Handle, ParseHeader;
      var p := ReadHeader(rx, rxLen);
      if p == NeedMore {
        return Wait;
      }
      if p == Bad {
        FailClosed(PROTOCOL_ERR, FailProtocol);
        return Stop;
      }
      if p == TooLarge {
        FailClosed(TOO_BIG, FailTooBig);
        return Stop;
      }
      var total := p.size + p.h.len;
      if rxLen < total {
        return Wait;
      }
      ghost var s := Now();
      var f := Frame(p.h.fin, p.h.op, rx[p.size..total]);
      assert s.rx[p.size..total] == rx[p.size..total] && s.rx[total..] == rx[total..rxLen];
      turn := HandleFrame(f, total);
    }

    /** on_recv, for a segment of bytes on a live connection. */
    method OnRecv(data: seq<byte>)
      requires Valid()
      modifies this, rx, msg
      ensures Valid() && Now() == Recv(env, old(Now()), data)
    {
      hide Pump, CloseLocal;
      var offset := 0;
      assert data[offset..] == data;
      while offset < |data|
        invariant Valid() && offset <= |data|
        invariant Recv(env, Now(), data[offset..]) == Recv(env, old(Now()), data)
      {
        ghost var s, left := Now(), data[offset..];
        var space := RX_SIZE - rxLen;
        if space == 0 {
          FailClosed(TOO_BIG, FailTooBig);
          return;
        }
        var chunk := if |data| - offset < space then |data| - offset else space;
        CopyIn(data, offset, chunk);
        assert left[..chunk] == data[offset..offset + chunk] && left[chunk..] == data[offset + chunk..];
        offset := offset + chunk;
        PumpShrinks(env, s.(rx := s.rx + left[..chunk]));
        var more := PumpFrames();
        if !more {
          return;
        }
      }
    }

    method CopyIn(data: seq<byte>, at: nat, n: nat)
      requires Valid() && rxLen + n <= RX_SIZE && at + n <= |data|
      modifies rx, this`rxLen
      ensures Valid() && Now() == old(Now()).(rx := old(rx[..rxLen]) + data[at..at + n])
    {
      for i := 0 to n
        invariant rx[..rxLen] == old(rx[..rxLen])
        invariant rx[rxLen..rxLen + i] == data[at..at + i]
        modifies rx
      {
        rx[rxLen + i] := data[at + i];
      }
      rxLen := rxLen + n;
      assert rx[..rxLen] == old(rx[..rxLen]) + data[at..at + n];
    }
  }
}
