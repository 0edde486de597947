/**
  `WsAgent.cpp`: the WebSocket side of the device. `begin` opens the stream socket behind a
  guard and a 5 s cooldown, `wsCb` follows the stream's events, `loop` retries after a failure,
  `sendFrame` backs off when the send queue is full, commands travel as two big-endian bytes,
  and `ctrlCb` switches the motor on and off. The sockets themselves are not modelled: whether
  the stream is connected, whether the TCP probe and a send succeed are parameters.
*/
module WebSocket {
  import opened Common

  /** The two bytes `sendMode` and `sendMotor` send for `v`: high byte first. */
  function Encode16(v: uint16): (b: seq<uint8>)
    ensures |b| == 2 && b[0] as int * 256 + b[1] as int == v
  {
    [v / 256, v % 256]
  }

  /** The command `ctrlCb` reads from the first two bytes of a frame. */
  function Decode16(p: seq<uint8>): uint16
    requires |p| >= 2
  {
    p[0] as int * 256 + p[1] as int
  }

  /** The events of a `WebSocketsClient` the callbacks tell apart. */
  datatype WsEvent = Connected | Disconnected | Error | Bin | Text | OtherEvent

  /** `ctrlCb` on the motor flag: a binary frame of at least two bytes carrying 0x0001 switches
      the motor on, 0x0000 switches it off; anything else leaves it as it is. */
  function Control(motorOn: bool, t: WsEvent, p: seq<uint8>): bool
  {
    if t != Bin || |p| < 2 then motorOn
    else
      var cmd := Decode16(p);
      if cmd == 0x0001 && !motorOn then true
      else if cmd == 0x0000 && motorOn then false
      else motorOn
  }

  /** The file-level `motorState` of `WsAgent.cpp`, switched by `ctrlCb`. */
  class MotorSwitch {
    var motorState: bool

    constructor ()
      ensures !motorState
    {
      motorState := false;
    }

    /** `ctrlCb(t, p, l)`; `written` is the level written to the motor pin, if any. */
    method CtrlCb(t: WsEvent, p: seq<uint8>) returns (written: Option<bool>)
      modifies this
      ensures motorState == Control(old(motorState), t, p)
      ensures written == if motorState != old(motorState) then Some(motorState) else None
    {
      written := None;
      if t != Bin || |p| < 2 {
        return;
      }
      var cmd := p[0] as int * 256 + p[1] as int;
      if cmd == 0x0001 && !motorState {
        motorState := true;
        written := Some(true);
      } else if cmd == 0x0000 && motorState {
        motorState := false;
        written := Some(false);
      }
    }
  }

  /** The fields of `WsAgent`; `registered` stands for `gSelf` having been set. */
  datatype Ws = Ws(lastTry: uint32, nextOkAfter: uint32, busy: bool, connecting: bool,
                   needReconnect: bool, registered: bool, host: string, port: uint16)

  /** Minimum time between two connection attempts. */
  const CooldownMs: uint32 := 5000

  /** `begin(host, port)`: its result and the new fields. `streamConnected` is
      `_stream.isConnected()`, `probeOk` the result of the TCP probe. */
  function BeginSpec(w: Ws, host: string, port: uint16, now: uint32, streamConnected: bool, probeOk: bool): (bool, Ws)
  {
    if w.busy || w.connecting || streamConnected then (false, w)
    else if Sub32(now, w.lastTry) < CooldownMs then (false, w)
    else
      var tried := w.(lastTry := now, busy := true, connecting := true);
      if !probeOk then (false, tried.(needReconnect := true, busy := false, connecting := false))
      else (true, tried.(host := host, port := port, registered := true))
  }

  /** `wsCb(t, p, l)`: whether it opens the control and mode sockets (`start`), and the new
      fields. Nothing happens before `begin` has succeeded once. */
  function WsCbSpec(w: Ws, t: WsEvent): (bool, Ws)
  {
    if !w.registered then (false, w)
    else match t
      case Connected => (true, w.(busy := false, connecting := false))
      case Disconnected => (false, w.(busy := false, connecting := false, needReconnect := true))
      case Error => (false, w.(busy := false, connecting := false, needReconnect := true))
      case _ => (false, w)
  }

  /** `loop()`: whether `begin` was called again, its result, and the new fields. */
  function LoopSpec(w: Ws, now: uint32, streamConnected: bool, probeOk: bool): (bool, bool, Ws)
  {
    if w.needReconnect && !w.connecting && Sub32(now, w.lastTry) > CooldownMs then
      var r := BeginSpec(w.(needReconnect := false), w.host, w.port, now, streamConnected, probeOk);
      (true, r.0, r.1)
    else (false, false, w)
  }

  /** `sendFrame(buf, len, backoffMs)`: its result and the new fields; `sendOk` is the result of
      `sendBIN`. */
  function SendFrameSpec(w: Ws, now: uint32, backoffMs: uint32, streamConnected: bool, sendOk: bool): (bool, Ws)
  {
    if !streamConnected then (false, w)
    else if !sendOk then (false, w.(nextOkAfter := Add32(now, backoffMs)))
    else (true, w)
  }

  class WsAgent {
    var lastTry: uint32
    var nextOkAfter: uint32
    var busy: bool
    var connecting: bool
    var needReconnect: bool
    var registered: bool
    var host: string
    var port: uint16

    function State(): Ws
      reads this
    {
      Ws(lastTry, nextOkAfter, busy, connecting, needReconnect, registered, host, port)
    }

    /** The members' initial values. */
    constructor ()
      ensures State() == Ws(0, 0, false, false, false, false, "", 0)
    {
      lastTry, nextOkAfter := 0, 0;
      busy, connecting, needReconnect, registered := false, false, false, false;
      host, port := "", 0;
    }

    /** `begin(host, port)`. */
    method Begin(h: string, p: uint16, now: uint32, streamConnected: bool, probeOk: bool) returns (ok: bool)
      modifies this
      ensures (ok, State()) == BeginSpec(old(State()), h, p, now, streamConnected, probeOk)
    {
      if busy || connecting || streamConnected {
        return false;
      }
      if Sub32(now, lastTry) < CooldownMs {
        return false;
      }
      lastTry := now;
      busy := true;
      connecting := true;
      if !probeOk {
        needReconnect := true;
        busy, connecting := false, false;
        return false;
      }
      host, port := h, p;
      registered := true;
      return true;
    }

    /** `wsCb(t, p, l)`; `started` tells whether `start` opened the control and mode sockets. */
    method WsCb(t: WsEvent) returns (started: bool)
      modifies this
      ensures (started, State()) == WsCbSpec(old(State()), t)
    {
      started := false;
      if !registered {
        return;
      }
      match t {
        case Connected =>
          busy, connecting := false, false;
          started := true;
        case Disconnected =>
          busy, connecting := false, false;
          needReconnect := true;
        case Error =>
          busy, connecting := false, false;
          needReconnect := true;
        case _ =>
      }
    }

    /** `loop()`: `attempted` tells whether `begin` was called, `ok` what it returned. */
    method Loop(now: uint32, streamConnected: bool, probeOk: bool) returns (attempted: bool, ok: bool)
      modifies this
      ensures (attempted, ok, State()) == LoopSpec(old(State()), now, streamConnected, probeOk)
    {
      attempted, ok := false, false;
      if needReconnect && !connecting && Sub32(now, lastTry) > CooldownMs {
        needReconnect := false;
        attempted := true;
        ok := Begin(host, port, now, streamConnected, probeOk);
      }
    }

    /** `sendFrame(buf, len, backoffMs)`. */
    method SendFrame(now: uint32, backoffMs: uint32, streamConnected: bool, sendOk: bool) returns (ok: bool)
      modifies this
      ensures (ok, State()) == SendFrameSpec(old(State()), now, backoffMs, streamConnected, sendOk)
    {
      if !streamConnected {
        return false;
      }
      if !sendOk {
        nextOkAfter := Add32(now, backoffMs);
        return false;
      }
      return true;
    }
  }
}
