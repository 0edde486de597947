/**
  `AppStateMachine`: the device's screens (waiting for BLE credentials, waiting for the
  WebSocket, HOME with its mode candidates, and the three active modes), the button handling
  that moves between them, the status LED, the 100 ms motor pulse, and the 16-slot queue of
  commands the network task sends over the WebSocket.

  The UI state is the value `Ui`; each operation of the source is a function on it and a method
  of the class `AppStateMachine` proved against that function. The FreeRTOS tasks become single
  steps, the queue a sequence, `millis()` and the pin levels parameters.
*/
module StateMachine {
  import opened Common
  import opened Debounce
  import opened BleLink
  import opened WebSocket

  /** The screens of the device (`S`). */
  datatype S = BleWait | GetInfo | WsWait | Home | Sig | Straight | Obj

  /** SIG, STRAIGHT and OBJ: the three modes in which the camera streams. */
  predicate IsActive(s: S)
  {
    s == Sig || s == Straight || s == Obj
  }

  /** `toStr`. */
  function ToStr(s: S): string
  {
    match s
    case BleWait => "BLE_WAIT"
    case GetInfo => "GET_INFO"
    case WsWait => "WS_WAIT"
    case Home => "HOME"
    case Sig => "SIG"
    case Straight => "STRAIGHT"
    case Obj => "OBJ"
  }

  /** `MODE_CNT` and `kModes`: the mode candidates HOME cycles through. */
  const ModeCnt: nat := 3
  const KModes: seq<uint16> := [0x0001, 0x0010, 0x0011]

  /** The button pins of `Hardware.h`, registered in this order by `begin`. */
  const BtnPrev: uint8 := 1
  const BtnNext: uint8 := 8
  const BtnBack: uint8 := 9
  const BtnOk: uint8 := 7
  const KBtnPins: seq<uint8> := [BtnPrev, BtnNext, BtnBack, BtnOk]

  /** `OK_LONG_MS`, `OK_SUPPRESS_MS`, the motor pulse length and `WS_Q_LEN`. */
  const OkLongMs: uint32 := 300
  const OkSuppressMs: uint32 := 100
  const MotorPulseMs: uint32 := 100
  const WsQLen: nat := 16

  /** The codes sent on the mode socket besides the candidates themselves. */
  const CodeHome: uint16 := 0x1000
  const CodeBackHome: uint16 := 0x1111
  function ActiveCode(s: S): uint16
    requires IsActive(s)
  {
    match s
    case Sig => 0x1001
    case Straight => 0x1010
    case Obj => 0x1011
  }

  /** The active mode a long press on OK enters from candidate `i`. */
  function ActiveOf(i: nat): S
    requires i < ModeCnt
  {
    if i == 0 then Sig else if i == 1 then Straight else Obj
  }

  /** `WsCmd`: a command for the mode socket or for the control socket. */
  datatype CmdKind = ModeCmd | MotorCmd
  datatype Cmd = Cmd(kind: CmdKind, val: uint16)

  /** The status LED: `ledInt`, `tLed` and `ledOn`, and the level last written to the pin. */
  datatype Led = Led(ledInt: uint16, tLed: uint32, ledOn: bool, pin: bool)

  /** The OK long-press detector and the suppression of OK after entering an active mode. */
  datatype OkPress = OkPress(okPressStart: uint32, okHolding: bool, okLongFired: bool,
                             okSuppressUntil: uint32, okIgnoreUntilRelease: bool)

  /** The non-blocking motor pulse: `motorPulseUntil` (0 when no pulse runs) and the pin level. */
  datatype Motor = Motor(motorPulseUntil: uint32, pin: bool)

  /** The link flags and the credentials received over BLE; `bleStopped` is the function-level
      static latch of the network task. */
  datatype Links = Links(wifiStarted: bool, bleActive: bool, btnActivate: bool, bleStopped: bool, creds: Creds)

  /** The command queue `wsQ`: whether it has been created, and what it holds, oldest first. */
  datatype CmdQueue = CmdQueue(open: bool, items: seq<Cmd>)

  /** The fields of `AppStateMachine` the UI logic reads and writes, grouped as the header groups
      them. */
  datatype Ui = Ui(st: S, modeIdx: uint8, mode: uint16, led: Led, ok: OkPress, motor: Motor, links: Links, wsQ: CmdQueue)

  /** The members' initial values. */
  function Initial(): Ui
  {
    Ui(BleWait, 0, KModes[0], Led(500, 0, false, false), OkPress(0, false, false, 0, false), Motor(0, false),
       Links(false, true, false, false, Creds("", "", "", 0)), CmdQueue(false, []))
  }

  /** `sendModeAsync` / `sendMotorAsync`: a non-blocking send into the 16-slot queue, dropped
      when the queue does not exist yet or is full. */
  function Push(q: CmdQueue, c: Cmd): CmdQueue
  {
    if q.open && |q.items| < WsQLen then q.(items := q.items + [c]) else q
  }

  function Enqueue(u: Ui, c: Cmd): Ui
  {
    u.(wsQ := Push(u.wsQ, c))
  }

  /** `startMotorPulse100ms`: the motor goes high until `now + 100`. */
  function StartPulse(now: uint32): Motor
  {
    Motor(Add32(now, MotorPulseMs), true)
  }

  /** `to(n)`. */
  function ToSpec(u: Ui, n: S, now: uint32): Ui
  {
    var u1 := u.(st := n);
    var u2 := if n == Home && IsActive(u.st) then Enqueue(u1, Cmd(ModeCmd, CodeBackHome)).(motor := StartPulse(now)) else u1;
    match n
    case BleWait => u2.(led := u2.led.(ledInt := 500))
    case GetInfo => u2.(led := u2.led.(ledInt := 200))
    case WsWait => u2.(led := u2.led.(ledInt := 100), links := u2.links.(wifiStarted := false))
    case Home => Enqueue(u2.(led := u2.led.(ledInt := 0)), Cmd(ModeCmd, u2.mode))
    case _ => Enqueue(u2.(ok := u2.ok.(okSuppressUntil := Add32(now, OkSuppressMs), okIgnoreUntilRelease := true)),
                      Cmd(ModeCmd, ActiveCode(n)))
  }

  /** Makes candidate `i` the selected mode and announces it on the mode socket. */
  function Select(u: Ui, i: nat): Ui
    requires i < ModeCnt
  {
    Enqueue(u.(modeIdx := i, mode := KModes[i]), Cmd(ModeCmd, KModes[i]))
  }

  /** The buttons as `buttonTask` sees them: the records of the debouncer and how many are used. */
  datatype Pad = Pad(btn: seq<Info>, cnt: nat)
  predicate PadOk(p: Pad)
  {
    p.cnt <= |p.btn|
  }

  /** `buttons.rising(pin)` on a pad. */
  function RisingOn(p: Pad, pin: uint8): (bool, Pad)
    requires PadOk(p)
  {
    var r := TakeRise(p.btn, p.cnt, pin);
    (r.0, Pad(r.1, p.cnt))
  }

  /** `buttons.pressed(pin)` on a pad. */
  function PressedOn(p: Pad, pin: uint8): bool
    requires PadOk(p)
  {
    Level(p.btn, p.cnt, pin)
  }

  /** HOME, first part: a NEXT edge selects the next candidate, then a PREV edge the previous one. */
  function HomeCycle(u: Ui, p: Pad): (Ui, Pad)
    requires PadOk(p)
  {
    var (rn, p1) := RisingOn(p, BtnNext);
    var u1 := if rn then Select(u, (u.modeIdx + 1) % ModeCnt) else u;
    var (rp, p2) := RisingOn(p1, BtnPrev);
    var u2 := if rp then Select(u1, (u1.modeIdx + ModeCnt - 1) % ModeCnt) else u1;
    (u2, p2)
  }

  /** HOME, second part: the OK button. A press starts a hold; a hold of 300 ms fires once,
      drops the pending OK edge and enters the active mode of the candidate; a release clears
      the hold and, after a short press, selects the next candidate. */
  function HomeOk(u: Ui, p: Pad, now: uint32): (Ui, Pad)
    requires PadOk(p)
  {
    if PressedOn(p, BtnOk) then
      if !u.ok.okHolding then (u.(ok := u.ok.(okHolding := true, okLongFired := false, okPressStart := now)), p)
      else if !u.ok.okLongFired && Sub32(now, u.ok.okPressStart) >= OkLongMs then
        var u1 := u.(ok := u.ok.(okLongFired := true, okSuppressUntil := Add32(now, OkSuppressMs)));
        var p1 := RisingOn(p, BtnOk).1;
        var u2 := u1.(ok := u1.ok.(okIgnoreUntilRelease := true));
        (if u2.modeIdx < ModeCnt then ToSpec(u2, ActiveOf(u2.modeIdx), now) else u2, p1)
      else (u, p)
    else if u.ok.okHolding then
      var held := Sub32(now, u.ok.okPressStart);
      var wasLong := u.ok.okLongFired;
      var u1 := u.(ok := u.ok.(okHolding := false, okLongFired := false));
      (if !wasLong && held < OkLongMs then Select(u1, (u1.modeIdx + 1) % ModeCnt) else u1, p)
    else (u, p)
  }

  /** An active mode: BACK always returns HOME; after entering, OK is ignored until it has been
      seen released; then an OK edge returns HOME once the suppression time has passed. */
  function ActiveStep(u: Ui, p: Pad, now: uint32): (Ui, Pad)
    requires PadOk(p)
  {
    var (rb, p1) := RisingOn(p, BtnBack);
    if rb then (ToSpec(Enqueue(u, Cmd(ModeCmd, CodeHome)), Home, now), p1)
    else if u.ok.okIgnoreUntilRelease then
      if !PressedOn(p1, BtnOk) then (u.(ok := u.ok.(okIgnoreUntilRelease := false)), RisingOn(p1, BtnOk).1)
      else (u, p1)
    else if now >= u.ok.okSuppressUntil then
      var (ro, p2) := RisingOn(p1, BtnOk);
      if ro then (ToSpec(Enqueue(u, Cmd(ModeCmd, CodeHome)), Home, now), p2) else (u, p2)
    else (u, p1)
  }

  /** `buttonTask()`. */
  function ButtonStep(u: Ui, p: Pad, now: uint32): (Ui, Pad)
    requires PadOk(p)
  {
    if u.st == Home then
      var (u1, p1) := HomeCycle(u, p);
      HomeOk(u1, p1, now)
    else if IsActive(u.st) then ActiveStep(u, p, now)
    else (u, p)
  }

  /** `ledTask()`: with interval 0 the LED is held low; otherwise it toggles once the interval
      has passed since the last toggle. */
  function LedStep(l: Led, now: uint32): Led
  {
    if l.ledInt == 0 then l.(pin := false)
    else if Sub32(now, l.tLed) >= l.ledInt then l.(ledOn := !l.ledOn, pin := !l.ledOn, tLed := now)
    else l
  }

  /** The end of the motor pulse in `uiTask`: once `now` reaches `motorPulseUntil` (0 meaning no
      pulse) the motor goes low. */
  function MotorExpiry(m: Motor, now: uint32): Motor
  {
    if m.motorPulseUntil != 0 && now >= m.motorPulseUntil then Motor(0, false) else m
  }

  /** `buttons.update()` on a pad: a scan of every button unless the last scan was less than
      20 ms ago. */
  function ScanPad(p: Pad, lastScan: uint32, now: uint32, level: uint8 -> bool): (r: Pad)
    requires PadOk(p)
    ensures PadOk(r)
  {
    if Sub32(now, lastScan) < DebounceMs then p else Pad(ScanAll(p.btn, p.cnt, level), p.cnt)
  }

  /** One pass of `uiTask` on the UI state and the buttons: the buttons once they are active,
      then the LED and the end of the motor pulse. */
  function UiSpec(u: Ui, p: Pad, lastScan: uint32, now: uint32, level: uint8 -> bool): (Ui, Pad)
    requires PadOk(p)
  {
    var (u1, p1) := if u.links.btnActivate then ButtonStep(u, ScanPad(p, lastScan, now, level), now) else (u, p);
    (u1.(led := LedStep(u1.led, now), motor := MotorExpiry(u1.motor, now)), p1)
  }

  /** The credentials callback given to `ble.begin`: keep the credentials and go to WS_WAIT. */
  function OnCredsSpec(u: Ui, c: Creds, now: uint32): Ui
  {
    ToSpec(u.(links := u.links.(creds := c)), WsWait, now)
  }

  /** The once-only latch after the first successful `ws.begin`: whether BLE is stopped now. */
  function BleStopLatch(l: Links): (bool, Links)
  {
    if !l.bleStopped then (true, l.(bleActive := false, bleStopped := true)) else (false, l)
  }

  /** The end of the WS_WAIT branch: once the WebSocket is ready the buttons come alive and the
      device goes HOME. */
  function WsWaitSpec(u: Ui, wsReady: bool, now: uint32): Ui
  {
    if wsReady && u.st == WsWait then ToSpec(u.(links := u.links.(btnActivate := true)), Home, now) else u
  }

  /** The sockets the network task writes commands to. */
  datatype Channel = ModeSocket | ControlSocket

  /** The frames the drain loop sends for the queued commands, in queue order: a MODE command
      goes to `sendMode`, a MOTOR command to `sendMotor`, each as two big-endian bytes. */
  function Wire(q: seq<Cmd>): (r: seq<(Channel, seq<uint8>)>)
    ensures |r| == |q|
    ensures forall k :: 0 <= k < |q| ==>
      (r[k].0 == ModeSocket <==> q[k].kind == ModeCmd) && |r[k].1| == 2 && Decode16(r[k].1) == q[k].val
  {
    seq(|q|, k requires 0 <= k < |q| => (if q[k].kind == ModeCmd then ModeSocket else ControlSocket, Encode16(q[k].val)))
  }


  class AppStateMachine {
    var st: S
    var modeIdx: uint8
    var mode: uint16
    var led: Led
    var ok: OkPress
    var motor: Motor
    var links: Links
    var wsQ: CmdQueue
    const buttons: Buttons
    const ble: BleAgent

    function State(): Ui
      reads this
    {
      Ui(st, modeIdx, mode, led, ok, motor, links, wsQ)
    }

    /** The buttons as a pad. */
    function PadNow(): Pad
      reads this, buttons, buttons.btn
    {
      Pad(buttons.btn[..], buttons.cnt)
    }

    ghost predicate Valid()
      reads this, buttons
    {
      buttons.Valid()
    }

    constructor ()
      ensures State() == Initial() && Valid() && fresh(buttons) && fresh(buttons.btn) && fresh(ble)
      ensures buttons.cnt == 0 && ble.State() == Ble(0, false, false)
    {
      st, modeIdx, mode := BleWait, 0, KModes[0];
      led := Led(500, 0, false, false);
      ok := OkPress(0, false, false, 0, false);
      motor := Motor(0, false);
      links := Links(false, true, false, false, Creds("", "", "", 0));
      wsQ := CmdQueue(false, []);
      buttons := new Buttons();
      ble := new BleAgent();
    }

    /** `begin()`: the four buttons are registered at the levels they read, BLE advertising
        starts and the command queue is created. */
    method Begin(level: uint8 -> bool, now: uint32)
      requires Valid()
      modifies this, buttons, buttons.btn, ble
      ensures Valid() && State() == old(State()).(wsQ := old(wsQ).(open := true))
      ensures buttons.cnt == |KBtnPins| && buttons.lastScan == now
      ensures forall i :: 0 <= i < |KBtnPins| ==> buttons.btn[i] == Info(KBtnPins[i], level(KBtnPins[i]), false)
      ensures ble.State() == old(ble.State()).(t0 := now, advertising := true)
    {
      buttons.Begin(KBtnPins, level, now);
      ble.Begin(now);
      wsQ := wsQ.(open := true);
    }

    /** `sendModeAsync(v)`. */
    method SendModeAsync(v: uint16)
      modifies this`wsQ
      ensures wsQ == Push(old(wsQ), Cmd(ModeCmd, v))
    {
      if !wsQ.open {
        return;
      }
      if |wsQ.items| < WsQLen {
        wsQ := wsQ.(items := wsQ.items + [Cmd(ModeCmd, v)]);
      }
    }

    /** `sendMotorAsync(v)`. */
    method SendMotorAsync(v: uint16)
      modifies this`wsQ
      ensures wsQ == Push(old(wsQ), Cmd(MotorCmd, v))
    {
      if !wsQ.open {
        return;
      }
      if |wsQ.items| < WsQLen {
        wsQ := wsQ.(items := wsQ.items + [Cmd(MotorCmd, v)]);
      }
    }

    /** `startMotorPulse100ms()`. */
    method StartMotorPulse(now: uint32)
      modifies this`motor
      ensures motor == StartPulse(now)
    {
      motor := Motor(Add32(now, MotorPulseMs), true);
    }

    /** `to(n)`. */
    method To(n: S, now: uint32)
      modifies this
      ensures State() == ToSpec(old(State()), n, now)
    {
      var prev := st;
      st := n;
      if st == Home && IsActive(prev) {
        SendModeAsync(CodeBackHome);
        StartMotorPulse(now);
      }
      match st {
        case BleWait => led := led.(ledInt := 500);
        case GetInfo => led := led.(ledInt := 200);
        case WsWait =>
          led := led.(ledInt := 100);
          links := links.(wifiStarted := false);
        case Home =>
          led := led.(ledInt := 0);
          SendModeAsync(mode);
        case _ =>
          ok := ok.(okSuppressUntil := Add32(now, OkSuppressMs), okIgnoreUntilRelease := true);
          SendModeAsync(ActiveCode(st));
      }
    }

    /** Selects candidate `i`, as the three cycling branches of `buttonTask` do. */
    method SelectMode(i: nat)
      requires i < ModeCnt
      modifies this
      ensures State() == Select(old(State()), i)
    {
      modeIdx := i;
      mode := KModes[modeIdx];
      SendModeAsync(mode);
    }

    /** `buttonTask()` in HOME: the NEXT and PREV edges. */
    method HomeCycleTask()
      requires Valid()
      modifies this, buttons.btn
      ensures Valid()
      ensures (State(), PadNow()) == HomeCycle(old(State()), old(PadNow()))
    {
      var rn := buttons.Rising(BtnNext);
      if rn {
        SelectMode((modeIdx + 1) % ModeCnt);
      }
      var rp := buttons.Rising(BtnPrev);
      if rp {
        SelectMode((modeIdx + ModeCnt - 1) % ModeCnt);
      }
    }

    /** `buttonTask()` in HOME: the OK button. */
    method HomeOkTask(now: uint32)
      requires Valid()
      modifies this, buttons.btn
      ensures Valid()
      ensures (State(), PadNow()) == HomeOk(old(State()), old(PadNow()), now)
    {
      var pressed := buttons.Pressed(BtnOk);
      if pressed {
        if !ok.okHolding {
          ok := ok.(okHolding := true, okLongFired := false, okPressStart := now);
        } else if !ok.okLongFired && Sub32(now, ok.okPressStart) >= OkLongMs {
          ok := ok.(okLongFired := true, okSuppressUntil := Add32(now, OkSuppressMs));
          var _ := buttons.Rising(BtnOk);
          ok := ok.(okIgnoreUntilRelease := true);
          if modeIdx < ModeCnt {
            To(ActiveOf(modeIdx as nat), now);
          }
        }
      } else if ok.okHolding {
        var held := Sub32(now, ok.okPressStart);
        var wasLong := ok.okLongFired;
        ok := ok.(okHolding := false, okLongFired := false);
        if !wasLong && held < OkLongMs {
          SelectMode((modeIdx + 1) % ModeCnt);
        }
      }
    }

    /** `buttonTask()` in an active mode. */
    method ActiveTask(now: uint32)
      requires Valid()
      modifies this, buttons.btn
      ensures Valid()
      ensures (State(), PadNow()) == ActiveStep(old(State()), old(PadNow()), now)
    {
      var back := buttons.Rising(BtnBack);
      if back {
        SendModeAsync(CodeHome);
        To(Home, now);
        return;
      }
      if ok.okIgnoreUntilRelease {
        var pressed := buttons.Pressed(BtnOk);
        if !pressed {
          ok := ok.(okIgnoreUntilRelease := false);
          var _ := buttons.Rising(BtnOk);
        }
        return;
      }
      if now >= ok.okSuppressUntil {
        var r := buttons.Rising(BtnOk);
        if r {
          SendModeAsync(CodeHome);
          To(Home, now);
        }
      }
    }

    /** `buttonTask()`. */
    method ButtonTask(now: uint32)
      requires Valid()
      modifies this, buttons.btn
      ensures Valid()
      ensures (State(), PadNow()) == ButtonStep(old(State()), old(PadNow()), now)
    {
      if st == Home {
        HomeCycleTask();
        HomeOkTask(now);
      } else if IsActive(st) {
        ActiveTask(now);
      }
    }

    /** `ledTask()`. */
    method LedTask(now: uint32)
      modifies this`led
      ensures led == LedStep(old(led), now)
    {
      if led.ledInt == 0 {
        led := led.(pin := false);
        return;
      }
      if Sub32(now, led.tLed) >= led.ledInt {
        led := led.(ledOn := !led.ledOn, pin := !led.ledOn, tLed := now);
      }
    }

    /** The end of the motor pulse in `uiTask`. */
    method MotorPulseExpiry(now: uint32)
      modifies this`motor
      ensures motor == MotorExpiry(old(motor), now)
    {
      if motor.motorPulseUntil != 0 && now >= motor.motorPulseUntil {
        motor := Motor(0, false);
      }
    }

    /** The credentials callback given to `ble.begin`. */
    method OnCreds(c: Creds, now: uint32)
      modifies this
      ensures State() == OnCredsSpec(old(State()), c, now)
    {
      links := links.(creds := c);
      To(WsWait, now);
    }

    /** The once-only BLE stop after the first successful `ws.begin`. */
    method StopBleOnce() returns (stopped: bool)
      modifies this`links, ble
      ensures (stopped, links) == BleStopLatch(old(links))
      ensures ble.State() == if stopped then old(ble.State()).(advertising := false) else old(ble.State())
    {
      stopped := false;
      if !links.bleStopped {
        ble.Stop();
        links := links.(bleActive := false, bleStopped := true);
        stopped := true;
      }
    }

    /** The end of the WS_WAIT branch of the network task. */
    method WsWaitReady(wsReady: bool, now: uint32)
      modifies this
      ensures State() == WsWaitSpec(old(State()), wsReady, now)
    {
      if wsReady && st == WsWait {
        links := links.(btnActivate := true);
        To(Home, now);
      }
    }

    /** The drain loop of the network task: every queued command is sent, oldest first. */
    method DrainCommands() returns (sent: seq<(Channel, seq<uint8>)>)
      modifies this`wsQ
      ensures sent == (if old(wsQ).open then Wire(old(wsQ).items) else [])
      ensures wsQ == (if old(wsQ).open then old(wsQ).(items := []) else old(wsQ))
    {
      sent := [];
      if !wsQ.open {
        return;
      }
      ghost var q0 := wsQ.items;
      while wsQ.items != []
        invariant wsQ.open && |sent| + |wsQ.items| == |q0|
        invariant wsQ.items == q0[|sent|..] && sent == Wire(q0[..|sent|])
        decreases |wsQ.items|
      {
        var c := wsQ.items[0];
        wsQ := wsQ.(items := wsQ.items[1..]);
        var frame := Encode16(c.val);
        if c.kind == ModeCmd {
          sent := sent + [(ModeSocket, frame)];
        } else {
          sent := sent + [(ControlSocket, frame)];
        }
      }
      assert q0[..|sent|] == q0;
    }

    /** One pass of `uiTask`: the buttons (once they are active), the LED, the motor pulse and
        the BLE advertising timer (while BLE is active). `level` gives the pin levels. */
    method UiTaskStep(now: uint32, level: uint8 -> bool)
      requires Valid()
      modifies this, buttons`lastScan, buttons.btn, ble
      ensures Valid()
      ensures (State(), PadNow()) == UiSpec(old(State()), old(PadNow()), old(buttons.lastScan), now, level)
      ensures buttons.lastScan ==
                if old(links.btnActivate) && Sub32(now, old(buttons.lastScan)) >= DebounceMs then now
                else old(buttons.lastScan)
      ensures ble.State() == if links.bleActive then BleLink.LoopSpec(old(ble.State()), now).1 else old(ble.State())
    {
      if links.btnActivate {
        buttons.Update(now, level);
        ButtonTask(now);
      }
      LedTask(now);
      MotorPulseExpiry(now);
      if links.bleActive {
        var _ := ble.Loop(now);
      }
    }
  }
}
