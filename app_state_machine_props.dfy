/** What the state machine's operations guarantee. */
module StateMachineProps {
  import opened Common
  import opened Debounce
  import opened BleLink
  import opened WebSocket
  import opened StateMachine

  /** The LED interval each screen sets: blinking while waiting, steady off from HOME on. */
  function LedIntervalOf(s: S): uint16
  {
    match s
    case BleWait => 500
    case GetInfo => 200
    case WsWait => 100
    case _ => 0
  }

  /** What holds between any two steps: the candidate index stays in range and `mode` is its
      code, the queue never holds more than 16 commands, and the LED interval is the one of
      the current screen. */
  predicate Inv(u: Ui)
  {
    u.modeIdx < ModeCnt && u.mode == KModes[u.modeIdx] && |u.wsQ.items| <= WsQLen
    && u.led.ledInt == LedIntervalOf(u.st)
  }

  lemma InitialInv()
    ensures Inv(Initial()) && Initial().st == BleWait && Initial().mode == 0x0001
    ensures Initial().links.bleActive && !Initial().links.btnActivate
  {
  }

  /** The queue keeps at most 16 commands, appends at the back, and drops what does not fit. */
  lemma PushSemantics(q: CmdQueue, c: Cmd)
    requires |q.items| <= WsQLen
    ensures |Push(q, c).items| <= WsQLen
    ensures Push(q, c).items == if q.open && |q.items| < WsQLen then q.items + [c] else q.items
  {
  }

  /** Several commands pushed in order. */
  function PushAll(q: CmdQueue, cs: seq<Cmd>): CmdQueue
    decreases |cs|
  {
    if cs == [] then q else PushAll(Push(q, cs[0]), cs[1..])
  }

  /** Pushing several commands keeps them in order and drops those that find the queue full:
      exactly the first `16 - |q|` of them get in. */
  lemma {:induction false} PushAllKeepsPrefix(q: CmdQueue, cs: seq<Cmd>)
    requires q.open && |q.items| <= WsQLen
    ensures PushAll(q, cs).items == q.items + cs[..Min(|cs|, WsQLen - |q.items|)]
    ensures PushAll(q, cs).open
    decreases |cs|
  {
    if cs != [] {
      var q1 := Push(q, cs[0]);
      PushAllKeepsPrefix(q1, cs[1..]);
      if |q.items| < WsQLen {
        var k := Min(|cs| - 1, WsQLen - |q1.items|);
        assert cs[..k + 1] == [cs[0]] + cs[1..][..k];
      } else {
        assert Min(|cs|, WsQLen - |q.items|) == 0;
      }
    }
  }

  /** Up to 16 commands queued into an empty queue are all kept, so the drain sends each of
      them, in the order they were queued. */
  lemma QueueThenDrain(cs: seq<Cmd>)
    requires |cs| <= WsQLen
    ensures PushAll(CmdQueue(true, []), cs).items == cs
    ensures Wire(PushAll(CmdQueue(true, []), cs).items) == Wire(cs)
  {
    PushAllKeepsPrefix(CmdQueue(true, []), cs);
    assert Min(|cs|, WsQLen) == |cs|;
    assert cs[..|cs|] == cs;
    assert [] + cs == cs;
  }

  /** `to(n)`: the screen becomes `n`, the LED interval is the one of `n` (an active mode keeps
      the interval it had), WS_WAIT clears `wifiStarted`, and the candidate is untouched. */
  lemma ToScreen(u: Ui, n: S, now: uint32)
    ensures var r := ToSpec(u, n, now);
      r.st == n && r.modeIdx == u.modeIdx && r.mode == u.mode
      && r.led.ledInt == (if IsActive(n) then u.led.ledInt else LedIntervalOf(n))
      && r.links == (if n == WsWait then u.links.(wifiStarted := false) else u.links)
  {
  }

  /** Entering HOME from an active mode queues 0x1111 and then the candidate and starts the
      motor pulse; from any other screen it queues only the candidate and leaves the motor. */
  lemma ToHome(u: Ui, now: uint32)
    ensures var r := ToSpec(u, Home, now);
      if IsActive(u.st) then
        r.wsQ == PushAll(u.wsQ, [Cmd(ModeCmd, CodeBackHome), Cmd(ModeCmd, u.mode)]) && r.motor == StartPulse(now)
      else
        r.wsQ == Push(u.wsQ, Cmd(ModeCmd, u.mode)) && r.motor == u.motor
  {
    var a, b := Cmd(ModeCmd, CodeBackHome), Cmd(ModeCmd, u.mode);
    assert [a, b][1..] == [b] && [b][1..] == [];
    assert PushAll(u.wsQ, [a, b]) == PushAll(Push(u.wsQ, a), [b]) == Push(Push(u.wsQ, a), b);
  }

  /** Entering an active mode arms the OK suppression for 100 ms, latches OK until it is seen
      released, and queues the mode's code; the motor is untouched. */
  lemma ToActive(u: Ui, n: S, now: uint32)
    requires IsActive(n)
    ensures var r := ToSpec(u, n, now);
      r.ok == u.ok.(okSuppressUntil := Add32(now, OkSuppressMs), okIgnoreUntilRelease := true)
      && r.wsQ == Push(u.wsQ, Cmd(ModeCmd, ActiveCode(n))) && r.motor == u.motor
  {
  }

  /** The three active modes announce three distinct codes, none of them a candidate or a HOME
      code. */
  lemma ActiveCodesDistinct(a: S, b: S)
    requires IsActive(a) && IsActive(b)
    ensures ActiveCode(a) == ActiveCode(b) ==> a == b
    ensures ActiveCode(a) !in KModes && ActiveCode(a) != CodeHome && ActiveCode(a) != CodeBackHome
  {
  }

  /** `toStr` names the seven screens apart. */
  lemma ToStrDistinct(a: S, b: S)
    ensures ToStr(a) == ToStr(b) ==> a == b
  {
  }

  lemma SelectInv(u: Ui, i: nat)
    requires Inv(u) && i < ModeCnt
    ensures var r := Select(u, i);
      Inv(r) && r.modeIdx == i && r.st == u.st && r.ok == u.ok && r.motor == u.motor
      && r.wsQ == Push(u.wsQ, Cmd(ModeCmd, KModes[i]))
  {
  }

  /** Reading one pin's rising flag does not change what another pin's read returns. */
  lemma RisingOtherPin(s: seq<Info>, cnt: nat, a: uint8, b: uint8)
    requires cnt <= |s| && a != b
    ensures TakeRise(TakeRise(s, cnt, a).1, cnt, b).0 == TakeRise(s, cnt, b).0
    ensures Level(TakeRise(s, cnt, a).1, cnt, b) == Level(s, cnt, b)
  {
    var t := TakeRise(s, cnt, a).1;
    assert |t| == |s| && forall j :: 0 <= j < |s| ==> t[j].pin == s[j].pin && t[j].prev == s[j].prev;
    FindSamePins(s, t, cnt, b, 0);
  }

  /** HOME: NEXT moves the candidate one forward, PREV one back, both modulo 3 and each
      announced; nothing else about the screen changes. */
  lemma HomeCycleMoves(u: Ui, p: Pad)
    requires Inv(u) && PadOk(p)
    ensures var (r, _) := HomeCycle(u, p);
      var rn := TakeRise(p.btn, p.cnt, BtnNext).0;
      var rp := TakeRise(p.btn, p.cnt, BtnPrev).0;
      Inv(r) && r.modeIdx as int == (u.modeIdx + (if rn then 1 else 0) + (if rp then 2 else 0)) % ModeCnt
      && r.st == u.st && r.ok == u.ok && r.led == u.led && r.motor == u.motor && r.links == u.links
  {
    RisingOtherPin(p.btn, p.cnt, BtnNext, BtnPrev);
    var (rn, p1) := RisingOn(p, BtnNext);
    var u1 := if rn then Select(u, (u.modeIdx + 1) % ModeCnt) else u;
    if rn {
      SelectInv(u, (u.modeIdx + 1) % ModeCnt);
    }
    var (rp, p2) := RisingOn(p1, BtnPrev);
    if rp {
      SelectInv(u1, (u1.modeIdx + ModeCnt - 1) % ModeCnt);
    }
  }

  /** HOME, OK held: the long press fires exactly when the hold has lasted 300 ms and has not
      fired yet; it then enters the active mode of the candidate, marks the hold as fired and
      drops the pending OK edge. */
  lemma LongPressFires(u: Ui, p: Pad, now: uint32)
    requires Inv(u) && u.st == Home && PadOk(p) && PressedOn(p, BtnOk)
    ensures var (r, p1) := HomeOk(u, p, now);
      (r.st != Home <==> u.ok.okHolding && !u.ok.okLongFired && Sub32(now, u.ok.okPressStart) >= OkLongMs)
      && (r.st != Home ==> r.st == ActiveOf(u.modeIdx as nat) && r.ok.okLongFired && r.ok.okHolding
                           && !RisingOn(p1, BtnOk).0 && PressedOn(p1, BtnOk))
  {
    if u.ok.okHolding && !u.ok.okLongFired && Sub32(now, u.ok.okPressStart) >= OkLongMs {
      var t := TakeRise(p.btn, p.cnt, BtnOk).1;
      assert |t| == |p.btn| && forall j :: 0 <= j < |t| ==> t[j].pin == p.btn[j].pin && t[j].prev == p.btn[j].prev;
      FindSamePins(p.btn, t, p.cnt, BtnOk, 0);
    }
  }

  /** Once the long press has fired, holding OK longer does nothing. */
  lemma LongPressOnce(u: Ui, p: Pad, now: uint32)
    requires PadOk(p) && PressedOn(p, BtnOk) && u.ok.okHolding && u.ok.okLongFired
    ensures HomeOk(u, p, now) == (u, p)
  {
  }

  /** HOME, OK pressed after being released: a hold starts at `now`. */
  lemma PressStartsHold(u: Ui, p: Pad, now: uint32)
    requires PadOk(p) && PressedOn(p, BtnOk) && !u.ok.okHolding
    ensures HomeOk(u, p, now).0 == u.(ok := u.ok.(okHolding := true, okLongFired := false, okPressStart := now))
  {
  }

  /** HOME, OK released: the hold ends, and only a short hold that did not fire moves the
      candidate one forward. */
  lemma ReleaseEndsHold(u: Ui, p: Pad, now: uint32)
    requires Inv(u) && PadOk(p) && !PressedOn(p, BtnOk) && u.ok.okHolding
    ensures var r := HomeOk(u, p, now).0;
      Inv(r) && r.st == u.st && !r.ok.okHolding && !r.ok.okLongFired
      && r.modeIdx as int == if !u.ok.okLongFired && Sub32(now, u.ok.okPressStart) < OkLongMs
                             then (u.modeIdx + 1) % ModeCnt else u.modeIdx as int
  {
  }

  lemma HomeOkInv(u: Ui, p: Pad, now: uint32)
    requires Inv(u) && u.st == Home && PadOk(p)
    ensures Inv(HomeOk(u, p, now).0) && HomeOk(u, p, now).0.links == u.links
  {
  }

  /** An active mode: a BACK edge always returns HOME, queueing 0x1000, 0x1111 and the
      candidate, and starts the motor pulse. */
  lemma BackGoesHome(u: Ui, p: Pad, now: uint32)
    requires IsActive(u.st) && PadOk(p) && TakeRise(p.btn, p.cnt, BtnBack).0
    ensures var r := ActiveStep(u, p, now).0;
      r.st == Home && r.motor == StartPulse(now)
      && r.wsQ == PushAll(u.wsQ, [Cmd(ModeCmd, CodeHome), Cmd(ModeCmd, CodeBackHome), Cmd(ModeCmd, u.mode)])
  {
    var a, b, c := Cmd(ModeCmd, CodeHome), Cmd(ModeCmd, CodeBackHome), Cmd(ModeCmd, u.mode);
    assert [a, b, c][1..] == [b, c] && [b, c][1..] == [c] && [c][1..] == [];
    assert PushAll(u.wsQ, [a, b, c]) == PushAll(Push(u.wsQ, a), [b, c]);
    ToHome(Enqueue(u, a), now);
  }

  /** An active mode just entered: OK is ignored while it stays pressed; the first sample that
      sees it released clears the latch and drops the pending OK edge. */
  lemma OkLatch(u: Ui, p: Pad, now: uint32)
    requires IsActive(u.st) && PadOk(p) && !TakeRise(p.btn, p.cnt, BtnBack).0 && u.ok.okIgnoreUntilRelease
    ensures var (r, p1) := ActiveStep(u, p, now);
      r.st == u.st && r.wsQ == u.wsQ
      && (r.ok.okIgnoreUntilRelease <==> PressedOn(p, BtnOk))
      && (!PressedOn(p, BtnOk) ==> !RisingOn(p1, BtnOk).0)
  {
    RisingOtherPin(p.btn, p.cnt, BtnBack, BtnOk);
    var p1 := RisingOn(p, BtnBack).1;
    var t := TakeRise(p1.btn, p1.cnt, BtnOk).1;
    assert |t| == |p1.btn| && forall j :: 0 <= j < |t| ==> t[j].pin == p1.btn[j].pin && t[j].prev == p1.btn[j].prev;
    FindSamePins(p1.btn, t, p1.cnt, BtnOk, 0);
  }

  /** An active mode: without a BACK edge, the device leaves only through an OK edge seen after
      the latch was cleared and once the suppression time has passed; it never goes anywhere
      but HOME. */
  lemma OkExitNeedsTime(u: Ui, p: Pad, now: uint32)
    requires IsActive(u.st) && PadOk(p)
    ensures var r := ActiveStep(u, p, now).0; r.st == u.st || r.st == Home
    ensures !TakeRise(p.btn, p.cnt, BtnBack).0 ==>
      (ActiveStep(u, p, now).0.st == Home <==>
        !u.ok.okIgnoreUntilRelease && now >= u.ok.okSuppressUntil && TakeRise(p.btn, p.cnt, BtnOk).0)
  {
    RisingOtherPin(p.btn, p.cnt, BtnBack, BtnOk);
  }

  lemma ActiveInv(u: Ui, p: Pad, now: uint32)
    requires Inv(u) && IsActive(u.st) && PadOk(p)
    ensures Inv(ActiveStep(u, p, now).0) && ActiveStep(u, p, now).0.links == u.links
  {
  }

  /** `buttonTask` keeps the invariant and never touches the link flags. */
  lemma ButtonStepInv(u: Ui, p: Pad, now: uint32)
    requires Inv(u) && PadOk(p)
    ensures Inv(ButtonStep(u, p, now).0) && ButtonStep(u, p, now).0.links == u.links
  {
    if u.st == Home {
      HomeCycleMoves(u, p);
      var (u1, p1) := HomeCycle(u, p);
      HomeOkInv(u1, p1, now);
    } else if IsActive(u.st) {
      ActiveInv(u, p, now);
    }
  }

  /** With interval 0 the LED is held low and nothing else changes. */
  lemma LedHeldLow(l: Led, now: uint32)
    requires l.ledInt == 0
    ensures LedStep(l, now) == l.(pin := false)
  {
  }

  /** With a non-zero interval the LED toggles exactly when the interval has passed since the
      last toggle; the pin then shows the new state and the timer restarts at `now`. */
  lemma LedToggles(l: Led, now: uint32)
    requires l.ledInt != 0
    ensures var r := LedStep(l, now);
      (r.ledOn != l.ledOn <==> Sub32(now, l.tLed) >= l.ledInt)
      && (r.ledOn != l.ledOn ==> r.pin == r.ledOn && r.tLed == now)
      && (r.ledOn == l.ledOn ==> r == l)
  {
  }

  /** After a toggle the LED keeps its state for a whole interval. */
  lemma LedKeepsForInterval(l: Led, now: uint32, later: uint32)
    requires l.ledInt != 0 && Sub32(now, l.tLed) >= l.ledInt && Sub32(later, now) < l.ledInt
    ensures LedStep(LedStep(l, now), later) == LedStep(l, now)
  {
  }

  /** Without wrap-around of the clock the motor pulse lasts exactly 100 ms: the motor is high
      at every check before `now + 100` and low from then on. */
  lemma PulseLasts100(now: uint32, t: uint32)
    requires now + MotorPulseMs < Modulus32 && now <= t
    ensures MotorExpiry(StartPulse(now), t).pin <==> t < now + MotorPulseMs
    ensures !MotorExpiry(StartPulse(now), t).pin ==> MotorExpiry(StartPulse(now), t).motorPulseUntil == 0
  {
  }

  /** `millis() + 100` wraps to 0 when the pulse starts 100 ms before the clock wraps; 0 means
      "no pulse", so the motor stays high at every later check. */
  lemma PulseAtWrapNeverEnds(t: uint32)
    ensures StartPulse(Modulus32 - MotorPulseMs).motorPulseUntil == 0
    ensures MotorExpiry(StartPulse(Modulus32 - MotorPulseMs), t).pin
  {
  }

  /** A pulse started less than 100 ms before the clock wraps ends at the very next check. */
  lemma PulseNearWrapEndsAtOnce(now: uint32)
    requires Modulus32 - MotorPulseMs < now
    ensures !MotorExpiry(StartPulse(now), now).pin
  {
  }

  /** The expiry check does nothing while no pulse runs. */
  lemma ExpiryIdle(m: Motor, now: uint32)
    requires m.motorPulseUntil == 0
    ensures MotorExpiry(m, now) == m
  {
  }

  /** BLE is stopped by the first successful `ws.begin` only; the latch stays set after it. */
  lemma BleStopsOnce(l: Links)
    ensures var (s1, l1) := BleStopLatch(l);
      (s1 <==> !l.bleStopped) && l1.bleStopped && !BleStopLatch(l1).0 && BleStopLatch(l1).1 == l1
      && (s1 ==> !l1.bleActive)
  {
  }

  /** Credentials arriving over BLE are kept and lead to WS_WAIT, where Wi-Fi starts afresh. */
  lemma OnCredsInv(u: Ui, c: Creds, now: uint32)
    requires Inv(u)
    ensures var r := OnCredsSpec(u, c, now);
      Inv(r) && r.st == WsWait && r.links.creds == c && !r.links.wifiStarted
  {
  }

  /** Once the WebSocket is ready in WS_WAIT the buttons come alive and the device goes HOME,
      announcing the candidate; otherwise nothing changes. */
  lemma WsWaitToHome(u: Ui, wsReady: bool, now: uint32)
    requires Inv(u)
    ensures Inv(WsWaitSpec(u, wsReady, now))
    ensures var r := WsWaitSpec(u, wsReady, now);
      if wsReady && u.st == WsWait then
        r.st == Home && r.links.btnActivate && r.wsQ == Push(u.wsQ, Cmd(ModeCmd, u.mode)) && r.motor == u.motor
      else r == u
  {
    ToHome(u.(links := u.links.(btnActivate := true)), now);
  }

  /** A pass of `uiTask` keeps the invariant; before the buttons are active it touches neither
      the screen nor the buttons nor the queue. */
  lemma UiStepInv(u: Ui, p: Pad, lastScan: uint32, now: uint32, level: uint8 -> bool)
    requires Inv(u) && PadOk(p)
    ensures Inv(UiSpec(u, p, lastScan, now, level).0)
    ensures UiSpec(u, p, lastScan, now, level).0.links == u.links
    ensures !u.links.btnActivate ==> var (r, p1) := UiSpec(u, p, lastScan, now, level);
      p1 == p && r.st == u.st && r.wsQ == u.wsQ && r.ok == u.ok
  {
    if u.links.btnActivate {
      ButtonStepInv(u, ScanPad(p, lastScan, now, level), now);
    }
  }
}
