/** What the WebSocket agent's operations guarantee. */
module WebSocketProps {
  import opened Common
  import opened WebSocket

  /** Decoding the two bytes of a frame and encoding the command again gives the same bytes. */
  lemma DecodeEncode(p: seq<uint8>)
    requires |p| == 2
    ensures Encode16(Decode16(p)) == p
  {
    var v := Decode16(p);
    assert v / 256 == p[0] && v % 256 == p[1] by {
      assert v == p[0] as int * 256 + p[1] as int && 0 <= p[1] < 256;
    }
  }

  /** A frame moves the motor only if it is a binary frame carrying the opposite command. */
  lemma ControlChanges(motorOn: bool, t: WsEvent, p: seq<uint8>)
    ensures Control(motorOn, t, p) != motorOn <==>
      t == Bin && |p| >= 2 && (if motorOn then Decode16(p) == 0x0000 else Decode16(p) == 0x0001)
  {
  }

  /** The motor flag after a run of frames on the control socket, the last frame handled last. */
  function Controls(motorOn: bool, frames: seq<(WsEvent, seq<uint8>)>): bool
    decreases |frames|
  {
    if frames == [] then motorOn
    else
      var f := frames[|frames| - 1];
      Control(Controls(motorOn, frames[..|frames| - 1]), f.0, f.1)
  }

  /** A frame that is a motor command: a binary frame of at least two bytes carrying 0 or 1. */
  predicate IsCommand(f: (WsEvent, seq<uint8>))
  {
    f.0 == Bin && |f.1| >= 2 && Decode16(f.1) <= 1
  }

  /** A frame that is not a motor command leaves the motor as it is. */
  lemma NonCommandKeeps(motorOn: bool, f: (WsEvent, seq<uint8>))
    requires !IsCommand(f)
    ensures Control(motorOn, f.0, f.1) == motorOn
  {
  }

  /** Without a command among the frames the motor stays as it was. */
  lemma {:induction false} ControlsNoCommand(motorOn: bool, frames: seq<(WsEvent, seq<uint8>)>)
    requires forall k :: 0 <= k < |frames| ==> !IsCommand(frames[k])
    ensures Controls(motorOn, frames) == motorOn
    decreases |frames|
  {
    if frames != [] {
      var init := frames[..|frames| - 1];
      assert forall k :: 0 <= k < |init| ==> init[k] == frames[k];
      ControlsNoCommand(motorOn, init);
      NonCommandKeeps(motorOn, frames[|frames| - 1]);
    }
  }

  /** The motor follows the last command received: on for 0x0001, off for 0x0000. */
  lemma {:induction false} ControlsLastCommand(motorOn: bool, frames: seq<(WsEvent, seq<uint8>)>, k: nat)
    requires k < |frames| && IsCommand(frames[k])
    requires forall j :: k < j < |frames| ==> !IsCommand(frames[j])
    ensures Controls(motorOn, frames) == (Decode16(frames[k].1) == 0x0001)
    decreases |frames|
  {
    var init := frames[..|frames| - 1];
    var f := frames[|frames| - 1];
    if k < |frames| - 1 {
      assert forall j :: 0 <= j < |init| ==> init[j] == frames[j];
      ControlsLastCommand(motorOn, init, k);
      NonCommandKeeps(Controls(motorOn, init), f);
    }
  }

  /** `_busy` and `_connecting` are always set and cleared together. */
  predicate Inv(w: Ws)
  {
    w.busy == w.connecting
  }

  /** Every operation keeps `_busy` and `_connecting` equal. */
  lemma InvPreserved(w: Ws, t: WsEvent, h: string, p: uint16, now: uint32, backoffMs: uint32,
                     streamConnected: bool, ok: bool)
    requires Inv(w)
    ensures Inv(BeginSpec(w, h, p, now, streamConnected, ok).1)
    ensures Inv(WsCbSpec(w, t).1)
    ensures Inv(LoopSpec(w, now, streamConnected, ok).2)
    ensures Inv(SendFrameSpec(w, now, backoffMs, streamConnected, ok).1)
  {
  }

  /** `begin` leaves everything as it was exactly when a guard refuses it: a connection in
      progress, a connected stream, or the 5 s cooldown since the last attempt. */
  lemma BeginRefusedIff(w: Ws, h: string, p: uint16, now: uint32, streamConnected: bool, probeOk: bool)
    ensures BeginSpec(w, h, p, now, streamConnected, probeOk).1 == w <==>
      (w.busy || w.connecting || streamConnected || Sub32(now, w.lastTry) < CooldownMs)
  {
  }

  /** `begin` succeeds exactly when no guard refuses it and the probe connects; then the callback
      is registered with the new host and port and the attempt is still in progress. */
  lemma BeginSucceedsIff(w: Ws, h: string, p: uint16, now: uint32, streamConnected: bool, probeOk: bool)
    ensures var r := BeginSpec(w, h, p, now, streamConnected, probeOk);
      r.0 <==> (!w.busy && !w.connecting && !streamConnected && Sub32(now, w.lastTry) >= CooldownMs && probeOk)
    ensures var r := BeginSpec(w, h, p, now, streamConnected, probeOk);
      r.0 ==> r.1.registered && r.1.host == h && r.1.port == p && r.1.busy && r.1.connecting && r.1.lastTry == now
  {
  }

  /** After an attempt, any further `begin` within 5 s of it is refused. */
  lemma Cooldown(w: Ws, h: string, p: uint16, now: uint32, sc: bool, ok: bool,
                 h2: string, p2: uint16, later: uint32, sc2: bool, ok2: bool)
    requires BeginSpec(w, h, p, now, sc, ok).1 != w
    requires Sub32(later, now) < CooldownMs
    ensures var w1 := BeginSpec(w, h, p, now, sc, ok).1;
      BeginSpec(w1, h2, p2, later, sc2, ok2) == (false, w1)
  {
  }

  /** A failed probe asks for a retry, and `loop` retries once the cooldown has passed: the retry
      is a fresh attempt at `now` that asks again only if the probe fails again. */
  lemma LoopRetries(w: Ws, now: uint32, streamConnected: bool, probeOk: bool)
    requires Inv(w) && w.needReconnect && !w.connecting && !streamConnected
    requires Sub32(now, w.lastTry) > CooldownMs
    ensures var r := LoopSpec(w, now, streamConnected, probeOk);
      r.0 && r.1 == probeOk && r.2.lastTry == now && r.2.needReconnect == !probeOk
  {
  }

  /** `loop` calls `begin` only when a retry is wanted, no connection is in progress and more
      than 5 s have passed. */
  lemma LoopOnlyWhenWanted(w: Ws, now: uint32, streamConnected: bool, probeOk: bool)
    ensures LoopSpec(w, now, streamConnected, probeOk).0 ==>
      w.needReconnect && !w.connecting && Sub32(now, w.lastTry) > CooldownMs
    ensures !LoopSpec(w, now, streamConnected, probeOk).0 ==> LoopSpec(w, now, streamConnected, probeOk).2 == w
  {
  }

  /** A disconnect or error after `begin` has succeeded clears the attempt and asks for a retry;
      the connect event is the one that opens the other sockets. */
  lemma CallbackEvents(w: Ws, t: WsEvent)
    requires w.registered
    ensures WsCbSpec(w, t).0 <==> t == Connected
    ensures t == Disconnected || t == Error ==>
      var w1 := WsCbSpec(w, t).1; !w1.busy && !w1.connecting && w1.needReconnect
  {
  }

  /** A full send queue drops the frame and starts the back-off; nothing else changes. */
  lemma SendFrameOutcome(w: Ws, now: uint32, backoffMs: uint32, streamConnected: bool, sendOk: bool)
    ensures var r := SendFrameSpec(w, now, backoffMs, streamConnected, sendOk);
      r.0 <==> streamConnected && sendOk
    ensures var r := SendFrameSpec(w, now, backoffMs, streamConnected, sendOk);
      r.1 == (if streamConnected && !sendOk then w.(nextOkAfter := Add32(now, backoffMs)) else w)
  {
  }
}
