/**
  `UdpAgent.cpp`: each JPEG frame goes out as one datagram. `begin` sets the destination and
  opens the socket, `sendFrame` sends only when ready and after the back-off time, counts
  consecutive failures and asks Wi-Fi to reconnect at the tenth. The socket, the Wi-Fi status
  and the clock are parameters.
*/
module UdpLink {
  import opened Common

  /** The fields of `UdpAgent`; `dst` is the parsed destination address, if one was accepted. */
  datatype Udp = Udp(dst: Option<string>, dport: uint16, begun: bool, consecFail: nat, nextOkAfter: uint32)

  /** Consecutive failed sends after which Wi-Fi is asked to reconnect. */
  const FailLimit: nat := 10

  /** `begin(host, port)`: `hostValid` is whether `host` parses as an address, `socketOk` whether
      the socket opens. */
  function BeginSpec(u: Udp, host: string, port: uint16, hostValid: bool, socketOk: bool): (bool, Udp)
  {
    if !hostValid then (false, u)
    else
      var u1 := u.(dst := Some(host), dport := port);
      if !socketOk then (false, u1)
      else (true, u1.(begun := true, consecFail := 0, nextOkAfter := 0))
  }

  /** What the socket answers while one datagram is sent: whether `beginPacket` succeeded, how
      many bytes `write` took, and whether `endPacket` succeeded. */
  datatype SocketSteps = SocketSteps(beginOk: bool, written: nat, endOk: bool)

  /** `sendOne(data, len)`: the datagram went out when the packet could be started, all `len`
      bytes were written and the packet was sent. */
  function SendOne(io: SocketSteps, len: nat): bool
  {
    io.beginOk && io.endOk && io.written == len
  }

  /** One failed send on the failure counter: the new count and whether to reconnect. */
  function FailStep(consecFail: nat): (nat, bool)
  {
    var n := consecFail + 1;
    if n >= FailLimit then (0, true) else (n, false)
  }

  /** `sendFrame(buf, len, backoffMs)`: whether the frame went out, whether `WiFi.reconnect()` was
      called, and the new fields. `wifiUp` is `WiFi.status() == WL_CONNECTED`, and `io` what the
      socket answers if `sendOne` is reached. */
  function SendFrameSpec(u: Udp, now: uint32, backoffMs: uint32, wifiUp: bool, len: nat, io: SocketSteps): (bool, bool, Udp)
  {
    if !(u.begun && wifiUp) then (false, false, u)
    else if now < u.nextOkAfter then (false, false, u)
    else if !SendOne(io, len) then
      var f := FailStep(u.consecFail);
      (false, f.1, u.(consecFail := f.0, nextOkAfter := Add32(now, backoffMs)))
    else
      (true, false, u.(consecFail := 0, nextOkAfter := if backoffMs != 0 then Add32(now, backoffMs) else u.nextOkAfter))
  }

  class UdpAgent {
    var dst: Option<string>
    var dport: uint16
    var begun: bool
    var consecFail: nat
    var nextOkAfter: uint32

    function State(): Udp
      reads this
    {
      Udp(dst, dport, begun, consecFail, nextOkAfter)
    }

    constructor ()
      ensures State() == Udp(None, 0, false, 0, 0)
    {
      dst, dport, begun, consecFail, nextOkAfter := None, 0, false, 0, 0;
    }

    /** `begin(host, port)`. */
    method Begin(host: string, port: uint16, hostValid: bool, socketOk: bool) returns (ok: bool)
      modifies this
      ensures (ok, State()) == BeginSpec(old(State()), host, port, hostValid, socketOk)
    {
      if !hostValid {
        return false;
      }
      dst := Some(host);
      dport := port;
      if !socketOk {
        return false;
      }
      begun := true;
      consecFail := 0;
      nextOkAfter := 0;
      return true;
    }

    /** `ready()`. */
    function Ready(wifiUp: bool): bool
      reads this
    {
      begun && wifiUp
    }

    /** `sendFrame(buf, len, backoffMs)`; `reconnect` tells whether `WiFi.reconnect()` was called. */
    method SendFrame(now: uint32, backoffMs: uint32, wifiUp: bool, len: nat, io: SocketSteps)
      returns (ok: bool, reconnect: bool)
      modifies this
      ensures (ok, reconnect, State()) == SendFrameSpec(old(State()), now, backoffMs, wifiUp, len, io)
    {
      reconnect := false;
      if !Ready(wifiUp) {
        return false, false;
      }
      if now < nextOkAfter {
        return false, false;
      }
      var sent := SendOne(io, len);
      if !sent {
        consecFail := consecFail + 1;
        if consecFail >= FailLimit {
          reconnect := true;
          consecFail := 0;
        }
        nextOkAfter := Add32(now, backoffMs);
        return false, reconnect;
      }
      consecFail := 0;
      if backoffMs != 0 {
        nextOkAfter := Add32(now, backoffMs);
      }
      return true, false;
    }
  }
}
