/** What the UDP agent's operations guarantee. */
module UdpLinkProps {
  import opened Common
  import opened UdpLink

  /** A frame counts as sent only if the whole frame went out in one datagram: the packet began,
      the socket took all `len` bytes and the packet ended. A short write is a failed send: it
      counts one more failure and starts the back-off. */
  lemma SendOneAllSteps(u: Udp, now: uint32, backoffMs: uint32, wifiUp: bool, len: nat, io: SocketSteps)
    ensures SendFrameSpec(u, now, backoffMs, wifiUp, len, io).0 ==> io.beginOk && io.endOk && io.written == len
    ensures u.begun && wifiUp && now >= u.nextOkAfter && io.written != len ==>
      var r := SendFrameSpec(u, now, backoffMs, wifiUp, len, io);
      !r.0 && r.1 == FailStep(u.consecFail).1
      && r.2 == u.(consecFail := FailStep(u.consecFail).0, nextOkAfter := Add32(now, backoffMs))
  {
  }

  /** The failure counter stays below ten. */
  lemma FailBound(u: Udp, now: uint32, backoffMs: uint32, wifiUp: bool, len: nat, io: SocketSteps,
                  host: string, port: uint16, hostValid: bool, socketOk: bool)
    requires u.consecFail < FailLimit
    ensures SendFrameSpec(u, now, backoffMs, wifiUp, len, io).2.consecFail < FailLimit
    ensures BeginSpec(u, host, port, hostValid, socketOk).1.consecFail < FailLimit
  {
  }

  /** The counter after `k` failed sends in a row, and how many reconnects they asked for. */
  function FailRun(consecFail: nat, k: nat): (nat, nat)
    decreases k
  {
    if k == 0 then (consecFail, 0)
    else
      var f := FailStep(consecFail);
      var r := FailRun(f.0, k - 1);
      (r.0, r.1 + (if f.1 then 1 else 0))
  }

  /** From a count below ten, `k` failures in a row leave the count at `(c + k) % 10` and ask
      for a reconnect once every ten failures. */
  lemma {:induction false} FailRunCounts(c: nat, k: nat)
    requires c < FailLimit
    ensures FailRun(c, k) == ((c + k) % FailLimit, (c + k) / FailLimit)
    decreases k
  {
    if k > 0 {
      var f := FailStep(c);
      FailRunCounts(f.0, k - 1);
      if c + 1 == FailLimit {
        assert (c + k) % FailLimit == (k - 1) % FailLimit;
        assert (c + k) / FailLimit == (k - 1) / FailLimit + 1;
      }
    }
  }

  /** A frame goes out only when the agent is ready, the back-off time has come and every step
      of the datagram succeeded; a successful send clears the failure count. */
  lemma SendGate(u: Udp, now: uint32, backoffMs: uint32, wifiUp: bool, len: nat, io: SocketSteps)
    ensures var r := SendFrameSpec(u, now, backoffMs, wifiUp, len, io);
      r.0 <==> u.begun && wifiUp && now >= u.nextOkAfter && io.beginOk && io.endOk && io.written == len
    ensures var r := SendFrameSpec(u, now, backoffMs, wifiUp, len, io);
      r.0 ==> r.2.consecFail == 0 && !r.1
  {
  }

  /** A refused send (not ready, or still backing off) changes nothing; a failed one starts the
      back-off at `now + backoffMs`. */
  lemma SendRefusedOrFailed(u: Udp, now: uint32, backoffMs: uint32, wifiUp: bool, len: nat, io: SocketSteps)
    ensures !(u.begun && wifiUp && now >= u.nextOkAfter) ==>
      SendFrameSpec(u, now, backoffMs, wifiUp, len, io) == (false, false, u)
    ensures u.begun && wifiUp && now >= u.nextOkAfter && !SendOne(io, len) ==>
      SendFrameSpec(u, now, backoffMs, wifiUp, len, io).2.nextOkAfter == Add32(now, backoffMs)
  {
  }

  /** `begin` fails on an unparsable host without touching anything; once the host parses the
      destination is taken even if the socket then fails, and a successful `begin` resets the
      failure count and the back-off. */
  lemma BeginOutcome(u: Udp, host: string, port: uint16, hostValid: bool, socketOk: bool)
    ensures var r := BeginSpec(u, host, port, hostValid, socketOk);
      r.0 <==> hostValid && socketOk
    ensures !hostValid ==> BeginSpec(u, host, port, hostValid, socketOk).1 == u
    ensures hostValid ==> var u1 := BeginSpec(u, host, port, hostValid, socketOk).1;
      u1.dst == Some(host) && u1.dport == port && u1.begun == (u.begun || socketOk)
    ensures hostValid && socketOk ==> var u1 := BeginSpec(u, host, port, hostValid, socketOk).1;
      u1.consecFail == 0 && u1.nextOkAfter == 0
  {
  }
}
