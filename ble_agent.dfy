/**
  `BleAgent.cpp`: the credentials a phone writes over BLE as `ssid|psk|ip|port`, parsed with
  Arduino `String` operations (`indexOf`, `substring`, `toInt`), and the advertising timer that
  restarts advertising every 10 s while nobody is connected. The NimBLE stack is not modelled;
  its callbacks are the methods of `BleAgent`, and time is a parameter.
*/
module BleLink {
  import opened Common

  /** `BleAgent::Creds`. */
  datatype Creds = Creds(ssid: string, psk: string, ip: string, port: uint16)

  const Bar: char := '|'
  const Nul: char := 0 as char

  /** The text `String v = value.c_str()` holds: the written bytes up to the first NUL. */
  function CString(raw: string): (v: string)
    ensures v <= raw && Nul !in v
    ensures |v| < |raw| ==> raw[|v|] == Nul
  {
    if raw == [] || raw[0] == Nul then [] else [raw[0]] + CString(raw[1 ..])
  }

  /** `String::indexOf(c, from)`: the first position at or after `from` holding `c`, or -1. */
  function IndexOf(v: string, c: char, from: nat): (r: int)
    ensures r == -1 || from <= r < |v|
    ensures r == -1 ==> forall j :: from <= j < |v| ==> v[j] != c
    ensures r >= 0 ==> v[r] == c && forall j :: from <= j < r ==> v[j] != c
    decreases |v| - from
  {
    if from >= |v| then -1
    else if v[from] == c then from
    else IndexOf(v, c, from + 1)
  }

  /** Whitespace as C's `isspace` knows it. */
  predicate IsSpace(c: char)
  {
    c == ' ' || c == '\t' || c == '\n' || c == '\r' || c == 11 as char || c == 12 as char
  }

  predicate IsDigit(c: char)
  {
    '0' <= c <= '9'
  }

  /** The value of the leading decimal digits of `s`, unbounded, read left to right into `acc`. */
  function DigitsValue(s: string, acc: nat): nat
    decreases |s|
  {
    if s == [] || !IsDigit(s[0]) then acc
    else DigitsValue(s[1 ..], acc * 10 + (s[0] as int - '0' as int))
  }

  const LongMax: int := 0x7FFF_FFFF
  const LongMin: int := -0x8000_0000

  /** `atol` (which `String::toInt` calls) with a 32-bit `long`: leading whitespace, an optional
      sign, decimal digits; a value out of range is clamped as `strtol` clamps it. */
  function Atol(s: string): (r: int)
    ensures LongMin <= r <= LongMax
    decreases |s|
  {
    if s != [] && IsSpace(s[0]) then Atol(s[1 ..])
    else
      var neg := s != [] && s[0] == '-';
      var digits := if s != [] && (s[0] == '-' || s[0] == '+') then s[1 ..] else s;
      var v: int := DigitsValue(digits, 0);
      if neg then (if -v < LongMin then LongMin else -v)
      else (if v > LongMax then LongMax else v)
  }

  /** The positions of the three `|` that `onWrite` looks for with `indexOf`, each searched from
      just after the previous one, or `None` when one is missing. */
  function BarPositions(v: string): (r: Option<(nat, nat, nat)>)
    ensures r.Some? ==> r.value.0 < r.value.1 < r.value.2 < |v|
  {
    var p1 := IndexOf(v, Bar, 0);
    var p2 := IndexOf(v, Bar, p1 + 1);
    var p3 := IndexOf(v, Bar, p2 + 1);
    if p1 < 0 || p2 < 0 || p3 < 0 then None else Some((p1, p2, p3))
  }

  /** The fields `onWrite` cuts out of the text `v`, or `None` when `v` has fewer than three
      `|`. The port is the `long` from `toInt` truncated to `uint16_t`. */
  function ParseFields(v: string): Option<Creds>
  {
    match BarPositions(v)
    case None => None
    case Some((p1, p2, p3)) =>
      Some(Creds(v[.. p1], v[p1 + 1 .. p2], v[p2 + 1 .. p3], Atol(v[p3 + 1 ..]) % 0x1_0000))
  }

  /** `CharCB::onWrite` up to the callback: the credentials it hands to the callback, or `None`
      when it is not called. */
  function ParseCreds(raw: string): Option<Creds>
  {
    ParseFields(CString(raw))
  }

  /** The decimal digits of `n`, most significant first, without leading zeros. */
  function Decimal(n: nat): (s: string)
    ensures s != [] && forall k :: 0 <= k < |s| ==> IsDigit(s[k])
  {
    if n < 10 then [('0' as int + n) as char]
    else Decimal(n / 10) + [('0' as int + n % 10) as char]
  }

  /** What a phone writes for `c`. */
  function Format(c: Creds): string
  {
    c.ssid + [Bar] + c.psk + [Bar] + c.ip + [Bar] + Decimal(c.port)
  }

  /** The state `BleAgent` keeps: the time of the last (re)start of advertising, whether a central
      is connected, and whether advertising runs. */
  datatype Ble = Ble(t0: uint32, connected: bool, advertising: bool)

  /** Advertising restarts after this long without a connection. */
  const AdvTimeoutMs: uint32 := 10000

  /** `loop()`: whether advertising is restarted, and the new state. */
  function LoopSpec(b: Ble, now: uint32): (bool, Ble)
  {
    if !b.connected && Sub32(now, b.t0) >= AdvTimeoutMs then (true, b.(t0 := now, advertising := true))
    else (false, b)
  }

  class BleAgent {
    var t0: uint32
    var connected: bool
    var advertising: bool

    function State(): Ble
      reads this
    {
      Ble(t0, connected, advertising)
    }

    /** The members' initial values. */
    constructor ()
      ensures State() == Ble(0, false, false)
    {
      t0 := 0;
      connected := false;
      advertising := false;
    }

    /** `begin(cb)` after the NimBLE set-up: advertising starts and its timer starts at `now`. */
    method Begin(now: uint32)
      modifies this
      ensures State() == old(State()).(t0 := now, advertising := true)
    {
      advertising := true;
      t0 := now;
    }

    /** `ServerCB::onConnect`. */
    method OnConnect()
      modifies this
      ensures State() == old(State()).(connected := true)
    {
      connected := true;
    }

    /** `ServerCB::onDisconnect`. */
    method OnDisconnect()
      modifies this
      ensures State() == old(State()).(connected := false)
    {
      connected := false;
    }

    /** `loop()`, with `restartAdvertise()` inlined; `restarted` tells whether it ran. */
    method Loop(now: uint32) returns (restarted: bool)
      modifies this
      ensures (restarted, State()) == LoopSpec(old(State()), now)
    {
      restarted := false;
      if !connected && Sub32(now, t0) >= AdvTimeoutMs {
        advertising := true;
        t0 := now;
        restarted := true;
      }
    }

    /** `stop()`: advertising stops. */
    method Stop()
      modifies this
      ensures State() == old(State()).(advertising := false)
    {
      advertising := false;
    }

    /** `CharCB::onWrite`: the argument of the one call of the credentials callback, or `None`
        when the callback is not called. */
    method OnWrite(raw: string) returns (delivered: Option<Creds>)
      ensures delivered == ParseCreds(raw)
    {
      delivered := ParseCreds(raw);
    }
  }
}
