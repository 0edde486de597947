/**
  The debouncer of `Buttons.h`: up to eight buttons, each a record of its pin, the level seen at
  the last scan and a latched rising-edge flag. Scans happen at most once every 20 ms; reading
  the rising flag clears it. Pin levels and the millisecond clock are parameters.
*/
module Debounce {
  import opened Common

  /** Minimum time between two scans. */
  const DebounceMs: uint32 := 20
  /** Size of the record array. */
  const MaxBtn: nat := 8

  /** One button: its pin, the level of the last scan, and whether a LOW to HIGH change has been
      seen since the flag was last read. */
  datatype Info = Info(pin: uint8, prev: bool, rise: bool)

  /** The first of the records `from .. cnt` that belongs to `pin`, as the lookup loops of
      `rising`, `falling` and `pressed` find it. */
  function FindFrom(s: seq<Info>, cnt: nat, pin: uint8, from: nat): (r: Option<nat>)
    requires cnt <= |s|
    ensures r.Some? ==> from <= r.value < cnt && s[r.value].pin == pin
                        && forall j :: from <= j < r.value ==> s[j].pin != pin
    ensures r.None? ==> forall j :: from <= j < cnt ==> s[j].pin != pin
    decreases cnt - from
  {
    if from >= cnt then None
    else if s[from].pin == pin then Some(from)
    else FindFrom(s, cnt, pin, from + 1)
  }

  /** The record of `pin` among the first `cnt`, if it is registered. */
  function Find(s: seq<Info>, cnt: nat, pin: uint8): Option<nat>
    requires cnt <= |s|
  {
    FindFrom(s, cnt, pin, 0)
  }

  /** One scan of one button at pin level `level`. */
  function Sample(b: Info, level: bool): Info
  {
    Info(b.pin, level, b.rise || (!b.prev && level))
  }

  /** A scan of the first `cnt` records, each at the level its pin reads. */
  function ScanAll(s: seq<Info>, cnt: nat, level: uint8 -> bool): (r: seq<Info>)
    requires cnt <= |s|
    ensures |r| == |s|
  {
    seq(|s|, i requires 0 <= i < |s| => if i < cnt then Sample(s[i], level(s[i].pin)) else s[i])
  }

  /** `pressed(pin)`: the level of the pin's record at the last scan, false if it is not registered. */
  function Level(s: seq<Info>, cnt: nat, pin: uint8): bool
    requires cnt <= |s|
  {
    match Find(s, cnt, pin)
    case None => false
    case Some(i) => s[i].prev
  }

  /** `rising(pin)`: the flag of the pin's record, and the records with that flag cleared. */
  function TakeRise(s: seq<Info>, cnt: nat, pin: uint8): (bool, seq<Info>)
    requires cnt <= |s|
  {
    match Find(s, cnt, pin)
    case None => (false, s)
    case Some(i) => (s[i].rise, s[i := s[i].(rise := false)])
  }

  /** The lookup depends on the pins of the records only. */
  lemma {:induction false} FindSamePins(s: seq<Info>, t: seq<Info>, cnt: nat, pin: uint8, from: nat)
    requires cnt <= |s| == |t|
    requires forall j :: 0 <= j < cnt ==> s[j].pin == t[j].pin
    ensures FindFrom(s, cnt, pin, from) == FindFrom(t, cnt, pin, from)
    decreases cnt - from
  {
    if from < cnt {
      FindSamePins(s, t, cnt, pin, from + 1);
    }
  }

  /** `rising` clears what it reports: a second call right after the first returns false and
      changes nothing. */
  lemma RisingReadClears(s: seq<Info>, cnt: nat, pin: uint8)
    requires cnt <= |s|
    ensures var t := TakeRise(s, cnt, pin).1;
      |t| == |s| && TakeRise(t, cnt, pin) == (false, t)
  {
    var t := TakeRise(s, cnt, pin).1;
    FindSamePins(s, t, cnt, pin, 0);
    if Find(s, cnt, pin).Some? {
      var i := Find(s, cnt, pin).value;
      assert t[i := t[i].(rise := false)] == t;
    }
  }

  /** A scan that sees the pin of a registered button go from LOW to HIGH makes the next
      `rising` of that pin return true. */
  lemma ScanThenRising(s: seq<Info>, cnt: nat, pin: uint8, level: uint8 -> bool)
    requires cnt <= |s| && Find(s, cnt, pin).Some?
    requires !s[Find(s, cnt, pin).value].prev && level(pin)
    ensures TakeRise(ScanAll(s, cnt, level), cnt, pin).0
  {
    var t := ScanAll(s, cnt, level);
    assert forall j :: 0 <= j < cnt ==> t[j] == Sample(s[j], level(s[j].pin));
    FindSamePins(s, t, cnt, pin, 0);
  }

  /** A button sampled at the levels `levels`, one scan after another. */
  function SampleRun(b: Info, levels: seq<bool>): Info
    decreases |levels|
  {
    if levels == [] then b else SampleRun(Sample(b, levels[0]), levels[1 ..])
  }

  /** Scan `k` of `levels` is a LOW to HIGH change; `p` is the level before the first scan. */
  predicate EdgeAt(p: bool, levels: seq<bool>, k: nat)
    requires k < |levels|
  {
    !(if k == 0 then p else levels[k - 1]) && levels[k]
  }

  /** Over any run of scans the rising flag ends set exactly when it was set before or some scan
      saw a LOW to HIGH change; a later HIGH to LOW scan does not clear it. The record ends with
      the level of the last scan and keeps its pin. */
  lemma {:induction false} SampleRunRise(b: Info, levels: seq<bool>)
    ensures SampleRun(b, levels).pin == b.pin
    ensures SampleRun(b, levels).prev == if levels == [] then b.prev else levels[|levels| - 1]
    ensures SampleRun(b, levels).rise <==>
              b.rise || exists k :: 0 <= k < |levels| && EdgeAt(b.prev, levels, k)
    decreases |levels|
  {
    if levels != [] {
      var b1 := Sample(b, levels[0]);
      var tail := levels[1 ..];
      SampleRunRise(b1, tail);
      if b1.rise && !b.rise {
        assert EdgeAt(b.prev, levels, 0);
      }
      if exists k :: 0 <= k < |tail| && EdgeAt(b1.prev, tail, k) {
        var k :| 0 <= k < |tail| && EdgeAt(b1.prev, tail, k);
        assert EdgeAt(b.prev, levels, k + 1);
      }
      if exists k :: 0 <= k < |levels| && EdgeAt(b.prev, levels, k) {
        var k :| 0 <= k < |levels| && EdgeAt(b.prev, levels, k);
        if k > 0 {
          assert EdgeAt(b1.prev, tail, k - 1);
        }
      }
    }
  }

  class Buttons {
    /** `_btn`: the records; only the first `cnt` are in use. */
    const btn: array<Info>
    var cnt: nat
    var lastScan: uint32

    ghost predicate Valid()
      reads this
    {
      btn.Length == MaxBtn && cnt <= MaxBtn
    }

    /** A fresh object: no buttons, last scan at time 0. */
    constructor ()
      ensures Valid() && fresh(btn) && cnt == 0 && lastScan == 0
    {
      btn := new Info[MaxBtn](_ => Info(0, false, false));
      cnt := 0;
      lastScan := 0;
    }

    /** `begin(pins, n)`: registers the first eight pins at most, each with the level it reads
        now and no rising edge; `now` becomes the time of the last scan. */
    method Begin(pins: seq<uint8>, level: uint8 -> bool, now: uint32)
      requires Valid()
      modifies this, btn
      ensures Valid() && cnt == Min(|pins|, MaxBtn) && lastScan == now
      ensures forall i :: 0 <= i < cnt ==> btn[i] == Info(pins[i], level(pins[i]), false)
      ensures forall i :: cnt <= i < MaxBtn ==> btn[i] == old(btn[i])
    {
      var n := if |pins| > MaxBtn then MaxBtn else |pins|;
      var i := 0;
      while i < n
        invariant i <= n
        invariant forall j :: 0 <= j < i ==> btn[j] == Info(pins[j], level(pins[j]), false)
        invariant forall j :: i <= j < MaxBtn ==> btn[j] == old(btn[j])
      {
        btn[i] := Info(pins[i], level(pins[i]), false);
        i := i + 1;
      }
      cnt := n;
      lastScan := now;
    }

    /** `update()`: within 20 ms of the last scan nothing happens; otherwise every registered
        button is sampled at the level its pin reads and `now` becomes the time of the last scan. */
    method Update(now: uint32, level: uint8 -> bool)
      requires Valid()
      modifies this`lastScan, btn
      ensures Valid()
      ensures Sub32(now, old(lastScan)) < DebounceMs ==> lastScan == old(lastScan) && btn[..] == old(btn[..])
      ensures Sub32(now, old(lastScan)) >= DebounceMs ==>
                lastScan == now && btn[..] == ScanAll(old(btn[..]), cnt, level)
    {
      if Sub32(now, lastScan) < DebounceMs {
        return;
      }
      lastScan := now;
      var i := 0;
      while i < cnt
        invariant i <= cnt && lastScan == now
        invariant forall j :: 0 <= j < i ==> btn[j] == Sample(old(btn[j]), level(old(btn[j]).pin))
        invariant forall j :: i <= j < MaxBtn ==> btn[j] == old(btn[j])
      {
        var now := level(btn[i].pin);
        var b := btn[i];
        if !b.prev && now {
          b := b.(rise := true);
        }
        btn[i] := b.(prev := now);
        i := i + 1;
      }
      assert btn[..] == ScanAll(old(btn[..]), cnt, level);
    }

    /** `rising(pin)`: the latched rising edge of `pin`, cleared by the read; false and no
        change for a pin that is not registered. */
    method Rising(pin: uint8) returns (r: bool)
      requires Valid()
      modifies btn
      ensures (r, btn[..]) == TakeRise(old(btn[..]), cnt, pin)
    {
      var i := 0;
      while i < cnt
        invariant i <= cnt
        invariant Find(btn[..], cnt, pin) == FindFrom(btn[..], cnt, pin, i)
      {
        if btn[i].pin == pin {
          r := btn[i].rise;
          btn[i] := btn[i].(rise := false);
          return;
        }
        i := i + 1;
      }
      return false;
    }

    /** `falling(pin)`: the pin was high at the last scan and reads low now; false for a pin that
        is not registered. Nothing changes. */
    method Falling(pin: uint8, levelNow: bool) returns (r: bool)
      requires Valid()
      ensures r <==> match Find(btn[..], cnt, pin)
                     case None => false
                     case Some(i) => btn[i].prev && !levelNow
    {
      var i := 0;
      while i < cnt
        invariant i <= cnt
        invariant Find(btn[..], cnt, pin) == FindFrom(btn[..], cnt, pin, i)
      {
        if btn[i].pin == pin {
          return btn[i].prev && !levelNow;
        }
        i := i + 1;
      }
      return false;
    }

    /** `pressed(pin)`: the level of `pin` at the last scan; false for a pin that is not
        registered. Nothing changes. */
    method Pressed(pin: uint8) returns (r: bool)
      requires Valid()
      ensures r == Level(btn[..], cnt, pin)
    {
      var i := 0;
      while i < cnt
        invariant i <= cnt
        invariant Find(btn[..], cnt, pin) == FindFrom(btn[..], cnt, pin, i)
      {
        if btn[i].pin == pin {
          return btn[i].prev;
        }
        i := i + 1;
      }
      return false;
    }
  }
}
