/**
  Properties of the BLE credential parser and of the advertising timer.
*/
module BleLinkProps {
  import opened Common
  import opened BleLink

  /** Text without NUL passes through `c_str()` whole. */
  lemma {:induction false} CStringWhole(s: string)
    requires Nul !in s
    ensures CString(s) == s
    decreases |s|
  {
    if s != [] {
      CStringWhole(s[1 ..]);
      assert s == [s[0]] + s[1 ..];
    }
  }

  /** `indexOf` finds the first occurrence at or after `from`. */
  lemma {:induction false} IndexOfAt(v: string, c: char, from: nat, r: nat)
    requires from <= r < |v| && v[r] == c
    requires forall j :: from <= j < r ==> v[j] != c
    ensures IndexOf(v, c, from) == r
    decreases r - from
  {
    if from < r {
      IndexOfAt(v, c, from + 1, r);
    }
  }

  /** Reading one more digit multiplies by ten and adds it. */
  lemma {:induction false} DigitsAppend(s: string, d: char, acc: nat)
    requires forall k :: 0 <= k < |s| ==> IsDigit(s[k])
    requires IsDigit(d)
    ensures DigitsValue(s + [d], acc) == DigitsValue(s, acc) * 10 + (d as int - '0' as int)
    decreases |s|
  {
    if s == [] {
      assert DigitsValue([d][1 ..], acc * 10 + (d as int - '0' as int)) == acc * 10 + (d as int - '0' as int);
    } else {
      assert (s + [d])[1 ..] == s[1 ..] + [d];
      DigitsAppend(s[1 ..], d, acc * 10 + (s[0] as int - '0' as int));
    }
  }

  /** The decimal digits of `n` read back as `n`. */
  lemma {:induction false} DecimalValue(n: nat)
    ensures DigitsValue(Decimal(n), 0) == n
  {
    if n >= 10 {
      DecimalValue(n / 10);
      DigitsAppend(Decimal(n / 10), ('0' as int + n % 10) as char, 0);
    }
  }

  /** `toInt` of a port number written in decimal gives the port back. */
  lemma AtolDecimal(port: uint16)
    ensures Atol(Decimal(port)) % 0x1_0000 == port
  {
    DecimalValue(port);
    var s := Decimal(port);
    assert IsDigit(s[0]);
  }

  /** Where the three texts, the `|` and the port digits sit in `Format(c)`. */
  lemma FormatLayout(c: Creds)
    ensures var v := Format(c);
      var p1, p2, p3 := |c.ssid|, |c.ssid| + 1 + |c.psk|, |c.ssid| + 1 + |c.psk| + 1 + |c.ip|;
      p3 < |v| && v[p1] == Bar && v[p2] == Bar && v[p3] == Bar
      && v[.. p1] == c.ssid && v[p1 + 1 .. p2] == c.psk && v[p2 + 1 .. p3] == c.ip
      && v[p3 + 1 ..] == Decimal(c.port)
  {
  }

  /** `indexOf` from inside `a` finds the `c` written right after `a` when `a` has none left. */
  lemma IndexOfAfter(a: string, b: string, c: char, from: nat)
    requires from <= |a| && c !in a[from ..]
    ensures IndexOf(a + [c] + b, c, from) == |a|
  {
    var v := a + [c] + b;
    forall j | from <= j < |a| ensures v[j] != c {
      assert v[j] == a[from ..][j - from];
    }
    IndexOfAt(v, c, from, |a|);
  }

  /** The three `|` of `Format(c)` are found where they were written. */
  lemma BarsOfFormat(c: Creds)
    requires Bar !in c.ssid && Bar !in c.psk && Bar !in c.ip
    ensures BarPositions(Format(c))
         == Some((|c.ssid|, |c.ssid| + 1 + |c.psk|, |c.ssid| + 1 + |c.psk| + 1 + |c.ip|))
  {
    FirstBar(c);
    SecondBar(c);
    ThirdBar(c);
  }

  lemma FirstBar(c: Creds)
    requires Bar !in c.ssid
    ensures IndexOf(Format(c), Bar, 0) == |c.ssid|
  {
    var rest := c.psk + [Bar] + c.ip + [Bar] + Decimal(c.port);
    assert Format(c) == c.ssid + [Bar] + rest;
    assert c.ssid[0 ..] == c.ssid;
    IndexOfAfter(c.ssid, rest, Bar, 0);
  }

  lemma SecondBar(c: Creds)
    requires Bar !in c.psk
    ensures IndexOf(Format(c), Bar, |c.ssid| + 1) == |c.ssid| + 1 + |c.psk|
  {
    var a := c.ssid + [Bar] + c.psk;
    var rest := c.ip + [Bar] + Decimal(c.port);
    assert Format(c) == a + [Bar] + rest;
    assert a[|c.ssid| + 1 ..] == c.psk;
    IndexOfAfter(a, rest, Bar, |c.ssid| + 1);
  }

  lemma ThirdBar(c: Creds)
    requires Bar !in c.ip
    ensures IndexOf(Format(c), Bar, |c.ssid| + 1 + |c.psk| + 1) == |c.ssid| + 1 + |c.psk| + 1 + |c.ip|
  {
    var a := c.ssid + [Bar] + c.psk + [Bar] + c.ip;
    var rest := Decimal(c.port);
    assert Format(c) == a + [Bar] + rest;
    assert a[|c.ssid| + 1 + |c.psk| + 1 ..] == c.ip;
    IndexOfAfter(a, rest, Bar, |c.ssid| + 1 + |c.psk| + 1);
  }

  /** No NUL in the three texts means no NUL in what the phone writes. */
  lemma FormatNoNul(c: Creds)
    requires Nul !in c.ssid && Nul !in c.psk && Nul !in c.ip
    ensures Nul !in Format(c)
  {
    var d := Decimal(c.port);
    assert Nul !in d by {
      forall k | 0 <= k < |d| ensures d[k] != Nul { assert IsDigit(d[k]); }
    }
    assert Format(c) == c.ssid + [Bar] + c.psk + [Bar] + c.ip + [Bar] + d;
  }

  /** `onWrite` cuts the text at the `|` that `BarPositions` finds. */
  lemma ParseAt(v: string, p1: nat, p2: nat, p3: nat)
    requires BarPositions(v) == Some((p1, p2, p3))
    ensures ParseFields(v) == Some(Creds(v[.. p1], v[p1 + 1 .. p2], v[p2 + 1 .. p3], Atol(v[p3 + 1 ..]) % 0x1_0000))
  {
  }

  /** A phone that writes `ssid|psk|ip|port`, with no `|` and no NUL in the three texts, gets
      exactly those credentials to the callback. */
  lemma FormatParse(c: Creds)
    requires Bar !in c.ssid && Bar !in c.psk && Bar !in c.ip
    requires Nul !in c.ssid && Nul !in c.psk && Nul !in c.ip
    ensures ParseCreds(Format(c)) == Some(c)
  {
    FormatNoNul(c);
    CStringWhole(Format(c));
    FormatParseFields(c);
  }

  lemma FormatParseFields(c: Creds)
    requires Bar !in c.ssid && Bar !in c.psk && Bar !in c.ip
    ensures ParseFields(Format(c)) == Some(c)
  {
    var v := Format(c);
    var p1, p2, p3 := |c.ssid|, |c.ssid| + 1 + |c.psk|, |c.ssid| + 1 + |c.psk| + 1 + |c.ip|;
    BarsOfFormat(c);
    FormatLayout(c);
    ParseAt(v, p1, p2, p3);
    assert v[p3 + 1 ..] == Decimal(c.port);
    AtolDecimal(c.port);
    assert Creds(v[.. p1], v[p1 + 1 .. p2], v[p2 + 1 .. p3], Atol(v[p3 + 1 ..]) % 0x1_0000) == c;
  }

  /** A text cut at three positions, each holding a `|`. */
  lemma CutAt(v: string, p1: nat, p2: nat, p3: nat)
    requires p1 < p2 < p3 < |v| && v[p1] == Bar && v[p2] == Bar && v[p3] == Bar
    ensures v == v[.. p1] + [Bar] + v[p1 + 1 .. p2] + [Bar] + v[p2 + 1 .. p3] + [Bar] + v[p3 + 1 ..]
  {
  }

  /** On success the text is `ssid|psk|ip|rest`: the three texts contain no `|` and the port is
      `rest` read by `toInt` and truncated to 16 bits. */
  lemma ParseShape(v: string)
    requires ParseFields(v).Some?
    ensures var c := ParseFields(v).value;
      var n := |c.ssid| + |c.psk| + |c.ip| + 3;
      Bar !in c.ssid && Bar !in c.psk && Bar !in c.ip
      && n <= |v| && v == c.ssid + [Bar] + c.psk + [Bar] + c.ip + [Bar] + v[n ..]
      && c.port == Atol(v[n ..]) % 0x1_0000
  {
    var p1 := IndexOf(v, Bar, 0);
    var p2 := IndexOf(v, Bar, p1 + 1);
    var p3 := IndexOf(v, Bar, p2 + 1);
    assert BarPositions(v) == Some((p1, p2, p3));
    ParseAt(v, p1, p2, p3);
    CutAt(v, p1, p2, p3);
    NoneBefore(v, Bar, 0, p1);
    assert v[0 .. p1] == v[.. p1];
    NoneBefore(v, Bar, p1 + 1, p2);
    NoneBefore(v, Bar, p2 + 1, p3);
  }

  /** Between `from` and the position `indexOf` finds, there is no `c`. */
  lemma NoneBefore(v: string, c: char, from: nat, r: nat)
    requires IndexOf(v, c, from) == r
    ensures from <= r <= |v| && c !in v[from .. r]
  {
    forall j | 0 <= j < r - from ensures v[from .. r][j] != c {
      assert v[from .. r][j] == v[from + j];
    }
  }

  /** What `indexOf` says about how many `c` follow `from`. */
  lemma IndexOfCount(v: string, c: char, from: nat)
    requires from <= |v|
    ensures var r := IndexOf(v, c, from);
      (r == -1 ==> multiset(v[from ..])[c] == 0)
      && (r >= 0 ==> multiset(v[from ..])[c] == 1 + multiset(v[r + 1 ..])[c])
  {
    var r := IndexOf(v, c, from);
    if r == -1 {
      assert c !in v[from ..];
    } else {
      assert v[from ..] == v[from .. r] + [c] + v[r + 1 ..];
      assert c !in v[from .. r];
    }
  }

  /** A text is refused exactly when it has fewer than three `|`. */
  lemma ParseRefuses(v: string)
    ensures ParseFields(v).None? <==> multiset(v)[Bar] < 3
  {
    assert v[0 ..] == v;
    var p1 := IndexOf(v, Bar, 0);
    IndexOfCount(v, Bar, 0);
    if p1 >= 0 {
      var p2 := IndexOf(v, Bar, p1 + 1);
      IndexOfCount(v, Bar, p1 + 1);
      if p2 >= 0 {
        IndexOfCount(v, Bar, p2 + 1);
      }
    }
  }

  /** While nobody connects, advertising restarts no sooner than 10 s after the last restart;
      while a central is connected it never restarts. */
  lemma LoopSpacing(b: Ble, now: uint32, later: uint32)
    requires LoopSpec(b, now).0 && Sub32(later, now) < AdvTimeoutMs
    ensures !LoopSpec(LoopSpec(b, now).1, later).0
    ensures !b.connected && Sub32(now, b.t0) >= AdvTimeoutMs
  {
  }
}
