/**
  Properties of the JPEG marker walk of `rtp_jpeg.cpp`: what `read_be16` reads, where the EOI
  search stops, which table wins when a frame carries several, and the extraction of a small
  well-formed frame end to end.
*/
module JpegScanProps {
  import opened Common
  import opened RtpJpegTypes
  import opened JpegScan

  /** `read_be16` succeeds exactly when both bytes are in the buffer, and its high and low bytes
      are the two bytes read. */
  lemma ReadBe16Bytes(b: seq<uint8>, off: nat)
    ensures ReadBe16(b, off).Some? <==> off + 1 < |b|
    ensures ReadBe16(b, off).Some? ==>
              ReadBe16(b, off).value / 256 == b[off] && ReadBe16(b, off).value % 256 == b[off + 1]
  {
    if off + 1 < |b| {
      var v := ReadBe16(b, off).value;
      assert v == b[off] as int * 256 + b[off + 1];
      DivModByte(b[off], b[off + 1]);
    }
  }

  lemma DivModByte(hi: uint8, lo: uint8)
    ensures (hi as int * 256 + lo) / 256 == hi && (hi as int * 256 + lo) % 256 == lo
  {
  }

  /** Entropy-coded data as an encoder writes it: every 0xFF is followed by a stuffed 0x00 or is
      the first byte of an RSTn marker. */
  predicate Stuffed(d: seq<uint8>)
    decreases |d|
  {
    if d == [] then true
    else if d[0] != 0xFF then Stuffed(d[1..])
    else 2 <= |d| && IsScanPair(d[1]) && Stuffed(d[2..])
  }

  /** Over stuffed data followed by EOI, the search stops exactly at that EOI: no 0xFF 0xD9 is
      seen inside the data, and a stuffed or RST pair never hides the real end. */
  lemma {:induction false} FindEoiStuffed(b: seq<uint8>, s: nat, d: seq<uint8>)
    requires s + |d| + 2 <= |b|
    requires b[s .. s + |d|] == d && Stuffed(d)
    requires b[s + |d|] == 0xFF && b[s + |d| + 1] == 0xD9
    ensures FindEoi(b, s) == Some(s + |d|)
    decreases |d|
  {
    if d == [] {
    } else if d[0] != 0xFF {
      assert b[s] == d[0];
      assert b[s + 1 .. s + 1 + |d[1..]|] == d[1..];
      FindEoiStuffed(b, s + 1, d[1..]);
    } else {
      assert b[s] == d[0] && b[s + 1] == d[1];
      assert b[s + 2 .. s + 2 + |d[2..]|] == d[2..];
      FindEoiStuffed(b, s + 2, d[2..]);
    }
  }

  /** There is an SOS marker at `j`, and `s` is the end of its header: `j`, plus the two marker
      bytes, plus the segment length. */
  predicate SosHeaderEndsAt(b: seq<uint8>, j: nat, s: nat)
  {
    j + 4 <= |b| && b[j] == 0xFF && b[j + 1] == 0xDA
    && ReadBe16(b, j + 2).Some? && s == j + 2 + ReadBe16(b, j + 2).value
  }

  /** The scan the walk finds starts right after the header of an SOS segment at or after the
      walk's starting point, and ends right before an EOI marker inside the buffer. */
  lemma {:induction false} WalkScanEndsAtEoi(b: seq<uint8>, i: nat)
    ensures Walk(b, i).scan.Some? ==>
              var (s, n) := Walk(b, i).scan.value;
              i <= s && s + n + 2 <= |b| && b[s + n] == 0xFF && b[s + n + 1] == 0xD9
              && exists j :: i <= j && SosHeaderEndsAt(b, j, s)
    decreases |b| - i, 1
  {
    if i + 4 <= |b| {
      if b[i] != 0xFF {
        WalkScanEndsAtEoi(b, i + 1);
      } else {
        MarkerScanEndsAtEoi(b, i);
      }
    }
  }

  /** The same at a marker: the scan starts right after an SOS header at or after `i`. */
  lemma {:induction false} MarkerScanEndsAtEoi(b: seq<uint8>, i: nat)
    requires i + 4 <= |b| && b[i] == 0xFF
    ensures Marker(b, i).scan.Some? ==>
              var (s, n) := Marker(b, i).scan.value;
              i <= s && s + n + 2 <= |b| && b[s + n] == 0xFF && b[s + n + 1] == 0xD9
              && exists j :: i <= j && SosHeaderEndsAt(b, j, s)
    decreases |b| - i, 0
  {
    if b[i + 1] == 0xDA {
      if Marker(b, i).scan.Some? {
        assert SosHeaderEndsAt(b, i, Marker(b, i).scan.value.0);
      }
    } else if b[i + 1] == 0xDB {
      match DqtEnd(b, i)
      case None =>
      case Some(end) =>
        WalkScanEndsAtEoi(b, end);
    } else if b[i + 1] == 0xD8 || b[i + 1] == 0xD9 {
      WalkScanEndsAtEoi(b, i + 2);
    } else {
      match ReadBe16(b, i + 2)
      case None =>
      case Some(seglen) =>
        WalkScanEndsAtEoi(b, i + 2 + seglen);
    }
  }

  /** Reference definition of the table left for destination `id`: the one of the last sub-table
      with that id, or `dflt` when there is none. */
  function LastTable(subs: seq<Subtable>, id: nat, dflt: Table): Table
    decreases |subs|
  {
    if subs == [] then dflt
    else if subs[|subs| - 1].id == id then subs[|subs| - 1].table
    else LastTable(subs[.. |subs| - 1], id, dflt)
  }

  /** Copying the sub-tables in order leaves, in each slot, the last table copied for it: a later
      DQT overwrites an earlier one, and ids other than 0 and 1 change nothing. */
  lemma {:induction false} InstallAllLastWins(qt: Qtables, subs: seq<Subtable>)
    ensures InstallAll(qt, subs).lqt == LastTable(subs, 0, qt.lqt)
    ensures InstallAll(qt, subs).cqt == LastTable(subs, 1, qt.cqt)
    ensures InstallAll(qt, subs).have == qt.have
    decreases |subs|
  {
    if subs != [] {
      var n := |subs| - 1;
      var front := subs[.. n];
      assert subs == front + [subs[n]];
      InstallAllAppend(qt, front, [subs[n]]);
      InstallAllLastWins(qt, front);
      assert InstallAll(InstallAll(qt, front), [subs[n]]) == Install(InstallAll(qt, front), subs[n]);
    }
  }

  /** The k-th sub-table copied from a DQT segment is the 65-byte record at `p + 65 * k`: its
      destination id is the low nibble (Tq) of the record's Pq/Tq byte, hence below 16, and its
      table is the 64 bytes after that byte. */
  lemma {:induction false} DqtIdsBelow16(b: seq<uint8>, p: nat, end: nat)
    requires end <= |b|
    ensures forall k :: 0 <= k < |DqtSubtables(b, p, end).1| ==>
              p + 65 * k + 65 <= end
              && DqtSubtables(b, p, end).1[k] == Subtable(b[p + 65 * k] % 16, b[p + 65 * k + 1 .. p + 65 * k + 65])
              && DqtSubtables(b, p, end).1[k].id < 16
    decreases end - p
  {
    if p < end && b[p] / 16 == 0 && p + 1 + 64 <= end {
      DqtIdsBelow16(b, p + 65, end);
      var subs := DqtSubtables(b, p, end).1;
      var rest := DqtSubtables(b, p + 65, end).1;
      assert subs == [Subtable(b[p] % 16, b[p + 1 .. p + 65])] + rest;
      forall k | 1 <= k < |subs|
        ensures p + 65 * k + 65 <= end
        ensures subs[k] == Subtable(b[p + 65 * k] % 16, b[p + 65 * k + 1 .. p + 65 * k + 65])
      {
        assert subs[k] == rest[k - 1];
        assert (p + 65) + 65 * (k - 1) == p + 65 * k;
      }
    }
  }

  /** The sub-table loop of a DQT segment from `p` to `end` finishes without error exactly when
      the payload is a whole number of 65-byte records and each record's precision nibble (Pq) is
      0; it then copies one sub-table per record. A 16-bit table or a short record fails it. */
  lemma {:induction false} DqtSubtablesOk(b: seq<uint8>, p: nat, end: nat)
    requires p <= end <= |b|
    ensures DqtSubtables(b, p, end).0 <==>
              (end - p) % 65 == 0 && forall k :: 0 <= k < (end - p) / 65 ==> b[p + 65 * k] / 16 == 0
    ensures DqtSubtables(b, p, end).0 ==> |DqtSubtables(b, p, end).1| == (end - p) / 65
    decreases end - p
  {
    if p == end {
    } else if b[p] / 16 != 0 {
      if (end - p) % 65 == 0 {
        assert 0 < (end - p) / 65 && b[p + 65 * 0] / 16 != 0;
      }
    } else if p + 65 > end {
      assert (end - p) % 65 != 0;
    } else {
      DqtSubtablesOk(b, p + 65, end);
      var n := (end - p) / 65;
      assert (end - p) % 65 == (end - (p + 65)) % 65;
      assert (end - (p + 65)) / 65 == n - 1;
      forall k | 1 <= k < n
        ensures b[p + 65 * k] == b[(p + 65) + 65 * (k - 1)]
      {
      }
      var all := forall k :: 0 <= k < n ==> b[p + 65 * k] / 16 == 0;
      var rest := forall k :: 0 <= k < n - 1 ==> b[(p + 65) + 65 * k] / 16 == 0;
      if rest {
        forall k | 0 <= k < n
          ensures b[p + 65 * k] / 16 == 0
        {
          if k > 0 {
            assert b[(p + 65) + 65 * (k - 1)] / 16 == 0;
          }
        }
      }
      if all {
        forall k | 0 <= k < n - 1
          ensures b[(p + 65) + 65 * k] / 16 == 0
        {
          assert b[p + 65 * (k + 1)] / 16 == 0;
          assert p + 65 * (k + 1) == (p + 65) + 65 * k;
        }
      }
      assert all <==> rest;
    }
  }

  /** At a DQT marker whose segment lies inside the buffer and is not empty, a first record whose
      precision nibble is not 0 (a 16-bit table) makes the walk fail. */
  lemma DqtSixteenBitFails(b: seq<uint8>, i: nat)
    requires i + 5 <= |b| && b[i] == 0xFF && b[i + 1] == 0xDB
    requires DqtEnd(b, i).Some? && i + 4 < DqtEnd(b, i).value
    requires b[i + 4] / 16 != 0
    ensures Marker(b, i).scan.None?
  {
  }

  /** At a DQT marker whose segment lies inside the buffer, a 8-bit record that is cut short by
      the segment end makes the walk fail. */
  lemma DqtShortRecordFails(b: seq<uint8>, i: nat)
    requires i + 5 <= |b| && b[i] == 0xFF && b[i + 1] == 0xDB
    requires DqtEnd(b, i).Some? && i + 4 < DqtEnd(b, i).value < i + 69
    requires b[i + 4] / 16 == 0
    ensures Marker(b, i).scan.None?
  {
  }

  /** `have` is set exactly when extraction found the scan and the walk copied a table for both
      id 0 and id 1; after a valid SOI, the tables hold what the walk copied in order. */
  lemma HaveIff(b: seq<uint8>, qt0: Qtables)
    ensures Extract(b, qt0).qt.have <==>
              Extract(b, qt0).scan.Some? && HasId(Walk(b, 2).subs, 0) && HasId(Walk(b, 2).subs, 1)
    ensures 4 <= |b| && b[0] == 0xFF && b[1] == 0xD8 ==>
              Extract(b, qt0).scan == Walk(b, 2).scan
              && Extract(b, qt0).qt.lqt == InstallAll(qt0, Walk(b, 2).subs).lqt
              && Extract(b, qt0).qt.cqt == InstallAll(qt0, Walk(b, 2).subs).cqt
  {
    InstallAllLastWins(qt0, Walk(b, 2).subs);
    InstallAllLastWins(qt0.(have := false), Walk(b, 2).subs);
  }

  /** A minimal baseline frame: SOI, one DQT segment carrying table 0 and then table 1, an SOS
      segment with an empty header, the entropy-coded data `d`, and EOI. */
  function SampleFrame(l: Table, c: Table, d: seq<uint8>): (f: seq<uint8>)
    ensures |f| == 142 + |d|
  {
    [0xFF, 0xD8, 0xFF, 0xDB, 0, 132, 0] + l + [1] + c + [0xFF, 0xDA, 0, 2] + d + [0xFF, 0xD9]
  }

  /** Extraction of such a frame finds the scan at offset 140 with exactly the bytes of `d`, and
      both tables, whatever the caller's tables held before. */
  lemma ExtractSampleFrame(l: Table, c: Table, d: seq<uint8>, qt0: Qtables)
    requires Stuffed(d)
    ensures Extract(SampleFrame(l, c, d), qt0) == Extraction(Some((140, |d|)), Qtables(true, l, c))
    ensures SampleFrame(l, c, d)[140 .. 140 + |d|] == d
  {
    var f := SampleFrame(l, c, d);
    SampleFrameBytes(l, c, d);
    SampleWalk(f, l, c, d);
    SampleTables(qt0.(have := false), l, c);
  }

  lemma SampleWalk(f: seq<uint8>, l: Table, c: Table, d: seq<uint8>)
    requires Stuffed(d) && |f| == 142 + |d|
    requires f[.. 7] == [0xFF, 0xD8, 0xFF, 0xDB, 0, 132, 0] && f[7 .. 71] == l && f[71] == 1 && f[72 .. 136] == c
    requires f[136 .. 140] == [0xFF, 0xDA, 0, 2] && f[140 .. 140 + |d|] == d
    requires f[140 + |d|] == 0xFF && f[141 + |d|] == 0xD9
    ensures Walk(f, 2) == Walked(Some((140, |d|)), [Subtable(0, l), Subtable(1, c)])
  {
    assert f[2] == 0xFF && f[3] == 0xDB && f[4] == 0 && f[5] == 132 && f[6] == 0;
    SampleDqt(f, l, c);
    SampleSos(f, d);
    assert ReadBe16(f, 4) == Some(132);
    assert DqtEnd(f, 2) == Some(136);
    assert [Subtable(0, l), Subtable(1, c)] + [] == [Subtable(0, l), Subtable(1, c)];
  }

  lemma SampleFrameBytes(l: Table, c: Table, d: seq<uint8>)
    ensures var f := SampleFrame(l, c, d);
      f[.. 7] == [0xFF, 0xD8, 0xFF, 0xDB, 0, 132, 0] && f[7 .. 71] == l && f[71] == 1 && f[72 .. 136] == c
      && f[136 .. 140] == [0xFF, 0xDA, 0, 2] && f[140 .. 140 + |d|] == d
      && f[140 + |d|] == 0xFF && f[141 + |d|] == 0xD9
  {
    var f := SampleFrame(l, c, d);
    forall k | 0 <= k < 64
      ensures f[7 + k] == l[k] && f[72 + k] == c[k]
    {
    }
    forall k | 0 <= k < |d|
      ensures f[140 + k] == d[k]
    {
    }
    assert f[7 .. 71] == l;
    assert f[72 .. 136] == c;
    assert f[140 .. 140 + |d|] == d;
  }

  lemma SampleDqt(f: seq<uint8>, l: Table, c: Table)
    requires 136 <= |f| && f[6] == 0 && f[7 .. 71] == l && f[71] == 1 && f[72 .. 136] == c
    ensures DqtSubtables(f, 6, 136) == (true, [Subtable(0, l), Subtable(1, c)])
  {
    assert DqtSubtables(f, 136, 136) == (true, []);
    DqtSubtablesCons(f, 71, 136);
    assert [Subtable(1, c)] + [] == [Subtable(1, c)];
    assert DqtSubtables(f, 71, 136) == (true, [Subtable(1, c)]);
    DqtSubtablesCons(f, 6, 136);
    assert [Subtable(0, l)] + [Subtable(1, c)] == [Subtable(0, l), Subtable(1, c)];
  }

  lemma SampleSos(f: seq<uint8>, d: seq<uint8>)
    requires |f| == 142 + |d| && Stuffed(d)
    requires f[136 .. 140] == [0xFF, 0xDA, 0, 2] && f[140 .. 140 + |d|] == d
    requires f[140 + |d|] == 0xFF && f[141 + |d|] == 0xD9
    ensures Walk(f, 136) == Walked(Some((140, |d|)), [])
  {
    assert f[136] == 0xFF && f[137] == 0xDA && f[138] == 0 && f[139] == 2;
    assert ReadBe16(f, 138) == Some(2);
    FindEoiStuffed(f, 140, d);
    assert SosScan(f, 136) == Some((140, |d|));
  }

  lemma SampleTables(qt: Qtables, l: Table, c: Table)
    ensures InstallAll(qt, [Subtable(0, l), Subtable(1, c)]) == qt.(lqt := l, cqt := c)
    ensures HasId([Subtable(0, l), Subtable(1, c)], 0) && HasId([Subtable(0, l), Subtable(1, c)], 1)
  {
    var s0, s1 := Subtable(0, l), Subtable(1, c);
    assert [s0, s1][1..] == [s1];
    assert [s1][1..] == [];
    assert InstallAll(Install(Install(qt, s0), s1), []) == qt.(lqt := l, cqt := c);
    assert InstallAll(Install(qt, s0), [s1]) == qt.(lqt := l, cqt := c);
  }

  /** One well-formed sub-table at `p`: the segment's list is that table followed by the rest. */
  lemma DqtSubtablesCons(b: seq<uint8>, p: nat, end: nat)
    requires end <= |b| && p + 65 <= end && b[p] < 16
    ensures DqtSubtables(b, p, end)
         == (DqtSubtables(b, p + 65, end).0, [Subtable(b[p], b[p + 1 .. p + 65])] + DqtSubtables(b, p + 65, end).1)
  {
  }
}
