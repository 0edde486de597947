/**
  The DQT loop of `extract_qtables_and_scan` as written. The segment end `i + 2 + seglen` is
  taken from the length field and never compared with the buffer length `L`, so a segment whose
  length field runs past the buffer makes the loop read, and `memcpy` into the tables, bytes that
  lie after the buffer. `mem` stands for the memory from `b` on: its first `L` bytes are the
  buffer, the rest is whatever follows it.

  The rest of the model (`JpegScan.DqtEnd`) refuses such a segment before the loop runs.
*/
module DqtFinding {
  import opened Common
  import opened RtpJpegTypes
  import opened JpegScan

  /** The sub-table loop as written over `mem`: whether it finished, the sub-tables it copied,
      and one past the highest address it read. */
  function AsWrittenDqt(mem: seq<uint8>, p: nat, end: nat): (r: (bool, seq<Subtable>, nat))
    requires end <= |mem|
    ensures r.2 <= end
    decreases end - p
  {
    if p >= end then (true, [], 0)
    else if mem[p] / 16 != 0 then (false, [], p + 1)
    else if p + 1 + 64 > end then (false, [], p + 1)
    else
      var rest := AsWrittenDqt(mem, p + 65, end);
      (rest.0, [Subtable(mem[p] % 16, mem[p + 1 .. p + 65])] + rest.1, if rest.2 == 0 then p + 65 else rest.2)
  }

  /** The seven-byte buffer SOI, DQT, length 0x0043, Pq/Tq 0, followed in memory by 64 bytes
      that do not belong to it. */
  function OverreadBuffer(): (b: seq<uint8>)
    ensures |b| == 7
  {
    [0xFF, 0xD8, 0xFF, 0xDB, 0x00, 0x43, 0x00]
  }

  /** As written: the walk reaches the DQT marker at 2 (2 + 4 <= 7), reads the length 67, and the
      loop copies table 0 from addresses 7 to 70, all past the end of the 7-byte buffer. */
  lemma AsWrittenReadsPastBuffer(after: seq<uint8>)
    requires |after| == 64
    ensures var mem := OverreadBuffer() + after;
      var L := |OverreadBuffer()|;
      2 + 4 <= L && ReadBe16(mem[.. L], 4) == Some(0x43)
      && AsWrittenDqt(mem, 2 + 4, 2 + 2 + 0x43) == (true, [Subtable(0, after)], 71)
      && 71 > L
  {
    var mem := OverreadBuffer() + after;
    assert mem[.. 7] == OverreadBuffer();
    assert mem[7 .. 71] == after;
    assert mem[6] == 0;
    assert AsWrittenDqt(mem, 71, 71) == (true, [], 0);
    assert [Subtable(0, after)] + [] == [Subtable(0, after)];
  }

  /** Corrected: the same buffer is refused at the DQT marker before any table is copied, so the
      extraction fails and the tables are left as they were. */
  lemma CorrectedRefusesOverread(qt0: Qtables)
    ensures Walk(OverreadBuffer(), 2) == Walked(None, [])
    ensures Extract(OverreadBuffer(), qt0) == Extraction(None, qt0.(have := false))
  {
    var b := OverreadBuffer();
    assert ReadBe16(b, 4) == Some(0x43);
    assert DqtEnd(b, 2) == None;
    assert Marker(b, 2) == Walked(None, []);
  }

  /** Whenever the segment end lies inside the buffer, which the corrected walk checks, the loop as
      written reads only the buffer and copies exactly the sub-tables of `DqtSubtables`: the bytes
      after the buffer make no difference. */
  lemma {:induction false} GuardedLoopStaysInBuffer(mem: seq<uint8>, L: nat, p: nat, end: nat)
    requires end <= L <= |mem|
    ensures AsWrittenDqt(mem, p, end).2 <= L
    ensures AsWrittenDqt(mem, p, end).0 == DqtSubtables(mem[.. L], p, end).0
    ensures AsWrittenDqt(mem, p, end).1 == DqtSubtables(mem[.. L], p, end).1
    decreases end - p
  {
    if p < end && mem[p] / 16 == 0 && p + 1 + 64 <= end {
      GuardedLoopStaysInBuffer(mem, L, p + 65, end);
      assert mem[.. L][p + 1 .. p + 65] == mem[p + 1 .. p + 65];
    }
  }
}
