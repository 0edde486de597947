/**
  The JPEG side of `rtp_jpeg.cpp`: `read_be16` and `extract_qtables_and_scan`.

  The marker walk of ITU-T T.81 Annex B is specified by the recursive functions `Walk`,
  `DqtSubtables` and `FindEoi`; the method `ExtractQtablesAndScan` is the source's loop
  version and is proved to compute `Extract`.
*/
module JpegScan {
  import opened Common
  import opened RtpJpegTypes

  /** Big-endian 16-bit read at `off`; fails unless both bytes lie inside the buffer. */
  function ReadBe16(b: seq<uint8>, off: nat): (r: Option<uint16>)
  {
    if off + 1 >= |b| then None else Some(b[off] as int * 256 + b[off + 1])
  }

  /** A byte after 0xFF that the scan walk steps over as data: stuffing (0x00) or RST0..RST7. */
  predicate IsScanPair(n: uint8)
  {
    n == 0x00 || 0xD0 <= n <= 0xD7
  }

  /** The search for EOI inside the entropy-coded data, starting at `e`: the position of the first
      0xFF 0xD9 the walk reaches, stepping over stuffed and RSTn pairs two bytes at a time. */
  function FindEoi(b: seq<uint8>, e: nat): (r: Option<nat>)
    ensures r.Some? ==> e <= r.value && r.value + 2 <= |b|
    ensures r.Some? ==> b[r.value] == 0xFF && b[r.value + 1] == 0xD9
    decreases |b| - e
  {
    if e + 2 > |b| then None
    else if b[e] == 0xFF && IsScanPair(b[e + 1]) then FindEoi(b, e + 2)
    else if b[e] == 0xFF && b[e + 1] == 0xD9 then Some(e)
    else FindEoi(b, e + 1)
  }

  /** One quantization table copied out of a DQT segment, with its destination id (Tq). */
  datatype Subtable = Subtable(id: nat, table: Table)

  /** The sub-table loop of one DQT segment whose payload runs from `p` to `end`: whether it
      finished without error, and the sub-tables it copied, in order. */
  function DqtSubtables(b: seq<uint8>, p: nat, end: nat): (r: (bool, seq<Subtable>))
    requires end <= |b|
    decreases end - p
  {
    if p >= end then (true, [])
    else if b[p] / 16 != 0 then (false, [])
    else if p + 1 + 64 > end then (false, [])
    else
      var rest := DqtSubtables(b, p + 65, end);
      (rest.0, [Subtable(b[p] % 16, b[p + 1 .. p + 65])] + rest.1)
  }

  /** Where the marker walk found the scan (start, length), if it did, and every DQT sub-table
      it copied before it stopped. */
  datatype Walked = Walked(scan: Option<(nat, nat)>, subs: seq<Subtable>)

  /** At an SOS marker at `i`: skip the SOS header by its length and search the entropy-coded
      data for EOI; the scan is the bytes from the end of the header up to EOI. */
  function SosScan(b: seq<uint8>, i: nat): (r: Option<(nat, nat)>)
    ensures r.Some? ==> r.value.0 + r.value.1 + 2 <= |b|
    ensures r.Some? ==> ReadBe16(b, i + 2).Some? && r.value.0 == i + 2 + ReadBe16(b, i + 2).value
    ensures r.Some? ==> b[r.value.0 + r.value.1] == 0xFF && b[r.value.0 + r.value.1 + 1] == 0xD9
  {
    match ReadBe16(b, i + 2)
    case None => None
    case Some(seglen) =>
      var s := i + 2 + seglen;
      if s >= |b| then None
      else
        match FindEoi(b, s)
        case None => None
        case Some(e) => Some((s, e - s))
  }

  /** At a DQT marker at `i`: the end of the segment by its length, provided it lies inside
      the buffer. */
  function DqtEnd(b: seq<uint8>, i: nat): (r: Option<nat>)
    ensures r.Some? ==> i + 2 <= r.value <= |b|
  {
    match ReadBe16(b, i + 2)
    case None => None
    case Some(seglen) => if i + 2 + seglen > |b| then None else Some(i + 2 + seglen)
  }

  /** The marker walk from position `i`: bytes other than 0xFF are skipped one at a time until
      fewer than four bytes are left. */
  function Walk(b: seq<uint8>, i: nat): (r: Walked)
    ensures r.scan.Some? ==> r.scan.value.0 + r.scan.value.1 + 2 <= |b|
    decreases |b| - i, 1
  {
    if i + 4 > |b| then Walked(None, [])
    else if b[i] != 0xFF then Walk(b, i + 1)
    else Marker(b, i)
  }

  /** The walk at a 0xFF byte: SOI/EOI are two-byte markers, DQT segments are parsed, other
      segments are skipped by their length, and at SOS the entropy-coded data is searched for EOI.
      A DQT segment that claims to run past the buffer makes the walk fail. */
  function Marker(b: seq<uint8>, i: nat): (r: Walked)
    requires i + 4 <= |b| && b[i] == 0xFF
    ensures r.scan.Some? ==> r.scan.value.0 + r.scan.value.1 + 2 <= |b|
    decreases |b| - i, 0
  {
    if b[i + 1] == 0xDA then Walked(SosScan(b, i), [])
    else if b[i + 1] == 0xDB then
      match DqtEnd(b, i)
      case None => Walked(None, [])
      case Some(end) =>
        var seg := DqtSubtables(b, i + 4, end);
        if !seg.0 then Walked(None, seg.1)
        else
          var rest := Walk(b, end);
          Walked(rest.scan, seg.1 + rest.subs)
    else if b[i + 1] == 0xD8 || b[i + 1] == 0xD9 then Walk(b, i + 2)
    else
      match ReadBe16(b, i + 2)
      case None => Walked(None, [])
      case Some(seglen) => Walk(b, i + 2 + seglen)
  }

  /** Copying one sub-table into the tables: id 0 overwrites the luminance table, id 1 the
      chrominance table, any other id is ignored. */
  function Install(qt: Qtables, s: Subtable): Qtables
  {
    if s.id == 0 then qt.(lqt := s.table)
    else if s.id == 1 then qt.(cqt := s.table)
    else qt
  }

  /** Copying every sub-table, in order. */
  function InstallAll(qt: Qtables, subs: seq<Subtable>): (r: Qtables)
    ensures r.have == qt.have
    decreases |subs|
  {
    if subs == [] then qt else InstallAll(Install(qt, subs[0]), subs[1..])
  }

  /** Some sub-table with destination id `id` was copied. */
  predicate HasId(subs: seq<Subtable>, id: nat)
    decreases |subs|
  {
    subs != [] && (subs[0].id == id || HasId(subs[1..], id))
  }

  /** The observable result of `extract_qtables_and_scan`: the scan as (start offset, length)
      when it succeeds, and the tables left in the caller's `Qtables`. */
  datatype Extraction = Extraction(scan: Option<(nat, nat)>, qt: Qtables)

  /** What `extract_qtables_and_scan(b, |b|, scan, scan_len, qt)` computes when `qt` holds `qt0`. */
  function Extract(b: seq<uint8>, qt0: Qtables): (r: Extraction)
    ensures (|b| < 4 || b[0] != 0xFF || b[1] != 0xD8) ==> r.scan.None?
    ensures r.scan.None? ==> !r.qt.have
    ensures r.scan.Some? ==> r.scan.value.0 + r.scan.value.1 + 2 <= |b|
  {
    if |b| < 4 || b[0] != 0xFF || b[1] != 0xD8 then Extraction(None, qt0.(have := false))
    else ExtractOf(Walk(b, 2), qt0)
  }
  /** The extraction result once the walk from just after SOI is known. */
  function ExtractOf(w: Walked, qt0: Qtables): Extraction
  {
    var tables := InstallAll(qt0.(have := false), w.subs);
    Extraction(w.scan, tables.(have := w.scan.Some? && HasId(w.subs, 0) && HasId(w.subs, 1)))
  }

  /** `extract_qtables_and_scan`: checks SOI, walks the markers, and returns the scan as an
      offset into `b` with the tables it copied on the way. */
  method ExtractQtablesAndScan(b: seq<uint8>, qtIn: Qtables)
    returns (ok: bool, scan: Option<nat>, scanLen: nat, qt: Qtables)
    ensures ok == Extract(b, qtIn).scan.Some?
    ensures qt == Extract(b, qtIn).qt
    ensures ok ==> scan == Some(Extract(b, qtIn).scan.value.0) && scanLen == Extract(b, qtIn).scan.value.1
    ensures !ok ==> scan == None && scanLen == 0
  {
    scan, scanLen := None, 0;
    if |b| < 4 || b[0] != 0xFF || b[1] != 0xD8 {
      return false, scan, scanLen, qtIn.(have := false);
    }
    var found, haveL, haveC;
    found, qt, haveL, haveC := WalkMarkers(b, qtIn.(have := false));
    if found.None? {
      return false, scan, scanLen, qt;
    }
    return true, Some(found.value.0), found.value.1, qt.(have := haveL && haveC);
  }

  /** The marker loop of `extract_qtables_and_scan`, from just after SOI: `i` moves from marker to
      marker, each DQT segment's tables are copied into `qt` as they are met, and the loop stops at
      SOS or at the first segment it cannot read. */
  method WalkMarkers(b: seq<uint8>, qt0: Qtables)
    returns (found: Option<(nat, nat)>, qt: Qtables, haveL: bool, haveC: bool)
    requires 4 <= |b|
    ensures found == Walk(b, 2).scan
    ensures qt == InstallAll(qt0, Walk(b, 2).subs)
    ensures haveL == HasId(Walk(b, 2).subs, 0) && haveC == HasId(Walk(b, 2).subs, 1)
  {
    found, qt := None, qt0;
    var L := |b|;
    var i := 2;
    haveL, haveC := false, false;
    ghost var seen: seq<Subtable> := [];
    ghost var whole := Walk(b, i);
    assert seen + whole.subs == whole.subs;
    while i + 4 <= L
      invariant whole == Walked(Walk(b, i).scan, seen + Walk(b, i).subs)
      invariant qt == InstallAll(qt0, seen)
      invariant haveL == HasId(seen, 0) && haveC == HasId(seen, 1)
      invariant found.None?
      decreases L - i
    {
      var stop, next;
      ghost var copied;
      stop, found, next, qt, haveL, haveC, copied := Step(b, i, qt, haveL, haveC);
      InstallAllAppend(qt0, seen, copied);
      HasIdAppend(seen, copied, 0);
      HasIdAppend(seen, copied, 1);
      if stop {
        return;
      }
      AppendAssoc(seen, copied, Walk(b, next).subs);
      seen := seen + copied;
      i := next;
    }
    assert seen + Walk(b, i).subs == seen;
  }

  /** One turn of the marker loop at `i`: either the walk stops here with `found` (SOS, or a
      segment that cannot be read), or it goes on at `next`; `copied` are the DQT sub-tables
      copied during the turn. */
  method Step(b: seq<uint8>, i: nat, qtIn: Qtables, haveLIn: bool, haveCIn: bool)
    returns (stop: bool, found: Option<(nat, nat)>, next: nat, qt: Qtables, haveL: bool, haveC: bool,
             ghost copied: seq<Subtable>)
    requires i + 4 <= |b|
    ensures stop ==> Walk(b, i) == Walked(found, copied)
    ensures !stop ==> found.None? && i < next && Walk(b, i) == Walked(Walk(b, next).scan, copied + Walk(b, next).subs)
    ensures qt == InstallAll(qtIn, copied)
    ensures haveL == (haveLIn || HasId(copied, 0)) && haveC == (haveCIn || HasId(copied, 1))
  {
    stop, found, next, qt, haveL, haveC, copied := false, None, i + 1, qtIn, haveLIn, haveCIn, [];
    if b[i] != 0xFF {
      return;
    }
    var m := b[i + 1];
    if m == 0xDA {
      found := AtSos(b, i);
      return true, found, next, qt, haveL, haveC, copied;
    } else if m == 0xDB {
      var after;
      after, qt, haveL, haveC, copied := AtDqt(b, i, qt, haveL, haveC);
      if after.None? {
        return true, found, next, qt, haveL, haveC, copied;
      }
      next := after.value;
    } else {
      var after := SkipSegment(b, i);
      if after.None? {
        return true, found, next, qt, haveL, haveC, copied;
      }
      next := after.value;
    }
  }

  /** The SOS case of the marker walk: read the header length, check that data follows it, and
      search the data for EOI. */
  method AtSos(b: seq<uint8>, i: nat) returns (found: Option<(nat, nat)>)
    requires i + 4 <= |b| && b[i] == 0xFF && b[i + 1] == 0xDA
    ensures Marker(b, i) == Walked(found, [])
  {
    var seglen := ReadBe16(b, i + 2);
    if seglen.None? {
      return None;
    }
    var s := i + 2 + seglen.value;
    if s >= |b| {
      return None;
    }
    var e := ScanToEoi(b, s);
    if e.None? {
      return None;
    }
    return Some((s, e.value - s));
  }

  /** The DQT case of the marker walk: read the segment length, refuse a segment that runs past
      the buffer, and copy its sub-tables; on success the walk goes on at the segment's end. */
  method AtDqt(b: seq<uint8>, i: nat, qtIn: Qtables, haveLIn: bool, haveCIn: bool)
    returns (next: Option<nat>, qt: Qtables, haveL: bool, haveC: bool, ghost copied: seq<Subtable>)
    requires i + 4 <= |b| && b[i] == 0xFF && b[i + 1] == 0xDB
    ensures next.Some? ==> i < next.value
    ensures next.None? ==> Marker(b, i) == Walked(None, copied)
    ensures next.Some? ==> Marker(b, i) == Walked(Walk(b, next.value).scan, copied + Walk(b, next.value).subs)
    ensures qt == InstallAll(qtIn, copied)
    ensures haveL == (haveLIn || HasId(copied, 0)) && haveC == (haveCIn || HasId(copied, 1))
  {
    qt, haveL, haveC, copied := qtIn, haveLIn, haveCIn, [];
    var seglen := ReadBe16(b, i + 2);
    if seglen.None? {
      return None, qt, haveL, haveC, copied;
    }
    var end := i + 2 + seglen.value;
    if end > |b| {
      return None, qt, haveL, haveC, copied;
    }
    var ok;
    ok, qt, haveL, haveC := CopyDqtTables(b, i + 4, end, qt, haveL, haveC);
    copied := DqtSubtables(b, i + 4, end).1;
    if !ok {
      return None, qt, haveL, haveC, copied;
    }
    return Some(end), qt, haveL, haveC, copied;
  }

  /** Any other marker: SOI and EOI are two bytes long, every other segment is skipped by its
      length. */
  method SkipSegment(b: seq<uint8>, i: nat) returns (next: Option<nat>)
    requires i + 4 <= |b| && b[i] == 0xFF && b[i + 1] != 0xDA && b[i + 1] != 0xDB
    ensures next.Some? ==> i < next.value && Marker(b, i) == Walk(b, next.value)
    ensures next.None? ==> Marker(b, i) == Walked(None, [])
  {
    var m := b[i + 1];
    if m == 0xD8 || m == 0xD9 {
      return Some(i + 2);
    }
    var seglen := ReadBe16(b, i + 2);
    if seglen.None? {
      return None;
    }
    return Some(i + 2 + seglen.value);
  }

  /** The inner loop on `e` of `extract_qtables_and_scan`: from the start of the entropy-coded
      data, look for EOI while stepping over stuffed bytes and RSTn markers. */
  method ScanToEoi(b: seq<uint8>, s: nat) returns (e: Option<nat>)
    ensures e == FindEoi(b, s)
  {
    var L := |b|;
    var k := s;
    while k + 2 <= L
      invariant FindEoi(b, k) == FindEoi(b, s)
      decreases L - k
    {
      if b[k] == 0xFF {
        var n := b[k + 1];
        if n == 0x00 {
          k := k + 2;
          continue;
        }
        if 0xD0 <= n <= 0xD7 {
          k := k + 2;
          continue;
        }
        if n == 0xD9 {
          return Some(k);
        }
      }
      k := k + 1;
    }
    return None;
  }

  /** The inner loop on `p` of `extract_qtables_and_scan` over one DQT segment: each sub-table
      must have 8-bit precision and fit in the segment; ids 0 and 1 are copied into `qt`. */
  method CopyDqtTables(b: seq<uint8>, start: nat, end: nat, qtIn: Qtables, haveLIn: bool, haveCIn: bool)
    returns (ok: bool, qt: Qtables, haveL: bool, haveC: bool)
    requires end <= |b|
    ensures ok == DqtSubtables(b, start, end).0
    ensures qt == InstallAll(qtIn, DqtSubtables(b, start, end).1)
    ensures haveL == (haveLIn || HasId(DqtSubtables(b, start, end).1, 0))
    ensures haveC == (haveCIn || HasId(DqtSubtables(b, start, end).1, 1))
  {
    qt, haveL, haveC := qtIn, haveLIn, haveCIn;
    var p := start;
    ghost var copied: seq<Subtable> := [];
    assert copied + DqtSubtables(b, p, end).1 == DqtSubtables(b, p, end).1;
    while p < end
      invariant DqtSubtables(b, start, end)
             == (DqtSubtables(b, p, end).0, copied + DqtSubtables(b, p, end).1)
      invariant qt == InstallAll(qtIn, copied)
      invariant haveL == (haveLIn || HasId(copied, 0)) && haveC == (haveCIn || HasId(copied, 1))
      decreases end - p
    {
      var pqtq := b[p];
      ghost var rest := DqtSubtables(b, p + 65, end);
      assert copied + [] == copied;
      p := p + 1;
      var pq := pqtq / 16;
      var tq := pqtq % 16;
      if pq != 0 {
        return false, qt, haveL, haveC;
      }
      if p + 64 > end {
        return false, qt, haveL, haveC;
      }
      if tq == 0 {
        qt := qt.(lqt := b[p .. p + 64]);
        haveL := true;
      } else if tq == 1 {
        qt := qt.(cqt := b[p .. p + 64]);
        haveC := true;
      }
      ghost var sub := Subtable(tq, b[p .. p + 64]);
      InstallAllAppend(qtIn, copied, [sub]);
      HasIdAppend(copied, [sub], 0);
      HasIdAppend(copied, [sub], 1);
      AppendAssoc(copied, [sub], rest.1);
      copied := copied + [sub];
      p := p + 64;
    }
    assert copied + [] == copied;
    return true, qt, haveL, haveC;
  }

  lemma {:induction false} InstallAllAppend(qt: Qtables, s: seq<Subtable>, t: seq<Subtable>)
    ensures InstallAll(qt, s + t) == InstallAll(InstallAll(qt, s), t)
    decreases |s|
  {
    if s == [] {
      assert [] + t == t;
    } else {
      assert (s + t)[1..] == s[1..] + t;
      InstallAllAppend(Install(qt, s[0]), s[1..], t);
    }
  }

  lemma AppendAssoc(s: seq<Subtable>, t: seq<Subtable>, u: seq<Subtable>)
    ensures s + (t + u) == (s + t) + u
  {
  }

  lemma {:induction false} HasIdAppend(s: seq<Subtable>, t: seq<Subtable>, id: nat)
    ensures HasId(s + t, id) <==> HasId(s, id) || HasId(t, id)
    decreases |s|
  {
    if s == [] {
      assert [] + t == t;
    } else {
      assert (s + t)[0] == s[0];
      assert (s + t)[1..] == s[1..] + t;
      HasIdAppend(s[1..], t, id);
    }
  }
}
