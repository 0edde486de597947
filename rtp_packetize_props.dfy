/**
  Properties of the RTP/JPEG packetizer: when it fails, how large its payloads are, where the
  marker goes, what the headers say, and that a receiver reading only the payloads gets the scan
  back.
*/
module RtpPacketizerProps {
  import opened Common
  import opened RtpJpegTypes
  import opened JpegScan
  import opened RtpPacketizer

  /** The loop's first turn fails exactly when `mp` leaves no room after the headers; once past
      it, no later turn fails. */
  lemma {:induction false} PacketsFromDefined(scan: seq<uint8>, h: Header, qt: Qtables, off: nat, mp: nat)
    ensures PacketsFrom(scan, h, qt, off, mp).None? <==> off < |scan| && mp <= Overhead(off)
    decreases |scan| - off
  {
    if off < |scan| && mp > Overhead(off) {
      var chunk := Min(|scan| - off, mp - Overhead(off));
      PacketsFromDefined(scan, h, qt, off + chunk, mp);
    }
  }

  /** One turn of the loop, when there is room: the payload of the chunk at `off`, then the rest. */
  lemma PacketsFromCons(scan: seq<uint8>, h: Header, qt: Qtables, off: nat, mp: nat)
    requires off < |scan| && mp > Overhead(off)
    ensures var chunk := Min(|scan| - off, mp - Overhead(off));
      PacketsFrom(scan, h, qt, off + chunk, mp).Some?
      && PacketsFrom(scan, h, qt, off, mp)
         == Some([Packet(Payload(scan, h, qt, off, chunk), off + chunk >= |scan|)]
                 + PacketsFrom(scan, h, qt, off + chunk, mp).value)
  {
    var chunk := Min(|scan| - off, mp - Overhead(off));
    PacketsFromDefined(scan, h, qt, off + chunk, mp);
  }

  lemma EmitAllCons(p: Packet, rest: seq<Packet>, emit: EmitFn)
    ensures EmitAll([p] + rest, emit)
         == if emit(p.payload, p.last) then (EmitAll(rest, emit).0, [p] + EmitAll(rest, emit).1) else (false, [p])
  {
    assert ([p] + rest)[1..] == rest;
  }

  /** The loop as written and the list-then-emit description agree: the only failure before any
      call of `emit` is the room check of the first turn. */
  lemma {:induction false} SendFromIsEmitAll(scan: seq<uint8>, h: Header, qt: Qtables, mp: nat, emit: EmitFn, off: nat)
    ensures SendFrom(scan, h, qt, mp, emit, off)
         == match PacketsFrom(scan, h, qt, off, mp)
            case None => (false, [])
            case Some(ps) => EmitAll(ps, emit)
    decreases |scan| - off
  {
    if off < |scan| && mp > Overhead(off) {
      var chunk := Min(|scan| - off, mp - Overhead(off));
      PacketsFromCons(scan, h, qt, off, mp);
      SendFromIsEmitAll(scan, h, qt, mp, emit, off + chunk);
      var p := Packet(Payload(scan, h, qt, off, chunk), off + chunk >= |scan|);
      EmitAllCons(p, PacketsFrom(scan, h, qt, off + chunk, mp).value, emit);
    }
  }

  /** `emit` sees a prefix of the payloads, in order; every one but the last it saw was
      accepted; the result is true exactly when it saw and accepted them all. */
  lemma EmitAllPrefix(ps: seq<Packet>, emit: EmitFn)
    ensures EmitAll(ps, emit).1 <= ps
    ensures forall k :: 0 <= k < |EmitAll(ps, emit).1| - 1 ==>
              emit(EmitAll(ps, emit).1[k].payload, EmitAll(ps, emit).1[k].last)
    ensures EmitAll(ps, emit).0 <==>
              EmitAll(ps, emit).1 == ps && forall k :: 0 <= k < |ps| ==> emit(ps[k].payload, ps[k].last)
    ensures !EmitAll(ps, emit).0 ==>
              var sent := EmitAll(ps, emit).1;
              sent != [] && !emit(sent[|sent| - 1].payload, sent[|sent| - 1].last)
  {
    EmitAllSent(ps, emit);
    EmitAllOk(ps, emit);
  }

  /** What `emit` saw: a prefix of the payloads, all accepted but possibly the last, which was
      refused when the result is false. */
  lemma {:induction false} EmitAllSent(ps: seq<Packet>, emit: EmitFn)
    ensures EmitAll(ps, emit).1 <= ps
    ensures forall k :: 0 <= k < |EmitAll(ps, emit).1| - 1 ==>
              emit(EmitAll(ps, emit).1[k].payload, EmitAll(ps, emit).1[k].last)
    ensures !EmitAll(ps, emit).0 ==>
              var sent := EmitAll(ps, emit).1;
              sent != [] && !emit(sent[|sent| - 1].payload, sent[|sent| - 1].last)
    decreases |ps|
  {
    if ps != [] && emit(ps[0].payload, ps[0].last) {
      var r := EmitAll(ps[1..], emit);
      EmitAllSent(ps[1..], emit);
      var sent := [ps[0]] + r.1;
      assert EmitAll(ps, emit) == (r.0, sent);
      assert ps == [ps[0]] + ps[1..];
      forall k | 0 <= k < |sent| - 1
        ensures emit(sent[k].payload, sent[k].last)
      {
        if k > 0 {
          assert sent[k] == r.1[k - 1];
        }
      }
      if !r.0 {
        assert sent[|sent| - 1] == r.1[|r.1| - 1];
      }
    }
  }

  /** The result is true exactly when `emit` saw and accepted every payload. */
  lemma {:induction false} EmitAllOk(ps: seq<Packet>, emit: EmitFn)
    ensures EmitAll(ps, emit).0 <==>
              EmitAll(ps, emit).1 == ps && forall k :: 0 <= k < |ps| ==> emit(ps[k].payload, ps[k].last)
    decreases |ps|
  {
    if ps != [] {
      EmitAllOk(ps[1..], emit);
      var r := EmitAll(ps[1..], emit);
      if emit(ps[0].payload, ps[0].last) {
        assert EmitAll(ps, emit) == (r.0, [ps[0]] + r.1);
        assert ps == [ps[0]] + ps[1..];
        assert (forall k :: 0 <= k < |ps| ==> emit(ps[k].payload, ps[k].last)) <==>
               (forall k :: 0 <= k < |ps| - 1 ==> emit(ps[1..][k].payload, ps[1..][k].last));
      } else {
        assert !emit(ps[0].payload, ps[0].last);
      }
    }
  }

  /** The fixed bytes of a main header: type-specific, Type, Q = 255, width and height. */
  predicate FixedHeaderBytes(p: seq<uint8>, h: Header)
  {
    |p| >= MainHeaderLen && p[0] == h.typeSpecific && p[4] == TypeCode(h.jtype) && p[5] == 255
    && p[6] == Blocks(h.width) && p[7] == Blocks(h.height)
  }

  /** Every payload fits in `mp`, carries at least one byte of scan data after its headers, and
      starts with the frame's fixed header bytes; the marker is set on the last payload only. */
  lemma {:induction false} PacketsShape(scan: seq<uint8>, h: Header, qt: Qtables, off: nat, mp: nat)
    requires PacketsFrom(scan, h, qt, off, mp).Some?
    ensures var ps := PacketsFrom(scan, h, qt, off, mp).value;
      (ps == [] <==> off >= |scan|)
      && forall k :: 0 <= k < |ps| ==>
           NextOverhead < |ps[k].payload| <= mp && FixedHeaderBytes(ps[k].payload, h)
           && (ps[k].last <==> k == |ps| - 1)
    decreases |scan| - off
  {
    if off < |scan| {
      var chunk := Min(|scan| - off, mp - Overhead(off));
      PacketsFromCons(scan, h, qt, off, mp);
      PacketsShape(scan, h, qt, off + chunk, mp);
      var ps := PacketsFrom(scan, h, qt, off, mp).value;
      var rest := PacketsFrom(scan, h, qt, off + chunk, mp).value;
      assert rest == [] <==> off + chunk >= |scan|;
      forall k | 0 <= k < |ps|
        ensures NextOverhead < |ps[k].payload| <= mp && FixedHeaderBytes(ps[k].payload, h)
        ensures ps[k].last <==> k == |ps| - 1
      {
        if k > 0 {
          assert ps[k] == rest[k - 1];
        }
      }
    }
  }

  /** The fragment offset a receiver reads from bytes 1 to 3 of a payload. */
  function FragmentOffset(p: seq<uint8>): nat
  {
    if |p| < 4 then 0 else p[1] as int * 0x1_0000 + p[2] as int * 0x100 + p[3]
  }

  /** The scan bytes a receiver takes from a payload: after the main header, and after the table
      block too when the fragment offset is 0 (Q = 255 puts the tables in that payload only). */
  function ScanPart(p: seq<uint8>): seq<uint8>
  {
    var hl := if FragmentOffset(p) == 0 then FirstOverhead else NextOverhead;
    if |p| < hl then [] else p[hl ..]
  }

  /** The receiver's reassembly: the scan parts of the payloads, in order. */
  function Reassemble(ps: seq<Packet>): seq<uint8>
    decreases |ps|
  {
    if ps == [] then [] else ScanPart(ps[0].payload) + Reassemble(ps[1..])
  }

  /** The fragment offset written into a main header reads back as the offset, as long as it fits
      in 24 bits. */
  lemma MainHeaderOffset(h: Header, off: nat, tail: seq<uint8>)
    requires off < 0x100_0000
    ensures FragmentOffset(MainHeader(h, off) + tail) == off
  {
    var p := MainHeader(h, off) + tail;
    assert p[1] == (off / 0x1_0000) % 256 && p[2] == (off / 256) % 256 && p[3] == off % 256;
    Bytes24(off);
  }

  /** Bytes 1 to 3 of the main header are the big-endian digits of a 24-bit offset. */
  lemma Bytes24(off: nat)
    requires off < 0x100_0000
    ensures ((off / 0x1_0000) % 256) * 0x1_0000 + ((off / 256) % 256) * 256 + off % 256 == off
  {
    var q, r := off / 256, off % 256;
    var q2, r2 := q / 256, q % 256;
    assert off == q * 256 + r;
    assert q == q2 * 256 + r2;
    assert off == q2 * 0x1_0000 + (r2 * 256 + r);
    assert off / 0x1_0000 == q2;
    assert q2 < 256;
  }

  /** What a receiver reads from one payload: its offset, and exactly its chunk of the scan. */
  lemma PayloadReadBack(scan: seq<uint8>, h: Header, qt: Qtables, off: nat, chunk: nat)
    requires off + chunk <= |scan| < 0x100_0000 && chunk > 0
    ensures FragmentOffset(Payload(scan, h, qt, off, chunk)) == off
    ensures ScanPart(Payload(scan, h, qt, off, chunk)) == scan[off .. off + chunk]
  {
    var tail := (if off == 0 then QtBlock(qt) else []) + scan[off .. off + chunk];
    assert Payload(scan, h, qt, off, chunk) == MainHeader(h, off) + tail;
    MainHeaderOffset(h, off, tail);
  }

  /** Reading only the payloads, a receiver gets back the scan from `off` on. RFC 2435 fragment
      offsets are 24 bits wide, hence the bound on the scan. */
  lemma {:induction false} PacketsReassemble(scan: seq<uint8>, h: Header, qt: Qtables, off: nat, mp: nat)
    requires PacketsFrom(scan, h, qt, off, mp).Some? && off <= |scan| < 0x100_0000
    ensures Reassemble(PacketsFrom(scan, h, qt, off, mp).value) == scan[off ..]
    decreases |scan| - off
  {
    if off < |scan| {
      var chunk := Min(|scan| - off, mp - Overhead(off));
      PacketsFromCons(scan, h, qt, off, mp);
      PacketsReassemble(scan, h, qt, off + chunk, mp);
      PayloadReadBack(scan, h, qt, off, chunk);
      var p := Packet(Payload(scan, h, qt, off, chunk), off + chunk >= |scan|);
      ReassembleCons(p, PacketsFrom(scan, h, qt, off + chunk, mp).value);
      SliceSplit(scan, off, off + chunk);
    }
  }

  lemma ReassembleCons(p: Packet, rest: seq<Packet>)
    ensures Reassemble([p] + rest) == ScanPart(p.payload) + Reassemble(rest)
  {
    assert ([p] + rest)[1..] == rest;
  }

  lemma SliceSplit(s: seq<uint8>, i: nat, j: nat)
    requires i <= j <= |s|
    ensures s[i ..] == s[i .. j] + s[j ..]
  {
  }

  /** Each payload's fragment offset is `off` plus the scan bytes a receiver took from the
      payloads before it, and it is 0 only when it is the first payload and `off` is 0. */
  predicate OffsetsFrom(ps: seq<Packet>, off: nat)
  {
    forall k :: 0 <= k < |ps| ==>
      FragmentOffset(ps[k].payload) == off + |Reassemble(ps[.. k])|
      && (FragmentOffset(ps[k].payload) == 0 <==> off + k == 0)
  }

  /** The payloads' fragment offsets count the scan bytes sent before them. */
  lemma {:induction false} PacketsOffsets(scan: seq<uint8>, h: Header, qt: Qtables, off: nat, mp: nat)
    requires PacketsFrom(scan, h, qt, off, mp).Some? && |scan| < 0x100_0000
    ensures OffsetsFrom(PacketsFrom(scan, h, qt, off, mp).value, off)
    decreases |scan| - off
  {
    if off < |scan| {
      var chunk := Min(|scan| - off, mp - Overhead(off));
      PacketsFromCons(scan, h, qt, off, mp);
      PacketsOffsets(scan, h, qt, off + chunk, mp);
      PayloadReadBack(scan, h, qt, off, chunk);
      var p := Packet(Payload(scan, h, qt, off, chunk), off + chunk >= |scan|);
      OffsetsCons(p, PacketsFrom(scan, h, qt, off + chunk, mp).value, off);
    }
  }

  /** One payload in front of a list whose offsets start where its scan part ends. */
  lemma OffsetsCons(p: Packet, rest: seq<Packet>, off: nat)
    requires FragmentOffset(p.payload) == off && ScanPart(p.payload) != []
    requires OffsetsFrom(rest, off + |ScanPart(p.payload)|)
    ensures OffsetsFrom([p] + rest, off)
  {
    var ps := [p] + rest;
    forall k | 0 <= k < |ps|
      ensures FragmentOffset(ps[k].payload) == off + |Reassemble(ps[.. k])|
      ensures FragmentOffset(ps[k].payload) == 0 <==> off + k == 0
    {
      if k > 0 {
        assert ps[k] == rest[k - 1];
        assert ps[.. k] == [p] + rest[.. k - 1];
        ReassembleCons(p, rest[.. k - 1]);
      }
    }
  }

  /** A scan that fits in one payload with the tables goes out as one payload with the marker set. */
  lemma PacketsSingle(scan: seq<uint8>, h: Header, qt: Qtables, mp: nat)
    requires 0 < |scan| && FirstOverhead + |scan| <= mp
    ensures PacketsFrom(scan, h, qt, 0, mp) == Some([Packet(MainHeader(h, 0) + QtBlock(qt) + scan, true)])
  {
    PacketsFromCons(scan, h, qt, 0, mp);
    assert Min(|scan|, mp - FirstOverhead) == |scan|;
    assert scan[0 .. |scan|] == scan;
    assert Payload(scan, h, qt, 0, |scan|) == MainHeader(h, 0) + QtBlock(qt) + scan;
    assert PacketsFrom(scan, h, qt, |scan|, mp) == Some([]);
    var p := Packet(MainHeader(h, 0) + QtBlock(qt) + scan, true);
    assert [p] + [] == [p];
  }

  /** The first payload of a frame carries the main header at offset 0 and then the table block. */
  lemma FirstPayloadTables(scan: seq<uint8>, h: Header, qt: Qtables, mp: nat)
    requires 0 < |scan| && FirstOverhead < mp
    ensures var ps := PacketsFrom(scan, h, qt, 0, mp);
      ps.Some? && ps.value != []
      && ps.value[0].payload[.. MainHeaderLen] == MainHeader(h, 0)
      && ps.value[0].payload[MainHeaderLen .. FirstOverhead] == QtBlock(qt)
  {
    PacketsFromCons(scan, h, qt, 0, mp);
    var chunk := Min(|scan|, mp - FirstOverhead);
    var p := Payload(scan, h, qt, 0, chunk);
    assert p == MainHeader(h, 0) + QtBlock(qt) + scan[0 .. chunk];
  }

  /** The scan `packetize` sends out of a whole JPEG file, when extraction finds one. */
  function ScanOf(jpg: seq<uint8>): (r: Option<seq<uint8>>)
    ensures r.Some? ==> |r.value| + 2 <= |jpg|
  {
    var ex := Extract(jpg, DefaultQtables());
    match ex.scan
    case None => None
    case Some((s, n)) => Some(jpg[s .. s + n])
  }

  /** `packetize` hands nothing to `emit` and returns false exactly when the arguments are null or
      too short, the file has no scan, or the scan is not empty and `mp` leaves no room for data
      in the first payload. */
  lemma PacketizeRefuses(jpg: Option<seq<uint8>>, h: Header, mp: nat, emit: Option<EmitFn>)
    ensures PacketizeSpec(jpg, h, mp, emit) == (false, [])
        <==> jpg.None? || |jpg.value| < 4 || emit.None? || ScanOf(jpg.value).None?
             || (ScanOf(jpg.value).value != [] && mp <= FirstOverhead)
  {
    if jpg.Some? && |jpg.value| >= 4 && emit.Some? && ScanOf(jpg.value).Some? {
      var ex := Extract(jpg.value, DefaultQtables());
      var scan := ScanOf(jpg.value).value;
      SendFromIsEmitAll(scan, h, ex.qt, mp, emit.value, 0);
      PacketsFromDefined(scan, h, ex.qt, 0, mp);
      if scan != [] && mp > FirstOverhead {
        PacketsShape(scan, h, ex.qt, 0, mp);
      }
    }
  }

  /** Every payload holds at most `mp` bytes and more than the main header. */
  predicate AllFit(ps: seq<Packet>, mp: nat)
  {
    forall k :: 0 <= k < |ps| ==> NextOverhead < |ps[k].payload| <= mp
  }

  /** Every payload the chunk loop hands to `emit`, whether or not the loop completes, holds at
      most `mp` bytes and more than the main header. */
  lemma {:induction false} SendFromFits(scan: seq<uint8>, h: Header, qt: Qtables, mp: nat, emit: EmitFn, off: nat)
    ensures AllFit(SendFrom(scan, h, qt, mp, emit, off).1, mp)
    decreases |scan| - off
  {
    if off < |scan| && mp > Overhead(off) {
      var chunk := Min(|scan| - off, mp - Overhead(off));
      var p := Packet(Payload(scan, h, qt, off, chunk), off + chunk >= |scan|);
      if emit(p.payload, p.last) {
        SendFromFits(scan, h, qt, mp, emit, off + chunk);
        var sent := SendFrom(scan, h, qt, mp, emit, off).1;
        var rest := SendFrom(scan, h, qt, mp, emit, off + chunk).1;
        assert sent == [p] + rest;
        assert AllFit(rest, mp);
        forall k | 1 <= k < |sent|
          ensures NextOverhead < |sent[k].payload| <= mp
        {
          assert sent[k] == rest[k - 1];
        }
      }
    }
  }

  /** Every payload `packetize` hands to `emit` holds at most `mp` bytes. When `packetize` returns
      true, `emit` was handed every payload of the frame in order: their scan parts put together
      are the scan, their fragment offsets count the scan bytes before them, and only the last has
      the marker set. */
  lemma PacketizeDelivers(jpg: Option<seq<uint8>>, h: Header, mp: nat, emit: Option<EmitFn>)
    requires jpg.Some? ==> |jpg.value| < 0x100_0000
    ensures var r := PacketizeSpec(jpg, h, mp, emit);
      forall k :: 0 <= k < |r.1| ==> |r.1[k].payload| <= mp
    ensures var r := PacketizeSpec(jpg, h, mp, emit);
      r.0 ==>
        jpg.Some? && ScanOf(jpg.value).Some?
        && Reassemble(r.1) == ScanOf(jpg.value).value
        && OffsetsFrom(r.1, 0)
        && forall k :: 0 <= k < |r.1| ==> (r.1[k].last <==> k == |r.1| - 1)
  {
    var r := PacketizeSpec(jpg, h, mp, emit);
    if jpg.Some? && |jpg.value| >= 4 && emit.Some? && ScanOf(jpg.value).Some? {
      var ex := Extract(jpg.value, DefaultQtables());
      SendFromFits(ScanOf(jpg.value).value, h, ex.qt, mp, emit.value, 0);
    }
    if r.0 {
      var ex := Extract(jpg.value, DefaultQtables());
      var scan := ScanOf(jpg.value).value;
      SendFromIsEmitAll(scan, h, ex.qt, mp, emit.value, 0);
      var ps := PacketsFrom(scan, h, ex.qt, 0, mp).value;
      EmitAllPrefix(ps, emit.value);
      PacketsReassemble(scan, h, ex.qt, 0, mp);
      PacketsOffsets(scan, h, ex.qt, 0, mp);
      PacketsShape(scan, h, ex.qt, 0, mp);
    }
  }
}
