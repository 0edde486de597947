/**
  `packetize` of `rtp_jpeg.cpp`: the scan found by `extract_qtables_and_scan` is cut into
  RTP/JPEG payloads (RFC 2435 section 3.1), each an 8-byte main header, in the first payload the
  134-byte quantization-table block, and a chunk of the scan; every payload is handed to `emit`
  with the marker flag set on the one that ends the scan.

  `SendFrom` is the loop as a recursive function; the method `Packetize` fills the 1500-byte
  payload buffer in place and is proved to do exactly what `PacketizeSpec` says. `PacketsFrom`
  (every payload of the frame) and `EmitAll` (hand them out until one is refused) are a second,
  independent description of the same loop; the two are proved equal in `RtpPacketizerProps`.
*/
module RtpPacketizer {
  import opened Common
  import opened RtpJpegTypes
  import opened JpegScan

  /** The frame-wide fields of the main header: type-specific byte, Type, and the frame size. */
  datatype Header = Header(typeSpecific: uint8, jtype: JpegType, width: uint16, height: uint16)

  /** Size of the main header. */
  const MainHeaderLen: nat := 8
  /** Size of the quantization-table block the code builds: 4 header bytes and two id-prefixed
      tables. */
  const QtBlockLen: nat := 134
  /** Bytes ahead of the scan data in the first payload and in every later payload. */
  const FirstOverhead: nat := MainHeaderLen + QtBlockLen
  const NextOverhead: nat := MainHeaderLen

  /** Size of the static payload buffer. */
  const PayloadBufferLen: nat := 1500

  /** A frame dimension in 8-pixel blocks, rounded up and truncated to 8 bits. */
  function Blocks(v: uint16): uint8
  {
    ((v + 7) / 8) % 256
  }

  /** The main header of the payload whose scan chunk starts at `off`: type-specific byte,
      24-bit big-endian fragment offset, Type, Q = 255, width and height in blocks. */
  function MainHeader(h: Header, off: nat): (r: seq<uint8>)
    ensures |r| == MainHeaderLen
  {
    [h.typeSpecific, (off / 0x1_0000) % 256, (off / 256) % 256, off % 256,
     TypeCode(h.jtype), 255, Blocks(h.width), Blocks(h.height)]
  }

  /** The quantization-table block: MBZ, precision, length 130, then id 0 with the luminance
      table and id 1 with the chrominance table. */
  function QtBlock(qt: Qtables): (r: seq<uint8>)
    ensures |r| == QtBlockLen
  {
    [0, 0, 0, 130, 0] + qt.lqt + [1] + qt.cqt
  }

  /** Bytes in front of the scan chunk of the payload at `off`. */
  function Overhead(off: nat): nat
  {
    if off == 0 then FirstOverhead else NextOverhead
  }

  /** The payload for the chunk `scan[off .. off + chunk]`. */
  function Payload(scan: seq<uint8>, h: Header, qt: Qtables, off: nat, chunk: nat): (r: seq<uint8>)
    requires off + chunk <= |scan|
    ensures |r| == Overhead(off) + chunk
  {
    MainHeader(h, off) + (if off == 0 then QtBlock(qt) else []) + scan[off .. off + chunk]
  }

  /** The payloads the chunk loop builds from offset `off` on, each as large as `mp` allows, or
      `None` when `mp` leaves no room for data after the headers. */
  function PacketsFrom(scan: seq<uint8>, h: Header, qt: Qtables, off: nat, mp: nat): Option<seq<Packet>>
    decreases |scan| - off
  {
    if off >= |scan| then Some([])
    else if mp <= Overhead(off) then None
    else
      var chunk := Min(|scan| - off, mp - Overhead(off));
      match PacketsFrom(scan, h, qt, off + chunk, mp)
      case None => None
      case Some(rest) => Some([Packet(Payload(scan, h, qt, off, chunk), off + chunk >= |scan|)] + rest)
  }

  /** Handing the payloads to `emit` in order: stops at the first one refused. The packets
      returned are the ones `emit` was called with. */
  function EmitAll(ps: seq<Packet>, emit: EmitFn): (bool, seq<Packet>)
    decreases |ps|
  {
    if ps == [] then (true, [])
    else if !emit(ps[0].payload, ps[0].last) then (false, [ps[0]])
    else
      var rest := EmitAll(ps[1..], emit);
      (rest.0, [ps[0]] + rest.1)
  }

  /** `packetize(jpg, |jpg|, width, height, type, type_specific, ts90k, mp, emit)`: its result and
      the payloads handed to `emit`. A null `jpg` or `emit` is `None`; `ts90k` plays no part. */
  function PacketizeSpec(jpg: Option<seq<uint8>>, h: Header, mp: nat, emit: Option<EmitFn>): (bool, seq<Packet>)
  {
    if jpg.None? || |jpg.value| < 4 || emit.None? then (false, [])
    else
      var ex := Extract(jpg.value, DefaultQtables());
      match ex.scan
      case None => (false, [])
      case Some((s, n)) => SendFrom(jpg.value[s .. s + n], h, ex.qt, mp, emit.value, 0)
  }

  /** The chunk loop of `packetize` from offset `off` on: the payload of the next chunk is built
      and handed to `emit`, and the loop stops when `mp` leaves no room for data or `emit`
      refuses. Its result and the packets handed to `emit`. */
  function SendFrom(scan: seq<uint8>, h: Header, qt: Qtables, mp: nat, emit: EmitFn, off: nat): (bool, seq<Packet>)
    decreases |scan| - off
  {
    if off >= |scan| then (true, [])
    else if mp <= Overhead(off) then (false, [])
    else
      var chunk := Min(|scan| - off, mp - Overhead(off));
      var p := Packet(Payload(scan, h, qt, off, chunk), off + chunk >= |scan|);
      if !emit(p.payload, p.last) then (false, [p])
      else
        var rest := SendFrom(scan, h, qt, mp, emit, off + chunk);
        (rest.0, [p] + rest.1)
  }

  /** `packetize`: `buf` is the static 1500-byte payload buffer, which must hold every payload. */
  method Packetize(jpg: Option<seq<uint8>>, width: uint16, height: uint16, jtype: JpegType,
                   typeSpecific: uint8, ts90k: uint32, maxPayload: nat, emit: Option<EmitFn>,
                   buf: array<uint8>)
    returns (ok: bool, ghost sent: seq<Packet>)
    requires buf.Length == PayloadBufferLen && maxPayload <= PayloadBufferLen
    modifies buf
    ensures (ok, sent) == PacketizeSpec(jpg, Header(typeSpecific, jtype, width, height), maxPayload, emit)
  {
    sent := [];
    if jpg.None? || |jpg.value| < 4 || emit.None? {
      return false, sent;
    }
    var extracted, start, scanLen, qt := ExtractQtablesAndScan(jpg.value, DefaultQtables());
    if !extracted {
      return false, sent;
    }
    var scan := jpg.value[start.value .. start.value + scanLen];
    var mainhdr: seq<uint8> := [typeSpecific, 0, 0, 0, TypeCode(jtype), 255, Blocks(width), Blocks(height)];
    var qthdr := QtBlock(qt);
    assert mainhdr == MainHeader(Header(typeSpecific, jtype, width, height), 0);
    ok, sent := SendChunks(scan, Header(typeSpecific, jtype, width, height), qt, mainhdr, qthdr, maxPayload, emit.value, buf);
  }

  /** The chunk loop of `packetize` over `scan`; the main header (offset 0) and the table block
      are built once before it. */
  method SendChunks(scan: seq<uint8>, ghost h: Header, ghost qt: Qtables, mainhdr: seq<uint8>, qthdr: seq<uint8>,
                    maxPayload: nat, emit: EmitFn, buf: array<uint8>)
    returns (ok: bool, ghost sent: seq<Packet>)
    requires mainhdr == MainHeader(h, 0) && qthdr == QtBlock(qt)
    requires buf.Length == PayloadBufferLen && maxPayload <= PayloadBufferLen
    modifies buf
    ensures (ok, sent) == SendFrom(scan, h, qt, maxPayload, emit, 0)
  {
    sent := [];
    var off := 0;
    ghost var whole := SendFrom(scan, h, qt, maxPayload, emit, 0);
    assert [] + whole.1 == whole.1;
    while off < |scan|
      invariant whole == (SendFrom(scan, h, qt, maxPayload, emit, off).0,
                          sent + SendFrom(scan, h, qt, maxPayload, emit, off).1)
      decreases |scan| - off
    {
      var stop, next;
      ghost var p;
      stop, ok, next, p := SendChunk(scan, h, qt, mainhdr, qthdr, maxPayload, emit, buf, off);
      AppendAssoc(sent, p, SendFrom(scan, h, qt, maxPayload, emit, next).1);
      sent := sent + p;
      if stop {
        return;
      }
      off := next;
    }
    assert sent + [] == sent;
    return true, sent;
  }

  /** One turn of the chunk loop at `off`: the room check, the payload, and the call of `emit`.
      The loop stops with `ok` when there is no room or `emit` refuses, and goes on at `next`
      otherwise; `p` is what was handed to `emit`. */
  method SendChunk(scan: seq<uint8>, ghost h: Header, ghost qt: Qtables, mainhdr: seq<uint8>, qthdr: seq<uint8>,
                   maxPayload: nat, emit: EmitFn, buf: array<uint8>, off: nat)
    returns (stop: bool, ok: bool, next: nat, ghost p: seq<Packet>)
    requires mainhdr == MainHeader(h, 0) && qthdr == QtBlock(qt)
    requires buf.Length == PayloadBufferLen && maxPayload <= PayloadBufferLen && off < |scan|
    modifies buf
    ensures stop ==> SendFrom(scan, h, qt, maxPayload, emit, off) == (ok, p)
    ensures !stop ==> off < next
    ensures !stop ==>
              SendFrom(scan, h, qt, maxPayload, emit, off)
              == (SendFrom(scan, h, qt, maxPayload, emit, next).0, p + SendFrom(scan, h, qt, maxPayload, emit, next).1)
  {
    var first := off == 0;
    var overhead := if first then FirstOverhead else NextOverhead;
    if maxPayload <= overhead {
      return true, false, off, [];
    }
    var chunk := |scan| - off;
    var maxChunk := maxPayload - overhead;
    if chunk > maxChunk {
      chunk := maxChunk;
    }
    var pos := FillPayload(buf, h, qt, mainhdr, qthdr, scan, off, chunk);
    var marker := off + chunk >= |scan|;
    SendFromStep(scan, h, qt, maxPayload, emit, off, chunk, buf[.. pos]);
    p := [Packet(buf[.. pos], marker)];
    if !emit(buf[.. pos], marker) {
      return true, false, off, p;
    }
    return false, true, off + chunk, p;
  }

  /** `SendFrom` at an offset where there is room, in terms of the payload built there. */
  lemma SendFromStep(scan: seq<uint8>, h: Header, qt: Qtables, mp: nat, emit: EmitFn, off: nat, chunk: nat,
                     payload: seq<uint8>)
    requires off < |scan| && Overhead(off) < mp
    requires chunk == Min(|scan| - off, mp - Overhead(off)) && payload == Payload(scan, h, qt, off, chunk)
    ensures SendFrom(scan, h, qt, mp, emit, off)
         == if !emit(payload, off + chunk >= |scan|) then (false, [Packet(payload, off + chunk >= |scan|)])
            else (SendFrom(scan, h, qt, mp, emit, off + chunk).0,
                  [Packet(payload, off + chunk >= |scan|)] + SendFrom(scan, h, qt, mp, emit, off + chunk).1)
  {
  }

  lemma AppendAssoc(s: seq<Packet>, t: seq<Packet>, u: seq<Packet>)
    ensures s + t + u == s + (t + u)
  {
  }

  /** One turn's filling of the payload buffer: the main header with the fragment offset of
      `off` written into bytes 1 to 3, the table block when `off` is 0, and the chunk. */
  method FillPayload(buf: array<uint8>, ghost h: Header, ghost qt: Qtables, mainhdr: seq<uint8>,
                     qthdr: seq<uint8>, scan: seq<uint8>, off: nat, chunk: nat)
    returns (pos: nat)
    requires mainhdr == MainHeader(h, 0) && qthdr == QtBlock(qt) && off + chunk <= |scan|
    requires buf.Length >= Overhead(off) + chunk
    modifies buf
    ensures pos == Overhead(off) + chunk
    ensures buf[.. pos] == Payload(scan, h, qt, off, chunk)
  {
    pos := 0;
    var mh: seq<uint8> := mainhdr[1 := (off / 0x1_0000) % 256][2 := (off / 256) % 256][3 := off % 256];
    assert mh == MainHeader(h, off);
    CopyInto(buf, pos, mh);
    pos := pos + MainHeaderLen;
    if off == 0 {
      CopyInto(buf, pos, qthdr);
      pos := pos + QtBlockLen;
    }
    CopyInto(buf, pos, scan[off .. off + chunk]);
    pos := pos + chunk;
  }

  /** `memcpy(buf + pos, src, |src|)`: the bytes before `pos` are kept. */
  method CopyInto(buf: array<uint8>, pos: nat, src: seq<uint8>)
    requires pos + |src| <= buf.Length
    modifies buf
    ensures buf[.. pos + |src|] == old(buf[.. pos]) + src
    ensures buf[pos + |src| ..] == old(buf[pos + |src| ..])
  {
    forall k | 0 <= k < |src| {
      buf[pos + k] := src[k];
    }
  }
}
