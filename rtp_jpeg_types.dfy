/** The types shared by the JPEG scanner and the RTP/JPEG packetizer. */
module RtpJpegTypes {
  import opened Common

  /** One 8-bit quantization table: 64 entries in zig-zag order. */
  type Table = t: seq<uint8> | |t| == 64 witness seq(64, _ => 0)

  /** The luminance (id 0) and chrominance (id 1) tables of a frame; `have` is set when both were found. */
  datatype Qtables = Qtables(have: bool, lqt: Table, cqt: Table)

  /** A value-initialised `Qtables`: no tables yet, both zero-filled. */
  function DefaultQtables(): (q: Qtables)
    ensures !q.have
    ensures forall k :: 0 <= k < 64 ==> q.lqt[k] == 0 && q.cqt[k] == 0
  {
    Qtables(false, seq(64, _ => 0), seq(64, _ => 0))
  }

  /** Chroma subsampling of the frame, as the RFC 2435 Type field knows it. */
  datatype JpegType = YUV422 | YUV420

  /** The enum's underlying value, which becomes the Type byte of the main header. */
  function TypeCode(t: JpegType): (c: uint8)
    ensures c <= 1
    ensures c == 1 <==> t == YUV420
  {
    match t
    case YUV422 => 0
    case YUV420 => 1
  }

  /** One call of `emit`: the RTP payload (everything after the RTP header) and the marker flag. */
  datatype Packet = Packet(payload: seq<uint8>, last: bool)

  /** The `emit` callback: it is shown a payload and the marker flag and answers whether to go on. */
  type EmitFn = (seq<uint8>, bool) -> bool
}
