// Binary terminal frames: a 4-byte big-endian stream id followed by the payload
// (internal/runnerproto/message.go).

module StreamFrames {
  import opened Wrappers

  newtype byte = x: int | 0 <= x < 256

  type bytes = seq<byte>

  const UINT32_LIMIT := 0x1_0000_0000

  type uint32 = x: int | 0 <= x < UINT32_LIMIT

  const STREAM_HEADER_LEN := 4

  function ByteAt(id: uint32, k: nat): byte
    requires k < 4
  {
    (match k
     case 0 => id / 0x100_0000
     case 1 => id / 0x1_0000 % 0x100
     case 2 => id / 0x100 % 0x100
     case _ => id % 0x100) as byte
  }

  // The frame EncodeStreamFrame has to fill in.
  function Encoded(id: uint32, data: bytes): (frame: bytes)
    ensures |frame| == STREAM_HEADER_LEN + |data|
    ensures frame[STREAM_HEADER_LEN..] == data
  {
    [ByteAt(id, 0), ByteAt(id, 1), ByteAt(id, 2), ByteAt(id, 3)] + data
  }

  datatype FrameError = ErrShortFrame

  function DecodeStreamFrame(frame: bytes): Result<(uint32, bytes), FrameError> {
    if |frame| < STREAM_HEADER_LEN then Err(ErrShortFrame)
    else
      var id := frame[0] as int * 0x100_0000 + frame[1] as int * 0x1_0000 + frame[2] as int * 0x100 + frame[3] as int;
      Ok((id, frame[STREAM_HEADER_LEN..]))
  }

  // Fills the buffer in place: the header first, then the payload byte by byte.
  method EncodeStreamFrame(id: uint32, data: bytes) returns (frame: array<byte>)
    ensures fresh(frame)
    ensures frame[..] == Encoded(id, data)
  {
    frame := new byte[STREAM_HEADER_LEN + |data|];
    frame[0], frame[1], frame[2], frame[3] := ByteAt(id, 0), ByteAt(id, 1), ByteAt(id, 2), ByteAt(id, 3);
    for i := 0 to |data|
      invariant frame[..STREAM_HEADER_LEN] == Encoded(id, data)[..STREAM_HEADER_LEN]
      invariant forall j :: 0 <= j < i ==> frame[STREAM_HEADER_LEN + j] == data[j]
    {
      frame[STREAM_HEADER_LEN + i] := data[i];
    }
    assert frame[..] == frame[..STREAM_HEADER_LEN] + frame[STREAM_HEADER_LEN..];
    assert frame[STREAM_HEADER_LEN..] == data;
    assert Encoded(id, data) == Encoded(id, data)[..STREAM_HEADER_LEN] + data;
  }

  // Decoding undoes encoding for every id and payload.
  lemma DecodeAfterEncode(id: uint32, data: bytes)
    ensures DecodeStreamFrame(Encoded(id, data)) == Ok((id, data))
  {
    var hi, lo := id / 0x1_0000, id % 0x1_0000;
    assert id / 0x100 == hi * 0x100 + lo / 0x100;
    assert id == hi * 0x1_0000 + lo;
    assert hi == hi / 0x100 * 0x100 + hi % 0x100 && lo == lo / 0x100 * 0x100 + lo % 0x100;
    assert id / 0x100_0000 == hi / 0x100 && id / 0x100 % 0x100 == lo / 0x100 && id % 0x100 == lo % 0x100;
  }

  // Every frame that decodes is the encoding of what it decodes to, so exactly the
  // frames shorter than the header are refused.
  lemma EncodeAfterDecode(frame: bytes)
    ensures DecodeStreamFrame(frame).Err? <==> |frame| < STREAM_HEADER_LEN
    ensures DecodeStreamFrame(frame).Ok? ==>
              var (id, data) := DecodeStreamFrame(frame).value; Encoded(id, data) == frame
  {
    if |frame| >= STREAM_HEADER_LEN {
      var a, b, c, d := frame[0] as int, frame[1] as int, frame[2] as int, frame[3] as int;
      var (id, data) := DecodeStreamFrame(frame).value;
      assert id / 0x100_0000 == a;
      assert id / 0x1_0000 == a * 0x100 + b;
      assert id / 0x100 == a * 0x1_0000 + b * 0x100 + c;
      assert frame == frame[..STREAM_HEADER_LEN] + data;
    }
  }
}
