/** The frame codec of common.go: `writeMessage` builds one frame, `readMessage`
    decodes one frame from the front of a byte stream.

    A frame is a 1-byte message type, a 4-byte big-endian payload length, a
    4-byte big-endian tag for Data frames only, then the payload. The stream a
    frame is read from is the sequence of bytes not yet read; reading reports
    how many of them it consumed and which bytes it wrote back to the peer. */
module Wire {
  import opened Base

  /** The three message types (common.go:27-32); any other byte can arrive. */
  const DataType: Byte := 0
  const PingType: Byte := 1
  const PongType: Byte := 2

  const HeaderSize: nat := 5
  const TagSize: nat := 4

  /** The error values of common.go:22-26, and the two `io.ReadFull` reports
      for a stream that ended: before any byte (EOF) or mid-field. */
  datatype Error =
    | EOF
    | UnexpectedEOF
    | MessageFormatInvalid
    | ConnectIdInvalid
    /** Returned only by the root client's `Send` on a nil connection, which
        is not part of this model; kept so the error set matches common.go. */
    | ConnectionInvalid

  /** Big-endian encoding of a uint32 (`binary.BigEndian.PutUint32`). */
  function BE32(x: U32): (b: seq<Byte>)
    ensures |b| == 4
  {
    [x / 0x100_0000, (x / 0x1_0000) % 0x100, (x / 0x100) % 0x100, x % 0x100]
  }

  /** Big-endian decoding of four bytes (`binary.BigEndian.Uint32`). */
  function FromBE32(b: seq<Byte>): U32
    requires |b| == 4
  {
    (b[0] as int) * 0x100_0000 + (b[1] as int) * 0x1_0000 + (b[2] as int) * 0x100 + b[3]
  }

  lemma DecodeEncode32(x: U32)
    ensures FromBE32(BE32(x)) == x
  {
    var b := BE32(x);
    assert x == (x / 0x100) * 0x100 + x % 0x100;
    var y := x / 0x100;
    assert y == (y / 0x100) * 0x100 + y % 0x100;
    var z := y / 0x100;
    assert z == (z / 0x100) * 0x100 + z % 0x100;
    assert y % 0x100 == b[2];
    assert z % 0x100 == (x / 0x1_0000) % 0x100 by {
      assert z == x / 0x1_0000;
    }
    assert z / 0x100 == x / 0x100_0000;
  }

  lemma EncodeDecode32(b: seq<Byte>)
    requires |b| == 4
    ensures BE32(FromBE32(b)) == b
  {
    var x := FromBE32(b);
    assert x / 0x100_0000 == b[0];
    assert x / 0x1_0000 == (b[0] as int) * 0x100 + b[1];
    assert x / 0x100 == (b[0] as int) * 0x1_0000 + (b[1] as int) * 0x100 + b[2];
  }

  /** The length field `uint32(len(data))`: the payload length truncated to 32 bits. */
  function LengthField(data: seq<Byte>): U32 {
    |data| % U32Count
  }

  /** The bytes `writeMessage(conn, msgType, tag, data)` hands to `conn.Write`
      (common.go:69-79). */
  function WriteMessage(msgType: Byte, tag: U32, data: seq<Byte>): (frame: seq<Byte>)
    ensures |frame| == (if msgType == DataType then HeaderSize + TagSize else HeaderSize) + |data|
    ensures frame[0] == msgType
    ensures FromBE32(frame[1..5]) == |data| % U32Count
    ensures msgType == DataType ==> FromBE32(frame[5..9]) == tag && frame[9..] == data
    ensures msgType != DataType ==> frame[5..] == data
  {
    DecodeEncode32(LengthField(data));
    DecodeEncode32(tag);
    var header := [msgType] + BE32(LengthField(data));
    var frame := if msgType == DataType then header + BE32(tag) + data else header + data;
    assert frame[1..5] == BE32(LengthField(data));
    assert msgType == DataType ==> frame[5..9] == BE32(tag);
    frame
  }

  /** The report of `io.ReadFull` asking for `wanted` bytes when `available` remain. */
  function ReadFullError(available: nat, wanted: nat): (e: Option<Error>)
    ensures e.None? <==> available >= wanted
    ensures e == Some(EOF) <==> available == 0 < wanted
    ensures e == Some(UnexpectedEOF) <==> 0 < available < wanted
  {
    if available >= wanted then None
    else if available == 0 then Some(EOF)
    else Some(UnexpectedEOF)
  }

  /** What one `readMessage` call returns, with the number of stream bytes it
      consumed and the bytes it wrote back on the same connection. A `None`
      payload is Go's nil slice. */
  datatype ReadResult = ReadResult(
    msgType: Byte,
    tag: U32,
    payload: Option<seq<Byte>>,
    err: Option<Error>,
    consumed: nat,
    reply: seq<Byte>)

  /** The Pong frame a Ping is answered with: `writeMessage(conn, 2, 0, nil)`. */
  function PongFrame(): seq<Byte> {
    WriteMessage(PongType, 0, [])
  }

  /** `readMessage` (common.go:34-66) on the unread bytes `input`. */
  function ReadMessage(input: seq<Byte>): (r: ReadResult)
    ensures r.consumed <= |input|
    ensures r.payload.Some? <==> r.err.None? && r.msgType == DataType
    ensures r.err.None? ==> HeaderSize <= r.consumed
    ensures r.reply != [] ==> r.err.None? && r.msgType == PingType
    ensures r.err.None? && r.msgType != DataType ==> r.consumed == HeaderSize
  {
    if |input| < HeaderSize then
      ReadResult(0, 0, None, ReadFullError(|input|, HeaderSize), |input|, [])
    else
      var msgType := input[0];
      var size := FromBE32(input[1..5]);
      if msgType == DataType then
        var rest := input[HeaderSize..];
        if |rest| < TagSize then
          ReadResult(msgType, 0, None, ReadFullError(|rest|, TagSize), HeaderSize + |rest|, [])
        else
          var tag := FromBE32(rest[..TagSize]);
          var body := rest[TagSize..];
          if |body| < size then
            ReadResult(msgType, 0, None, ReadFullError(|body|, size), HeaderSize + TagSize + |body|, [])
          else
            ReadResult(msgType, tag, Some(body[..size]), None, HeaderSize + TagSize + size, [])
      else if msgType == PingType then
        ReadResult(msgType, 0, None, None, HeaderSize, PongFrame())
      else if msgType == PongType then
        ReadResult(msgType, 0, None, None, HeaderSize, [])
      else
        ReadResult(msgType, 0, None, Some(MessageFormatInvalid), HeaderSize, [])
  }

  /** Round trip: reading a Data frame, whatever follows it on the stream,
      gives back its tag and payload and consumes exactly the frame. */
  lemma DataRoundTrip(tag: U32, data: seq<Byte>, rest: seq<Byte>)
    requires |data| < U32Count
    ensures ReadMessage(WriteMessage(DataType, tag, data) + rest)
         == ReadResult(DataType, tag, Some(data), None, |WriteMessage(DataType, tag, data)|, [])
  {
    var frame := WriteMessage(DataType, tag, data);
    var input := frame + rest;
    assert input[1..5] == frame[1..5];
    assert input[HeaderSize..][..TagSize] == frame[5..9];
    assert input[HeaderSize..][TagSize..][..|data|] == frame[9..];
  }

  /** The other direction: the bytes a successful Data read consumed are
      exactly the frame `writeMessage` builds from what it returned. */
  lemma DataReencode(input: seq<Byte>)
    requires ReadMessage(input).payload.Some?
    ensures var r := ReadMessage(input);
      input[..r.consumed] == WriteMessage(DataType, r.tag, r.payload.value)
  {
    var r := ReadMessage(input);
    var payload := r.payload.value;
    var n := |payload|;
    assert input[HeaderSize..][..TagSize] == input[5..9];
    assert payload == input[9..9 + n];
    EncodeDecode32(input[1..5]);
    EncodeDecode32(input[5..9]);
    FrameParts(input, 9 + n);
    assert n == FromBE32(input[1..5]);
    assert LengthField(payload) == n;
    assert WriteMessage(DataType, r.tag, payload) == [DataType] + BE32(n) + BE32(r.tag) + payload;
  }

  /** A frame prefix of a stream split at the header and tag boundaries. */
  lemma FrameParts(input: seq<Byte>, k: nat)
    requires 9 <= k <= |input|
    ensures input[..k] == [input[0]] + input[1..5] + input[5..9] + input[9..k]
  {
  }

  /** A Ping is answered with one 5-byte Pong frame (type 2, length 0); only
      its header is consumed, whatever its length field says, and no payload
      is returned. */
  lemma PingAnswered(input: seq<Byte>)
    requires |input| >= HeaderSize && input[0] == PingType
    ensures ReadMessage(input) == ReadResult(PingType, 0, None, None, HeaderSize, [PongType, 0, 0, 0, 0])
  {
    assert PongFrame() == [PongType] + BE32(0);
  }

  /** A Pong is accepted silently: header consumed, nothing returned or written. */
  lemma PongSilent(input: seq<Byte>)
    requires |input| >= HeaderSize && input[0] == PongType
    ensures ReadMessage(input) == ReadResult(PongType, 0, None, None, HeaderSize, [])
  {
  }

  /** A type byte outside {Data, Ping, Pong} is a format error with no payload. */
  lemma UnknownTypeRejected(input: seq<Byte>)
    requires |input| >= HeaderSize && input[0] > PongType
    ensures var r := ReadMessage(input);
      r.err == Some(MessageFormatInvalid) && r.payload.None? && r.msgType == input[0]
  {
  }

  /** Fewer than five bytes: an error, type 0, no payload; EOF exactly when
      the stream was already empty. */
  lemma ShortHeaderRejected(input: seq<Byte>)
    requires |input| < HeaderSize
    ensures var r := ReadMessage(input);
      r.err.Some? && r.payload.None? && r.msgType == 0 && (r.err == Some(EOF) <==> input == [])
  {
  }

  /** Every proper prefix of a Data frame, a truncated tag or a truncated
      payload included, fails to read and yields no partial payload. */
  lemma TruncatedDataRejected(tag: U32, data: seq<Byte>, k: nat)
    requires |data| < U32Count
    requires k < |WriteMessage(DataType, tag, data)|
    ensures var r := ReadMessage(WriteMessage(DataType, tag, data)[..k]);
      r.err.Some? && r.payload.None?
  {
    var frame := WriteMessage(DataType, tag, data);
    var input := frame[..k];
    if k >= HeaderSize {
      assert input[0] == DataType;
      assert input[1..5] == frame[1..5];
      assert FromBE32(input[1..5]) == |data|;
    }
  }
}
