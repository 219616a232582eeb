/** StreamBuffers and the message-type constants: the layouts of the control
    messages. Byte 0 is the priority, byte 1 a stream id, byte 2 the type;
    the rest depends on the type. Multi-byte fields are big-endian. */
module Codec {
  import opened Bytes
  import opened Outcomes

  const CONNECT_REQUEST: Byte := 1
  const CONNECT_CONFIRM: Byte := 2
  const CONNECT_FAIL: Byte := 3
  const CLOSE: Byte := 4
  const DATA: Byte := 5
  const BUFINC: Byte := 6

  /** The error codes the connect dispatcher puts in a CONNECT_FAIL. */
  const NO_LISTENER: int := 1
  const LIMIT_EXCEEDED: int := 2

  /** A big-endian 16-bit field read back as an unsigned value. */
  function Uint16(hi: Byte, lo: Byte): (v: int)
    ensures 0 <= v < 0x1_0000
    ensures v / 256 == hi as int && v % 256 == lo as int
  {
    hi as int * 256 + lo as int
  }

  /** `writeInt16(x)`: the low 16 bits of `x`, high byte first. */
  function Int16(x: int): (r: seq<Byte>)
    ensures |r| == 2
    ensures Uint16(r[0], r[1]) == x % 0x1_0000
  {
    var y := x % 0x1_0000;
    [(y / 256) as Byte, (y % 256) as Byte]
  }

  /** Any two wire bytes are the encoding of the value they denote. */
  lemma Uint16Inverse(hi: Byte, lo: Byte)
    ensures Int16(Uint16(hi, lo)) == [hi, lo]
  {
    var v := Uint16(hi, lo);
    assert v % 0x1_0000 == v;
  }

  /** A 16-bit field in 0..65535 survives the trip through the wire. */
  lemma Int16RoundTrip(x: int)
    requires 0 <= x < 0x1_0000
    ensures Uint16(Int16(x)[0], Int16(x)[1]) == x
  {
  }

  // ---------------------------------------------------------------------
  // The three connect-handshake messages.

  /** CONNECT_REQUEST fields: priority, the requester's stream id, the port. */
  datatype RequestFields = RequestFields(priority: int, streamId: int, port: int)
  /** CONNECT_CONFIRM fields from the receiver's side: byte 1 is its own id,
      byte 3 the id the peer allocated. */
  datatype ConfirmFields = ConfirmFields(priority: int, localId: int, remoteId: int)
  /** CONNECT_FAIL fields from the receiver's side. */
  datatype FailFields = FailFields(priority: int, localId: int, errorCode: int)

  /** `createConnectRequest` as written: the fields are written into one
      buffer, but a second, empty buffer is returned. */
  function CreateConnectRequestAsWritten(priority: int, localStreamId: int, port: int): (r: seq<Byte>)
    ensures |r| == 0
  {
    []
  }

  /** `createConnectRequest` returning the buffer it fills:
      [priority, localStreamId, 1, port16]. */
  function CreateConnectRequest(priority: int, localStreamId: int, port: int): (r: seq<Byte>)
    ensures |r| == 5 && r[2] == CONNECT_REQUEST
  {
    [LowByte(priority), LowByte(localStreamId), CONNECT_REQUEST] + Int16(port)
  }

  /** `createConnectConfirm`: [priority, remoteStreamId, 2, localStreamId]. */
  function CreateConnectConfirm(priority: int, remoteStreamId: int, localStreamId: int): (r: seq<Byte>)
    ensures |r| == 4 && r[2] == CONNECT_CONFIRM
  {
    [LowByte(priority), LowByte(remoteStreamId), CONNECT_CONFIRM, LowByte(localStreamId)]
  }

  /** `createConnectFail`: [priority, remoteStreamId, 3, errorCode16]. */
  function CreateConnectFail(priority: int, remoteStreamId: int, errorCode: int): (r: seq<Byte>)
    ensures |r| == 5 && r[2] == CONNECT_FAIL
  {
    [LowByte(priority), LowByte(remoteStreamId), CONNECT_FAIL] + Int16(errorCode)
  }

  /** Reads a connect request; anything but a five-byte type-1 message is refused. */
  function DecodeConnectRequest(m: seq<Byte>): (r: Option<RequestFields>)
    ensures r.Some? <==> |m| == 5 && m[2] == CONNECT_REQUEST
    ensures r.Some? ==> 0 <= r.value.priority < 256 && 0 <= r.value.streamId < 256 &&
                        0 <= r.value.port < 0x1_0000
  {
    if |m| == 5 && m[2] == CONNECT_REQUEST then
      Some(RequestFields(m[0] as int, m[1] as int, Uint16(m[3], m[4])))
    else None
  }

  /** Reads a connect confirm; anything but a four-byte type-2 message is refused. */
  function DecodeConnectConfirm(m: seq<Byte>): (r: Option<ConfirmFields>)
    ensures r.Some? <==> |m| == 4 && m[2] == CONNECT_CONFIRM
    ensures r.Some? ==> 0 <= r.value.priority < 256 && 0 <= r.value.localId < 256 &&
                        0 <= r.value.remoteId < 256
  {
    if |m| == 4 && m[2] == CONNECT_CONFIRM then
      Some(ConfirmFields(m[0] as int, m[1] as int, m[3] as int))
    else None
  }

  /** Reads a connect fail; anything but a five-byte type-3 message is refused. */
  function DecodeConnectFail(m: seq<Byte>): (r: Option<FailFields>)
    ensures r.Some? <==> |m| == 5 && m[2] == CONNECT_FAIL
    ensures r.Some? ==> 0 <= r.value.priority < 256 && 0 <= r.value.localId < 256 &&
                        0 <= r.value.errorCode < 0x1_0000
  {
    if |m| == 5 && m[2] == CONNECT_FAIL then
      Some(FailFields(m[0] as int, m[1] as int, Uint16(m[3], m[4])))
    else None
  }

  /** The request as written carries nothing back: the test's round trip
      (priority 12, stream 17, port 8080) cannot hold. */
  lemma ConnectRequestAsWrittenLosesFields(priority: int, localStreamId: int, port: int)
    ensures DecodeConnectRequest(CreateConnectRequestAsWritten(priority, localStreamId, port)) == None
    ensures DecodeConnectRequest(CreateConnectRequestAsWritten(12, 17, 8080)) != Some(RequestFields(12, 17, 8080))
  {
  }

  /** The filled request decodes to the low 8, 8 and 16 bits of its fields. */
  lemma ConnectRequestRoundTrip(priority: int, localStreamId: int, port: int)
    ensures DecodeConnectRequest(CreateConnectRequest(priority, localStreamId, port)) ==
            Some(RequestFields(priority % 256, localStreamId % 256, port % 0x1_0000))
  {
  }

  /** A confirm decodes to the low eight bits of its fields, with byte 1 read
      as the receiver's own id and byte 3 as the peer's. */
  lemma ConnectConfirmRoundTrip(priority: int, remoteStreamId: int, localStreamId: int)
    ensures DecodeConnectConfirm(CreateConnectConfirm(priority, remoteStreamId, localStreamId)) ==
            Some(ConfirmFields(priority % 256, remoteStreamId % 256, localStreamId % 256))
  {
  }

  /** A fail decodes to the low 8, 8 and 16 bits of its fields. */
  lemma ConnectFailRoundTrip(priority: int, remoteStreamId: int, errorCode: int)
    ensures DecodeConnectFail(CreateConnectFail(priority, remoteStreamId, errorCode)) ==
            Some(FailFields(priority % 256, remoteStreamId % 256, errorCode % 0x1_0000))
  {
  }

  /** The test vectors: fields in range come back unchanged. */
  lemma ConnectBuffersTestVectors()
    ensures DecodeConnectRequest(CreateConnectRequest(12, 17, 8080)) == Some(RequestFields(12, 17, 8080))
    ensures DecodeConnectConfirm(CreateConnectConfirm(12, 17, 23)) == Some(ConfirmFields(12, 17, 23))
    ensures DecodeConnectFail(CreateConnectFail(12, 17, 10010)) == Some(FailFields(12, 17, 10010))
  {
    assert Int16(8080) == [31, 144];
    assert CreateConnectRequest(12, 17, 8080) == [12, 17, CONNECT_REQUEST, 31, 144];
    assert CreateConnectConfirm(12, 17, 23) == [12, 17, CONNECT_CONFIRM, 23];
    assert Int16(10010) == [39, 26];
    assert CreateConnectFail(12, 17, 10010) == [12, 17, CONNECT_FAIL, 39, 26];
  }

  /** Every well-formed request is the encoding of its decoded fields. */
  lemma DecodeConnectRequestInverse(m: seq<Byte>)
    requires DecodeConnectRequest(m).Some?
    ensures var f := DecodeConnectRequest(m).value; CreateConnectRequest(f.priority, f.streamId, f.port) == m
  {
    Uint16Inverse(m[3], m[4]);
    assert m == m[..3] + [m[3], m[4]];
  }

  /** Every well-formed confirm is the encoding of its decoded fields. */
  lemma DecodeConnectConfirmInverse(m: seq<Byte>)
    requires DecodeConnectConfirm(m).Some?
    ensures var f := DecodeConnectConfirm(m).value; CreateConnectConfirm(f.priority, f.localId, f.remoteId) == m
  {
  }

  /** Every well-formed fail is the encoding of its decoded fields. */
  lemma DecodeConnectFailInverse(m: seq<Byte>)
    requires DecodeConnectFail(m).Some?
    ensures var f := DecodeConnectFail(m).value; CreateConnectFail(f.priority, f.localId, f.errorCode) == m
  {
    Uint16Inverse(m[3], m[4]);
    assert m == m[..3] + [m[3], m[4]];
  }

  /** Both answers to a request start with the request's priority and the
      requester's stream id, so the requester can route them. */
  lemma ResponsesEchoRequest(priority: int, remoteStreamId: int, localStreamId: int, errorCode: int)
    ensures CreateConnectConfirm(priority, remoteStreamId, localStreamId)[..2] == [LowByte(priority), LowByte(remoteStreamId)]
    ensures CreateConnectFail(priority, remoteStreamId, errorCode)[..2] == [LowByte(priority), LowByte(remoteStreamId)]
  {
  }

  /** The two failures the dispatcher sends, byte for byte. */
  lemma DispatcherFailBytes(priority: int, remoteStreamId: int)
    ensures CreateConnectFail(priority, remoteStreamId, NO_LISTENER) ==
            [LowByte(priority), LowByte(remoteStreamId), 3, 0, 1]
    ensures CreateConnectFail(priority, remoteStreamId, LIMIT_EXCEEDED) ==
            [LowByte(priority), LowByte(remoteStreamId), 3, 0, 2]
  {
    assert Int16(NO_LISTENER) == [0, 1];
    assert Int16(LIMIT_EXCEEDED) == [0, 2];
  }

  // ---------------------------------------------------------------------
  // The port field as the message reader extracts it.

  /** The port read as written: two bytes are read into a two-byte array at
      offset 3, which is outside the array, so the read always throws. */
  function ReadPortAsWritten(m: seq<Byte>): (r: Result<int>)
    ensures r.Thrown?
  {
    var dstLength, off, len := 2, 3, 2;
    if off + len > dstLength then Thrown(IndexOutOfBounds) else Ok(0)
  }

  /** The port as the comment beside the read describes it: the big-endian
      value in bytes 3 and 4. */
  function ReadPort(m: seq<Byte>): (r: Result<int>)
    ensures r.Ok? <==> |m| >= 5
    ensures r.Thrown? ==> r.exc == IndexOutOfBounds
    ensures r.Ok? ==> 0 <= r.value < 0x1_0000
  {
    if |m| < 5 then Thrown(IndexOutOfBounds) else Ok(Uint16(m[3], m[4]))
  }

  /** The reader's port agrees with the request layout the peer sends. */
  lemma ReadPortMatchesRequest(priority: int, localStreamId: int, port: int)
    ensures ReadPort(CreateConnectRequest(priority, localStreamId, port)) == Ok(port % 0x1_0000)
    ensures ReadPortAsWritten(CreateConnectRequest(priority, localStreamId, port)) == Thrown(IndexOutOfBounds)
  {
  }
}
