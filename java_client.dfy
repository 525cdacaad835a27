/**
 * The Java requester. V2 writes the type with `ByteBuffer.putInt` (big-endian
 * whatever the host) and reads the reply's type with `getInt` (signed); V3 writes
 * and reads one opcode byte. The transport's `requestResponse(...).block()` is a
 * parameter: the reply it delivers for a request.
 */
module JavaClient {
  import opened Wrappers
  import opened Bytes
  import opened MsgTypes
  import opened Protobuf
  import opened Rsocket
  import opened JavaNio

  datatype JavaError =
    | Nio(error: NioError)          // BufferOverflowException / BufferUnderflowException
    | InvalidProtocolBuffer         // Msg.Wrapper.parseFrom on bytes that are not a Wrapper

  /** convertTypeToOpcode: 1 -> 0x07, 2 -> 0x09, every other int -> 0x00. */
  function ConvertTypeToOpcode(msgType: Int32): (opcode: JByte)
    ensures opcode == 0x07 <==> msgType == Status.Value()
    ensures opcode == 0x09 <==> msgType == Container.Value()
    ensures opcode == 0x00 <==> FromValue(msgType).None?
  {
    if msgType == 1 then 0x07
    else if msgType == 2 then 0x09
    else 0x00
  }

  /** convertOpcodeToType: 0x07 -> 1, 0x09 -> 2, every other byte -> 0. */
  function ConvertOpcodeToType(opcode: JByte): (msgType: Int32)
    ensures msgType == Status.Value() <==> opcode == 0x07
    ensures msgType == Container.Value() <==> opcode == 0x09
    ensures msgType == 0 <==> opcode != 0x07 && opcode != 0x09
  {
    if opcode == 0x07 then 1
    else if opcode == 0x09 then 2
    else 0
  }

  /** A registered type survives type -> opcode -> type; every other type collapses to 0. */
  lemma TypeOpcodeRoundTrip(msgType: Int32)
    ensures ConvertOpcodeToType(ConvertTypeToOpcode(msgType)) == if FromValue(msgType).Some? then msgType else 0
  {
  }

  /** processMsg: 1 goes to the status parser, 2 to the container parser, any other int nowhere. */
  function ProcessMsg(msgType: int, data: Bytes): (r: Handling<Bytes>)
    ensures r == HandleStatus(data) <==> msgType == Status.Value()
    ensures r == HandleContainer(data) <==> msgType == Container.Value()
    ensures r == Ignored <==> FromValue(msgType).None?
  {
    if msgType == 1 then HandleStatus(data)
    else if msgType == 2 then HandleContainer(data)
    else Ignored
  }

  /** getData() / getMetadata(): the bytes of a payload field, an empty buffer when the field is absent. */
  function Contents(field: Option<Bytes>): (bs: Bytes)
    ensures field.Some? ==> bs == field.value
    ensures field.None? ==> bs == []
  {
    field.GetOr([])
  }

  // ---- V1 ----

  /** The V1 request: the envelope with the type and no body as data, no metadata. */
  function RequestV1(msgType: Int32, pb: Codec): (p: Payload)
    ensures p.metadata.None? && p.data.Some?
    ensures pb.Valid() ==> pb.parse(p.data.value) == Some(Wrapper(msgType, []))
  {
    Payload(Some(pb.serialize(Wrapper(msgType, []))), None)
  }

  /** processV1Client: parse the reply's envelope, process its tag and body. */
  function ExchangeV1(msgType: Int32, pb: Codec, transport: Payload -> Payload): (r: Result<Handling<Bytes>, JavaError>)
    ensures var data := Contents(transport(RequestV1(msgType, pb)).data);
      && (r.Err? <==> pb.parse(data).None?)
      && (r.Ok? ==> r.value == ProcessMsg(pb.parse(data).value.msgType, pb.parse(data).value.data))
  {
    var responseData := transport(RequestV1(msgType, pb));
    match pb.parse(Contents(responseData.data))
    case None => Err(InvalidProtocolBuffer)
    case Some(responseEntity) => Ok(ProcessMsg(responseEntity.msgType, responseEntity.data))
  }

  // ---- V2 ----

  /** The V2 request: empty data, the type as four big-endian bytes (allocate, putInt, array). */
  method EncodeRequestV2(msgType: Int32) returns (p: Payload)
    ensures p == Payload(Some([]), Some(Int32ToBytes(msgType)))
  {
    var buffer := new ByteBuffer.Allocate(INTEGER_BYTES);
    var written := buffer.PutInt(msgType);
    assert written.Ok?;
    var typeBuffer := buffer.hb[..];
    assert typeBuffer == Int32ToBytes(msgType);
    p := Payload(Some([]), Some(typeBuffer));
  }

  /** The V2 reply's type: the first four metadata bytes read as a signed big-endian int; fewer bytes underflow. */
  function ResponseTypeV2(reply: Payload): (r: Result<Int32, JavaError>)
    ensures r.Err? <==> |Contents(reply.metadata)| < INTEGER_BYTES
    ensures r.Err? ==> r.error == Nio(BufferUnderflow)
    ensures r.Ok? ==> Int32ToBytes(r.value) == Contents(reply.metadata)[..INTEGER_BYTES]
  {
    var meta := Contents(reply.metadata);
    if |meta| < INTEGER_BYTES then Err(Nio(BufferUnderflow))
    else
      Int32BytesRoundTrip(meta[..INTEGER_BYTES]);
      Ok(Int32FromBytes(meta[..INTEGER_BYTES]))
  }

  method DecodeResponseTypeV2(reply: Payload) returns (r: Result<Int32, JavaError>)
    ensures r == ResponseTypeV2(reply)
  {
    var metadata := new ByteBuffer.Wrap(Contents(reply.metadata));
    var got := metadata.GetInt();
    match got {
      case Err(e) => r := Err(Nio(e));
      case Ok(v) => r := Ok(v);
    }
  }

  /** processV2Client, as a value: the reply's type picks the processor of the reply's data. */
  function ExchangeV2(msgType: Int32, transport: Payload -> Payload): (r: Result<Handling<Bytes>, JavaError>)
    ensures var reply := transport(Payload(Some([]), Some(Int32ToBytes(msgType))));
      && (r.Err? <==> ResponseTypeV2(reply).Err?)
      && (r.Ok? ==> r.value == ProcessMsg(ResponseTypeV2(reply).value, Contents(reply.data)))
  {
    var reply := transport(Payload(Some([]), Some(Int32ToBytes(msgType))));
    var responseType :- ResponseTypeV2(reply);
    Ok(ProcessMsg(responseType, Contents(reply.data)))
  }

  method ProcessV2Client(msgType: Int32, transport: Payload -> Payload) returns (r: Result<Handling<Bytes>, JavaError>)
    ensures r == ExchangeV2(msgType, transport)
  {
    var request := EncodeRequestV2(msgType);
    var responseData := transport(request);
    var responseType := DecodeResponseTypeV2(responseData);
    match responseType {
      case Err(e) => r := Err(e);
      case Ok(t) => r := Ok(ProcessMsg(t, Contents(responseData.data)));
    }
  }

  // ---- V3 ----

  /** The V3 request: empty data, the type's opcode as the single metadata byte (allocate, put, array). */
  method EncodeRequestV3(msgType: Int32) returns (p: Payload)
    ensures p == Payload(Some([]), Some([FromJByte(ConvertTypeToOpcode(msgType))]))
  {
    var buffer := new ByteBuffer.Allocate(BYTE_BYTES);
    var written := buffer.Put(ConvertTypeToOpcode(msgType));
    assert written.Ok?;
    var typeBuffer := buffer.hb[..];
    assert typeBuffer == [FromJByte(ConvertTypeToOpcode(msgType))];
    p := Payload(Some([]), Some(typeBuffer));
  }

  /** The V3 reply's type: the first metadata byte looked up as an opcode (0 when unknown); empty metadata underflows. */
  function ResponseTypeV3(reply: Payload): (r: Result<Int32, JavaError>)
    ensures r.Err? <==> Contents(reply.metadata) == []
    ensures r.Err? ==> r.error == Nio(BufferUnderflow)
    ensures r.Ok? ==> r.value in {0, 1, 2}
    ensures r.Ok? && r.value != 0 ==> FromJByte(ConvertTypeToOpcode(r.value)) == Contents(reply.metadata)[0]
    ensures r.Ok? ==> (r.value == 0 <==> Contents(reply.metadata)[0] !in {0x07, 0x09})
  {
    var meta := Contents(reply.metadata);
    if meta == [] then Err(Nio(BufferUnderflow))
    else Ok(ConvertOpcodeToType(ToJByte(meta[0])))
  }

  method DecodeResponseTypeV3(reply: Payload) returns (r: Result<Int32, JavaError>)
    ensures r == ResponseTypeV3(reply)
  {
    var metadata := new ByteBuffer.Wrap(Contents(reply.metadata));
    var got := metadata.Get();
    match got {
      case Err(e) => r := Err(Nio(e));
      case Ok(b) => r := Ok(ConvertOpcodeToType(b));
    }
  }

  /** processV3Client, as a value: the reply's opcode picks the processor of the reply's data. */
  function ExchangeV3(msgType: Int32, transport: Payload -> Payload): (r: Result<Handling<Bytes>, JavaError>)
    ensures var reply := transport(Payload(Some([]), Some([FromJByte(ConvertTypeToOpcode(msgType))])));
      && (r.Err? <==> ResponseTypeV3(reply).Err?)
      && (r.Ok? ==> r.value == ProcessMsg(ResponseTypeV3(reply).value, Contents(reply.data)))
  {
    var reply := transport(Payload(Some([]), Some([FromJByte(ConvertTypeToOpcode(msgType))])));
    var responseType :- ResponseTypeV3(reply);
    Ok(ProcessMsg(responseType, Contents(reply.data)))
  }

  method ProcessV3Client(msgType: Int32, transport: Payload -> Payload) returns (r: Result<Handling<Bytes>, JavaError>)
    ensures r == ExchangeV3(msgType, transport)
  {
    var request := EncodeRequestV3(msgType);
    var responseData := transport(request);
    var responseType := DecodeResponseTypeV3(responseData);
    match responseType {
      case Err(e) => r := Err(e);
      case Ok(t) => r := Ok(ProcessMsg(t, Contents(responseData.data)));
    }
  }

  // ---- main ----

  /** The version switch of main: one exchange for versions 1, 2 and 3, no request at all for any other version. */
  method RunClient(protocolVersion: Int32, msgType: Int32, pb: Codec, transport: Payload -> Payload)
    returns (r: Option<Result<Handling<Bytes>, JavaError>>)
    ensures r.None? <==> protocolVersion !in {1, 2, 3}
    ensures protocolVersion == 1 ==> r == Some(ExchangeV1(msgType, pb, transport))
    ensures protocolVersion == 2 ==> r == Some(ExchangeV2(msgType, transport))
    ensures protocolVersion == 3 ==> r == Some(ExchangeV3(msgType, transport))
  {
    r := None;
    match protocolVersion {
      case 1 =>
        r := Some(ExchangeV1(msgType, pb, transport));
      case 2 =>
        var outcome := ProcessV2Client(msgType, transport);
        r := Some(outcome);
      case 3 =>
        var outcome := ProcessV3Client(msgType, transport);
        r := Some(outcome);
      case _ =>
    }
  }
}
