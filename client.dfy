/**
 * The Python requester: for each protocol version, the request it sends for a
 * type id and how it reads the kind of the reply and hands the body on. The
 * transport's `request_response` is a parameter: the reply it delivers for a request.
 */
module Client {
  import opened Wrappers
  import opened Bytes
  import opened PyInt
  import opened MsgTypes
  import opened Utils
  import opened Protobuf
  import opened Rsocket

  /** process_msg: 1 goes to the status parser, 2 to the container parser, anything else (None included) nowhere. */
  function ProcessMsg(msgType: Option<int>, data: Option<Bytes>): (r: Handling<Option<Bytes>>)
    ensures r == HandleStatus(data) <==> msgType == Some(Status.Value())
    ensures r == HandleContainer(data) <==> msgType == Some(Container.Value())
    ensures r == Ignored <==> msgType.None? || FromValue(msgType.value).None?
  {
    if msgType == Some(Status.Value()) then HandleStatus(data)
    else if msgType == Some(Container.Value()) then HandleContainer(data)
    else Ignored
  }

  /** The V1 request: an envelope with the type and no body, in the data; no metadata. */
  function RequestV1(msgType: int, pb: Codec): (p: Payload)
    ensures p.metadata.None? && p.data.Some?
    ensures pb.Valid() ==> pb.parse(p.data.value) == Some(Wrapper(msgType, []))
  {
    Payload(Some(pb.serialize(Wrapper(msgType, []))), None)
  }

  /** The V1 reply read back: the envelope parsed out of the data, its tag and body handed to process_msg. */
  function OnReplyV1(result: Payload, pb: Codec): (r: Result<Handling<Option<Bytes>>, PyError>)
    ensures result.data.None? ==> r == Err(TypeError)
    ensures r.Ok? <==> result.data.Some? && pb.parse(result.data.value).Some?
    ensures r.Ok? ==> r.value == ProcessMsg(Some(pb.parse(result.data.value).value.msgType),
                                            Some(pb.parse(result.data.value).value.data))
  {
    match result.data
    case None => Err(TypeError)
    case Some(data) =>
      match pb.parse(data)
      case None => Err(DecodeError)
      case Some(rmsg) => Ok(ProcessMsg(Some(rmsg.msgType), Some(rmsg.data)))
  }

  /** The V2 request: empty data and the type as a C-int-wide integer in the reversed byte order. */
  function RequestV2(msgType: int, host: ByteOrder): (r: Result<Payload, PyError>)
    ensures r.Err? <==> msgType < 0 || msgType >= Pow256(C_INT_SIZE)
    ensures r.Err? ==> r.error == OverflowError
    ensures r.Ok? ==> r.value.data == Some([]) && r.value.metadata.Some?
    ensures r.Ok? ==> |r.value.metadata.value| == C_INT_SIZE
    ensures r.Ok? ==> FromBytes(r.value.metadata.value, GetReverseOrder(host)) == msgType
  {
    var metaTypeData :- ToBytes(msgType, C_INT_SIZE, GetReverseOrder(host));
    FromToBytes(msgType, C_INT_SIZE, GetReverseOrder(host));
    Ok(Payload(Some([]), Some(metaTypeData)))
  }

  /** The V2 reply's type: the metadata read as an unsigned integer in the reversed byte order, any length. */
  function ResponseTypeV2(result: Payload, host: ByteOrder): (r: Result<nat, PyError>)
    ensures r.Err? <==> result.metadata.None?
    ensures r.Err? ==> r.error == TypeError
    ensures r.Ok? ==> ToBytes(r.value, |result.metadata.value|, GetReverseOrder(host)) == Ok(result.metadata.value)
  {
    match result.metadata
    case None => Err(TypeError)
    case Some(meta) =>
      ToFromBytes(meta, GetReverseOrder(host));
      Ok(FromBytes(meta, GetReverseOrder(host)))
  }

  /** The V3 request: empty data and the type's opcode as metadata, None for a type outside the registry. */
  function RequestV3(msgType: int): (p: Payload)
    ensures p.data == Some([])
    ensures p.metadata.None? <==> FromValue(msgType).None?
    ensures p.metadata.Some? ==> ConvertOpcodeToType(p.metadata) == FromValue(msgType)
  {
    Payload(Some([]), ConvertTypeToOpcode(Some(msgType)))
  }

  /** The V3 reply's kind: the metadata bytes looked up as an opcode, None when they name no kind. */
  function ResponseTypeV3(result: Payload): (r: Result<Option<MsgType>, PyError>)
    ensures r.Err? <==> result.metadata.None?
    ensures r.Err? ==> r.error == TypeError
    ensures r.Ok? && r.value.Some? ==> ConvertTypeToOpcode(Some(r.value.value.Value())) == result.metadata
    ensures r.Ok? && r.value.None? ==> result.metadata.value !in {MSG_STATUS_OPCODE, MSG_CONTAINER_OPCODE}
  {
    match result.metadata
    case None => Err(TypeError)    // bytes(None)
    case Some(opcode) => Ok(ConvertOpcodeToType(Some(opcode)))
  }

  /** The id a kind compares equal to when process_msg receives the MsgType (or None). */
  function ValueOf(t: Option<MsgType>): (r: Option<int>)
    ensures r.None? <==> t.None?
    ensures r.Some? ==> FromValue(r.value) == t
  {
    match t
    case None => None
    case Some(k) => Some(k.Value())
  }

  /** run_request_response_V1: send the envelope, parse the reply's envelope, process it. */
  function RunRequestResponseV1(msgType: int, pb: Codec, transport: Payload -> Payload): Result<Handling<Option<Bytes>>, PyError>
  {
    var result := transport(RequestV1(msgType, pb));
    OnReplyV1(result, pb)
  }

  /** run_request_response_V2: nothing is sent when the type does not fit; otherwise the reply's tag picks the processor. */
  function RunRequestResponseV2(msgType: int, host: ByteOrder, transport: Payload -> Payload): (r: Result<Handling<Option<Bytes>>, PyError>)
    ensures RequestV2(msgType, host).Err? ==> r == Err(OverflowError)
    ensures RequestV2(msgType, host).Ok? ==>
      var result := transport(RequestV2(msgType, host).value);
      && (r.Err? <==> result.metadata.None?)
      && (r.Ok? ==> r.value == ProcessMsg(Some(ResponseTypeV2(result, host).value), result.data))
  {
    var payload :- RequestV2(msgType, host);
    var result := transport(payload);
    var responseType :- ResponseTypeV2(result, host);
    Ok(ProcessMsg(Some(responseType), result.data))
  }

  /** run_request_response_V3: the reply's opcode, looked up, picks the processor. */
  function RunRequestResponseV3(msgType: int, transport: Payload -> Payload): (r: Result<Handling<Option<Bytes>>, PyError>)
    ensures var result := transport(RequestV3(msgType));
      && (r.Err? <==> result.metadata.None?)
      && (r.Ok? ==> r.value == ProcessMsg(ValueOf(ConvertOpcodeToType(result.metadata)), result.data))
  {
    var result := transport(RequestV3(msgType));
    var responseType :- ResponseTypeV3(result);
    Ok(ProcessMsg(ValueOf(responseType), result.data))
  }

  /** main: exactly one exchange, of the chosen version, for versions 1, 2 and 3; none for any other version. */
  function Main(msgType: int, version: int, host: ByteOrder, pb: Codec, transport: Payload -> Payload)
    : (r: Option<Result<Handling<Option<Bytes>>, PyError>>)
    ensures r.None? <==> version !in {1, 2, 3}
    ensures version == 1 ==> r == Some(RunRequestResponseV1(msgType, pb, transport))
    ensures version == 2 ==> r == Some(RunRequestResponseV2(msgType, host, transport))
    ensures version == 3 ==> r == Some(RunRequestResponseV3(msgType, transport))
  {
    if version == 1 then Some(RunRequestResponseV1(msgType, pb, transport))
    else if version == 2 then Some(RunRequestResponseV2(msgType, host, transport))
    else if version == 3 then Some(RunRequestResponseV3(msgType, transport))
    else None
  }
}
