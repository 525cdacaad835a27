/**
 * The Python responder: how each protocol version reads the tag out of a request
 * and builds the reply. The reply is what the handler's future resolves with;
 * `None` stands for "no reply" and `Err` for an exception raised by the handler.
 */
module Server {
  import opened Wrappers
  import opened Bytes
  import opened PyInt
  import opened MsgTypes
  import opened Utils
  import opened Protobuf
  import opened Rsocket

  /** The V3 tag of a request: None for empty metadata, otherwise the metadata itself, whatever its length. */
  function ExtractTypeOpcode(metadata: Option<Bytes>): (r: Result<Option<Bytes>, PyError>)
    ensures r == Err(TypeError) <==> metadata.None?
    ensures r == Ok(None) <==> metadata == Some([])
    ensures r.Ok? && r.value.Some? ==> r.value == metadata
    ensures metadata.Some? && metadata.value != [] ==> r == Ok(metadata)
  {
    match metadata
    case None => Err(TypeError)
    case Some(data) => if data == [] then Ok(None) else Ok(Some(data))
  }

  /** The V2 tag of a request: the unsigned value whose reversed-order encoding at the metadata's width is the metadata. */
  function ExtractMsgTypeIntFromMetadata(metadata: Option<Bytes>, host: ByteOrder): (r: Result<nat, PyError>)
    ensures r.Err? <==> metadata.None?
    ensures r.Err? ==> r.error == TypeError
    ensures metadata == Some([]) ==> r == Ok(0)
    ensures r.Ok? ==> ToBytes(r.value, |metadata.value|, GetReverseOrder(host)) == Ok(metadata.value)
  {
    match metadata
    case None => Err(TypeError)
    case Some(bs) =>
      ToFromBytes(bs, GetReverseOrder(host));
      Ok(FromBytes(bs, GetReverseOrder(host)))
  }

  /** The domain body the server sends for a kind (make_msg_status, make_msg_container). */
  function MakeMsg(t: MsgType, pb: Codec): (r: Bytes)
    ensures t == Status ==> r == pb.statusBody
    ensures t == Container ==> r == pb.containerBody
  {
    match t
    case Status => pb.statusBody
    case Container => pb.containerBody
  }

  /** The V1 reply body for a kind: its domain body inside an envelope tagged with the kind. */
  function MakeWrapper(t: MsgType, pb: Codec): (r: Bytes)
    ensures pb.Valid() ==> pb.parse(r) == Some(Wrapper(t.Value(), MakeMsg(t, pb)))
  {
    pb.serialize(Wrapper(t.Value(), MakeMsg(t, pb)))
  }

  /** The reply make_response_v1 resolves with. */
  function ResponseV1(msgType: Option<int>, pb: Codec): (r: Option<Payload>)
    ensures r.None? <==> msgType.None?
    ensures r.Some? ==> r.value.metadata.None?
    ensures r.Some? ==> (r.value.data.None? <==> FromValue(msgType.value).None?)
    ensures r.Some? && r.value.data.Some? && pb.Valid() ==>
      pb.parse(r.value.data.value) == Some(Wrapper(msgType.value, MakeMsg(FromValue(msgType.value).value, pb)))
  {
    match msgType
    case None => None
    case Some(n) =>
      var data := match FromValue(n) case Some(t) => Some(MakeWrapper(t, pb)) case None => None;
      Some(Payload(data, None))
  }

  method MakeResponseV1(msgType: Option<int>, pb: Codec) returns (r: Option<Payload>)
    ensures r == ResponseV1(msgType, pb)
  {
    var data: Option<Bytes> := None;
    if msgType.Some? {
      if msgType.value == Status.Value() {
        data := Some(MakeWrapper(Status, pb));
      }
      if msgType.value == Container.Value() {
        data := Some(MakeWrapper(Container, pb));
      }
      return Some(Payload(data, None));
    }
    return None;
  }

  /** The reply make_response_v2 resolves with, or the OverflowError of writing a tag that does not fit a C int. */
  function ResponseV2(msgType: Option<int>, host: ByteOrder, pb: Codec): (r: Result<Option<Payload>, PyError>)
    ensures r == Ok(None) <==> msgType.None?
    ensures r.Err? <==> msgType.Some? && (msgType.value < 0 || msgType.value >= Pow256(C_INT_SIZE))
    ensures r.Err? ==> r.error == OverflowError
    ensures r.Ok? && r.value.Some? ==>
      && r.value.value.metadata.Some?
      && |r.value.value.metadata.value| == C_INT_SIZE
      && FromBytes(r.value.value.metadata.value, GetReverseOrder(host)) == msgType.value
    ensures r.Ok? && r.value.Some? ==>
      && (r.value.value.data.None? <==> FromValue(msgType.value).None?)
      && (r.value.value.data.Some? ==> r.value.value.data.value == MakeMsg(FromValue(msgType.value).value, pb))
  {
    match msgType
    case None => Ok(None)
    case Some(n) =>
      var data := match FromValue(n) case Some(t) => Some(MakeMsg(t, pb)) case None => None;
      var meta :- ToBytes(n, C_INT_SIZE, GetReverseOrder(host));
      FromToBytes(n, C_INT_SIZE, GetReverseOrder(host));
      Ok(Some(Payload(data, Some(meta))))
  }

  method MakeResponseV2(msgType: Option<int>, host: ByteOrder, pb: Codec) returns (r: Result<Option<Payload>, PyError>)
    ensures r == ResponseV2(msgType, host, pb)
  {
    var data: Option<Bytes> := None;
    if msgType.Some? {
      if msgType.value == Status.Value() {
        data := Some(MakeMsg(Status, pb));
      }
      if msgType.value == Container.Value() {
        data := Some(MakeMsg(Container, pb));
      }
      var metaTypeValue := msgType.value;
      var metaTypeData :- ToBytes(metaTypeValue, C_INT_SIZE, GetReverseOrder(host));
      return Ok(Some(Payload(data, Some(metaTypeData))));
    }
    return Ok(None);
  }

  /** The tag a V2 reply carries is read back as the same integer by the V2 decoder, for every tag that fits a C int. */
  lemma ResponseV2TagRoundTrip(n: int, host: ByteOrder, pb: Codec)
    requires 0 <= n < Pow256(C_INT_SIZE)
    ensures ResponseV2(Some(n), host, pb).Ok? && ResponseV2(Some(n), host, pb).value.Some?
    ensures ExtractMsgTypeIntFromMetadata(ResponseV2(Some(n), host, pb).value.value.metadata, host) == Ok(n)
  {
  }

  /** The reply make_response_v3 resolves with: the request's opcode echoed, with the body of the kind it names. */
  function ResponseV3(msgType: Option<Bytes>, pb: Codec): (r: Option<Payload>)
    ensures r.None? <==> msgType.None?
    ensures r.Some? ==> r.value.metadata == msgType
    ensures r.Some? ==> (r.value.data.None? <==> ConvertOpcodeToType(msgType).None?)
    ensures r.Some? && r.value.data.Some? ==> r.value.data.value == MakeMsg(ConvertOpcodeToType(msgType).value, pb)
  {
    match msgType
    case None => None
    case Some(op) =>
      var data :=
        if op == MSG_STATUS_OPCODE then Some(MakeMsg(Status, pb))
        else if op == MSG_CONTAINER_OPCODE then Some(MakeMsg(Container, pb))
        else None;
      Some(Payload(data, Some(op)))
  }

  method MakeResponseV3(msgType: Option<Bytes>, pb: Codec) returns (r: Option<Payload>)
    ensures r == ResponseV3(msgType, pb)
  {
    var data: Option<Bytes> := None;
    if msgType.Some? {
      if msgType.value == MSG_STATUS_OPCODE {
        data := Some(MakeMsg(Status, pb));
      }
      if msgType.value == MSG_CONTAINER_OPCODE {
        data := Some(MakeMsg(Container, pb));
      }
      var metaTypeValue := msgType.value;
      return Some(Payload(data, Some(metaTypeValue)));
    }
    return None;
  }

  datatype Handler = HandlerV1 | HandlerV2 | HandlerV3

  /** The request handler serving a protocol version; None for any version other than 1, 2 and 3. */
  function ResolveHandler(version: int): (r: Option<Handler>)
    ensures r == Some(HandlerV1) <==> version == 1
    ensures r == Some(HandlerV2) <==> version == 2
    ensures r == Some(HandlerV3) <==> version == 3
    ensures r.None? <==> version !in {1, 2, 3}
  {
    if version == 1 then Some(HandlerV1)
    else if version == 2 then Some(HandlerV2)
    else if version == 3 then Some(HandlerV3)
    else None
  }

  /** HandlerV1.request_response: parse the envelope in the data, answer with its tag. */
  function HandleV1(payload: Payload, pb: Codec): (r: Result<Option<Payload>, PyError>)
    ensures payload.data.None? ==> r == Err(TypeError)
    ensures r.Ok? <==> payload.data.Some? && pb.parse(payload.data.value).Some?
    ensures r.Ok? ==> r.value.Some? && r.value.value.metadata.None?
    ensures r.Ok? ==> r.value == ResponseV1(Some(pb.parse(payload.data.value).value.msgType), pb)
  {
    match payload.data
    case None => Err(TypeError)
    case Some(data) =>
      match pb.parse(data)
      case None => Err(DecodeError)
      case Some(msgWrapper) => Ok(ResponseV1(Some(msgWrapper.msgType), pb))
  }

  /** HandlerV2.request_response: read the integer tag out of the metadata and answer with it. */
  function HandleV2(payload: Payload, host: ByteOrder, pb: Codec): (r: Result<Option<Payload>, PyError>)
    ensures payload.metadata.None? ==> r == Err(TypeError)
    ensures payload.metadata.Some? && |payload.metadata.value| <= C_INT_SIZE ==> r.Ok?
    ensures r.Ok? ==> r.value.Some?
    ensures payload.metadata.Some? && |payload.metadata.value| == C_INT_SIZE ==>
      r.Ok? && r.value.value.metadata == payload.metadata
    ensures payload.metadata.Some? ==>
      r == ResponseV2(Some(FromBytes(payload.metadata.value, GetReverseOrder(host))), host, pb)
  {
    match ExtractMsgTypeIntFromMetadata(payload.metadata, host)
    case Err(e) => Err(e)
    case Ok(msgType) =>
      var meta := payload.metadata.value;
      assert msgType < Pow256(|meta|);
      assert |meta| <= C_INT_SIZE ==> Pow256(|meta|) <= Pow256(C_INT_SIZE) by {
        if |meta| <= C_INT_SIZE {
          Pow256Monotonic(|meta|, C_INT_SIZE);
        }
      }
      ResponseV2(Some(msgType), host, pb)
  }

  /** HandlerV3.request_response: take the metadata as the opcode and echo it; formatting it for the log fails when it is absent. */
  function HandleV3(payload: Payload, pb: Codec): (r: Result<Option<Payload>, PyError>)
    ensures payload.metadata.None? ==> r == Err(TypeError)
    ensures payload.metadata == Some([]) ==> r == Err(AttributeError)
    ensures r.Ok? <==> payload.metadata.Some? && payload.metadata.value != []
    ensures r.Ok? ==> r.value.Some? && r.value.value.metadata == payload.metadata
    ensures r.Ok? ==> r.value == ResponseV3(payload.metadata, pb)
  {
    match ExtractTypeOpcode(payload.metadata)
    case Err(e) => Err(e)
    case Ok(None) => Err(AttributeError)   // None.hex() in the log line
    case Ok(Some(opcode)) => Ok(ResponseV3(Some(opcode), pb))
  }

  /** The handler a server started with a given version runs on each request. */
  function RequestResponse(h: Handler, payload: Payload, host: ByteOrder, pb: Codec): Result<Option<Payload>, PyError>
  {
    match h
    case HandlerV1 => HandleV1(payload, pb)
    case HandlerV2 => HandleV2(payload, host, pb)
    case HandlerV3 => HandleV3(payload, pb)
  }
}
