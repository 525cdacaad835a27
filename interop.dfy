/**
 * Exchanges between the requesters and the Python responder, and the places where
 * the Python and Java halves of the V2 and V3 protocols agree or do not.
 * A transport `Serves` a handler when it delivers, for every request the handler
 * answers, exactly that answer.
 */
module Interop {
  import opened Wrappers
  import opened Bytes
  import opened PyInt
  import opened MsgTypes
  import opened Utils
  import opened Protobuf
  import opened Rsocket
  import opened Server
  import Client
  import JavaNio
  import JavaClient

  ghost predicate Serves(transport: Payload -> Payload, h: Handler, host: ByteOrder, pb: Codec)
  {
    forall p: Payload ::
      RequestResponse(h, p, host, pb).Ok? && RequestResponse(h, p, host, pb).value.Some? ==>
        transport(p) == RequestResponse(h, p, host, pb).value.value
  }

  /** What a transport serving the V2 handler delivers for a 4-byte tag: the V2 reply to the tag as the server's host reads it. */
  lemma ServedV2Reply(request: Payload, host: ByteOrder, pb: Codec, transport: Payload -> Payload)
    requires Serves(transport, HandlerV2, host, pb)
    requires request.metadata.Some? && |request.metadata.value| == C_INT_SIZE
    ensures var n := FromBytes(request.metadata.value, GetReverseOrder(host));
      && ResponseV2(Some(n), host, pb).Ok? && ResponseV2(Some(n), host, pb).value.Some?
      && transport(request) == ResponseV2(Some(n), host, pb).value.value
      && transport(request).metadata == request.metadata
  {
    assert RequestResponse(HandlerV2, request, host, pb).Ok?;
  }

  /**
   * Python client against Python server on hosts of one byte order: for every
   * registered kind and every version, the client gets the kind back and hands the
   * server's body for that kind to the matching processor.
   */
  lemma PythonExchange(t: MsgType, version: int, host: ByteOrder, pb: Codec, transport: Payload -> Payload)
    requires version in {1, 2, 3}
    requires pb.Valid()
    requires Serves(transport, ResolveHandler(version).value, host, pb)
    ensures Client.Main(t.Value(), version, host, pb, transport) == Some(Ok(HandlingOf(t, Some(MakeMsg(t, pb)))))
  {
    if version == 1 {
      var request := Client.RequestV1(t.Value(), pb);
      assert RequestResponse(HandlerV1, request, host, pb) == Ok(ResponseV1(Some(t.Value()), pb));
    } else if version == 2 {
      var request := Client.RequestV2(t.Value(), host).value;
      ResponseV2TagRoundTrip(t.Value(), host, pb);
      var reply := ResponseV2(Some(t.Value()), host, pb).value.value;
      assert RequestResponse(HandlerV2, request, host, pb) == Ok(Some(reply));
      UnsignedBEInjective(Arrange(request.metadata.value, GetReverseOrder(host)), Arrange(reply.metadata.value, GetReverseOrder(host)));
      ArrangeInvolution(request.metadata.value, GetReverseOrder(host));
      ArrangeInvolution(reply.metadata.value, GetReverseOrder(host));
    } else {
      var request := Client.RequestV3(t.Value());
      assert RequestResponse(HandlerV3, request, host, pb) == Ok(ResponseV3(request.metadata, pb));
    }
  }

  /**
   * V2 between hosts of opposite byte order: a little-endian client asking for a
   * status reaches a big-endian server as 2^24, which it does not recognise; the
   * tag comes back intact, so the client takes the reply for a status with no body.
   * `HandleStatus(None)` is only the dispatch: the status parser, which is not part
   * of this model, is then handed None and raises.
   */
  lemma PythonV2ByteOrderMismatch(pb: Codec, transport: Payload -> Payload)
    requires Serves(transport, HandlerV2, Big, pb)
    ensures Client.RunRequestResponseV2(Status.Value(), Little, transport) == Ok(HandleStatus(None))
  {
    var request := Client.RequestV2(1, Little).value;
    Pow256Four();
    UnsignedBEFour(request.metadata.value);
    UnsignedBEFour([0, 0, 0, 1]);
    UnsignedBEInjective(request.metadata.value, [0, 0, 0, 1]);
    UnsignedBEFour(Reverse([0, 0, 0, 1]));
    assert ExtractMsgTypeIntFromMetadata(request.metadata, Big) == Ok(0x100_0000);
    var reply := transport(request);
    assert RequestResponse(HandlerV2, request, Big, pb) == Ok(Some(reply));
    assert reply.metadata == request.metadata && reply.data == None;
  }

  /** V3: a Python client asked for a type outside the registry sends no metadata, and the server's handler fails on it. */
  lemma PythonV3UnknownType(msgType: int, pb: Codec)
    requires FromValue(msgType).None?
    ensures HandleV3(Client.RequestV3(msgType), pb) == Err(TypeError)
  {
  }

  /** Python's V2 tag on a little-endian host is byte for byte Java's putInt, for every type id Java can hold that Python can write. */
  lemma V2EncodersAgreeOnLittleEndian(msgType: JavaNio.Int32)
    requires msgType >= 0
    ensures ToBytes(msgType, C_INT_SIZE, GetReverseOrder(Little)) == Ok(JavaNio.Int32ToBytes(msgType))
  {
    Pow256Four();
    assert msgType % 0x1_0000_0000 == msgType;
    assert JavaNio.Int32ToBytes(msgType) == EncodeBE(msgType, C_INT_SIZE);
  }

  /** On a big-endian host Python writes a small id with its bytes mirrored, which is not what Java writes. */
  lemma V2EncodersDisagreeOnBigEndian(msgType: JavaNio.Int32)
    requires 0 < msgType < 0x100
    ensures ToBytes(msgType, C_INT_SIZE, GetReverseOrder(Big)).Ok?
    ensures ToBytes(msgType, C_INT_SIZE, GetReverseOrder(Big)).value != JavaNio.Int32ToBytes(msgType)
  {
    EncodeBEOneByte(msgType);
    var be: Bytes := [0, 0, 0, msgType];
    assert JavaNio.Int32ToBytes(msgType) == be by {
      assert msgType % 0x1_0000_0000 == msgType;
    }
    assert ToBytes(msgType, C_INT_SIZE, Little) == Ok(Reverse(be));
    assert Reverse(be)[0] == msgType != be[0];
  }

  /** Four tag bytes read the same in Python (little-endian host, unsigned) and Java (getInt, signed) exactly when their value is below 2^31. */
  lemma V2DecodersAgree(meta: Bytes)
    requires |meta| == JavaNio.INTEGER_BYTES
    ensures JavaNio.Int32FromBytes(meta) == FromBytes(meta, GetReverseOrder(Little)) <==> FromBytes(meta, Big) < 0x8000_0000
  {
  }

  /** Java client against the Python V2 server: the 4-byte tag comes back unchanged on either host, so Java reads back its own type. */
  lemma JavaV2AgainstPythonServer(msgType: JavaNio.Int32, host: ByteOrder, pb: Codec, transport: Payload -> Payload)
    requires Serves(transport, HandlerV2, host, pb)
    ensures JavaClient.ResponseTypeV2(transport(Payload(Some([]), Some(JavaNio.Int32ToBytes(msgType))))) == Ok(msgType)
    ensures host == Little && FromValue(msgType).Some? ==>
      JavaClient.ExchangeV2(msgType, transport) == Ok(HandlingOf(FromValue(msgType).value, MakeMsg(FromValue(msgType).value, pb)))
  {
    var request := Payload(Some([]), Some(JavaNio.Int32ToBytes(msgType)));
    Pow256Four();
    assert RequestResponse(HandlerV2, request, host, pb).Ok?;
    var reply := transport(request);
    assert reply.metadata == request.metadata;
    JavaNio.Int32RoundTrip(msgType);
    assert reply.metadata.value[..JavaNio.INTEGER_BYTES] == reply.metadata.value;
    if host == Little && FromValue(msgType).Some? {
      var n := ExtractMsgTypeIntFromMetadata(request.metadata, host).value;
      assert n == FromBytes(JavaNio.Int32ToBytes(msgType), Big);
      assert n == msgType;
    }
  }

  /** Java's V2 client against a big-endian Python server: a status request is answered with no body, which Java hands to the status parser as empty bytes. */
  lemma JavaV2AgainstBigEndianServer(pb: Codec, transport: Payload -> Payload)
    requires Serves(transport, HandlerV2, Big, pb)
    ensures JavaClient.ExchangeV2(Status.Value(), transport) == Ok(HandleStatus([]))
  {
    var meta: Bytes := [0, 0, 0, 1];
    assert JavaNio.Int32ToBytes(1) == meta by {
      EncodeBEOneByte(1);
    }
    var request := Payload(Some([]), Some(meta));
    assert FromBytes(meta, Little) == 0x100_0000 by {
      assert Reverse(meta) == [1, 0, 0, 0];
      UnsignedBEFour([1, 0, 0, 0]);
    }
    ServedV2Reply(request, Big, pb, transport);
    JavaV2AgainstPythonServer(1, Big, pb, transport);
  }

  /** The Java and Python opcode tables agree on every registered kind. */
  lemma OpcodeTablesAgree(t: MsgType)
    ensures ConvertTypeToOpcode(Some(t.Value())) == Some([JavaNio.FromJByte(JavaClient.ConvertTypeToOpcode(t.Value()))])
    ensures ConvertOpcodeToType(Some([JavaNio.FromJByte(JavaClient.ConvertTypeToOpcode(t.Value()))])) == Some(t)
  {
  }

  /**
   * Java client against the Python V3 server: a registered type comes back with its
   * body; any other type is sent as opcode 0x00, echoed without a body, read as 0
   * and ignored.
   */
  lemma JavaV3AgainstPythonServer(msgType: JavaNio.Int32, host: ByteOrder, pb: Codec, transport: Payload -> Payload)
    requires Serves(transport, HandlerV3, host, pb)
    ensures FromValue(msgType).Some? ==>
      JavaClient.ExchangeV3(msgType, transport) == Ok(HandlingOf(FromValue(msgType).value, MakeMsg(FromValue(msgType).value, pb)))
    ensures FromValue(msgType).None? ==> JavaClient.ExchangeV3(msgType, transport) == Ok(Ignored)
  {
    var request := Payload(Some([]), Some([JavaNio.FromJByte(JavaClient.ConvertTypeToOpcode(msgType))]));
    assert RequestResponse(HandlerV3, request, host, pb) == Ok(ResponseV3(request.metadata, pb));
  }

  /** Java client against the Python V1 server: the envelope's tag and body survive both ways for every registered kind. */
  lemma JavaV1AgainstPythonServer(t: MsgType, host: ByteOrder, pb: Codec, transport: Payload -> Payload)
    requires pb.Valid()
    requires Serves(transport, HandlerV1, host, pb)
    ensures JavaClient.ExchangeV1(t.Value(), pb, transport) == Ok(HandlingOf(t, MakeMsg(t, pb)))
  {
    var request := JavaClient.RequestV1(t.Value(), pb);
    assert RequestResponse(HandlerV1, request, host, pb) == Ok(ResponseV1(Some(t.Value()), pb));
  }

  /** The wire layouts of type 2: Python on a little-endian host and Java write 00 00 00 02; Python on a big-endian host writes 02 00 00 00. */
  lemma V2ContainerLayout()
    ensures ToBytes(Container.Value(), C_INT_SIZE, GetReverseOrder(Little)) == Ok([0, 0, 0, 2])
    ensures ToBytes(Container.Value(), C_INT_SIZE, GetReverseOrder(Big)) == Ok([2, 0, 0, 0])
    ensures JavaNio.Int32ToBytes(Container.Value()) == [0, 0, 0, 2]
  {
    Pow256Four();
    assert EncodeBE(2, 4) == [0, 0, 0, 2];
    assert Reverse([0, 0, 0, 2]) == [2, 0, 0, 0];
  }

  /** The top bit: Python reads 80 00 00 00 as 2^31, Java's getInt as -2^31. */
  lemma V2SignednessDiffers()
    ensures FromBytes([0x80, 0, 0, 0], GetReverseOrder(Little)) == 0x8000_0000
    ensures JavaNio.Int32FromBytes([0x80, 0, 0, 0]) == -0x8000_0000
  {
    UnsignedBEFour([0x80, 0, 0, 0]);
    UnsignedBEFour(Reverse([0x80, 0, 0, 0]));
  }
}
