# Message-type tagging over RSocket request/response, in Dafny

The repository sends an RSocket request/response payload `{data, metadata}` and has
to tell the peer what kind of message it carries. It does that in three
incompatible ways, chosen by a protocol version:

- **V1** puts the tag in a protobuf `Wrapper` envelope in `data`, next to the body.
- **V2** writes the integer type id into `metadata` as a C `int` (4 bytes). The
  Python side uses the byte order opposite to the host's. The Java side uses
  `ByteBuffer.putInt`, which is always big-endian, and reads the tag back signed
  with `getInt`.
- **V3** writes a one-byte opcode into `metadata` (status `0x07`, container `0x09`).

This project models the registry of kinds (status = 1, container = 2), the
opcode conversions of both languages, the Python server's handlers and response
builders, the Python client, and the Java client's tag encoding and decoding. It
proves the round trips, the exact byte layouts, the "no response" and "unknown tag"
cases, and where the Python and Java V2 encodings agree. They agree byte for byte
on a little-endian Python host for every id in [0, 2^31). On a big-endian Python
host they differ for ids 1 to 255, which includes every registered id.

Modules, one per file:

| file | module | models |
|---|---|---|
| `wrappers.dfy` | `Wrappers` | `Option` (Python `None`) and `Result` (raised exceptions) |
| `bytes.dfy` | `Bytes` | bytes, byte order, the fixed-width big-endian codec under both languages |
| `py_int.dfy` | `PyInt` | `int.to_bytes` / `int.from_bytes` (unsigned), the Python exceptions, `sizeof(c_int)` = 4 |
| `msg_types.dfy` | `MsgTypes` | `MsgType`, the two opcode constants, what a processor is handed |
| `utils.dfy` | `Utils` | `get_reverse_order`, `convert_type_to_opcode`, `convert_opcode_to_type` |
| `protobuf.dfy` | `Protobuf` | the envelope and the protobuf layer, as a parameter |
| `rsocket.dfy` | `Rsocket` | the payload |
| `server.dfy` | `Server` | tag extraction, `make_response_v1/v2/v3`, the three handlers, `resolve_handler` |
| `client.dfy` | `Client` | `process_msg`, the three `run_request_response_V*`, `main` |
| `java_nio.dfy` | `JavaNio` | Java `int`/`byte` and `ByteBuffer` (`allocate`, `putInt`, `put`, `getInt`, `get`) as a class |
| `java_client.dfy` | `JavaClient` | `convertTypeToOpcode`, `convertOpcodeToType`, `processMsg`, `processV1/V2/V3Client`, the version switch |
| `interop.dfy` | `Interop` | exchanges between the clients and the Python server, and Python/Java agreement |

Two things are not in the source, so they enter as parameters:
- The generated protobuf code is a value `pb: Codec`. It holds the envelope's
  serialiser and parser and the two fixed bodies the server sends (`make_msg_status`,
  `make_msg_container`). Lemmas that need the envelope to survive a round trip
  assume `pb.Valid()` (parse inverts serialise) as a precondition.
- The transport's request/response call is a function `Payload -> Payload`. An
  end-to-end lemma assumes `Serves(transport, handler, host, pb)`: for every
  request the handler answers, the transport delivers exactly that answer.

The host byte order (`sys.byteorder`) is a parameter `host`, on each side
separately.

Behaviour that the code decides, and that the model follows:
- The server does not report an unknown tag as an error. V1/V2/V3 still answer,
  with no body (`data` is None). V2 and V3 echo the tag in the metadata.
- V2 on the Python side reads metadata of any length, empty included (as 0), and
  never reports short metadata. The server fails when the metadata is absent
  (`TypeError`) and when the tag it read does not fit back into 4 bytes
  (`OverflowError`). The Java client fails on metadata
  shorter than 4 bytes (`BufferUnderflowException`).
- V3 on the server takes the whole metadata as the opcode, with no length check.
  Empty metadata is turned into None by `extract_type_opcode`, but the handler's
  log line then calls `.hex()` on None. So an empty-metadata V3 request is an
  `AttributeError`, not "no response".
- An unsupported version is a silent no-op on both clients (no exchange runs). On
  the server, `resolve_handler` returns None.
- A Python V3 client asked for an unregistered type sends no metadata at all, and
  the server's handler then fails (`bytes(None)`). The Java client sends opcode
  `0x00` instead, which is echoed back, read as type 0 and ignored.

## Model

| member | source | states |
|---|---|---|
| `MsgTypes.MsgType.Value` | python_client_server/msg_types.py:3-5 | status is 1, container is 2, both positive |
| `MsgTypes.FromValue` | python_client_server/msg_types.py:3-5 | an int equals a kind exactly when it is 1 or 2, and then equals that kind's value |
| `MsgTypes.RegistryWellFormed` | python_client_server/msg_types.py:3-8 | exactly two kinds with distinct ids 1 and 2; opcodes are the distinct single bytes 0x07 and 0x09; no opcode byte is a type id |
| `Bytes.UnsignedBE` | python_client_server/server.py:27 | a byte string's big-endian value is below 256^length |
| `Bytes.EncodeBE` | python_client_server/server.py:80 | a value below 256^len is written as exactly len bytes that read back as the value |
| `Bytes.EncodeUnsignedBE` | python_client_server/client.py:61 | reading a byte string and writing the value at the same width gives the same bytes |
| `Bytes.Arrange` | python_client_server/utils.py:4-9 | big-endian layout is kept; little-endian layout is the mirror image |
| `Bytes.ArrangeInvolution` | python_client_server/utils.py:4-9 | laying out twice in one byte order gives the bytes back |
| `PyInt.ToBytes` | python_client_server/server.py:80 | `to_bytes` is an OverflowError exactly for negative values and values needing more than `length` bytes; otherwise `length` bytes that decode to the value in that order |
| `PyInt.FromBytes` | python_client_server/server.py:26-27 | `from_bytes` (unsigned) of n bytes is below 256^n |
| `PyInt.FromToBytes` | python_client_server/client.py:58-61 | decoding what `to_bytes` wrote, in the same order, gives the value back |
| `PyInt.ToFromBytes` | python_client_server/client.py:58-61 | encoding a decoded value at the input's width, in the same order, gives the input back |
| `PyInt.FromBytesEmpty` | python_client_server/server.py:26-27 | the empty byte string decodes to 0 |
| `PyInt.ToBytesOrders` | python_client_server/utils.py:4-9 | the little-endian encoding is the reversal of the big-endian one |
| `Utils.GetReverseOrder` | python_client_server/utils.py:4-9 | the V2 order is never the host order ('big' on little-endian hosts, 'little' on big-endian ones) |
| `Utils.ConvertTypeToOpcode` | python_client_server/utils.py:11-17 | 1 gives b'\x07', 2 gives b'\x09', None and every other value give None |
| `Utils.ConvertOpcodeToType` | python_client_server/utils.py:19-25 | b'\x07' gives status, b'\x09' gives container, None and all other bytes give None |
| `Utils.TypeOpcodeRoundTrip` | python_client_server/utils.py:11-24 | id to opcode to kind gives the kind back |
| `Utils.OpcodeTypeRoundTrip` | python_client_server/utils.py:11-24 | a recognised opcode survives opcode to kind to id to opcode |
| `Utils.OpcodeIsOneByte` | python_client_server/utils.py:19-25 | the empty string and multi-byte strings never name a kind |
| `Server.ExtractTypeOpcode` | python_client_server/server.py:20-24 | empty metadata gives None; non-empty metadata is returned unchanged, any length; absent metadata is a TypeError |
| `Server.ExtractMsgTypeIntFromMetadata` | python_client_server/server.py:26-27 | the tag is the one value whose reversed-order encoding at the metadata's width is the metadata; empty metadata gives 0 |
| `Server.MakeMsg` | python_client_server/server.py:38-58 | status gets the status body and container the container body; the V1 envelope and the V2 and V3 replies carry this body |
| `Server.MakeWrapper` | python_client_server/server.py:32-47 | the V1 body of a kind parses back to an envelope tagged with that kind around its body |
| `Server.ResponseV1` | python_client_server/server.py:60-69 | no reply exactly when the tag is None; no metadata; a body exactly for tags 1 and 2, an envelope carrying the tag and the kind's body |
| `Server.MakeResponseV1` | python_client_server/server.py:60-69 | built step by step, it equals `ResponseV1` |
| `Server.ResponseV2` | python_client_server/server.py:71-82 | no reply exactly when the tag is None; OverflowError exactly for tags outside [0, 2^32); otherwise 4 metadata bytes that decode to the tag, and the kind's body only for 1 and 2 |
| `Server.MakeResponseV2` | python_client_server/server.py:71-82 | built step by step, it equals `ResponseV2` |
| `Server.ResponseV2TagRoundTrip` | python_client_server/server.py:79-80 | the V2 decoder reads the reply's tag back as the same value for every tag in [0, 2^32) |
| `Server.ResponseV3` | python_client_server/server.py:84-94 | no reply exactly when the tag is None; the opcode is echoed as metadata; status body for 0x07, container body for 0x09, no body otherwise |
| `Server.MakeResponseV3` | python_client_server/server.py:84-94 | built step by step, it equals `ResponseV3` |
| `Server.ResolveHandler` | python_client_server/server.py:127-133 | 1, 2 and 3 map to HandlerV1, HandlerV2 and HandlerV3; any other version to None |
| `Server.HandleV1` | python_client_server/server.py:96-102 | answers exactly when the data parses as an envelope, always with a payload and no metadata; the reply is `ResponseV1` of the envelope's tag |
| `Server.HandleV2` | python_client_server/server.py:104-108 | absent metadata is a TypeError; metadata of at most 4 bytes always gets a reply; 4-byte metadata is echoed unchanged on either host; present metadata is answered with `ResponseV2` of its reversed-order unsigned value, so wide tags are an OverflowError |
| `Server.HandleV3` | python_client_server/server.py:110-115 | absent metadata is a TypeError and empty metadata an AttributeError; otherwise the reply is `ResponseV3` of the metadata: the metadata echoed, with the body of the kind whose opcode it is |
| `Client.ProcessMsg` | python_client_server/client.py:14-18 | 1 goes to the status parser, 2 to the container parser, anything else (None included) to neither |
| `Client.RequestV1` | python_client_server/client.py:43-46 | the request is an envelope with the type and no body, in the data, with no metadata |
| `Client.OnReplyV1` | python_client_server/client.py:47-52 | absent data is a TypeError; otherwise the reply's envelope, if it parses, gives the processed tag and body |
| `Client.RequestV2` | python_client_server/client.py:58-59 | OverflowError exactly for types outside [0, 2^32); otherwise empty data and 4 metadata bytes that decode to the type in the reversed order |
| `Client.ResponseTypeV2` | python_client_server/client.py:61 | the reply type is the value whose reversed-order encoding at the metadata's width is the metadata |
| `Client.RequestV3` | python_client_server/client.py:69 | empty data; the metadata is the type's opcode, None for types other than 1 and 2 |
| `Client.ResponseTypeV3` | python_client_server/client.py:71-73 | the reply kind is the one whose opcode is the metadata; None when the metadata is neither opcode |
| `Client.ValueOf` | python_client_server/client.py:73-75 | the kind handed to `process_msg` compares equal to its id; None stays None |
| `Client.RunRequestResponseV2` | python_client_server/client.py:56-65 | nothing is sent when the type does not fit; otherwise it fails exactly when the reply has no metadata, and the reply's decoded tag picks the processor |
| `Client.RunRequestResponseV3` | python_client_server/client.py:67-77 | fails exactly when the reply has no metadata; otherwise the kind the metadata names picks the processor |
| `Client.Main` | python_client_server/client.py:80-85 | exactly one exchange, of the chosen version, for versions 1, 2 and 3; none for any other |
| `JavaNio.ToJByte` | java_client/src/main/java/com/stx/Client.java:82 | a wire byte reads as the Java byte with the same bits |
| `JavaNio.FromJByte` | java_client/src/main/java/com/stx/Client.java:79 | a Java byte is written as the wire byte that reads back as it |
| `JavaNio.Int32ToBytes` | java_client/src/main/java/com/stx/Client.java:70 | `putInt` writes 4 bytes, big-endian, whose unsigned value is the int's two's complement |
| `JavaNio.Int32FromBytes` | java_client/src/main/java/com/stx/Client.java:73 | `getInt` reads 4 big-endian bytes as a signed int; negative exactly when the unsigned value is 2^31 or more |
| `JavaNio.Int32RoundTrip` | java_client/src/main/java/com/stx/Client.java:70-73 | `getInt` reads back every int `putInt` wrote |
| `JavaNio.Int32BytesRoundTrip` | java_client/src/main/java/com/stx/Client.java:70-73 | `putInt` writes back every 4 bytes `getInt` read |
| `JavaNio.ByteBuffer.Allocate` | java_client/src/main/java/com/stx/Client.java:70 | a fresh zero-filled buffer, position 0, limit at the capacity |
| `JavaNio.ByteBuffer.Wrap` | java_client/src/main/java/com/stx/Client.java:73 | the reply's bytes as a buffer, position 0, limit at the end |
| `JavaNio.ByteBuffer.PutInt` | java_client/src/main/java/com/stx/Client.java:70 | with 4 bytes remaining, writes the int's layout at the position and advances it by 4; otherwise BufferOverflow and nothing changes |
| `JavaNio.ByteBuffer.Put` | java_client/src/main/java/com/stx/Client.java:79 | with a byte remaining, writes it at the position and advances by 1; otherwise BufferOverflow and nothing changes |
| `JavaNio.ByteBuffer.GetInt` | java_client/src/main/java/com/stx/Client.java:73 | with 4 bytes remaining, reads them as a signed int and advances by 4; otherwise BufferUnderflow |
| `JavaNio.ByteBuffer.Get` | java_client/src/main/java/com/stx/Client.java:82 | with a byte remaining, reads it as a Java byte and advances by 1; otherwise BufferUnderflow |
| `JavaClient.ConvertTypeToOpcode` | java_client/src/main/java/com/stx/Client.java:114-122 | 1 gives 0x07, 2 gives 0x09, every other int gives 0x00 |
| `JavaClient.ConvertOpcodeToType` | java_client/src/main/java/com/stx/Client.java:124-132 | 0x07 gives 1, 0x09 gives 2, every other byte gives 0 |
| `JavaClient.TypeOpcodeRoundTrip` | java_client/src/main/java/com/stx/Client.java:114-132 | 1 and 2 survive type to opcode to type; every other type collapses to 0 |
| `JavaClient.ProcessMsg` | java_client/src/main/java/com/stx/Client.java:87-96 | 1 goes to the status parser, 2 to the container parser, any other int to neither |
| `JavaClient.Contents` | java_client/src/main/java/com/stx/Client.java:73-75 | a present field reads as its bytes, an absent one as an empty buffer |
| `JavaClient.RequestV1` | java_client/src/main/java/com/stx/Client.java:58-61 | the request is an envelope with the type and no body, in the data, with no metadata |
| `JavaClient.ExchangeV1` | java_client/src/main/java/com/stx/Client.java:57-67 | fails exactly when the reply's data is no envelope; otherwise the envelope's tag and body are processed |
| `JavaClient.EncodeRequestV2` | java_client/src/main/java/com/stx/Client.java:70-71 | empty data and exactly the 4 big-endian bytes of the type, whatever the host |
| `JavaClient.ResponseTypeV2` | java_client/src/main/java/com/stx/Client.java:73 | BufferUnderflow exactly when the metadata has fewer than 4 bytes; otherwise the int whose layout is the first 4 metadata bytes |
| `JavaClient.DecodeResponseTypeV2` | java_client/src/main/java/com/stx/Client.java:73 | consuming the metadata buffer with `getInt` equals `ResponseTypeV2` |
| `JavaClient.ExchangeV2` | java_client/src/main/java/com/stx/Client.java:69-76 | fails exactly when the reply type cannot be read; otherwise that type picks the processor of the reply's data |
| `JavaClient.ProcessV2Client` | java_client/src/main/java/com/stx/Client.java:69-76 | the buffer-based exchange equals `ExchangeV2` |
| `JavaClient.EncodeRequestV3` | java_client/src/main/java/com/stx/Client.java:79-80 | empty data and exactly one metadata byte, the type's opcode |
| `JavaClient.ResponseTypeV3` | java_client/src/main/java/com/stx/Client.java:82 | BufferUnderflow exactly on empty metadata; otherwise 0, 1 or 2: 0 exactly when the first metadata byte is neither 0x07 nor 0x09, and a nonzero type's opcode is that byte |
| `JavaClient.DecodeResponseTypeV3` | java_client/src/main/java/com/stx/Client.java:82 | consuming the metadata buffer with `get` equals `ResponseTypeV3` |
| `JavaClient.ExchangeV3` | java_client/src/main/java/com/stx/Client.java:78-85 | fails exactly when the reply has no metadata byte; otherwise the looked-up type picks the processor of the reply's data |
| `JavaClient.ProcessV3Client` | java_client/src/main/java/com/stx/Client.java:78-85 | the buffer-based exchange equals `ExchangeV3` |
| `JavaClient.RunClient` | java_client/src/main/java/com/stx/Client.java:41-51 | one exchange, of the chosen version, for versions 1, 2 and 3; no request for any other version |
| `Interop.PythonExchange` | python_client_server/client.py:80-85 | Python client and server on hosts of one byte order: every registered kind comes back under every version, with the server's body for it handed to the matching processor |
| `Interop.PythonV2ByteOrderMismatch` | python_client_server/server.py:104-108 | a little-endian client's status request reaches a big-endian server as 2^24; the tag comes back intact but with no body, so the status parser (not modelled) is handed None |
| `Interop.PythonV3UnknownType` | python_client_server/client.py:69 | an unregistered type makes the V3 client send no metadata, and the server handler fails with TypeError |
| `Interop.V2EncodersAgreeOnLittleEndian` | java_client/src/main/java/com/stx/Client.java:70 | on a little-endian host Python's V2 tag is byte for byte Java's `putInt`, for every non-negative int |
| `Interop.V2EncodersDisagreeOnBigEndian` | python_client_server/utils.py:4-9 | on a big-endian host Python writes ids 1 to 255 mirrored, unlike Java |
| `Interop.V2DecodersAgree` | java_client/src/main/java/com/stx/Client.java:73 | Python (little-endian host, unsigned) and Java (`getInt`, signed) read 4 bytes alike exactly when their value is below 2^31 |
| `Interop.JavaV2AgainstPythonServer` | java_client/src/main/java/com/stx/Client.java:69-76 | the Python V2 server echoes the Java tag, so Java reads back its own type on any host; on a little-endian server a registered type also gets its body |
| `Interop.JavaV2AgainstBigEndianServer` | java_client/src/main/java/com/stx/Client.java:69-76 | against a big-endian server, Java's status request is answered without a body, and Java hands empty bytes to the status parser |
| `Interop.OpcodeTablesAgree` | java_client/src/main/java/com/stx/Client.java:114-122 | Java's and Python's opcodes are the same byte for each registered kind, and Python maps it back to the kind |
| `Interop.JavaV3AgainstPythonServer` | java_client/src/main/java/com/stx/Client.java:78-85 | a registered type comes back with its body; any other type is sent as 0x00, echoed without a body, read as 0 and ignored |
| `Interop.JavaV1AgainstPythonServer` | java_client/src/main/java/com/stx/Client.java:57-67 | the envelope's tag and body survive both directions for every registered kind |
| `Interop.V2ContainerLayout` | python_client_server/server.py:80 | type 2 is written 00 00 00 02 by Python on a little-endian host and by Java, and 02 00 00 00 by Python on a big-endian host |
| `Interop.V2SignednessDiffers` | java_client/src/main/java/com/stx/Client.java:73 | 80 00 00 00 reads as 2^31 in Python and as -2^31 in Java |

## Left out

- Protobuf serialisation and parsing (`msg_pb2`, `Msg.Wrapper`, `MsgStatus`, `MsgContainer`): generated code that is not part of this model. It is the parameter `pb`, and its round trip is the hypothesis `pb.Valid()`. Parsing the bodies inside `process_status_msg` / `processMsgStatus` is not modelled; the model stops at which processor gets which bytes.
- The range check protobuf applies when a type id is assigned to the envelope's field: the field's declaration is not part of this model, so the envelope carries any integer.
- The status and container bodies (`ujson.dumps({"OK": "200"})`, tag `r-tag` with two packets): fixed opaque byte strings in `pb`.
- RSocket transport, connection setup and teardown (`RSocketServer`, `RSocketClient`, `RSocketConnector`, TCP, `start_server`, `serve_forever`, `Mono.block`, `dispose`): network I/O. A reply is a function of the request. The model passes a payload through unchanged, so it does not say whether RSocket delivers an absent field as None or as empty bytes. The Java side reads an absent field as an empty buffer.
- What a client does when the server gives no reply (the handler returns None or raises): the end-to-end lemmas cover only requests the server answers.
- `asyncio.Future`, `set_result`, `create_task` and the swallowed `CancelledError`: coroutine plumbing. A reply is an `Option<Payload>`.
- Argument parsing (argparse, commons-cli), `host`/`port` constants, `System.exit`, logging and printing. The one log call that changes behaviour, `.hex()` on the V3 opcode, is modelled as an `AttributeError`.
- `sys.byteorder` is the parameter `host`. `ctypes.sizeof(ctypes.c_int(x))` is the constant 4, because `c_int` truncates silently and its size does not depend on `x`.
- `ByteBuffer`: only heap buffers in the default big-endian order, and only the operations the client calls. `getData()`/`getMetadata()` are modelled as a fresh buffer over the field's bytes (`Wrap`), not as a view that shares storage.
- `Client.RunRequestResponseV1` and `Server.RequestResponse` compose modelled members and have no contract of their own. `Interop.PythonExchange` and `Interop.JavaV1AgainstPythonServer` state what they do.
