/** The helpers shared by the Python client and server: the V2 byte order and the V3 opcode mapping. */
module Utils {
  import opened Wrappers
  import opened Bytes
  import opened MsgTypes

  /** The byte order V2 writes its tag in: the opposite of the host's. */
  function GetReverseOrder(host: ByteOrder): (r: ByteOrder)
    ensures r != host
  {
    match host
    case Little => Big
    case Big => Little
  }

  /** The V3 opcode of a type id; None for None and for every id outside the registry. */
  function ConvertTypeToOpcode(t: Option<int>): (r: Option<Bytes>)
    ensures r == Some(MSG_STATUS_OPCODE) <==> t == Some(Status.Value())
    ensures r == Some(MSG_CONTAINER_OPCODE) <==> t == Some(Container.Value())
    ensures r.Some? ==> r.value in {MSG_STATUS_OPCODE, MSG_CONTAINER_OPCODE}
  {
    if t.Some? then
      if t.value == Status.Value() then Some(MSG_STATUS_OPCODE)
      else if t.value == Container.Value() then Some(MSG_CONTAINER_OPCODE)
      else None
    else None
  }

  /** The kind a V3 opcode names; None for None, for the empty string and for any other bytes. */
  function ConvertOpcodeToType(opcode: Option<Bytes>): (r: Option<MsgType>)
    ensures r == Some(Status) <==> opcode == Some(MSG_STATUS_OPCODE)
    ensures r == Some(Container) <==> opcode == Some(MSG_CONTAINER_OPCODE)
  {
    if opcode.Some? then
      if opcode.value == MSG_STATUS_OPCODE then Some(Status)
      else if opcode.value == MSG_CONTAINER_OPCODE then Some(Container)
      else None
    else None
  }

  /** Every kind survives the trip id -> opcode -> kind. */
  lemma TypeOpcodeRoundTrip(t: MsgType)
    ensures ConvertOpcodeToType(ConvertTypeToOpcode(Some(t.Value()))) == Some(t)
  {
  }

  /** Every recognised opcode survives the trip opcode -> kind -> id -> opcode. */
  lemma OpcodeTypeRoundTrip(opcode: Bytes)
    requires ConvertOpcodeToType(Some(opcode)).Some?
    ensures ConvertTypeToOpcode(Some(ConvertOpcodeToType(Some(opcode)).value.Value())) == Some(opcode)
  {
  }

  /** Only one-byte strings can name a kind: the empty string and longer strings never do. */
  lemma OpcodeIsOneByte(opcode: Bytes)
    requires |opcode| != 1
    ensures ConvertOpcodeToType(Some(opcode)) == None
  {
  }
}
