/**
 * The closed registry of message kinds: each kind has an integer id (the value of
 * the Python `MsgType` IntEnum, the `type` argument of both clients) and a
 * one-byte opcode (the V3 tag).
 */
module MsgTypes {
  import opened Wrappers
  import opened Bytes

  datatype MsgType = Status | Container {
    /** The IntEnum value of the kind. */
    function Value(): (n: int)
      ensures n > 0
      ensures n == 1 <==> this == Status
      ensures n == 2 <==> this == Container
    {
      match this
      case Status => 1
      case Container => 2
    }
  }

  /** The kind an integer compares equal to (`x == MsgType.status`, `x == MsgType.container`), if any. */
  function FromValue(n: int): (r: Option<MsgType>)
    ensures r.Some? <==> n in {1, 2}
    ensures r.Some? ==> r.value.Value() == n
  {
    if n == 1 then Some(Status) else if n == 2 then Some(Container) else None
  }

  const MSG_STATUS_OPCODE: Bytes := [0x07]
  const MSG_CONTAINER_OPCODE: Bytes := [0x09]

  /** What a client's message processor is handed: the parser it picks and the bytes it parses. */
  datatype Handling<B> = HandleStatus(body: B) | HandleContainer(body: B) | Ignored

  /** The processor a kind goes to, with the bytes it is given. */
  function HandlingOf<B>(t: MsgType, body: B): Handling<B>
  {
    match t
    case Status => HandleStatus(body)
    case Container => HandleContainer(body)
  }

  /**
   * The registry holds exactly two kinds with distinct ids 1 and 2; their opcodes are
   * distinct single bytes, and no opcode byte is also a type id.
   */
  lemma RegistryWellFormed()
    ensures forall t: MsgType :: t.Value() in {1, 2}
    ensures forall t: MsgType, u: MsgType :: t.Value() == u.Value() ==> t == u
    ensures |MSG_STATUS_OPCODE| == 1 && |MSG_CONTAINER_OPCODE| == 1
    ensures MSG_STATUS_OPCODE == [0x07] && MSG_CONTAINER_OPCODE == [0x09]
    ensures MSG_STATUS_OPCODE != MSG_CONTAINER_OPCODE
    ensures forall t: MsgType :: t.Value() != MSG_STATUS_OPCODE[0] && t.Value() != MSG_CONTAINER_OPCODE[0]
  {
  }
}
