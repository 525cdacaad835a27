/**
 * The protobuf layer (generated code for `Wrapper`, `MsgStatus`, `MsgContainer`)
 * is not part of this model. It enters as a parameter: a serialiser and a parser
 * for the V1 envelope, and the two fixed message bodies the server sends.
 */
module Protobuf {
  import opened Wrappers
  import opened Bytes

  /** The V1 envelope: a type tag and the serialised body it describes. */
  datatype Wrapper = Wrapper(msgType: int, data: Bytes)

  datatype Codec = Codec(
    serialize: Wrapper -> Bytes,         // SerializeToString / toByteArray
    parse: Bytes -> Option<Wrapper>,     // ParseFromString / parseFrom; None when the bytes are no Wrapper
    statusBody: Bytes,                   // the serialised MsgStatus the server sends
    containerBody: Bytes                 // the serialised MsgContainer the server sends
  ) {
    /** Parsing what was serialised gives the envelope back. */
    ghost predicate Valid() {
      forall w: Wrapper :: parse(serialize(w)) == Some(w)
    }
  }
}
