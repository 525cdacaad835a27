/** The transport's request/response payload: two independent byte channels, either of which may be absent (None). */
module Rsocket {
  import opened Wrappers
  import opened Bytes

  datatype Payload = Payload(data: Option<Bytes>, metadata: Option<Bytes>)
}
