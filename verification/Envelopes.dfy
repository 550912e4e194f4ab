/** The end-to-end message of the bus. */
module Envelopes {

  /** body is the opaque JSON text; "" stands for an absent body. */
  datatype Envelope = Envelope(
    version: string, id: string, from: string, to: string, ts: string,
    source: string, kind: string, body: string, hmac: string)

  const PROTOCOL_VERSION := "v1"

  /** Versions match exactly or not at all. */
  predicate CheckVersion(v: string) { v == PROTOCOL_VERSION }

  const KIND_MSG := "msg"
  const KIND_BROADCAST := "broadcast"
}
