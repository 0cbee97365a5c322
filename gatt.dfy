/** Base vocabulary shared by the characteristic handle, its transport and its emitter. */
module Gatt {

  /** `null` or a value; the source's optional callback and optional metadata. */
  datatype Option<+T> = None | Some(value: T)

  newtype byte = x: int | 0 <= x < 256

  /** Peripheral ids, service UUIDs and characteristic UUIDs are opaque strings. */
  type Uuid = string

  /** Transport-level addressing tokens (valueHandle, startHandle, endHandle), never interpreted. */
  type Handle = nat

  /** A caller-supplied callback, identified only by who supplied it. */
  type CallbackId = nat

  /** A discovered descriptor, opaque to the characteristic. */
  datatype Descriptor = Descriptor(uuid: Uuid)
}
