/** The values that every part of the server passes around. */
module Data {

  datatype Option<+T> = None | Some(value: T)

  datatype Result<+T, +E> = Ok(value: T) | Err(error: E)

  /** A JSON value. Only "is it null" matters to the server: null is the tombstone. */
  datatype Value = Null | Json(text: string)

  /** The errors of the store that the modelled operations can return. */
  datatype StateError =
    | RoomNotFound
    | ContainerNotFound
    | FragmentNotFound
    | FragmentTombstone
    | TxNotOpen
    | TxAlreadyOpen

  /** One accepted write: a SET of `value`, or a DEL when `value` is null. */
  datatype Write = Write(container: string, key: string, value: Value)

  /** A stored fragment: its value and the room counter at which it was written. */
  datatype FragmentEntry = FragmentEntry(value: Value, keyVersion: nat)

  /** The container every subscriber may read. */
  const PUBLIC := "public"

  /** The container that marks room-wide events. */
  const STAR := "*"

  predicate Allowed(container: string, allowed: set<string>) {
    container == PUBLIC || container in allowed
  }
}
