/** What the REST handlers of server/src/index.ts have in common. */
module ApiCommon {
  import opened Wrappers

  /**
   * A handler's response: a document (`res.json(doc)`), `null` (what
   * `findByIdAndUpdate` yields for an unknown id), an acknowledgement
   * `{ ok: true }` with an optional `action`, or an error status with
   * `{ error }`.
   */
  datatype Reply<T> =
    | Json(doc: T)
    | Null
    | Ack(action: Option<string>)
    | Error(status: nat)

  /**
   * A field of a JSON request body as a handler that tells them apart sees
   * it: left out (`undefined`), sent as `null`, or sent with a value.
   */
  datatype BodyField<T> = Absent | SentNull | Given(value: T)

  /**
   * The ownership rule of both delete handlers: refused only when a
   * requester is named, the record names its owner, and the two differ.
   */
  predicate MayDelete(requester: string, owner: string) {
    !(requester != "" && owner != "" && requester != owner)
  }
}
