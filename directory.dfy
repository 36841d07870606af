/**
 * The players collection as both pages see it: documents keyed by player
 * code. Fields other pages or hands may have written are not guaranteed, so
 * `name` and `code` may be missing, and `active` is true, false or absent.
 * `createdAt`, by contrast, is always present here: a document written
 * without it would still be admitted by the lobby, but the console's query,
 * ordered by `createdAt`, would not list it, and this model does not cover
 * such documents.
 */
module Directory {

  datatype Option<+T> = None | Some(value: T)

  /** The `active` field of a document: the literal `true`, the literal `false`, or not there. */
  datatype Active = ActiveTrue | ActiveFalse | ActiveAbsent

  /**
   * One player document. `createdAt` is the server-assigned creation time,
   * kept here as an opaque tick that this code only stores and never compares.
   */
  datatype Entry = Entry(name: Option<string>, code: Option<string>, active: Active, createdAt: nat)

  /** The collection: document id (the player code) to document. */
  type Store = map<string, Entry>

  /** One document of a query snapshot: its id and its data. */
  datatype DocSnap = DocSnap(id: string, data: Entry)

  /** JavaScript's `field || fallback` on an optional string field: a missing or empty field gives the fallback. */
  function OrElse(field: Option<string>, fallback: string): string {
    if field.Some? && field.value != "" then field.value else fallback
  }
}
