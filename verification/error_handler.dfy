/**
 * The Express error middleware of src/middleware/errorHandler.js: a thrown error's
 * `name` picks the status from a small table, and the reply body echoes the error's
 * name and message.
 */
module ErrorHandler {
  import opened Options
  import Json

  datatype ErrorReply = ErrorReply(status: int, error: string, message: string)

  /** The `errors` table's own entries (src/middleware/errorHandler.js:2-15). */
  function OwnStatus(name: string): Option<int> {
    if name == "AlreadyExistsError" then Some(409)
    else if name == "NotFoundError" then Some(404)
    else if name == "ValidationError" then Some(400)
    else if name == "Default" then Some(500)
    else None
  }

  /**
   * The status lookup as written: the table is indexed by the error's name and
   * falls back to its Default entry only when nothing is found. A name of an
   * inherited property finds that property, which carries no status code, so the
   * status comes out undefined (None) instead of 500.
   */
  function StatusAsWritten(name: string): (s: Option<int>)
    ensures s.None? <==> name in Json.ObjectPrototypeNames
    ensures s.Some? ==> s == OwnStatus(name) || (OwnStatus(name).None? && s == Some(500))
  {
    if OwnStatus(name).Some? then OwnStatus(name)
    else if name in Json.ObjectPrototypeNames then None
    else Some(500)
  }

  /** The as-written lookup loses the status for an error named "toString". */
  lemma InheritedNameHasNoStatus()
    ensures StatusAsWritten("toString") == None
  {
  }

  /**
   * The status the table evidently intends: its own entries, else 500. Total over
   * names, with range {400, 404, 409, 500}.
   */
  function StatusFor(name: string): (s: int)
    ensures s in {400, 404, 409, 500}
    ensures s == 409 <==> name == "AlreadyExistsError"
    ensures s == 404 <==> name == "NotFoundError"
    ensures s == 400 <==> name == "ValidationError"
    ensures s == 500 <==> name !in {"AlreadyExistsError", "NotFoundError", "ValidationError"}
  {
    OwnStatus(name).GetOr(500)
  }

  /** Both agree on every name that is not an inherited property. */
  lemma AsWrittenAgreesOffPrototype(name: string)
    requires name !in Json.ObjectPrototypeNames
    ensures StatusAsWritten(name) == Some(StatusFor(name))
  {
  }

  /**
   * The reply to a thrown error: a JSON body echoing the error's name and message,
   * sent with one of the table's four statuses, the one the written lookup gives
   * wherever that lookup finds a status.
   */
  function Handle(name: string, message: string): (e: ErrorReply)
    ensures e.error == name && e.message == message
    ensures e.status in {400, 404, 409, 500}
    ensures e.status == 500 <==> OwnStatus(name) == None || name == "Default"
    ensures StatusAsWritten(name).Some? ==> StatusAsWritten(name) == Some(e.status)
  {
    ErrorReply(StatusFor(name), name, message)
  }
}
