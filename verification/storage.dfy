/**
 * `readJSONFile` and `writeJSONFile` (routes/index.mjs), over an abstract view of a
 * JSON file: the file system and the JSON text are not modelled, only which
 * sequence of objects a read yields and whether a write succeeded.
 */
module Storage {

  /** What a JSON document on disk holds, as far as a read can tell. */
  datatype Document<T> =
    | Missing             // the file cannot be read
    | Malformed           // the file does not parse as JSON
    | Stored(items: seq<T>)

  /** How a write ended. After a failure the file may be untouched, truncated or gone. */
  datatype WriteOutcome<T> = Completed | Failed(leftBehind: Document<T>)

  /** `readJSONFile`: the stored array, or `[]` when reading or parsing fails. */
  function ReadJsonFile<T>(doc: Document<T>): (items: seq<T>)
    ensures doc.Stored? ==> items == doc.items
    ensures items == [] <==> (doc.Stored? ==> doc.items == [])
  {
    match doc
    case Stored(items) => items
    case _ => []
  }

  /**
   * `writeJSONFile`: overwrite the file with `items`; the boolean says whether the
   * write succeeded. The file state after a failed write is decided by the environment.
   */
  function WriteJsonFile<T>(items: seq<T>, outcome: WriteOutcome<T>): (r: (Document<T>, bool))
    ensures r.1 <==> outcome.Completed?
    ensures r.1 ==> ReadJsonFile(r.0) == items
    ensures !r.1 ==> r.0 == outcome.leftBehind
  {
    match outcome
    case Completed => (Stored(items), true)
    case Failed(leftBehind) => (leftBehind, false)
  }

  /** Reading back a document right after a successful write yields what was written. */
  lemma SaveThenLoad<T>(items: seq<T>)
    ensures WriteJsonFile(items, Completed).1
    ensures ReadJsonFile(WriteJsonFile(items, Completed).0) == items
  {
  }
}
