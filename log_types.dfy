/** Shared vocabulary of the log analyzer: source identities, checkpoints,
    stored events and the small option type used for "maybe" results. */
module LogTypes {

  datatype Option<T> = None | Some(value: T)

  /** An incident category name, such as "FAILED_LOGIN". */
  type Category = string

  /** The text of a regular expression; matching itself is abstract. */
  type Pattern = string

  /** A log source: "localhost" or "host:port", and the file path on it. */
  datatype SourceId = SourceId(host: string, path: string)

  const LOCAL_HOST: string := "localhost"

  /** How far a source has been consumed, and the modification time seen then. */
  datatype Checkpoint = Checkpoint(offset: nat, mtime: int)

  /** What the checkpoint table reports for a source it has never seen. */
  const DEFAULT_CHECKPOINT: Checkpoint := Checkpoint(0, 0)

  /** One stored incident: where it was seen, why it matched, and the stripped line.
      The wall-clock timestamp of the source's event rows is not modelled. */
  datatype Event = Event(source: SourceId, category: Category, pattern: Pattern, line: string)

  /** The counter keys both file scans and scan_once start from; a counter
      exists for these categories only. */
  const COUNTER_KEYS: seq<Category> := ["FAILED_LOGIN", "CRASH", "SUSPICIOUS"]

  /** At most this many (host, path) examples are kept per category. */
  const MAX_SAMPLES: nat := 5

  /** The first n elements of s, or all of s when it is shorter (Python's s[:n]). */
  function Take<T>(s: seq<T>, n: nat): (r: seq<T>)
    ensures |r| <= n && |r| <= |s|
    ensures |r| == n || |r| == |s|
    ensures r == s[..|r|]
  {
    if |s| <= n then s else s[..n]
  }
}
