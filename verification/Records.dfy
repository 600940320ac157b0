/** Normalised source records and the session group each one belongs to. */
module Records {
  import opened Wrappers
  import Text

  datatype RecordType = SessionStart | Message | ToolCall | Tool | Error | FileEdit | SessionEnd | RouterRequest

  datatype Record = Record(
    sourceId: string,
    nativeId: string,
    ts: int,
    rtype: RecordType,
    role: string,
    projectPath: string,
    gitBranch: string,
    model: string,
    fingerprint: string,            // normalised content excerpt, "" when there is none
    redactedFingerprint: string,    // the same excerpt, redacted before normalising
    toolName: string,
    metaIds: set<string>,           // id-shaped values found in raw_meta
    metaSession: Option<string>,    // session-specific id found in raw_meta
    sourceFile: string)

  const ROUTER_SOURCE := "nine_router"
  const JSONL_SOURCES := {"omp", "pi", "claude", "codex"}

  predicate SessionBearing(t: RecordType) {
    t.SessionStart? || t.Message? || t.ToolCall? || t.Tool? || t.Error?
  }

  type GroupKey = (string, string)

  function Or(a: string, b: string): string { if a != "" then a else b }

  /** The session group of a record, or None for records that never join one. */
  function KeyOf(r: Record): Option<GroupKey> {
    if r.sourceId == ROUTER_SOURCE || r.rtype.RouterRequest? || !SessionBearing(r.rtype) then None
    else if r.sourceId in JSONL_SOURCES then Some((r.sourceId, Or(r.sourceFile, r.nativeId)))
    else if r.sourceId == "opencode" then
      if r.rtype.SessionStart? && r.nativeId != "" then Some((r.sourceId, r.nativeId))
      else if r.metaSession.Some? && r.metaSession.value != "" then Some((r.sourceId, r.metaSession.value))
      else Some((r.sourceId, "__ungrouped__" + Or(r.nativeId, Text.IntToString(r.ts))))
    else Some((r.sourceId, Or(r.sourceFile, r.nativeId)))
  }

  predicate IsRouterRecord(r: Record) { r.rtype.RouterRequest? }

  /** A record that names its session. */
  predicate NamesSession(r: Record) { r.rtype.SessionStart? && r.nativeId != "" }
}
