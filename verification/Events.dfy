/** The parsed thread events the dispatcher routes (types/events*.go), as far as routing looks at them. */
module Events {
  import opened Basics

  datatype FileChangePart = FileChangePart(path: string, operation: string, diff: string)

  /** A patch's raw changes after decoding; null and undecodable ones are invalid. */
  datatype Patch = Patch(changes: seq<FileChangePart>, invalid: bool)

  datatype ThreadEvent =
    | TurnStarted(thread: string, turn: string)
    | TurnCompleted(thread: string, turn: string)
    | TurnFailed(thread: string, turn: string)
    | ItemStarted(thread: string, turn: string, item: string, file: Option<seq<FileChangePart>>)
    | ItemCompleted(thread: string, turn: string, item: string)
    | FileChangePatchUpdated(thread: string, turn: string, item: string, patch: Patch)
    | ContextCompacted(thread: string)
    | OtherEvent(thread: string, identityRequired: bool, payload: string)

  /** threadIdentityRequired: warnings, errors, unknown and MCP events may be global. */
  predicate IdentityRequired(ev: ThreadEvent) {
    ev.OtherEvent? ==> ev.identityRequired
  }

  /** isTurnTerminus: a turn end, for the expected turn or for any when none is expected. */
  predicate IsTurnTerminus(ev: ThreadEvent, expected: string) {
    (ev.TurnCompleted? || ev.TurnFailed?) && (expected == "" || ev.turn == expected)
  }

  /** turnIDFromTerminus */
  function TurnOfTerminus(ev: ThreadEvent): string {
    if ev.TurnCompleted? || ev.TurnFailed? then ev.turn else ""
  }
}
