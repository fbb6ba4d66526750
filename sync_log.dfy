/** The audit record every run writes: created `pending`, then moved once to
    `successful` or `failed`. */
module SyncLogs {
  import opened Store

  datatype Status = Pending | Successful | Failed

  /** How a sync function ends: it returns, it throws an error with the
      given message, or it never returns because a loop of its never ends. */
  datatype Exit = Done | Raised(message: string) | Loops

  /** The `SyncLog` schema: `action` (required), `initiatedBy` (an optional
      user reference), `status` (enum, default pending), `errorMessages`
      and a free-form `meta`, here a map of counters. */
  datatype SyncLog = SyncLog(
    action: string,
    initiatedBy: Option<string>,
    status: Status,
    errorMessages: Option<string>,
    meta: map<string, int>)

  /** `SyncLog.create({ action, initiatedBy })`. */
  function Create(action: string, initiatedBy: Option<string>): (l: SyncLog)
    ensures l.status == Pending && l.action == action && l.initiatedBy == initiatedBy
    ensures l.errorMessages.None? && l.meta == map[]
  {
    SyncLog(action, initiatedBy, Pending, None, map[])
  }

  /** A document the schema accepts: `action` is a non-empty string. */
  predicate Valid(l: SyncLog)
  {
    l.action != ""
  }

  /** `findByIdAndUpdate(id, { $set: { status: "successful", meta } })`. */
  function Succeed(l: SyncLog, meta: map<string, int>): (r: SyncLog)
    ensures r.status == Successful && r.meta == meta
    ensures r.action == l.action && r.initiatedBy == l.initiatedBy && r.errorMessages == l.errorMessages
  {
    l.(status := Successful, meta := meta)
  }

  /** `findByIdAndUpdate(id, { $set: { status: "failed", errorMessages } })`. */
  function Fail(l: SyncLog, message: string): (r: SyncLog)
    ensures r.status == Failed && r.errorMessages == Some(message)
    ensures r.action == l.action && r.initiatedBy == l.initiatedBy && r.meta == l.meta
  {
    l.(status := Failed, errorMessages := Some(message))
  }

  /** `r` is where a run that created `Create(action, initiator)` may leave it:
      still pending or settled once, with action and initiator unchanged. */
  predicate Lifecycle(r: SyncLog, action: string, initiatedBy: Option<string>)
  {
    r.action == action && r.initiatedBy == initiatedBy &&
    (r.status == Pending ==> r.errorMessages.None? && r.meta == map[])
  }

  /** Creating and then settling a log keeps it valid and on its lifecycle. */
  lemma SettleKeepsLifecycle(action: string, initiator: Option<string>, meta: map<string, int>, msg: string)
    requires action != ""
    ensures Valid(Succeed(Create(action, initiator), meta)) && Lifecycle(Succeed(Create(action, initiator), meta), action, initiator)
    ensures Valid(Fail(Create(action, initiator), msg)) && Lifecycle(Fail(Create(action, initiator), msg), action, initiator)
  {
  }

  // ---------------------------------------------------------------------
  // The pattern service's own SyncLog schema

  /** Declares `initiatedBy`, `status` (required, default pending), `errors`
      (default []) and `action` (default ""). It has no `error` and no
      `meta` path, although the pattern job writes both. */
  datatype PatternSyncLog = PatternSyncLog(
    initiatedBy: Option<string>,
    status: Status,
    errors: seq<string>,
    action: string)

  const PatternLogPaths: set<string> := {"initiatedBy", "status", "errors", "action"}

  /** `SyncLog.create(fields)` with the schema defaults for the fields left out. */
  function CreatePatternLog(action: Option<string>, initiatedBy: Option<string>): (l: PatternSyncLog)
    ensures l.status == Pending && l.errors == []
    ensures l.action == if action.Some? then action.value else ""
    ensures l.initiatedBy == initiatedBy
  {
    PatternSyncLog(initiatedBy, Pending, [], if action.None? then "" else action.value)
  }

  /** What the pattern job sets alongside `status`: an `error` text and a
      `meta` object, neither of which the schema declares. */
  datatype PatternReport = PatternReport(error: Option<string>, meta: map<string, int>)

  lemma PatternReportUndeclared()
    ensures "error" !in PatternLogPaths && "meta" !in PatternLogPaths
    ensures "status" in PatternLogPaths
  {
  }
}
