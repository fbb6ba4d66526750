/** The job wrappers (one file under `jobs/` per service, identical but for the
    sync they call): a module-level `running` flag skips an invocation while
    a previous one is still in progress, is set before the sync is called,
    and is cleared in `finally`; a sync error is logged and swallowed. */
module Jobs {
  import CategorySync
  import opened Store

  /** How the awaited sync ends: it resolves, it rejects with a message, or
      its promise never settles. */
  datatype SyncEnd = Completes | Throws(message: string) | NeverSettles

  /** What one invocation of `runSync…` amounts to. `StillAwaiting` is an
      invocation whose `await` never returns, so `finally` never runs. */
  datatype Invocation = Skipped | Completed | FailedLogged(message: string) | StillAwaiting

  /** The invocation's end once the sync settled: a rejection is caught and
      logged, never rethrown. */
  function Ended(sync: SyncEnd): (r: Invocation)
    requires sync != NeverSettles
    ensures r != Skipped && r != StillAwaiting
    ensures r.FailedLogged? <==> sync.Throws?
    ensures sync.Throws? ==> r.message == sync.message
  {
    if sync.Throws? then FailedLogged(sync.message) else Completed
  }

  /** The guard's module state. `calls` records the value `running` had
      each time the sync was called, oldest first. */
  class RunGuard {
    var running: bool
    var calls: seq<bool>

    /** `let running = false` when the module is loaded. */
    constructor()
      ensures !running && calls == []
    {
      running := false;
      calls := [];
    }

    /** The part before the `await`: skip when a run is in progress,
        otherwise set the flag and call the sync. */
    method Begin() returns (started: bool)
      modifies this
      ensures started == !old(running) && running
      ensures calls == if started then old(calls) + [true] else old(calls)
    {
      if running {
        started := false;
        return;
      }
      running := true;
      calls := calls + [running];
      started := true;
    }

    /** The part after the `await` returns or throws: the `catch` logs, the
        `finally` clears the flag. */
    method Finish(sync: SyncEnd) returns (r: Invocation)
      requires running && sync != NeverSettles
      modifies this
      ensures !running && calls == old(calls) && r == Ended(sync)
    {
      r := Ended(sync);
      running := false;
    }

    /** One whole invocation whose sync ends as `sync`. */
    method Invoke(sync: SyncEnd) returns (r: Invocation)
      modifies this
      ensures (r, running) == Step(old(running), sync)
      ensures calls == if old(running) then old(calls) else old(calls) + [true]
    {
      var started := Begin();
      if !started {
        r := Skipped;
        return;
      }
      if sync == NeverSettles {
        r := StillAwaiting;
        return;
      }
      r := Finish(sync);
    }
  }

  /** One invocation on the flag's value: what it amounts to and the flag
      afterwards. */
  function Step(running: bool, sync: SyncEnd): (Invocation, bool)
  {
    if running then (Skipped, true)
    else if sync == NeverSettles then (StillAwaiting, true)
    else (Ended(sync), false)
  }

  /** Invocations one after another, each awaited before the next starts
      unless it never settles: what each amounts to, and the final flag. */
  function Replay(running: bool, syncs: seq<SyncEnd>): (r: (seq<Invocation>, bool))
    ensures |r.0| == |syncs|
    decreases |syncs|
  {
    if syncs == [] then ([], running)
    else
      var (rs, flag) := Replay(running, syncs[..|syncs| - 1]);
      var (r, flag') := Step(flag, syncs[|syncs| - 1]);
      (rs + [r], flag')
  }

  // ---------------------------------------------------------------------
  // Properties

  /** A call while `running` is set does nothing; otherwise the sync is
      called, its result is logged and swallowed, and the flag ends clear
      exactly when the sync settled. */
  lemma StepSpec(running: bool, sync: SyncEnd)
    ensures running ==> Step(running, sync) == (Skipped, true)
    ensures !running ==> Step(running, sync).0 != Skipped
    ensures !running ==> (Step(running, sync).1 <==> sync == NeverSettles)
    ensures !running && sync.Throws? ==> Step(running, sync).0 == FailedLogged(sync.message)
  {
  }

  /** While every sync settles, no invocation is ever skipped and the flag
      is clear between them: the `finally` resets it on every exit path. */
  lemma {:induction false} SettledRunsNeverSkip(syncs: seq<SyncEnd>)
    requires forall i :: 0 <= i < |syncs| ==> syncs[i] != NeverSettles
    ensures !Replay(false, syncs).1
    ensures forall i :: 0 <= i < |Replay(false, syncs).0| ==> Replay(false, syncs).0[i] == Ended(syncs[i])
    decreases |syncs|
  {
    if syncs != [] {
      var init := syncs[..|syncs| - 1];
      SettledRunsNeverSkip(init);
    }
  }

  /** Once an invocation awaits a sync that never settles, the flag is
      never cleared again: every later invocation is skipped. */
  lemma {:induction false} StuckAfterNeverSettles(running: bool, syncs: seq<SyncEnd>, i: nat)
    requires i < |syncs| && (running || syncs[i] == NeverSettles)
    requires forall j :: 0 <= j < i ==> running || syncs[j] != NeverSettles
    ensures Replay(running, syncs).1
    ensures forall j :: i < j < |Replay(running, syncs).0| ==> Replay(running, syncs).0[j] == Skipped
    decreases |syncs|
  {
    var init := syncs[..|syncs| - 1];
    if i < |syncs| - 1 {
      StuckAfterNeverSettles(running, init, i);
    } else if running {
      RunningStaysSet(init);
    } else {
      assert forall j :: 0 <= j < |init| ==> init[j] != NeverSettles;
      SettledRunsNeverSkip(init);
    }
  }

  /** A set flag stays set and every invocation is skipped. */
  lemma {:induction false} RunningStaysSet(syncs: seq<SyncEnd>)
    ensures Replay(true, syncs).1
    ensures forall j :: 0 <= j < |Replay(true, syncs).0| ==> Replay(true, syncs).0[j] == Skipped
    decreases |syncs|
  {
    if syncs != [] {
      RunningStaysSet(syncs[..|syncs| - 1]);
    }
  }

  // ---------------------------------------------------------------------
  // The category job behind its guard

  /** The category sync's ending as the guard's `await` sees it;
      `validation` is the rejection of `SyncLog.create` when the action is
      empty. A crash is seen by nobody: the process, and the flag with it,
      is gone. */
  function CategoryEnd(e: CategorySync.Ending, validation: string): (s: Option<SyncEnd>)
    ensures s.None? <==> e == CategorySync.Crashes
    ensures s == Some(NeverSettles) <==> e == CategorySync.NeverSettles
    ensures s == Some(Completes) <==> e == CategorySync.Resolves
  {
    match e
    case Resolves => Some(Completes)
    case Rejects(m) => Some(Throws(m))
    case NeverSettles => Some(NeverSettles)
    case CreateFailed => Some(Throws(validation))
    case Crashes => None
  }

  /** As written, one CatMstSet answer with no records leaves the category
      job's flag set for good: every later cron tick is skipped. */
  lemma CategoryEmptyAnswerLocksJob(lands: nat -> bool, later: seq<SyncEnd>, validation: string)
    ensures var syncs := [CategoryEnd(CategorySync.Settlement(0, lands), validation).value] + later;
      Replay(false, syncs).1 &&
      forall j :: 0 < j < |Replay(false, syncs).0| ==> Replay(false, syncs).0[j] == Skipped
  {
    var syncs := [CategoryEnd(CategorySync.Settlement(0, lands), validation).value] + later;
    StuckAfterNeverSettles(false, syncs, 0);
  }

  /** With the corrected category run every invocation settles, so the flag
      is clear after each one. */
  lemma CategorySettledReleases(e: CategorySync.Ending, validation: string)
    requires e != CategorySync.NeverSettles && e != CategorySync.Crashes
    ensures Step(false, CategoryEnd(e, validation).value).1 == false
    ensures Step(false, CategoryEnd(e, validation).value).0 != Skipped
  {
  }
}
