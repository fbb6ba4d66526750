/** The process entry points around the jobs: `connectWithRetry` (the same
    loop in the fleet service's `index.mjs` and the product service's
    `index.js`), the fleet service's disconnect handling and Lambda
    `handler`, and the product service's `main` with its exit codes. The
    database answers each connect and disconnect as a given outcome, and
    `Math.random` is a given jitter. */
module Connection {
  import opened Store
  import Text
  import Http
  import Jobs

  // ---------------------------------------------------------------------
  // connectWithRetry

  /** What one `mongoose.connect` does: it resolves, leaving the connection
      in some `readyState`, or it rejects with an error message. */
  datatype ConnectAttempt = Connects(readyState: nat) | ConnectErr(message: string)

  /** `connectWithRetry` returns, or rethrows an attempt's error. */
  datatype ConnectResult = Returned | Rethrown(message: string)

  const DefaultMaxRetries := 5
  const BackoffCapMs := 30000

  /** `Math.min(30000, 1000 * 2 ** attempt) + jitter`. */
  function Backoff(attempt: nat, jitter: int): int
  {
    (if 1000 * Http.Pow2(attempt) < BackoffCapMs then 1000 * Http.Pow2(attempt) else BackoffCapMs) + jitter
  }

  function ConnectFrom(k: nat, maxRetries: int, outcome: nat -> ConnectAttempt): nat
    requires 1 <= k <= maxRetries
    decreases maxRetries - k
  {
    if outcome(k).Connects? || k == maxRetries then k else ConnectFrom(k + 1, maxRetries, outcome)
  }

  /** The number of connect attempts made; attempts are numbered from 1. */
  function ConnectStop(maxRetries: int, outcome: nat -> ConnectAttempt): nat
  {
    if maxRetries <= 0 then 0 else ConnectFrom(1, maxRetries, outcome)
  }

  /** Whether `connectWithRetry` returns or throws. With no attempt allowed
      the loop body never runs and it returns without connecting. */
  function ConnectOutcome(maxRetries: int, outcome: nat -> ConnectAttempt): ConnectResult
  {
    var s := ConnectStop(maxRetries, outcome);
    if s == 0 || outcome(s).Connects? then Returned else Rethrown(outcome(s).message)
  }

  /** `connectWithRetry(maxRetries)`, with the database's answer to attempt
      k given by `outcome(k)` and the jitter drawn after it by `jitter(k)`.
      `waits` lists the delays slept between attempts, in order. */
  method ConnectWithRetry(maxRetries: int, outcome: nat -> ConnectAttempt, jitter: nat -> nat)
    returns (r: ConnectResult, attempts: nat, waits: seq<int>)
    ensures attempts == ConnectStop(maxRetries, outcome)
    ensures r == ConnectOutcome(maxRetries, outcome)
    ensures |waits| == if attempts == 0 then 0 else attempts - 1
    ensures forall j :: 0 <= j < |waits| ==> waits[j] == Backoff(j + 1, jitter(j + 1))
  {
    attempts := 0;
    waits := [];
    while attempts < maxRetries
      invariant attempts == 0 || attempts < maxRetries
      invariant attempts < maxRetries ==> ConnectStop(maxRetries, outcome) == ConnectFrom(attempts + 1, maxRetries, outcome)
      invariant |waits| == attempts
      invariant forall j :: 0 <= j < |waits| ==> waits[j] == Backoff(j + 1, jitter(j + 1))
    {
      attempts := attempts + 1;
      var a := outcome(attempts);
      if a.Connects? {
        r := Returned;
        return;
      }
      if attempts >= maxRetries {
        r := Rethrown(a.message);
        return;
      }
      waits := waits + [Backoff(attempts, jitter(attempts))];
    }
    r := Returned;
  }

  lemma {:induction false} ConnectFromSpec(k: nat, maxRetries: int, outcome: nat -> ConnectAttempt)
    requires 1 <= k <= maxRetries
    ensures var s := ConnectFrom(k, maxRetries, outcome);
      k <= s <= maxRetries &&
      (forall j :: k <= j < s ==> outcome(j).ConnectErr?) &&
      (outcome(s).Connects? || s == maxRetries)
    decreases maxRetries - k
  {
    if !(outcome(k).Connects? || k == maxRetries) {
      ConnectFromSpec(k + 1, maxRetries, outcome);
    }
  }

  /** At most `maxRetries` attempts; the loop stops at the first successful
      connect, and every attempt before the last one failed. */
  lemma ConnectStopSpec(maxRetries: int, outcome: nat -> ConnectAttempt)
    ensures maxRetries <= 0 ==> ConnectStop(maxRetries, outcome) == 0 && ConnectOutcome(maxRetries, outcome) == Returned
    ensures maxRetries > 0 ==> var s := ConnectStop(maxRetries, outcome);
      1 <= s <= maxRetries &&
      (forall j :: 1 <= j < s ==> outcome(j).ConnectErr?) &&
      (outcome(s).Connects? || s == maxRetries)
  {
    if maxRetries > 0 {
      ConnectFromSpec(1, maxRetries, outcome);
    }
  }

  /** With at least one attempt allowed, it returns exactly when some
      attempt connects, and then the first such attempt is the last one
      made; otherwise the error of the final attempt is rethrown. */
  lemma ConnectReturnsIff(maxRetries: int, outcome: nat -> ConnectAttempt)
    requires maxRetries > 0
    ensures ConnectOutcome(maxRetries, outcome) == Returned <==> exists k :: 1 <= k <= maxRetries && outcome(k).Connects?
    ensures ConnectOutcome(maxRetries, outcome) == Returned ==> outcome(ConnectStop(maxRetries, outcome)).Connects?
    ensures ConnectOutcome(maxRetries, outcome).Rethrown? ==>
      ConnectStop(maxRetries, outcome) == maxRetries &&
      ConnectOutcome(maxRetries, outcome) == Rethrown(outcome(maxRetries).message)
  {
    ConnectStopSpec(maxRetries, outcome);
    var s := ConnectStop(maxRetries, outcome);
    if exists k :: 1 <= k <= maxRetries && outcome(k).Connects? {
      var k :| 1 <= k <= maxRetries && outcome(k).Connects?;
    }
  }

  lemma {:induction false} Pow2Grows(m: nat, n: nat)
    requires m <= n
    ensures Http.Pow2(m) <= Http.Pow2(n)
    decreases n - m
  {
    if m < n {
      Pow2Grows(m, n - 1);
    }
  }

  /** The back-off after failed attempt n doubles from 2 s and is capped at
      30 s from the fifth attempt on; the jitter adds 0 to 199 ms. */
  lemma BackoffSchedule(attempt: nat, jitter: nat)
    requires attempt >= 1 && jitter < 200
    ensures 2000 <= Backoff(attempt, 0) <= BackoffCapMs
    ensures Backoff(attempt, 0) <= Backoff(attempt, jitter) < Backoff(attempt, 0) + 200
    ensures attempt <= 4 ==> Backoff(attempt, jitter) == 1000 * Http.Pow2(attempt) + jitter
    ensures attempt >= 5 ==> Backoff(attempt, jitter) == BackoffCapMs + jitter
  {
    Pow2Grows(1, attempt);
    if attempt >= 5 {
      Pow2Grows(5, attempt);
      assert Http.Pow2(5) == 32;
    } else {
      assert Http.Pow2(4) == 16;
      Pow2Grows(attempt, 4);
    }
  }

  // ---------------------------------------------------------------------
  // Disconnect handling (sync_customer_fleet_master/index.mjs)

  /** The parts of a driver error the predicate reads: `name`,
      `message`, what `toString()` gives, and `errorLabel`; a missing
      property is the empty string. */
  datatype DriverError = DriverError(name: string, message: string, text: string, errorLabel: string)

  const ClosedPoolPhrase := "Attempted to check out a connection from closed connection pool"
  const SocketCancelled := "Socket connection establishment was cancelled"

  /** `err.message || err.toString()`. */
  function MessageOf(e: DriverError): string
  {
    if e.message != "" then e.message else e.text
  }

  /** `isIgnorableDisconnectError(err)`; `None` is a falsy `err`. */
  function IsIgnorable(err: Option<DriverError>): (b: bool)
    ensures err.None? ==> !b
    ensures err.Some? && err.value.errorLabel == "ResetPool" ==> b
    ensures err.Some? && (err.value.name == "MongoClientClosedError" || err.value.name == "MongoPoolClosedError") ==> b
  {
    match err
    case None => false
    case Some(e) =>
      var msg := MessageOf(e);
      if e.name == "MongoClientClosedError" || e.name == "MongoPoolClosedError" ||
         Text.Contains(msg, "PoolClosedError") || Text.Contains(msg, "MongoClientClosedError") ||
         Text.Contains(msg, ClosedPoolPhrase) then true
      else if e.errorLabel == "ResetPool" then true
      else Text.Contains(msg, SocketCancelled)
  }

  /** A message naming the pool-closed error class is recognised through
      the `PoolClosedError` alternative, whatever the `name`. */
  lemma PoolClosedMessageIgnorable(e: DriverError)
    requires Text.Contains(MessageOf(e), "MongoPoolClosedError")
    ensures IsIgnorable(Some(e))
  {
    var msg := MessageOf(e);
    var i := Text.ContainsThenOccurs(msg, "MongoPoolClosedError");
    assert msg[i + 5..i + 5 + 15] == msg[i..i + 20][5..];
    assert Text.OccursAt(msg, "PoolClosedError", i + 5);
    Text.OccursThenContains(msg, "PoolClosedError", i + 5);
  }

  /** The closed-pool phrase and the cancelled-socket phrase are recognised
      anywhere in the message, also when only `toString()` carries it. */
  lemma PhrasesIgnorable(e: DriverError, before: string, after: string)
    requires MessageOf(e) == before + ClosedPoolPhrase + after || MessageOf(e) == before + SocketCancelled + after
    ensures IsIgnorable(Some(e))
  {
    Text.ContainsInfix(before, ClosedPoolPhrase, after);
    Text.ContainsInfix(before, SocketCancelled, after);
  }

  /** An error with another name and label whose message is shorter than
      every pattern is not ignorable: a refused connection, say. */
  lemma OtherErrorsNotIgnorable(name: string, errLabel: string)
    requires name != "MongoClientClosedError" && name != "MongoPoolClosedError" && errLabel != "ResetPool"
    ensures !IsIgnorable(Some(DriverError(name, "ECONNREFUSED", "", errLabel)))
  {
    ShortNotContains("ECONNREFUSED", "PoolClosedError");
    ShortNotContains("ECONNREFUSED", "MongoClientClosedError");
    ShortNotContains("ECONNREFUSED", ClosedPoolPhrase);
    ShortNotContains("ECONNREFUSED", SocketCancelled);
  }

  lemma ShortNotContains(s: string, sub: string)
    requires |s| < |sub|
    ensures !Text.Contains(s, sub)
  {
    Text.ContainsIff(s, sub);
  }

  /** What `mongoose.disconnect()` does. */
  datatype DisconnectAttempt = Disconnects | DisconnectThrows(err: Option<DriverError>)

  /** How `safeDisconnect` ends; it always resolves. */
  datatype DisconnectNote = AlreadyDisconnected | Disconnected | IgnoredRace | UnexpectedLogged

  /** `safeDisconnect()`: nothing to do when `readyState` is 0; otherwise
      one disconnect after the grace period, whose error is classified and
      logged but never propagated. */
  method SafeDisconnect(readyState: nat, attempt: DisconnectAttempt) returns (note: DisconnectNote, called: bool)
    ensures called <==> readyState != 0
    ensures note == AlreadyDisconnected <==> readyState == 0
    ensures note == Disconnected <==> readyState != 0 && attempt.Disconnects?
    ensures note == IgnoredRace <==> readyState != 0 && attempt.DisconnectThrows? && IsIgnorable(attempt.err)
  {
    if readyState == 0 {
      note, called := AlreadyDisconnected, false;
      return;
    }
    called := true;
    if attempt.Disconnects? {
      note := Disconnected;
    } else if IsIgnorable(attempt.err) {
      note := IgnoredRace;
    } else {
      note := UnexpectedLogged;
    }
  }

  // ---------------------------------------------------------------------
  // The fleet service's Lambda handler

  /** `JSON.stringify(output)` of `{ status: "ok" }`, or of `{ error }`. */
  datatype ResponseBody = StatusOk | ErrorBody(error: string)

  datatype LambdaResponse = LambdaResponse(statusCode: nat, body: ResponseBody)

  /** The response for a connect result and the job's sync; `None` when the
      job's `await` never returns. Disconnect outcomes play no part. */
  function HandlerResponse(connect: ConnectResult, sync: Jobs.SyncEnd): (r: Option<LambdaResponse>)
    ensures r.Some? ==> r.value.statusCode == 200 || r.value.statusCode == 500
  {
    if connect.Rethrown? then Some(LambdaResponse(500, ErrorBody(connect.message)))
    else if sync == Jobs.NeverSettles then None
    else Some(LambdaResponse(200, StatusOk))
  }

  /** `handler(event, context)`: `runMain` connects with the default five
      attempts, runs the fleet job behind a fresh guard and disconnects; a
      throw anywhere in it is caught, followed by another `safeDisconnect`,
      and answered with 500. The outbound-IP probe swallows its own errors
      and is left out. */
  method Handler(outcome: nat -> ConnectAttempt, jitter: nat -> nat, sync: Jobs.SyncEnd,
                 readyState: nat, attempt: DisconnectAttempt)
    returns (response: Option<LambdaResponse>)
    ensures response == HandlerResponse(ConnectOutcome(DefaultMaxRetries, outcome), sync)
  {
    var r, attempts, waits := ConnectWithRetry(DefaultMaxRetries, outcome, jitter);
    if r.Rethrown? {
      var note, called := SafeDisconnect(readyState, attempt);
      response := Some(LambdaResponse(500, ErrorBody(r.message)));
      return;
    }
    var guard := new Jobs.RunGuard();
    var invocation := guard.Invoke(sync);
    if invocation == Jobs.StillAwaiting {
      response := None;
      return;
    }
    var note, called := SafeDisconnect(readyState, attempt);
    response := Some(LambdaResponse(200, StatusOk));
  }

  /** The handler answers 200 exactly when one of the five connects
      succeeds and the job settles, a failed or rejected sync included; it
      answers 500 with the fifth attempt's message when all five fail. */
  lemma HandlerStatus(outcome: nat -> ConnectAttempt, sync: Jobs.SyncEnd)
    ensures var r := HandlerResponse(ConnectOutcome(DefaultMaxRetries, outcome), sync);
      (r == Some(LambdaResponse(200, StatusOk)) <==>
        (exists k :: 1 <= k <= 5 && outcome(k).Connects?) && sync != Jobs.NeverSettles) &&
      ((forall k :: 1 <= k <= 5 ==> outcome(k).ConnectErr?) ==>
        r == Some(LambdaResponse(500, ErrorBody(outcome(5).message))))
  {
    ConnectReturnsIff(DefaultMaxRetries, outcome);
  }

  // ---------------------------------------------------------------------
  // The product service's main

  /** How the process ends: `process.exit(code)`, or never, when the job's
      `await` never returns. */
  datatype ProcessEnd = Exits(code: nat) | Hangs

  /** `readyState` once `connectWithRetry` has returned: the state the last
      successful connect left, 0 when none was made. */
  function StateAfter(maxRetries: int, outcome: nat -> ConnectAttempt): nat
  {
    var s := ConnectStop(maxRetries, outcome);
    if s > 0 && outcome(s).Connects? then outcome(s).readyState else 0
  }

  function ProductExit(mongoUri: Option<string>, maxRetries: int, outcome: nat -> ConnectAttempt,
                       sync: Jobs.SyncEnd, disconnectFails: bool): (e: ProcessEnd)
    ensures e.Exits? ==> e.code == 0 || e.code == 1
  {
    if mongoUri.None? || mongoUri.value == "" then Exits(1)
    else if ConnectOutcome(maxRetries, outcome).Rethrown? || StateAfter(maxRetries, outcome) != 1 then Exits(1)
    else if sync == Jobs.NeverSettles then Hangs
    else if disconnectFails then Exits(1)
    else Exits(0)
  }

  /** `main()` with the configured `MONGO_URI` and
      `MONGO_CONNECT_MAX_RETRIES`. `disconnectFails` says whether the
      disconnect after a successful run throws; the one in the `catch` is
      wrapped in its own `try`, so its outcome changes nothing.
      `connects` and `disconnects` count the calls made. */
  method ProductMain(mongoUri: Option<string>, maxRetries: int, outcome: nat -> ConnectAttempt, jitter: nat -> nat,
                     sync: Jobs.SyncEnd, disconnectFails: bool)
    returns (end: ProcessEnd, connects: nat, disconnects: nat)
    ensures end == ProductExit(mongoUri, maxRetries, outcome, sync, disconnectFails)
    ensures mongoUri.None? || mongoUri.value == "" ==> connects == 0 && disconnects == 0
    ensures mongoUri.Some? && mongoUri.value != "" ==> connects == ConnectStop(maxRetries, outcome)
    ensures end == Exits(1) && mongoUri.Some? && mongoUri.value != "" ==> disconnects >= 1
  {
    if mongoUri.None? || mongoUri.value == "" {
      end, connects, disconnects := Exits(1), 0, 0;
      return;
    }
    var r, attempts, waits := ConnectWithRetry(maxRetries, outcome, jitter);
    connects := attempts;
    var state := if attempts > 0 && outcome(attempts).Connects? then outcome(attempts).readyState else 0;
    if r.Rethrown? || state != 1 {
      end, disconnects := Exits(1), 1;
      return;
    }
    var guard := new Jobs.RunGuard();
    var invocation := guard.Invoke(sync);
    if invocation == Jobs.StillAwaiting {
      end, disconnects := Hangs, 0;
      return;
    }
    if disconnectFails {
      end, disconnects := Exits(1), 2;
    } else {
      end, disconnects := Exits(0), 1;
    }
  }

  /** The process exits 0 exactly when `MONGO_URI` is set, a connect
      reaches `readyState` 1, the job settles and the final disconnect
      succeeds; a rejected sync is swallowed by the guard and still exits
      0. No attempt allowed means no connection, hence exit 1. */
  lemma ProductExitIff(mongoUri: Option<string>, maxRetries: int, outcome: nat -> ConnectAttempt,
                       sync: Jobs.SyncEnd, disconnectFails: bool)
    ensures ProductExit(mongoUri, maxRetries, outcome, sync, disconnectFails) == Exits(0) <==>
      mongoUri.Some? && mongoUri.value != "" && sync != Jobs.NeverSettles && !disconnectFails &&
      exists k :: 1 <= k <= maxRetries && outcome(k) == Connects(1) && forall j :: 1 <= j < k ==> outcome(j).ConnectErr?
    ensures maxRetries <= 0 ==> ProductExit(mongoUri, maxRetries, outcome, sync, disconnectFails) == Exits(1)
  {
    ConnectStopSpec(maxRetries, outcome);
    var s := ConnectStop(maxRetries, outcome);
    if exists k :: 1 <= k <= maxRetries && outcome(k) == Connects(1) && forall j :: 1 <= j < k ==> outcome(j).ConnectErr? {
      var k :| 1 <= k <= maxRetries && outcome(k) == Connects(1) && forall j :: 1 <= j < k ==> outcome(j).ConnectErr?;
      assert s == k;
    }
    if maxRetries > 0 && ConnectOutcome(maxRetries, outcome) == Returned && StateAfter(maxRetries, outcome) == 1 {
      assert outcome(s) == Connects(1);
    }
  }
}
