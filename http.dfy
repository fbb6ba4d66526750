/** The upstream OData service as the jobs see it: a sequence of attempt
    outcomes, the `robustGet` retry loop with exponential backoff, and the
    credential redaction applied to a failing request's configuration. */
module Http {
  import opened Store
  import Text

  /** `response.data.d.results`: a list of records, or anything that is not
      a list (missing `data`, `d` or `results`). */
  datatype Body = Results(rows: seq<Row>) | Malformed

  datatype Response = Response(status: nat, body: Body)

  /** What one request produces: a reply with some status, or a transport
      error (timeout, refused connection, reset) with its message. */
  datatype Attempt = Reply(resp: Response) | NetErr(message: string)

  /** axios' `validateStatus`: the default accepts 2xx only; the pattern job
      passes `() => true`, which accepts every status. */
  datatype StatusCheck = Default2xx | AcceptAll

  predicate Accepts(check: StatusCheck, status: nat)
  {
    check == AcceptAll || 200 <= status < 300
  }

  /** What a failed `robustGet` throws: `undefined` when it made no attempt,
      a transport error, or an axios error carrying the rejected reply. */
  datatype GetError = NoAttempt | Network(message: string) | Rejected(resp: Response)

  datatype GetResult = Got(resp: Response) | Threw(err: GetError)

  /** `response?.data?.d?.results || []` on a response that arrived. */
  function RowsOf(g: GetResult): seq<Row>
    requires g.Got?
  {
    if g.resp.body.Results? then g.resp.body.rows else []
  }

  /** Decimal digits of `n`, as `${n}` writes them. */
  function Decimal(n: nat): (r: string)
    ensures |r| >= 1
    decreases n
  {
    var d := ['0', '1', '2', '3', '4', '5', '6', '7', '8', '9'][n % 10];
    if n < 10 then [d] else Decimal(n / 10) + [d]
  }

  /** `error.message`: axios words a rejected status as
      "Request failed with status code N"; `String(undefined)` is the
      text of the value thrown when no attempt was made. */
  function Message(e: GetError): string
  {
    match e
    case NoAttempt => "undefined"
    case Network(m) => m
    case Rejected(resp) => "Request failed with status code " + Decimal(resp.status)
  }

  /** One `instance.get(url, { validateStatus })`. */
  function Try(check: StatusCheck, a: Attempt): GetResult
  {
    match a
    case Reply(resp) => if Accepts(check, resp.status) then Got(resp) else Threw(Rejected(resp))
    case NetErr(m) => Threw(Network(m))
  }

  /** A failure carrying a response with status 400..499. */
  predicate ClientError(g: GetResult)
  {
    g.Threw? && g.err.Rejected? && 400 <= g.err.resp.status < 500
  }

  /** An attempt after which the loop stops early: success or a 4xx. */
  predicate Final(g: GetResult)
  {
    g.Got? || ClientError(g)
  }

  function StopFrom(k: nat, retries: int, check: StatusCheck, outcome: nat -> Attempt): nat
    requires 1 <= k <= retries
    decreases retries - k
  {
    if Final(Try(check, outcome(k))) || k == retries then k else StopFrom(k + 1, retries, check, outcome)
  }

  /** The number of attempts `robustGet` makes; attempts are numbered from 1. */
  function Stop(retries: int, check: StatusCheck, outcome: nat -> Attempt): nat
  {
    if retries <= 0 then 0 else StopFrom(1, retries, check, outcome)
  }

  /** What `robustGet` returns or throws. */
  function Outcome(retries: int, check: StatusCheck, outcome: nat -> Attempt): GetResult
  {
    if retries <= 0 then Threw(NoAttempt) else Try(check, outcome(Stop(retries, check, outcome)))
  }

  function Pow2(n: nat): (r: nat)
    ensures r >= 1
  {
    if n == 0 then 1 else 2 * Pow2(n - 1)
  }

  /** `robustGet(url, { retries, initialDelayMs, validateStatus })`, with the
      network's answer to attempt k given by `outcome(k)`. `waits` lists the
      back-off delays slept between attempts, in order. */
  method RobustGet(retries: int, initialDelayMs: int, check: StatusCheck, outcome: nat -> Attempt)
    returns (r: GetResult, attempts: nat, waits: seq<int>)
    ensures attempts == Stop(retries, check, outcome)
    ensures r == Outcome(retries, check, outcome)
    ensures |waits| == if attempts == 0 then 0 else attempts - 1
    ensures forall j :: 0 <= j < |waits| ==> waits[j] == initialDelayMs * Pow2(j)
  {
    attempts := 0;
    var lastErr: GetError := NoAttempt;
    waits := [];
    while attempts < retries
      invariant attempts == 0 || attempts <= retries
      invariant attempts < retries ==> Stop(retries, check, outcome) == StopFrom(attempts + 1, retries, check, outcome)
      invariant attempts == retries ==> Stop(retries, check, outcome) == attempts
      invariant attempts == 0 ==> lastErr == NoAttempt
      invariant attempts > 0 ==> Try(check, outcome(attempts)) == Threw(lastErr)
      invariant |waits| == if attempts < retries || attempts == 0 then attempts else attempts - 1
      invariant forall j :: 0 <= j < |waits| ==> waits[j] == initialDelayMs * Pow2(j)
    {
      attempts := attempts + 1;
      var res := Try(check, outcome(attempts));
      if res.Got? {
        r := res;
        return;
      }
      lastErr := res.err;
      if lastErr.Rejected? && 400 <= lastErr.resp.status < 500 {
        r := res;
        return;
      }
      if attempts < retries {
        waits := waits + [initialDelayMs * Pow2(attempts - 1)];
      }
    }
    r := Threw(lastErr);
  }

  lemma {:induction false} StopFromSpec(k: nat, retries: int, check: StatusCheck, outcome: nat -> Attempt)
    requires 1 <= k <= retries
    ensures var s := StopFrom(k, retries, check, outcome);
      k <= s <= retries &&
      (forall j :: k <= j < s ==> !Final(Try(check, outcome(j)))) &&
      (Final(Try(check, outcome(s))) || s == retries)
    decreases retries - k
  {
    if !(Final(Try(check, outcome(k))) || k == retries) {
      StopFromSpec(k + 1, retries, check, outcome);
    }
  }

  /** At most `retries` attempts, at least one when `retries > 0`; every
      attempt before the last one failed without a 4xx, and the last one
      succeeded, got a 4xx, or was the final allowed attempt. */
  lemma StopSpec(retries: int, check: StatusCheck, outcome: nat -> Attempt)
    ensures retries <= 0 ==> Stop(retries, check, outcome) == 0 && Outcome(retries, check, outcome) == Threw(NoAttempt)
    ensures retries > 0 ==> var s := Stop(retries, check, outcome);
      1 <= s <= retries &&
      (forall j :: 1 <= j < s ==> !Final(Try(check, outcome(j)))) &&
      (Final(Try(check, outcome(s))) || s == retries)
  {
    if retries > 0 {
      StopFromSpec(1, retries, check, outcome);
    }
  }

  /** The first attempt that succeeds or gets a 4xx ends the loop: its result
      is what `robustGet` returns or throws, and no attempt follows it. */
  lemma FirstFinalEnds(retries: int, check: StatusCheck, outcome: nat -> Attempt, k: nat)
    requires 1 <= k <= retries && Final(Try(check, outcome(k)))
    requires forall j :: 1 <= j < k ==> !Final(Try(check, outcome(j)))
    ensures Stop(retries, check, outcome) == k
    ensures Outcome(retries, check, outcome) == Try(check, outcome(k))
  {
    StopSpec(retries, check, outcome);
  }

  /** `robustGet` returns a response exactly when some attempt succeeds before
      any attempt gets a 4xx, and then that is the first successful response. */
  lemma GotIff(retries: int, check: StatusCheck, outcome: nat -> Attempt)
    ensures Outcome(retries, check, outcome).Got? <==>
      exists k :: 1 <= k <= retries && Try(check, outcome(k)).Got? &&
        forall j :: 1 <= j < k ==> !Final(Try(check, outcome(j)))
    ensures Outcome(retries, check, outcome).Got? ==>
      Outcome(retries, check, outcome) == Try(check, outcome(Stop(retries, check, outcome)))
  {
    StopSpec(retries, check, outcome);
    if exists k :: 1 <= k <= retries && Try(check, outcome(k)).Got? &&
        forall j :: 1 <= j < k ==> !Final(Try(check, outcome(j))) {
      var k :| 1 <= k <= retries && Try(check, outcome(k)).Got? &&
        forall j :: 1 <= j < k ==> !Final(Try(check, outcome(j)));
      FirstFinalEnds(retries, check, outcome, k);
    }
  }

  /** When no attempt succeeds or gets a 4xx, the error of the last allowed
      attempt is thrown: after all retries, never an empty value. */
  lemma LastErrorRethrown(retries: int, check: StatusCheck, outcome: nat -> Attempt)
    requires retries > 0
    requires forall j :: 1 <= j <= retries ==> !Final(Try(check, outcome(j)))
    ensures Stop(retries, check, outcome) == retries
    ensures Outcome(retries, check, outcome) == Try(check, outcome(retries))
    ensures Outcome(retries, check, outcome).Threw? && !Outcome(retries, check, outcome).err.NoAttempt?
  {
    StopSpec(retries, check, outcome);
  }

  /** With `validateStatus: () => true` every reply counts as a success, so
      only transport errors are retried: the result is the first reply (of
      any status), or the last transport error when none replied. */
  lemma AcceptAllFirstReply(retries: int, outcome: nat -> Attempt, k: nat)
    requires 1 <= k <= retries && outcome(k).Reply?
    requires forall j :: 1 <= j < k ==> outcome(j).NetErr?
    ensures Stop(retries, AcceptAll, outcome) == k
    ensures Outcome(retries, AcceptAll, outcome) == Got(outcome(k).resp)
  {
    FirstFinalEnds(retries, AcceptAll, outcome, k);
  }

  lemma AcceptAllNoReply(retries: int, outcome: nat -> Attempt)
    requires retries > 0
    requires forall j :: 1 <= j <= retries ==> outcome(j).NetErr?
    ensures Stop(retries, AcceptAll, outcome) == retries
    ensures Outcome(retries, AcceptAll, outcome) == Threw(Network(outcome(retries).message))
  {
    LastErrorRethrown(retries, AcceptAll, outcome);
  }

  // ---------------------------------------------------------------------
  // redactConfigForLog

  datatype BasicAuth = BasicAuth(username: string, password: string)

  /** The parts of an axios request configuration the redaction reads:
      headers (JSON string values), basic-auth credentials and the url. An
      absent `url` is the empty string, which is equally falsy. */
  datatype RequestConfig = RequestConfig(headers: Option<map<string, string>>, auth: Option<BasicAuth>, url: string)

  const EmptyConfig := RequestConfig(None, None, "")

  /** `redactConfigForLog(cfg = {})`, on the configuration of the last error
      (`None` when there is none, which takes the `{}` default). Working on a
      value, the input config is left untouched. */
  function RedactConfig(cfg: Option<RequestConfig>): (r: RequestConfig)
    ensures cfg.None? ==> r == EmptyConfig
    ensures cfg.Some? ==> (r.headers.Some? <==> cfg.value.headers.Some?)
    ensures cfg.Some? && cfg.value.headers.Some? ==> var h, h' := cfg.value.headers.value, r.headers.value;
      h'.Keys == h.Keys &&
      (forall k :: k in h && k != "Authorization" ==> h'[k] == h[k]) &&
      ("Authorization" in h ==> h'["Authorization"] == if h["Authorization"] != "" then "REDACTED" else "")
    ensures cfg.Some? ==> (r.auth.Some? <==> cfg.value.auth.Some?)
    ensures r.auth.Some? ==> r.auth.value == BasicAuth("REDACTED", "REDACTED")
    ensures cfg.Some? ==> r.url == Text.RedactUrl(cfg.value.url)
  {
    match cfg
    case None => EmptyConfig
    case Some(c) =>
      var headers := match c.headers
        case None => None
        case Some(h) => Some(if "Authorization" in h && h["Authorization"] != "" then h["Authorization" := "REDACTED"] else h);
      var auth := if c.auth.Some? then Some(BasicAuth("REDACTED", "REDACTED")) else None;
      var url := if c.url != "" then Text.RedactUrl(c.url) else c.url;
      RequestConfig(headers, auth, url)
  }
}
