/**
 * The retry loop of `NetSuiteClient._make_request`.
 *
 * Attempts are numbered 1 .. retries. Each attempt sends the request once
 * and, inside one `try`, either returns the decoded body or raises:
 *   - a 429 answer before the last attempt is waited out and retried;
 *   - any other answer with status >= 400 raises
 *       "NetSuite API error (<status>): <reason>. <body text>";
 *   - a body that is not JSON raises the decoder's error.
 * The handlers then decide:
 *   - a timeout is retried unless it was the last attempt, where it becomes
 *       "Request timeout after multiple retries";
 *   - any other exception is re-raised on the last attempt, retried when its
 *     message contains "connection" (in any case), and re-raised otherwise.
 * The wait before attempt a + 1 is 2^a seconds.
 *
 * The network is the parameter `net`: `net(a)` is what attempt `a` observes.
 */
module RetryLoop {
  import opened Results
  import opened Text
  import opened Json

  /** What one HTTP exchange produced, as the loop sees it. */
  datatype Response = Response(
    status: int,                      // response.status_code
    reason: string,                   // response.reason_phrase
    text: string,                     // response.text
    body: Result<Json, string>)       // response.json(), or the decoder's error message

  datatype Outcome =
    | Responded(response: Response)   // the server answered
    | TimedOut                        // httpx.TimeoutException
    | Failed(message: string)         // any other exception from the transport, with str(e)

  /** What the loop does after one attempt. */
  datatype Step = Retry | Done(result: Result<Json, string>)

  /** The outcome of the whole call: the value returned or the message raised, the waits, the attempts made. */
  datatype Attempted = Attempted(result: Result<Json, string>, delays: seq<nat>, attempts: nat)

  const TimeoutMessage := "Request timeout after multiple retries"

  function Pow2(n: nat): (r: nat)
    ensures r >= 1
  {
    if n == 0 then 1 else 2 * Pow2(n - 1)
  }

  /** The message of the exception raised for an error status. */
  function ErrorText(status: int, reason: string, text: string): string {
    "NetSuite API error (" + Dec(status) + "): " + reason + ". " + text
  }

  /**
   * The exception an attempt raises inside the `try`, if any (a 429 that is
   * retried before it gets this far is handled by `Step`).
   */
  function Raised(o: Outcome): Option<string> {
    match o
    case Responded(resp) =>
      if resp.status >= 400 then Some(ErrorText(resp.status, resp.reason, resp.text))
      else if resp.body.Err? then Some(resp.body.error)
      else Nothing
    case TimedOut => Nothing
    case Failed(m) => Some(m)
  }

  /** An outcome the loop waits out and retries, given that attempts remain. */
  predicate Transient(o: Outcome) {
    (o.Responded? && o.response.status == 429)
    || o.TimedOut?
    || (Raised(o).Some? && Contains(Lower(Raised(o).value), "connection"))
  }

  /** The generic `except Exception` handler. */
  function Handle(message: string, attempt: nat, retries: int): (s: Step)
    ensures s.Retry? <==> attempt != retries && Contains(Lower(message), "connection")
    ensures s.Done? ==> s.result == Err(message)
  {
    if attempt == retries then Done(Err(message))
    else if Contains(Lower(message), "connection") then Retry
    else Done(Err(message))
  }

  /** One pass through the loop body and its handlers, in the source's order of tests. */
  function StepOf(o: Outcome, attempt: nat, retries: int): (s: Step)
    requires 1 <= attempt <= retries
    ensures s.Retry? ==> attempt < retries
  {
    match o
    case Responded(resp) =>
      if resp.status == 429 && attempt < retries then Retry
      else if resp.status >= 400 then Handle(ErrorText(resp.status, resp.reason, resp.text), attempt, retries)
      else if resp.body.Err? then Handle(resp.body.error, attempt, retries)
      else Done(Ok(resp.body.value))
    case TimedOut =>
      if attempt < retries then Retry else Done(Err(TimeoutMessage))
    case Failed(m) => Handle(m, attempt, retries)
  }

  /** An attempt is retried exactly when attempts remain and its outcome is transient. */
  lemma StepRetryIff(o: Outcome, attempt: nat, retries: int)
    requires 1 <= attempt <= retries
    ensures StepOf(o, attempt, retries).Retry? <==> attempt < retries && Transient(o)
  {
  }

  /** An attempt returns a value exactly when the server answered below 400 with a JSON body. */
  lemma StepOkIff(o: Outcome, attempt: nat, retries: int, j: Json)
    requires 1 <= attempt <= retries
    ensures StepOf(o, attempt, retries) == Done(Ok(j)) <==>
            o.Responded? && o.response.status < 400 && o.response.body == Ok(j)
  {
  }

  /**
   * An attempt that gives up raises either the timeout message (last attempt
   * only) or the exception the attempt itself raised, and only when that
   * message does not mention a connection or no attempts remain.
   */
  lemma StepErrorCases(o: Outcome, attempt: nat, retries: int, m: string)
    requires 1 <= attempt <= retries
    requires StepOf(o, attempt, retries) == Done(Err(m))
    ensures (o.TimedOut? && attempt == retries && m == TimeoutMessage)
         || (Raised(o) == Some(m) && (attempt == retries || !Contains(Lower(m), "connection")))
  {
  }

  /** The attempts from `attempt` on. */
  function Run(net: nat -> Outcome, attempt: nat, retries: int): (r: Attempted)
    requires 1 <= attempt <= retries
    ensures attempt <= r.attempts <= retries
    ensures |r.delays| == r.attempts - attempt
    ensures forall i | 0 <= i < |r.delays| :: r.delays[i] == Pow2(attempt + i)
    ensures forall k | attempt <= k < r.attempts :: StepOf(net(k), k, retries).Retry?
    ensures StepOf(net(r.attempts), r.attempts, retries) == Done(r.result)
    decreases retries - attempt
  {
    match StepOf(net(attempt), attempt, retries)
    case Done(res) => Attempted(res, [], attempt)
    case Retry =>
      var rest := Run(net, attempt + 1, retries);
      Attempted(rest.result, [Pow2(attempt)] + rest.delays, rest.attempts)
  }

  /**
   * `_make_request(..., retries)`. With fewer than one attempt the loop body
   * never runs and the coroutine returns None.
   */
  function MakeRequest(net: nat -> Outcome, retries: int): (r: Attempted)
    ensures retries < 1 ==> r == Attempted(Ok(JNull), [], 0)
    ensures retries >= 1 ==> 1 <= r.attempts <= retries
    ensures retries >= 1 ==> |r.delays| == r.attempts - 1
    ensures forall i | 0 <= i < |r.delays| :: r.delays[i] == Pow2(i + 1)
    ensures retries >= 1 ==> forall k | 1 <= k < r.attempts :: StepOf(net(k), k, retries).Retry?
    ensures retries >= 1 ==> StepOf(net(r.attempts), r.attempts, retries) == Done(r.result)
  {
    if retries < 1 then Attempted(Ok(JNull), [], 0) else Run(net, 1, retries)
  }

  function Sum(xs: seq<nat>): nat {
    if |xs| == 0 then 0 else xs[0] + Sum(xs[1..])
  }

  lemma {:induction false} DoublingSum(start: nat, n: nat, xs: seq<nat>)
    requires |xs| == n
    requires forall i | 0 <= i < n :: xs[i] == Pow2(start + i)
    ensures Sum(xs) + Pow2(start) == Pow2(start + n)
    decreases n
  {
    if n > 0 {
      DoublingSum(start + 1, n - 1, xs[1..]);
    }
  }

  /** The waits add up to 2^attempts - 2 seconds: at most 6 seconds with the default three attempts. */
  lemma TotalWait(net: nat -> Outcome, retries: int)
    requires retries >= 1
    ensures Sum(MakeRequest(net, retries).delays) + 2 == Pow2(MakeRequest(net, retries).attempts)
    ensures Sum(MakeRequest(net, retries).delays) + 2 <= Pow2(retries)
  {
    var r := MakeRequest(net, retries);
    DoublingSum(1, r.attempts - 1, r.delays);
    PowMonotone(r.attempts, retries);
  }

  lemma {:induction false} PowMonotone(a: nat, b: nat)
    requires a <= b
    ensures Pow2(a) <= Pow2(b)
    decreases b
  {
    if a < b {
      PowMonotone(a, b - 1);
    }
  }

  // ---------------------------------------------------------------------------
  // Scenarios
  // ---------------------------------------------------------------------------

  function Ok200(j: Json): Outcome {
    Responded(Response(200, "OK", "", Ok(j)))
  }

  function TooMany(): Outcome {
    Responded(Response(429, "Too Many Requests", "", Ok(JNull)))
  }

  /** Two rate-limited answers, then success: waits of 2 s and 4 s, three attempts, the body returned. */
  lemma RateLimitedTwiceThenOk(net: nat -> Outcome, j: Json)
    requires net(1) == TooMany() && net(2) == TooMany() && net(3) == Ok200(j)
    ensures MakeRequest(net, 3) == Attempted(Ok(j), [2, 4], 3)
  {
    var r := MakeRequest(net, 3);
    assert StepOf(net(1), 1, 3) == Retry;
    assert StepOf(net(2), 2, 3) == Retry;
    assert r.attempts == 3;
  }

  /** A server that always rate-limits: the third 429 is raised as an API error. */
  lemma RateLimitedThrice(net: nat -> Outcome)
    requires forall k :: net(k) == TooMany()
    ensures MakeRequest(net, 3) == Attempted(Err(ErrorText(429, "Too Many Requests", "")), [2, 4], 3)
  {
    var r := MakeRequest(net, 3);
    assert StepOf(net(1), 1, 3) == Retry;
    assert StepOf(net(2), 2, 3) == Retry;
    assert r.attempts == 3;
  }

  /** A network that always times out: three attempts, then the timeout message. */
  lemma AlwaysTimingOut(net: nat -> Outcome)
    requires forall k :: net(k) == TimedOut
    ensures MakeRequest(net, 3) == Attempted(Err(TimeoutMessage), [2, 4], 3)
  {
    var r := MakeRequest(net, 3);
    assert StepOf(net(1), 1, 3) == Retry;
    assert StepOf(net(2), 2, 3) == Retry;
    assert r.attempts == 3;
  }

  /** A server error whose message does not mention a connection is raised at once, without waiting. */
  lemma ServerErrorNotRetried(net: nat -> Outcome, retries: int, reason: string, text: string)
    requires retries >= 1
    requires net(1) == Responded(Response(500, reason, text, Ok(JNull)))
    requires !Contains(Lower(ErrorText(500, reason, text)), "connection")
    ensures MakeRequest(net, retries) == Attempted(Err(ErrorText(500, reason, text)), [], 1)
  {
  }

  /** Any error answer whose text mentions a connection is retried like a transport failure. */
  lemma ConnectionInErrorTextRetried(net: nat -> Outcome, retries: int, status: int, reason: string, text: string)
    requires retries >= 2
    requires 400 <= status && status != 429
    requires net(1) == Responded(Response(status, reason, text, Ok(JNull)))
    requires Contains(Lower(text), "connection")
    ensures MakeRequest(net, retries).attempts >= 2
    ensures MakeRequest(net, retries).delays[0] == 2
  {
    var prefix := "NetSuite API error (" + Dec(status) + "): " + reason + ". ";
    assert ErrorText(status, reason, text) == prefix + text + "";
    LowerAppend(prefix, text);
    ContainsMiddle(Lower(prefix), Lower(text), "", "connection");
    assert Lower(ErrorText(status, reason, text)) == Lower(prefix) + Lower(text) + "";
  }
}
