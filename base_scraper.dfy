/** Request bookkeeping of the scraper base class: the statistics counters that
    every request updates, the decision to wait before a request, and the
    classification of its outcome. The HTTP session, its retry adapter and
    the sleep itself are outside the model: the outcome of the session call
    is an input, and the wait is reported as a boolean. */
module RequestStats {
  import opened Wrappers

  /** What the session call produced, after any retries inside the transport
      adapter (those never reach the counters). */
  datatype Outcome =
    | HttpStatus(code: int)
    | RequestException(reason: string)

  datatype Response = Response(url: string, statusCode: int)

  /** Wall-clock instants are opaque to the model. */
  type Timestamp = int

  /** The `stats` dictionary of a scraper. */
  datatype Stats = Stats(
    requestsMade: nat,
    successfulRequests: nat,
    failedRequests: nat,
    itemsScraped: nat,
    startTime: Option<Timestamp>,
    endTime: Option<Timestamp>)

  const InitialStats: Stats := Stats(0, 0, 0, 0, None, None)

  const DefaultUserAgent: string := "FinPulse/1.0.0 (+https://github.com/aadheeshn26/finpulse)"

  /** Every request made so far was counted as exactly one success or one failure. */
  predicate Balanced(s: Stats) {
    s.requestsMade == s.successfulRequests + s.failedRequests
  }

  /** The result of one `_make_request` call: the new statistics, the value
      returned to the caller, and whether the call waited before requesting. */
  datatype RequestStep = RequestStep(stats: Stats, response: Option<Response>, slept: bool)

  /** One `_make_request` call, as a transition on the statistics. */
  function Request(s: Stats, url: string, outcome: Outcome): (step: RequestStep)
    ensures step.stats.requestsMade == s.requestsMade + 1
    ensures step.slept <==> s.requestsMade > 0
    ensures step.response.Some? <==> outcome == HttpStatus(200)
    ensures step.response.Some? ==> step.response.value == Response(url, 200)
    ensures step.response.Some? ==>
      step.stats.successfulRequests == s.successfulRequests + 1 && step.stats.failedRequests == s.failedRequests
    ensures step.response.None? ==>
      step.stats.failedRequests == s.failedRequests + 1 && step.stats.successfulRequests == s.successfulRequests
    ensures step.stats.itemsScraped == s.itemsScraped
    ensures step.stats.startTime == s.startTime && step.stats.endTime == s.endTime
  {
    var made := s.requestsMade + 1;
    var slept := made > 1;
    match outcome
    case HttpStatus(code) =>
      if code == 200 then
        RequestStep(s.(requestsMade := made, successfulRequests := s.successfulRequests + 1),
                    Some(Response(url, code)), slept)
      else
        RequestStep(s.(requestsMade := made, failedRequests := s.failedRequests + 1), None, slept)
    case RequestException(_) =>
      RequestStep(s.(requestsMade := made, failedRequests := s.failedRequests + 1), None, slept)
  }

  /** `start_scraping`: records the start instant and nothing else. */
  function Start(s: Stats, now: Timestamp): (r: Stats)
    ensures r.startTime == Some(now)
    ensures r.requestsMade == s.requestsMade && r.successfulRequests == s.successfulRequests
    ensures r.failedRequests == s.failedRequests && r.itemsScraped == s.itemsScraped
    ensures r.endTime == s.endTime
  {
    s.(startTime := Some(now))
  }

  /** One call of `_make_request` with the URL it asked for and what the session produced. */
  datatype Call = Call(url: string, outcome: Outcome)

  /** The statistics after a sequence of calls. */
  function Run(s: Stats, calls: seq<Call>): Stats
    decreases |calls|
  {
    if calls == [] then s
    else Run(Request(s, calls[0].url, calls[0].outcome).stats, calls[1..])
  }

  /** The wait decision of each call in a sequence. */
  function Waits(s: Stats, calls: seq<Call>): (w: seq<bool>)
    ensures |w| == |calls|
    decreases |calls|
  {
    if calls == [] then []
    else
      var step := Request(s, calls[0].url, calls[0].outcome);
      [step.slept] + Waits(step.stats, calls[1..])
  }

  /** The values returned by each call in a sequence. */
  function Responses(s: Stats, calls: seq<Call>): (rs: seq<Option<Response>>)
    ensures |rs| == |calls|
    decreases |calls|
  {
    if calls == [] then []
    else
      var step := Request(s, calls[0].url, calls[0].outcome);
      [step.response] + Responses(step.stats, calls[1..])
  }

  function CountOk(calls: seq<Call>): (n: nat)
    ensures n <= |calls|
    decreases |calls|
  {
    if calls == [] then 0
    else (if calls[0].outcome == HttpStatus(200) then 1 else 0) + CountOk(calls[1..])
  }

  lemma RequestKeepsBalance(s: Stats, url: string, outcome: Outcome)
    requires Balanced(s)
    ensures Balanced(Request(s, url, outcome).stats)
  {
  }

  /** Starting from any balanced statistics, every sequence of calls keeps
      `requests_made == successful_requests + failed_requests`. */
  lemma {:induction false} RunKeepsBalance(s: Stats, calls: seq<Call>)
    requires Balanced(s)
    ensures Balanced(Run(s, calls))
    decreases |calls|
  {
    if calls != [] {
      RequestKeepsBalance(s, calls[0].url, calls[0].outcome);
      RunKeepsBalance(Request(s, calls[0].url, calls[0].outcome).stats, calls[1..]);
    }
  }

  /** Each call adds one request, and one success exactly when the status is 200. */
  lemma {:induction false} RunCounts(s: Stats, calls: seq<Call>)
    ensures Run(s, calls).requestsMade == s.requestsMade + |calls|
    ensures Run(s, calls).successfulRequests == s.successfulRequests + CountOk(calls)
    ensures Run(s, calls).failedRequests == s.failedRequests + |calls| - CountOk(calls)
    ensures Run(s, calls).itemsScraped == s.itemsScraped
    ensures Run(s, calls).startTime == s.startTime && Run(s, calls).endTime == s.endTime
    decreases |calls|
  {
    if calls != [] {
      RunCounts(Request(s, calls[0].url, calls[0].outcome).stats, calls[1..]);
    }
  }

  /** The k-th call waits exactly when some request was made before it. */
  lemma {:induction false} WaitsAfterFirst(s: Stats, calls: seq<Call>)
    ensures forall k :: 0 <= k < |calls| ==> Waits(s, calls)[k] == (s.requestsMade + k > 0)
    decreases |calls|
  {
    if calls != [] {
      WaitsAfterFirst(Request(s, calls[0].url, calls[0].outcome).stats, calls[1..]);
    }
  }

  /** A call returns a response exactly when its status is 200. */
  lemma {:induction false} ResponsesMatchStatus(s: Stats, calls: seq<Call>)
    ensures forall k :: 0 <= k < |calls| ==>
      (Responses(s, calls)[k].Some? <==> calls[k].outcome == HttpStatus(200))
    decreases |calls|
  {
    if calls != [] {
      ResponsesMatchStatus(Request(s, calls[0].url, calls[0].outcome).stats, calls[1..]);
    }
  }

  /** `start_scraping` does not reset the counters, so after any earlier call
      the first request of a new run still waits. */
  lemma WaitAcrossRuns(calls: seq<Call>, now: Timestamp, url: string, outcome: Outcome)
    ensures Request(Start(Run(InitialStats, calls), now), url, outcome).slept <==> calls != []
  {
    RunCounts(InitialStats, calls);
  }

  /** A scraper instance, reduced to its configuration and its `stats` counters. */
  class BaseScraper {
    const delaySeconds: real
    const maxRetries: int
    const timeout: int
    const userAgent: string

    var requestsMade: nat
    var successfulRequests: nat
    var failedRequests: nat
    var itemsScraped: nat
    var startTime: Option<Timestamp>
    var endTime: Option<Timestamp>

    /** The statistics dictionary as one value. */
    function Snapshot(): Stats
      reads this
    {
      Stats(requestsMade, successfulRequests, failedRequests, itemsScraped, startTime, endTime)
    }

    /** `__init__`: an empty user agent counts as absent. */
    constructor (delaySeconds: real := 1.0, maxRetries: int := 3, timeout: int := 30,
                 userAgent: Option<string> := None)
      ensures Snapshot() == InitialStats && Balanced(Snapshot())
      ensures this.delaySeconds == delaySeconds && this.maxRetries == maxRetries
      ensures this.timeout == timeout
      ensures this.userAgent ==
        if userAgent.Some? && userAgent.value != "" then userAgent.value else DefaultUserAgent
    {
      this.delaySeconds := delaySeconds;
      this.maxRetries := maxRetries;
      this.timeout := timeout;
      this.userAgent :=
        if userAgent.Some? && userAgent.value != "" then userAgent.value else DefaultUserAgent;
      requestsMade, successfulRequests, failedRequests, itemsScraped := 0, 0, 0, 0;
      startTime, endTime := None, None;
    }

    /** `_make_request`: count the request, wait unless it is the first, and
        classify the outcome. */
    method MakeRequest(url: string, outcome: Outcome) returns (response: Option<Response>, slept: bool)
      modifies this
      ensures Snapshot() == Request(old(Snapshot()), url, outcome).stats
      ensures response == Request(old(Snapshot()), url, outcome).response
      ensures slept == Request(old(Snapshot()), url, outcome).slept
      ensures Balanced(old(Snapshot())) ==> Balanced(Snapshot())
    {
      requestsMade := requestsMade + 1;
      slept := requestsMade > 1;
      match outcome {
        case HttpStatus(code) =>
          if code == 200 {
            successfulRequests := successfulRequests + 1;
            response := Some(Response(url, code));
          } else {
            failedRequests := failedRequests + 1;
            response := None;
          }
        case RequestException(_) =>
          failedRequests := failedRequests + 1;
          response := None;
      }
    }

    /** `start_scraping`: only the start instant changes. */
    method StartScraping(now: Timestamp)
      modifies this`startTime
      ensures Snapshot() == Start(old(Snapshot()), now)
    {
      startTime := Some(now);
    }

    /** `end_scraping`: only the end instant changes (the logged duration is not modelled). */
    method EndScraping(now: Timestamp)
      modifies this`endTime
      ensures Snapshot() == old(Snapshot()).(endTime := Some(now))
    {
      endTime := Some(now);
    }

    /** `get_statistics`: a copy of the counters. */
    method GetStatistics() returns (s: Stats)
      ensures s == Snapshot()
    {
      s := Stats(requestsMade, successfulRequests, failedRequests, itemsScraped, startTime, endTime);
    }
  }
}
