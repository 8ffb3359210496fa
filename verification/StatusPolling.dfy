/** internal/a2adelivery/poll.go: the client that polls a sender job until it is settled or time runs
    out. The clock and the sender's replies are a sequence of rounds. */
module StatusPolling {
  import opened Options
  import opened Text
  import Timestamps
  import T = JobTable

  // ---------- status mapping (internal/deliveryrules/rules.go) ----------

  function StatusText(status: T.Status): string {
    match status
    case Pending => "pending"
    case Sending => "sending"
    case Sent => "sent"
    case Retry => "retry"
    case Failed => "failed"
  }

  function MapSenderJobStatus(senderState: string): Option<string> {
    var status := Lower(Trim(senderState));
    if status == StatusText(T.Sent) then Some("sent")
    else if status == StatusText(T.Failed) then Some("failed")
    else if status == StatusText(T.Pending) || status == StatusText(T.Sending) || status == StatusText(T.Retry)
    then Some("retrying")
    else None
  }

  lemma LowerCaseStays(s: string)
    requires forall c :: c in s ==> 'a' <= c <= 'z'
    ensures Lower(s) == s
  {
    assert forall i :: 0 <= i < |s| ==> s[i] in s;
  }

  /** Every status a row can have is known to the client, which tells the terminal ones apart. */
  lemma {:induction false} EveryStatusMaps(status: T.Status)
    ensures MapSenderJobStatus(StatusText(status))
         == Some(if status == T.Sent then "sent" else if status == T.Failed then "failed" else "retrying")
  {
    LowerCaseStays(StatusText(status));
    assert Lower(Trim(StatusText(status))) == StatusText(status);
  }

  /** A state is known by these words alone, in any case of letters and between any white space. */
  lemma StatusesExactly(state: string)
    ensures var word := Lower(Trim(state));
      && (MapSenderJobStatus(state) == Some("sent") <==> word == "sent")
      && (MapSenderJobStatus(state) == Some("failed") <==> word == "failed")
      && (MapSenderJobStatus(state) == Some("retrying") <==> word in {"pending", "sending", "retry"})
      && (MapSenderJobStatus(state) == None <==> word !in {"sent", "failed", "pending", "sending", "retry"})
  {
    hide Lower;
    hide Trim;
    var sent, failed, retrying := "sent", "failed", "retrying";
    assert |sent| == 4 && |failed| == 6 && |retrying| == 8;
  }

  // ---------- polling ----------

  const DEFAULT_POLL_INTERVAL: nat := 2 * Timestamps.SECOND
  const DEFAULT_POLL_TIMEOUT: nat := 15 * Timestamps.SECOND

  datatype Reply =
    | Status(state: string, attemptCount: int, lastError: string)
    | NotFound
    | RetryableError(message: string)
    | OtherError(message: string)

  /** One turn of the loop: when the request is made, what comes back, what the clock says when the
      deadline is checked and when the wait is measured, and whether the caller gave up. */
  datatype Round = Round(cancelled: bool, asked: int, reply: Reply, checked: int, waited: int, waitCancelled: bool)

  datatype DeliveryResult = DeliveryResult(status: string, attemptCount: int, lastError: string)

  datatype Outcome = Finished(result: DeliveryResult) | Cancelled | OutOfRounds

  function EffectiveInterval(interval: int): (r: int)
    ensures r > 0
  {
    if interval <= 0 then DEFAULT_POLL_INTERVAL else interval
  }

  function EffectiveTimeout(timeout: int): (r: int)
    ensures r > 0
  {
    if timeout <= 0 then DEFAULT_POLL_TIMEOUT else timeout
  }

  /** The client keeps to the caller's interval and timeout, and to 2s and 15s where these are not positive. */
  lemma LimitsAreTheCallers(interval: int, timeout: int)
    ensures EffectiveInterval(interval) == if interval > 0 then interval else 2_000_000_000
    ensures EffectiveTimeout(timeout) == if timeout > 0 then timeout else 15_000_000_000
  {
  }

  /** How long waitForNextPoll waits: the interval, cut off at the deadline; nothing once it has passed. */
  function WaitTime(waited: int, interval: int, deadline: int): (d: int)
    ensures interval > 0 ==> d >= 0 && (d > 0 ==> waited + d <= deadline)
  {
    if deadline - waited <= 0 then 0 else if interval > deadline - waited then deadline - waited else interval
  }

  /** The reply leaves the job undecided. */
  predicate Undecided(reply: Reply) {
    reply.RetryableError? || (reply.Status? && MapSenderJobStatus(reply.state) == Some("retrying"))
  }

  predicate GoesOn(r: Round, deadline: int) {
    Undecided(r.reply) && r.checked <= deadline && !r.waitCancelled
  }

  /** The number of requests made in these rounds. */
  function Requests(rounds: seq<Round>, deadline: int): nat {
    if rounds == [] || rounds[0].cancelled then 0
    else if GoesOn(rounds[0], deadline) then 1 + Requests(rounds[1..], deadline)
    else 1
  }

  /** The clock never runs backwards, and timers do not fire early. `from` is the earliest time of the
      next request. */
  ghost predicate Forward(rounds: seq<Round>, from: int, interval: int, deadline: int) {
    rounds == [] || (
      var r := rounds[0];
      && from <= r.asked <= r.checked <= r.waited
      && Forward(rounds[1..], r.waited + WaitTime(r.waited, interval, deadline), interval, deadline))
  }

  /** Every request takes time. */
  ghost predicate TakesTime(rounds: seq<Round>) {
    forall k :: 0 <= k < |rounds| ==> rounds[k].asked < rounds[k].checked
  }

  /** A request that is made and answered at the deadline itself, and leads to another one. */
  predicate Stuck(r: Round, deadline: int) {
    r.asked == r.checked == deadline && GoesOn(r, deadline)
  }

  /** How many of the requests made are stuck. */
  function StuckRequests(rounds: seq<Round>, deadline: int): nat {
    if rounds == [] || rounds[0].cancelled || !GoesOn(rounds[0], deadline) then 0
    else (if Stuck(rounds[0], deadline) then 1 else 0) + StuckRequests(rounds[1..], deadline)
  }

  /** The time that n intervals take. */
  ghost function Intervals(n: int, interval: int): int
    decreases n
  {
    if n <= 0 then 0 else interval + Intervals(n - 1, interval)
  }

  lemma {:induction false} IntervalsMultiply(n: nat, interval: int)
    ensures Intervals(n, interval) == n * interval
  {
    if n > 0 {
      IntervalsMultiply(n - 1, interval);
    }
  }

  /** The stuck requests are among the requests. */
  lemma {:induction false} StuckAreRequests(rounds: seq<Round>, deadline: int)
    ensures StuckRequests(rounds, deadline) <= Requests(rounds, deadline)
  {
    if rounds != [] {
      StuckAreRequests(rounds[1..], deadline);
    }
  }

  /** `used` is the time that the requests made so far, other than the stuck ones, stand for. */
  lemma {:induction false} RequestsFit(rounds: seq<Round>, from: int, used: int, start: int, interval: int,
                                       timeout: int)
    requires interval > 0 && timeout > 0 && Forward(rounds, from, interval, start + timeout)
    requires (from >= start + used && used < timeout) || (from >= start + timeout && used < timeout + interval)
    ensures var deadline := start + timeout; var n := Requests(rounds, deadline) - StuckRequests(rounds, deadline);
      n >= 0 && used + Intervals(n, interval) < timeout + 2 * interval
  {
    hide Undecided;
    var deadline := start + timeout;
    StuckAreRequests(rounds, deadline);
    if rounds != [] && !rounds[0].cancelled && GoesOn(rounds[0], deadline) {
      var r := rounds[0];
      var next := r.waited + WaitTime(r.waited, interval, deadline);
      RequestsFit(rounds[1..], next, if Stuck(r, deadline) then used else used + interval, start, interval, timeout);
    }
  }

  /** The requests that are not stuck are at most timeout / interval + 2, on any clock that does not run
      backwards: the count exceeds the bound only by requests made and answered at the deadline itself. */
  lemma RequestBound(rounds: seq<Round>, start: int, interval: int, timeout: int)
    requires interval > 0 && timeout > 0 && Forward(rounds, start, interval, start + timeout)
    ensures Requests(rounds, start + timeout) <= timeout / interval + 2 + StuckRequests(rounds, start + timeout)
  {
    RequestsFit(rounds, start, 0, start, interval, timeout);
    var n := Requests(rounds, start + timeout) - StuckRequests(rounds, start + timeout);
    IntervalsMultiply(n, interval);
    AtMost(n, timeout, interval);
    hide Forward;
    hide Requests;
    hide StuckRequests;
  }

  /** When every request takes time none is stuck. */
  lemma {:induction false} NoneStuck(rounds: seq<Round>, deadline: int)
    requires TakesTime(rounds)
    ensures StuckRequests(rounds, deadline) == 0
  {
    if rounds != [] {
      NoneStuck(rounds[1..], deadline);
    }
  }

  lemma AtMost(n: int, t: int, d: int)
    requires d > 0 && n * d < t + 2 * d
    ensures n <= t / d + 2
  {
    Quotient(t, d);
    Cancel(n, t / d + 3, d);
  }

  lemma Cancel(n: int, m: int, d: int)
    requires d > 0 && n * d < m * d
    ensures n < m
  {
    if n >= m {
      Scale(n - m, d);
    }
  }

  lemma Quotient(t: int, d: int)
    requires d > 0
    ensures t + 2 * d < (t / d + 3) * d
  {
  }

  lemma Scale(x: int, d: int)
    requires x >= 0 && d > 0
    ensures x * d >= 0
  {
  }

  /** Stuck requests do occur, in any number. */
  lemma {:induction false} InstantRequestsNeverStop(n: nat, deadline: int)
    ensures var stuck := Round(false, deadline, RetryableError(""), deadline, deadline, false);
      && Requests(seq(n, _ => stuck), deadline) == StuckRequests(seq(n, _ => stuck), deadline) == n
      && Forward(seq(n, _ => stuck), deadline, 1, deadline)
  {
    var stuck := Round(false, deadline, RetryableError(""), deadline, deadline, false);
    if n > 0 {
      InstantRequestsNeverStop(n - 1, deadline);
      assert seq(n, _ => stuck)[1..] == seq(n - 1, _ => stuck);
    }
  }

  // ---------- what is reported ----------

  function TimeoutError(lastRetryableError: string): string {
    if Trim(lastRetryableError) == "" then "polling timed out" else "polling timed out: " + Trim(lastRetryableError)
  }

  /** What a reply settles, at once or because it came late; None when the client asks again. */
  function Answer(reply: Reply, late: bool, lastRetryableError: string): Option<DeliveryResult> {
    match reply
    case NotFound => Some(DeliveryResult("failed", 0, "job disappeared"))
    case OtherError(message) => Some(DeliveryResult("failed", 0, message))
    case RetryableError(_) =>
      if late then Some(DeliveryResult("retrying", 0, TimeoutError(lastRetryableError))) else None
    case Status(state, attemptCount, lastError) =>
      match MapSenderJobStatus(state)
      case None => Some(DeliveryResult("failed", attemptCount, "unknown job status: " + Trim(state)))
      case Some(mapped) =>
        if mapped == "sent" then Some(DeliveryResult("sent", attemptCount, ""))
        else if mapped == "failed" then Some(DeliveryResult("failed", attemptCount, Trim(lastError)))
        else if late then Some(DeliveryResult("retrying", attemptCount, TimeoutError(lastRetryableError)))
        else None
  }

  /** What is reported of each reply, in words. An undecided reply is reported only when it came late, with the
      last retryable error, if there was one. */
  lemma AnswerSays(reply: Reply, late: bool, lastRetryableError: string)
    ensures var expired := if Trim(lastRetryableError) == "" then "polling timed out"
                           else "polling timed out: " + Trim(lastRetryableError);
      var answer := Answer(reply, late, lastRetryableError);
      match reply
      case NotFound => answer == Some(DeliveryResult("failed", 0, "job disappeared"))
      case OtherError(message) => answer == Some(DeliveryResult("failed", 0, message))
      case RetryableError(_) => answer == if late then Some(DeliveryResult("retrying", 0, expired)) else None
      case Status(state, n, error) =>
        var word := Lower(Trim(state));
        && (word == "sent" ==> answer == Some(DeliveryResult("sent", n, "")))
        && (word == "failed" ==> answer == Some(DeliveryResult("failed", n, Trim(error))))
        && (word in {"pending", "sending", "retry"} ==>
              answer == if late then Some(DeliveryResult("retrying", n, expired)) else None)
        && (word !in {"sent", "failed", "pending", "sending", "retry"} ==>
              answer == Some(DeliveryResult("failed", n, "unknown job status: " + Trim(state))))
  {
    if reply.Status? {
      StatusesExactly(reply.state);
    }
    hide MapSenderJobStatus;
    hide Trim;
    hide Lower;
  }

  /** The message of the last retryable error. */
  function LastRetryableError(rounds: seq<Round>): string
    decreases |rounds|
  {
    if rounds == [] then ""
    else
      var n := |rounds| - 1;
      if rounds[n].reply.RetryableError? then rounds[n].reply.message else LastRetryableError(rounds[..n])
  }

  /** The first n requests were made, and all but the last led to another one. */
  ghost predicate Made(rounds: seq<Round>, n: nat, deadline: int) {
    && n <= |rounds|
    && (forall k :: 0 <= k < n ==> !rounds[k].cancelled)
    && (forall k :: 0 <= k < n - 1 ==> GoesOn(rounds[k], deadline))
  }

  /** The timers that these rounds set: after each undecided reply that came in time, for the interval or for
      what is left until the deadline, whichever is shorter, and none when nothing is left. */
  function Timers(rounds: seq<Round>, interval: int, deadline: int): seq<(int, int)>
    decreases |rounds|
  {
    if rounds == [] then []
    else
      var r := rounds[|rounds| - 1];
      Timers(rounds[..|rounds| - 1], interval, deadline)
      + if Undecided(r.reply) && r.checked <= deadline && r.waited < deadline
        then [(r.waited, if interval < deadline - r.waited then interval else deadline - r.waited)] else []
  }

  lemma NextTimer(rounds: seq<Round>, n: nat, interval: int, deadline: int)
    requires n < |rounds|
    ensures var r := rounds[n];
      Timers(rounds[..n + 1], interval, deadline) == Timers(rounds[..n], interval, deadline)
        + if Undecided(r.reply) && r.checked <= deadline && r.waited < deadline
          then [(r.waited, if interval < deadline - r.waited then interval else deadline - r.waited)] else []
  {
    assert rounds[..n + 1][..n] == rounds[..n];
    hide Undecided;
  }

  /** The outcome after n requests: the answer of the last reply; or a cancellation that some round shows,
      before the request or during the wait; or there are no more rounds to look at. */
  ghost predicate Reports(rounds: seq<Round>, n: nat, deadline: int, outcome: Outcome) {
    && Made(rounds, n, deadline)
    && match outcome
       case Finished(result) =>
         && n > 0 && var last := rounds[n - 1];
         Answer(last.reply, last.checked > deadline, LastRetryableError(rounds[..n])) == Some(result)
       case Cancelled =>
         || (n > 0 && var last := rounds[n - 1];
             Undecided(last.reply) && last.checked <= deadline && last.waitCancelled)
         || (n < |rounds| && rounds[n].cancelled && (n > 0 ==> GoesOn(rounds[n - 1], deadline)))
       case OutOfRounds => n == |rounds| && (n > 0 ==> GoesOn(rounds[n - 1], deadline))
  }

  lemma AnswerDecides(reply: Reply, late: bool, lastRetryableError: string)
    ensures Answer(reply, late, lastRetryableError).None? <==> Undecided(reply) && !late
    ensures var a := Answer(reply, late, lastRetryableError);
      a.Some? ==>
        a.value.status in {"sent", "failed", "retrying"} && (a.value.status == "retrying" <==> Undecided(reply))
  {
    KnownMappings(if reply.Status? then reply.state else "");
    hide MapSenderJobStatus;
  }

  lemma KnownMappings(state: string)
    ensures MapSenderJobStatus(state) in {None, Some("sent"), Some("failed"), Some("retrying")}
  {
    hide Trim;
    hide Lower;
  }

  /** The rounds fix the number of requests and the outcome. */
  lemma ReportIsUnique(rounds: seq<Round>, deadline: int, m: nat, a: Outcome, n: nat, b: Outcome)
    requires Reports(rounds, m, deadline, a) && Reports(rounds, n, deadline, b)
    ensures m == n && a == b
  {
    hide Answer;
    hide Undecided;
    if m > 0 {
      AnswerDecides(rounds[m - 1].reply, rounds[m - 1].checked > deadline, LastRetryableError(rounds[..m]));
    }
    if n > 0 {
      AnswerDecides(rounds[n - 1].reply, rounds[n - 1].checked > deadline, LastRetryableError(rounds[..n]));
    }
    hide LastRetryableError;
  }

  /** PollJob: its outcome is the one that the rounds report, and every timer it sets ends by the
      deadline. */
  method PollJob(rounds: seq<Round>, start: int, interval: int, timeout: int)
    returns (outcome: Outcome, requests: nat, timers: seq<(int, int)>)
    ensures var deadline := start + EffectiveTimeout(timeout);
      && requests == Requests(rounds, deadline) <= |rounds|
      && Reports(rounds, requests, deadline, outcome)
      && (forall t :: t in timers ==> t.1 > 0 && t.0 + t.1 <= deadline)
      && timers == Timers(rounds[..requests], EffectiveInterval(interval), deadline)
    ensures var every, wait := EffectiveInterval(interval), EffectiveTimeout(timeout);
      Forward(rounds, start, every, start + wait) && TakesTime(rounds) ==> requests <= wait / every + 2
  {
    hide Forward;
    hide Trim;
    hide Lower;
    hide StuckRequests;
    hide LastRetryableError;
    hide Timers;
    NoTimerYet(rounds, EffectiveInterval(interval), start + EffectiveTimeout(timeout));
    var every, limit := EffectiveInterval(interval), EffectiveTimeout(timeout);
    var deadline := start + limit;
    if Forward(rounds, start, every, deadline) && TakesTime(rounds) {
      RequestBound(rounds, start, every, limit);
      NoneStuck(rounds, deadline);
    }
    hide TakesTime;
    var lastRetryableError := "";
    requests, timers := 0, [];
    NoErrorYet(rounds);
    while requests < |rounds|
      invariant requests <= |rounds|
      invariant forall t :: t in timers ==> t.1 > 0 && t.0 + t.1 <= deadline
      invariant Requests(rounds, deadline) == requests + Requests(rounds[requests..], deadline)
      invariant Made(rounds, requests, deadline) && (requests > 0 ==> GoesOn(rounds[requests - 1], deadline))
      invariant lastRetryableError == LastRetryableError(rounds[..requests])
      invariant timers == Timers(rounds[..requests], every, deadline)
    {
      var r := rounds[requests];
      assert rounds[requests..][0] == r && rounds[requests..][1..] == rounds[requests + 1..];
      if r.cancelled {
        return Cancelled, requests, timers;
      }
      NextError(rounds, requests);
      NextTimer(rounds, requests, every, deadline);
      requests := requests + 1;
      match r.reply {
        case NotFound =>
          return Finished(DeliveryResult("failed", 0, "job disappeared")), requests, timers;
        case OtherError(message) =>
          return Finished(DeliveryResult("failed", 0, message)), requests, timers;
        case RetryableError(message) =>
          lastRetryableError := message;
          if r.checked > deadline {
            return Finished(DeliveryResult("retrying", 0, TimeoutError(lastRetryableError))), requests, timers;
          }
        case Status(state, attemptCount, lastError) =>
          var mapped := MapSenderJobStatus(state);
          if mapped.None? {
            var unknown := "unknown job status: " + Trim(state);
            return Finished(DeliveryResult("failed", attemptCount, unknown)), requests, timers;
          }
          KnownMappings(state);
          if mapped.value == "sent" {
            return Finished(DeliveryResult("sent", attemptCount, "")), requests, timers;
          }
          if mapped.value == "failed" {
            return Finished(DeliveryResult("failed", attemptCount, Trim(lastError))), requests, timers;
          }
          if r.checked > deadline {
            var expired := TimeoutError(lastRetryableError);
            return Finished(DeliveryResult("retrying", attemptCount, expired)), requests, timers;
          }
      }
      var delay := WaitTime(r.waited, every, deadline);
      if delay > 0 {
        timers := timers + [(r.waited, delay)];
      }
      if r.waitCancelled {
        return Cancelled, requests, timers;
      }
    }
    return OutOfRounds, requests, timers;
  }

  lemma NoTimerYet(rounds: seq<Round>, interval: int, deadline: int)
    ensures Timers(rounds[..0], interval, deadline) == []
  {
  }

  lemma NoErrorYet(rounds: seq<Round>)
    ensures LastRetryableError(rounds[..0]) == ""
  {
  }

  lemma NextError(rounds: seq<Round>, n: nat)
    requires n < |rounds|
    ensures LastRetryableError(rounds[..n + 1])
         == if rounds[n].reply.RetryableError? then rounds[n].reply.message else LastRetryableError(rounds[..n])
  {
    assert rounds[..n + 1][..n] == rounds[..n];
  }

  // ---------- what a report means for the job ----------

  /** A status reply is the row as it stands; an error says nothing about the row. */
  predicate ShowsRow(reply: Reply, t: T.Table, id: nat)
    requires T.Exists(t, id)
  {
    var row := t[id - 1];
    reply.Status? ==> reply == Status(StatusText(row.status), row.attemptCount, row.lastError)
  }

  /** Round k was answered when the first at[k] of the statements had been executed. */
  ghost predicate Answered(rounds: seq<Round>, t: T.Table, ops: seq<T.Op>, id: nat, at: seq<nat>) {
    && T.ValidTable(t) && T.Exists(t, id) && |at| == |rounds|
    && (forall k :: 0 <= k < |rounds| ==>
          at[k] <= |ops| && T.Exists(T.Run(t, ops[..at[k]]), id)
            && ShowsRow(rounds[k].reply, T.Run(t, ops[..at[k]]), id))
  }

  lemma {:induction false} RunAppends(t: T.Table, a: seq<T.Op>, b: seq<T.Op>)
    ensures T.Run(t, a + b) == T.Run(T.Run(t, a), b)
    decreases |b|
  {
    hide T.Apply;
    if b == [] {
      assert a + b == a;
    } else {
      RunAppends(t, a, b[..|b| - 1]);
      assert (a + b)[..|a + b| - 1] == a + b[..|b| - 1];
    }
  }

  lemma SettledRowStays(t: T.Table, id: nat, more: seq<T.Op>)
    requires T.ValidTable(t) && T.Exists(t, id) && t[id - 1].Terminal()
    ensures T.Exists(T.Run(t, more), id) && T.Run(t, more)[id - 1] == t[id - 1]
  {
    T.RunKeeps(t, more);
  }

  lemma SettledRowStaysInRun(t: T.Table, ops: seq<T.Op>, id: nat, k: nat, m: nat)
    requires T.ValidTable(t) && k <= m <= |ops|
    requires T.Exists(T.Run(t, ops[..k]), id) && T.Run(t, ops[..k])[id - 1].Terminal()
    ensures T.Exists(T.Run(t, ops[..m]), id) && T.Run(t, ops[..m])[id - 1] == T.Run(t, ops[..k])[id - 1]
  {
    T.RunKeeps(t, ops[..k]);
    assert ops[..m] == ops[..k] + ops[k..m];
    RunAppends(t, ops[..k], ops[k..m]);
    SettledRowStays(T.Run(t, ops[..k]), id, ops[k..m]);
    hide T.Run;
    hide T.ValidTable;
  }

  /** What PollJob reports as sent is sent, with that number of attempts, from the reply on: in every later
      table, whatever workers, clients and recoveries do. The same holds of a failure that a status reply
      reported. */
  lemma SettledReportIsFinal(rounds: seq<Round>, n: nat, deadline: int, result: DeliveryResult,
                             t: T.Table, ops: seq<T.Op>, id: nat, at: seq<nat>, m: nat)
    requires Reports(rounds, n, deadline, Finished(result)) && Answered(rounds[..n], t, ops, id, at)
    requires at[n - 1] <= m <= |ops|
    requires result.status == "sent" || (result.status == "failed" && rounds[n - 1].reply.Status?)
    ensures var later := T.Run(t, ops[..m]);
      && T.Exists(later, id) && later[id - 1].attemptCount == result.attemptCount
      && later[id - 1].status == if result.status == "sent" then T.Sent else T.Failed
  {
    hide Answer;
    hide GoesOn;
    hide ShowsRow;
    hide T.Run;
    hide T.ValidTable;
    var last, seen := rounds[..n][n - 1], T.Run(t, ops[..at[n - 1]]);
    var error := LastRetryableError(rounds[..n]);
    hide LastRetryableError;
    SettledMeansSettled(last.reply, seen, id, last.checked > deadline, error);
    SettledRowStaysInRun(t, ops, id, at[n - 1], m);
  }

  lemma SettledMeansSettled(reply: Reply, t: T.Table, id: nat, late: bool, lastRetryableError: string)
    requires T.Exists(t, id) && ShowsRow(reply, t, id) && Answer(reply, late, lastRetryableError).Some?
    requires var r := Answer(reply, late, lastRetryableError).value;
      r.status == "sent" || (r.status == "failed" && reply.Status?)
    ensures var r := Answer(reply, late, lastRetryableError).value;
      && t[id - 1].attemptCount == r.attemptCount
      && t[id - 1].status == if r.status == "sent" then T.Sent else T.Failed
  {
    EveryStatusMaps(t[id - 1].status);
    hide MapSenderJobStatus;
    hide StatusText;
  }

  /** A reported failure is final exactly when the last reply was a status: then the row has failed for
      ever. A failure that an error reply led to says nothing, and the job may still be pending. */
  lemma FailedReportIsFinal(reply: Reply, late: bool, lastRetryableError: string)
    requires Answer(reply, late, lastRetryableError).Some?
      && Answer(reply, late, lastRetryableError).value.status == "failed"
    ensures reply.Status? <==> forall t: T.Table, id: nat, more: seq<T.Op> ::
      T.ValidTable(t) && T.Exists(t, id) && ShowsRow(reply, t, id) ==> FailedAfter(t, id, more)
  {
    if reply.Status? {
      forall t: T.Table, id: nat, more: seq<T.Op> | T.ValidTable(t) && T.Exists(t, id) && ShowsRow(reply, t, id)
        ensures FailedAfter(t, id, more)
      {
        SettledMeansSettled(reply, t, id, late, lastRetryableError);
        SettledRowStays(t, id, more);
      }
    } else {
      var job := T.NewJob([], "", T.Payload("bot", 1, "text", 1, None, false), "");
      PendingIsNotFailed(job);
      hide FailedAfter;
      assert ShowsRow(reply, [job], 1);
    }
  }

  ghost predicate FailedAfter(t: T.Table, id: nat, more: seq<T.Op>) {
    T.Exists(T.Run(t, more), id) && T.Run(t, more)[id - 1].status == T.Failed
  }

  lemma PendingIsNotFailed(job: T.Job)
    requires job.id == 1 && job.status == T.Pending
    ensures T.ValidTable([job]) && T.Exists([job], 1) && !FailedAfter([job], 1, [])
  {
  }

  /** The job may even be sent after PollJob has reported it as failed. */
  lemma FailedReportCanBeWrong(message: string, now: string)
    ensures var rounds := [Round(false, 0, OtherError(message), 0, 0, false)];
      var t := [T.NewJob([], "", T.Payload("bot", 1, "text", 1, None, false), now)];
      var ops := [T.Claim(now, now), T.MarkSent(1, 1, now)];
      && Reports(rounds, 1, 0, Finished(DeliveryResult("failed", 0, message)))
      && Answered(rounds, t, ops, 1, [0]) && T.Exists(T.Run(t, ops), 1) && T.Run(t, ops)[0].status == T.Sent
  {
    var t := [T.NewJob([], "", T.Payload("bot", 1, "text", 1, None, false), now)];
    var ops := [T.Claim(now, now), T.MarkSent(1, 1, now)];
    assert ops[..1] == [T.Claim(now, now)] && ops[..1][..0] == [];
    assert T.Run(t, ops[..0]) == t && T.FirstReady(t, now) == 0;
    var claimed := T.Run(t, ops[..1]);
    assert claimed == T.Apply(t, ops[0]) && claimed[0].status == T.Sending;
    assert T.Run(t, ops) == T.Apply(claimed, ops[1]);
  }
}
