/** The delivery protocol of worker.go over the jobs table: one live worker that claims, sends and
    settles, that can stop at any point, and that recovers expired leases when it starts again
    (main.go). Clients submit jobs at any time. Each step below is one atomic action. */
module WorkerRuns {
  import opened Options
  import opened Timestamps
  import opened RetryPolicy
  import T = JobTable

  /** How a send ended for the worker: answered as accepted, or an error that retryDecision classified. A
      response that is lost is an error here, although Telegram may have delivered the message. */
  datatype Outcome = Accepted | Rejected(retryable: bool, retryAfter: int, message: string)

  datatype Phase =
    | Down
    | Idle
    | Claimed(job: T.Job, now: Instant)
    | Answered(job: T.Job, now: Instant, outcome: Outcome)

  /** What has happened to a job so far: bookkeeping of the model, not columns of the table. */
  datatype Tally = Tally(claims: nat, sends: nat, accepts: nat, recoveries: nat, noToken: bool)

  datatype Sys = Sys(rows: T.Table, phase: Phase, tally: seq<Tally>)

  datatype Event =
    | Submit(key: string, payload: T.Payload, now: Instant)
    | ClaimNext(now: Instant, lease: nat)
    | NoToken
    | Send(outcome: Outcome)
    | Settle
    | Lose  // the settlement could not be written: the job stays sending
    | Stop  // shutdown or crash
    | Restart(now: Instant, cutoff: Instant)

  const NO_TOKEN := "missing bot token configuration"

  /** The settlement that ProcessNextAt writes for an answered send; `next` is when a retry is due. */
  function SettleOp(job: T.Job, outcome: Outcome, next: string, now: string): T.Op {
    var n := job.attemptCount + 1;
    match outcome
    case Accepted => T.MarkSent(job.id, n, now)
    case Rejected(retryable, _, message) =>
      if retryable && n < job.payload.maxAttempts then T.MarkRetry(job.id, n, next, message, now)
      else T.MarkFailed(job.id, n, message, now)
  }

  /** now.Add(retryDelay(attemptCount, retryAfter)), for the attempt that has just been answered. */
  function RetryAt(job: T.Job, now: Instant, outcome: Outcome): Instant {
    now + RetryDelay(job.attemptCount + 1, if outcome.Rejected? then outcome.retryAfter else 0)
  }

  const START := Sys([], Down, [])

  function DoSubmit(s: Sys, key: string, payload: T.Payload, now: string): Sys {
    if 1 <= payload.maxAttempts <= T.MAX_ATTEMPTS then
      var rows := T.Apply(s.rows, T.Insert(key, payload, now));
      s.(rows := rows, tally := if |rows| > |s.rows| then s.tally + [Tally(0, 0, 0, 0, false)] else s.tally)
    else s
  }

  function DoClaim(s: Sys, at: Instant, now: string, leaseEnd: string): Sys {
    var i := T.FirstReady(s.rows, now);
    if s.phase.Idle? && i < |s.rows| && i < |s.tally| then
      var rows := T.Apply(s.rows, T.Claim(now, leaseEnd));
      Sys(rows, Claimed(rows[i], at), s.tally[i := s.tally[i].(claims := s.tally[i].claims + 1)])
    else s
  }

  function DoNoToken(s: Sys, now: string): Sys {
    if s.phase.Claimed? && 1 <= s.phase.job.id <= |s.tally| then
      var job := s.phase.job;
      Sys(T.Apply(s.rows, T.MarkFailed(job.id, job.attemptCount, NO_TOKEN, now)), Idle,
          s.tally[job.id - 1 := s.tally[job.id - 1].(noToken := true)])
    else s
  }

  function DoSend(s: Sys, outcome: Outcome): Sys {
    if s.phase.Claimed? && 1 <= s.phase.job.id <= |s.tally| then
      var k := s.phase.job.id - 1;
      var accepts := s.tally[k].accepts + if outcome.Accepted? then 1 else 0;
      Sys(s.rows, Answered(s.phase.job, s.phase.now, outcome),
          s.tally[k := s.tally[k].(sends := s.tally[k].sends + 1, accepts := accepts)])
    else s
  }

  function DoSettle(s: Sys, next: string, now: string): Sys {
    if s.phase.Answered? then
      s.(rows := T.Apply(s.rows, SettleOp(s.phase.job, s.phase.outcome, next, now)), phase := Idle)
    else s
  }

  function DoRestart(s: Sys, now: string, cutoff: string): Sys {
    if s.phase.Down? && |s.tally| == |s.rows| then
      Sys(T.Apply(s.rows, T.Recover(now, cutoff)), Idle,
          seq(|s.tally|, i requires 0 <= i < |s.tally| =>
            if T.Expired(s.rows[i], now, cutoff) then s.tally[i].(recoveries := s.tally[i].recoveries + 1)
            else s.tally[i]))
    else s
  }

  function Step(s: Sys, e: Event): Sys {
    match e
    case Submit(key, payload, now) => DoSubmit(s, key, payload, Format(now))
    case ClaimNext(now, lease) => DoClaim(s, now, Format(now), Format(now + lease))
    case NoToken => if s.phase.Claimed? then DoNoToken(s, Format(s.phase.now)) else s
    case Send(outcome) => DoSend(s, outcome)
    case Settle =>
      if s.phase.Answered?
      then DoSettle(s, Format(RetryAt(s.phase.job, s.phase.now, s.phase.outcome)), Format(s.phase.now)) else s
    case Lose => if s.phase.Claimed? || s.phase.Answered? then s.(phase := Idle) else s
    case Stop => s.(phase := Down)
    case Restart(now, cutoff) => DoRestart(s, Format(now), Format(cutoff))
  }

  function Run(s: Sys, events: seq<Event>): Sys
    decreases |events|
  {
    if events == [] then s else Step(Run(s, events[..|events| - 1]), events[|events| - 1])
  }

  // ---------- attempt accounting ----------

  predicate Accounted(job: T.Job, t: Tally) {
    var n, max := job.attemptCount, job.payload.maxAttempts;
    && 1 <= max <= T.MAX_ATTEMPTS
    && 0 <= n <= max
    && (job.status == T.Pending ==> n == 0 && t == Tally(0, 0, 0, 0, false))
    && (job.Unfinished() ==> n < max)
    && (job.status == T.Sent ==> 1 <= n)
    && (t.noToken ==> job.status == T.Failed && n < max)
    && t.claims == n + t.recoveries + (if job.status == T.Sending || t.noToken then 1 else 0)
    && n <= t.sends <= n + t.recoveries + (if job.status == T.Sending then 1 else 0)
    && t.accepts <= t.recoveries + (if job.status == T.Sending || job.status == T.Sent then 1 else 0)
    && (job.status == T.Sent ==> t.accepts >= 1)
  }

  /** The claimed job is the row itself, unsent so far; an answered one has been sent once more. */
  predicate PhaseAccounted(s: Sys)
    requires |s.tally| == |s.rows|
  {
    match s.phase
    case Down => true
    case Idle => true
    case Claimed(job, _) =>
      && T.Affects(s.rows, job.id) && s.rows[job.id - 1] == job
      && s.tally[job.id - 1].sends <= job.attemptCount + s.tally[job.id - 1].recoveries
      && s.tally[job.id - 1].accepts <= s.tally[job.id - 1].recoveries
    case Answered(job, _, outcome) =>
      && T.Affects(s.rows, job.id) && s.rows[job.id - 1] == job
      && s.tally[job.id - 1].sends >= job.attemptCount + 1
      && (if outcome.Accepted? then s.tally[job.id - 1].accepts >= 1
          else s.tally[job.id - 1].accepts <= s.tally[job.id - 1].recoveries)
  }

  ghost predicate Inv(s: Sys) {
    && T.ValidTable(s.rows)
    && |s.tally| == |s.rows|
    && (forall i :: 0 <= i < |s.rows| ==> Accounted(s.rows[i], s.tally[i]))
    && PhaseAccounted(s)
  }

  lemma SubmitKeepsInv(s: Sys, key: string, payload: T.Payload, now: string)
    requires Inv(s)
    ensures Inv(DoSubmit(s, key, payload, now))
  {
    T.ApplyKeeps(s.rows, T.Insert(key, payload, now));
  }

  lemma ClaimKeepsInv(s: Sys, at: Instant, now: string, leaseEnd: string)
    requires Inv(s)
    ensures Inv(DoClaim(s, at, now, leaseEnd))
  {
    T.ApplyKeeps(s.rows, T.Claim(now, leaseEnd));
  }

  lemma NoTokenKeepsInv(s: Sys, now: string)
    requires Inv(s)
    ensures Inv(DoNoToken(s, now))
  {
    if s.phase.Claimed? {
      T.ApplyKeeps(s.rows, T.MarkFailed(s.phase.job.id, s.phase.job.attemptCount, NO_TOKEN, now));
    }
  }

  lemma SendKeepsInv(s: Sys, outcome: Outcome)
    requires Inv(s)
    ensures Inv(DoSend(s, outcome))
  {
  }

  lemma AnsweredRowSettles(job: T.Job, t: Tally, outcome: Outcome, next: string, now: string)
    requires Accounted(job, t) && job.status == T.Sending && t.sends >= job.attemptCount + 1
    requires if outcome.Accepted? then t.accepts >= 1 else t.accepts <= t.recoveries
    ensures Accounted(T.SettledRow(job, SettleOp(job, outcome, next, now)), t)
  {
  }

  /** What an answer does to the job: it is sent when the answer accepts it, waits for a retry when the
      rejection is of a kind that may pass and an attempt is left, and has failed otherwise. */
  predicate SettledBy(outcome: Outcome, job: T.Job, row: T.Job, now: Instant) {
    var mayPass := outcome.Rejected? && outcome.retryable && job.attemptCount + 1 < job.payload.maxAttempts;
    && row.SameIdentity(job) && row.attemptCount == job.attemptCount + 1
    && row.leaseExpiresAt == None && row.updatedAt == Format(now)
    && (row.status == T.Sent <==> outcome.Accepted?)
    && (row.status == T.Retry <==> mayPass)
    && (row.status == T.Failed <==> outcome.Rejected? && !mayPass)
    && (outcome.Accepted? ==> row.sentAt == Some(Format(now)) && row.lastError == "")
    && (outcome.Rejected? ==> row.lastError == outcome.message)
    && row.nextRetryAt == (if !mayPass then None
                           else Some(Format(now + RetryDelay(job.attemptCount + 1, outcome.retryAfter))))
  }

  /** A job of a bot without a token fails, and the attempt does not count. */
  predicate FailedForNoToken(job: T.Job, row: T.Job, now: Instant) {
    && row.SameIdentity(job) && row.status == T.Failed && row.attemptCount == job.attemptCount
    && row.leaseExpiresAt == None && row.nextRetryAt == None && row.updatedAt == Format(now)
    && row.lastError == NO_TOKEN
  }

  lemma SettledRowIs(job: T.Job, outcome: Outcome, now: Instant)
    ensures SettledBy(outcome, job,
                      T.SettledRow(job, SettleOp(job, outcome, Format(RetryAt(job, now, outcome)), Format(now))), now)
  {
    hide Format;
    hide RetryDelay;
  }

  /** The settlement of an answered job changes its row as the answer says, and no other. */
  lemma AnswerSettles(s: Sys)
    requires Inv(s) && s.phase.Answered?
    ensures T.Affects(s.rows, s.phase.job.id)
    ensures var i := s.phase.job.id - 1; var t := Step(s, Settle);
      && |t.rows| == |s.rows| && t.phase == Idle
      && SettledBy(s.phase.outcome, s.rows[i], t.rows[i], s.phase.now)
      && forall j :: 0 <= j < |s.rows| && j != i ==> t.rows[j] == s.rows[j]
  {
    hide Inv;
    hide Format;
    ClaimedRowIsThere(s);
    SettledRowIs(s.phase.job, s.phase.outcome, s.phase.now);
    hide RetryAt;
    hide SettledBy;
    hide SettleOp;
    hide T.SettledRow;
    SettleUpdates(s, Format(RetryAt(s.phase.job, s.phase.now, s.phase.outcome)), Format(s.phase.now));
  }

  lemma MissingTokenFails(s: Sys)
    requires Inv(s) && s.phase.Claimed?
    ensures T.Affects(s.rows, s.phase.job.id)
    ensures var i := s.phase.job.id - 1; var t := Step(s, NoToken);
      && |t.rows| == |s.rows| && t.phase == Idle
      && FailedForNoToken(s.rows[i], t.rows[i], s.phase.now)
      && forall j :: 0 <= j < |s.rows| && j != i ==> t.rows[j] == s.rows[j]
  {
    hide Format;
    hide Accounted;
  }

  lemma SettleUpdates(s: Sys, next: string, now: string)
    requires s.phase.Answered? && T.Affects(s.rows, s.phase.job.id)
    ensures var k := s.phase.job.id - 1;
      var row := T.SettledRow(s.rows[k], SettleOp(s.phase.job, s.phase.outcome, next, now));
      DoSettle(s, next, now) == s.(rows := s.rows[k := row], phase := Idle)
  {
    hide T.SettledRow;
  }

  lemma SettleKeepsInv(s: Sys, next: string, now: string)
    requires Inv(s)
    ensures Inv(DoSettle(s, next, now))
  {
    if s.phase.Answered? {
      var k := s.phase.job.id - 1;
      T.ApplyKeeps(s.rows, SettleOp(s.phase.job, s.phase.outcome, next, now));
      SettleUpdates(s, next, now);
      AnsweredRowSettles(s.rows[k], s.tally[k], s.phase.outcome, next, now);
      hide T.Apply;
      hide T.Evolves;
      hide T.SettledRow;
      hide SettleOp;
      hide Accounted;
    }
  }

  lemma RestartKeepsInv(s: Sys, now: string, cutoff: string)
    requires Inv(s)
    ensures Inv(DoRestart(s, now, cutoff))
  {
    T.ApplyKeeps(s.rows, T.Recover(now, cutoff));
  }

  lemma IdleKeepsInv(s: Sys)
    requires Inv(s)
    ensures Inv(s.(phase := Idle)) && Inv(s.(phase := Down))
  {
    hide T.ValidTable;
    hide Accounted;
  }

  lemma StepKeepsInv(s: Sys, e: Event)
    requires Inv(s)
    ensures Inv(Step(s, e))
  {
    hide Format;
    hide Inv;
    hide DoSubmit;
    hide DoClaim;
    hide DoNoToken;
    hide DoSend;
    hide DoSettle;
    hide DoRestart;
    match e
    case Submit(key, payload, now) => SubmitKeepsInv(s, key, payload, Format(now));
    case ClaimNext(now, lease) => ClaimKeepsInv(s, now, Format(now), Format(now + lease));
    case NoToken => if s.phase.Claimed? { NoTokenKeepsInv(s, Format(s.phase.now)); }
    case Send(outcome) => SendKeepsInv(s, outcome);
    case Settle =>
      if s.phase.Answered? {
        SettleKeepsInv(s, Format(RetryAt(s.phase.job, s.phase.now, s.phase.outcome)), Format(s.phase.now));
      }
    case Restart(now, cutoff) => RestartKeepsInv(s, Format(now), Format(cutoff));
    case _ => IdleKeepsInv(s);
  }

  lemma {:induction false} RunKeepsInv(s: Sys, events: seq<Event>)
    requires Inv(s)
    ensures Inv(Run(s, events))
    decreases |events|
  {
    if events != [] {
      RunKeepsInv(s, events[..|events| - 1]);
      StepKeepsInv(Run(s, events[..|events| - 1]), events[|events| - 1]);
    }
  }

  /** Attempt accounting over every run, with any number of crashes and restarts. */
  lemma AttemptAccounting(events: seq<Event>, i: nat)
    requires i < |Run(START, events).rows|
    ensures |Run(START, events).tally| == |Run(START, events).rows|
    ensures var job, t := Run(START, events).rows[i], Run(START, events).tally[i];
      var n, max := job.attemptCount, job.payload.maxAttempts;
      && t.claims == n + t.recoveries + (if job.status == T.Sending || t.noToken then 1 else 0)
      && (job.Unfinished() ==> n < max)
      && (job.status == T.Sent ==> 1 <= n <= max)
      && (job.status == T.Failed ==> n <= max)
      && n <= t.sends <= max + t.recoveries
  {
    RunKeepsInv(START, events);
  }

  /** Delivery guarantees: a send of a sent job was answered as accepted, and at most one was of a job that
      was never recovered; every recovery can cost one more. A send whose response was lost is not counted
      as accepted, so this does not bound what Telegram delivered. */
  lemma AtLeastOnceAtMostOncePerRecovery(events: seq<Event>, i: nat)
    requires i < |Run(START, events).rows|
    ensures |Run(START, events).tally| == |Run(START, events).rows|
    ensures var job, t := Run(START, events).rows[i], Run(START, events).tally[i];
      && (job.status == T.Sent ==> t.accepts >= 1)
      && (job.status == T.Pending || job.status == T.Retry || job.status == T.Failed ==> t.accepts <= t.recoveries)
      && t.accepts <= t.recoveries + 1
  {
    RunKeepsInv(START, events);
  }

  lemma StartHolds()
    ensures Inv(START)
  {
  }

  lemma ClaimedRowIsThere(s: Sys)
    requires Inv(s) && (s.phase.Claimed? || s.phase.Answered?)
    ensures T.Affects(s.rows, s.phase.job.id) && s.rows[s.phase.job.id - 1] == s.phase.job
  {
    hide Accounted;
  }

  /** With one live worker every settlement finds its row: the guard never fails. */
  lemma OneWorkerNeverConflicts(events: seq<Event>)
    requires var p := Run(START, events).phase; p.Claimed? || p.Answered?
    ensures var s := Run(START, events); T.Affects(s.rows, s.phase.job.id) && s.rows[s.phase.job.id - 1] == s.phase.job
  {
    StartHolds();
    hide *;
    RunKeepsInv(START, events);
    ClaimedRowIsThere(Run(START, events));
  }

  // ---------- bounded bypass ----------

  /** The row a step claims, if it claims one. */
  function ClaimOf(s: Sys, e: Event): Option<nat> {
    if e.ClaimNext? && s.phase.Idle? && T.FirstReady(s.rows, Format(e.now)) < |s.rows|
    then Some(T.FirstReady(s.rows, Format(e.now))) else None
  }

  /** The number of claims in a run. */
  function Claims(s: Sys, events: seq<Event>): nat
    decreases |events|
  {
    if events == [] then 0
    else
      var before := events[..|events| - 1];
      Claims(s, before) + if ClaimOf(Run(s, before), events[|events| - 1]).Some? then 1 else 0
  }

  function ExpiredBelow(rows: T.Table, now: string, cutoff: string, n: nat): nat
    requires n <= |rows|
  {
    if n == 0 then 0
    else ExpiredBelow(rows, now, cutoff, n - 1) + if T.Expired(rows[n - 1], now, cutoff) then 1 else 0
  }

  function RecoveredIn(s: Sys, e: Event, n: nat): nat {
    if e.Restart? && s.phase.Down? && n <= |s.rows| then ExpiredBelow(s.rows, Format(e.now), Format(e.cutoff), n) else 0
  }

  /** The number of recoveries of the first n rows in a run. */
  function Recoveries(s: Sys, events: seq<Event>, n: nat): nat
    decreases |events|
  {
    if events == [] then 0
    else
      var before := events[..|events| - 1];
      Recoveries(s, before, n) + RecoveredIn(Run(s, before), events[|events| - 1], n)
  }

  /** The claims a job can still take without being recovered: its unused attempts, one of which is
      spoken for while it is being sent. */
  function Slack(job: T.Job): int {
    if job.Terminal() then 0
    else job.payload.maxAttempts - job.attemptCount - if job.status == T.Sending then 1 else 0
  }

  function SlackBelow(rows: T.Table, n: nat): int
    requires n <= |rows|
  {
    if n == 0 then 0 else SlackBelow(rows, n - 1) + Slack(rows[n - 1])
  }

  /** The sum of (max attempts - attempts) over the unfinished jobs among the first n. */
  function AttemptsLeft(rows: T.Table, n: nat): int
    requires n <= |rows|
  {
    if n == 0 then 0
    else AttemptsLeft(rows, n - 1)
         + if rows[n - 1].Unfinished() then rows[n - 1].payload.maxAttempts - rows[n - 1].attemptCount else 0
  }

  lemma {:induction false} SlackBounds(s: Sys, n: nat)
    requires Inv(s) && n <= |s.rows|
    ensures 0 <= SlackBelow(s.rows, n) <= AttemptsLeft(s.rows, n)
  {
    if n > 0 {
      SlackBounds(s, n - 1);
      assert Accounted(s.rows[n - 1], s.tally[n - 1]);
    }
  }

  lemma {:induction false} SlackUpdate(rows: T.Table, i: nat, row: T.Job, n: nat)
    requires i < |rows| && n <= |rows|
    ensures SlackBelow(rows[i := row], n) == SlackBelow(rows, n) + if i < n then Slack(row) - Slack(rows[i]) else 0
  {
    if n > 0 {
      SlackUpdate(rows, i, row, n - 1);
    }
  }

  lemma {:induction false} SlackPrefix(rows: T.Table, more: T.Table, n: nat)
    requires n <= |rows| && rows <= more
    ensures SlackBelow(more, n) == SlackBelow(rows, n)
  {
    if n > 0 {
      SlackPrefix(rows, more, n - 1);
    }
  }

  lemma {:induction false} SlackRecover(rows: T.Table, now: string, cutoff: string, n: nat)
    requires n <= |rows|
    ensures SlackBelow(T.Apply(rows, T.Recover(now, cutoff)), n)
         == SlackBelow(rows, n) + ExpiredBelow(rows, now, cutoff, n)
  {
    if n > 0 {
      SlackRecover(rows, now, cutoff, n - 1);
    }
  }

  lemma SettleSlack(s: Sys, next: string, now: string, n: nat)
    requires Inv(s) && n <= |s.rows| && s.phase.Answered?
    ensures |DoSettle(s, next, now).rows| == |s.rows|
    ensures SlackBelow(DoSettle(s, next, now).rows, n) <= SlackBelow(s.rows, n)
  {
    var k := s.phase.job.id - 1;
    assert Accounted(s.rows[k], s.tally[k]);
    SlackUpdate(s.rows, k, T.SettledRow(s.rows[k], SettleOp(s.phase.job, s.phase.outcome, next, now)), n);
  }

  lemma NoTokenSlack(s: Sys, now: string, n: nat)
    requires Inv(s) && n <= |s.rows| && s.phase.Claimed?
    ensures |DoNoToken(s, now).rows| == |s.rows|
    ensures SlackBelow(DoNoToken(s, now).rows, n) <= SlackBelow(s.rows, n)
  {
    var k := s.phase.job.id - 1;
    assert Accounted(s.rows[k], s.tally[k]);
    var op := T.MarkFailed(s.phase.job.id, s.phase.job.attemptCount, NO_TOKEN, now);
    SlackUpdate(s.rows, k, T.SettledRow(s.rows[k], op), n);
  }

  lemma ClaimSlack(s: Sys, at: Instant, now: string, leaseEnd: string, n: nat)
    requires Inv(s) && n <= |s.rows| && s.phase.Idle? && T.FirstReady(s.rows, now) < |s.rows|
    ensures |DoClaim(s, at, now, leaseEnd).rows| == |s.rows|
    ensures SlackBelow(DoClaim(s, at, now, leaseEnd).rows, n)
         == SlackBelow(s.rows, n) - if T.FirstReady(s.rows, now) < n then 1 else 0
  {
    var i := T.FirstReady(s.rows, now);
    SlackUpdate(s.rows, i, T.ClaimedRow(s.rows[i], now, leaseEnd), n);
  }

  lemma SubmitSlack(s: Sys, key: string, payload: T.Payload, now: string, n: nat)
    requires n <= |s.rows|
    ensures |DoSubmit(s, key, payload, now).rows| >= |s.rows|
    ensures SlackBelow(DoSubmit(s, key, payload, now).rows, n) == SlackBelow(s.rows, n)
  {
    SlackPrefix(s.rows, DoSubmit(s, key, payload, now).rows, n);
  }

  lemma RestartSlack(s: Sys, now: string, cutoff: string, n: nat)
    requires Inv(s) && n <= |s.rows|
    ensures |DoRestart(s, now, cutoff).rows| == |s.rows|
    ensures SlackBelow(DoRestart(s, now, cutoff).rows, n)
         == SlackBelow(s.rows, n) + if s.phase.Down? then ExpiredBelow(s.rows, now, cutoff, n) else 0
  {
    SlackRecover(s.rows, now, cutoff, n);
  }

  /** A claim uses up one unit of slack, a settlement never adds any, a recovery gives one back. */
  lemma StepSlack(s: Sys, e: Event, n: nat)
    requires Inv(s) && n <= |s.rows|
    ensures n <= |Step(s, e).rows|
    ensures SlackBelow(Step(s, e).rows, n) + (if ClaimOf(s, e).Some? && ClaimOf(s, e).value < n then 1 else 0)
         <= SlackBelow(s.rows, n) + RecoveredIn(s, e, n)
  {
    hide Format;
    hide T.FirstReady;
    hide SlackBelow;
    hide ExpiredBelow;
    hide DoSubmit;
    hide DoNoToken;
    hide DoSettle;
    hide DoRestart;
    match e
    case Submit(key, payload, now) => SubmitSlack(s, key, payload, Format(now), n);
    case ClaimNext(now, lease) =>
      if s.phase.Idle? && T.FirstReady(s.rows, Format(now)) < |s.rows| {
        ClaimSlack(s, now, Format(now), Format(now + lease), n);
      }
    case NoToken =>
      if s.phase.Claimed? {
        NoTokenSlack(s, Format(s.phase.now), n);
      }
    case Settle =>
      if s.phase.Answered? {
        SettleSlack(s, Format(RetryAt(s.phase.job, s.phase.now, s.phase.outcome)), Format(s.phase.now), n);
      }
    case Restart(now, cutoff) => RestartSlack(s, Format(now), Format(cutoff), n);
    case _ =>
  }

  /** One step of the worker is at most one statement on the table. */
  lemma StepEvolves(s: Sys, e: Event)
    requires Inv(s)
    ensures T.Evolves(s.rows, Step(s, e).rows)
  {
    EvolvesToSelf(s.rows);
    hide Format;
    hide T.Evolves;
    hide T.FirstReady;
    hide T.FindKey;
    hide Accounted;
    match e
    case Submit(key, payload, now) => T.ApplyKeeps(s.rows, T.Insert(key, payload, Format(now)));
    case ClaimNext(now, lease) => T.ApplyKeeps(s.rows, T.Claim(Format(now), Format(now + lease)));
    case NoToken =>
      if s.phase.Claimed? {
        T.ApplyKeeps(s.rows, T.MarkFailed(s.phase.job.id, s.phase.job.attemptCount, NO_TOKEN, Format(s.phase.now)));
      }
    case Settle =>
      if s.phase.Answered? {
        var next := Format(RetryAt(s.phase.job, s.phase.now, s.phase.outcome));
        T.ApplyKeeps(s.rows, SettleOp(s.phase.job, s.phase.outcome, next, Format(s.phase.now)));
      }
    case Restart(now, cutoff) => T.ApplyKeeps(s.rows, T.Recover(Format(now), Format(cutoff)));
    case _ =>
  }

  lemma EvolvesToSelf(t: T.Table)
    ensures T.Evolves(t, t)
  {
  }

  lemma {:induction false} RunEvolves(s: Sys, events: seq<Event>)
    requires Inv(s)
    ensures T.Evolves(s.rows, Run(s, events).rows)
    decreases |events|
  {
    if events != [] {
      var before := events[..|events| - 1];
      RunEvolves(s, before);
      RunKeepsInv(s, before);
      StepEvolves(Run(s, before), events[|events| - 1]);
    }
  }

  ghost predicate ClaimsOnlyBelow(s: Sys, events: seq<Event>, n: nat) {
    forall k :: 0 <= k < |events| ==>
      var claimed := ClaimOf(Run(s, events[..k]), events[k]); claimed.Some? ==> claimed.value < n
  }

  /** The slack below row n pays for every claim below row n, whatever happens in the run. */
  lemma {:induction false} ClaimsArePaidFor(s: Sys, events: seq<Event>, n: nat)
    requires Inv(s) && n <= |s.rows|
    requires ClaimsOnlyBelow(s, events, n)
    ensures n <= |Run(s, events).rows|
    ensures Claims(s, events) + SlackBelow(Run(s, events).rows, n) <= SlackBelow(s.rows, n) + Recoveries(s, events, n)
    decreases |events|
  {
    if events != [] {
      var before := events[..|events| - 1];
      assert forall k :: 0 <= k < |before| ==> before[..k] == events[..k];
      ClaimsArePaidFor(s, before, n);
      RunKeepsInv(s, before);
      StepSlack(Run(s, before), events[|events| - 1], n);
    }
  }

  /** While row n stays pending every claim takes a lower row, and there are at most as many of them as
      the unfinished lower rows have attempts left, plus the recoveries of lower rows. */
  lemma BoundedBypass(s: Sys, events: seq<Event>, n: nat)
    requires Inv(s) && n < |s.rows|
    requires |s.rows| <= |Run(s, events).rows| && Run(s, events).rows[n].status == T.Pending
    ensures ClaimsOnlyBelow(s, events, n)
    ensures Claims(s, events) <= AttemptsLeft(s.rows, n) + Recoveries(s, events, n)
  {
    forall k | 0 <= k < |events| && ClaimOf(Run(s, events[..k]), events[k]) != None
      ensures ClaimOf(Run(s, events[..k]), events[k]).value < n
    {
      PassedOver(s, events, n, k);
    }
    ClaimsArePaidFor(s, events, n);
    RunKeepsInv(s, events);
    SlackBounds(s, n);
    SlackBounds(Run(s, events), n);
  }

  lemma {:induction false} RunSplit(s: Sys, events: seq<Event>, k: nat)
    requires k <= |events|
    ensures Run(s, events) == Run(Run(s, events[..k]), events[k..])
    decreases |events|
  {
    hide Step;
    if k == |events| {
      assert events[..k] == events;
    } else {
      var before := events[..|events| - 1];
      RunSplit(s, before, k);
      assert before[..k] == events[..k] && events[k..][..|events| - k - 1] == before[k..];
    }
  }

  lemma PassedOver(s: Sys, events: seq<Event>, n: nat, k: nat)
    requires Inv(s) && n < |s.rows| && k < |events|
    requires |s.rows| <= |Run(s, events).rows| && Run(s, events).rows[n].status == T.Pending
    requires ClaimOf(Run(s, events[..k]), events[k]) != None
    ensures ClaimOf(Run(s, events[..k]), events[k]).value < n
  {
    hide Format;
    var m := Run(s, events[..k]);
    RunKeepsInv(s, events[..k]);
    RunEvolves(s, events[..k]);
    RunSplit(s, events, k + 1);
    assert events[..k + 1][..k] == events[..k];
    var after := Run(s, events[..k + 1]);
    assert after == Step(m, events[k]);
    StepKeepsInv(m, events[k]);
    StepEvolves(m, events[k]);
    RunEvolves(after, events[k + 1..]);
    assert m.rows[n].status == T.Pending && after.rows[n].status == T.Pending;
  }

  /** Without new jobs the slack of the whole table is a termination measure: a run makes no more claims
      than there are attempts left, plus one for each recovery. */
  lemma ClaimsTerminate(s: Sys, events: seq<Event>)
    requires Inv(s)
    requires forall e :: e in events ==> !e.Submit?
    ensures Claims(s, events) <= AttemptsLeft(s.rows, |s.rows|) + Recoveries(s, events, |s.rows|)
  {
    var n := |s.rows|;
    forall k | 0 <= k <= |events|
      ensures |Run(s, events[..k]).rows| == n
    {
      NoSubmitNoGrowth(s, events[..k]);
    }
    ClaimsArePaidFor(s, events, n);
    RunKeepsInv(s, events);
    SlackBounds(s, n);
    SlackBounds(Run(s, events), n);
  }

  lemma {:induction false} NoSubmitNoGrowth(s: Sys, events: seq<Event>)
    requires forall e :: e in events ==> !e.Submit?
    ensures |Run(s, events).rows| == |s.rows|
    decreases |events|
  {
    if events != [] {
      NoSubmitNoGrowth(s, events[..|events| - 1]);
      StepLength(Run(s, events[..|events| - 1]), events[|events| - 1]);
    }
  }

  lemma StepLength(s: Sys, e: Event)
    requires !e.Submit?
    ensures |Step(s, e).rows| == |s.rows|
  {
    hide Format;
  }

  // ---------- timing ----------

  /** What a step can do to a row that waits for a retry: claim it when its text is due, or nothing. */
  lemma RetryRowWaits(s: Sys, e: Event, i: nat)
    requires Inv(s) && i < |s.rows| && s.rows[i].status == T.Retry
    ensures i < |Step(s, e).rows|
    ensures Step(s, e).rows[i] == s.rows[i]
         || (ClaimOf(s, e) == Some(i) && T.Ready(s.rows[i], Format(e.now)) && Step(s, e).rows[i].status == T.Sending)
  {
    hide Format;
  }

  ghost predicate NoClaim(s: Sys, events: seq<Event>, i: nat) {
    forall k :: 0 <= k < |events| ==> ClaimOf(Run(s, events[..k]), events[k]) != Some(i)
  }

  /** After `between`, which does not claim row i, the step e does. */
  ghost predicate NextClaim(s: Sys, between: seq<Event>, e: Event, i: int) {
    i >= 0 && NoClaim(s, between, i) && ClaimOf(Run(s, between), e) == Some(i)
  }

  lemma {:induction false} RetryRowKept(s: Sys, events: seq<Event>, i: nat)
    requires Inv(s) && i < |s.rows| && s.rows[i].status == T.Retry
    requires NoClaim(s, events, i)
    ensures i < |Run(s, events).rows| && Run(s, events).rows[i] == s.rows[i]
    decreases |events|
  {
    if events != [] {
      var before := events[..|events| - 1];
      assert forall k :: 0 <= k < |before| ==> before[..k] == events[..k];
      RetryRowKept(s, before, i);
      RunKeepsInv(s, before);
      RetryRowWaits(Run(s, before), events[|events| - 1], i);
    }
  }

  /** The answer that earns another attempt. */
  predicate WillRetry(p: Phase) {
    p.Answered? && p.outcome.Rejected? && p.outcome.retryable && p.job.attemptCount + 1 < p.job.payload.maxAttempts
  }

  lemma RetryIsScheduled(s: Sys, next: string, now: string)
    requires Inv(s) && WillRetry(s.phase)
    ensures var i := s.phase.job.id - 1; var rows := DoSettle(s, next, now).rows;
      i < |rows| && rows[i].status == T.Retry && rows[i].nextRetryAt == Some(next)
  {
  }

  /** Backoff spacing. A job claimed at s.phase.now is settled for a retry; the next claim of it, after
      any other steps, happens less than a second before the delay has passed, if before it at all:
      the delay is Telegram's hint when there is one, else 10s, 60s, 5m or 15m by attempt. Clocks need
      not be monotonic. */
  lemma BackoffSpacing(s: Sys, between: seq<Event>, e: Event)
    requires Inv(s) && WillRetry(s.phase)
    requires NextClaim(Step(s, Settle), between, e, s.phase.job.id - 1)
    requires InRange(RetryAt(s.phase.job, s.phase.now, s.phase.outcome)) && InRange(e.now)
    ensures e.now + SECOND > s.phase.now + RetryDelay(s.phase.job.attemptCount + 1, s.phase.outcome.retryAfter)
  {
    hide Format;
    var due := RetryAt(s.phase.job, s.phase.now, s.phase.outcome);
    StepKeepsInv(s, Settle);
    RetryIsScheduled(s, Format(due), Format(s.phase.now));
    NextClaimIsDue(Step(s, Settle), between, e, s.phase.job.id - 1, due);
  }

  lemma NextClaimIsDue(s: Sys, between: seq<Event>, e: Event, i: nat, due: Instant)
    requires Inv(s) && NextClaim(s, between, e, i) && InRange(due) && InRange(e.now)
    requires i < |s.rows| && s.rows[i].status == T.Retry && s.rows[i].nextRetryAt == Some(Format(due))
    ensures due < e.now + SECOND
  {
    hide Format;
    RetryRowKept(s, between, i);
    RunKeepsInv(s, between);
    assert T.Ready(s.rows[i], Format(e.now));
    TextLeqBound(due, e.now);
  }

  /** The other direction: when an idle worker finds nothing to claim, no job is pending and every job
      that waits for a retry became due less than a second ago or is not due yet. */
  lemma NothingDueIsOverlooked(s: Sys, e: Event, i: nat, due: Instant)
    requires Inv(s) && s.phase.Idle? && e.ClaimNext? && ClaimOf(s, e) == None && i < |s.rows|
    requires InRange(due) && InRange(e.now)
    ensures s.rows[i].status != T.Pending
    ensures s.rows[i].status == T.Retry && s.rows[i].nextRetryAt == Some(Format(due)) ==> e.now < due + SECOND
  {
    hide Format;
    assert !T.Ready(s.rows[i], Format(e.now));
    if s.rows[i].status == T.Retry && s.rows[i].nextRetryAt == Some(Format(due)) && due + SECOND <= e.now {
      EarlierSecondIsLeq(due, e.now);
    }
  }

  lemma {:induction false} SendingRowKept(s: Sys, events: seq<Event>, i: nat)
    requires Inv(s) && i < |s.rows| && s.rows[i].status == T.Sending
    requires forall k :: 0 <= k <= |events| ==>
      i < |Run(s, events[..k]).rows| && Run(s, events[..k]).rows[i].status == T.Sending
    ensures i < |Run(s, events).rows| && Run(s, events).rows[i] == s.rows[i]
    decreases |events|
  {
    if events != [] {
      var before := events[..|events| - 1];
      var e := events[|events| - 1];
      assert forall k :: 0 <= k <= |before| ==> before[..k] == events[..k];
      assert events[..|events|] == events && events[..|before|] == before;
      SendingRowKept(s, before, i);
      RunKeepsInv(s, before);
      StaysSending(Run(s, before), e, i);
    }
  }

  lemma StaysSending(s: Sys, e: Event, i: nat)
    requires Inv(s) && i < |s.rows| && s.rows[i].status == T.Sending
    requires i < |Step(s, e).rows| && Step(s, e).rows[i].status == T.Sending
    ensures Step(s, e).rows[i] == s.rows[i]
  {
    hide Format;
  }

  lemma ClaimLeases(s: Sys, c: Event, i: nat)
    requires ClaimOf(s, c) == Some(i) && Inv(s)
    ensures i < |Step(s, c).rows| && Step(s, c).rows[i].leaseExpiresAt == Some(Format(c.now + c.lease))
  {
    hide Format;
    hide Accounted;
  }

  /** A lease protects a running send. A row claimed at c.now is still sending when the worker restarts
      and recovers it: then more than sendTimeout + 1s have passed, so the two seconds that the lease
      adds to the send timeout absorb the inexact text comparison. */
  lemma LeaseOutlivesSend(s: Sys, c: Event, between: seq<Event>, e: Event, sendTimeout: nat, i: nat)
    requires Inv(s) && ClaimOf(s, c) == Some(i) && c.lease == ClaimLeaseDuration(sendTimeout)
    requires var claimed := Step(s, c);
      && (forall k :: 0 <= k <= |between| ==>
            i < |Run(claimed, between[..k]).rows| && Run(claimed, between[..k]).rows[i].status == T.Sending)
      && e.Restart? && i < |Run(claimed, between).rows|
      && T.Expired(Run(claimed, between).rows[i], Format(e.now), Format(e.cutoff))
    requires InRange(c.now + c.lease) && InRange(e.now)
    ensures e.now > c.now + sendTimeout + SECOND
  {
    hide Format;
    hide Inv;
    hide Step;
    hide Run;
    hide TextLeq;
    var claimed := Step(s, c);
    StepKeepsInv(s, c);
    NothingRun(claimed);
    assert between[..0] == [];
    ClaimLeases(s, c, i);
    SendingRowKept(claimed, between, i);
    TextLeqBound(c.now + c.lease, e.now);
  }

  /** What a restart does to a job that was lost while it was being sent, once its lease has been over for
      a second: it waits for a retry that is due at once, with the attempts it had, and the next claim
      takes it or a ready job before it. A lease that still runs for a second is left alone. */
  lemma RestartRecovers(s: Sys, i: nat, now: Instant, cutoff: Instant, end: Instant, lease: nat)
    requires Inv(s) && s.phase.Down? && i < |s.rows| && T.LeasedUntil(s.rows[i], end)
    requires InRange(now) && InRange(cutoff) && InRange(end)
    ensures var t := Step(s, Restart(now, cutoff));
      && |t.rows| == |s.rows| && t.phase == Idle
      && (end + SECOND <= now ==>
            && T.PutBack(s.rows[i], t.rows[i], now)
            && ClaimOf(t, ClaimNext(now, lease)).Some? && ClaimOf(t, ClaimNext(now, lease)).value <= i)
      && (now + SECOND <= end ==> t.rows[i] == s.rows[i])
  {
    hide Format;
    hide Accounted;
    T.RecoveryInTime(s.rows, i, now, cutoff, end);
  }

  /** After a restart, in any run, no job is left sending under a lease that ended a second or more ago. */
  lemma NoLeaseIsOverdue(events: seq<Event>, now: Instant, cutoff: Instant, i: nat, end: Instant)
    requires Run(START, events).phase.Down? && InRange(now) && InRange(cutoff) && InRange(end)
    requires var t := Run(START, events + [Restart(now, cutoff)]); i < |t.rows| && T.LeasedUntil(t.rows[i], end)
    ensures now < end + SECOND
  {
    hide Format;
    StartHolds();
    RunKeepsInv(START, events);
    var s := Run(START, events);
    var all := events + [Restart(now, cutoff)];
    assert all[..|all| - 1] == events;
    hide Run;
    hide Inv;
    T.RecoveryInTime(s.rows, i, now, cutoff, end);
  }

  /** A job whose worker is lost after the claim c, and is sending when the worker starts again a second or
      more after the lease, is put back with the attempts it had before c. */
  lemma LostClaimIsRecovered(s: Sys, c: Event, between: seq<Event>, now: Instant, cutoff: Instant, i: nat)
    requires Inv(s) && ClaimOf(s, c) == Some(i) && c.now + c.lease + SECOND <= now
    requires InRange(now) && InRange(cutoff)
    requires var claimed := Step(s, c);
      && Run(claimed, between).phase.Down?
      && forall k :: 0 <= k <= |between| ==>
           i < |Run(claimed, between[..k]).rows| && Run(claimed, between[..k]).rows[i].status == T.Sending
    ensures i < |s.rows| && i < |Step(Run(Step(s, c), between), Restart(now, cutoff)).rows|
    ensures T.PutBack(s.rows[i], Step(Run(Step(s, c), between), Restart(now, cutoff)).rows[i], now)
  {
    hide Format;
    hide Step;
    hide Run;
    hide Inv;
    hide T.PutBack;
    hide T.LeasedUntil;
    var claimed := Step(s, c);
    StepKeepsInv(s, c);
    assert between[..0] == [] && between[..|between|] == between;
    RunKeepsInv(claimed, between);
    LeaseIsTaken(s, c, i);
    assert i < |Run(claimed, between[..0]).rows|;
    NothingRun(claimed);
    SendingRowKept(claimed, between, i);
    RestartRecovers(Run(claimed, between), i, now, cutoff, c.now + c.lease, 0);
    PutBackFrom(s.rows[i], claimed.rows[i], Step(Run(claimed, between), Restart(now, cutoff)).rows[i], now);
  }

  lemma NothingRun(s: Sys)
    ensures Run(s, []) == s
  {
  }

  lemma LeaseIsTaken(s: Sys, c: Event, i: nat)
    requires ClaimOf(s, c) == Some(i) && Inv(s)
    ensures i < |s.rows| && i < |Step(s, c).rows| && T.LeasedUntil(Step(s, c).rows[i], c.now + c.lease)
    ensures Step(s, c).rows[i].SameIdentity(s.rows[i]) && Step(s, c).rows[i].attemptCount == s.rows[i].attemptCount
    ensures Step(s, c).rows[i].status == T.Sending
  {
    hide Format;
    hide Accounted;
    ClaimLeases(s, c, i);
    ClaimKeepsRow(s, c, i);
    hide Step;
    hide Inv;
  }

  lemma PutBackFrom(job: T.Job, claimed: T.Job, row: T.Job, now: Instant)
    requires claimed.SameIdentity(job) && claimed.attemptCount == job.attemptCount && T.PutBack(claimed, row, now)
    ensures T.PutBack(job, row, now)
  {
    hide Format;
  }

  lemma ClaimKeepsRow(s: Sys, c: Event, i: nat)
    requires ClaimOf(s, c) == Some(i) && Inv(s)
    ensures i < |s.rows| && i < |Step(s, c).rows| && Step(s, c).rows[i].SameIdentity(s.rows[i])
    ensures Step(s, c).rows[i].attemptCount == s.rows[i].attemptCount && Step(s, c).rows[i].status == T.Sending
  {
    hide Format;
    hide Accounted;
  }
}
