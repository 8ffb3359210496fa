/** The Worker of worker.go: it drives one Store. Telegram's answers and the clock are parameters. */
module DeliveryWorker {
  import opened Options
  import opened Timestamps
  import opened RetryPolicy
  import opened Text
  import opened SenderStore
  import T = JobTable
  import P = WorkerRuns

  class Worker {
    const store: Store
    /** Bot name to token. */
    const tokens: map<string, string>
    const sendTimeout: int

    constructor (store: Store, tokens: map<string, string>, sendTimeout: int)
      ensures this.store == store && this.tokens == tokens && this.sendTimeout == sendTimeout
    {
      this.store, this.tokens, this.sendTimeout := store, tokens, sendTimeout;
    }

    predicate HasToken(bot: string) {
      bot in tokens && Trim(tokens[bot]) != ""
    }

    /** logSettlementStateConflict: a state conflict is logged and swallowed, anything else is reported. */
    function Unswallowed(result: Result<(), T.StoreError>): Option<T.StoreError> {
      if result.Err? && result.error != T.StateConflict then Some(result.error) else None
    }

    /** The row that is ready and has no ready row before it. */
    ghost predicate IsNext(rows: T.Table, i: int, now: Instant) {
      && 0 <= i < |rows| && T.Ready(rows[i], Format(now))
      && forall j :: 0 <= j < i ==> !T.Ready(rows[j], Format(now))
    }

    /** The next ready job, and no other, is settled by the answer, or fails when its bot has no token. */
    ghost predicate Serves(before: T.Table, after: T.Table, now: Instant, answer: P.Outcome) {
      && |after| == |before|
      && forall i :: IsNext(before, i, now) ==>
           && (if before[i].payload.bot in tokens && Trim(tokens[before[i].payload.bot]) != ""
               then P.SettledBy(answer, before[i], after[i], now)
               else P.FailedForNoToken(before[i], after[i], now))
           && forall j :: 0 <= j < |before| && j != i ==> after[j] == before[j]
    }

    /** The events of the protocol that one call of ProcessNextAt performs. */
    ghost function Round(rows: T.Table, now: Instant, answer: P.Outcome): seq<P.Event> {
      var i := T.FirstReady(rows, Format(now));
      var claim := P.ClaimNext(now, ClaimLeaseDuration(sendTimeout));
      if i == |rows| then [claim]
      else if HasToken(rows[i].payload.bot) then [claim, P.Send(answer), P.Settle]
      else [claim, P.NoToken]
    }

    /** One round of the worker, during which other connections may execute any statements `others`
        between the claim and the settlement. Whatever they do, no error is reported: a settlement that
        finds its job gone from the sending state changes nothing. Without them the table changes as by
        the claim, send and settle steps of the one-worker protocol, run from its state s. */
    method ProcessNextAt(now: Instant, answer: P.Outcome, others: seq<T.Op>, ghost s: P.Sys)
      returns (processed: bool, error: Option<T.StoreError>)
      requires store.Valid()
      modifies store
      ensures store.Valid() && error == None
      ensures processed <==> exists row :: row in old(store.rows) && T.Ready(row, Format(now))
      ensures !processed ==> store.rows == old(store.rows)
      ensures others == [] && P.Inv(s) && s.rows == old(store.rows) && s.phase == P.Idle ==>
        var after := P.Run(s, Round(old(store.rows), now, answer));
        after.rows == store.rows && after.phase == P.Idle
      ensures processed && others == [] ==> Serves(old(store.rows), store.rows, now, answer)
    {
      hide Format;
      hide P.Step;
      hide P.Run;
      hide P.Inv;
      hide T.Apply;
      hide T.Run;
      hide T.ValidTable;
      hide RetryDelay;
      hide Serves;
      hide IsNext;
      hide HasToken;
      hide T.Classify;
      RoundSteps(s, now, answer);
      var lease := ClaimLeaseDuration(sendTimeout);
      ghost var claimed := P.Step(s, P.ClaimNext(now, lease));
      if P.Inv(s) && s.phase == P.Idle {
        ClaimStep(s, now, lease);
      }
      var claim := store.ClaimNextReady(now, lease);
      if claim.None? {
        return false, None;
      }
      var job := claim.value;
      ClaimIsNext(old(store.rows), job.id - 1, now);
      if P.Inv(s) && s.phase == P.Idle && s.rows == old(store.rows) {
        SettleSteps(claimed, answer);
      }
      ghost var rows := store.rows;
      store.Interleave(others);
      var settled: Result<(), T.StoreError>;
      if !HasToken(job.payload.bot) {
        settled := store.MarkFailed(job.id, job.attemptCount, P.NO_TOKEN, now);
        NeverAstray(rows, others, T.MarkFailed(job.id, job.attemptCount, P.NO_TOKEN, Format(now)));
        Served(old(store.rows), rows, now, lease, answer, job);
        return true, Unswallowed(settled);
      }
      var attemptCount := job.attemptCount + 1;
      ghost var next := now + RetryDelay(attemptCount, if answer.Rejected? then answer.retryAfter else 0);
      NeverAstray(rows, others, P.SettleOp(job, answer, Format(next), Format(now)));
      Served(old(store.rows), rows, now, lease, answer, job);
      if answer.Accepted? {
        settled := store.MarkSent(job.id, attemptCount, now);
        return true, Unswallowed(settled);
      }
      if answer.retryable && attemptCount < job.payload.maxAttempts {
        var nextRetryAt := now + RetryDelay(attemptCount, answer.retryAfter);
        settled := store.MarkRetry(job.id, attemptCount, nextRetryAt, answer.message, now);
        return true, Unswallowed(settled);
      }
      settled := store.MarkFailed(job.id, attemptCount, answer.message, now);
      return true, Unswallowed(settled);
    }

    lemma ClaimIsNext(rows: T.Table, i: int, now: Instant)
      requires 0 <= i < |rows| && T.Ready(rows[i], Format(now))
      requires forall j :: 0 <= j < i ==> !T.Ready(rows[j], Format(now))
      ensures IsNext(rows, i, now)
    {
    }

    lemma OneIsNext(rows: T.Table, i: int, k: int, now: Instant)
      requires IsNext(rows, i, now) && IsNext(rows, k, now)
      ensures i == k
    {
      hide Format;
      hide T.Ready;
    }

    /** The claimed row is the next one, and what settles it serves it. */
    lemma Served(before: T.Table, claimed: T.Table, now: Instant, lease: nat, answer: P.Outcome, job: T.Job)
      requires T.ValidTable(before) && claimed == T.Apply(before, T.Claim(Format(now), Format(now + lease)))
      requires T.Affects(claimed, job.id) && claimed[job.id - 1] == job && T.Exists(before, job.id)
      requires IsNext(before, job.id - 1, now)
      ensures var next := Format(P.RetryAt(job, now, answer));
        HasToken(job.payload.bot) ==>
          Serves(before, T.Apply(claimed, P.SettleOp(job, answer, next, Format(now))), now, answer)
      ensures !HasToken(job.payload.bot) ==>
        Serves(before, T.Apply(claimed, T.MarkFailed(job.id, job.attemptCount, P.NO_TOKEN, Format(now))), now, answer)
    {
      hide Format;
      var i := job.id - 1;
      var next := Format(P.RetryAt(job, now, answer));
      ClaimedFrom(before, now, lease, i);
      P.SettledRowIs(job, answer, now);
      SettledFromClaimed(before[i], job, answer, now, P.SettleOp(job, answer, next, Format(now)));
      hide P.SettleOp;
      forall k | IsNext(before, k, now)
        ensures k == i
      {
        OneIsNext(before, i, k, now);
      }
      hide IsNext;
      hide P.SettledBy;
    }

    lemma ClaimedFrom(before: T.Table, now: Instant, lease: nat, i: nat)
      requires T.ValidTable(before) && IsNext(before, i, now)
      ensures T.Apply(before, T.Claim(Format(now), Format(now + lease)))
           == before[i := T.ClaimedRow(before[i], Format(now), Format(now + lease))]
    {
      hide Format;
    }

    lemma SettledFromClaimed(job: T.Job, claimed: T.Job, answer: P.Outcome, now: Instant, op: T.Op)
      requires T.Settles(op) && claimed == job.(status := T.Sending, updatedAt := claimed.updatedAt,
                                                leaseExpiresAt := claimed.leaseExpiresAt)
      ensures P.SettledBy(answer, claimed, T.SettledRow(claimed, op), now) ==>
        P.SettledBy(answer, job, T.SettledRow(claimed, op), now)
    {
      hide Format;
      hide RetryDelay;
    }

    lemma NeverAstray(rows: T.Table, others: seq<T.Op>, op: T.Op)
      requires T.ValidTable(rows) && T.Settles(op) && T.Affects(rows, op.id)
      ensures var u := T.Run(rows, others); T.Affects(u, op.id) || T.Classify(u, op.id) == T.StateConflict
      ensures others == [] ==> T.Run(rows, others) == rows
    {
      T.SettlementNeverGoesAstray(rows, others, op, []);
    }

    lemma ClaimStep(s: P.Sys, now: Instant, lease: nat)
      requires P.Inv(s) && s.phase == P.Idle
      ensures var c := P.Step(s, P.ClaimNext(now, lease)); var i := T.FirstReady(s.rows, Format(now));
        && c.rows == T.Apply(s.rows, T.Claim(Format(now), Format(now + lease)))
        && P.Inv(c)
        && (if i == |s.rows| then c == s
            else |c.rows| == |s.rows| && c.phase == P.Claimed(c.rows[i], now) && c.rows[i].id == i + 1
                 && c.rows[i].payload == s.rows[i].payload)
    {
      hide Format;
      P.StepKeepsInv(s, P.ClaimNext(now, lease));
    }

    lemma SettleSteps(s: P.Sys, answer: P.Outcome)
      requires P.Inv(s) && s.phase.Claimed?
      ensures T.Affects(s.rows, s.phase.job.id)
      ensures var t := P.Step(P.Step(s, P.Send(answer)), P.Settle);
        && t.phase == P.Idle
        && (var next, now := Format(P.RetryAt(s.phase.job, s.phase.now, answer)), Format(s.phase.now);
            t.rows == T.Apply(s.rows, P.SettleOp(s.phase.job, answer, next, now)))
      ensures var t := P.Step(s, P.NoToken);
        && t.phase == P.Idle
        && (var job, now := s.phase.job, Format(s.phase.now);
            t.rows == T.Apply(s.rows, T.MarkFailed(job.id, job.attemptCount, P.NO_TOKEN, now)))
    {
      hide Format;
    }

    lemma RoundSteps(s: P.Sys, now: Instant, answer: P.Outcome)
      ensures var round := Round(s.rows, now, answer);
        && (|round| == 1 ==> P.Run(s, round) == P.Step(s, round[0]))
        && (|round| == 2 ==> P.Run(s, round) == P.Step(P.Step(s, round[0]), round[1]))
        && (|round| == 3 ==> P.Run(s, round) == P.Step(P.Step(P.Step(s, round[0]), round[1]), round[2]))
    {
      hide Format;
      hide P.Step;
      var round := Round(s.rows, now, answer);
      assert round[..0] == [];
      assert P.Run(s, round[..1]) == P.Step(s, round[0]) by {
        assert round[..1][..0] == [];
      }
      if |round| >= 2 {
        assert round[..2][..1] == round[..1];
        assert P.Run(s, round[..2]) == P.Step(P.Run(s, round[..1]), round[1]);
      }
      assert round[..|round|] == round;
    }
  }
}
