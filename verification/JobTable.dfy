/** The jobs table of store.go as a value: one function per SQL statement, and what every sequence of
    statements, from any number of workers, keeps. Ids come from AUTOINCREMENT and no statement deletes
    a row, so the row with id i is the i-th one. */
module JobTable {
  import opened Options
  import opened Timestamps

  datatype Status = Pending | Sending | Sent | Retry | Failed

  datatype Payload = Payload(bot: string, chatId: int, text: string, maxAttempts: int,
                             replyTo: Option<int>, disableNotification: bool)

  datatype Job = Job(id: nat, key: string, payload: Payload, status: Status, attemptCount: int,
                     nextRetryAt: Option<string>, leaseExpiresAt: Option<string>, lastError: string,
                     createdAt: string, updatedAt: string, sentAt: Option<string>)
  {
    predicate Terminal() { status == Sent || status == Failed }
    predicate Unfinished() { !Terminal() }

    /** The columns no statement updates. */
    predicate SameIdentity(other: Job) {
      id == other.id && key == other.key && payload == other.payload && createdAt == other.createdAt
    }
  }

  type Table = seq<Job>

  /** The primary key, and the unique index on non-empty idempotency keys. */
  ghost predicate ValidTable(t: Table) {
    && (forall i :: 0 <= i < |t| ==> t[i].id == i + 1)
    && (forall i, j :: 0 <= i < j < |t| && t[i].key != "" ==> t[i].key != t[j].key)
  }

  predicate Exists(t: Table, id: int) {
    1 <= id <= |t|
  }

  /** SELECT ... WHERE idempotency_key = ? LIMIT 1, searched from row i. */
  function FindKey(t: Table, key: string, i: nat := 0): (r: Option<nat>)
    requires i <= |t|
    ensures r.Some? ==> i <= r.value < |t| && t[r.value].key == key
    ensures r.None? <==> forall j :: i <= j < |t| ==> t[j].key != key
    decreases |t| - i
  {
    if i == |t| then None else if t[i].key == key then Some(i) else FindKey(t, key, i + 1)
  }

  function NewJob(t: Table, key: string, payload: Payload, now: string): Job {
    Job(|t| + 1, key, payload, Pending, 0, None, None, "", now, now, None)
  }

  /** A row that nothing has happened to: pending, without attempts, lease or error. */
  predicate IsNew(job: Job, id: nat, key: string, payload: Payload, now: Instant) {
    && job.id == id && job.key == key && job.payload == payload && job.status == Pending && job.attemptCount == 0
    && job.nextRetryAt == None && job.leaseExpiresAt == None && job.sentAt == None && job.lastError == ""
    && job.createdAt == Format(now) && job.updatedAt == Format(now)
  }

  predicate Ready(job: Job, now: string) {
    job.status == Pending || (job.status == Retry && job.nextRetryAt.Some? && TextLeq(job.nextRetryAt.value, now))
  }

  /** The lowest ready row, or |t|. */
  function FirstReady(t: Table, now: string, i: nat := 0): (r: nat)
    requires i <= |t|
    ensures i <= r <= |t|
    ensures r < |t| ==> Ready(t[r], now)
    ensures forall j :: i <= j < r ==> !Ready(t[j], now)
    decreases |t| - i
  {
    if i == |t| || Ready(t[i], now) then i else FirstReady(t, now, i + 1)
  }

  function ClaimedRow(job: Job, now: string, leaseEnd: string): Job {
    job.(status := Sending, updatedAt := now, leaseExpiresAt := Some(leaseEnd))
  }

  const MAX_ATTEMPTS := 5
  const RECOVERED := "recovered expired sending lease; retrying delivery"

  /** The lease has run out, or a row without a lease has not been touched since the cutoff. */
  predicate Expired(job: Job, now: string, cutoff: string) {
    && job.status == Sending
    && match job.leaseExpiresAt
       case Some(lease) => TextLeq(lease, now)
       case None => TextLeq(job.updatedAt, cutoff)
  }

  function RecoveredRow(job: Job, now: string, cutoff: string): Job {
    if Expired(job, now, cutoff)
    then job.(status := Retry, nextRetryAt := Some(now), sentAt := None, lastError := RECOVERED,
              updatedAt := now, leaseExpiresAt := None)
    else job
  }

  /** One SQL statement, with its bound parameters: timestamps are bound as text. */
  datatype Op =
    | Insert(key: string, payload: Payload, now: string)
    | Claim(now: string, leaseEnd: string)
    | MarkRetry(id: nat, attemptCount: int, next: string, error: string, now: string)
    | MarkSent(id: nat, attemptCount: int, now: string)
    | MarkFailed(id: nat, attemptCount: int, error: string, now: string)
    | Recover(now: string, cutoff: string)

  predicate Settles(op: Op) {
    op.MarkRetry? || op.MarkSent? || op.MarkFailed?
  }

  function SettledRow(job: Job, op: Op): Job
    requires Settles(op)
  {
    match op
    case MarkRetry(_, n, next, error, now) =>
      job.(status := Retry, attemptCount := n, nextRetryAt := Some(next), lastError := error,
           updatedAt := now, sentAt := None, leaseExpiresAt := None)
    case MarkSent(_, n, now) =>
      job.(status := Sent, attemptCount := n, nextRetryAt := None, lastError := "",
           updatedAt := now, sentAt := Some(now), leaseExpiresAt := None)
    case MarkFailed(_, n, error, now) =>
      job.(status := Failed, attemptCount := n, nextRetryAt := None, lastError := error,
           updatedAt := now, leaseExpiresAt := None)
  }

  /** Whether the guarded update of a settlement finds its row: WHERE id = ? AND status = 'sending'. */
  predicate Affects(t: Table, id: nat) {
    Exists(t, id) && t[id - 1].status == Sending
  }

  function Apply(t: Table, op: Op): Table {
    match op
    case Insert(key, payload, now) =>
      if key != "" && FindKey(t, key).Some? then t else t + [NewJob(t, key, payload, now)]
    case Claim(now, leaseEnd) =>
      var i := FirstReady(t, now);
      if i < |t| then t[i := ClaimedRow(t[i], now, leaseEnd)] else t
    case Recover(now, cutoff) =>
      seq(|t|, i requires 0 <= i < |t| => RecoveredRow(t[i], now, cutoff))
    case _ =>
      if Affects(t, op.id) then t[op.id - 1 := SettledRow(t[op.id - 1], op)] else t
  }

  function Run(t: Table, ops: seq<Op>): Table
    decreases |ops|
  {
    if ops == [] then t else Apply(Run(t, ops[..|ops| - 1]), ops[|ops| - 1])
  }

  datatype StoreError = JobNotFound | InvalidTransition | StateConflict

  /** classifyTransitionConflict, asked after an update that found no row. */
  function Classify(t: Table, id: nat): StoreError {
    if !Exists(t, id) then JobNotFound
    else match t[id - 1].status
      case Sending => StateConflict
      case Retry => StateConflict
      case Sent => StateConflict
      case Failed => StateConflict
      case Pending => InvalidTransition
  }

  // ---------- what every statement keeps ----------

  /** The only status changes there are. */
  predicate StatusEdge(a: Status, b: Status) {
    || a == b
    || ((a == Pending || a == Retry) && b == Sending)
    || (a == Sending && (b == Retry || b == Sent || b == Failed))
  }

  /** Rows are never removed; identity columns never change; a terminal row never changes at all. */
  ghost predicate Evolves(t: Table, u: Table) {
    && |t| <= |u|
    && (forall i :: 0 <= i < |t| ==> u[i].SameIdentity(t[i]))
    && (forall i :: 0 <= i < |t| && t[i].Terminal() ==> u[i] == t[i])
    && (forall i :: 0 <= i < |t| && t[i].status != Pending ==> u[i].status != Pending)
  }

  lemma UpdateKeeps(t: Table, i: nat, row: Job)
    requires ValidTable(t) && i < |t| && row.SameIdentity(t[i]) && !t[i].Terminal()
    requires row.status != Pending
    ensures ValidTable(t[i := row]) && Evolves(t, t[i := row])
  {
  }

  lemma InsertKeeps(t: Table, op: Op)
    requires ValidTable(t) && op.Insert?
    ensures ValidTable(Apply(t, op)) && Evolves(t, Apply(t, op))
  {
  }

  lemma RecoverKeeps(t: Table, op: Op)
    requires ValidTable(t) && op.Recover?
    ensures ValidTable(Apply(t, op)) && Evolves(t, Apply(t, op))
    ensures forall i :: 0 <= i < |t| ==> StatusEdge(t[i].status, Apply(t, op)[i].status)
  {
    var u := Apply(t, op);
    assert forall i :: 0 <= i < |t| ==> u[i] == RecoveredRow(t[i], op.now, op.cutoff);
  }

  lemma ApplyKeeps(t: Table, op: Op)
    requires ValidTable(t)
    ensures ValidTable(Apply(t, op))
    ensures Evolves(t, Apply(t, op))
    ensures forall i :: 0 <= i < |t| ==> StatusEdge(t[i].status, Apply(t, op)[i].status)
  {
    if op.Insert? {
      InsertKeeps(t, op);
    } else if op.Recover? {
      RecoverKeeps(t, op);
    } else if op.Claim? {
      var i := FirstReady(t, op.now);
      if i < |t| {
        UpdateKeeps(t, i, ClaimedRow(t[i], op.now, op.leaseEnd));
      }
    } else if Affects(t, op.id) {
      UpdateKeeps(t, op.id - 1, SettledRow(t[op.id - 1], op));
    }
  }

  /** Terminal rows are absorbing, and identity columns constant, under any interleaving of statements. */
  lemma {:induction false} RunKeeps(t: Table, ops: seq<Op>)
    requires ValidTable(t)
    ensures ValidTable(Run(t, ops))
    ensures Evolves(t, Run(t, ops))
    decreases |ops|
  {
    if ops != [] {
      RunKeeps(t, ops[..|ops| - 1]);
      ApplyKeeps(Run(t, ops[..|ops| - 1]), ops[|ops| - 1]);
    }
  }

  /** A claim makes the row sending, so whatever happens next the row is never pending again. */
  lemma ClaimTakesLowest(t: Table, now: string, leaseEnd: string)
    requires ValidTable(t)
    ensures var i := FirstReady(t, now); var u := Apply(t, Claim(now, leaseEnd));
      && (i == |t| ==> u == t && forall j :: 0 <= j < |t| ==> !Ready(t[j], now))
      && (i < |t| ==> Ready(t[i], now) && (forall j :: 0 <= j < i ==> !Ready(t[j], now)))
      && (i < |t| ==> |u| == |t| && u[i].status == Sending && Affects(u, i + 1)
                      && forall j :: 0 <= j < |t| && j != i ==> u[j] == t[j])
  {
  }

  /** Settling a claimed job: after any statements `between` the claim and the update, the guarded
      update either finds its row, or changes nothing and is classified, after any further statements
      `later`, as a state conflict. Job-not-found and invalid-transition cannot be reached. */
  lemma SettlementNeverGoesAstray(t: Table, between: seq<Op>, op: Op, later: seq<Op>)
    requires ValidTable(t) && Settles(op) && Affects(t, op.id)
    ensures var u := Run(t, between);
      if Affects(u, op.id)
      then Apply(u, op) == u[op.id - 1 := SettledRow(u[op.id - 1], op)]
      else Apply(u, op) == u && Classify(Run(u, later), op.id) == StateConflict
  {
    RunKeeps(t, between);
    RunKeeps(Run(t, between), later);
    hide Run;
    hide SettledRow;
    hide ValidTable;
  }

  // ---------- what a recovery does, in time ----------

  /** Sending, under a lease that ends at that instant. */
  predicate LeasedUntil(job: Job, end: Instant) {
    job.status == Sending && job.leaseExpiresAt == Some(Format(end))
  }

  /** Sending without a lease, and last touched at that instant. */
  predicate UnleasedSince(job: Job, at: Instant) {
    job.status == Sending && job.leaseExpiresAt == None && job.updatedAt == Format(at)
  }

  /** Waiting for a retry that is due now, with the attempts that were already made. */
  predicate PutBack(job: Job, row: Job, now: Instant) {
    && row.SameIdentity(job) && row.status == Retry && row.attemptCount == job.attemptCount
    && row.nextRetryAt == Some(Format(now)) && row.updatedAt == Format(now)
    && row.leaseExpiresAt == None && row.sentAt == None && row.lastError == RECOVERED
  }

  /** A row that is put back was sending, and the claim at that instant finds it ready. A row is put back
      when its lease ended a second or more ago, and left alone when it ends a second or more from now;
      likewise a row without a lease, by when it was touched and the cutoff. */
  lemma RecoveryInTime(t: Table, i: nat, now: Instant, cutoff: Instant, at: Instant)
    requires i < |t| && InRange(now) && InRange(cutoff) && InRange(at)
    ensures |Apply(t, Recover(Format(now), Format(cutoff)))| == |t|
    ensures var row := Apply(t, Recover(Format(now), Format(cutoff)))[i];
      && (row == t[i] || (t[i].status == Sending && PutBack(t[i], row, now) && Ready(row, Format(now))))
      && (LeasedUntil(t[i], at) && at + SECOND <= now ==> row != t[i])
      && (LeasedUntil(t[i], at) && now + SECOND <= at ==> row == t[i])
      && (UnleasedSince(t[i], at) && at + SECOND <= cutoff ==> row != t[i])
      && (UnleasedSince(t[i], at) && cutoff + SECOND <= at ==> row == t[i])
  {
    hide Format;
    TextLeqReflexive(Format(now));
    TextBounds(at, now);
    TextBounds(at, cutoff);
    hide TextLeq;
  }

  lemma TextBounds(a: Instant, b: Instant)
    requires InRange(a) && InRange(b)
    ensures a + SECOND <= b ==> TextLeq(Format(a), Format(b))
    ensures b + SECOND <= a ==> !TextLeq(Format(a), Format(b))
  {
    hide Format;
    hide TextLeq;
    if a + SECOND <= b {
      EarlierSecondIsLeq(a, b);
    }
    if b + SECOND <= a && TextLeq(Format(a), Format(b)) {
      SecondsCompareAsText(b, a);
    }
  }

  /** The statement claims the row with that id. */
  predicate Claims(t: Table, op: Op, id: nat) {
    op.Claim? && Exists(t, id) && FirstReady(t, op.now) == id - 1
  }

  /** Some statement of the run, from an empty table, claims that id. */
  ghost predicate EverClaimed(ops: seq<Op>, id: nat) {
    exists k :: 0 <= k < |ops| && Claims(Run([], ops[..k]), ops[k], id)
  }

  /** A row leaves the pending state only by being claimed. */
  lemma PendingUntilClaimed(t: Table, op: Op, id: nat)
    requires ValidTable(t) && Exists(Apply(t, op), id)
    ensures Apply(t, op)[id - 1].status != Pending <==>
      Claims(t, op, id) || (Exists(t, id) && t[id - 1].status != Pending)
  {
    if Exists(t, id) {
      ApplyKeeps(t, op);
    }
  }

  lemma {:induction false} ClaimedOrPending(ops: seq<Op>, id: nat)
    requires Exists(Run([], ops), id)
    ensures ValidTable(Run([], ops))
    ensures Run([], ops)[id - 1].status != Pending <==> EverClaimed(ops, id)
    decreases |ops|
  {
    var before, op := ops[..|ops| - 1], ops[|ops| - 1];
    var t := Run([], before);
    RunKeeps([], before);
    RunKeeps([], ops);
    PendingUntilClaimed(t, op, id);
    if Exists(t, id) {
      ClaimedOrPending(before, id);
    } else {
      NotYetClaimed(before, id);
    }
    hide Run;
    EverClaimedGrows(ops, id);
  }

  lemma EverClaimedGrows(ops: seq<Op>, id: nat)
    requires ops != []
    ensures var n := |ops| - 1;
      EverClaimed(ops, id) <==> EverClaimed(ops[..n], id) || Claims(Run([], ops[..n]), ops[n], id)
  {
    hide Run;
    hide Claims;
    var n := |ops| - 1;
    assert forall k :: 0 <= k <= n ==> ops[..n][..k] == ops[..k];
    if EverClaimed(ops[..n], id) {
      var k :| 0 <= k < n && Claims(Run([], ops[..n][..k]), ops[..n][k], id);
      assert Claims(Run([], ops[..k]), ops[k], id);
    }
    if EverClaimed(ops, id) {
      var k :| 0 <= k < |ops| && Claims(Run([], ops[..k]), ops[k], id);
      assert k < n ==> Claims(Run([], ops[..n][..k]), ops[..n][k], id);
    }
  }

  lemma {:induction false} NotYetClaimed(ops: seq<Op>, id: nat)
    requires !Exists(Run([], ops), id)
    ensures !EverClaimed(ops, id)
    decreases |ops|
  {
    if ops != [] {
      var before := ops[..|ops| - 1];
      RunKeeps([], before);
      ApplyKeeps(Run([], before), ops[|ops| - 1]);
      NotYetClaimed(before, id);
      EverClaimedGrows(ops, id);
    }
  }

  lemma UnclaimedStays(t: Table, id: nat)
    requires !Exists(t, id) || t[id - 1].status == Pending
    ensures forall op :: Settles(op) && op.id == id ==> Apply(t, op) == t
  {
  }

  /** What the three classifications mean, over every run: a settlement that finds no row to update is a
      state conflict exactly when some earlier statement has claimed the job, an invalid transition exactly
      when the job exists and none has, and not found exactly when no statement has inserted it. */
  lemma ConflictExactlyAfterClaim(ops: seq<Op>, id: nat)
    ensures Classify(Run([], ops), id) == StateConflict <==> EverClaimed(ops, id)
    ensures Classify(Run([], ops), id) == InvalidTransition <==> Inserted(ops, id) && !EverClaimed(ops, id)
    ensures Classify(Run([], ops), id) == JobNotFound <==> !Inserted(ops, id)
    ensures forall op :: Settles(op) && op.id == id && !EverClaimed(ops, id) ==> Apply(Run([], ops), op) == Run([], ops)
  {
    InsertedExactly(ops, id);
    if Exists(Run([], ops), id) {
      ClaimedOrPending(ops, id);
    } else {
      NotYetClaimed(ops, id);
    }
    if !EverClaimed(ops, id) {
      UnclaimedStays(Run([], ops), id);
    }
    hide Apply;
    hide Run;
    hide EverClaimed;
    hide Inserted;
  }

  /** Some statement of the run, from an empty table, adds the row with that id. */
  ghost predicate Inserted(ops: seq<Op>, id: nat) {
    exists k :: 0 <= k < |ops| && Inserts(Run([], ops[..k]), ops[k], id)
  }

  predicate Inserts(t: Table, op: Op, id: nat) {
    op.Insert? && id == |t| + 1 && (op.key == "" || FindKey(t, op.key).None?)
  }

  lemma InsertedGrows(ops: seq<Op>, id: nat)
    requires ops != []
    ensures var n := |ops| - 1;
      Inserted(ops, id) <==> Inserted(ops[..n], id) || Inserts(Run([], ops[..n]), ops[n], id)
  {
    hide Run;
    hide Inserts;
    var n := |ops| - 1;
    assert forall k :: 0 <= k <= n ==> ops[..n][..k] == ops[..k];
    if Inserted(ops[..n], id) {
      var k :| 0 <= k < n && Inserts(Run([], ops[..n][..k]), ops[..n][k], id);
      assert Inserts(Run([], ops[..k]), ops[k], id);
    }
    if Inserted(ops, id) {
      var k :| 0 <= k < |ops| && Inserts(Run([], ops[..k]), ops[k], id);
      assert k < n ==> Inserts(Run([], ops[..n][..k]), ops[..n][k], id);
    }
  }

  lemma {:induction false} InsertedExactly(ops: seq<Op>, id: nat)
    ensures Exists(Run([], ops), id) <==> Inserted(ops, id)
    decreases |ops|
  {
    if ops != [] {
      var before, op := ops[..|ops| - 1], ops[|ops| - 1];
      InsertedExactly(before, id);
      InsertedGrows(ops, id);
      RowsAdded(Run([], before), op, id);
      hide Apply;
      hide Inserts;
    }
  }

  lemma RowsAdded(t: Table, op: Op, id: nat)
    ensures Exists(Apply(t, op), id) <==> Exists(t, id) || Inserts(t, op, id)
  {
  }
}
