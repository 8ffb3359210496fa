/** The Store of store.go: an object whose table is changed in place by guarded statements. */
module SenderStore {
  import opened Options
  import opened Timestamps
  import opened JobTable

  class Store {
    var rows: Table

    ghost predicate Valid()
      reads this
    {
      ValidTable(rows)
    }

    constructor ()
      ensures Valid() && rows == []
    {
      rows := [];
    }

    method GetByIdempotencyKey(key: string) returns (job: Option<Job>)
      requires Valid()
      ensures job.Some? ==> key != "" && job.value in rows && job.value.key == key
      ensures job.None? ==> key == "" || forall row :: row in rows ==> row.key != key
    {
      if key == "" {
        return None;
      }
      var i := FindKey(rows, key);
      return if i.Some? then Some(rows[i.value]) else None;
    }

    /** The insert either adds one pending row, or meets the unique index and answers with the row that
        already holds the key. */
    method Enqueue(key: string, payload: Payload, now: Instant) returns (job: Job)
      requires Valid()
      modifies this
      ensures Valid() && rows == Apply(old(rows), Insert(key, payload, Format(now)))
      ensures job in rows && job.key == key
      ensures if key != "" && (exists row :: row in old(rows) && row.key == key)
              then rows == old(rows)
              else rows == old(rows) + [job] && IsNew(job, |old(rows)| + 1, key, payload, now)
    {
      hide Format;
      if key != "" && FindKey(rows, key).Some? {
        var existing := GetByIdempotencyKey(key);
        return existing.value;
      }
      job := NewJob(rows, key, payload, Format(now));
      rows := rows + [job];
    }

    /** Claims the ready job with the lowest id, and touches nothing else. */
    method ClaimNextReady(now: Instant, lease: nat) returns (job: Option<Job>)
      requires Valid()
      modifies this
      ensures Valid() && rows == Apply(old(rows), Claim(Format(now), Format(now + lease)))
      ensures job.None? <==> forall row :: row in old(rows) ==> !Ready(row, Format(now))
      ensures job.None? ==> rows == old(rows)
      ensures job.Some? ==> Affects(rows, job.value.id) && rows[job.value.id - 1] == job.value
      ensures job.Some? ==> Exists(old(rows), job.value.id)
                            && rows == old(rows)[job.value.id - 1 := job.value]
                            && Ready(old(rows)[job.value.id - 1], Format(now))
                            && job.value.SameIdentity(old(rows)[job.value.id - 1])
                            && job.value.attemptCount == old(rows)[job.value.id - 1].attemptCount
                            && job.value.leaseExpiresAt == Some(Format(now + lease))
                            && job.value.updatedAt == Format(now)
                            && forall j :: 0 <= j < job.value.id - 1 ==> !Ready(old(rows)[j], Format(now))
    {
      hide Format;
      var nowText := Format(now);
      var leaseText := Format(now + lease);
      ApplyKeeps(rows, Claim(nowText, leaseText));
      var i := FirstReady(rows, nowText);
      if i == |rows| {
        return None;
      }
      assert rows[i] in rows;
      rows := rows[i := ClaimedRow(rows[i], nowText, leaseText)];
      return Some(rows[i]);
    }

    /** The guarded update of a settlement and the question asked when it found no row. */
    method Settle(op: Op) returns (result: Result<(), StoreError>)
      requires Valid() && Settles(op)
      modifies this
      ensures Valid() && rows == Apply(old(rows), op)
      ensures result.Ok? <==> Affects(old(rows), op.id)
      ensures result.Err? ==> rows == old(rows) && result.error == Classify(rows, op.id)
      ensures forall j :: 0 <= j < |rows| && j != op.id - 1 ==> rows[j] == old(rows)[j]
    {
      ApplyKeeps(rows, op);
      if Affects(rows, op.id) {
        rows := rows[op.id - 1 := SettledRow(rows[op.id - 1], op)];
        return Ok(());
      }
      return Err(Classify(rows, op.id));
    }

    method MarkRetry(id: nat, attemptCount: int, next: Instant, error: string, now: Instant)
      returns (result: Result<(), StoreError>)
      requires Valid()
      modifies this
      ensures Valid() && rows == Apply(old(rows), Op.MarkRetry(id, attemptCount, Format(next), error, Format(now)))
      ensures result.Ok? <==> Affects(old(rows), id)
      ensures result.Ok? ==> rows[id - 1].status == Retry && rows[id - 1].attemptCount == attemptCount
                             && rows[id - 1].nextRetryAt == Some(Format(next)) && rows[id - 1].leaseExpiresAt == None
      ensures result.Err? ==> rows == old(rows) && result.error == Classify(rows, id)
    {
      hide Format;
      result := Settle(Op.MarkRetry(id, attemptCount, Format(next), error, Format(now)));
    }

    method MarkSent(id: nat, attemptCount: int, sentAt: Instant) returns (result: Result<(), StoreError>)
      requires Valid()
      modifies this
      ensures Valid() && rows == Apply(old(rows), Op.MarkSent(id, attemptCount, Format(sentAt)))
      ensures result.Ok? <==> Affects(old(rows), id)
      ensures result.Ok? ==> rows[id - 1].status == Sent && rows[id - 1].attemptCount == attemptCount
                             && rows[id - 1].sentAt == Some(Format(sentAt)) && rows[id - 1].lastError == ""
      ensures result.Err? ==> rows == old(rows) && result.error == Classify(rows, id)
    {
      hide Format;
      result := Settle(Op.MarkSent(id, attemptCount, Format(sentAt)));
    }

    method MarkFailed(id: nat, attemptCount: int, error: string, now: Instant)
      returns (result: Result<(), StoreError>)
      requires Valid()
      modifies this
      ensures Valid() && rows == Apply(old(rows), Op.MarkFailed(id, attemptCount, error, Format(now)))
      ensures result.Ok? <==> Affects(old(rows), id)
      ensures result.Ok? ==> rows[id - 1].status == Failed && rows[id - 1].attemptCount == attemptCount
                             && rows[id - 1].lastError == error && rows[id - 1].nextRetryAt == None
      ensures result.Err? ==> rows == old(rows) && result.error == Classify(rows, id)
    {
      hide Format;
      result := Settle(Op.MarkFailed(id, attemptCount, error, Format(now)));
    }

    /** Makes every sending row whose lease has run out ready again, now; no other row changes. */
    method RecoverExpiredSendingJobs(now: Instant, legacyGracePeriod: nat)
      requires Valid() && legacyGracePeriod <= now
      modifies this
      ensures Valid() && rows == Apply(old(rows), Recover(Format(now), Format(now - legacyGracePeriod)))
      ensures |rows| == |old(rows)|
      ensures forall i :: 0 <= i < |rows| ==>
        if Expired(old(rows)[i], Format(now), Format(now - legacyGracePeriod))
        then rows[i].status == Retry && rows[i].nextRetryAt == Some(Format(now)) && rows[i].leaseExpiresAt == None
             && rows[i].attemptCount == old(rows)[i].attemptCount
        else rows[i] == old(rows)[i]
      ensures forall i, end: Instant ::
        0 <= i < |rows| && LeasedUntil(old(rows)[i], end) && InRange(end) && InRange(now) ==>
        && (end + SECOND <= now ==> PutBack(old(rows)[i], rows[i], now) && Ready(rows[i], Format(now)))
        && (now + SECOND <= end ==> rows[i] == old(rows)[i])
      ensures forall i, at: Instant ::
        0 <= i < |rows| && UnleasedSince(old(rows)[i], at) && InRange(at) && InRange(now) ==>
        && (at + SECOND <= now - legacyGracePeriod ==> PutBack(old(rows)[i], rows[i], now))
        && (now - legacyGracePeriod + SECOND <= at ==> rows[i] == old(rows)[i])
    {
      hide Format;
      var nowText := Format(now);
      var cutoff := Format(now - legacyGracePeriod);
      ApplyKeeps(rows, Recover(nowText, cutoff));
      var before := rows;
      rows := seq(|before|, i requires 0 <= i < |before| => RecoveredRow(before[i], nowText, cutoff));
      forall i, at: Instant | 0 <= i < |before| && InRange(at) && InRange(now)
        ensures LeasedUntil(before[i], at) && at + SECOND <= now ==> rows[i] != before[i]
        ensures rows[i] == before[i] || (PutBack(before[i], rows[i], now) && Ready(rows[i], Format(now)))
        ensures LeasedUntil(before[i], at) && now + SECOND <= at ==> rows[i] == before[i]
        ensures UnleasedSince(before[i], at) && at + SECOND <= now - legacyGracePeriod ==> rows[i] != before[i]
        ensures UnleasedSince(before[i], at) && now - legacyGracePeriod + SECOND <= at ==> rows[i] == before[i]
      {
        RecoveryInTime(before, i, now, now - legacyGracePeriod, at);
      }
    }

    /** Statements that other connections execute meanwhile. */
    method Interleave(ops: seq<Op>)
      requires Valid()
      modifies this
      ensures Valid() && rows == Run(old(rows), ops)
    {
      RunKeeps(rows, ops);
      rows := Run(rows, ops);
    }
  }
}
