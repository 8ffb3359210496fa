/** SendService.Submit as one caller runs it against the store object. */
module SendService {
  import opened Options
  import opened Text
  import opened Timestamps
  import opened SenderStore
  import opened SubmitRaces
  import T = JobTable

  /** What a submission does, in the caller's terms. A faulty command changes nothing and gets its first
      fault. Otherwise, when a row has the command's key, nothing changes and the answer is that row, if it
      is what the command asks for, or a conflict; when there is none, one pending row is added that is. */
  ghost predicate Submitted(svc: Service, cmd: SendCommand, now: Instant, before: T.Table, after: T.Table,
                            result: Result<T.Job, SubmitError>)
  {
    var key := Trim(cmd.key);
    && (forall k :: IsFirstFault(svc, cmd, k) ==> after == before && result == Err(CHECKS[k]))
    && ((forall e :: !Faulty(svc, cmd, e)) ==>
          if key != "" && exists row :: row in before && row.key == key then
            && after == before
            && forall row :: row in before && row.key == key ==>
                 result == if Asks(svc, cmd, key, row.payload) then Ok(row) else Err(KeyConflict)
          else
            && result.Ok? && after == before + [result.value]
            && Asks(svc, cmd, result.value.key, result.value.payload)
            && T.IsNew(result.value, |before| + 1, result.value.key, result.value.payload, now))
  }

  method Submit(svc: Service, store: Store, cmd: SendCommand, now: Instant) returns (result: Result<T.Job, SubmitError>)
    requires store.Valid()
    modifies store
    ensures store.Valid() && Submitted(svc, cmd, now, old(store.rows), store.rows, result)
  {
    hide Format;
    hide Validate;
    hide Faulty;
    hide Asks;
    hide Submitted;
    var checked := Validate(svc, cmd);
    if checked.Err? {
      FaultySubmission(svc, cmd, now, store.rows);
      return Err(checked.error);
    }
    var req := checked.value;
    if req.key != "" {
      var existing := store.GetByIdempotencyKey(req.key);
      if existing.Some? {
        KnownSubmission(svc, cmd, now, store.rows, existing.value);
        return Compared(req, existing.value);
      }
    }
    ghost var before := store.rows;
    var job := store.Enqueue(req.key, req.payload, now);
    assert store.rows[|before|] == job;
    NewSubmission(svc, cmd, now, before, job);
    if req.key != "" && job.payload != req.payload {
      return Err(KeyConflict);
    }
    return Ok(job);
  }

  lemma FaultySubmission(svc: Service, cmd: SendCommand, now: Instant, rows: T.Table)
    requires Validate(svc, cmd).Err?
    ensures Submitted(svc, cmd, now, rows, rows, Err(Validate(svc, cmd).error))
  {
    hide Validate;
    hide Faulty;
    hide Asks;
    hide Trim;
    ValidatesExactly(svc, cmd);
  }

  lemma NoFaultIsFirst(svc: Service, cmd: SendCommand, k: int)
    requires forall e :: !Faulty(svc, cmd, e)
    ensures !IsFirstFault(svc, cmd, k)
  {
    hide Faulty;
  }

  /** With no fault, a payload is what the command asks for exactly when it is the request's. */
  lemma AsksOnce(svc: Service, cmd: SendCommand, p: T.Payload)
    requires Validate(svc, cmd).Ok?
    ensures var req := Validate(svc, cmd).value;
      req.key == Trim(cmd.key) && (Asks(svc, cmd, req.key, p) <==> p == req.payload)
  {
    ValidatesExactly(svc, cmd);
    hide Validate;
    hide Faulty;
    hide Trim;
    hide Lower;
  }

  lemma KnownSubmission(svc: Service, cmd: SendCommand, now: Instant, rows: T.Table, row: T.Job)
    requires T.ValidTable(rows) && Validate(svc, cmd).Ok? && row in rows
    requires row.key == Validate(svc, cmd).value.key != ""
    ensures Submitted(svc, cmd, now, rows, rows, Compared(Validate(svc, cmd).value, row))
  {
    ValidatesExactly(svc, cmd);
    AsksOnce(svc, cmd, row.payload);
    hide Validate;
    hide Faulty;
    hide Asks;
    hide Trim;
    hide IsFirstFault;
    forall k
      ensures !IsFirstFault(svc, cmd, k)
    {
      NoFaultIsFirst(svc, cmd, k);
    }
    forall other | other in rows && other.key == row.key
      ensures other == row
    {
    }
  }

  lemma NewSubmission(svc: Service, cmd: SendCommand, now: Instant, rows: T.Table, job: T.Job)
    requires Validate(svc, cmd).Ok?
    requires var key := Validate(svc, cmd).value.key; key == "" || forall row :: row in rows ==> row.key != key
    requires job == T.NewJob(rows, Validate(svc, cmd).value.key, Validate(svc, cmd).value.payload, Format(now))
    ensures Submitted(svc, cmd, now, rows, rows + [job], Ok(job))
  {
    ValidatesExactly(svc, cmd);
    AsksOnce(svc, cmd, job.payload);
    hide Validate;
    hide Faulty;
    hide Asks;
    hide Trim;
    hide IsFirstFault;
    forall k
      ensures !IsFirstFault(svc, cmd, k)
    {
      NoFaultIsFirst(svc, cmd, k);
    }
  }

  /** The one row with the key. */
  ghost predicate OnlyRow(rows: T.Table, key: string, id: nat) {
    T.Exists(rows, id) && forall j :: 0 <= j < |rows| ==> (rows[j].key == key <==> j == id - 1)
  }

  /** After an accepted command with a key exactly one row has that key, the one that is returned. */
  lemma AcceptedKeyHasOneRow(svc: Service, cmd: SendCommand, now: Instant, before: T.Table, after: T.Table,
                             result: Result<T.Job, SubmitError>)
    requires T.ValidTable(before) && T.ValidTable(after) && Submitted(svc, cmd, now, before, after, result)
    requires result.Ok? && Trim(cmd.key) != ""
    ensures OnlyRow(after, Trim(cmd.key), result.value.id) && after[result.value.id - 1] == result.value
    ensures Asks(svc, cmd, Trim(cmd.key), result.value.payload) && result.value.key == Trim(cmd.key)
  {
    AcceptedHasNoFault(svc, cmd, now, before, after, result);
    hide Faulty;
    hide IsFirstFault;
    hide Trim;
    hide Lower;
  }

  lemma AcceptedHasNoFault(svc: Service, cmd: SendCommand, now: Instant, before: T.Table, after: T.Table,
                           result: Result<T.Job, SubmitError>)
    requires Submitted(svc, cmd, now, before, after, result) && result.Ok?
    ensures forall e :: !Faulty(svc, cmd, e)
  {
    hide Faulty;
    hide Asks;
    hide Trim;
    ValidatesExactly(svc, cmd);
    if Validate(svc, cmd).Err? {
      FirstFault(svc, cmd);
    }
    hide Validate;
  }

  /** Submitting the same command again, after any statements of workers and other clients, returns the same
      job and adds nothing. */
  lemma ResubmissionReturnsTheJob(svc: Service, cmd: SendCommand, now: Instant, before: T.Table, first: T.Table,
                                  result: Result<T.Job, SubmitError>, ops: seq<T.Op>, later: Instant, after: T.Table,
                                  again: Result<T.Job, SubmitError>)
    requires T.ValidTable(before) && T.ValidTable(first) && Submitted(svc, cmd, now, before, first, result)
    requires result.Ok? && Trim(cmd.key) != ""
    requires Submitted(svc, cmd, later, T.Run(first, ops), after, again)
    ensures after == T.Run(first, ops)
    ensures again.Ok? && again.value.id == result.value.id && again.value.payload == result.value.payload
  {
    AcceptedKeyHasOneRow(svc, cmd, now, before, first, result);
    AcceptedHasNoFault(svc, cmd, now, before, first, result);
    T.RunKeeps(first, ops);
    hide T.Run;
    hide Faulty;
    hide IsFirstFault;
    hide Trim;
    hide Lower;
    var rows := T.Run(first, ops);
    assert rows[result.value.id - 1] in rows;
  }
}
