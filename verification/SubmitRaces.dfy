/** SendService.Submit of send_service.go: validation, and the idempotency of concurrent calls. Between
    the atomic statements of one call any number of other calls and workers may execute theirs. */
module SubmitRaces {
  import opened Options
  import opened Text
  import opened JobTable

  // ---------- validation ----------

  datatype BotConfig = BotConfig(enabled: bool, token: string, allowUserIds: set<int>)

  datatype Service = Service(bots: map<string, BotConfig>, globalAllowlist: set<int>, defaultMaxAttempts: int)

  datatype SendCommand = SendCommand(bot: string, chatId: int, text: string, key: string, maxAttempts: int,
                                     replyTo: Option<int>, disableNotification: bool)

  datatype SubmitError =
    | BotRequired | UnknownBot | BotDisabled | BotUnavailable | ChatIdRequired | ChatIdNotAllowed
    | TextRequired | TextExceedsLimit | MaxAttemptsInvalid | KeyConflict

  const MIN_ATTEMPTS := 1
  const TELEGRAM_MAX_TEXT_LENGTH := 4096

  /** What is left of a command once it is valid. */
  datatype Request = Request(key: string, payload: Payload)

  /** The checks of Submit, in order; the request carries the normalised bot, key and attempt limit. */
  function Validate(svc: Service, cmd: SendCommand): (r: Result<Request, SubmitError>)
    ensures r.Ok? ==>
      var p := r.value.payload;
      && MIN_ATTEMPTS <= p.maxAttempts <= MAX_ATTEMPTS
      && p.bot in svc.bots && svc.bots[p.bot].enabled && Trim(svc.bots[p.bot].token) != ""
      && p.chatId != 0 && (p.chatId in svc.globalAllowlist || p.chatId in svc.bots[p.bot].allowUserIds)
      && Trim(p.text) != "" && |p.text| <= TELEGRAM_MAX_TEXT_LENGTH
      && Trim(r.value.key) == r.value.key
  {
    var bot := Lower(Trim(cmd.bot));
    var key := Trim(cmd.key);
    var attempts := if cmd.maxAttempts == 0 then svc.defaultMaxAttempts else cmd.maxAttempts;
    if bot == "" then Err(BotRequired)
    else if bot !in svc.bots then Err(UnknownBot)
    else if !svc.bots[bot].enabled then Err(BotDisabled)
    else if Trim(svc.bots[bot].token) == "" then Err(BotUnavailable)
    else if cmd.chatId == 0 then Err(ChatIdRequired)
    else if cmd.chatId !in svc.globalAllowlist && cmd.chatId !in svc.bots[bot].allowUserIds then Err(ChatIdNotAllowed)
    else if Trim(cmd.text) == "" then Err(TextRequired)
    else if |cmd.text| > TELEGRAM_MAX_TEXT_LENGTH then Err(TextExceedsLimit)
    else if !(MIN_ATTEMPTS <= attempts <= MAX_ATTEMPTS) then Err(MaxAttemptsInvalid)
    else Ok(Request(key, Payload(bot, cmd.chatId, cmd.text, attempts, cmd.replyTo, cmd.disableNotification)))
  }

  /** The errors in the order in which they are looked for. */
  const CHECKS: seq<SubmitError> := [
    BotRequired, UnknownBot, BotDisabled, BotUnavailable, ChatIdRequired, ChatIdNotAllowed, TextRequired,
    TextExceedsLimit, MaxAttemptsInvalid
  ]

  /** What is wrong with a command that has that error, seen by itself. */
  predicate Faulty(svc: Service, cmd: SendCommand, e: SubmitError) {
    var bot := Lower(Trim(cmd.bot));
    match e
    case BotRequired => bot == ""
    case UnknownBot => bot !in svc.bots
    case BotDisabled => bot in svc.bots && !svc.bots[bot].enabled
    case BotUnavailable => bot in svc.bots && Trim(svc.bots[bot].token) == ""
    case ChatIdRequired => cmd.chatId == 0
    case ChatIdNotAllowed =>
      cmd.chatId !in svc.globalAllowlist && (bot in svc.bots ==> cmd.chatId !in svc.bots[bot].allowUserIds)
    case TextRequired => Trim(cmd.text) == ""
    case TextExceedsLimit => |cmd.text| > 4096
    case MaxAttemptsInvalid =>
      if cmd.maxAttempts == 0 then svc.defaultMaxAttempts < 1 || 5 < svc.defaultMaxAttempts
      else cmd.maxAttempts < 1 || 5 < cmd.maxAttempts
    case KeyConflict => false
  }

  /** The first check that the command fails. */
  ghost predicate IsFirstFault(svc: Service, cmd: SendCommand, k: int) {
    0 <= k < |CHECKS| && Faulty(svc, cmd, CHECKS[k]) && forall j :: 0 <= j < k ==> !Faulty(svc, cmd, CHECKS[j])
  }

  /** The request asks for what the command says, under the key that it names. */
  predicate Asks(svc: Service, cmd: SendCommand, key: string, p: Payload) {
    && key == Trim(cmd.key) && p.bot == Lower(Trim(cmd.bot)) && p.chatId == cmd.chatId && p.text == cmd.text
    && p.replyTo == cmd.replyTo && p.disableNotification == cmd.disableNotification
    && p.maxAttempts == (if cmd.maxAttempts == 0 then svc.defaultMaxAttempts else cmd.maxAttempts)
  }

  /** A command is accepted exactly when it has none of the faults, and then the request is the command's;
      otherwise it gets the first of its faults. */
  lemma ValidatesExactly(svc: Service, cmd: SendCommand)
    ensures Validate(svc, cmd).Ok? <==> forall e :: !Faulty(svc, cmd, e)
    ensures Validate(svc, cmd).Ok? ==>
      Asks(svc, cmd, Validate(svc, cmd).value.key, Validate(svc, cmd).value.payload)
    ensures forall k :: IsFirstFault(svc, cmd, k) ==> Validate(svc, cmd) == Err(CHECKS[k])
  {
    hide Trim;
    hide Lower;
    if Validate(svc, cmd).Ok? {
      NoFault(svc, cmd);
    } else {
      FirstFault(svc, cmd);
    }
  }

  lemma NoFault(svc: Service, cmd: SendCommand)
    requires Validate(svc, cmd).Ok?
    ensures forall e :: !Faulty(svc, cmd, e)
  {
    hide Trim;
    hide Lower;
  }

  lemma FirstFault(svc: Service, cmd: SendCommand)
    requires Validate(svc, cmd).Err?
    ensures exists k :: 0 <= k < |CHECKS| && IsFirstFault(svc, cmd, k) && Validate(svc, cmd).error == CHECKS[k]
    ensures forall k, j :: IsFirstFault(svc, cmd, k) && IsFirstFault(svc, cmd, j) ==> k == j
  {
    hide Trim;
    hide Lower;
    assert CHECKS[0] == BotRequired && CHECKS[1] == UnknownBot && CHECKS[2] == BotDisabled;
    assert CHECKS[3] == BotUnavailable && CHECKS[4] == ChatIdRequired && CHECKS[5] == ChatIdNotAllowed;
    assert CHECKS[6] == TextRequired && CHECKS[7] == TextExceedsLimit && CHECKS[8] == MaxAttemptsInvalid;
    var e := Validate(svc, cmd).error;
    var k := if e == BotRequired then 0 else if e == UnknownBot then 1 else if e == BotDisabled then 2
             else if e == BotUnavailable then 3 else if e == ChatIdRequired then 4 else if e == ChatIdNotAllowed then 5
             else if e == TextRequired then 6 else if e == TextExceedsLimit then 7 else 8;
    assert IsFirstFault(svc, cmd, k);
  }

  // ---------- the sequential specification ----------

  datatype Answer = Accept(id: nat) | Conflict

  /** What the idempotency contract depends on: the key and payload of every row, by id. */
  type Book = seq<Request>

  function FindEntry(b: Book, key: string, i: nat := 0): (r: Option<nat>)
    requires i <= |b|
    ensures r.Some? ==> i <= r.value < |b| && b[r.value].key == key
    ensures r.None? ==> forall j :: i <= j < |b| ==> b[j].key != key
    decreases |b| - i
  {
    if i == |b| then None else if b[i].key == key then Some(i) else FindEntry(b, key, i + 1)
  }

  /** One submission in isolation: a known key answers with its row or a conflict, anything else adds a row. */
  function Atomic(b: Book, req: Request): (Book, Answer) {
    var known := if req.key == "" then None else FindEntry(b, req.key);
    if known.None? then (b + [req], Accept(|b| + 1))
    else if b[known.value].payload == req.payload then (b, Accept(known.value + 1))
    else (b, Conflict)
  }

  function BookOf(t: Table): Book {
    seq(|t|, i requires 0 <= i < |t| => Request(t[i].key, t[i].payload))
  }

  // ---------- the concurrent calls ----------

  datatype Call =
    | Looking(req: Request)
    | Inserting(req: Request)
    | Fetching(req: Request, id: nat)      // inserted, about to read the row back
    | Rereading(req: Request)              // met the unique index, about to read the other row
    | Returned(req: Request, job: Result<Job, SubmitError>)

  /** An entry of the linearisation: which call took effect, and with which answer. */
  datatype Entry = Entry(call: nat, req: Request, answer: Answer)

  /** `begun[c]` is how much of the log existed when call c was made, `effect[c]` where it took effect. */
  datatype Sys = Sys(rows: Table, calls: map<nat, Call>, log: seq<Entry>, begun: map<nat, nat>, effect: map<nat, nat>)

  datatype Event =
    | Invoke(call: nat, req: Request)
    | Proceed(call: nat, now: string)
    | Statement(op: Op)                    // a worker's statement

  const START := Sys([], map[], [], map[], map[])

  /** The comparison of sameSendPayload, after a row for the key was found. */
  function Compared(req: Request, row: Job): Result<Job, SubmitError> {
    if row.payload == req.payload then Ok(row) else Err(KeyConflict)
  }

  function AnswerOf(result: Result<Job, SubmitError>): Answer {
    if result.Ok? then Accept(result.value.id) else Conflict
  }

  function TakeEffect(s: Sys, c: nat, req: Request, answer: Answer): Sys {
    s.(log := s.log + [Entry(c, req, answer)], effect := s.effect[c := |s.log|])
  }

  /** The next atomic action of call c. */
  function Advance(s: Sys, c: nat, call: Call, now: string): Sys {
    match call
    case Looking(req) =>
      var found := if req.key == "" then None else FindKey(s.rows, req.key);
      if found.None? then s.(calls := s.calls[c := Inserting(req)])
      else
        var result := Compared(req, s.rows[found.value]);
        TakeEffect(s, c, req, AnswerOf(result)).(calls := s.calls[c := Returned(req, result)])
    case Inserting(req) =>
      var rows := Apply(s.rows, Insert(req.key, req.payload, now));
      var found := if req.key == "" then None else FindKey(s.rows, req.key);
      if found.None? then
        TakeEffect(s, c, req, Accept(|rows|)).(rows := rows, calls := s.calls[c := Fetching(req, |rows|)])
      else
        TakeEffect(s, c, req, AnswerOf(Compared(req, s.rows[found.value]))).(calls := s.calls[c := Rereading(req)])
    case Fetching(req, id) =>
      if !Exists(s.rows, id) then s
      else
        var job := s.rows[id - 1];
        s.(calls := s.calls[c := Returned(req, if req.key != "" then Compared(req, job) else Ok(job))])
    case Rereading(req) =>
      var found := FindKey(s.rows, req.key);
      if found.None? then s else s.(calls := s.calls[c := Returned(req, Compared(req, s.rows[found.value]))])
    case Returned(_, _) => s
  }

  function Step(s: Sys, e: Event): Sys {
    match e
    case Invoke(c, req) =>
      if c in s.calls then s
      else s.(calls := s.calls[c := Looking(req)], begun := s.begun[c := |s.log|])
    case Proceed(c, now) => if c in s.calls then Advance(s, c, s.calls[c], now) else s
    case Statement(op) => if op.Insert? then s else s.(rows := Apply(s.rows, op))
  }

  function RunEvents(s: Sys, events: seq<Event>): Sys
    decreases |events|
  {
    if events == [] then s else Step(RunEvents(s, events[..|events| - 1]), events[|events| - 1])
  }

  // ---------- linearisability ----------

  /** The log replayed one submission at a time. */
  function Replay(log: seq<Entry>): Book {
    if log == [] then [] else Atomic(Replay(log[..|log| - 1]), log[|log| - 1].req).0
  }

  /** Every answer in the log is the one the sequential specification gives at that point. */
  ghost predicate Legal(log: seq<Entry>) {
    forall k :: 0 <= k < |log| ==> log[k].answer == Atomic(Replay(log[..k]), log[k].req).1
  }

  /** A call that has taken effect did so after it began, as the log says. */
  ghost predicate TookEffect(s: Sys, c: nat, req: Request) {
    c in s.effect && c in s.begun && s.begun[c] <= s.effect[c] < |s.log|
    && s.log[s.effect[c]].call == c && s.log[s.effect[c]].req == req
  }

  ghost predicate NoEffect(s: Sys, c: nat) {
    c in s.begun && s.begun[c] <= |s.log| && c !in s.effect
  }

  ghost predicate CallInv(s: Sys, c: nat)
    requires c in s.calls
  {
    match s.calls[c]
    case Looking(req) => NoEffect(s, c)
    case Inserting(req) => NoEffect(s, c)
    case Fetching(req, id) =>
      && TookEffect(s, c, req) && s.log[s.effect[c]].answer == Accept(id)
      && Exists(s.rows, id) && s.rows[id - 1].key == req.key && s.rows[id - 1].payload == req.payload
    case Rereading(req) =>
      && TookEffect(s, c, req) && req.key != "" && FindKey(s.rows, req.key).Some?
      && s.log[s.effect[c]].answer == AnswerOf(Compared(req, s.rows[FindKey(s.rows, req.key).value]))
    case Returned(req, result) =>
      && TookEffect(s, c, req) && s.log[s.effect[c]].answer == AnswerOf(result)
      && (result.Ok? ==>
            && result.value.key == req.key && result.value.payload == req.payload
            && Exists(s.rows, result.value.id) && s.rows[result.value.id - 1].SameIdentity(result.value))
      && (result.Err? ==>
            && result.error == KeyConflict && req.key != "" && FindKey(s.rows, req.key).Some?
            && s.rows[FindKey(s.rows, req.key).value].payload != req.payload)
  }

  /** The log names each call that has taken effect once, at the place where it did. */
  ghost predicate LogInv(s: Sys) {
    && (forall c :: c in s.effect ==> c in s.calls && s.effect[c] < |s.log|)
    && (forall k :: 0 <= k < |s.log| ==> s.log[k].call in s.effect && s.effect[s.log[k].call] == k)
  }

  ghost predicate Inv(s: Sys) {
    && ValidTable(s.rows)
    && Legal(s.log)
    && Replay(s.log) == BookOf(s.rows)
    && (forall c :: c in s.calls ==> CallInv(s, c))
    && LogInv(s)
  }

  lemma {:induction false} BookLookup(t: Table, key: string, i: nat)
    requires i <= |t|
    ensures FindEntry(BookOf(t), key, i) == FindKey(t, key, i)
    decreases |t| - i
  {
    if i < |t| {
      BookLookup(t, key, i + 1);
    }
  }

  lemma FindKeyStable(t: Table, u: Table, key: string)
    requires ValidTable(t) && ValidTable(u) && Evolves(t, u) && key != "" && FindKey(t, key).Some?
    ensures FindKey(u, key) == FindKey(t, key)
  {
    var i := FindKey(t, key).value;
    assert u[i].SameIdentity(t[i]);
  }

  /** The rows have evolved and the log has grown; call c itself has not moved. */
  lemma OtherCallKept(s: Sys, s': Sys, c: nat)
    requires c in s.calls && CallInv(s, c) && ValidTable(s.rows) && ValidTable(s'.rows) && Evolves(s.rows, s'.rows)
    requires c in s'.calls && s'.calls[c] == s.calls[c]
    requires s.log <= s'.log
    requires c in s.begun && c in s'.begun && s'.begun[c] == s.begun[c]
    requires if c in s.effect then c in s'.effect && s'.effect[c] == s.effect[c] else c !in s'.effect
    ensures CallInv(s', c)
  {
    match s.calls[c]
    case Rereading(req) => FindKeyStable(s.rows, s'.rows, req.key);
    case Returned(req, result) =>
      if result.Err? {
        FindKeyStable(s.rows, s'.rows, req.key);
      }
    case _ =>
  }

  lemma LogGrowsLegally(log: seq<Entry>, entry: Entry)
    requires Legal(log) && entry.answer == Atomic(Replay(log), entry.req).1
    ensures Legal(log + [entry]) && Replay(log + [entry]) == Atomic(Replay(log), entry.req).0
  {
    hide Atomic;
    var more := log + [entry];
    assert more[..|log|] == log;
    forall k | 0 <= k < |more|
      ensures more[k].answer == Atomic(Replay(more[..k]), more[k].req).1
    {
      assert k < |log| ==> more[..k] == log[..k];
    }
  }

  lemma EffectKeepsLog(s: Sys, c: nat, req: Request, answer: Answer)
    requires Legal(s.log) && Replay(s.log) == BookOf(s.rows) && LogInv(s) && c in s.calls && c !in s.effect
    requires Atomic(BookOf(s.rows), req).1 == answer
    ensures var t := TakeEffect(s, c, req, answer);
      Legal(t.log) && Replay(t.log) == Atomic(BookOf(s.rows), req).0 && LogInv(t)
  {
    LogGrowsLegally(s.log, Entry(c, req, answer));
    hide Legal;
    hide Replay;
    hide Atomic;
    hide BookOf;
  }

  /** What a step of call c leaves alone: the other calls, when they began and where they took effect. */
  ghost predicate OthersUntouched(s: Sys, t: Sys, c: nat) {
    && t.begun == s.begun
    && s.log <= t.log
    && (forall d :: d in s.calls && d != c ==> d in t.calls && t.calls[d] == s.calls[d])
    && (forall d :: d in t.calls ==> d in s.calls)
    && (forall d :: d in s.calls && d != c ==>
         if d in s.effect then d in t.effect && t.effect[d] == s.effect[d] else d !in t.effect)
  }

  lemma AdvanceLeavesOthers(s: Sys, c: nat, now: string)
    requires c in s.calls
    ensures OthersUntouched(s, Advance(s, c, s.calls[c], now), c)
  {
    hide Apply;
  }

  lemma AdvanceEvolves(s: Sys, c: nat, now: string)
    requires ValidTable(s.rows) && c in s.calls
    ensures ValidTable(Advance(s, c, s.calls[c], now).rows) && Evolves(s.rows, Advance(s, c, s.calls[c], now).rows)
  {
    var call := s.calls[c];
    if call.Inserting? {
      ApplyKeeps(s.rows, Insert(call.req.key, call.req.payload, now));
    }
  }

  lemma LookKeepsInv(s: Sys, c: nat, req: Request, now: string)
    requires Inv(s) && c in s.calls && s.calls[c] == Looking(req)
    ensures var t := Advance(s, c, s.calls[c], now);
      c in t.calls && CallInv(t, c) && Legal(t.log) && Replay(t.log) == BookOf(t.rows) && LogInv(t)
  {
    if req.key != "" && FindKey(s.rows, req.key).Some? {
      BookLookup(s.rows, req.key, 0);
      var row := s.rows[FindKey(s.rows, req.key).value];
      EffectKeepsLog(s, c, req, AnswerOf(Compared(req, row)));
    }
  }

  lemma InsertKeepsInv(s: Sys, c: nat, req: Request, now: string)
    requires Inv(s) && c in s.calls && s.calls[c] == Inserting(req)
    ensures var t := Advance(s, c, s.calls[c], now);
      c in t.calls && CallInv(t, c) && Legal(t.log) && Replay(t.log) == BookOf(t.rows) && LogInv(t)
  {
    if req.key != "" && FindKey(s.rows, req.key).Some? {
      InsertMeetsRow(s, c, req, now);
    } else {
      InsertAddsRow(s, c, req, now);
    }
    hide Advance;
    hide CallInv;
  }

  lemma KnownKeyAnswers(t: Table, req: Request)
    requires ValidTable(t) && req.key != "" && FindKey(t, req.key).Some?
    ensures Atomic(BookOf(t), req) == (BookOf(t), AnswerOf(Compared(req, t[FindKey(t, req.key).value])))
  {
    BookLookup(t, req.key, 0);
    hide FindKey;
    hide FindEntry;
  }

  lemma NewKeyAnswers(t: Table, req: Request)
    requires req.key == "" || FindKey(t, req.key).None?
    ensures Atomic(BookOf(t), req) == (BookOf(t) + [req], Accept(|t| + 1))
  {
    BookLookup(t, req.key, 0);
    hide FindKey;
    hide FindEntry;
  }

  lemma InsertedRow(t: Table, req: Request, now: string)
    requires req.key == "" || FindKey(t, req.key).None?
    ensures var rows := Apply(t, Insert(req.key, req.payload, now));
      && |rows| == |t| + 1 && BookOf(rows) == BookOf(t) + [req] && rows[|t|].key == req.key
      && rows[|t|].payload == req.payload
  {
    hide FindKey;
  }

  /** The unique index stops the insert, which thereby takes effect. */
  lemma InsertMeetsRow(s: Sys, c: nat, req: Request, now: string)
    requires Inv(s) && c in s.calls && s.calls[c] == Inserting(req)
    requires req.key != "" && FindKey(s.rows, req.key).Some?
    ensures var t := Advance(s, c, s.calls[c], now);
      c in t.calls && CallInv(t, c) && Legal(t.log) && Replay(t.log) == BookOf(t.rows) && LogInv(t)
  {
    assert CallInv(s, c);
    KnownKeyAnswers(s.rows, req);
    hide FindKey;
    var row := s.rows[FindKey(s.rows, req.key).value];
    EffectKeepsLog(s, c, req, AnswerOf(Compared(req, row)));
    hide Legal;
    hide Replay;
    hide Atomic;
    hide BookOf;
  }

  lemma InsertTakesEffect(s: Sys, c: nat, req: Request, now: string)
    requires c in s.calls && s.calls[c] == Inserting(req) && (req.key == "" || FindKey(s.rows, req.key).None?)
    ensures var rows := Apply(s.rows, Insert(req.key, req.payload, now));
      Advance(s, c, s.calls[c], now) == Added(s, c, req, rows) && c in Added(s, c, req, rows).calls
  {
    hide Apply;
    hide FindKey;
  }

  /** The state once the row of call c has been added. */
  function Added(s: Sys, c: nat, req: Request, rows: Table): Sys {
    TakeEffect(s, c, req, Accept(|rows|)).(rows := rows, calls := s.calls[c := Fetching(req, |rows|)])
  }

  lemma AddedCallHolds(s: Sys, c: nat, req: Request, rows: Table)
    requires NoEffect(s, c) && |rows| > 0 && rows[|rows| - 1].key == req.key && rows[|rows| - 1].payload == req.payload
    ensures CallInv(Added(s, c, req, rows), c)
  {
  }

  lemma AddedLogHolds(s: Sys, c: nat, req: Request, rows: Table)
    requires Legal(s.log) && Replay(s.log) == BookOf(s.rows) && LogInv(s) && c in s.calls && c !in s.effect
    requires Atomic(BookOf(s.rows), req) == (BookOf(rows), Accept(|rows|))
    ensures var t := Added(s, c, req, rows); Legal(t.log) && Replay(t.log) == BookOf(t.rows) && LogInv(t)
  {
    EffectKeepsLog(s, c, req, Accept(|rows|));
    hide Legal;
    hide Replay;
    hide Atomic;
    hide BookOf;
  }

  lemma InsertAddsRow(s: Sys, c: nat, req: Request, now: string)
    requires Inv(s) && c in s.calls && s.calls[c] == Inserting(req)
    requires req.key == "" || FindKey(s.rows, req.key).None?
    ensures var t := Advance(s, c, s.calls[c], now);
      c in t.calls && CallInv(t, c) && Legal(t.log) && Replay(t.log) == BookOf(t.rows) && LogInv(t)
  {
    assert NoEffect(s, c) by { assert CallInv(s, c); }
    NewKeyAnswers(s.rows, req);
    InsertedRow(s.rows, req, now);
    InsertTakesEffect(s, c, req, now);
    var rows := Apply(s.rows, Insert(req.key, req.payload, now));
    assert LogInv(s) && Legal(s.log) && Replay(s.log) == BookOf(s.rows);
    AddedCallHolds(s, c, req, rows);
    AddedLogHolds(s, c, req, rows);
    hide *;
  }

  lemma StatementKeepsInv(s: Sys, op: Op)
    requires Inv(s) && !op.Insert?
    ensures Inv(s.(rows := Apply(s.rows, op)))
  {
    var t := s.(rows := Apply(s.rows, op));
    ApplyKeeps(s.rows, op);
    assert BookOf(t.rows) == BookOf(s.rows);
    forall c | c in t.calls
      ensures CallInv(t, c)
    {
      OtherCallKept(s, t, c);
    }
  }

  lemma FetchReturns(s: Sys, c: nat, now: string)
    requires c in s.calls && s.calls[c].Fetching? && ValidTable(s.rows) && CallInv(s, c)
    ensures var t := Advance(s, c, s.calls[c], now);
      t.rows == s.rows && t.log == s.log && t.effect == s.effect && c in t.calls && CallInv(t, c)
  {
    hide FindKey;
  }

  lemma RereadReturns(s: Sys, c: nat, now: string)
    requires c in s.calls && s.calls[c].Rereading? && ValidTable(s.rows) && CallInv(s, c)
    ensures var t := Advance(s, c, s.calls[c], now);
      t.rows == s.rows && t.log == s.log && t.effect == s.effect && c in t.calls && CallInv(t, c)
  {
  }

  lemma ReturnKeepsInv(s: Sys, c: nat, now: string)
    requires Inv(s) && c in s.calls && !s.calls[c].Looking? && !s.calls[c].Inserting?
    ensures var t := Advance(s, c, s.calls[c], now);
      t.rows == s.rows && t.log == s.log && t.effect == s.effect && c in t.calls && CallInv(t, c)
  {
    hide CallInv;
    assert CallInv(s, c);
    if s.calls[c].Fetching? {
      FetchReturns(s, c, now);
      hide Advance;
    } else if s.calls[c].Rereading? {
      RereadReturns(s, c, now);
      hide Advance;
    }
  }

  lemma BegunStays(s: Sys, c: nat)
    requires c in s.calls && CallInv(s, c)
    ensures c in s.begun
  {
  }

  lemma OthersKept(s: Sys, t: Sys, c: nat)
    requires OthersUntouched(s, t, c) && ValidTable(s.rows) && ValidTable(t.rows) && Evolves(s.rows, t.rows)
    requires (forall d :: d in s.calls ==> CallInv(s, d)) && c in t.calls && CallInv(t, c)
    ensures forall d :: d in t.calls ==> CallInv(t, d)
  {
    hide CallInv;
    hide Evolves;
    hide ValidTable;
    forall d | d in t.calls
      ensures CallInv(t, d)
    {
      if d != c {
        assert CallInv(s, d);
        BegunStays(s, d);
        OtherCallKept(s, t, d);
      }
    }
  }

  lemma ProceedKeepsInv(s: Sys, c: nat, now: string)
    requires Inv(s) && c in s.calls
    ensures Inv(Advance(s, c, s.calls[c], now))
  {
    var t := Advance(s, c, s.calls[c], now);
    AdvanceLeavesOthers(s, c, now);
    AdvanceEvolves(s, c, now);
    if s.calls[c].Looking? {
      LookKeepsInv(s, c, s.calls[c].req, now);
    } else if s.calls[c].Inserting? {
      InsertKeepsInv(s, c, s.calls[c].req, now);
    } else {
      ReturnKeepsInv(s, c, now);
      AdvanceKeepsCalls(s, c, now);
    }
    OthersKept(s, t, c);
    hide Advance;
    hide CallInv;
    hide Legal;
    hide Replay;
    hide BookOf;
    hide Evolves;
    hide ValidTable;
    hide OthersUntouched;
  }

  lemma AdvanceKeepsCalls(s: Sys, c: nat, now: string)
    requires LogInv(s) && c in s.calls
    requires var t := Advance(s, c, s.calls[c], now); t.log == s.log && t.effect == s.effect
    ensures LogInv(Advance(s, c, s.calls[c], now))
  {
    AdvanceLeavesOthers(s, c, now);
    CallStays(s, c, now);
    hide Advance;
  }

  lemma CallStays(s: Sys, c: nat, now: string)
    requires c in s.calls
    ensures c in Advance(s, c, s.calls[c], now).calls
  {
    hide Apply;
    hide FindKey;
  }

  lemma StepKeepsInv(s: Sys, e: Event)
    requires Inv(s)
    ensures Inv(Step(s, e))
  {
    match e
    case Invoke(c, req) =>
      var t := Step(s, e);
      forall d | d in t.calls
        ensures CallInv(t, d)
      {
        if d in s.calls {
          if d != c {
            OtherCallKept(s, t, d);
          }
        }
      }
    case Proceed(c, now) => if c in s.calls { ProceedKeepsInv(s, c, now); }
    case Statement(op) => if !op.Insert? { StatementKeepsInv(s, op); }
  }

  lemma {:induction false} RunKeepsInv(s: Sys, events: seq<Event>)
    requires Inv(s)
    ensures Inv(RunEvents(s, events))
    decreases |events|
  {
    if events != [] {
      RunKeepsInv(s, events[..|events| - 1]);
      StepKeepsInv(RunEvents(s, events[..|events| - 1]), events[|events| - 1]);
    }
  }

  /** Submit is linearisable. In every interleaving there is one order of the calls that have taken
      effect, such that executing them one at a time gives every one of them the answer it got and
      leaves the same keys and payloads in the table; a call takes effect once, after it began and
      before it returned. */
  lemma SubmitIsLinearisable(events: seq<Event>)
    ensures var s := RunEvents(START, events);
      && Legal(s.log) && Replay(s.log) == BookOf(s.rows)
      && (forall j, k :: 0 <= j < k < |s.log| ==> s.log[j].call != s.log[k].call)
      && (forall c :: c in s.calls && s.calls[c].Returned? ==>
            TookEffect(s, c, s.calls[c].req) && s.log[s.effect[c]].answer == AnswerOf(s.calls[c].job))
  {
    RunKeepsInv(START, events);
    var s := RunEvents(START, events);
    forall c | c in s.calls && s.calls[c].Returned?
      ensures TookEffect(s, c, s.calls[c].req) && s.log[s.effect[c]].answer == AnswerOf(s.calls[c].job)
    {
      assert CallInv(s, c);
    }
  }

  /** What a state has settled for all later ones: the log so far, where calls took effect and when they
      began; and calls made since began when that log was there. */
  ghost predicate Since(s: Sys, t: Sys) {
    && s.log <= t.log
    && (forall c :: c in s.effect ==> c in t.effect && t.effect[c] == s.effect[c])
    && (forall c :: c in s.begun ==> c in t.begun && t.begun[c] == s.begun[c])
    && (forall c :: c in t.begun && c !in s.begun ==> t.begun[c] >= |s.log|)
    && (forall c :: c in t.begun <==> c in t.calls)
  }

  lemma AdvanceSince(s: Sys, c: nat, now: string)
    requires Inv(s) && c in s.calls && Since(s, s)
    ensures Since(s, Advance(s, c, s.calls[c], now))
  {
    assert CallInv(s, c);
    hide Apply;
    hide FindKey;
    hide Legal;
    hide Replay;
    hide BookOf;
    hide LogInv;
    hide ValidTable;
  }

  lemma StepSince(s: Sys, e: Event)
    requires Inv(s) && Since(s, s)
    ensures Since(s, Step(s, e))
  {
    match e
    case Invoke(c, req) =>
    case Proceed(c, now) => if c in s.calls { AdvanceSince(s, c, now); }
    case Statement(op) =>
    hide Inv;
    hide Advance;
    hide Apply;
  }

  lemma SinceTwice(s: Sys, t: Sys, u: Sys)
    requires Since(s, t) && Since(t, u)
    ensures Since(s, u)
  {
  }

  lemma {:induction false} RunSince(s: Sys, rest: seq<Event>)
    requires Inv(s) && Since(s, s)
    ensures Inv(RunEvents(s, rest)) && Since(s, RunEvents(s, rest))
    decreases |rest|
  {
    RunKeepsInv(s, rest);
    if rest != [] {
      var t := RunEvents(s, rest[..|rest| - 1]);
      RunSince(s, rest[..|rest| - 1]);
      SinceSelf(s, t);
      StepSince(t, rest[|rest| - 1]);
      hide Since;
      hide Step;
      SinceTwice(s, t, RunEvents(s, rest));
    }
  }

  lemma SinceSelf(s: Sys, t: Sys)
    requires Since(s, t)
    ensures Since(t, t)
  {
  }

  lemma {:induction false} RunInTwo(s: Sys, pre: seq<Event>, rest: seq<Event>)
    ensures RunEvents(s, pre + rest) == RunEvents(RunEvents(s, pre), rest)
    decreases |rest|
  {
    hide Step;
    if rest == [] {
      assert pre + rest == pre;
    } else {
      RunInTwo(s, pre, rest[..|rest| - 1]);
      assert (pre + rest)[..|pre + rest| - 1] == pre + rest[..|rest| - 1];
    }
  }

  lemma ReturnedTookEffect(s: Sys, c: nat)
    requires Inv(s) && c in s.calls && s.calls[c].Returned?
    ensures TookEffect(s, c, s.calls[c].req)
  {
    assert CallInv(s, c);
  }

  lemma StartIsFine()
    ensures Inv(START) && Since(START, START)
  {
  }

  /** The order of the calls is the order in real time: a call that has returned before another one is made
      takes effect before it, and keeps its place for ever. */
  lemma RealTimeOrder(pre: seq<Event>, rest: seq<Event>, c: nat, d: nat)
    requires var s := RunEvents(START, pre); c in s.calls && s.calls[c].Returned? && d !in s.calls
    requires var t := RunEvents(START, pre + rest); d in t.calls && t.calls[d].Returned?
    ensures var s, t := RunEvents(START, pre), RunEvents(START, pre + rest);
      c in s.effect && c in t.effect && d in t.effect && t.effect[c] == s.effect[c] < t.effect[d]
  {
    StartIsFine();
    hide RunEvents;
    hide Inv;
    var s, t := RunEvents(START, pre), RunEvents(START, pre + rest);
    RunSince(START, pre);
    SinceSelf(START, s);
    RunInTwo(START, pre, rest);
    RunSince(s, rest);
    ReturnedTookEffect(s, c);
    ReturnedTookEffect(t, d);
  }

  /** What callers see: a key has at most one row; an accepted submission is that row, with the key and
      payload that were submitted; a rejected one met a row of the same key and another payload. */
  lemma SubmitIsIdempotent(events: seq<Event>, c: nat)
    requires c in RunEvents(START, events).calls && RunEvents(START, events).calls[c].Returned?
    ensures var s := RunEvents(START, events); var req, result := s.calls[c].req, s.calls[c].job;
      && (forall i, j :: 0 <= i < j < |s.rows| && s.rows[i].key != "" ==> s.rows[i].key != s.rows[j].key)
      && (result.Ok? ==> Exists(s.rows, result.value.id) && s.rows[result.value.id - 1].SameIdentity(result.value)
                         && result.value.key == req.key && result.value.payload == req.payload)
      && (result.Err? ==> result.error == KeyConflict && req.key != ""
                          && exists i ::
                                 0 <= i < |s.rows| && s.rows[i].key == req.key && s.rows[i].payload != req.payload)
  {
    RunKeepsInv(START, events);
    assert CallInv(RunEvents(START, events), c);
  }

  ghost predicate Accepted(s: Sys, c: nat) {
    c in s.calls && s.calls[c].Returned? && s.calls[c].job.Ok?
  }

  /** Two accepted submissions of the same non-empty key got the same job. */
  lemma SameKeySameJob(events: seq<Event>, c: nat, d: nat)
    requires Accepted(RunEvents(START, events), c) && Accepted(RunEvents(START, events), d)
    ensures var s := RunEvents(START, events);
      s.calls[c].req.key == s.calls[d].req.key && s.calls[c].req.key != "" ==>
        s.calls[c].job.value.id == s.calls[d].job.value.id && s.calls[c].req.payload == s.calls[d].req.payload
  {
    SubmitIsIdempotent(events, c);
    SubmitIsIdempotent(events, d);
    var s := RunEvents(START, events);
    if s.calls[c].req.key == s.calls[d].req.key && s.calls[c].req.key != "" {
      SameKeySameRow(s.rows, s.calls[c].job.value, s.calls[d].job.value);
    }
  }

  lemma SameKeySameRow(t: Table, a: Job, b: Job)
    requires forall i, j :: 0 <= i < j < |t| && t[i].key != "" ==> t[i].key != t[j].key
    requires Exists(t, a.id) && t[a.id - 1].SameIdentity(a) && Exists(t, b.id) && t[b.id - 1].SameIdentity(b)
    requires a.key == b.key != ""
    ensures a.id == b.id && a.payload == b.payload
  {
  }

  /** A submission that conflicts adds no row: the table grows only at the moment an insert takes effect. */
  lemma {:induction false} ConflictAddsNoRow(s: Sys, e: Event)
    requires Inv(s)
    ensures |s.rows| <= |Step(s, e).rows| <= |s.rows| + 1
    ensures |Step(s, e).rows| > |s.rows| ==>
      e.Proceed? && |Step(s, e).log| == |s.log| + 1 && Step(s, e).log[|s.log|].answer == Accept(|s.rows| + 1)
  {
    match e
    case Invoke(c, req) =>
    case Proceed(c, now) => if c in s.calls { AdvanceGrows(s, c, now); }
    case Statement(op) => if !op.Insert? { ApplyKeepsLength(s.rows, op); }
    hide Advance;
    hide Apply;
  }

  lemma ApplyKeepsLength(t: Table, op: Op)
    requires ValidTable(t) && !op.Insert?
    ensures |Apply(t, op)| == |t|
  {
  }

  lemma AdvanceGrows(s: Sys, c: nat, now: string)
    requires c in s.calls
    ensures var t := Advance(s, c, s.calls[c], now);
      && |s.rows| <= |t.rows| <= |s.rows| + 1
      && (|t.rows| > |s.rows| ==> |t.log| == |s.log| + 1 && t.log[|s.log|].answer == Accept(|s.rows| + 1))
  {
    hide FindKey;
  }
}
