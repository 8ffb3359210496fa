/** cmd/openclaw-truth-plane-delivery-extract/main.go: a delivery seen through, either from the creation of a
    handoff or from the delivery itself. */
module DeliveryFlow {
  import opened Options
  import opened Text
  import opened Json
  import opened HandoffResults
  import opened Flows

  datatype Delivery = Delivery(status: string, jobId: int, targetAgent: string, bot: string, chatId: int,
                               attemptCount: int, lastError: string)

  datatype Summary =
    | OfHandoff(handoffId: string, workflowId: string, attempt: Json, delivery: Delivery, job: Json, jobs: seq<Json>,
                handoff: Json, timeline: seq<Json>, workflow: Json)
    | OfDelivery(delivery: Delivery, job: Json, stats: Json)

  const NO_DELIVERY := Delivery("", 0, "", "", 0, 0, "")

  const TOOLS: seq<Tool> :=
    [HandoffCreate, HandoffDispatch, A2ADeliver, SenderJobGet, SenderJobList, HandoffGet, WorkflowStatus]
  const MAIN_TOOLS: seq<Tool> := [A2ADeliver, SenderJobGet, SenderStats]

  // ---------- validators ----------

  predicate Requested(event: Json) {
    event.Obj? && StringField(event, Type) == "transport_requested"
  }

  /** The first non-empty id that a transport request names. */
  function RequestedId(events: seq<Json>, key: Key): string {
    if events == [] then ""
    else if Requested(events[0]) && StringField(events[0], key) != "" then StringField(events[0], key)
    else RequestedId(events[1..], key)
  }

  /** validateDeliveryDispatch: the attempt. */
  function Dispatched(content: Json, handoffId: string, workflowId: string): Option<Json> {
    var attempt := ObjectField(content, Attempt);
    var events := ArrayField(content, Events);
    if FirstNonEmpty(StringField(attempt, HandoffId), RequestedId(events, HandoffId)) != handoffId then None
    else if FirstNonEmpty(StringField(attempt, WorkflowId), RequestedId(events, WorkflowId)) != workflowId then None
    else if exists i :: 0 <= i < |events| && AcceptedEvent(events[i], handoffId, workflowId) then Some(attempt)
    else None
  }

  /** The loop of validateDeliveryDispatch over the events. */
  method ScanEvents(attempt: Json, events: seq<Json>, handoffId: string, workflowId: string)
      returns (dispatchHandoffId: string, dispatchWorkflowId: string, accepted: bool)
    ensures dispatchHandoffId == FirstNonEmpty(StringField(attempt, HandoffId), RequestedId(events, HandoffId))
    ensures dispatchWorkflowId == FirstNonEmpty(StringField(attempt, WorkflowId), RequestedId(events, WorkflowId))
    ensures accepted <==> exists i :: 0 <= i < |events| && AcceptedEvent(events[i], handoffId, workflowId)
  {
    hide Field;
    dispatchHandoffId, dispatchWorkflowId, accepted :=
      StringField(attempt, HandoffId), StringField(attempt, WorkflowId), false;
    for i := 0 to |events|
      invariant FirstNonEmpty(dispatchHandoffId, RequestedId(events[i..], HandoffId))
             == FirstNonEmpty(StringField(attempt, HandoffId), RequestedId(events, HandoffId))
      invariant FirstNonEmpty(dispatchWorkflowId, RequestedId(events[i..], WorkflowId))
             == FirstNonEmpty(StringField(attempt, WorkflowId), RequestedId(events, WorkflowId))
      invariant accepted <==> exists k :: 0 <= k < i && AcceptedEvent(events[k], handoffId, workflowId)
    {
      assert events[i..][0] == events[i] && events[i..][1..] == events[i + 1..];
      if Requested(events[i]) {
        if dispatchHandoffId == "" {
          dispatchHandoffId := StringField(events[i], HandoffId);
        }
        if dispatchWorkflowId == "" {
          dispatchWorkflowId := StringField(events[i], WorkflowId);
        }
        if BoolField(events[i], Accepted) && StringField(events[i], HandoffId) == handoffId
           && StringField(events[i], WorkflowId) == workflowId {
          accepted := true;
        }
      }
    }
    assert events[|events|..] == [];
  }

  /** validateA2ADelivery. */
  function Delivered(content: Json): (r: Option<Delivery>)
    ensures r.Some? ==> r.value.jobId > 0 && r.value.status != ""
  {
    var d := Delivery(StringField(content, Status), IntField(content, JobId), StringField(content, TargetAgent),
                      StringField(content, Bot), IntField(content, ChatId), IntField(content, AttemptCount),
                      StringField(content, LastError));
    if d.status != "sent" && d.status != "failed" && d.status != "retrying" then None
    else if d.jobId <= 0 || d.targetAgent == "" || d.bot == "" || d.chatId <= 0 then None
    else Some(d)
  }

  /** validateSenderJobGet: the job of the delivery, in the status that the delivery reported. */
  function DeliveredJob(content: Json, delivery: Delivery): Option<Json> {
    var job := if HasObject(content, Job) then Field(content, Job) else content;
    if IntField(job, JobId) == delivery.jobId && StringField(job, Status) == delivery.status then Some(job) else None
  }

  /** validateSenderJobList. */
  function ListedJobs(content: Json, jobId: int): Option<seq<Json>> {
    var jobs := ArrayField(content, Jobs);
    if !Field(content, Jobs).Arr? || exists i :: 0 <= i < |jobs| && !jobs[i].Obj? then None
    else if exists i :: 0 <= i < |jobs| && IntField(jobs[i], JobId) == jobId then Some(jobs)
    else None
  }

  /** validateSenderStats: nothing is left to send. */
  predicate Drained(content: Json) {
    && IntField(content, PendingCount) == 0 && IntField(content, RetryCount) == 0
    && IntField(content, SendingCount) == 0
    && Field(content, WorkerRunning) != Bool(false)
  }

  /** validateDeliveryHandoffGet. */
  predicate HandoffShown(content: Json, handoffId: string, workflowId: string) {
    && HasObject(content, Handoff) && NestedString(content, Handoff, Id) == handoffId
    && NestedString(content, Handoff, WorkflowId) == workflowId && Field(content, Timeline).Arr?
  }

  /** validateDeliveryWorkflowStatus. */
  predicate WorkflowShown(content: Json, handoffId: string, workflowId: string) {
    var listed := ListedHandoff(StatusHandoffs(content), handoffId);
    && StatusWorkflow(content).Obj? && StringField(StatusWorkflow(content), Id) == workflowId
    && listed.Obj? && (StringField(listed, WorkflowId) == "" || StringField(listed, WorkflowId) == workflowId)
  }

  // ---------- the flow of a handoff ----------

  datatype Delivering = Delivering(step: nat, ids: Ids, attempt: Json, delivery: Delivery, job: Json, jobs: seq<Json>,
                                   handoff: Json, timeline: seq<Json>)

  const BEGIN := Delivering(0, Ids("", ""), Null, NO_DELIVERY, Null, [], Null, [])

  /** The step counter moves past the tool it waits for, and past no other. */
  function Advance(s: Delivering, content: Json): Turn<Delivering, Summary>
    requires s.step < |TOOLS|
  {
    var next := s.(step := s.step + 1);
    match TOOLS[s.step]
    case HandoffCreate =>
      (match CreatedIds(content) case None => Finish(None) case Some(ids) => Continue(next.(ids := ids)))
    case HandoffDispatch =>
      (match Dispatched(content, s.ids.handoffId, s.ids.workflowId)
       case None => Finish(None)
       case Some(attempt) => Continue(next.(attempt := attempt)))
    case A2ADeliver =>
      (match Delivered(content) case None => Finish(None) case Some(d) => Continue(next.(delivery := d)))
    case SenderJobGet =>
      (match DeliveredJob(content, s.delivery) case None => Finish(None) case Some(job) => Continue(next.(job := job)))
    case SenderJobList =>
      (match ListedJobs(content, s.delivery.jobId)
       case None => Finish(None)
       case Some(jobs) => Continue(next.(jobs := jobs)))
    case HandoffGet =>
      if !HandoffShown(content, s.ids.handoffId, s.ids.workflowId) then Finish(None)
      else Continue(next.(handoff := Field(content, Handoff), timeline := ArrayField(content, Timeline)))
    case _ =>
      if !WorkflowShown(content, s.ids.handoffId, s.ids.workflowId) then Finish(None)
      else Finish(Some(OfHandoff(s.ids.handoffId, s.ids.workflowId, s.attempt, s.delivery, s.job, s.jobs, s.handoff,
                                 s.timeline, content)))
  }

  function Step(s: Delivering, r: ToolResult): Turn<Delivering, Summary> {
    if r.tool.HandoffCreate? && s.step != 0 then Finish(None)
    else if s.step >= |TOOLS| || r.tool != TOOLS[s.step] then Continue(s)
    else Advance(s, r.content)
  }

  function Unfinished(s: Delivering): Option<Summary> {
    None
  }

  const LOOP: Machine<Delivering, Summary> := Machine(Step, Unfinished)

  function HandoffFlow(results: seq<ToolResult>, start: nat): Option<Summary>
    requires start <= |results|
  {
    RunFrom(LOOP, BEGIN, results, start)
  }

  /** summarizeDeliveryFlow. */
  method SummarizeDeliveryFlow(results: seq<ToolResult>, start: nat) returns (payload: Option<Summary>)
    requires start < |results| && results[start].tool.HandoffCreate?
    ensures payload == HandoffFlow(results, start)
  {
    hide CreatedIds;
    hide Dispatched;
    hide Delivered;
    hide DeliveredJob;
    hide ListedJobs;
    hide HandoffShown;
    hide WorkflowShown;
    var handoffId, workflowId := "", "";
    var dispatchAttempt, senderJob, handoff := Null, Null, Null;
    var delivery := NO_DELIVERY;
    var senderJobs, timeline: seq<Json> := [], [];
    var step := 0;
    for i := start to |results|
      invariant step < |TOOLS| && (i > start <==> step >= 1)
      invariant RunFrom(LOOP, BEGIN, results, start)
             == RunFrom(LOOP,
                        Delivering(step, Ids(handoffId, workflowId), dispatchAttempt, delivery, senderJob, senderJobs,
                                         handoff, timeline), results, i)
    {
      var content := results[i].content;
      if i > start && results[i].tool.HandoffCreate? && step < |TOOLS| {
        return None;
      }
      if results[i].tool == TOOLS[step] {
        match results[i].tool {
          case HandoffCreate =>
            var ids := CreatedIds(content);
            if ids.None? { return None; }
            handoffId, workflowId := ids.value.handoffId, ids.value.workflowId;
          case HandoffDispatch =>
            var attempt := Dispatched(content, handoffId, workflowId);
            if attempt.None? { return None; }
            dispatchAttempt := attempt.value;
          case A2ADeliver =>
            var observed := Delivered(content);
            if observed.None? { return None; }
            delivery := observed.value;
          case SenderJobGet =>
            var job := DeliveredJob(content, delivery);
            if job.None? { return None; }
            senderJob := job.value;
          case SenderJobList =>
            var jobs := ListedJobs(content, delivery.jobId);
            if jobs.None? { return None; }
            senderJobs := jobs.value;
          case HandoffGet =>
            if !HandoffShown(content, handoffId, workflowId) { return None; }
            handoff, timeline := Field(content, Handoff), ArrayField(content, Timeline);
          case _ =>
            if !WorkflowShown(content, handoffId, workflowId) { return None; }
            return Some(OfHandoff(handoffId, workflowId, dispatchAttempt, delivery, senderJob, senderJobs, handoff,
                                  timeline,
                                  content));
        }
        step := step + 1;
      }
    }
    return None;
  }

  // ---------- the flow of a delivery alone ----------

  datatype Sending = Sending(step: nat, delivery: Delivery, job: Json)

  const MAIN_BEGIN := Sending(0, NO_DELIVERY, Null)

  function AdvanceMain(s: Sending, content: Json): Turn<Sending, Summary>
    requires s.step < |MAIN_TOOLS|
  {
    var next := s.(step := s.step + 1);
    match MAIN_TOOLS[s.step]
    case A2ADeliver =>
      (match Delivered(content) case None => Finish(None) case Some(d) => Continue(next.(delivery := d)))
    case SenderJobGet =>
      (match DeliveredJob(content, s.delivery) case None => Finish(None) case Some(job) => Continue(next.(job := job)))
    case _ => if Drained(content) then Finish(Some(OfDelivery(s.delivery, s.job, content))) else Finish(None)
  }

  function StepMain(s: Sending, r: ToolResult): Turn<Sending, Summary> {
    if s.step >= |MAIN_TOOLS| || r.tool != MAIN_TOOLS[s.step] then Continue(s) else AdvanceMain(s, r.content)
  }

  function UnfinishedMain(s: Sending): Option<Summary> {
    None
  }

  const MAIN_LOOP: Machine<Sending, Summary> := Machine(StepMain, UnfinishedMain)

  function MainFlow(results: seq<ToolResult>, start: nat): Option<Summary>
    requires start <= |results|
  {
    RunFrom(MAIN_LOOP, MAIN_BEGIN, results, start)
  }

  /** summarizeMainDeliveryFlow. */
  method SummarizeMainDeliveryFlow(results: seq<ToolResult>, start: nat) returns (payload: Option<Summary>)
    requires start < |results|
    ensures payload == MainFlow(results, start)
  {
    hide Delivered;
    hide DeliveredJob;
    hide Drained;
    var delivery, senderJob, step := NO_DELIVERY, Null, 0;
    for i := start to |results|
      invariant step < |MAIN_TOOLS|
      invariant RunFrom(MAIN_LOOP, MAIN_BEGIN, results, start)
        == RunFrom(MAIN_LOOP, Sending(step, delivery, senderJob), results, i)
    {
      var content := results[i].content;
      if results[i].tool == MAIN_TOOLS[step] {
        match results[i].tool {
          case A2ADeliver =>
            var observed := Delivered(content);
            if observed.None? { return None; }
            delivery := observed.value;
          case SenderJobGet =>
            var job := DeliveredJob(content, delivery);
            if job.None? { return None; }
            senderJob := job.value;
          case _ =>
            if !Drained(content) { return None; }
            return Some(OfDelivery(delivery, senderJob, content));
        }
        step := step + 1;
      }
    }
    return None;
  }

  // ---------- choosing ----------

  /** A handoff_create starts the one flow, an a2a_deliver the other. */
  function Flow(results: seq<ToolResult>, start: nat): Option<Summary> {
    if start >= |results| then None
    else if results[start].tool.HandoffCreate? then HandoffFlow(results, start)
    else if results[start].tool.A2ADeliver? then MainFlow(results, start)
    else None
  }

  /** What the trace as a whole yields. */
  function Selected(results: seq<ToolResult>): Option<Chosen<Summary>> {
    Choose(Flow, results, |results|)
  }

  /** summarizeDeliveryResults: the payload of the last flow of either kind that succeeds. */
  method SummarizeDeliveryResults(results: seq<ToolResult>) returns (selected: Option<Chosen<Summary>>)
    ensures selected == Selected(results)
  {
    hide RunFrom;
    selected := None;
    for i := 0 to |results|
      invariant selected == Choose(Flow, results, i)
    {
      var candidate := None;
      if results[i].tool.HandoffCreate? {
        candidate := SummarizeDeliveryFlow(results, i);
      } else if results[i].tool.A2ADeliver? {
        candidate := SummarizeMainDeliveryFlow(results, i);
      }
      if candidate.Some? {
        selected := Some(Chosen(i, candidate.value));
      }
    }
  }

  // ---------- stability ----------

  lemma LoopsAreSettled()
    ensures Settled(LOOP) && Settled(MAIN_LOOP)
  {
    hide Step;
    hide StepMain;
  }

  lemma FlowIsStable()
    ensures Stable(Flow)
  {
    forall results: seq<ToolResult>, more: seq<ToolResult>, i: nat | i < |results| && Flow(results, i).Some?
      ensures Flow(results + more, i) == Flow(results, i)
    {
      LoopsAreSettled();
      hide Settled;
      assert (results + more)[i] == results[i];
      if results[i].tool.HandoffCreate? {
        RunsStably(LOOP, BEGIN, results, more, i);
      } else {
        RunsStably(MAIN_LOOP, MAIN_BEGIN, results, more, i);
      }
    }
  }

  /** An accepted trace stays accepted, and keeps its payload until a later flow succeeds. */
  lemma AcceptanceIsStable(results: seq<ToolResult>, more: seq<ToolResult>)
    requires Selected(results).Some?
    ensures var before := Selected(results).value; var after := Selected(results + more);
      && after.Some? && after.value.start >= before.start
      && (after.value == before <==>
            forall j :: before.start < j < |results + more| ==> Flow(results + more, j).None?)
  {
    FlowIsStable();
    ExtensionStability(Flow, results, more);
  }

  // ---------- soundness ----------

  /** What a result must say to be step k of a handoff flow with that summary. */
  predicate Shows(k: nat, r: ToolResult, p: Summary) {
    && p.OfHandoff? && k < |TOOLS| && r.tool == TOOLS[k]
    && match r.tool
       case HandoffCreate => CreatedIds(r.content) == Some(Ids(p.handoffId, p.workflowId))
       case HandoffDispatch => Dispatched(r.content, p.handoffId, p.workflowId) == Some(p.attempt)
       case A2ADeliver => Delivered(r.content) == Some(p.delivery)
       case SenderJobGet => DeliveredJob(r.content, p.delivery) == Some(p.job)
       case SenderJobList => ListedJobs(r.content, p.delivery.jobId) == Some(p.jobs)
       case HandoffGet =>
         HandoffShown(r.content, p.handoffId, p.workflowId) && Field(r.content, Handoff) == p.handoff
         && ArrayField(r.content, Timeline) == p.timeline
       case _ => WorkflowShown(r.content, p.handoffId, p.workflowId) && r.content == p.workflow
  }

  predicate Agrees(s: Delivering, p: Summary) {
    && p.OfHandoff? && s.step < |TOOLS|
    && (s.step >= 1 ==> s.ids == Ids(p.handoffId, p.workflowId))
    && (s.step >= 2 ==> s.attempt == p.attempt)
    && (s.step >= 3 ==> s.delivery == p.delivery)
    && (s.step >= 4 ==> s.job == p.job)
    && (s.step >= 5 ==> s.jobs == p.jobs)
    && (s.step >= 6 ==> s.handoff == p.handoff && s.timeline == p.timeline)
  }

  const STEPS: Order<Delivering, Summary> :=
    Order(7, (s: Delivering) => true, (s: Delivering) => s.step, Agrees, Shows,
          (r: ToolResult) => r.tool.HandoffCreate?)

  lemma TurnIsInOrder(s: Delivering, r: ToolResult, p: Summary)
    ensures TurnSound(LOOP, STEPS, s, r, p)
  {
    hide CreatedIds;
    hide Dispatched;
    hide Delivered;
    hide DeliveredJob;
    hide ListedJobs;
    hide HandoffShown;
    hide WorkflowShown;
  }

  lemma LoopIsSound()
    ensures Sound(LOOP, STEPS)
  {
    forall s: Delivering, r: ToolResult, p: Summary
      ensures TurnSound(LOOP, STEPS, s, r, p)
    {
      TurnIsInOrder(s, r, p);
    }
    hide TurnSound;
    hide Step;
    hide Agrees;
  }

  /** What a result must say to be step k of a delivery flow with that summary. */
  predicate ShowsMain(k: nat, r: ToolResult, p: Summary) {
    && p.OfDelivery? && k < |MAIN_TOOLS| && r.tool == MAIN_TOOLS[k]
    && match r.tool
       case A2ADeliver => Delivered(r.content) == Some(p.delivery)
       case SenderJobGet => DeliveredJob(r.content, p.delivery) == Some(p.job)
       case _ => Drained(r.content) && r.content == p.stats
  }

  predicate AgreesMain(s: Sending, p: Summary) {
    && p.OfDelivery? && s.step < |MAIN_TOOLS|
    && (s.step >= 1 ==> s.delivery == p.delivery)
    && (s.step >= 2 ==> s.job == p.job)
  }

  const MAIN_STEPS: Order<Sending, Summary> :=
    Order(3, (s: Sending) => true, (s: Sending) => s.step, AgreesMain, ShowsMain, (r: ToolResult) => false)

  lemma MainTurnIsInOrder(s: Sending, r: ToolResult, p: Summary)
    ensures TurnSound(MAIN_LOOP, MAIN_STEPS, s, r, p)
  {
    hide Delivered;
    hide DeliveredJob;
    hide Drained;
  }

  lemma MainLoopIsSound()
    ensures Sound(MAIN_LOOP, MAIN_STEPS)
  {
    forall s: Sending, r: ToolResult, p: Summary
      ensures TurnSound(MAIN_LOOP, MAIN_STEPS, s, r, p)
    {
      MainTurnIsInOrder(s, r, p);
    }
    hide TurnSound;
    hide StepMain;
    hide AgreesMain;
  }

  /** An accepted flow holds its steps in order from its own start on: the seven of a handoff, before any
      other handoff_create, or the three of a delivery. */
  lemma FlowHasPath(results: seq<ToolResult>, start: nat) returns (path: seq<nat>)
    requires Flow(results, start).Some?
    ensures path != [] && path[0] == start
    ensures var p := Flow(results, start).value;
      if results[start].tool.HandoffCreate? then Path(STEPS, results, start, 0, p, path)
      else results[start].tool.A2ADeliver? && Path(MAIN_STEPS, results, start, 0, p, path)
  {
    LoopIsSound();
    MainLoopIsSound();
    hide Sound;
    if results[start].tool.HandoffCreate? {
      path := RunStartsPath(LOOP, STEPS, BEGIN, results, start, Flow(results, start).value);
    } else {
      path := RunStartsPath(MAIN_LOOP, MAIN_STEPS, MAIN_BEGIN, results, start, Flow(results, start).value);
    }
  }

  // ---------- exactly what succeeds ----------

  lemma TurnCounts(s: Delivering, r: ToolResult, p: Summary)
    requires s.step < |TOOLS|
    ensures CountsTurn(LOOP, COUNTED, TOOLS, s, r, p)
  {
    hide CreatedIds;
    hide Dispatched;
    hide Delivered;
    hide DeliveredJob;
    hide ListedJobs;
    hide HandoffShown;
    hide WorkflowShown;
  }

  /** The steps, on the states that still wait for a tool. */
  const COUNTED: Order<Delivering, Summary> := STEPS.(valid := (s: Delivering) => s.step < |TOOLS|)

  lemma LoopCounts()
    ensures Counts(LOOP, COUNTED, TOOLS)
  {
    forall s: Delivering, r: ToolResult, p: Summary | s.step < |TOOLS|
      ensures CountsTurn(LOOP, COUNTED, TOOLS, s, r, p)
    {
      TurnCounts(s, r, p);
    }
    hide CountsTurn;
    hide Step;
    hide Agrees;
  }

  lemma MainTurnCounts(s: Sending, r: ToolResult, p: Summary)
    requires s.step < |MAIN_TOOLS|
    ensures CountsTurn(MAIN_LOOP, MAIN_COUNTED, MAIN_TOOLS, s, r, p)
  {
    hide Delivered;
    hide DeliveredJob;
    hide Drained;
  }

  const MAIN_COUNTED: Order<Sending, Summary> := MAIN_STEPS.(valid := (s: Sending) => s.step < |MAIN_TOOLS|)

  lemma MainLoopCounts()
    ensures Counts(MAIN_LOOP, MAIN_COUNTED, MAIN_TOOLS)
  {
    forall s: Sending, r: ToolResult, p: Summary | s.step < |MAIN_TOOLS|
      ensures CountsTurn(MAIN_LOOP, MAIN_COUNTED, MAIN_TOOLS, s, r, p)
    {
      MainTurnCounts(s, r, p);
    }
    hide CountsTurn;
    hide StepMain;
    hide AgreesMain;
  }

  /** The handoff is seen through from i on: after its create the first result of each tool, one after the
      other, is valid for the summary, and no other create comes in between. */
  ghost predicate SeenThrough(results: seq<ToolResult>, i: nat, p: Summary) {
    i < |results| && results[i].tool.HandoffCreate? && exists path :: FirstPath(COUNTED, TOOLS, results, i, 0, p, path)
  }

  /** A handoff_create starts a successful flow exactly when its handoff is seen through. */
  lemma HandoffFlowExactly(results: seq<ToolResult>, i: nat, p: Summary)
    requires i < |results| && results[i].tool.HandoffCreate?
    ensures HandoffFlow(results, i) == Some(p) <==> SeenThrough(results, i, p)
  {
    LoopCounts();
    hide Counts;
    hide FirstPath;
    hide RunFrom;
    if HandoffFlow(results, i) == Some(p) {
      var path := CountedRunTakesFirsts(LOOP, COUNTED, TOOLS, BEGIN, results, i, p);
    }
    if SeenThrough(results, i, p) {
      var path :| FirstPath(COUNTED, TOOLS, results, i, 0, p, path);
      AgreesAtFirst(p, results, i, path);
      FirstsAreACountedRun(LOOP, COUNTED, TOOLS, BEGIN, results, i, p, path);
    }
  }

  lemma AgreesAtFirst(p: Summary, results: seq<ToolResult>, i: nat, path: seq<nat>)
    requires FirstPath(COUNTED, TOOLS, results, i, 0, p, path)
    ensures Agrees(BEGIN, p)
  {
    assert PathStep(COUNTED, TOOLS, results, i, 0, p, path, 0);
  }

  /** The delivery at j drains: the first sender_job_get after it shows its job, and at the first sender_stats
      after that nothing is left to send. */
  ghost predicate DrainsAt(results: seq<ToolResult>, j: nat, g: nat, h: nat) {
    && j < |results| && results[j].tool.A2ADeliver? && Delivered(results[j].content).Some?
    && FirstFrom(results, j + 1, SenderJobGet, g)
    && DeliveredJob(results[g].content, Delivered(results[j].content).value).Some?
    && FirstFrom(results, g + 1, SenderStats, h) && Drained(results[h].content)
  }

  ghost predicate Drains(results: seq<ToolResult>, j: nat) {
    exists g, h :: DrainsAt(results, j, g, h)
  }

  ghost function DrainedSummary(results: seq<ToolResult>, j: nat, g: nat, h: nat): Summary
    requires DrainsAt(results, j, g, h)
  {
    var delivery := Delivered(results[j].content).value;
    OfDelivery(delivery, DeliveredJob(results[g].content, delivery).value, results[h].content)
  }

  lemma DrainsIsAPath(results: seq<ToolResult>, j: nat, g: nat, h: nat)
    requires DrainsAt(results, j, g, h)
    ensures FirstPath(MAIN_COUNTED, MAIN_TOOLS, results, j, 0, DrainedSummary(results, j, g, h), [j, g, h])
    ensures AgreesMain(MAIN_BEGIN, DrainedSummary(results, j, g, h))
  {
    hide Delivered;
    hide DeliveredJob;
    hide Drained;
    var path, p := [j, g, h], DrainedSummary(results, j, g, h);
    assert PathStep(MAIN_COUNTED, MAIN_TOOLS, results, j, 0, p, path, 0);
    assert PathStep(MAIN_COUNTED, MAIN_TOOLS, results, j, 0, p, path, 1);
    assert PathStep(MAIN_COUNTED, MAIN_TOOLS, results, j, 0, p, path, 2);
    hide PathStep;
  }

  lemma PathDrains(results: seq<ToolResult>, j: nat, p: Summary, path: seq<nat>)
    requires j < |results| && results[j].tool.A2ADeliver? && FirstPath(MAIN_COUNTED, MAIN_TOOLS, results, j, 0, p, path)
    ensures |path| == 3 && DrainsAt(results, j, path[1], path[2]) && p == DrainedSummary(results, j, path[1], path[2])
  {
    hide Delivered;
    hide DeliveredJob;
    hide Drained;
    assert PathStep(MAIN_COUNTED, MAIN_TOOLS, results, j, 0, p, path, 0);
    assert PathStep(MAIN_COUNTED, MAIN_TOOLS, results, j, 0, p, path, 1);
    assert PathStep(MAIN_COUNTED, MAIN_TOOLS, results, j, 0, p, path, 2);
  }

  /** An a2a_deliver starts a successful flow exactly when its delivery drains. */
  lemma MainFlowExactly(results: seq<ToolResult>, j: nat)
    requires j < |results| && results[j].tool.A2ADeliver?
    ensures MainFlow(results, j).Some? <==> Drains(results, j)
    ensures forall g, h :: DrainsAt(results, j, g, h) ==> MainFlow(results, j) == Some(DrainedSummary(results, j, g, h))
  {
    MainLoopCounts();
    hide Counts;
    hide FirstPath;
    hide RunFrom;
    hide DrainsAt;
    hide AgreesMain;
    if MainFlow(results, j).Some? {
      var path := CountedRunTakesFirsts(MAIN_LOOP, MAIN_COUNTED, MAIN_TOOLS, MAIN_BEGIN, results, j,
                                        MainFlow(results, j).value);
      PathDrains(results, j, MainFlow(results, j).value, path);
    }
    forall g, h | DrainsAt(results, j, g, h)
      ensures MainFlow(results, j) == Some(DrainedSummary(results, j, g, h))
    {
      DrainsIsAPath(results, j, g, h);
      FirstsAreACountedRun(MAIN_LOOP, MAIN_COUNTED, MAIN_TOOLS, MAIN_BEGIN, results, j,
                           DrainedSummary(results, j, g, h), [j, g, h]);
    }
  }

  /** Which deliveries are reported with their handoff: the last handoff that is seen through is reported
      exactly when no delivery after its create drains, its own included. */
  lemma HandoffReportedExactly(results: seq<ToolResult>, i: nat, p: Summary)
    requires SeenThrough(results, i, p) && forall k: nat, q :: i < k ==> !SeenThrough(results, k, q)
    ensures Selected(results) == Some(Chosen(i, p)) <==> forall j: nat :: i < j ==> !Drains(results, j)
    ensures (exists j: nat :: i < j && Drains(results, j)) ==>
      Selected(results).Some? && Selected(results).value.start > i && Selected(results).value.payload.OfDelivery?
  {
    HandoffFlowExactly(results, i, p);
    ChoosesLast(Flow, results, |results|);
    assert i < |results| && results[i].tool.HandoffCreate?;
    hide SeenThrough;
    hide Drains;
    hide Choose;
    hide HandoffFlow;
    hide MainFlow;
    forall j: nat | i < j < |results|
      ensures Flow(results, j).Some? <==> Drains(results, j)
      ensures Flow(results, j).Some? ==> Flow(results, j).value.OfDelivery?
    {
      LaterStart(results, i, j);
    }
    forall j: nat | Drains(results, j)
      ensures j < |results|
    {
      DrainsInside(results, j);
    }
    assert Flow(results, i) == Some(p);
    hide Flow;
    if forall j: nat :: i < j ==> !Drains(results, j) {
      LastStartIsChosen(Flow, results, i, p);
    }
  }

  lemma DrainsInside(results: seq<ToolResult>, j: nat)
    requires Drains(results, j)
    ensures j < |results| && results[j].tool.A2ADeliver?
  {
  }

  lemma LaterStart(results: seq<ToolResult>, i: nat, j: nat)
    requires i < j < |results| && forall k: nat, q :: i < k ==> !SeenThrough(results, k, q)
    ensures Flow(results, j).Some? <==> Drains(results, j)
    ensures Flow(results, j).Some? ==> Flow(results, j).value.OfDelivery?
  {
    hide SeenThrough;
    hide HandoffFlow;
    hide MainFlow;
    hide DrainsAt;
    if results[j].tool.HandoffCreate? {
      if HandoffFlow(results, j).Some? {
        HandoffFlowExactly(results, j, HandoffFlow(results, j).value);
      }
      NoDrainAtCreate(results, j);
    } else if results[j].tool.A2ADeliver? {
      MainFlowExactly(results, j);
    } else {
      NoDrainAtCreate(results, j);
    }
  }

  lemma NoDrainAtCreate(results: seq<ToolResult>, j: nat)
    requires j < |results| && !results[j].tool.A2ADeliver?
    ensures !Drains(results, j)
  {
  }

  /** The steps of a handoff flow, one after the other from position n on, and then a drained sender_stats. */
  ghost predicate ThenDrained(results: seq<ToolResult>, n: nat, p: Summary) {
    && |results| == n + 8
    && (forall k :: 0 <= k < |TOOLS| ==> results[n + k].tool == TOOLS[k])
    && Shows(2, results[n + 2], p) && Shows(3, results[n + 3], p)
    && results[n + 7].tool.SenderStats? && Drained(results[n + 7].content)
  }

  /** The two kinds of flow overlap: a handoff seen through to the end, followed by a drained sender_stats,
      is reported as a bare delivery, because its own a2a_deliver is the later start. */
  lemma StatsReplaceTheHandoff(before: seq<ToolResult>, steps: seq<ToolResult>, stats: ToolResult, p: Summary)
    requires |steps| == |TOOLS| && forall k :: 0 <= k < |TOOLS| ==> Shows(k, steps[k], p)
    requires stats.tool.SenderStats? && Drained(stats.content)
    ensures var results := before + steps + [stats];
      Selected(results) == Some(Chosen(|before| + 2, OfDelivery(p.delivery, p.job, stats.content)))
  {
    var results := before + steps + [stats];
    StepsThenStats(before, steps, stats, p);
    assert results[|before| + 7] == stats;
    hide Shows;
    hide Drained;
    DrainedIsChosen(results, |before|, p);
    hide ThenDrained;
    hide Choose;
  }

  lemma StepsThenStats(before: seq<ToolResult>, steps: seq<ToolResult>, stats: ToolResult, p: Summary)
    requires |steps| == |TOOLS| && forall k :: 0 <= k < |TOOLS| ==> Shows(k, steps[k], p)
    requires stats.tool.SenderStats? && Drained(stats.content)
    ensures ThenDrained(before + steps + [stats], |before|, p)
  {
    var results, n := before + steps + [stats], |before|;
    forall k | 0 <= k < |TOOLS|
      ensures results[n + k] == steps[k] && steps[k].tool == TOOLS[k]
    {
      assert Shows(k, steps[k], p);
    }
    assert results[n + 7] == stats && results[n + 2] == steps[2] && results[n + 3] == steps[3];
    hide Shows;
    hide Drained;
  }

  lemma DrainedIsChosen(results: seq<ToolResult>, n: nat, p: Summary)
    requires ThenDrained(results, n, p)
    ensures Selected(results) == Some(Chosen(n + 2, OfDelivery(p.delivery, p.job, results[n + 7].content)))
  {
    assert |results| == n + 8;
    MainFlowSucceeds(results, n, p);
    NoLaterStart(results, n, p);
    hide Flow;
    hide Choose;
    hide ThenDrained;
    LastStartIsChosen(Flow, results, n + 2, OfDelivery(p.delivery, p.job, results[n + 7].content));
  }

  lemma NoLaterStart(results: seq<ToolResult>, n: nat, p: Summary)
    requires ThenDrained(results, n, p)
    ensures forall j :: n + 2 < j < |results| ==> Flow(results, j).None?
  {
    hide Shows;
    hide Drained;
    hide RunFrom;
    forall j | n + 2 < j < |results|
      ensures Flow(results, j).None?
    {
      if j < n + 7 {
        var k := j - n;
        assert results[n + k].tool == TOOLS[k];
      }
    }
  }

  lemma MainTurn(s: Sending, t: Sending, results: seq<ToolResult>, i: nat)
    requires i < |results| && StepMain(s, results[i]) == Continue(t)
    ensures RunFrom(MAIN_LOOP, s, results, i) == RunFrom(MAIN_LOOP, t, results, i + 1)
  {
    hide StepMain;
  }

  lemma MainFlowSucceeds(results: seq<ToolResult>, n: nat, p: Summary)
    requires ThenDrained(results, n, p)
    ensures Flow(results, n + 2) == Some(OfDelivery(p.delivery, p.job, results[n + 7].content))
  {
    hide Delivered;
    hide DeliveredJob;
    hide Drained;
    var one, two := Sending(1, p.delivery, Null), Sending(2, p.delivery, p.job);
    assert results[n + 2].tool == TOOLS[2] && results[n + 3].tool == TOOLS[3] && results[n + 4].tool == TOOLS[4]
        && results[n + 5].tool == TOOLS[5] && results[n + 6].tool == TOOLS[6];
    assert StepMain(two, results[n + 7]) == Finish(Some(OfDelivery(p.delivery, p.job, results[n + 7].content)));
    MainTurn(MAIN_BEGIN, one, results, n + 2);
    MainTurn(one, two, results, n + 3);
    MainTurn(two, two, results, n + 4);
    MainTurn(two, two, results, n + 5);
    MainTurn(two, two, results, n + 6);
    assert RunFrom(MAIN_LOOP, two, results, n + 7) == Some(OfDelivery(p.delivery, p.job, results[n + 7].content));
  }

  // ---------- what the steps say, member by member ----------

  predicate RequestNames(event: Json, key: Key) {
    Says(event, Type, "transport_requested") && Speaks(event, key)
  }

  /** The attempt names the id, or else the first transport request that names one. */
  ghost predicate NamedIn(attempt: Json, events: seq<Json>, key: Key, id: string) {
    if Speaks(attempt, key) then Says(attempt, key, id)
    else RequestSays(events, key, id)
  }

  /** The first transport request that names such an id. */
  ghost predicate IsFirstRequest(events: seq<Json>, i: int, key: Key) {
    0 <= i < |events| && RequestNames(events[i], key) && forall j :: 0 <= j < i ==> !RequestNames(events[j], key)
  }

  ghost predicate RequestSays(events: seq<Json>, key: Key, id: string) {
    exists i :: IsFirstRequest(events, i, key) && 0 <= i < |events| && Says(events[i], key, id)
  }

  predicate IsAttempt(content: Json, attempt: Json) {
    if content.Obj? && Attempt in content.fields && content.fields[Attempt].Obj?
    then attempt == content.fields[Attempt]
    else attempt == Obj(map[])
  }

  /** The dispatch names both ids, and some event is an accepted request for them. */
  ghost predicate AttemptSays(content: Json, handoffId: string, workflowId: string, attempt: Json) {
    && IsAttempt(content, attempt)
    && exists events: seq<Json> ::
         && Lists(content, Events, events)
         && NamedIn(attempt, events, HandoffId, handoffId) && NamedIn(attempt, events, WorkflowId, workflowId)
         && exists i :: 0 <= i < |events| && EventSays(events[i], handoffId, workflowId)
  }

  /** A delivery with a known status, a job, an agent, a bot and a chat. */
  predicate DeliverySays(content: Json, d: Delivery) {
    && d.status in {"sent", "failed", "retrying"} && Says(content, Status, d.status)
    && d.jobId > 0 && Has(content, JobId, Num(d.jobId))
    && d.targetAgent != "" && Says(content, TargetAgent, d.targetAgent)
    && d.bot != "" && Says(content, Bot, d.bot)
    && d.chatId > 0 && Has(content, ChatId, Num(d.chatId))
    && Amounts(content, AttemptCount, d.attemptCount) && Words(content, LastError, d.lastError)
  }

  /** The job of the delivery, in its status. */
  predicate JobSays(content: Json, d: Delivery, job: Json) {
    IsInner(content, Job, job) && Has(job, JobId, Num(d.jobId)) && Says(job, Status, d.status)
  }

  ghost predicate JobsSay(content: Json, jobId: int, jobs: seq<Json>) {
    && Lists(content, Jobs, jobs) && (forall i :: 0 <= i < |jobs| ==> jobs[i].Obj?)
    && exists i :: 0 <= i < |jobs| && Has(jobs[i], JobId, Num(jobId))
  }

  /** Nothing is pending, waiting or being sent, and the worker is not said to have stopped. */
  predicate StatsSay(content: Json) {
    && Amounts(content, PendingCount, 0) && Amounts(content, RetryCount, 0) && Amounts(content, SendingCount, 0)
    && !Has(content, WorkerRunning, Bool(false))
  }

  predicate HandoffSays(content: Json, p: Summary)
    requires p.OfHandoff?
  {
    && Has(content, Handoff, p.handoff) && Says(p.handoff, Id, p.handoffId)
    && Says(p.handoff, WorkflowId, p.workflowId) && Lists(content, Timeline, p.timeline)
  }

  /** The workflow with that id, and the handoff listed in no other. */
  ghost predicate WorkflowSays(content: Json, handoffId: string, workflowId: string) {
    && (exists workflow :: IsWorkflow(content, workflow) && Says(workflow, Id, workflowId))
    && exists handoffs: seq<Json>, i :: IsHandoffList(content, handoffs) && IsListed(handoffs, i, handoffId)
         && (Speaks(handoffs[i], WorkflowId) ==> Says(handoffs[i], WorkflowId, workflowId))
  }

  ghost predicate StepSays(k: nat, r: ToolResult, p: Summary) {
    && p.OfHandoff? && k < |TOOLS| && r.tool == TOOLS[k]
    && if k == 0 then CreateSays(r.content, p.handoffId, p.workflowId)
       else if k == 1 then AttemptSays(r.content, p.handoffId, p.workflowId, p.attempt)
       else if k == 2 then DeliverySays(r.content, p.delivery)
       else if k == 3 then JobSays(r.content, p.delivery, p.job)
       else if k == 4 then JobsSay(r.content, p.delivery.jobId, p.jobs)
       else if k == 5 then HandoffSays(r.content, p)
       else WorkflowSays(r.content, p.handoffId, p.workflowId) && r.content == p.workflow
  }

  ghost predicate MainStepSays(k: nat, r: ToolResult, p: Summary) {
    && p.OfDelivery? && k < |MAIN_TOOLS| && r.tool == MAIN_TOOLS[k]
    && if k == 0 then DeliverySays(r.content, p.delivery)
       else if k == 1 then JobSays(r.content, p.delivery, p.job)
       else StatsSay(r.content) && r.content == p.stats
  }

  lemma RequestNamesExactly(event: Json, key: Key)
    ensures RequestNames(event, key) <==> Requested(event) && StringField(event, key) != ""
  {
    ReadsString(event, Type, "transport_requested");
    ReadsString(event, key, "");
    SaysIsObject(event, Type, "transport_requested");
    hide StringField;
    hide Says;
    hide Speaks;
  }

  lemma FirstRequestMoves(events: seq<Json>, key: Key, i: int)
    requires events != [] && !RequestNames(events[0], key)
    ensures IsFirstRequest(events, i, key) ==> i > 0 && IsFirstRequest(events[1..], i - 1, key)
    ensures IsFirstRequest(events[1..], i, key) ==> IsFirstRequest(events, i + 1, key)
  {
    hide RequestNames;
    if IsFirstRequest(events[1..], i, key) {
      FirstRequestLater(events, i, key);
    }
  }

  lemma RequestSaysLater(events: seq<Json>, key: Key, id: string)
    requires events != [] && !RequestNames(events[0], key)
    ensures RequestSays(events, key, id) <==> RequestSays(events[1..], key, id)
  {
    hide Says;
    hide RequestNames;
    hide IsFirstRequest;
    if RequestSays(events, key, id) {
      var i :| IsFirstRequest(events, i, key) && 0 <= i < |events| && Says(events[i], key, id);
      FirstRequestMoves(events, key, i);
      assert events[1..][i - 1] == events[i];
    }
    if RequestSays(events[1..], key, id) {
      var i :| IsFirstRequest(events[1..], i, key) && 0 <= i < |events| - 1 && Says(events[1..][i], key, id);
      FirstRequestMoves(events, key, i);
      assert events[1..][i] == events[i + 1];
    }
  }

  lemma RequestSaysFirst(events: seq<Json>, key: Key, id: string)
    requires events != [] && RequestNames(events[0], key)
    ensures RequestSays(events, key, id) <==> Says(events[0], key, id)
  {
    hide Says;
    hide RequestNames;
    assert IsFirstRequest(events, 0, key);
    forall i | IsFirstRequest(events, i, key)
      ensures i == 0
    {
    }
  }

  lemma {:induction false} RequestedIs(events: seq<Json>, key: Key, id: string)
    requires id != ""
    ensures RequestedId(events, key) == id <==> RequestSays(events, key, id)
  {
    hide Says;
    hide RequestNames;
    hide Requested;
    hide StringField;
    if events == [] {
      assert !RequestSays(events, key, id);
    } else {
      RequestNamesExactly(events[0], key);
      ReadsString(events[0], key, id);
      hide RequestSays;
      if RequestNames(events[0], key) {
        RequestSaysFirst(events, key, id);
      } else {
        RequestSaysLater(events, key, id);
        RequestedIs(events[1..], key, id);
      }
    }
  }

  lemma FirstRequestLater(events: seq<Json>, i: int, key: Key)
    requires events != [] && !RequestNames(events[0], key) && IsFirstRequest(events[1..], i, key)
    ensures IsFirstRequest(events, i + 1, key)
  {
    hide RequestNames;
    forall j | 0 <= j < i + 1
      ensures !RequestNames(events[j], key)
    {
      if j > 0 {
        assert events[1..][j - 1] == events[j];
      }
    }
  }

  lemma NamedExactly(attempt: Json, events: seq<Json>, key: Key, id: string)
    requires id != ""
    ensures FirstNonEmpty(StringField(attempt, key), RequestedId(events, key)) == id
      <==> NamedIn(attempt, events, key, id)
  {
    ReadsString(attempt, key, id);
    RequestedIs(events, key, id);
    hide StringField;
    hide Says;
    hide Speaks;
    hide RequestedId;
    hide RequestSays;
  }

  lemma AttemptExactly(content: Json, handoffId: string, workflowId: string, attempt: Json)
    requires handoffId != "" && workflowId != ""
    ensures Dispatched(content, handoffId, workflowId) == Some(attempt) <==>
      AttemptSays(content, handoffId, workflowId, attempt)
  {
    var events := ArrayField(content, Events);
    assert IsAttempt(content, attempt) <==> attempt == ObjectField(content, Attempt);
    NamedExactly(ObjectField(content, Attempt), events, HandoffId, handoffId);
    NamedExactly(ObjectField(content, Attempt), events, WorkflowId, workflowId);
    ReadsArray(content, Events, events);
    forall event
      ensures AcceptedEvent(event, handoffId, workflowId) <==> EventSays(event, handoffId, workflowId)
    {
      EventExactly(event, handoffId, workflowId);
    }
    forall all | Lists(content, Events, all)
      ensures all == events
    {
      ReadsArray(content, Events, all);
    }
    hide IsAttempt;
    hide ObjectField;
    hide ArrayField;
    hide Lists;
    hide AcceptedEvent;
    hide EventSays;
    hide NamedIn;
    hide RequestedId;
    hide StringField;
    hide FirstNonEmpty;
  }

  lemma DeliveryExactly(content: Json, d: Delivery)
    ensures Delivered(content) == Some(d) <==> DeliverySays(content, d)
  {
    ReadsString(content, Status, d.status);
    ReadsInt(content, JobId, d.jobId);
    ReadsString(content, TargetAgent, d.targetAgent);
    ReadsString(content, Bot, d.bot);
    ReadsInt(content, ChatId, d.chatId);
    ReadsAny(content, AttemptCount, d.attemptCount, "");
    ReadsAny(content, LastError, 0, d.lastError);
    hide StringField;
    hide IntField;
    hide Says;
    hide Has;
    hide Amounts;
    hide Words;
  }

  lemma JobExactly(content: Json, d: Delivery, job: Json)
    requires d.jobId != 0 && d.status != ""
    ensures DeliveredJob(content, d) == Some(job) <==> JobSays(content, d, job)
  {
    ReadsInt(job, JobId, d.jobId);
    ReadsString(job, Status, d.status);
    hide StringField;
    hide IntField;
    hide Says;
    hide Has;
  }

  lemma JobsExactly(content: Json, jobId: int, jobs: seq<Json>)
    requires jobId != 0
    ensures ListedJobs(content, jobId) == Some(jobs) <==> JobsSay(content, jobId, jobs)
  {
    var listed := ArrayField(content, Jobs);
    ReadsArray(content, Jobs, listed);
    ReadsArray(content, Jobs, jobs);
    forall job
      ensures IntField(job, JobId) == jobId <==> Has(job, JobId, Num(jobId))
    {
      ReadsInt(job, JobId, jobId);
    }
    hide ArrayField;
    hide IntField;
    hide Has;
    hide Field;
    hide Lists;
  }

  lemma StatsExactly(content: Json)
    ensures Drained(content) <==> StatsSay(content)
  {
    ReadsAny(content, PendingCount, 0, "");
    ReadsAny(content, RetryCount, 0, "");
    ReadsAny(content, SendingCount, 0, "");
    hide IntField;
    hide Amounts;
  }

  lemma HandoffExactly(content: Json, p: Summary)
    requires p.OfHandoff? && p.handoffId != "" && p.workflowId != ""
    ensures HandoffShown(content, p.handoffId, p.workflowId) && Field(content, Handoff) == p.handoff
            && ArrayField(content, Timeline) == p.timeline
       <==> HandoffSays(content, p)
  {
    ReadsNested(content, Handoff, Id, p.handoffId);
    ReadsNested(content, Handoff, WorkflowId, p.workflowId);
    ReadsArray(content, Timeline, p.timeline);
    hide NestedString;
  }

  lemma WorkflowExactly(content: Json, handoffId: string, workflowId: string)
    requires handoffId != "" && workflowId != ""
    ensures WorkflowShown(content, handoffId, workflowId) <==> WorkflowSays(content, handoffId, workflowId)
  {
    StatusWorkflowIs(content);
    var workflow, handoffs := StatusWorkflow(content), StatusHandoffs(content);
    ReadsString(workflow, Id, workflowId);
    ListedIs(handoffs, handoffId);
    ReadsString(ListedHandoff(handoffs, handoffId), WorkflowId, workflowId);
    HandoffListIs(content, handoffs);
    assert handoffs == [] ==> ListedHandoff(handoffs, handoffId) == Null;
    forall all | IsHandoffList(content, all)
      ensures all == handoffs
    {
      HandoffListIs(content, all);
    }
    hide StatusWorkflow;
    hide StatusHandoffs;
    hide ListedHandoff;
    hide IsWorkflow;
    hide IsListed;
    hide IsHandoffList;
    hide StringField;
    hide Says;
    hide Speaks;
  }

  /** A result is a valid step exactly when it says what the step needs. */
  lemma StepExactly(k: nat, r: ToolResult, p: Summary)
    requires p.OfHandoff? && p.handoffId != "" && p.workflowId != "" && p.delivery.jobId != 0 && p.delivery.status != ""
    ensures Shows(k, r, p) <==> StepSays(k, r, p)
  {
    hide CreatedIds;
    hide CreateSays;
    hide Dispatched;
    hide AttemptSays;
    hide Delivered;
    hide DeliverySays;
    hide DeliveredJob;
    hide JobSays;
    hide ListedJobs;
    hide JobsSay;
    hide HandoffShown;
    hide HandoffSays;
    hide WorkflowShown;
    hide WorkflowSays;
    hide Field;
    hide ArrayField;
    if k == 0 {
      CreateExactly(r.content, p.handoffId, p.workflowId);
    } else if k == 1 {
      AttemptExactly(r.content, p.handoffId, p.workflowId, p.attempt);
    } else if k == 2 {
      DeliveryExactly(r.content, p.delivery);
    } else if k == 3 {
      JobExactly(r.content, p.delivery, p.job);
    } else if k == 4 {
      JobsExactly(r.content, p.delivery.jobId, p.jobs);
    } else if k == 5 {
      HandoffExactly(r.content, p);
    } else {
      WorkflowExactly(r.content, p.handoffId, p.workflowId);
    }
  }

  lemma MainStepExactly(k: nat, r: ToolResult, p: Summary)
    requires p.OfDelivery? && p.delivery.jobId != 0 && p.delivery.status != ""
    ensures ShowsMain(k, r, p) <==> MainStepSays(k, r, p)
  {
    hide Delivered;
    hide DeliverySays;
    hide DeliveredJob;
    hide JobSays;
    hide Drained;
    hide StatsSay;
    DeliveryExactly(r.content, p.delivery);
    JobExactly(r.content, p.delivery, p.job);
    StatsExactly(r.content);
  }

  lemma StepsNameAll(k: nat, r: ToolResult, p: Summary)
    ensures Shows(k, r, p) && k == 0 ==> p.handoffId != "" && p.workflowId != ""
    ensures Shows(k, r, p) && k == 2 ==> p.delivery.jobId > 0 && p.delivery.status != ""
    ensures ShowsMain(k, r, p) && k == 0 ==> p.delivery.jobId > 0 && p.delivery.status != ""
  {
    hide Dispatched;
    hide DeliveredJob;
    hide ListedJobs;
    hide HandoffShown;
    hide WorkflowShown;
    hide Drained;
    hide NestedString;
    hide StringField;
    hide IntField;
  }

  /** A delivery that succeeds holds, at increasing positions from its start, the seven results, or the three,
      that say what it reports. */
  lemma FlowSays(results: seq<ToolResult>, start: nat) returns (path: seq<nat>)
    requires Flow(results, start).Some?
    ensures path != [] && path[0] == start
    ensures forall j, k :: 0 <= j < k < |path| ==> path[j] < path[k]
    ensures var p := Flow(results, start).value;
      && |path| == (if p.OfHandoff? then |TOOLS| else |MAIN_TOOLS|)
      && forall k :: 0 <= k < |path| ==>
           path[k] < |results| && if p.OfHandoff? then StepSays(k, results[path[k]], p)
           else MainStepSays(k, results[path[k]], p)
  {
    path := FlowHasPath(results, start);
    var p := Flow(results, start).value;
    var handoff := results[start].tool.HandoffCreate?;
    hide Flow;
    hide Shows;
    hide ShowsMain;
    forall k | 0 <= k < |path|
      ensures path[k] < |results| && if handoff then Shows(k, results[path[k]], p)
      else ShowsMain(k, results[path[k]], p)
    {
    }
    KindShown(results[path[0]], p);
    StepsNameAll(0, results[path[0]], p);
    if handoff {
      StepsNameAll(2, results[path[2]], p);
    }
    forall k | 0 <= k < |path|
      ensures if handoff then StepSays(k, results[path[k]], p) else MainStepSays(k, results[path[k]], p)
    {
      if handoff {
        StepExactly(k, results[path[k]], p);
      } else {
        MainStepExactly(k, results[path[k]], p);
      }
    }
  }

  lemma KindShown(r: ToolResult, p: Summary)
    ensures Shows(0, r, p) ==> p.OfHandoff?
    ensures ShowsMain(0, r, p) ==> p.OfDelivery?
  {
    hide CreatedIds;
    hide Delivered;
  }
}
