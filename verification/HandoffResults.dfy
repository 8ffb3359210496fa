/** Reading the results of the handoff tools, as the truth-plane extractors under cmd/ all do. */
module HandoffResults {
  import opened Options
  import opened Text
  import opened Json

  datatype Tool =
    | OtherTool
    | HandoffCreate | HandoffDispatch | HandoffProgress | HandoffGet | WorkflowStatus
    | DivergenceList | RepairCandidateList | RepairReopenHandoff
    | RepairInvalidateEvent | RepairBackfillEvent | RepairList
    | WatchList | WatchUpdate | OwnershipUpdate | OwnershipGet
    | A2ADeliver | SenderJobGet | SenderJobList | SenderStats

  /** The name of a tool in a trajectory. */
  function ToolName(tool: Tool): string {
    match tool
    case OtherTool => ""
    case HandoffCreate => "handoff_create"
    case HandoffDispatch => "handoff_dispatch"
    case HandoffProgress => "handoff_progress"
    case HandoffGet => "handoff_get"
    case WorkflowStatus => "workflow_status"
    case DivergenceList => "divergence_list"
    case RepairCandidateList => "repair_candidate_list"
    case RepairReopenHandoff => "repair_reopen_handoff"
    case RepairInvalidateEvent => "repair_invalidate_event"
    case RepairBackfillEvent => "repair_backfill_event"
    case RepairList => "repair_list"
    case WatchList => "watch_list"
    case WatchUpdate => "watch_update"
    case OwnershipUpdate => "ownership_update"
    case OwnershipGet => "ownership_get"
    case A2ADeliver => "a2a_deliver"
    case SenderJobGet => "sender_job_get"
    case SenderJobList => "sender_job_list"
    case SenderStats => "sender_stats"
  }

  datatype ToolResult = ToolResult(tool: Tool, content: Json)

  datatype ProgressionStep = ProgressionStep(action: string, state: string)

  const PROGRESSIONS: seq<ProgressionStep> := [
    ProgressionStep("receive", "received"), ProgressionStep("claim", "claimed"), ProgressionStep("start", "started"),
    ProgressionStep("checkpoint", "checkpointed"), ProgressionStep("complete", "completed")
  ]

  datatype Ids = Ids(handoffId: string, workflowId: string)

  /** handoffCreateIDs. */
  function CreatedIds(content: Json): (r: Option<Ids>)
    ensures r.Some? ==> r.value.handoffId != "" && r.value.workflowId != ""
  {
    var handoffId := NestedString(content, Handoff, Id);
    var workflowId := FirstNonEmpty(NestedString(content, Handoff, WorkflowId), NestedString(content, Workflow, Id));
    if handoffId == "" || workflowId == "" then None else Some(Ids(handoffId, workflowId))
  }

  function FirstEvent(content: Json): Json {
    var events := ArrayField(content, Events);
    if events != [] && events[0].Obj? then events[0] else Null
  }

  predicate AcceptedEvent(event: Json, handoffId: string, workflowId: string) {
    && event.Obj? && StringField(event, Type) == "transport_requested" && BoolField(event, Accepted)
    && StringField(event, HandoffId) == handoffId && StringField(event, WorkflowId) == workflowId
  }

  /** The attempt, or else the first event, names the handoff, and the first event its workflow. */
  predicate DispatchNames(content: Json, handoffId: string, workflowId: string) {
    && FirstNonEmpty(NestedString(content, Attempt, HandoffId), StringField(FirstEvent(content), HandoffId))
       == handoffId
    && StringField(FirstEvent(content), WorkflowId) == workflowId
  }

  /** validateDispatch: a dispatch of the handoff that some event accepts. */
  predicate DispatchValid(content: Json, handoffId: string, workflowId: string) {
    var events := ArrayField(content, Events);
    && DispatchNames(content, handoffId, workflowId)
    && exists i :: 0 <= i < |events| && AcceptedEvent(events[i], handoffId, workflowId)
  }

  /** progressionFromContent: the action and the state of an accepted decision. */
  function ReadProgression(content: Json): Option<ProgressionStep> {
    if !BoolField(Field(content, Decision), Accepted) then None
    else Some(ProgressionStep(TrimPrefix(StringField(content, Action), "handoff."),
                              FirstNonEmpty(NestedString(content, Handoff, State),
                                            NestedString(content, Decision, Next))))
  }

  /** progressionIDs: the handoff, or else the event, names the ids. */
  predicate ProgressionNames(content: Json, handoffId: string, workflowId: string) {
    && FirstNonEmpty(NestedString(content, Handoff, Id), NestedString(content, Event, HandoffId)) == handoffId
    && FirstNonEmpty(NestedString(content, Handoff, WorkflowId), NestedString(content, Event, WorkflowId)) == workflowId
  }

  /** validateProgression. */
  predicate ProgressionValid(content: Json, expected: ProgressionStep, handoffId: string, workflowId: string) {
    ReadProgression(content) == Some(expected) && ProgressionNames(content, handoffId, workflowId)
  }

  function RepairSource(content: Json): Json {
    if HasObject(content, Repair) then Field(content, Repair) else content
  }

  /** handoff_get shows the handoff, in that state. */
  predicate FinalHandoffValid(content: Json, handoffId: string, workflowId: string, state: string) {
    && NestedString(content, Handoff, Id) == handoffId && handoffId != ""
    && NestedString(content, Handoff, WorkflowId) == workflowId && workflowId != ""
    && NestedString(content, Handoff, State) == state && state != ""
  }

  /** The first handoff of the list with that id. */
  function ListedHandoff(handoffs: seq<Json>, handoffId: string): Json {
    if handoffs == [] then Null
    else if handoffs[0].Obj? && StringField(handoffs[0], Id) == handoffId then handoffs[0]
    else ListedHandoff(handoffs[1..], handoffId)
  }

  function StatusHandoffs(content: Json): seq<Json> {
    if Field(content, Handoffs).Arr? then ArrayField(content, Handoffs) else ArrayField(content, UpperHandoffs)
  }

  function StatusWorkflow(content: Json): Json {
    if HasObject(content, Workflow) then Field(content, Workflow) else Field(content, UpperWorkflow)
  }

  // ---------- what valid results say, member by member ----------

  predicate CreateSays(content: Json, handoffId: string, workflowId: string) {
    && SaysIn(content, Handoff, Id, handoffId)
    && if SpeaksIn(content, Handoff, WorkflowId) then SaysIn(content, Handoff, WorkflowId, workflowId)
       else SaysIn(content, Workflow, Id, workflowId)
  }

  predicate EventSays(event: Json, handoffId: string, workflowId: string) {
    && Says(event, Type, "transport_requested") && Confirms(event, Accepted)
    && Says(event, HandoffId, handoffId) && Says(event, WorkflowId, workflowId)
  }

  predicate FirstEventSays(content: Json, events: seq<Json>, handoffId: string, workflowId: string) {
    && events != [] && Says(events[0], WorkflowId, workflowId)
    && if SpeaksIn(content, Attempt, HandoffId) then SaysIn(content, Attempt, HandoffId, handoffId)
       else Says(events[0], HandoffId, handoffId)
  }

  /** The first event and the attempt name the ids, and some event is an accepted request for them. */
  ghost predicate DispatchSays(content: Json, handoffId: string, workflowId: string) {
    exists events :: Lists(content, Events, events) && FirstEventSays(content, events, handoffId, workflowId)
                     && exists i :: 0 <= i < |events| && EventSays(events[i], handoffId, workflowId)
  }

  predicate AcceptsDecision(content: Json) {
    content.Obj? && Decision in content.fields && Confirms(content.fields[Decision], Accepted)
  }

  /** An accepted decision with that action, bare or as a handoff action, that state and those ids: of the
      handoff, or else of the decision and the event. */
  predicate ProgressSays(content: Json, step: ProgressionStep, handoffId: string, workflowId: string) {
    && AcceptsDecision(content)
    && (Says(content, Action, step.action) || Says(content, Action, "handoff." + step.action))
    && (if SpeaksIn(content, Handoff, State) then SaysIn(content, Handoff, State, step.state)
        else SaysIn(content, Decision, Next, step.state))
    && (if SpeaksIn(content, Handoff, Id) then SaysIn(content, Handoff, Id, handoffId)
        else SaysIn(content, Event, HandoffId, handoffId))
    && if SpeaksIn(content, Handoff, WorkflowId) then SaysIn(content, Handoff, WorkflowId, workflowId)
       else SaysIn(content, Event, WorkflowId, workflowId)
  }

  predicate GetSays(content: Json, handoffId: string, workflowId: string, state: string) {
    && SaysIn(content, Handoff, Id, handoffId) && SaysIn(content, Handoff, WorkflowId, workflowId)
    && SaysIn(content, Handoff, State, state)
  }

  /** The object under that key, when there is one, else the value itself. */
  predicate IsInner(value: Json, key: Key, inner: Json) {
    if value.Obj? && key in value.fields && value.fields[key].Obj? then inner == value.fields[key] else inner == value
  }

  /** The workflow of a workflow_status: the object under the lower-case name, or else the other one. */
  predicate IsWorkflow(content: Json, workflow: Json) {
    && workflow.Obj?
    && if content.Obj? && Workflow in content.fields && content.fields[Workflow].Obj?
       then workflow == content.fields[Workflow]
       else Has(content, UpperWorkflow, workflow)
  }

  /** The first listed handoff with that id. */
  ghost predicate IsListed(handoffs: seq<Json>, i: int, handoffId: string) {
    && 0 <= i < |handoffs| && Says(handoffs[i], Id, handoffId)
    && forall j :: 0 <= j < i ==> !Says(handoffs[j], Id, handoffId)
  }

  /** The list of handoffs under the lower-case name, or else under the other one. */
  predicate IsHandoffList(content: Json, handoffs: seq<Json>) {
    if content.Obj? && Handoffs in content.fields && content.fields[Handoffs].Arr?
    then content.fields[Handoffs] == Arr(handoffs)
    else Lists(content, UpperHandoffs, handoffs)
  }

  lemma CreateExactly(content: Json, handoffId: string, workflowId: string)
    requires handoffId != "" && workflowId != ""
    ensures CreatedIds(content) == Some(Ids(handoffId, workflowId)) <==> CreateSays(content, handoffId, workflowId)
  {
    ReadsNested(content, Handoff, Id, handoffId);
    ReadsNested(content, Handoff, WorkflowId, workflowId);
    ReadsNested(content, Workflow, Id, workflowId);
    hide NestedString;
    hide SaysIn;
    hide SpeaksIn;
  }

  lemma EventExactly(event: Json, handoffId: string, workflowId: string)
    requires handoffId != "" && workflowId != ""
    ensures AcceptedEvent(event, handoffId, workflowId) <==> EventSays(event, handoffId, workflowId)
  {
    ReadsString(event, Type, "transport_requested");
    ReadsString(event, HandoffId, handoffId);
    ReadsString(event, WorkflowId, workflowId);
    ReadsBool(event, Accepted);
    hide StringField;
    hide BoolField;
  }

  lemma FirstEventExactly(content: Json, handoffId: string, workflowId: string)
    requires handoffId != "" && workflowId != ""
    ensures DispatchNames(content, handoffId, workflowId) <==>
      FirstEventSays(content, ArrayField(content, Events), handoffId, workflowId)
  {
    ReadsNested(content, Attempt, HandoffId, handoffId);
    var event := FirstEvent(content);
    ReadsString(event, HandoffId, handoffId);
    ReadsString(event, WorkflowId, workflowId);
    hide StringField;
    hide NestedString;
    hide SaysIn;
    hide SpeaksIn;
    hide ArrayField;
  }

  lemma DispatchExactly(content: Json, handoffId: string, workflowId: string)
    requires handoffId != "" && workflowId != ""
    ensures DispatchValid(content, handoffId, workflowId) <==> DispatchSays(content, handoffId, workflowId)
  {
    var events := ArrayField(content, Events);
    FirstEventExactly(content, handoffId, workflowId);
    ReadsArray(content, Events, events);
    forall i | 0 <= i < |events|
      ensures AcceptedEvent(events[i], handoffId, workflowId) <==> EventSays(events[i], handoffId, workflowId)
    {
      EventExactly(events[i], handoffId, workflowId);
    }
    hide AcceptedEvent;
    hide EventSays;
    hide DispatchNames;
    hide FirstEventSays;
    if DispatchSays(content, handoffId, workflowId) {
      var all :| Lists(content, Events, all) && FirstEventSays(content, all, handoffId, workflowId)
                 && exists i :: 0 <= i < |all| && EventSays(all[i], handoffId, workflowId);
      ReadsArray(content, Events, all);
    }
    hide Lists;
    hide ArrayField;
  }

  lemma ActionExactly(action: string, want: string)
    requires want in {"receive", "claim", "start", "checkpoint", "complete"}
    ensures TrimPrefix(action, "handoff.") == want <==> action == want || action == "handoff." + want
  {
    var prefix := "handoff.";
    assert want[0] != 'h' && prefix[0] == 'h';
    if prefix <= action {
      assert action == prefix + action[|prefix|..];
    }
  }

  lemma StepsAre(step: ProgressionStep)
    requires step in PROGRESSIONS
    ensures step.action in {"receive", "claim", "start", "checkpoint", "complete"} && step.state != ""
    ensures "handoff." + step.action != ""
  {
  }

  lemma ProgressExactly(content: Json, step: ProgressionStep, handoffId: string, workflowId: string)
    requires handoffId != "" && workflowId != "" && step in PROGRESSIONS
    ensures ProgressionValid(content, step, handoffId, workflowId)
      <==> ProgressSays(content, step, handoffId, workflowId)
  {
    StepsAre(step);
    ActionExactly(StringField(content, Action), step.action);
    ReadsString(content, Action, step.action);
    ReadsString(content, Action, "handoff." + step.action);
    ReadsNested(content, Handoff, State, step.state);
    ReadsNested(content, Decision, Next, step.state);
    ReadsBool(Field(content, Decision), Accepted);
    DecisionExactly(content);
    ProgressIdsExactly(content, handoffId, workflowId);
    hide StringField;
    hide NestedString;
    hide Field;
    hide BoolField;
    hide Says;
    hide SaysIn;
    hide SpeaksIn;
    hide Confirms;
    hide TrimPrefix;
    hide ProgressionNames;
  }

  lemma DecisionExactly(content: Json)
    ensures BoolField(Field(content, Decision), Accepted) <==> AcceptsDecision(content)
  {
    ReadsBool(Field(content, Decision), Accepted);
    hide BoolField;
  }

  lemma ProgressIdsExactly(content: Json, handoffId: string, workflowId: string)
    requires handoffId != "" && workflowId != ""
    ensures ProgressionNames(content, handoffId, workflowId) <==>
      && (if SpeaksIn(content, Handoff, Id) then SaysIn(content, Handoff, Id, handoffId)
          else SaysIn(content, Event, HandoffId, handoffId))
      && (if SpeaksIn(content, Handoff, WorkflowId) then SaysIn(content, Handoff, WorkflowId, workflowId)
          else SaysIn(content, Event, WorkflowId, workflowId))
  {
    ReadsNested(content, Handoff, Id, handoffId);
    ReadsNested(content, Event, HandoffId, handoffId);
    ReadsNested(content, Handoff, WorkflowId, workflowId);
    ReadsNested(content, Event, WorkflowId, workflowId);
    hide NestedString;
    hide SaysIn;
    hide SpeaksIn;
  }

  lemma GetExactly(content: Json, handoffId: string, workflowId: string, state: string)
    requires handoffId != "" && workflowId != "" && state != ""
    ensures FinalHandoffValid(content, handoffId, workflowId, state) <==> GetSays(content, handoffId, workflowId, state)
  {
    ReadsNested(content, Handoff, Id, handoffId);
    ReadsNested(content, Handoff, WorkflowId, workflowId);
    ReadsNested(content, Handoff, State, state);
    hide NestedString;
    hide SaysIn;
  }

  lemma RepairSourceIs(content: Json)
    ensures IsInner(content, Repair, RepairSource(content))
    ensures forall inner :: IsInner(content, Repair, inner) ==> inner == RepairSource(content)
  {
  }

  lemma StatusWorkflowIs(content: Json)
    ensures StatusWorkflow(content).Obj? <==> IsWorkflow(content, StatusWorkflow(content))
    ensures forall workflow :: IsWorkflow(content, workflow) ==> workflow == StatusWorkflow(content)
  {
  }

  lemma {:induction false} ListedIs(handoffs: seq<Json>, handoffId: string)
    requires handoffId != ""
    ensures var listed := ListedHandoff(handoffs, handoffId);
      && (listed.Obj? ==> exists i :: IsListed(handoffs, i, handoffId) && handoffs[i] == listed)
      && (forall i :: IsListed(handoffs, i, handoffId) ==> listed == handoffs[i] && listed.Obj?)
      && (!listed.Obj? ==> listed == Null && forall i :: !IsListed(handoffs, i, handoffId))
  {
    hide Says;
    if handoffs != [] {
      ReadsString(handoffs[0], Id, handoffId);
      SaysIsObject(handoffs[0], Id, handoffId);
      hide StringField;
      if handoffs[0].Obj? && StringField(handoffs[0], Id) == handoffId {
        assert IsListed(handoffs, 0, handoffId);
        forall i | IsListed(handoffs, i, handoffId)
          ensures i == 0
        {
        }
      } else {
        ListedIs(handoffs[1..], handoffId);
        forall i | IsListed(handoffs, i, handoffId)
          ensures IsListed(handoffs[1..], i - 1, handoffId)
        {
        }
        forall i | IsListed(handoffs[1..], i, handoffId)
          ensures IsListed(handoffs, i + 1, handoffId)
        {
          ListedLater(handoffs, i, handoffId);
        }
      }
    }
  }

  lemma ListedLater(handoffs: seq<Json>, i: int, handoffId: string)
    requires handoffs != [] && !Says(handoffs[0], Id, handoffId) && IsListed(handoffs[1..], i, handoffId)
    ensures IsListed(handoffs, i + 1, handoffId)
  {
    hide Says;
    forall j | 0 <= j < i + 1
      ensures !Says(handoffs[j], Id, handoffId)
    {
      if j > 0 {
        assert handoffs[1..][j - 1] == handoffs[j];
      }
    }
  }

  lemma SaysIsObject(value: Json, key: Key, text: string)
    ensures Says(value, key, text) ==> value.Obj?
  {
  }

  lemma HandoffListIs(content: Json, handoffs: seq<Json>)
    ensures IsHandoffList(content, handoffs) ==> StatusHandoffs(content) == handoffs
    ensures StatusHandoffs(content) != [] ==> IsHandoffList(content, StatusHandoffs(content))
  {
  }
}
