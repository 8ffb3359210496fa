/** cmd/openclaw-truth-plane-progression-extract/main.go: a handoff is carried from creation to completion.
    The loop only collects results; they are validated when it ends. */
module ProgressionFlow {
  import opened Options
  import opened Text
  import opened Json
  import opened HandoffResults
  import opened Flows

  datatype Summary = ProgressionSummary(handoffId: string, workflowId: string, progressions: seq<ProgressionStep>,
                                        finalWorkflowStatus: string)

  // ---------- validators ----------

  /** dispatchAccepted: what the first transport request says. */
  predicate RequestAccepted(events: seq<Json>) {
    events != []
    && if events[0].Obj? && StringField(events[0], Type) == "transport_requested" then BoolField(events[0], Accepted)
       else RequestAccepted(events[1..])
  }

  predicate DispatchTaken(content: Json, handoffId: string, workflowId: string) {
    DispatchNames(content, handoffId, workflowId) && RequestAccepted(ArrayField(content, Events))
  }

  predicate AllValid(progressions: seq<Json>, handoffId: string, workflowId: string) {
    && |progressions| == |PROGRESSIONS|
    && forall k :: 0 <= k < |PROGRESSIONS| ==> ProgressionValid(progressions[k], PROGRESSIONS[k], handoffId, workflowId)
  }

  function FinalWorkflow(content: Json, workflowId: string): Option<string> {
    var workflow := StatusWorkflow(content);
    var status := StringField(workflow, Status);
    if workflow.Obj? && StringField(workflow, Id) == workflowId && (status == "active" || status == "completed")
    then Some(status) else None
  }

  /** validateProgressions: the five steps, in order. */
  method ValidateProgressions(progressions: seq<Json>, handoffId: string, workflowId: string)
      returns (steps: Option<seq<ProgressionStep>>)
    ensures steps == if AllValid(progressions, handoffId, workflowId) then Some(PROGRESSIONS) else None
  {
    if |progressions| != |PROGRESSIONS| {
      return None;
    }
    var read: seq<ProgressionStep> := [];
    for i := 0 to |PROGRESSIONS|
      invariant read == PROGRESSIONS[..i]
      invariant forall k :: 0 <= k < i ==> ProgressionValid(progressions[k], PROGRESSIONS[k], handoffId, workflowId)
    {
      var step := ReadProgression(progressions[i]);
      if step.None? || step.value.action != PROGRESSIONS[i].action || step.value.state != PROGRESSIONS[i].state {
        return None;
      }
      if !ProgressionNames(progressions[i], handoffId, workflowId) {
        return None;
      }
      read := read + [step.value];
    }
    assert PROGRESSIONS[..|PROGRESSIONS|] == PROGRESSIONS;
    return Some(read);
  }

  // ---------- the flow ----------

  datatype Collected = Collected(create: Option<Json>, dispatch: Option<Json>, progressions: seq<Json>,
                                 get: Option<Json>,
                                 status: Option<Json>)

  const BEGIN := Collected(None, None, [], None, None)

  predicate Enough(s: Collected) {
    |s.progressions| >= |PROGRESSIONS|
  }

  /** What is validated after the loop. */
  function Validated(s: Collected): Option<Summary> {
    if s.create.None? || s.dispatch.None? || s.get.None? || s.status.None? then None
    else
      match CreatedIds(s.create.value)
      case None => None
      case Some(ids) =>
        var status := FinalWorkflow(s.status.value, ids.workflowId);
        if !DispatchTaken(s.dispatch.value, ids.handoffId, ids.workflowId) then None
        else if !AllValid(s.progressions, ids.handoffId, ids.workflowId) then None
        else if !FinalHandoffValid(s.get.value, ids.handoffId, ids.workflowId, "completed") then None
        else if status.None? then None
        else Some(ProgressionSummary(ids.handoffId, ids.workflowId, PROGRESSIONS, status.value))
  }

  function Step(s: Collected, r: ToolResult): Turn<Collected, Summary> {
    if s.create.Some? && r.tool.HandoffCreate? then Finish(Validated(s))
    else if Enough(s) && s.get.Some? && s.status.Some? then Finish(Validated(s))
    else
      match r.tool
      case HandoffCreate => Continue(s.(create := Some(r.content)))
      case HandoffDispatch =>
        Continue(if s.create.Some? && s.progressions == [] then s.(dispatch := Some(r.content)) else s)
      case HandoffProgress =>
        if s.dispatch.None? then Finish(None) else Continue(s.(progressions := s.progressions + [r.content]))
      case HandoffGet => Continue(if Enough(s) then s.(get := Some(r.content)) else s)
      case WorkflowStatus => Continue(if Enough(s) then s.(status := Some(r.content)) else s)
      case _ => Continue(s)
  }

  const LOOP: Machine<Collected, Summary> := Machine(Step, Validated)

  function Flow(results: seq<ToolResult>, start: nat): Option<Summary> {
    if start < |results| && results[start].tool.HandoffCreate? then RunFrom(LOOP, BEGIN, results, start) else None
  }

  /** summarizeProgressionFlow. */
  method SummarizeProgressionFlow(results: seq<ToolResult>, start: nat) returns (payload: Option<Summary>)
    requires start < |results| && results[start].tool.HandoffCreate?
    ensures payload == Flow(results, start)
  {
    hide CreatedIds;
    hide DispatchTaken;
    hide AllValid;
    hide FinalHandoffValid;
    hide FinalWorkflow;
    var handoffCreate, handoffDispatch, finalHandoffGet, finalWorkflowStatus: Option<Json> := None, None, None, None;
    var progressions: seq<Json> := [];
    var i := start;
    while i < |results| && !(i > start && results[i].tool.HandoffCreate?)
          && !(|progressions| >= |PROGRESSIONS| && finalHandoffGet.Some? && finalWorkflowStatus.Some?)
      invariant start <= i <= |results| && (i > start <==> handoffCreate.Some?)
      invariant i == start ==> progressions == []
      invariant Flow(results, start)
             == RunFrom(LOOP, Collected(handoffCreate, handoffDispatch, progressions, finalHandoffGet,
                                        finalWorkflowStatus), results, i)
    {
      hide Validated;
      var content := results[i].content;
      match results[i].tool {
        case HandoffCreate => handoffCreate := Some(content);
        case HandoffDispatch =>
          if handoffCreate.Some? && |progressions| == 0 {
            handoffDispatch := Some(content);
          }
        case HandoffProgress =>
          if handoffDispatch.None? {
            return None;
          }
          progressions := progressions + [content];
        case HandoffGet =>
          if |progressions| >= |PROGRESSIONS| {
            finalHandoffGet := Some(content);
          }
        case WorkflowStatus =>
          if |progressions| >= |PROGRESSIONS| {
            finalWorkflowStatus := Some(content);
          }
        case _ =>
      }
      i := i + 1;
    }
    var ids := CreatedIds(handoffCreate.value);
    if ids.None? || handoffDispatch.None? { return None; }
    if !DispatchTaken(handoffDispatch.value, ids.value.handoffId, ids.value.workflowId) { return None; }
    var steps := ValidateProgressions(progressions, ids.value.handoffId, ids.value.workflowId);
    if steps.None? || finalHandoffGet.None? { return None; }
    if !FinalHandoffValid(finalHandoffGet.value, ids.value.handoffId, ids.value.workflowId, "completed") {
      return None;
    }
    if finalWorkflowStatus.None? { return None; }
    var status := FinalWorkflow(finalWorkflowStatus.value, ids.value.workflowId);
    if status.None? { return None; }
    return Some(ProgressionSummary(ids.value.handoffId, ids.value.workflowId, steps.value, status.value));
  }

  /** What the trace as a whole yields. */
  function Selected(results: seq<ToolResult>): Option<Chosen<Summary>> {
    Choose(Flow, results, |results|)
  }

  /** summarizeProgressionResults: the payload of the last flow that succeeds. */
  method SummarizeProgressionResults(results: seq<ToolResult>) returns (selected: Option<Chosen<Summary>>)
    ensures selected == Selected(results)
  {
    hide RunFrom;
    selected := None;
    for i := 0 to |results|
      invariant selected == Choose(Flow, results, i)
    {
      if results[i].tool.HandoffCreate? {
        var candidate := SummarizeProgressionFlow(results, i);
        if candidate.Some? {
          selected := Some(Chosen(i, candidate.value));
        }
      }
    }
  }

  // ---------- stability ----------

  /** A flow that would validate has all it waits for, and takes no further result. */
  lemma LoopIsSettled()
    ensures Settled(LOOP)
  {
    hide CreatedIds;
    hide DispatchTaken;
    hide FinalHandoffValid;
    hide FinalWorkflow;
    forall s: Collected | Validated(s).Some?
      ensures Enough(s) && s.get.Some? && s.status.Some?
    {
    }
    hide Validated;
  }

  lemma FlowIsStable()
    ensures Stable(Flow)
  {
    forall results: seq<ToolResult>, more: seq<ToolResult>, i: nat | i < |results| && Flow(results, i).Some?
      ensures Flow(results + more, i) == Flow(results, i)
    {
      LoopIsSettled();
      hide Settled;
      assert (results + more)[i] == results[i];
      RunsStably(LOOP, BEGIN, results, more, i);
    }
  }

  /** An accepted trace stays accepted, and keeps its payload until a later flow succeeds. */
  lemma AcceptanceIsStable(results: seq<ToolResult>, more: seq<ToolResult>)
    requires Selected(results).Some?
    ensures var before := Selected(results).value; var after := Selected(results + more);
      && after.Some? && after.value.start >= before.start
      && (after.value == before <==>
            forall j :: before.start < j < |results + more| ==> Flow(results + more, j).None?)
  {
    FlowIsStable();
    ExtensionStability(Flow, results, more);
  }

  // ---------- soundness ----------

  /** Where the collected results stand. */
  datatype Places = Places(dispatch: nat, progressions: seq<nat>, get: nat, status: nat)

  ghost predicate At(results: seq<ToolResult>, start: nat, end: nat, k: nat, tool: Tool, content: Json)
    requires end <= |results|
  {
    start < k < end && results[k].tool == tool && results[k].content == content
  }

  /** Everything collected between start and end stands where the places say. */
  ghost predicate Recorded(results: seq<ToolResult>, start: nat, end: nat, s: Collected, at: Places) {
    && start < end <= |results| && s.create == Some(results[start].content)
    && (forall j :: start < j < end ==> !results[j].tool.HandoffCreate?)
    && (s.dispatch.Some? ==> At(results, start, end, at.dispatch, HandoffDispatch, s.dispatch.value))
    && |at.progressions| == |s.progressions|
    && (forall k :: 0 <= k < |s.progressions| ==>
        At(results, start, end, at.progressions[k], HandoffProgress, s.progressions[k]))
    && (forall a, b :: 0 <= a < b < |at.progressions| ==> at.progressions[a] < at.progressions[b])
    && (forall j :: start < j < end && results[j].tool.HandoffProgress? ==> j in at.progressions)
    && (s.progressions != [] ==> s.dispatch.Some? && at.dispatch < at.progressions[0])
    && (s.get.Some? ==>
        Enough(s) && at.progressions[4] < at.get && At(results, start, end, at.get, HandoffGet, s.get.value))
    && (s.status.Some? ==>
          Enough(s) && at.progressions[4] < at.status
            && At(results, start, end, at.status, WorkflowStatus, s.status.value))
  }

  function Placed(at: Places, s: Collected, r: ToolResult, i: nat): Places {
    match r.tool
    case HandoffDispatch => if s.progressions == [] then at.(dispatch := i) else at
    case HandoffProgress => at.(progressions := at.progressions + [i])
    case HandoffGet => if Enough(s) then at.(get := i) else at
    case WorkflowStatus => if Enough(s) then at.(status := i) else at
    case _ => at
  }

  /** A result that is not collected. */
  lemma NothingRecorded(results: seq<ToolResult>, start: nat, i: nat, s: Collected, at: Places)
    requires i < |results| && Recorded(results, start, i, s, at)
    requires !results[i].tool.HandoffCreate? && !results[i].tool.HandoffProgress?
    ensures Recorded(results, start, i + 1, s, at)
  {
    assert forall k, tool, content :: At(results, start, i, k, tool, content) ==>
      At(results, start, i + 1, k, tool, content);
    hide At;
  }

  lemma DispatchRecorded(results: seq<ToolResult>, start: nat, i: nat, s: Collected, at: Places)
    requires i < |results| && Recorded(results, start, i, s, at) && results[i].tool.HandoffDispatch?
      && s.progressions == []
    ensures Recorded(results, start, i + 1, s.(dispatch := Some(results[i].content)), at.(dispatch := i))
  {
    NothingRecorded(results, start, i, s, at);
  }

  lemma GetRecorded(results: seq<ToolResult>, start: nat, i: nat, s: Collected, at: Places)
    requires i < |results| && Recorded(results, start, i, s, at) && results[i].tool.HandoffGet? && Enough(s)
    ensures Recorded(results, start, i + 1, s.(get := Some(results[i].content)), at.(get := i))
  {
    NothingRecorded(results, start, i, s, at);
    assert At(results, start, i, at.progressions[4], HandoffProgress, s.progressions[4]);
    assert At(results, start, i + 1, i, HandoffGet, results[i].content);
    hide At;
  }

  lemma StatusRecorded(results: seq<ToolResult>, start: nat, i: nat, s: Collected, at: Places)
    requires i < |results| && Recorded(results, start, i, s, at) && results[i].tool.WorkflowStatus? && Enough(s)
    ensures Recorded(results, start, i + 1, s.(status := Some(results[i].content)), at.(status := i))
  {
    NothingRecorded(results, start, i, s, at);
    assert At(results, start, i, at.progressions[4], HandoffProgress, s.progressions[4]);
    assert At(results, start, i + 1, i, WorkflowStatus, results[i].content);
    hide At;
  }

  lemma ProgressionRecorded(results: seq<ToolResult>, start: nat, i: nat, s: Collected, at: Places)
    requires i < |results| && Recorded(results, start, i, s, at) && results[i].tool.HandoffProgress? && s.dispatch.Some?
    ensures Recorded(results, start, i + 1, s.(progressions := s.progressions + [results[i].content]),
                     at.(progressions := at.progressions + [i]))
  {
    ProgressionsRecorded(results, start, i, s, at);
    var more := at.progressions + [i];
    assert forall k, tool, content :: At(results, start, i, k, tool, content) ==>
      At(results, start, i + 1, k, tool, content);
    hide At;
    forall j | start < j < i + 1 && results[j].tool.HandoffProgress?
      ensures j in more
    {
      assert j in at.progressions || j == more[|more| - 1];
    }
  }

  lemma ProgressionsRecorded(results: seq<ToolResult>, start: nat, i: nat, s: Collected, at: Places)
    requires i < |results| && Recorded(results, start, i, s, at) && results[i].tool.HandoffProgress?
    ensures var more, contents := at.progressions + [i], s.progressions + [results[i].content];
      && (forall k :: 0 <= k < |more| ==> At(results, start, i + 1, more[k], HandoffProgress, contents[k]))
      && (forall a, b :: 0 <= a < b < |more| ==> more[a] < more[b])
      && (s.progressions == [] ==> s.dispatch.Some? ==> at.dispatch < more[0])
  {
    var more, contents := at.progressions + [i], s.progressions + [results[i].content];
    forall k | 0 <= k < |more|
      ensures more[k] <= i && At(results, start, i + 1, more[k], HandoffProgress, contents[k])
    {
      if k < |at.progressions| {
        assert At(results, start, i, at.progressions[k], HandoffProgress, s.progressions[k]);
      }
    }
    forall a, b | 0 <= a < b < |more|
      ensures more[a] < more[b]
    {
      assert At(results, start, i, at.progressions[a], HandoffProgress, s.progressions[a]);
    }
  }

  lemma StepRecords(results: seq<ToolResult>, start: nat, i: nat, s: Collected, at: Places)
    requires i < |results| && Recorded(results, start, i, s, at) && Step(s, results[i]).Continue?
    ensures Recorded(results, start, i + 1, Step(s, results[i]).state, Placed(at, s, results[i], i))
  {
    assert s.create.Some?;
    hide Validated;
    hide Recorded;
    match results[i].tool
    case HandoffDispatch =>
      if s.progressions == [] {
        DispatchRecorded(results, start, i, s, at);
      } else {
        NothingRecorded(results, start, i, s, at);
      }
    case HandoffProgress => ProgressionRecorded(results, start, i, s, at);
    case HandoffGet =>
      if Enough(s) {
        GetRecorded(results, start, i, s, at);
      } else {
        NothingRecorded(results, start, i, s, at);
      }
    case WorkflowStatus =>
      if Enough(s) {
        StatusRecorded(results, start, i, s, at);
      } else {
        NothingRecorded(results, start, i, s, at);
      }
    case _ => NothingRecorded(results, start, i, s, at);
  }

  lemma {:induction false} RunRecords(results: seq<ToolResult>, start: nat, i: nat, s: Collected, at: Places)
      returns (end: nat, last: Collected, places: Places)
    requires Recorded(results, start, i, s, at) && RunFrom(LOOP, s, results, i).Some?
    ensures i <= end && Recorded(results, start, end, last, places) && Validated(last) == RunFrom(LOOP, s, results, i)
    decreases |results| - i
  {
    end, last, places := i, s, at;
    assert i <= |results|;
    hide Recorded;
    hide Validated;
    if i < |results| && Step(s, results[i]).Continue? {
      StepRecords(results, start, i, s, at);
      end, last, places := RunRecords(results, start, i + 1, Step(s, results[i]).state, Placed(at, s, results[i], i));
    }
  }

  /** What an accepted flow holds: one dispatch, then exactly the five progressions in order, and after them
      a handoff_get and a workflow_status in either order, with no other create and no other progression
      before the last of them, each valid for the ids of the create. */
  ghost predicate Carried(results: seq<ToolResult>, start: nat, p: Summary, end: nat, at: Places) {
    && start < end <= |results| && CreatedIds(results[start].content) == Some(Ids(p.handoffId, p.workflowId))
    && start < at.dispatch < end && results[at.dispatch].tool.HandoffDispatch?
    && DispatchTaken(results[at.dispatch].content, p.handoffId, p.workflowId)
    && |at.progressions| == |PROGRESSIONS|
    && (forall k :: 0 <= k < |PROGRESSIONS| ==>
        at.dispatch < at.progressions[k] < end && ShowsProgression(results[at.progressions[k]], k, p))
    && (forall a, b :: 0 <= a < b < |PROGRESSIONS| ==> at.progressions[a] < at.progressions[b])
    && at.progressions[4] < at.get < end && results[at.get].tool.HandoffGet?
    && FinalHandoffValid(results[at.get].content, p.handoffId, p.workflowId, "completed")
    && at.progressions[4] < at.status < end && results[at.status].tool.WorkflowStatus?
    && FinalWorkflow(results[at.status].content, p.workflowId) == Some(p.finalWorkflowStatus)
    && (forall j :: start < j < end ==>
          && !results[j].tool.HandoffCreate? && (results[j].tool.HandoffProgress? ==> j in at.progressions))
  }

  predicate ShowsProgression(r: ToolResult, k: nat, p: Summary)
    requires k < |PROGRESSIONS|
  {
    r.tool.HandoffProgress? && ProgressionValid(r.content, PROGRESSIONS[k], p.handoffId, p.workflowId)
  }

  lemma RecordedIsCarried(results: seq<ToolResult>, start: nat, end: nat, s: Collected, at: Places)
    requires Recorded(results, start, end, s, at) && Validated(s).Some?
    ensures Carried(results, start, Validated(s).value, end, at)
  {
    hide CreatedIds;
    hide DispatchTaken;
    hide ProgressionValid;
    hide FinalHandoffValid;
    hide FinalWorkflow;
    var p := Validated(s).value;
    forall k | 0 <= k < |PROGRESSIONS|
      ensures at.dispatch < at.progressions[k] < end && ShowsProgression(results[at.progressions[k]], k, p)
    {
      assert At(results, start, end, at.progressions[k], HandoffProgress, s.progressions[k]);
      assert ProgressionValid(s.progressions[k], PROGRESSIONS[k], p.handoffId, p.workflowId);
    }
  }

  lemma FlowIsCarried(results: seq<ToolResult>, start: nat) returns (end: nat, at: Places)
    requires Flow(results, start).Some?
    ensures Carried(results, start, Flow(results, start).value, end, at)
  {
    var s := Step(BEGIN, results[start]).state;
    var nowhere := Places(0, [], 0, 0);
    var last: Collected;
    hide Validated;
    end, last, at := RunRecords(results, start, start + 1, s, nowhere);
    hide Recorded;
    RecordedIsCarried(results, start, end, last, at);
    hide Carried;
  }

  // ---------- what the results say, member by member ----------

  /** The first transport request is an accepted one. */
  ghost predicate RequestSays(events: seq<Json>) {
    exists i :: 0 <= i < |events| && Says(events[i], Type, "transport_requested") && Confirms(events[i], Accepted)
                && forall j :: 0 <= j < i ==> !Says(events[j], Type, "transport_requested")
  }

  ghost predicate TakenSays(content: Json, handoffId: string, workflowId: string) {
    exists events: seq<Json> ::
      Lists(content, Events, events) && FirstEventSays(content, events, handoffId, workflowId) && RequestSays(events)
  }

  ghost predicate WorkflowSays(content: Json, workflowId: string, status: string) {
    && (status == "active" || status == "completed")
    && exists workflow ::
         IsWorkflow(content, workflow) && Says(workflow, Id, workflowId) && Says(workflow, Status, status)
  }

  /** The results at these places say what a carried handoff needs. */
  ghost predicate PlacesSay(results: seq<ToolResult>, start: nat, p: Summary, at: Places)
    requires start < |results| && at.dispatch < |results| && at.get < |results| && at.status < |results|
    requires |at.progressions| == |PROGRESSIONS| && forall k :: 0 <= k < |PROGRESSIONS| ==>
      at.progressions[k] < |results|
  {
    && CreateSays(results[start].content, p.handoffId, p.workflowId)
    && TakenSays(results[at.dispatch].content, p.handoffId, p.workflowId)
    && (forall k :: 0 <= k < |PROGRESSIONS| ==>
        ProgressSays(results[at.progressions[k]].content, PROGRESSIONS[k], p.handoffId, p.workflowId))
    && GetSays(results[at.get].content, p.handoffId, p.workflowId, "completed")
    && WorkflowSays(results[at.status].content, p.workflowId, p.finalWorkflowStatus)
  }

  lemma {:induction false} RequestExactly(events: seq<Json>)
    ensures RequestAccepted(events) <==> RequestSays(events)
  {
    hide Says;
    hide Confirms;
    if events != [] {
      ReadsString(events[0], Type, "transport_requested");
      SaysIsObject(events[0], Type, "transport_requested");
      ReadsBool(events[0], Accepted);
      hide StringField;
      hide BoolField;
      var rest := events[1..];
      RequestExactly(rest);
      if !Says(events[0], Type, "transport_requested") {
        if RequestSays(rest) {
          var i :| 0 <= i < |rest| && Says(rest[i], Type, "transport_requested") && Confirms(rest[i], Accepted)
                   && forall j :: 0 <= j < i ==> !Says(rest[j], Type, "transport_requested");
          assert events[i + 1] == rest[i] && forall j :: 1 <= j < i + 1 ==> events[j] == rest[j - 1];
        }
        if RequestSays(events) {
          var i :| 0 <= i < |events| && Says(events[i], Type, "transport_requested") && Confirms(events[i], Accepted)
                   && forall j :: 0 <= j < i ==> !Says(events[j], Type, "transport_requested");
          assert rest[i - 1] == events[i] && forall j :: 0 <= j < i - 1 ==> rest[j] == events[j + 1];
        }
      }
    }
  }

  lemma TakenExactly(content: Json, handoffId: string, workflowId: string)
    requires handoffId != "" && workflowId != ""
    ensures DispatchTaken(content, handoffId, workflowId) <==> TakenSays(content, handoffId, workflowId)
  {
    var events := ArrayField(content, Events);
    FirstEventExactly(content, handoffId, workflowId);
    RequestExactly(events);
    ReadsArray(content, Events, events);
    forall all | Lists(content, Events, all)
      ensures all == events
    {
      ReadsArray(content, Events, all);
    }
    assert FirstEventSays(content, events, handoffId, workflowId) ==> events != [];
    hide ArrayField;
    hide Lists;
    hide FirstEventSays;
    hide RequestSays;
    hide RequestAccepted;
    hide DispatchNames;
  }

  lemma WorkflowExactly(content: Json, workflowId: string, status: string)
    requires workflowId != ""
    ensures FinalWorkflow(content, workflowId) == Some(status) <==> WorkflowSays(content, workflowId, status)
  {
    StatusWorkflowIs(content);
    ReadsString(StatusWorkflow(content), Id, workflowId);
    ReadsString(StatusWorkflow(content), Status, status);
    hide StatusWorkflow;
    hide IsWorkflow;
    hide StringField;
    hide Says;
  }

  /** The results of a carried handoff say what it reports. */
  lemma CarriedSays(results: seq<ToolResult>, start: nat, p: Summary, end: nat, at: Places)
    requires Carried(results, start, p, end, at)
    ensures PlacesSay(results, start, p, at)
  {
    CreateNamesIds(results[start].content);
    CreateExactly(results[start].content, p.handoffId, p.workflowId);
    TakenExactly(results[at.dispatch].content, p.handoffId, p.workflowId);
    GetExactly(results[at.get].content, p.handoffId, p.workflowId, "completed");
    WorkflowExactly(results[at.status].content, p.workflowId, p.finalWorkflowStatus);
    hide CreatedIds;
    hide CreateSays;
    hide DispatchTaken;
    hide TakenSays;
    hide ProgressionValid;
    hide ProgressSays;
    hide FinalHandoffValid;
    hide GetSays;
    hide FinalWorkflow;
    hide WorkflowSays;
    forall k | 0 <= k < |PROGRESSIONS|
      ensures ProgressSays(results[at.progressions[k]].content, PROGRESSIONS[k], p.handoffId, p.workflowId)
    {
      assert ShowsProgression(results[at.progressions[k]], k, p);
      ProgressExactly(results[at.progressions[k]].content, PROGRESSIONS[k], p.handoffId, p.workflowId);
    }
  }

  lemma CreateNamesIds(content: Json)
    ensures CreatedIds(content).Some? ==>
      CreatedIds(content).value.handoffId != "" && CreatedIds(content).value.workflowId != ""
  {
    hide NestedString;
  }

  /** So an accepted progression holds, in order, the results that say what it reports. */
  lemma FlowSays(results: seq<ToolResult>, start: nat) returns (end: nat, at: Places)
    requires Flow(results, start).Some?
    ensures Carried(results, start, Flow(results, start).value, end, at)
    ensures PlacesSay(results, start, Flow(results, start).value, at)
  {
    end, at := FlowIsCarried(results, start);
    CarriedSays(results, start, Flow(results, start).value, end, at);
    hide Flow;
  }
}
