/** cmd/openclaw-truth-plane-continuity-extract/main.go: the recogniser of a handoff that is completed,
    reopened by a repair, and completed again. */
module Continuity {
  import opened Options
  import opened Text
  import opened Json
  import opened HandoffResults

  datatype RepairRecord = RepairRecord(id: string, action: string, reason: string, actorType: string, actorId: string,
                                       reopenedState: string)

  datatype Summary = ContinuitySummary(handoffId: string, workflowId: string, repair: RepairRecord, divergence: bool,
                                       candidate: bool,
                             handoffState: string, workflowStatus: string, tools: seq<Tool>)

  datatype Created = Created(handoffId: string, workflowId: string, kind: string)

  /** Why there is no summary: a result that does not validate, a flow that ended badly, or the first of
      the steps that is missing. */
  datatype Rejection = InvalidResult | FlowFailed | MissingStep(step: nat)

  const REASON := "manual continuity smoke reopen completed handoff"
  const KIND := "manual_openclaw_truth_plane_continuity_smoke"

  const TOOLS: seq<Tool> := [
    HandoffCreate, HandoffDispatch, HandoffProgress, HandoffProgress, HandoffProgress, HandoffProgress, HandoffProgress,
    DivergenceList, RepairCandidateList, RepairReopenHandoff, HandoffDispatch, HandoffProgress, HandoffProgress,
    HandoffProgress, HandoffProgress, HandoffProgress, HandoffGet, WorkflowStatus
  ]

  const NO_REPAIR := RepairRecord("", "", "", "", "", "")
  const NO_SUMMARY := ContinuitySummary("", "", NO_REPAIR, false, false, "", "", [])

  // ---------- validators ----------

  function CreateIds(content: Json): (r: Option<Created>)
    ensures r.Some? ==> r.value.handoffId != ""
  {
    match CreatedIds(content)
    case None => None
    case Some(ids) =>
      Some(Created(ids.handoffId, ids.workflowId,
                   FirstNonEmpty(FirstNonEmpty(NestedString(content, Workflow, Kind),
                                               NestedString(content, Workflow, WorkflowKind)),
                                 NestedString(content, Handoff, WorkflowKind))))
  }

  /** A create of another kind of workflow is not ours. */
  predicate OfOurKind(kind: string) {
    kind == "" || kind == KIND
  }

  predicate EntryValid(entry: Json, handoffId: string, workflowId: string) {
    && entry.Obj?
    && (StringField(entry, HandoffId) == "" || StringField(entry, HandoffId) == handoffId)
    && (StringField(entry, WorkflowId) == "" || StringField(entry, WorkflowId) == workflowId)
  }

  predicate ListValid(content: Json, key: Key, handoffId: string, workflowId: string) {
    var entries := Field(content, key);
    entries.Null?
      || (entries.Arr? && forall i :: 0 <= i < |entries.items| ==> EntryValid(entries.items[i], handoffId, workflowId))
  }

  function ReadRepair(source: Json): RepairRecord {
    var actor := Field(source, RequestedBy);
    RepairRecord(StringField(source, Id), StringField(source, Action), StringField(source, Reason),
                 StringField(actor, Type), StringField(actor, Id), StringField(source, ReopenedState))
  }

  /** The repair that the smoke run asks for. */
  predicate RepairExpected(r: RepairRecord) {
    && r.id != "" && r.action == "reopen_handoff" && r.reason == REASON && r.actorType == "agent" && r.actorId == "main"
    && r.reopenedState == "created"
  }

  function ValidRepair(content: Json, handoffId: string): (r: Option<RepairRecord>)
    ensures r.Some? ==> RepairExpected(r.value)
  {
    var source := RepairSource(content);
    var repair := ReadRepair(source);
    if RepairExpected(repair) && StringField(source, TargetType) == "handoff"
      && StringField(source, TargetId) == handoffId
    then Some(repair) else None
  }

  function FinalStatus(content: Json, handoffId: string, workflowId: string): (r: Option<string>)
    ensures r.Some? ==> r.value == "active" || r.value == "completed"
  {
    var workflow := StatusWorkflow(content);
    var status := StringField(workflow, Status);
    var listed := ListedHandoff(StatusHandoffs(content), handoffId);
    if !workflow.Obj? || StringField(workflow, Id) != workflowId then None
    else if status != "active" && status != "completed" then None
    else if StringField(listed, WorkflowId) != "" && StringField(listed, WorkflowId) != workflowId then None
    else if StringField(listed, State) != "" && StringField(listed, State) != "completed" then None
    else Some(status)
  }

  // ---------- the recogniser ----------

  /** The variables of summarizeContinuityResults. */
  datatype Recogniser = Recogniser(
    handoffId: string, workflowId: string, first: nat, second: nat, dispatched: bool, divergence: bool, candidate: bool,
    reopened: bool, redispatched: bool, repair: RepairRecord, payload: Summary, latest: Summary, complete: bool,
    failed: bool)

  const START :=
    Recogniser("", "", 0, 0, false, false, false, false, false, NO_REPAIR, NO_SUMMARY, NO_SUMMARY, false, false)

  function OnCreate(s: Recogniser, content: Json): Option<Recogniser> {
    match CreateIds(content)
    case None => None
    case Some(c) =>
      if !OfOurKind(c.kind) then Some(s)
      else Some(START.(handoffId := c.handoffId, workflowId := c.workflowId, latest := s.latest))
  }

  function OnDispatch(s: Recogniser, content: Json): Option<Recogniser> {
    if s.handoffId == "" || (s.dispatched && (!s.reopened || s.redispatched)) then Some(s)
    else if !DispatchValid(content, s.handoffId, s.workflowId) then None
    else if !s.dispatched then Some(s.(dispatched := true))
    else Some(s.(redispatched := true))
  }

  function OnProgress(s: Recogniser, content: Json): Option<Recogniser> {
    if !s.dispatched || (s.reopened && !s.redispatched) then Some(s)
    else
      var index := if s.reopened then s.second else s.first;
      if index >= |PROGRESSIONS| || !ProgressionValid(content, PROGRESSIONS[index], s.handoffId, s.workflowId) then None
      else if s.reopened then Some(s.(second := index + 1))
      else Some(s.(first := index + 1))
  }

  function OnDivergenceList(s: Recogniser, content: Json): Option<Recogniser> {
    if s.first != |PROGRESSIONS| || s.divergence then Some(s)
    else if !ListValid(content, Divergences, s.handoffId, s.workflowId) then None
    else Some(s.(divergence := true))
  }

  function OnCandidateList(s: Recogniser, content: Json): Option<Recogniser> {
    if !s.divergence || s.candidate then Some(s)
    else if !ListValid(content, RepairCandidates, s.handoffId, s.workflowId) then None
    else Some(s.(candidate := true))
  }

  function OnReopen(s: Recogniser, content: Json): Option<Recogniser> {
    if !s.candidate || s.reopened then Some(s)
    else match ValidRepair(content, s.handoffId)
      case None => None
      case Some(repair) => Some(s.(reopened := true, repair := repair))
  }

  function OnGet(s: Recogniser, content: Json): Recogniser {
    if s.second != |PROGRESSIONS| then s
    else if FinalHandoffValid(content, s.handoffId, s.workflowId, "completed") then
      s.(payload := s.payload.(handoffState := "completed"))
    else s.(complete := true, failed := true)
  }

  function Filled(s: Recogniser, status: string): Summary {
    ContinuitySummary(s.handoffId, s.workflowId, s.repair, s.divergence, s.candidate, s.payload.handoffState, status,
                      TOOLS)
  }

  function OnStatus(s: Recogniser, content: Json): Recogniser {
    if s.payload.handoffState == "" then s
    else match FinalStatus(content, s.handoffId, s.workflowId)
      case None => s.(complete := true, failed := true)
      case Some(status) =>
        s.(complete := true, failed := false, payload := Filled(s, status), latest := Filled(s, status))
  }

  /** One turn of the loop; None when it gives up. */
  function Step(s: Recogniser, result: ToolResult): Option<Recogniser> {
    match result.tool
    case HandoffCreate => OnCreate(s, result.content)
    case HandoffDispatch => OnDispatch(s, result.content)
    case HandoffProgress => OnProgress(s, result.content)
    case DivergenceList => OnDivergenceList(s, result.content)
    case RepairCandidateList => OnCandidateList(s, result.content)
    case RepairReopenHandoff => OnReopen(s, result.content)
    case HandoffGet => Some(OnGet(s, result.content))
    case WorkflowStatus => Some(OnStatus(s, result.content))
    case _ => Some(s)
  }

  function Run(results: seq<ToolResult>): Option<Recogniser>
    decreases |results|
  {
    if results == [] then Some(START)
    else match Run(results[..|results| - 1])
      case None => None
      case Some(s) => Step(s, results[|results| - 1])
  }

  /** How many of the 18 steps the current flow has made. */
  function Stage(s: Recogniser): nat {
    if s.handoffId == "" then 0
    else if !s.dispatched then 1
    else if !s.divergence then 2 + s.first
    else if !s.candidate then 8
    else if !s.reopened then 9
    else if !s.redispatched then 10
    else if s.payload.handoffState == "" then 11 + s.second
    else if s.payload.workflowStatus == "" then 17
    else 18
  }

  /** The verdict on a whole trace; a flow that is not complete is reported by its first missing step. */
  function Verdict(results: seq<ToolResult>): Result<Summary, Rejection> {
    match Run(results)
    case None => Err(InvalidResult)
    case Some(s) =>
      if !s.complete then Err(MissingStep(Stage(s)))
      else if s.failed then Err(FlowFailed)
      else Ok(s.latest)
  }

  /** summarizeContinuityResults. */
  method SummarizeContinuityResults(results: seq<ToolResult>) returns (r: Result<Summary, Rejection>)
    ensures r == Verdict(results)
  {
    hide CreateIds;
    hide DispatchValid;
    hide ProgressionValid;
    hide ListValid;
    hide ValidRepair;
    hide FinalHandoffValid;
    hide FinalStatus;
    hide Step;
    var payload, latestPayload := NO_SUMMARY, NO_SUMMARY;
    var latestFlowFailed, latestFlowComplete := false, false;
    var handoffId, workflowId := "", "";
    var firstProgressIndex, secondProgressIndex := 0, 0;
    var firstDispatchSeen, divergenceSeen, candidateSeen, reopenSeen, secondDispatchSeen :=
      false, false, false, false, false;
    var reopenRepair := NO_REPAIR;
    ghost var s := START;
    for i := 0 to |results|
      invariant Run(results[..i]) == Some(s) && Shape(s)
      invariant s == Recogniser(handoffId, workflowId, firstProgressIndex, secondProgressIndex, firstDispatchSeen,
                                divergenceSeen, candidateSeen, reopenSeen, secondDispatchSeen, reopenRepair, payload,
                                latestPayload, latestFlowComplete, latestFlowFailed)
    {
      var content := results[i].content;
      RunNext(results, i);
      StepIs(s, results[i]);
      match results[i].tool {
        case HandoffCreate =>
          var created := CreateIds(content);
          if created.None? { return Err(InvalidResult); }
          if OfOurKind(created.value.kind) {
            handoffId, workflowId := created.value.handoffId, created.value.workflowId;
            firstProgressIndex, secondProgressIndex := 0, 0;
            firstDispatchSeen, divergenceSeen, candidateSeen, reopenSeen, secondDispatchSeen :=
              false, false, false, false, false;
            reopenRepair := NO_REPAIR;
            latestFlowFailed, latestFlowComplete := false, false;
            payload := NO_SUMMARY;
          }
        case HandoffDispatch =>
          if handoffId != "" {
            if !firstDispatchSeen {
              if !DispatchValid(content, handoffId, workflowId) { return Err(InvalidResult); }
              firstDispatchSeen := true;
            } else if reopenSeen && !secondDispatchSeen {
              if !DispatchValid(content, handoffId, workflowId) { return Err(InvalidResult); }
              secondDispatchSeen := true;
            }
          }
        case HandoffProgress =>
          if firstDispatchSeen {
            if !reopenSeen {
              if firstProgressIndex >= |PROGRESSIONS| { return Err(InvalidResult); }
              if !ProgressionValid(content, PROGRESSIONS[firstProgressIndex], handoffId, workflowId) {
                return Err(InvalidResult);
              }
              firstProgressIndex := firstProgressIndex + 1;
            } else if secondDispatchSeen {
              if secondProgressIndex >= |PROGRESSIONS| { return Err(InvalidResult); }
              if !ProgressionValid(content, PROGRESSIONS[secondProgressIndex], handoffId, workflowId) {
                return Err(InvalidResult);
              }
              secondProgressIndex := secondProgressIndex + 1;
            }
          }
        case DivergenceList =>
          if firstProgressIndex == |PROGRESSIONS| && !divergenceSeen {
            if !ListValid(content, Divergences, handoffId, workflowId) { return Err(InvalidResult); }
            divergenceSeen := true;
          }
        case RepairCandidateList =>
          if divergenceSeen && !candidateSeen {
            if !ListValid(content, RepairCandidates, handoffId, workflowId) { return Err(InvalidResult); }
            candidateSeen := true;
          }
        case RepairReopenHandoff =>
          if candidateSeen && !reopenSeen {
            var repair := ValidRepair(content, handoffId);
            if repair.None? { return Err(InvalidResult); }
            reopenRepair := repair.value;
            reopenSeen := true;
          }
        case HandoffGet =>
          if secondProgressIndex == |PROGRESSIONS| {
            if FinalHandoffValid(content, handoffId, workflowId, "completed") {
              payload := payload.(handoffState := "completed");
            } else {
              latestFlowComplete := true;
              latestFlowFailed := true;
            }
          }
        case WorkflowStatus =>
          if payload.handoffState != "" {
            var status := FinalStatus(content, handoffId, workflowId);
            latestFlowComplete := true;
            if status.None? {
              latestFlowFailed := true;
            } else {
              payload := ContinuitySummary(handoffId, workflowId, reopenRepair, divergenceSeen, candidateSeen,
                                           payload.handoffState,
                                 status.value, TOOLS);
              latestPayload := payload;
              latestFlowFailed := false;
            }
          }
        case _ =>
      }
      StepShape(s, results[i]);
      s := Step(s, results[i]).value;
    }
    assert results[..|results|] == results;
    if latestFlowComplete {
      return if latestFlowFailed then Err(FlowFailed) else Ok(latestPayload);
    }
    if handoffId == "" { return Err(MissingStep(0)); }
    if !firstDispatchSeen { return Err(MissingStep(1)); }
    if firstProgressIndex < |PROGRESSIONS| { return Err(MissingStep(2 + firstProgressIndex)); }
    if !divergenceSeen { return Err(MissingStep(7)); }
    if !candidateSeen { return Err(MissingStep(8)); }
    if !reopenSeen { return Err(MissingStep(9)); }
    if !secondDispatchSeen { return Err(MissingStep(10)); }
    if secondProgressIndex < |PROGRESSIONS| { return Err(MissingStep(11 + secondProgressIndex)); }
    if payload.handoffState == "" { return Err(MissingStep(16)); }
    return Err(MissingStep(17));
  }

  lemma RunNext(results: seq<ToolResult>, i: nat)
    requires i < |results| && Run(results[..i]).Some?
    ensures Run(results[..i + 1]) == Step(Run(results[..i]).value, results[i])
    ensures Step(Run(results[..i]).value, results[i]).None? ==> Run(results).None?
  {
    hide Step;
    assert results[..i + 1][..i] == results[..i];
    if Step(Run(results[..i]).value, results[i]).None? {
      GivesUpForGood(results, i + 1);
    }
  }

  lemma {:induction false} GivesUpForGood(results: seq<ToolResult>, k: nat)
    requires k <= |results| && Run(results[..k]).None?
    ensures Run(results).None?
  {
    hide Step;
    if k == |results| {
      assert results[..k] == results;
    } else {
      assert results[..|results| - 1][..k] == results[..k];
      GivesUpForGood(results[..|results| - 1], k);
    }
  }

  /** isContinuityTool. */
  predicate IsContinuityTool(tool: Tool) {
    || tool.HandoffCreate? || tool.HandoffDispatch? || tool.HandoffProgress? || tool.DivergenceList?
    || tool.RepairCandidateList? || tool.RepairReopenHandoff? || tool.HandoffGet? || tool.WorkflowStatus?
  }

  /** Step, tool by tool. */
  lemma StepIs(s: Recogniser, result: ToolResult)
    ensures result.tool.HandoffCreate? ==> Step(s, result) == OnCreate(s, result.content)
    ensures result.tool.HandoffDispatch? ==> Step(s, result) == OnDispatch(s, result.content)
    ensures result.tool.HandoffProgress? ==> Step(s, result) == OnProgress(s, result.content)
    ensures result.tool.DivergenceList? ==> Step(s, result) == OnDivergenceList(s, result.content)
    ensures result.tool.RepairCandidateList? ==> Step(s, result) == OnCandidateList(s, result.content)
    ensures result.tool.RepairReopenHandoff? ==> Step(s, result) == OnReopen(s, result.content)
    ensures result.tool.HandoffGet? ==> Step(s, result) == Some(OnGet(s, result.content))
    ensures result.tool.WorkflowStatus? ==> Step(s, result) == Some(OnStatus(s, result.content))
    ensures !IsContinuityTool(result.tool) ==> Step(s, result) == Some(s)
  {
    hide OnCreate;
    hide OnDispatch;
    hide OnProgress;
    hide OnDivergenceList;
    hide OnCandidateList;
    hide OnReopen;
    hide OnGet;
    hide OnStatus;
  }

  // ---------- what every run establishes ----------

  /** The flags always describe one stage of one flow. */
  ghost predicate Shape(s: Recogniser) {
    && s.first <= |PROGRESSIONS| && s.second <= |PROGRESSIONS|
    && (s.handoffId == "" ==> !s.dispatched && !s.complete)
    && (!s.dispatched ==> s.first == 0)
    && (s.divergence ==> s.dispatched && s.first == |PROGRESSIONS|)
    && (s.candidate ==> s.divergence) && (s.reopened ==> s.candidate) && (s.redispatched ==> s.reopened)
    && (s.second > 0 ==> s.redispatched)
    && (s.payload.handoffState != "" ==> s.second == |PROGRESSIONS| && s.payload.handoffState == "completed")
    && (s.payload.workflowStatus != "" ==> s.payload.handoffState != "" && s.complete)
    && (s.complete && !s.failed ==> s.payload.workflowStatus != "")
  }

  lemma StepShape(s: Recogniser, result: ToolResult)
    requires Shape(s) && Step(s, result).Some?
    ensures Shape(Step(s, result).value)
  {
    hide CreateIds;
    hide DispatchValid;
    hide ProgressionValid;
    hide ListValid;
    hide ValidRepair;
    hide FinalHandoffValid;
    hide FinalStatus;
  }

  // ---------- soundness ----------

  /** The result is a valid step k of the flow with those ids. */
  ghost predicate ShowsStep(result: ToolResult, k: nat, handoffId: string, workflowId: string)
    requires k < |TOOLS|
  {
    && result.tool == TOOLS[k]
    && match result.tool
       case HandoffCreate => Creates(result, handoffId, workflowId)
       case HandoffDispatch => DispatchValid(result.content, handoffId, workflowId)
       case HandoffProgress => ProgressionValid(result.content, PROGRESSIONS[if k < 7 then k - 2 else k - 11],
                                                handoffId, workflowId)
       case DivergenceList => ListValid(result.content, Divergences, handoffId, workflowId)
       case RepairCandidateList => ListValid(result.content, RepairCandidates, handoffId, workflowId)
       case RepairReopenHandoff => ValidRepair(result.content, handoffId).Some?
       case HandoffGet => FinalHandoffValid(result.content, handoffId, workflowId, "completed")
       case WorkflowStatus => FinalStatus(result.content, handoffId, workflowId).Some?
       case _ => false
  }

  /** A create of our kind, with those ids. */
  predicate Creates(result: ToolResult, handoffId: string, workflowId: string) {
    && StartsFlow(result)
    && CreateIds(result.content).value.handoffId == handoffId
    && CreateIds(result.content).value.workflowId == workflowId
  }

  predicate StartsFlow(result: ToolResult) {
    && result.tool.HandoffCreate? && CreateIds(result.content).Some? && OfOurKind(CreateIds(result.content).value.kind)
  }

  ghost predicate Increasing(path: seq<nat>, bound: nat) {
    && (forall k :: 0 <= k < |path| ==> path[k] < bound)
    && forall j, k :: 0 <= j < k < |path| ==> path[j] < path[k]
  }

  /** The positions of the first |path| steps of a flow that begins at the last create of our kind. */
  ghost predicate Witness(results: seq<ToolResult>, path: seq<nat>, handoffId: string, workflowId: string) {
    && |path| <= |TOOLS| && Increasing(path, |results|)
    && (forall k :: 0 <= k < |path| ==> ShowsStep(results[path[k]], k, handoffId, workflowId))
    && (forall j :: (|path| > 0 ==> path[0] < j) && 0 <= j < |results| ==> !StartsFlow(results[j]))
  }

  /** Nothing after that position speaks against the flow: no other workflow_status, and no handoff_get
      that shows anything but the completed handoff. */
  ghost predicate Undisputed(results: seq<ToolResult>, end: nat, handoffId: string, workflowId: string) {
    forall j :: end < j < |results| ==>
      && !results[j].tool.WorkflowStatus?
      && (results[j].tool.HandoffGet? ==> FinalHandoffValid(results[j].content, handoffId, workflowId, "completed"))
  }

  ghost predicate Inv(results: seq<ToolResult>, s: Recogniser, path: seq<nat>) {
    && Shape(s) && |path| == Stage(s) && Witness(results, path, s.handoffId, s.workflowId)
    && (|path| >= 10 ==> ValidRepair(results[path[9]].content, s.handoffId) == Some(s.repair))
    && (|path| == 18 ==>
          && s.payload == Filled(s, s.payload.workflowStatus) && s.latest == s.payload
          && FinalStatus(results[path[17]].content, s.handoffId, s.workflowId) == Some(s.payload.workflowStatus))
    && (s.complete && !s.failed ==> |path| == 18 && Undisputed(results, path[17], s.handoffId, s.workflowId))
  }

  /** The path after one more result: a new flow, one more step, or a later workflow_status. */
  ghost function Advance(path: seq<nat>, s: Recogniser, result: ToolResult, n: nat): seq<nat>
    requires Step(s, result).Some? && |path| == Stage(s)
  {
    var t := Step(s, result).value;
    if StartsFlow(result) then [n]
    else if Stage(t) == Stage(s) + 1 then path + [n]
    else if Stage(s) == 18 && result.tool.WorkflowStatus? && !t.failed then path[..17] + [n]
    else path
  }

  lemma WitnessStays(results: seq<ToolResult>, path: seq<nat>, handoffId: string, workflowId: string,
                     result: ToolResult)
    requires Witness(results, path, handoffId, workflowId) && !StartsFlow(result)
    ensures Witness(results + [result], path, handoffId, workflowId)
  {
    hide ShowsStep;
    hide StartsFlow;
  }

  lemma WitnessGrows(results: seq<ToolResult>, path: seq<nat>, handoffId: string, workflowId: string,
                     result: ToolResult)
    requires Witness(results, path, handoffId, workflowId) && !StartsFlow(result) && 0 < |path| < |TOOLS|
    requires ShowsStep(result, |path|, handoffId, workflowId)
    ensures Witness(results + [result], path + [|results|], handoffId, workflowId)
  {
    WitnessStays(results, path, handoffId, workflowId, result);
    hide ShowsStep;
    hide StartsFlow;
    var more, longer := results + [result], path + [|results|];
    forall k | 0 <= k < |longer|
      ensures longer[k] < |more| && ShowsStep(more[longer[k]], k, handoffId, workflowId)
    {
      if k < |path| {
        assert longer[k] == path[k];
      } else {
        assert more[longer[k]] == result;
      }
    }
    assert Increasing(longer, |more|);
  }

  lemma WitnessStarts(results: seq<ToolResult>, handoffId: string, workflowId: string, result: ToolResult)
    requires Creates(result, handoffId, workflowId)
    ensures Witness(results + [result], [|results|], handoffId, workflowId)
  {
    hide StartsFlow;
    assert (results + [result])[|results|] == result;
    assert ShowsStep(result, 0, handoffId, workflowId) by {
      assert result.tool.HandoffCreate? by {
        CreatesIsCreate(result, handoffId, workflowId);
      }
    }
  }

  lemma CreatesIsCreate(result: ToolResult, handoffId: string, workflowId: string)
    requires Creates(result, handoffId, workflowId)
    ensures result.tool.HandoffCreate?
  {
  }

  /** What a result does to the stage: it shows the next step, or leaves the stage alone. */
  ghost predicate Moves(s: Recogniser, t: Recogniser, result: ToolResult) {
    && t.handoffId == s.handoffId && t.workflowId == s.workflowId
    && (Stage(t) == Stage(s) || (Stage(t) == Stage(s) + 1 && 0 < Stage(s) < |TOOLS|
                                 && ShowsStep(result, Stage(s), s.handoffId, s.workflowId)))
  }

  predicate OfRepair(tool: Tool) {
    tool.DivergenceList? || tool.RepairCandidateList? || tool.RepairReopenHandoff?
  }

  lemma FirstMoves(s: Recogniser, result: ToolResult)
    requires Shape(s) && Step(s, result).Some? && !StartsFlow(result)
    requires !result.tool.HandoffProgress? && !OfRepair(result.tool) && !result.tool.HandoffGet?
      && !result.tool.WorkflowStatus?
    ensures Moves(s, Step(s, result).value, result)
  {
    hide CreateIds;
    hide DispatchValid;
    hide ProgressionValid;
    hide ListValid;
    hide ValidRepair;
    hide FinalHandoffValid;
    hide FinalStatus;
  }

  lemma ProgressMoves(s: Recogniser, result: ToolResult)
    requires Shape(s) && Step(s, result).Some? && result.tool.HandoffProgress?
    ensures Moves(s, Step(s, result).value, result)
  {
    hide CreateIds;
    hide DispatchValid;
    hide ProgressionValid;
    hide ListValid;
    hide ValidRepair;
    hide FinalHandoffValid;
    hide FinalStatus;
  }

  lemma RepairMoves(s: Recogniser, result: ToolResult)
    requires Shape(s) && Step(s, result).Some?
    requires OfRepair(result.tool)
    ensures Moves(s, Step(s, result).value, result)
  {
    hide CreateIds;
    hide DispatchValid;
    hide ProgressionValid;
    hide ListValid;
    hide ValidRepair;
    hide FinalHandoffValid;
    hide FinalStatus;
  }

  lemma LastMoves(s: Recogniser, result: ToolResult)
    requires Shape(s) && Step(s, result).Some? && (result.tool.HandoffGet? || result.tool.WorkflowStatus?)
    ensures Moves(s, Step(s, result).value, result)
  {
    hide CreateIds;
    hide DispatchValid;
    hide ProgressionValid;
    hide ListValid;
    hide ValidRepair;
    hide FinalHandoffValid;
    hide FinalStatus;
  }

  lemma StageMoves(s: Recogniser, result: ToolResult)
    requires Shape(s) && Step(s, result).Some? && !StartsFlow(result)
    ensures Moves(s, Step(s, result).value, result)
  {
    hide Step;
    hide Shape;
    hide Moves;
    hide StartsFlow;
    match result.tool
    case HandoffCreate => FirstMoves(s, result);
    case HandoffDispatch => FirstMoves(s, result);
    case HandoffProgress => ProgressMoves(s, result);
    case DivergenceList => RepairMoves(s, result);
    case RepairCandidateList => RepairMoves(s, result);
    case RepairReopenHandoff => RepairMoves(s, result);
    case HandoffGet => LastMoves(s, result);
    case WorkflowStatus => LastMoves(s, result);
    case _ => FirstMoves(s, result);
  }

  /** The repair is the one of the flow's own reopening. */
  lemma RepairMovesOnce(s: Recogniser, result: ToolResult)
    requires Shape(s) && Step(s, result).Some? && !StartsFlow(result)
    ensures var t := Step(s, result).value;
      && (Stage(s) >= 10 ==> t.repair == s.repair)
      && (Stage(s) < 10 <= Stage(t) ==> ValidRepair(result.content, s.handoffId) == Some(t.repair))
  {
    hide CreateIds;
    hide DispatchValid;
    hide ProgressionValid;
    hide ListValid;
    hide ValidRepair;
    hide FinalHandoffValid;
    hide FinalStatus;
  }

  /** The payload is only ever filled from the flow at hand. */
  lemma PayloadMoves(s: Recogniser, result: ToolResult)
    requires Shape(s) && Step(s, result).Some? && !StartsFlow(result)
    ensures var t := Step(s, result).value;
      if Stage(t) == 18 && result.tool.WorkflowStatus? && !t.failed then
        && t.complete && t.payload == Filled(t, t.payload.workflowStatus) && t.latest == t.payload
        && FinalStatus(result.content, s.handoffId, s.workflowId) == Some(t.payload.workflowStatus)
      else
        && (Stage(t) == 18 ==>
              && Stage(s) == 18 && t.payload == s.payload && t.latest == s.latest
              && Filled(t, t.payload.workflowStatus) == Filled(s, t.payload.workflowStatus))
        && (t.complete && !t.failed ==>
              && s.complete && !s.failed && !result.tool.WorkflowStatus?
              && (result.tool.HandoffGet? ==>
                  FinalHandoffValid(result.content, s.handoffId, s.workflowId, "completed")))
  {
    hide CreateIds;
    hide DispatchValid;
    hide ProgressionValid;
    hide ListValid;
    hide ValidRepair;
    hide FinalHandoffValid;
    hide FinalStatus;
  }

  lemma FlowStarts(results: seq<ToolResult>, s: Recogniser, result: ToolResult)
    requires Step(s, result).Some? && StartsFlow(result)
    ensures Inv(results + [result], Step(s, result).value, [|results|])
  {
    var t := Step(s, result).value;
    hide CreateIds;
    assert Creates(result, t.handoffId, t.workflowId);
    WitnessStarts(results, t.handoffId, t.workflowId, result);
    hide Witness;
    hide Creates;
    hide StartsFlow;
  }

  /** A later workflow_status takes the place of the last step. */
  lemma WitnessRenews(results: seq<ToolResult>, path: seq<nat>, handoffId: string, workflowId: string,
                      result: ToolResult)
    requires Witness(results, path, handoffId, workflowId) && !StartsFlow(result) && |path| == |TOOLS|
    requires ShowsStep(result, 17, handoffId, workflowId)
    ensures Witness(results + [result], path[..17] + [|results|], handoffId, workflowId)
  {
    hide ShowsStep;
    hide StartsFlow;
    var front := path[..17];
    assert Witness(results, front, handoffId, workflowId);
    WitnessGrows(results, front, handoffId, workflowId, result);
  }

  lemma WitnessAdvances(results: seq<ToolResult>, s: Recogniser, path: seq<nat>, result: ToolResult)
    requires Shape(s) && |path| == Stage(s) && Witness(results, path, s.handoffId, s.workflowId)
    requires Step(s, result).Some? && !StartsFlow(result)
    ensures Witness(results + [result], Advance(path, s, result, |results|), s.handoffId, s.workflowId)
  {
    hide Step;
    hide Shape;
    hide StartsFlow;
    hide FinalHandoffValid;
    hide FinalStatus;
    hide ShowsStep;
    hide Stage;
    hide Witness;
    var t := Step(s, result).value;
    StageMoves(s, result);
    PayloadMoves(s, result);
    StageBound(s);
    if Stage(t) == Stage(s) + 1 {
      WitnessGrows(results, path, s.handoffId, s.workflowId, result);
    } else if Stage(s) == 18 && result.tool.WorkflowStatus? && !t.failed {
      StatusShows(result, s.handoffId, s.workflowId);
      WitnessRenews(results, path, s.handoffId, s.workflowId, result);
    } else {
      WitnessStays(results, path, s.handoffId, s.workflowId, result);
    }
  }

  lemma FlowAdvances(results: seq<ToolResult>, s: Recogniser, path: seq<nat>, result: ToolResult)
    requires Inv(results, s, path) && Step(s, result).Some? && !StartsFlow(result)
    ensures Inv(results + [result], Step(s, result).value, Advance(path, s, result, |results|))
  {
    hide Step;
    hide Shape;
    hide StartsFlow;
    hide FinalHandoffValid;
    hide FinalStatus;
    hide ValidRepair;
    hide ShowsStep;
    hide Stage;
    hide Witness;
    hide Filled;
    var t := Step(s, result).value;
    var next := Advance(path, s, result, |results|);
    WitnessAdvances(results, s, path, result);
    StepShape(s, result);
    CompleteIsLast(t);
    StageMoves(s, result);
    RepairMovesOnce(s, result);
    PayloadMoves(s, result);
    StageBound(s);
    PositionsHold(results, path, s.handoffId, s.workflowId);
    assert (results + [result])[|results|] == result;
  }

  lemma CompleteIsLast(s: Recogniser)
    requires Shape(s)
    ensures s.complete && !s.failed ==> Stage(s) == 18
  {
  }

  lemma StageBound(s: Recogniser)
    requires Shape(s)
    ensures Stage(s) <= |TOOLS|
  {
  }

  lemma StatusShows(result: ToolResult, handoffId: string, workflowId: string)
    requires result.tool.WorkflowStatus? && FinalStatus(result.content, handoffId, workflowId).Some?
    ensures ShowsStep(result, 17, handoffId, workflowId)
  {
    hide FinalStatus;
  }

  lemma PositionsHold(results: seq<ToolResult>, path: seq<nat>, handoffId: string, workflowId: string)
    requires Witness(results, path, handoffId, workflowId)
    ensures forall k :: 0 <= k < |path| ==> path[k] < |results|
  {
    hide ShowsStep;
    hide StartsFlow;
  }

  lemma {:induction false} RunHasWitness(results: seq<ToolResult>) returns (path: seq<nat>)
    requires Run(results).Some?
    ensures Inv(results, Run(results).value, path)
    decreases |results|
  {
    if results == [] {
      NoFlowYet();
      path := [];
    } else {
      var before, result := results[..|results| - 1], results[|results| - 1];
      path := RunHasWitness(before);
      var s := Run(before).value;
      assert before + [result] == results;
      hide Step;
      hide Inv;
      hide StartsFlow;
      if StartsFlow(result) {
        FlowStarts(before, s, result);
        path := [|before|];
      } else {
        FlowAdvances(before, s, path, result);
        path := Advance(path, s, result, |before|);
      }
    }
  }

  lemma NoFlowYet()
    ensures Inv([], START, [])
  {
  }

  /** The summary is what the 18 results at those positions say. */
  ghost predicate Describes(results: seq<ToolResult>, path: seq<nat>, summary: Summary)
    requires |path| == |TOOLS| && forall k :: 0 <= k < |path| ==> path[k] < |results|
  {
    && summary.divergence && summary.candidate && summary.handoffState == "completed" && summary.tools == TOOLS
    && ValidRepair(results[path[9]].content, summary.handoffId) == Some(summary.repair)
    && FinalStatus(results[path[17]].content, summary.handoffId, summary.workflowId) == Some(summary.workflowStatus)
  }

  /** The whole of what an accepted trace holds: 18 positions in strictly increasing order that begin at
      the last create of our kind, the declared tool at each, each valid for the ids of that create; the
      summary is read from exactly these results, and nothing after the last of them disputes it. */
  ghost predicate Accounted(results: seq<ToolResult>, path: seq<nat>, summary: Summary) {
    && |path| == |TOOLS| && Witness(results, path, summary.handoffId, summary.workflowId)
    && (forall k :: 0 <= k < |path| ==> path[k] < |results|)
    && Describes(results, path, summary)
    && Undisputed(results, path[17], summary.handoffId, summary.workflowId)
  }

  lemma AcceptedIsAccounted(results: seq<ToolResult>) returns (path: seq<nat>)
    requires Verdict(results).Ok?
    ensures Accounted(results, path, Verdict(results).value)
  {
    path := RunHasWitness(results);
    var s := Run(results).value;
    hide Run;
    PositionsHold(results, path, s.handoffId, s.workflowId);
    hide Witness;
    hide Undisputed;
    hide FinalStatus;
    hide ValidRepair;
  }

  /** A flow reported as incomplete has made exactly the steps before the missing one. */
  lemma MissingStepIsNext(results: seq<ToolResult>) returns (path: seq<nat>, handoffId: string, workflowId: string)
    requires Verdict(results).Err? && Verdict(results).error.MissingStep?
    ensures |path| == Verdict(results).error.step < |TOOLS| && Witness(results, path, handoffId, workflowId)
  {
    path := RunHasWitness(results);
    var s := Run(results).value;
    handoffId, workflowId := s.handoffId, s.workflowId;
    hide Run;
    hide Witness;
    hide FinalStatus;
    hide ValidRepair;
  }

  // ---------- completeness ----------

  /** A flow that has made k steps and has not gone wrong. */
  ghost predicate OnTrack(s: Recogniser, k: nat, handoffId: string, workflowId: string) {
    && Shape(s) && Stage(s) == k && s.handoffId == handoffId && s.workflowId == workflowId
    && (k < 18 ==> !s.complete) && (k == 18 ==> s.complete && !s.failed)
  }

  lemma EarlyStepTaken(s: Recogniser, k: nat, result: ToolResult)
    requires 0 < k < 10 && OnTrack(s, k, s.handoffId, s.workflowId) && ShowsStep(result, k, s.handoffId, s.workflowId)
    ensures Step(s, result).Some? && OnTrack(Step(s, result).value, k + 1, s.handoffId, s.workflowId)
  {
    hide CreateIds;
    hide DispatchValid;
    hide ProgressionValid;
    hide ListValid;
    hide ValidRepair;
    hide FinalHandoffValid;
    hide FinalStatus;
  }

  lemma LateStepTaken(s: Recogniser, k: nat, result: ToolResult)
    requires 10 <= k < 18 && OnTrack(s, k, s.handoffId, s.workflowId) && ShowsStep(result, k, s.handoffId, s.workflowId)
    ensures Step(s, result).Some? && OnTrack(Step(s, result).value, k + 1, s.handoffId, s.workflowId)
  {
    hide CreateIds;
    hide DispatchValid;
    hide ProgressionValid;
    hide ListValid;
    hide ValidRepair;
    hide FinalHandoffValid;
    hide FinalStatus;
  }

  lemma {:induction false} StepsAreTaken(before: seq<ToolResult>, steps: seq<ToolResult>, handoffId: string,
                                         workflowId: string)
    requires Run(before).Some? && 0 < |steps| <= |TOOLS|
    requires forall k :: 0 <= k < |steps| ==> ShowsStep(steps[k], k, handoffId, workflowId)
    ensures Run(before + steps).Some? && OnTrack(Run(before + steps).value, |steps|, handoffId, workflowId)
    decreases |steps|
  {
    var n := |steps| - 1;
    var front, result := steps[..n], steps[n];
    assert (before + steps)[..|before + steps| - 1] == before + front;
    assert (before + steps)[|before + steps| - 1] == result;
    assert ShowsStep(result, n, handoffId, workflowId);
    if n == 0 {
      assert before + front == before;
      CreateTaken(Run(before).value, result, handoffId, workflowId);
      hide Step;
      hide ShowsStep;
      hide OnTrack;
    } else {
      hide ShowsStep;
      hide Step;
      StepsAreTaken(before, front, handoffId, workflowId);
      if n < 10 {
        EarlyStepTaken(Run(before + front).value, n, result);
      } else {
        LateStepTaken(Run(before + front).value, n, result);
      }
      hide OnTrack;
    }
  }

  lemma CreateTaken(s: Recogniser, result: ToolResult, handoffId: string, workflowId: string)
    requires ShowsStep(result, 0, handoffId, workflowId)
    ensures Step(s, result).Some? && OnTrack(Step(s, result).value, 1, handoffId, workflowId)
  {
    hide DispatchValid;
    hide ProgressionValid;
    hide ListValid;
    hide ValidRepair;
    hide FinalHandoffValid;
    hide FinalStatus;
  }

  /** Whatever came before it, a flow that shows its 18 steps one after the other is accepted, with its
      own ids. */
  lemma CleanFlowIsAccepted(before: seq<ToolResult>, steps: seq<ToolResult>, handoffId: string, workflowId: string)
    requires Run(before).Some? && |steps| == |TOOLS|
    requires forall k :: 0 <= k < |TOOLS| ==> ShowsStep(steps[k], k, handoffId, workflowId)
    ensures Verdict(before + steps).Ok?
    ensures Verdict(before + steps).value.handoffId == handoffId
      && Verdict(before + steps).value.workflowId == workflowId
  {
    StepsAreTaken(before, steps, handoffId, workflowId);
    var path := RunHasWitness(before + steps);
    hide Run;
    hide Witness;
    hide ShowsStep;
    hide FinalStatus;
    hide ValidRepair;
  }

  // ---------- exactly what is accepted ----------

  lemma EarlyStepCounts(s: Recogniser, k: nat, result: ToolResult)
    requires Shape(s) && 0 < k < 10 && Stage(s) == k && ShowsStep(result, k, s.handoffId, s.workflowId)
    ensures Step(s, result).Some? && Stage(Step(s, result).value) == k + 1
  {
    hide CreateIds;
    hide DispatchValid;
    hide ProgressionValid;
    hide ListValid;
    hide ValidRepair;
    hide FinalHandoffValid;
    hide FinalStatus;
  }

  lemma LateStepCounts(s: Recogniser, k: nat, result: ToolResult)
    requires Shape(s) && 10 <= k < 18 && Stage(s) == k && ShowsStep(result, k, s.handoffId, s.workflowId)
    ensures Step(s, result).Some? && Stage(Step(s, result).value) == k + 1
  {
    hide CreateIds;
    hide DispatchValid;
    hide ProgressionValid;
    hide ListValid;
    hide ValidRepair;
    hide FinalHandoffValid;
    hide FinalStatus;
  }

  /** The recogniser is never behind a valid path: at every position of it, it has made at least as many
      steps of the same flow. */
  ghost predicate KeepsUp(s: Recogniser, path: seq<nat>, n: nat, handoffId: string, workflowId: string)
    requires path != []
  {
    && Shape(s)
    && (path[0] < n ==> s.handoffId == handoffId && s.workflowId == workflowId)
    && (forall k :: 0 <= k < |path| && path[k] < n ==> Stage(s) >= k + 1)
  }

  lemma StepKeepsUp(results: seq<ToolResult>, path: seq<nat>, n: nat, s: Recogniser, handoffId: string,
                    workflowId: string)
    requires n < |results| && |path| == |TOOLS| && Witness(results, path, handoffId, workflowId)
    requires KeepsUp(s, path, n, handoffId, workflowId) && Step(s, results[n]).Some?
    ensures KeepsUp(Step(s, results[n]).value, path, n + 1, handoffId, workflowId)
  {
    hide Step;
    hide Stage;
    hide ShowsStep;
    hide StartsFlow;
    var result := results[n];
    var t := Step(s, result).value;
    StepShape(s, result);
    hide Shape;
    if n == path[0] {
      assert ShowsStep(results[path[0]], 0, handoffId, workflowId);
      CreateTaken(s, result, handoffId, workflowId);
      OnTrackMeans(t, 1, handoffId, workflowId);
    } else if path[0] < n {
      assert !StartsFlow(result);
      StageMoves(s, result);
      hide Witness;
      forall k | 0 <= k < |path| && path[k] < n + 1
        ensures Stage(t) >= k + 1
      {
        if path[k] == n {
          PathHolds(results, path, handoffId, workflowId, k);
          assert Stage(s) >= k;
          if Stage(s) == k {
            StepCounts(s, k, result);
          }
        }
      }
    } else {
      hide Witness;
      BeforePath(results, path, handoffId, workflowId, n);
    }
  }

  lemma BeforePath(results: seq<ToolResult>, path: seq<nat>, handoffId: string, workflowId: string, n: nat)
    requires |path| == |TOOLS| && Witness(results, path, handoffId, workflowId) && n < path[0]
    ensures forall k :: 0 <= k < |path| ==> n < path[k]
  {
    hide ShowsStep;
    hide StartsFlow;
  }

  lemma PathHolds(results: seq<ToolResult>, path: seq<nat>, handoffId: string, workflowId: string, k: nat)
    requires |path| == |TOOLS| && k < |path| && Witness(results, path, handoffId, workflowId)
    ensures path[k] < |results| && ShowsStep(results[path[k]], k, handoffId, workflowId)
    ensures k > 0 ==> path[k - 1] < path[k]
  {
    hide ShowsStep;
    hide StartsFlow;
  }

  lemma StepCounts(s: Recogniser, k: nat, result: ToolResult)
    requires Shape(s) && 0 < k < 18 && Stage(s) == k && ShowsStep(result, k, s.handoffId, s.workflowId)
    ensures Step(s, result).Some? && Stage(Step(s, result).value) == k + 1
  {
    hide Step;
    hide Stage;
    hide Shape;
    hide ShowsStep;
    if k < 10 {
      EarlyStepCounts(s, k, result);
    } else {
      LateStepCounts(s, k, result);
    }
  }

  lemma OnTrackMeans(s: Recogniser, k: nat, handoffId: string, workflowId: string)
    requires OnTrack(s, k, handoffId, workflowId)
    ensures Stage(s) == k && s.handoffId == handoffId && s.workflowId == workflowId
  {
  }

  /** Only a workflow_status, a handoff_get or a new flow can change whether the flow is accepted. */
  lemma AcceptanceMoves(s: Recogniser, result: ToolResult)
    requires Shape(s) && Step(s, result).Some? && !StartsFlow(result)
    ensures var t := Step(s, result).value;
      if result.tool.WorkflowStatus? && Stage(s) >= 17
        && FinalStatus(result.content, s.handoffId, s.workflowId).Some? then
        t.complete && !t.failed
      else if result.tool.WorkflowStatus? then true
      else if result.tool.HandoffGet? && !FinalHandoffValid(result.content, s.handoffId, s.workflowId, "completed") then
        true
      else t.complete == s.complete && t.failed == s.failed
  {
    hide CreateIds;
    hide DispatchValid;
    hide ProgressionValid;
    hide ListValid;
    hide ValidRepair;
    hide FinalHandoffValid;
    hide FinalStatus;
  }

  lemma {:induction false} RunKeepsUp(results: seq<ToolResult>, path: seq<nat>, n: nat, handoffId: string,
                                      workflowId: string)
    requires Run(results).Some? && n <= |results| && |path| == |TOOLS| && Witness(results, path, handoffId, workflowId)
    requires Undisputed(results, path[17], handoffId, workflowId)
    ensures Run(results[..n]).Some? && KeepsUp(Run(results[..n]).value, path, n, handoffId, workflowId)
    ensures path[17] < n ==> Run(results[..n]).value.complete && !Run(results[..n]).value.failed
    decreases n
  {
    hide Step;
    hide Witness;
    if n == 0 {
      StartKeepsUp(path, handoffId, workflowId);
    } else {
      RunKeepsUp(results, path, n - 1, handoffId, workflowId);
      RunNext(results, n - 1);
      var s, result := Run(results[..n - 1]).value, results[n - 1];
      hide Run;
      StepKeepsUp(results, path, n - 1, s, handoffId, workflowId);
      if path[17] < n {
        LastStep(results, path, n - 1, s, handoffId, workflowId);
      }
    }
  }

  lemma StartKeepsUp(path: seq<nat>, handoffId: string, workflowId: string)
    requires path != []
    ensures KeepsUp(START, path, 0, handoffId, workflowId)
  {
  }

  lemma LastStep(results: seq<ToolResult>, path: seq<nat>, n: nat, s: Recogniser, handoffId: string, workflowId: string)
    requires n < |results| && |path| == |TOOLS| && Witness(results, path, handoffId, workflowId) && path[17] <= n
    requires Undisputed(results, path[17], handoffId, workflowId)
    requires KeepsUp(s, path, n, handoffId, workflowId) && Step(s, results[n]).Some?
    requires path[17] < n ==> s.complete && !s.failed
    ensures Step(s, results[n]).value.complete && !Step(s, results[n]).value.failed
  {
    PathHolds(results, path, handoffId, workflowId, 17);
    FirstBeforeLast(results, path, handoffId, workflowId);
    assert !StartsFlow(results[n]) by { NoLaterStart(results, path, handoffId, workflowId, n); }
    assert path[16] < n && Stage(s) >= 17;
    if n == path[17] {
      StatusMeans(results[n], handoffId, workflowId);
    }
    hide Step;
    hide Stage;
    hide Shape;
    hide StartsFlow;
    hide Witness;
    hide ShowsStep;
    hide FinalStatus;
    hide FinalHandoffValid;
    AcceptanceMoves(s, results[n]);
  }

  lemma FirstBeforeLast(results: seq<ToolResult>, path: seq<nat>, handoffId: string, workflowId: string)
    requires |path| == |TOOLS| && Witness(results, path, handoffId, workflowId)
    ensures path[0] < path[17]
  {
    hide ShowsStep;
    hide StartsFlow;
  }

  lemma NoLaterStart(results: seq<ToolResult>, path: seq<nat>, handoffId: string, workflowId: string, n: nat)
    requires |path| == |TOOLS| && Witness(results, path, handoffId, workflowId) && path[0] < n < |results|
    ensures !StartsFlow(results[n])
  {
    hide ShowsStep;
    hide StartsFlow;
  }

  lemma StatusMeans(result: ToolResult, handoffId: string, workflowId: string)
    requires ShowsStep(result, 17, handoffId, workflowId)
    ensures result.tool.WorkflowStatus? && FinalStatus(result.content, handoffId, workflowId).Some?
  {
    hide FinalStatus;
  }

  /** A witness of the whole flow that nothing after it disputes. */
  ghost predicate WitnessedToTheEnd(results: seq<ToolResult>, path: seq<nat>, handoffId: string, workflowId: string) {
    && |path| == |TOOLS| && Witness(results, path, handoffId, workflowId)
    && Undisputed(results, path[17], handoffId, workflowId)
  }

  /** Soundness and completeness at once: a trace in which nothing makes the extractor give up is accepted
      exactly when the 18 steps of its last flow stand in it in order, for the ids of its create, and nothing
      after them disputes it. Other results may stand anywhere in between. */
  lemma AcceptedExactly(results: seq<ToolResult>)
    ensures Verdict(results).Ok? <==>
      Run(results).Some?
        && exists path, handoffId, workflowId :: WitnessedToTheEnd(results, path, handoffId, workflowId)
    ensures forall path, handoffId, workflowId ::
      Run(results).Some? && WitnessedToTheEnd(results, path, handoffId, workflowId) ==>
      Verdict(results).value.handoffId == handoffId && Verdict(results).value.workflowId == workflowId
  {
    if Verdict(results).Ok? {
      var path := AcceptedIsAccounted(results);
      var summary := Verdict(results).value;
      assert WitnessedToTheEnd(results, path, summary.handoffId, summary.workflowId) by {
        hide Verdict;
        hide Describes;
        hide Witness;
        hide Undisputed;
      }
    }
    forall path, handoffId, workflowId | Run(results).Some? && WitnessedToTheEnd(results, path, handoffId, workflowId)
      ensures Verdict(results).Ok?
      ensures Verdict(results).value.handoffId == handoffId && Verdict(results).value.workflowId == workflowId
    {
      WitnessIsAccepted(results, path, handoffId, workflowId);
    }
  }

  lemma WitnessIsAccepted(results: seq<ToolResult>, path: seq<nat>, handoffId: string, workflowId: string)
    requires Run(results).Some? && WitnessedToTheEnd(results, path, handoffId, workflowId)
    ensures Verdict(results).Ok?
    ensures Verdict(results).value.handoffId == handoffId && Verdict(results).value.workflowId == workflowId
  {
    RunKeepsUp(results, path, |results|, handoffId, workflowId);
    assert results[..|results|] == results;
    PathHolds(results, path, handoffId, workflowId, 17);
    FirstBeforeLast(results, path, handoffId, workflowId);
    var own := RunHasWitness(results);
    hide Run;
    hide Witness;
    hide Undisputed;
    hide FinalStatus;
    hide ValidRepair;
  }
}
