/** cmd/openclaw-external-runtime-evidence-extract/main.go as a value: the state the extractor builds up
    line by line, its two verdicts, and what an accepted trajectory must contain. */
module ExternalRuntime {
  import opened Options
  import opened Text
  import opened Json
  import opened Trajectory

  /** The tools that the extractor looks into. */
  datatype Tool =
    HandoffCreate | BlockedWork | HandoffProgress | NextWork | WorkflowStatus | EvidenceSummary | OtherTool

  const REQUIRED: seq<string> := [
    "agent_register", "handoff_create", "next_work", "blocked_work", "handoff_progress", "workflow_status",
    "coordination_evidence_summary"
  ]

  const FORBIDDEN: set<string> := {
    "handoff_dispatch", "a2a_deliver", "message/send", "message/stream", "sender_health", "sender_ready",
    "sender_stats", "sender_job_list", "sender_job_get"
  }

  function ToolNamed(name: string): Tool {
    if name == "handoff_create" then HandoffCreate
    else if name == "blocked_work" then BlockedWork
    else if name == "handoff_progress" then HandoffProgress
    else if name == "next_work" then NextWork
    else if name == "workflow_status" then WorkflowStatus
    else if name == "coordination_evidence_summary" then EvidenceSummary
    else OtherTool
  }

  /** The line of each milestone, 0 while it has not been seen. */
  datatype Marks = Marks(upstreamCreated: nat, downstreamCreated: nat, dependencyGate: nat, reviewApproved: nat,
                         upstreamCompleted: nat, downstreamReady: nat, downstreamCompleted: nat,
                         workflowCompleted: nat, evidenceSummary: nat)
  {
    function List(): seq<nat> {
      [upstreamCreated, downstreamCreated, dependencyGate, reviewApproved, upstreamCompleted, downstreamReady,
       downstreamCompleted, workflowCompleted, evidenceSummary]
    }
  }

  /** What the lifecycle part of the state knows: ids, gates and milestones. */
  datatype Flow = Flow(
    workflowId: string, upstream: string, downstream: string, mismatch: bool, dependencyGate: bool, reviewGate: bool,
    ready: bool, upstreamDone: bool, downstreamDone: bool, finalStatus: string, summaryReady: bool, marks: Marks)
  {
    function Named(): Ids {
      Ids(workflowId, upstream, downstream)
    }
  }

  /** The ids that a trajectory is about, "" while they are not known. */
  datatype Ids = Ids(workflow: string, upstream: string, downstream: string)

  /** What has been counted. */
  datatype Seen = Seen(tools: set<string>, forbidden: set<string>, events: nat, clawside: nat, others: nat,
                       types: set<string>)

  /** The extractionState. */
  datatype Extraction = Extraction(seen: Seen, flow: Flow)

  const NO_MARKS := Marks(0, 0, 0, 0, 0, 0, 0, 0, 0)
  const FRESH := Extraction(Seen({}, {}, 0, 0, 0, {}),
                            Flow("", "", "", false, false, false, false, false, false, "", false, NO_MARKS))

  // ---------- readers ----------

  function StringValue(value: Json, key: Key): string {
    Trim(StringField(value, key))
  }

  function NestedValue(value: Json, outer: Key, key: Key): string {
    StringValue(Field(value, outer), key)
  }

  predicate ContainsString(values: seq<Json>, want: string) {
    Trim(want) != "" && exists i :: 0 <= i < |values| && values[i].Str? && Trim(values[i].text) == want
  }

  function WorkflowObject(content: Json): Json {
    if HasObject(content, Workflow) then ObjectField(content, Workflow) else ObjectField(content, UpperWorkflow)
  }

  function HandoffList(content: Json): seq<Json> {
    if Field(content, Handoffs).Arr? then ArrayField(content, Handoffs) else ArrayField(content, UpperHandoffs)
  }

  predicate IsDependencyReason(reason: Json, upstream: string) {
    StringValue(reason, Code) == "dependency_incomplete" && StringValue(reason, DependencyHandoffId) == upstream
  }

  predicate BlocksOn(item: Json, upstream: string, downstream: string) {
    && NestedValue(item, Handoff, Id) == downstream
    && exists j :: 0 <= j < |ArrayField(item, Reasons)| && IsDependencyReason(ArrayField(item, Reasons)[j], upstream)
  }

  predicate CompletedHandoff(handoff: Json, id: string) {
    StringValue(handoff, Id) == id && StringValue(handoff, Key.State) == "completed"
  }

  /** Some handoff of the list is the completed one. */
  predicate Completes(handoffs: seq<Json>, id: string) {
    exists i :: 0 <= i < |handoffs| && CompletedHandoff(handoffs[i], id)
  }

  lemma CompletesMore(handoffs: seq<Json>, i: nat, id: string)
    requires i < |handoffs|
    ensures Completes(handoffs[..i + 1], id) <==> Completes(handoffs[..i], id) || CompletedHandoff(handoffs[i], id)
  {
    hide CompletedHandoff;
    assert forall k :: 0 <= k < i ==> handoffs[..i + 1][k] == handoffs[..i][k];
    assert handoffs[..i + 1][i] == handoffs[i];
    if Completes(handoffs[..i], id) {
      var k :| 0 <= k < i && CompletedHandoff(handoffs[..i][k], id);
      assert CompletedHandoff(handoffs[..i + 1][k], id);
    }
  }

  predicate CompletedWorkflow(workflow: Json, id: string) {
    StringValue(workflow, Id) == id && StringValue(workflow, Status) == "completed"
  }

  // ---------- observations ----------

  function Mark(mark: nat, seen: bool, line: nat): nat {
    if seen && mark == 0 then line else mark
  }

  function SetUpstream(f: Flow, id: string, line: nat): Flow {
    f.(upstream := id, marks := f.marks.(upstreamCreated := Mark(f.marks.upstreamCreated, true, line)))
  }

  function SetDownstream(f: Flow, id: string, line: nat): Flow {
    f.(downstream := id, marks := f.marks.(downstreamCreated := Mark(f.marks.downstreamCreated, true, line)))
  }

  function Created(f: Flow, line: nat, workflowId: string, handoffId: string, needsReview: bool,
                   dependsOnUpstream: bool): Flow
  {
    if workflowId == "" || handoffId == "" then f
    else if f.workflowId != "" && workflowId != f.workflowId then
      if dependsOnUpstream then f.(mismatch := true) else f
    else
      var g := f.(workflowId := workflowId);
      if needsReview then SetUpstream(g, handoffId, line)
      else if dependsOnUpstream then SetDownstream(g, handoffId, line)
      else g
  }

  function ObserveHandoffCreate(f: Flow, line: nat, content: Json): Flow {
    var handoff := ObjectField(content, Handoff);
    Created(f, line, NestedValue(content, Workflow, Id), StringValue(handoff, Id), BoolField(handoff, NeedsReview),
            ContainsString(ArrayField(handoff, DependsOnHandoffIds), f.upstream))
  }

  function MeetDependency(f: Flow, seen: bool, line: nat): Flow {
    f.(dependencyGate := f.dependencyGate || seen,
       marks := f.marks.(dependencyGate := Mark(f.marks.dependencyGate, seen, line)))
  }

  function ObserveBlockedWork(f: Flow, line: nat, content: Json): Flow {
    var items := ArrayField(content, Items);
    if f.upstream == "" || f.downstream == "" then f
    else MeetDependency(f, exists i :: 0 <= i < |items| && BlocksOn(items[i], f.upstream, f.downstream), line)
  }

  function CompleteUpstream(f: Flow, seen: bool, line: nat): Flow {
    f.(upstreamDone := f.upstreamDone || seen,
       marks := f.marks.(upstreamCompleted := Mark(f.marks.upstreamCompleted, seen, line)))
  }

  function CompleteDownstream(f: Flow, seen: bool, line: nat): Flow {
    f.(downstreamDone := f.downstreamDone || seen,
       marks := f.marks.(downstreamCompleted := Mark(f.marks.downstreamCompleted, seen, line)))
  }

  function Approve(f: Flow, seen: bool, line: nat): Flow {
    f.(reviewGate := f.reviewGate || seen,
       marks := f.marks.(reviewApproved := Mark(f.marks.reviewApproved, seen, line)))
  }

  function Progressed(f: Flow, line: nat, id: string, approved: bool, completed: bool): Flow {
    if id == f.upstream then CompleteUpstream(Approve(f, approved, line), completed, line)
    else if id == f.downstream then CompleteDownstream(f, completed, line)
    else f
  }

  function ObserveHandoffProgress(f: Flow, line: nat, content: Json): Flow {
    var handoff := ObjectField(content, Handoff);
    var state := StringValue(handoff, State);
    Progressed(f, line, StringValue(handoff, Id),
               state == "reviewed" && StringValue(handoff, ReviewDecision) == "approved", state == "completed")
  }

  function MakeReady(f: Flow, seen: bool, line: nat): Flow {
    f.(ready := f.ready || seen, marks := f.marks.(downstreamReady := Mark(f.marks.downstreamReady, seen, line)))
  }

  function ObserveNextWork(f: Flow, line: nat, content: Json): Flow {
    var items := ArrayField(content, Items);
    if f.downstream == "" || !f.upstreamDone then f
    else MakeReady(f, exists i :: 0 <= i < |items| && NestedValue(items[i], Handoff, Id) == f.downstream, line)
  }

  function MarkFinished(f: Flow, seen: bool, line: nat): Flow {
    f.(marks := f.marks.(workflowCompleted := Mark(f.marks.workflowCompleted, seen, line)))
  }

  function FinishWorkflow(f: Flow, line: nat): Flow {
    MarkFinished(f, f.finalStatus == "completed" && f.upstreamDone && f.downstreamDone, line)
  }

  function CompleteBoth(f: Flow, upstream: bool, downstream: bool, line: nat): Flow {
    CompleteDownstream(CompleteUpstream(f, upstream, line), downstream, line)
  }

  // Recording a milestone twice on one line is recording it once, and leaves the ids alone.

  lemma MeetsTwice(f: Flow, seen: bool, line: nat)
    requires line > 0
    ensures var g := MeetDependency(f, seen, line);
      && g.workflowId == f.workflowId && g.upstream == f.upstream && g.downstream == f.downstream
      && MeetDependency(g, true, line) == MeetDependency(f, true, line) && MeetDependency(g, false, line) == g
      && (!seen ==> g == f)
  {
  }

  lemma ReadyTwice(f: Flow, seen: bool, line: nat)
    requires line > 0
    ensures var g := MakeReady(f, seen, line);
      && g.downstream == f.downstream && MakeReady(g, true, line) == MakeReady(f, true, line) && (!seen ==> g == f)
  {
  }

  lemma SummarisesTwice(f: Flow, seen: bool, line: nat)
    requires line > 0
    ensures var g := Summarise(f, seen, line);
      && g.workflowId == f.workflowId && Summarise(g, true, line) == Summarise(f, true, line) && (!seen ==> g == f)
  {
  }

  lemma NothingCompleted(f: Flow, handoffs: seq<Json>, line: nat)
    ensures forall id :: !Completes(handoffs[..0], id)
    ensures CompleteBoth(f, false, false, line) == f
  {
  }

  lemma CompleteBothTwice(f: Flow, a: bool, b: bool, c: bool, d: bool, line: nat)
    requires line > 0
    ensures var g := CompleteBoth(f, a, b, line);
      && g.upstream == f.upstream && g.downstream == f.downstream
      && CompleteBoth(g, c, d, line) == CompleteBoth(f, a || c, b || d, line)
  {
  }

  function ObserveWorkflowStatus(f: Flow, line: nat, content: Json): Flow {
    var workflow := WorkflowObject(content);
    if StringValue(workflow, Id) != f.workflowId then f
    else
      var handoffs := HandoffList(content);
      var up := Completes(handoffs, f.upstream);
      var down := f.downstream != f.upstream && Completes(handoffs, f.downstream);
      var g := f.(finalStatus := StringValue(workflow, Status));
      FinishWorkflow(CompleteBoth(g, up, down, line), line)
  }

  function Summarise(f: Flow, seen: bool, line: nat): Flow {
    f.(summaryReady := f.summaryReady || seen,
       marks := f.marks.(evidenceSummary := Mark(f.marks.evidenceSummary, seen, line)))
  }

  function ObserveEvidenceSummary(f: Flow, line: nat, content: Json): Flow {
    var workflows := ArrayField(ObjectField(content, Summary), Workflows);
    Summarise(f, exists i :: 0 <= i < |workflows| && CompletedWorkflow(workflows[i], f.workflowId), line)
  }

  function Inspect(f: Flow, line: nat, tool: Tool, content: Json): Flow {
    match tool
    case HandoffCreate => ObserveHandoffCreate(f, line, content)
    case BlockedWork => ObserveBlockedWork(f, line, content)
    case HandoffProgress => ObserveHandoffProgress(f, line, content)
    case NextWork => ObserveNextWork(f, line, content)
    case WorkflowStatus => ObserveWorkflowStatus(f, line, content)
    case EvidenceSummary => ObserveEvidenceSummary(f, line, content)
    case OtherTool => f
  }

  function SeeTool(seen: Seen, name: string): Seen {
    seen.(tools := seen.tools + {name},
          forbidden := if name in FORBIDDEN then seen.forbidden + {name} else seen.forbidden)
  }

  function Observe(s: Extraction, line: nat, name: string, content: Json): Extraction {
    if name == "" then s
    else Extraction(SeeTool(s.seen, name), Inspect(s.flow, line, ToolNamed(name), content))
  }

  predicate FromClawside(m: EventMetadata) {
    m.toolResult && m.server == CLAWSIDE
  }

  function ObserveMetadata(seen: Seen, m: EventMetadata): Seen {
    var counted :=
      seen.(events := seen.events + 1, types := if m.kind != "" then seen.types + {m.kind} else seen.types);
    if FromClawside(m) then counted.(clawside := seen.clawside + 1) else counted.(others := seen.others + 1)
  }

  /** observeForbiddenTool. */
  function ObserveForbiddenTool(seen: Seen, tool: string): Seen {
    seen.(tools := seen.tools + {tool}, forbidden := seen.forbidden + {tool})
  }

  /** The tool result of a line that reaches Observe: one whose metadata does not name a forbidden tool. */
  function Observed(line: Line): Result<Option<ToolResult>, ParseError> {
    match ExtractEventMetadata(line, CLAWSIDE)
    case Err(e) => Err(e)
    case Ok(m) =>
      if m.Some? && FromClawside(m.value) && m.value.tool in FORBIDDEN then Ok(None)
      else ExtractToolResult(line, CLAWSIDE)
  }

  /** One turn of the scan loop, on the n-th non-blank line. */
  function ScanLine(s: Extraction, n: nat, line: Line): Result<Extraction, ParseError> {
    match ExtractEventMetadata(line, CLAWSIDE)
    case Err(e) => Err(e)
    case Ok(m) =>
      var t := if m.Some? then s.(seen := ObserveMetadata(s.seen, m.value)) else s;
      if m.Some? && FromClawside(m.value) && m.value.tool in FORBIDDEN then
        Ok(t.(seen := ObserveForbiddenTool(t.seen, m.value.tool)))
      else match ExtractToolResult(line, CLAWSIDE)
        case Err(e) => Err(e)
        case Ok(None) => Ok(t)
        case Ok(Some(result)) => Ok(Observe(t, n, result.tool, result.content))
  }

  function Scan(lines: seq<Line>): Result<Extraction, ParseError>
    decreases |lines|
  {
    if lines == [] then Ok(FRESH)
    else match Scan(lines[..|lines| - 1])
      case Err(e) => Err(e)
      case Ok(s) => ScanLine(s, |lines|, lines[|lines| - 1])
  }

  // ---------- the two verdicts ----------

  function OrderVerifiedFrom(marks: seq<nat>, i: nat): bool
    requires i <= |marks|
    decreases |marks| - i
  {
    i == |marks| || (marks[i] != 0 && (i > 0 ==> marks[i] >= marks[i - 1]) && OrderVerifiedFrom(marks, i + 1))
  }

  predicate LifecycleOrderVerified(f: Flow) {
    OrderVerifiedFrom(f.marks.List(), 0)
  }

  function MissingTools(s: Extraction, i: nat := 0): seq<string>
    requires i <= |REQUIRED|
    decreases |REQUIRED| - i
  {
    if i == |REQUIRED| then []
    else (if REQUIRED[i] in s.seen.tools then [] else [REQUIRED[i]]) + MissingTools(s, i + 1)
  }

  datatype Gate =
    | RuntimeObserved | WorkflowIdMatched | IdsObserved | DependencyGateVerified | ReviewGateVerified | DownstreamReady
    | WorkflowCompleted | EvidenceSummaryReady | OrderVerified | ForbiddenToolsAbsent

  function If(missing: bool, gate: Gate): seq<Gate> {
    if missing then [gate] else []
  }

  function MissingGates(s: Extraction): seq<Gate> {
    If(s.seen.others == 0, RuntimeObserved)
    + If(s.flow.mismatch, WorkflowIdMatched)
    + If(s.flow.workflowId == "" || s.flow.upstream == "" || s.flow.downstream == "", IdsObserved)
    + If(!s.flow.dependencyGate, Gate.DependencyGateVerified)
    + If(!s.flow.reviewGate, Gate.ReviewGateVerified)
    + If(!s.flow.ready, Gate.DownstreamReady)
    + If(s.flow.finalStatus != "completed" || !s.flow.upstreamDone || !s.flow.downstreamDone, Gate.WorkflowCompleted)
    + If(!s.flow.summaryReady, Gate.EvidenceSummaryReady)
    + If(!LifecycleOrderVerified(s.flow), OrderVerified)
    + If(s.seen.forbidden != {}, ForbiddenToolsAbsent)
  }

  /** The suitable field of the suitability report. */
  predicate Suitable(s: Extraction) {
    MissingTools(s) == [] && MissingGates(s) == [] && s.seen.forbidden == {}
  }

  datatype Provenance = Provenance(observed: bool, events: nat, clawside: nat, others: nat, types: set<string>,
                                   orderVerified: bool, forbiddenAbsent: bool)

  datatype Evidence = Evidence(workflowId: string, upstream: string, downstream: string, tools: seq<string>,
                               provenance: Provenance)

  function ProvenanceOf(s: Extraction): Provenance {
    Provenance(s.seen.others != 0, s.seen.events, s.seen.clawside, s.seen.others, s.seen.types,
               LifecycleOrderVerified(s.flow), s.seen.forbidden == {})
  }

  /** output: the checks of the extractor itself, in its own order. */
  function Output(s: Extraction): Option<Evidence> {
    if exists i :: 0 <= i < |REQUIRED| && REQUIRED[i] !in s.seen.tools then None
    else if s.seen.forbidden != {} then None
    else if s.seen.others == 0 then None
    else if s.flow.mismatch then None
    else if s.flow.workflowId == "" || s.flow.upstream == "" || s.flow.downstream == "" then None
    else if !s.flow.dependencyGate then None
    else if !s.flow.reviewGate then None
    else if !s.flow.ready then None
    else if s.flow.finalStatus != "completed" || !s.flow.upstreamDone || !s.flow.downstreamDone then None
    else if !s.flow.summaryReady then None
    else if !LifecycleOrderVerified(s.flow) then None
    else Some(Evidence(s.flow.workflowId, s.flow.upstream, s.flow.downstream, REQUIRED, ProvenanceOf(s)))
  }

  lemma {:induction false} MissingToolsEmpty(s: Extraction, i: nat)
    requires i <= |REQUIRED|
    ensures MissingTools(s, i) == [] <==> forall j :: i <= j < |REQUIRED| ==> REQUIRED[j] in s.seen.tools
    decreases |REQUIRED| - i
  {
    if i < |REQUIRED| {
      MissingToolsEmpty(s, i + 1);
    }
  }

  /** The suitability report and the extractor agree: a trajectory is suitable exactly when it is accepted. */
  lemma {:induction false} SuitableExactlyWhenAccepted(s: Extraction)
    ensures Suitable(s) <==> Output(s).Some?
  {
    hide LifecycleOrderVerified;
    MissingToolsEmpty(s, 0);
  }

  // ---------- what every scan establishes ----------

  /** Each gate flag stands exactly when its line is marked. */
  predicate FlagsMatchMarks(f: Flow) {
    && Stands(f.dependencyGate, f.marks.dependencyGate)
    && Stands(f.reviewGate, f.marks.reviewApproved)
    && Stands(f.upstreamDone, f.marks.upstreamCompleted)
    && Stands(f.ready, f.marks.downstreamReady)
    && Stands(f.downstreamDone, f.marks.downstreamCompleted)
    && Stands(f.summaryReady, f.marks.evidenceSummary)
    && Stands(f.upstream != "", f.marks.upstreamCreated)
    && Stands(f.downstream != "", f.marks.downstreamCreated)
    && (f.upstream != "" ==> f.workflowId != "")
  }

  predicate Stands(flag: bool, mark: nat) {
    flag <==> mark != 0
  }

  predicate CountsAddUp(s: Seen) {
    && s.events == s.clawside + s.others
    && (s.events > 0 ==> s.types != {})
    && "" !in s.types
  }

  datatype Milestone =
    | UpstreamCreated | DownstreamCreated | DependencyMet | ReviewApproved | UpstreamCompleted
    | DownstreamReadied | DownstreamCompleted | WorkflowFinished | EvidenceSummarised

  /** The milestones in the order an accepted trajectory must reach them. */
  const LIFECYCLE: seq<Milestone> := [
    UpstreamCreated, DownstreamCreated, DependencyMet, ReviewApproved, UpstreamCompleted, DownstreamReadied,
    DownstreamCompleted, WorkflowFinished, EvidenceSummarised
  ]

  function MarkOf(marks: Marks, m: Milestone): nat {
    match m
    case UpstreamCreated => marks.upstreamCreated
    case DownstreamCreated => marks.downstreamCreated
    case DependencyMet => marks.dependencyGate
    case ReviewApproved => marks.reviewApproved
    case UpstreamCompleted => marks.upstreamCompleted
    case DownstreamReadied => marks.downstreamReady
    case DownstreamCompleted => marks.downstreamCompleted
    case WorkflowFinished => marks.workflowCompleted
    case EvidenceSummarised => marks.evidenceSummary
  }

  /** A handoff_create that can count: it names a workflow, the one known or the first, and a handoff. */
  predicate Belongs(content: Json, workflow: string) {
    Names(content) && (workflow == "" || NestedValue(content, Workflow, Id) == workflow)
  }

  predicate Names(content: Json) {
    NestedValue(content, Workflow, Id) != "" && CreatedId(content) != ""
  }

  function CreatedId(content: Json): string {
    StringValue(ObjectField(content, Handoff), Id)
  }

  predicate DependsOn(content: Json, upstream: string) {
    ContainsString(ArrayField(ObjectField(content, Handoff), DependsOnHandoffIds), upstream)
  }

  predicate ListsBlocked(content: Json, upstream: string, downstream: string) {
    var items := ArrayField(content, Items);
    exists i :: 0 <= i < |items| && BlocksOn(items[i], upstream, downstream)
  }

  predicate ListsReady(content: Json, downstream: string) {
    var items := ArrayField(content, Items);
    exists i :: 0 <= i < |items| && NestedValue(items[i], Handoff, Id) == downstream
  }

  predicate ListsCompleted(content: Json, workflow: string) {
    var workflows := ArrayField(ObjectField(content, Summary), Workflows);
    exists i :: 0 <= i < |workflows| && CompletedWorkflow(workflows[i], workflow)
  }

  predicate Approves(content: Json, id: string) {
    var handoff := ObjectField(content, Handoff);
    StringValue(handoff, Id) == id && StringValue(handoff, Key.State) == "reviewed"
    && StringValue(handoff, ReviewDecision) == "approved"
  }

  predicate StatusOf(tool: Tool, content: Json, workflow: string) {
    tool == WorkflowStatus && StringValue(WorkflowObject(content), Id) == workflow
  }

  /** A handoff is reported as completed by its own progress, or by the status of the workflow. */
  predicate ShowsCompleted(tool: Tool, content: Json, workflow: string, id: string) {
    || (tool == HandoffProgress && CompletedHandoff(ObjectField(content, Handoff), id))
    || (StatusOf(tool, content, workflow) && Completes(HandoffList(content), id))
  }

  /** What a tool result must say to be a milestone, when these are the ids known before it. */
  predicate Shows(m: Milestone, tool: Tool, content: Json, ids: Ids) {
    var needsReview := BoolField(ObjectField(content, Handoff), NeedsReview);
    match m
    case UpstreamCreated => tool == HandoffCreate && Belongs(content, ids.workflow) && needsReview
    case DownstreamCreated =>
      tool == HandoffCreate && Belongs(content, ids.workflow) && !needsReview && DependsOn(content, ids.upstream)
    case DependencyMet =>
      && tool == BlockedWork && ids.upstream != "" && ids.downstream != ""
      && ListsBlocked(content, ids.upstream, ids.downstream)
    case ReviewApproved => tool == HandoffProgress && Approves(content, ids.upstream)
    case UpstreamCompleted => ShowsCompleted(tool, content, ids.workflow, ids.upstream)
    case DownstreamReadied => tool == NextWork && ids.downstream != "" && ListsReady(content, ids.downstream)
    case DownstreamCompleted =>
      ids.downstream != ids.upstream && ShowsCompleted(tool, content, ids.workflow, ids.downstream)
    case WorkflowFinished => tool == WorkflowStatus && CompletedWorkflow(WorkflowObject(content), ids.workflow)
    case EvidenceSummarised => tool == EvidenceSummary && ListsCompleted(content, ids.workflow)
  }

  /** Two milestones wait for others: readiness for an earlier upstream completion, and the closed workflow
      for both completions, on that line at the latest. */
  predicate Tells(f: Flow, m: Milestone, tool: Tool, content: Json) {
    && Shows(m, tool, content, f.Named())
    && (m == DownstreamReadied ==> f.upstreamDone)
    && (m == WorkflowFinished ==> f.upstreamDone || Shows(UpstreamCompleted, tool, content, f.Named()))
    && (m == WorkflowFinished ==> f.downstreamDone || Shows(DownstreamCompleted, tool, content, f.Named()))
  }

  /** The ids known after a tool result. */
  function Renamed(ids: Ids, tool: Tool, content: Json): Ids {
    if tool != HandoffCreate || !Belongs(content, ids.workflow) then ids
    else
      var named := ids.(workflow := NestedValue(content, Workflow, Id));
      if BoolField(ObjectField(content, Handoff), NeedsReview) then named.(upstream := CreatedId(content))
      else if DependsOn(content, ids.upstream) then named.(downstream := CreatedId(content))
      else named
  }

  /** A create of another workflow that depends on the upstream handoff. */
  predicate Mismatches(ids: Ids, tool: Tool, content: Json) {
    tool == HandoffCreate && Names(content) && !Belongs(content, ids.workflow) && DependsOn(content, ids.upstream)
  }

  function StatusAfter(status: string, ids: Ids, tool: Tool, content: Json): string {
    if StatusOf(tool, content, ids.workflow) then StringValue(WorkflowObject(content), Status) else status
  }

  predicate Marked(f: Flow, g: Flow, n: nat, tool: Tool, content: Json, m: Milestone) {
    MarkOf(g.marks, m) == Mark(MarkOf(f.marks, m), Tells(f, m, tool, content), n)
  }

  /** What one observation does besides marking: it renames the ids, notes a mismatch, keeps the last status. */
  predicate Notes(f: Flow, g: Flow, tool: Tool, content: Json) {
    && g.Named() == Renamed(f.Named(), tool, content)
    && g.mismatch == (f.mismatch || Mismatches(f.Named(), tool, content))
    && g.finalStatus == StatusAfter(f.finalStatus, f.Named(), tool, content)
  }

  lemma CreatedMarks(f: Flow, n: nat, w: string, id: string, needsReview: bool, depends: bool, m: Milestone)
    requires n > 0
    ensures var g := Created(f, n, w, id, needsReview, depends);
      var counts := w != "" && id != "" && (f.workflowId == "" || w == f.workflowId);
      var shown := if needsReview then m == UpstreamCreated else depends && m == DownstreamCreated;
      MarkOf(g.marks, m) == Mark(MarkOf(f.marks, m), counts && shown, n)
  {
  }

  lemma CreateMarks(f: Flow, n: nat, content: Json, m: Milestone)
    requires n > 0
    ensures Marked(f, ObserveHandoffCreate(f, n, content), n, HandoffCreate, content, m)
  {
    hide NestedValue;
    hide StringValue;
    hide ContainsString;
    hide ObjectField;
    hide ArrayField;
    hide BoolField;
    hide Created;
    hide MarkOf;
    hide Mark;
    var handoff := ObjectField(content, Handoff);
    CreatedMarks(f, n, NestedValue(content, Workflow, Id), StringValue(handoff, Id), BoolField(handoff, NeedsReview),
                 ContainsString(ArrayField(handoff, DependsOnHandoffIds), f.upstream), m);
  }

  lemma BlockedMarks(f: Flow, n: nat, content: Json, m: Milestone)
    requires n > 0
    ensures Marked(f, ObserveBlockedWork(f, n, content), n, BlockedWork, content, m)
  {
    hide BlocksOn;
    hide ArrayField;
  }

  /** Everything but the flags and the marks. */
  predicate SameNames(f: Flow, g: Flow) {
    g.Named() == f.Named() && g.mismatch == f.mismatch && g.finalStatus == f.finalStatus
  }

  lemma ApproveMarks(f: Flow, seen: bool, n: nat, m: Milestone)
    ensures MarkOf(Approve(f, seen, n).marks, m) == Mark(MarkOf(f.marks, m), seen && m == ReviewApproved, n)
    ensures SameNames(f, Approve(f, seen, n))
  {
  }

  lemma CompleteUpstreamMarks(f: Flow, seen: bool, n: nat, m: Milestone)
    ensures var g := CompleteUpstream(f, seen, n);
      MarkOf(g.marks, m) == Mark(MarkOf(f.marks, m), seen && m == UpstreamCompleted, n)
    ensures SameNames(f, CompleteUpstream(f, seen, n))
  {
  }

  lemma CompleteDownstreamMarks(f: Flow, seen: bool, n: nat, m: Milestone)
    ensures var g := CompleteDownstream(f, seen, n);
      MarkOf(g.marks, m) == Mark(MarkOf(f.marks, m), seen && m == DownstreamCompleted, n)
    ensures SameNames(f, CompleteDownstream(f, seen, n))
  {
  }

  lemma ProgressedMarks(f: Flow, n: nat, id: string, approved: bool, completed: bool, m: Milestone)
    ensures var shown :=
        || (id == f.upstream && ((approved && m == ReviewApproved) || (completed && m == UpstreamCompleted)))
        || (id != f.upstream && id == f.downstream && completed && m == DownstreamCompleted);
      MarkOf(Progressed(f, n, id, approved, completed).marks, m) == Mark(MarkOf(f.marks, m), shown, n)
    ensures SameNames(f, Progressed(f, n, id, approved, completed))
  {
    hide Approve;
    hide CompleteUpstream;
    hide CompleteDownstream;
    hide MarkOf;
    ApproveMarks(f, approved, n, m);
    CompleteUpstreamMarks(Approve(f, approved, n), completed, n, m);
    CompleteDownstreamMarks(f, completed, n, m);
  }

  lemma ProgressMarks(f: Flow, n: nat, content: Json, m: Milestone)
    requires n > 0
    ensures Marked(f, ObserveHandoffProgress(f, n, content), n, HandoffProgress, content, m)
  {
    hide StringValue;
    hide ObjectField;
    hide Progressed;
    hide MarkOf;
    hide Mark;
    var handoff := ObjectField(content, Handoff);
    var state := StringValue(handoff, State);
    ProgressedMarks(f, n, StringValue(handoff, Id),
                    state == "reviewed" && StringValue(handoff, ReviewDecision) == "approved", state == "completed", m);
  }

  lemma NextWorkMarks(f: Flow, n: nat, content: Json, m: Milestone)
    requires n > 0
    ensures Marked(f, ObserveNextWork(f, n, content), n, NextWork, content, m)
  {
    hide NestedValue;
    hide ArrayField;
  }

  lemma StatusMarks(f: Flow, n: nat, content: Json, m: Milestone)
    requires n > 0
    ensures Marked(f, ObserveWorkflowStatus(f, n, content), n, WorkflowStatus, content, m)
  {
    hide Completes;
    hide StringValue;
    hide WorkflowObject;
    hide HandoffList;
  }

  lemma SummaryMarks(f: Flow, n: nat, content: Json, m: Milestone)
    requires n > 0
    ensures Marked(f, ObserveEvidenceSummary(f, n, content), n, EvidenceSummary, content, m)
  {
    hide CompletedWorkflow;
    hide ArrayField;
    hide ObjectField;
  }

  lemma CreatedNames(f: Flow, n: nat, w: string, id: string, needsReview: bool, depends: bool)
    ensures var g := Created(f, n, w, id, needsReview, depends);
      g.Named() ==
        if w == "" || id == "" || (f.workflowId != "" && w != f.workflowId) then f.Named()
        else if needsReview then Ids(w, id, f.downstream)
        else if depends then Ids(w, f.upstream, id)
        else Ids(w, f.upstream, f.downstream)
  {
    hide Mark;
  }

  lemma CreatedMismatches(f: Flow, n: nat, w: string, id: string, needsReview: bool, depends: bool)
    ensures var g := Created(f, n, w, id, needsReview, depends);
      && g.finalStatus == f.finalStatus
      && g.mismatch == (f.mismatch || (w != "" && id != "" && f.workflowId != "" && w != f.workflowId && depends))
  {
    hide Mark;
  }

  lemma CreateNotes(f: Flow, n: nat, content: Json)
    ensures Notes(f, ObserveHandoffCreate(f, n, content), HandoffCreate, content)
  {
    hide NestedValue;
    hide StringValue;
    hide ContainsString;
    hide ObjectField;
    hide ArrayField;
    hide BoolField;
    hide Created;
    var handoff := ObjectField(content, Handoff);
    var w, id, needsReview :=
      NestedValue(content, Workflow, Id), StringValue(handoff, Id), BoolField(handoff, NeedsReview);
    var depends := ContainsString(ArrayField(handoff, DependsOnHandoffIds), f.upstream);
    CreatedNames(f, n, w, id, needsReview, depends);
    CreatedMismatches(f, n, w, id, needsReview, depends);
  }

  lemma FinishKeepsNames(f: Flow, n: nat)
    ensures SameNames(f, FinishWorkflow(f, n))
  {
  }

  lemma StatusNotes(f: Flow, n: nat, content: Json)
    ensures Notes(f, ObserveWorkflowStatus(f, n, content), WorkflowStatus, content)
  {
    hide Completes;
    hide StringValue;
    hide WorkflowObject;
    hide HandoffList;
    hide CompleteUpstream;
    hide CompleteDownstream;
    hide FinishWorkflow;
    hide MarkOf;
    hide Mark;
    var g := f.(finalStatus := StringValue(WorkflowObject(content), Status));
    var up := Completes(HandoffList(content), f.upstream);
    var down := f.downstream != f.upstream && Completes(HandoffList(content), f.downstream);
    CompleteUpstreamMarks(g, up, n, UpstreamCompleted);
    CompleteDownstreamMarks(CompleteUpstream(g, up, n), down, n, UpstreamCompleted);
    FinishKeepsNames(CompleteBoth(g, up, down, n), n);
  }

  lemma ProgressNotes(f: Flow, n: nat, content: Json)
    ensures Notes(f, ObserveHandoffProgress(f, n, content), HandoffProgress, content)
  {
    hide StringValue;
    hide ObjectField;
    hide Progressed;
    hide MarkOf;
    hide Mark;
    var handoff := ObjectField(content, Handoff);
    var state := StringValue(handoff, Key.State);
    ProgressedMarks(f, n, StringValue(handoff, Id),
                    state == "reviewed" && StringValue(handoff, ReviewDecision) == "approved", state == "completed",
                    ReviewApproved);
  }

  lemma SameNamesNote(f: Flow, g: Flow, tool: Tool, content: Json)
    requires SameNames(f, g) && tool != HandoffCreate && tool != WorkflowStatus
    ensures Notes(f, g, tool, content)
  {
    hide Belongs;
  }

  lemma GatesKeepNames(f: Flow, n: nat)
    ensures forall seen :: SameNames(f, MeetDependency(f, seen, n))
    ensures forall seen :: SameNames(f, MakeReady(f, seen, n))
    ensures forall seen :: SameNames(f, Summarise(f, seen, n))
  {
    hide Mark;
  }

  lemma ListsKeepNames(f: Flow, n: nat, content: Json)
    ensures SameNames(f, ObserveBlockedWork(f, n, content))
    ensures SameNames(f, ObserveNextWork(f, n, content))
    ensures SameNames(f, ObserveEvidenceSummary(f, n, content))
  {
    assert SameNames(f, f);
    GatesKeepNames(f, n);
    hide SameNames;
    hide BlocksOn;
    hide NestedValue;
    hide CompletedWorkflow;
    hide ArrayField;
    hide ObjectField;
    hide MeetDependency;
    hide MakeReady;
    hide Summarise;
  }

  lemma InspectNotes(f: Flow, n: nat, tool: Tool, content: Json)
    ensures Notes(f, Inspect(f, n, tool, content), tool, content)
  {
    hide Notes;
    hide ObserveHandoffCreate;
    hide ObserveBlockedWork;
    hide ObserveHandoffProgress;
    hide ObserveNextWork;
    hide ObserveWorkflowStatus;
    hide ObserveEvidenceSummary;
    ListsKeepNames(f, n, content);
    match tool
    case HandoffCreate => CreateNotes(f, n, content);
    case HandoffProgress => ProgressNotes(f, n, content);
    case WorkflowStatus => StatusNotes(f, n, content);
    case _ => SameNamesNote(f, Inspect(f, n, tool, content), tool, content);
  }

  /** Each observation marks exactly the milestones that its content shows for the ids known before it and
      that were not marked yet. */
  lemma InspectMarks(f: Flow, n: nat, tool: Tool, content: Json, m: Milestone)
    requires n > 0
    ensures Marked(f, Inspect(f, n, tool, content), n, tool, content, m)
  {
    hide Marked;
    hide ObserveHandoffCreate;
    hide ObserveBlockedWork;
    hide ObserveHandoffProgress;
    hide ObserveNextWork;
    hide ObserveWorkflowStatus;
    hide ObserveEvidenceSummary;
    match tool
    case HandoffCreate => CreateMarks(f, n, content, m);
    case BlockedWork => BlockedMarks(f, n, content, m);
    case HandoffProgress => ProgressMarks(f, n, content, m);
    case NextWork => NextWorkMarks(f, n, content, m);
    case WorkflowStatus => StatusMarks(f, n, content, m);
    case EvidenceSummary => SummaryMarks(f, n, content, m);
    case OtherTool => OtherMarks(f, n, content, m);
  }

  lemma OtherMarks(f: Flow, n: nat, content: Json, m: Milestone)
    ensures Marked(f, f, n, OtherTool, content, m)
  {
    hide Belongs;
    hide DependsOn;
    hide ListsBlocked;
    hide ListsReady;
    hide ListsCompleted;
    hide Completes;
    hide CompletedHandoff;
    hide CompletedWorkflow;
  }

  lemma SetUpstreamKeepsFlags(f: Flow, id: string, n: nat)
    requires n > 0 && FlagsMatchMarks(f) && id != "" && f.workflowId != ""
    ensures FlagsMatchMarks(SetUpstream(f, id, n))
  {
  }

  lemma SetDownstreamKeepsFlags(f: Flow, id: string, n: nat)
    requires n > 0 && FlagsMatchMarks(f) && id != ""
    ensures FlagsMatchMarks(SetDownstream(f, id, n))
  {
  }

  lemma ApproveKeepsFlags(f: Flow, seen: bool, n: nat)
    requires n > 0 && FlagsMatchMarks(f)
    ensures FlagsMatchMarks(Approve(f, seen, n))
  {
  }

  lemma CompleteUpstreamKeepsFlags(f: Flow, seen: bool, n: nat)
    requires n > 0 && FlagsMatchMarks(f)
    ensures FlagsMatchMarks(CompleteUpstream(f, seen, n))
  {
  }

  lemma CompleteDownstreamKeepsFlags(f: Flow, seen: bool, n: nat)
    requires n > 0 && FlagsMatchMarks(f)
    ensures FlagsMatchMarks(CompleteDownstream(f, seen, n))
  {
  }

  lemma FinishWorkflowKeepsFlags(f: Flow, n: nat)
    requires n > 0 && FlagsMatchMarks(f)
    ensures FlagsMatchMarks(FinishWorkflow(f, n))
  {
  }

  lemma WorkflowIdKeepsFlags(f: Flow, w: string)
    requires FlagsMatchMarks(f) && w != ""
    ensures FlagsMatchMarks(f.(workflowId := w)) && FlagsMatchMarks(f.(mismatch := true))
  {
  }

  lemma CreateKeepsFlags(f: Flow, n: nat, w: string, id: string, needsReview: bool, depends: bool)
    requires n > 0 && FlagsMatchMarks(f)
    ensures FlagsMatchMarks(Created(f, n, w, id, needsReview, depends))
  {
    hide FlagsMatchMarks;
    hide SetUpstream;
    hide SetDownstream;
    if w != "" && id != "" {
      WorkflowIdKeepsFlags(f, w);
      SetUpstreamKeepsFlags(f.(workflowId := w), id, n);
      SetDownstreamKeepsFlags(f.(workflowId := w), id, n);
    }
  }

  lemma StatusKeepsFlags(f: Flow, n: nat, status: string, up: bool, down: bool)
    requires n > 0 && FlagsMatchMarks(f)
    ensures var g := CompleteUpstream(f.(finalStatus := status), up, n);
      FlagsMatchMarks(FinishWorkflow(CompleteDownstream(g, down, n), n))
  {
    var h := f.(finalStatus := status);
    assert FlagsMatchMarks(h);
    hide *;
    CompleteUpstreamKeepsFlags(h, up, n);
    CompleteDownstreamKeepsFlags(CompleteUpstream(h, up, n), down, n);
    FinishWorkflowKeepsFlags(CompleteDownstream(CompleteUpstream(h, up, n), down, n), n);
  }

  lemma ProgressKeepsFlags(f: Flow, n: nat, id: string, approved: bool, completed: bool)
    requires n > 0 && FlagsMatchMarks(f)
    ensures FlagsMatchMarks(Progressed(f, n, id, approved, completed))
  {
    hide FlagsMatchMarks;
    hide Approve;
    hide CompleteUpstream;
    hide CompleteDownstream;
    ApproveKeepsFlags(f, approved, n);
    CompleteUpstreamKeepsFlags(Approve(f, approved, n), completed, n);
    CompleteDownstreamKeepsFlags(f, completed, n);
  }

  lemma BlockedKeepsFlags(f: Flow, n: nat, content: Json)
    requires n > 0 && FlagsMatchMarks(f)
    ensures FlagsMatchMarks(ObserveBlockedWork(f, n, content))
  {
    hide BlocksOn;
  }

  lemma NextWorkKeepsFlags(f: Flow, n: nat, content: Json)
    requires n > 0 && FlagsMatchMarks(f)
    ensures FlagsMatchMarks(ObserveNextWork(f, n, content))
  {
    hide NestedValue;
  }

  lemma SummaryKeepsFlags(f: Flow, n: nat, content: Json)
    requires n > 0 && FlagsMatchMarks(f)
    ensures FlagsMatchMarks(ObserveEvidenceSummary(f, n, content))
  {
    hide CompletedWorkflow;
  }

  lemma InspectKeepsFlags(f: Flow, n: nat, tool: Tool, content: Json)
    requires n > 0 && FlagsMatchMarks(f)
    ensures FlagsMatchMarks(Inspect(f, n, tool, content))
  {
    hide FlagsMatchMarks;
    hide StringValue;
    hide NestedValue;
    hide ContainsString;
    hide Completes;
    hide WorkflowObject;
    hide HandoffList;
    hide ArrayField;
    hide ObjectField;
    hide BoolField;
    hide Created;
    hide Progressed;
    hide FinishWorkflow;
    hide CompleteUpstream;
    hide CompleteDownstream;
    hide ObserveBlockedWork;
    hide ObserveNextWork;
    hide ObserveEvidenceSummary;
    var handoff := ObjectField(content, Handoff);
    match tool
    case HandoffCreate =>
      CreateKeepsFlags(f, n, NestedValue(content, Workflow, Id), StringValue(handoff, Id),
                       BoolField(handoff, NeedsReview),
                       ContainsString(ArrayField(handoff, DependsOnHandoffIds), f.upstream));
    case BlockedWork => BlockedKeepsFlags(f, n, content);
    case HandoffProgress =>
      var state := StringValue(handoff, State);
      ProgressKeepsFlags(f, n, StringValue(handoff, Id),
                         state == "reviewed" && StringValue(handoff, ReviewDecision) == "approved",
                         state == "completed");
    case NextWork => NextWorkKeepsFlags(f, n, content);
    case WorkflowStatus =>
      var handoffs := HandoffList(content);
      StatusKeepsFlags(f, n, StringValue(WorkflowObject(content), Status),
        Completes(handoffs, f.upstream), f.downstream != f.upstream && Completes(handoffs, f.downstream));
    case EvidenceSummary => SummaryKeepsFlags(f, n, content);
    case OtherTool =>
  }

  // ---------- the seven required tools come from seven counted lines ----------

  function RequiredSet(): (r: set<string>)
    ensures forall x :: x in r <==> x in REQUIRED
  {
    set x | x in REQUIRED
  }

  function RequiredSeen(s: Seen): set<string> {
    s.tools * RequiredSet()
  }

  predicate PlainChar(c: char) {
    'a' <= c <= 'z' || c == '_'
  }

  /** Only lower-case letters and underscores. */
  ghost predicate Plain(s: string) {
    s != "" && forall i :: 0 <= i < |s| ==> PlainChar(s[i])
  }

  lemma CreateIsPlain()
    ensures Plain("agent_register") && Plain("handoff_create")
  {
  }

  lemma WorkIsPlain()
    ensures Plain("next_work") && Plain("blocked_work")
  {
  }

  lemma ProgressIsPlain()
    ensures Plain("handoff_progress") && Plain("workflow_status")
  {
  }

  lemma SummaryIsPlain()
    ensures Plain("coordination_evidence_summary")
  {
  }

  lemma RequiredIsPlain(name: string)
    requires name in REQUIRED
    ensures Plain(name)
  {
    hide Plain;
    CreateIsPlain();
    WorkIsPlain();
    ProgressIsPlain();
    SummaryIsPlain();
  }

  /** A tool result whose tool is a required one is counted as a Clawside result by the metadata parser. */
  lemma RequiredResultIsCounted(line: Line)
    requires ExtractToolResult(line, CLAWSIDE).Ok? && ExtractToolResult(line, CLAWSIDE).value.Some?
    requires ExtractToolResult(line, CLAWSIDE).value.value.tool in REQUIRED
    ensures ExtractEventMetadata(line, CLAWSIDE).Ok? && ExtractEventMetadata(line, CLAWSIDE).value.Some?
    ensures FromClawside(ExtractEventMetadata(line, CLAWSIDE).value.value)
  {
    var msg := line.raw.message;
    var tool := ExtractToolResult(line, CLAWSIDE).value.value.tool;
    RequiredIsPlain(tool);
    assert forall i :: 0 <= i < |tool| ==> PlainChar(tool[i]);
    ClawsideResultsAreCounted(msg);
    NotMisread(msg, tool);
    ToolResultIsSafe();
    hide MetadataServerAndTool;
    hide NormalizeToolName;
  }

  lemma NotMisread(msg: Message, tool: string)
    requires NormalizeToolName(msg, CLAWSIDE) == Some(tool) && forall i :: 0 <= i < |tool| ==> tool[i] != '.'
    ensures !Misread(msg)
  {
    ClawsideIsSafe();
    var name := Trim(msg.toolName);
    hide Trim;
    HeadChars(CLAWSIDE + SEP);
    if Misread(msg) {
      assert false;
    }
  }

  // ---------- every scan ----------

  /** Everything that holds after every line. */
  ghost predicate Inv(s: Extraction) {
    FlagsMatchMarks(s.flow) && CountsAddUp(s.seen) && |RequiredSeen(s.seen)| <= s.seen.clawside
  }

  /** The counting part of ScanLine. */
  function CountLine(seen: Seen, line: Line, tool: Option<string>): Seen {
    match ExtractEventMetadata(line, CLAWSIDE)
    case Err(_) => seen
    case Ok(m) =>
      var t := if m.Some? then ObserveMetadata(seen, m.value) else seen;
      if m.Some? && FromClawside(m.value) && m.value.tool in FORBIDDEN then ObserveForbiddenTool(t, m.value.tool)
      else if tool.Some? then SeeTool(t, tool.value) else t
  }

  lemma OneMoreTool(tools: set<string>, name: string)
    ensures |(tools + {name}) * RequiredSet()| <= |tools * RequiredSet()| + 1
    ensures name !in REQUIRED ==> |(tools + {name}) * RequiredSet()| == |tools * RequiredSet()|
  {
    if name in REQUIRED {
      assert (tools + {name}) * RequiredSet() == tools * RequiredSet() + {name};
    } else {
      assert (tools + {name}) * RequiredSet() == tools * RequiredSet();
    }
  }

  lemma MetadataKeepsCounts(seen: Seen, m: EventMetadata)
    requires CountsAddUp(seen) && m.kind != ""
    ensures CountsAddUp(ObserveMetadata(seen, m)) && ObserveMetadata(seen, m).tools == seen.tools
    ensures ObserveMetadata(seen, m).clawside == seen.clawside + if FromClawside(m) then 1 else 0
  {
    assert m.kind in ObserveMetadata(seen, m).types;
  }

  lemma CountLineKeeps(seen: Seen, line: Line, tool: Option<string>)
    requires CountsAddUp(seen) && |RequiredSeen(seen)| <= seen.clawside
    requires tool.Some? && tool.value in REQUIRED ==>
      ExtractEventMetadata(line, CLAWSIDE).Ok? && ExtractEventMetadata(line, CLAWSIDE).value.Some?
      && FromClawside(ExtractEventMetadata(line, CLAWSIDE).value.value)
    ensures var t := CountLine(seen, line, tool); CountsAddUp(t) && |RequiredSeen(t)| <= t.clawside
  {
    MetadataHasKind(line);
    var metadata := ExtractEventMetadata(line, CLAWSIDE);
    hide ExtractEventMetadata;
    if metadata.Ok? && metadata.value.Some? {
      MetadataKeepsCounts(seen, metadata.value.value);
      OneMoreTool(seen.tools, metadata.value.value.tool);
    }
    if tool.Some? {
      OneMoreTool(seen.tools, tool.value);
    }
    hide RequiredSet;
  }

  lemma MetadataHasKind(line: Line)
    ensures var m := ExtractEventMetadata(line, CLAWSIDE); m.Ok? && m.value.Some? ==> m.value.value.kind != ""
  {
    hide SafeToken;
    hide MetadataServerAndTool;
  }

  /** A line either only counts, or is observed as a tool result. */
  lemma ScanLineSplits(s: Extraction, n: nat, line: Line)
    requires ScanLine(s, n, line).Ok?
    ensures Observed(line).Ok?
    ensures var t := ScanLine(s, n, line).value; var o := Observed(line).value;
      if o.Some? && o.value.tool != "" then
        t == Extraction(CountLine(s.seen, line, Some(o.value.tool)),
                        Inspect(s.flow, n, ToolNamed(o.value.tool), o.value.content))
      else t == Extraction(CountLine(s.seen, line, None), s.flow)
  {
    hide ExtractEventMetadata;
    hide ExtractToolResult;
    hide Inspect;
  }

  lemma ScanLineKeeps(s: Extraction, n: nat, line: Line)
    requires Inv(s) && n > 0 && ScanLine(s, n, line).Ok?
    ensures Inv(ScanLine(s, n, line).value)
  {
    ScanLineSplits(s, n, line);
    hide ScanLine;
    hide Inspect;
    hide FlagsMatchMarks;
    hide CountLine;
    var o := Observed(line).value;
    if o.Some? && o.value.tool != "" {
      ObservedIsResult(line);
      if o.value.tool in REQUIRED {
        RequiredResultIsCounted(line);
      }
      hide ExtractEventMetadata;
      hide Observed;
      CountLineKeeps(s.seen, line, Some(o.value.tool));
      InspectKeepsFlags(s.flow, n, ToolNamed(o.value.tool), o.value.content);
    } else {
      CountLineKeeps(s.seen, line, None);
    }
  }

  lemma ObservedIsResult(line: Line)
    requires Observed(line).Ok? && Observed(line).value.Some?
    ensures ExtractToolResult(line, CLAWSIDE) == Observed(line)
  {
    hide ExtractEventMetadata;
    hide ExtractToolResult;
  }

  lemma {:induction false} ScanEstablishes(lines: seq<Line>)
    requires Scan(lines).Ok?
    ensures Inv(Scan(lines).value)
    decreases |lines|
  {
    hide Inv;
    hide ScanLine;
    if lines == [] {
      FreshIsFine();
    } else {
      var before := lines[..|lines| - 1];
      ScanEstablishes(before);
      ScanLineKeeps(Scan(before).value, |lines|, lines[|lines| - 1]);
    }
  }

  lemma FreshIsFine()
    ensures Inv(FRESH)
  {
    assert RequiredSeen(FRESH.seen) == {};
  }

  /** In every reachable state each gate flag stands exactly when its line is marked, and every counted
      event is either a Clawside tool result or another event. */
  lemma FlagsAndCounts(lines: seq<Line>)
    requires Scan(lines).Ok?
    ensures FlagsMatchMarks(Scan(lines).value.flow)
    ensures Scan(lines).value.seen.events == Scan(lines).value.seen.clawside + Scan(lines).value.seen.others
  {
    ScanEstablishes(lines);
  }
}
