/** cmd/openclaw-external-runtime-evidence-extract/main.go: the extractionState and its observe methods,
    which update it in place. Each method is proved against its counterpart on values. */
module ExternalRuntimeExtractor {
  import opened Options
  import opened Json
  import opened Trajectory
  import X = ExternalRuntime

  class ExtractionState {
    var toolsSeen: set<string>
    var forbiddenToolsSeen: set<string>
    var workflowId: string
    var upstreamHandoffId: string
    var downstreamHandoffId: string
    var downstreamWorkflowMismatch: bool
    var dependencyGateVerified: bool
    var reviewGateVerified: bool
    var downstreamReady: bool
    var upstreamCompleted: bool
    var downstreamCompleted: bool
    var workflowFinalStatus: string
    var evidenceSummaryReady: bool
    var trajectoryEventCount: nat
    var clawsideToolResultCount: nat
    var nonClawsideEventCount: nat
    var observedEventTypes: set<string>
    var upstreamCreatedAt: nat
    var downstreamCreatedAt: nat
    var dependencyGateAt: nat
    var reviewApprovedAt: nat
    var upstreamCompletedAt: nat
    var downstreamReadyAt: nat
    var downstreamCompletedAt: nat
    var workflowCompletedAt: nat
    var evidenceSummaryAt: nat

    function Marks(): X.Marks
      reads this
    {
      X.Marks(upstreamCreatedAt, downstreamCreatedAt, dependencyGateAt, reviewApprovedAt, upstreamCompletedAt,
              downstreamReadyAt, downstreamCompletedAt, workflowCompletedAt, evidenceSummaryAt)
    }

    function Flow(): X.Flow
      reads this
    {
      X.Flow(workflowId, upstreamHandoffId, downstreamHandoffId, downstreamWorkflowMismatch, dependencyGateVerified,
             reviewGateVerified, downstreamReady, upstreamCompleted, downstreamCompleted, workflowFinalStatus,
             evidenceSummaryReady, Marks())
    }

    function Seen(): X.Seen
      reads this
    {
      X.Seen(toolsSeen, forbiddenToolsSeen, trajectoryEventCount, clawsideToolResultCount, nonClawsideEventCount,
             observedEventTypes)
    }

    /** The value that the fields hold. */
    function State(): X.Extraction
      reads this
    {
      X.Extraction(Seen(), Flow())
    }

    constructor ()
      ensures State() == X.FRESH
    {
      toolsSeen, forbiddenToolsSeen, observedEventTypes := {}, {}, {};
      workflowId, upstreamHandoffId, downstreamHandoffId, workflowFinalStatus := "", "", "", "";
      downstreamWorkflowMismatch, dependencyGateVerified, reviewGateVerified := false, false, false;
      downstreamReady, upstreamCompleted, downstreamCompleted, evidenceSummaryReady := false, false, false, false;
      trajectoryEventCount, clawsideToolResultCount, nonClawsideEventCount := 0, 0, 0;
      upstreamCreatedAt, downstreamCreatedAt, dependencyGateAt, reviewApprovedAt := 0, 0, 0, 0;
      upstreamCompletedAt, downstreamReadyAt, downstreamCompletedAt := 0, 0, 0;
      workflowCompletedAt, evidenceSummaryAt := 0, 0;
    }

    method ObserveMetadata(metadata: EventMetadata)
      modifies this
      ensures Flow() == old(Flow()) && Seen() == X.ObserveMetadata(old(Seen()), metadata)
    {
      trajectoryEventCount := trajectoryEventCount + 1;
      if metadata.kind != "" {
        observedEventTypes := observedEventTypes + {metadata.kind};
      }
      if metadata.toolResult && metadata.server == CLAWSIDE {
        clawsideToolResultCount := clawsideToolResultCount + 1;
        return;
      }
      nonClawsideEventCount := nonClawsideEventCount + 1;
    }

    method ObserveForbiddenTool(tool: string)
      requires tool in X.FORBIDDEN
      modifies this
      ensures Flow() == old(Flow()) && Seen() == X.ObserveForbiddenTool(old(Seen()), tool)
    {
      toolsSeen := toolsSeen + {tool};
      forbiddenToolsSeen := forbiddenToolsSeen + {tool};
    }

    // The elementary updates: the first line of a milestone is kept.

    method RecordUpstream(id: string, lineIndex: nat)
      modifies this
      ensures Seen() == old(Seen()) && Flow() == X.SetUpstream(old(Flow()), id, lineIndex)
    {
      upstreamHandoffId := id;
      if upstreamCreatedAt == 0 {
        upstreamCreatedAt := lineIndex;
      }
    }

    method RecordDownstream(id: string, lineIndex: nat)
      modifies this
      ensures Seen() == old(Seen()) && Flow() == X.SetDownstream(old(Flow()), id, lineIndex)
    {
      downstreamHandoffId := id;
      if downstreamCreatedAt == 0 {
        downstreamCreatedAt := lineIndex;
      }
    }

    method RecordApproval(lineIndex: nat)
      modifies this
      ensures Seen() == old(Seen()) && Flow() == X.Approve(old(Flow()), true, lineIndex)
    {
      reviewGateVerified := true;
      if reviewApprovedAt == 0 {
        reviewApprovedAt := lineIndex;
      }
    }

    method RecordUpstreamDone(lineIndex: nat)
      modifies this
      ensures Seen() == old(Seen()) && Flow() == X.CompleteUpstream(old(Flow()), true, lineIndex)
    {
      upstreamCompleted := true;
      if upstreamCompletedAt == 0 {
        upstreamCompletedAt := lineIndex;
      }
    }

    method RecordDownstreamDone(lineIndex: nat)
      modifies this
      ensures Seen() == old(Seen()) && Flow() == X.CompleteDownstream(old(Flow()), true, lineIndex)
    {
      downstreamCompleted := true;
      if downstreamCompletedAt == 0 {
        downstreamCompletedAt := lineIndex;
      }
    }

    method RecordDependency(lineIndex: nat)
      modifies this
      ensures Seen() == old(Seen()) && Flow() == X.MeetDependency(old(Flow()), true, lineIndex)
    {
      dependencyGateVerified := true;
      if dependencyGateAt == 0 {
        dependencyGateAt := lineIndex;
      }
    }

    method RecordReady(lineIndex: nat)
      modifies this
      ensures Seen() == old(Seen()) && Flow() == X.MakeReady(old(Flow()), true, lineIndex)
    {
      downstreamReady := true;
      if downstreamReadyAt == 0 {
        downstreamReadyAt := lineIndex;
      }
    }

    method RecordSummary(lineIndex: nat)
      modifies this
      ensures Seen() == old(Seen()) && Flow() == X.Summarise(old(Flow()), true, lineIndex)
    {
      evidenceSummaryReady := true;
      if evidenceSummaryAt == 0 {
        evidenceSummaryAt := lineIndex;
      }
    }

    method RecordStatus(status: string)
      modifies this
      ensures Seen() == old(Seen()) && Flow() == old(Flow()).(finalStatus := status)
    {
      workflowFinalStatus := status;
    }

    method RecordFinish(lineIndex: nat)
      modifies this
      ensures Seen() == old(Seen()) && Flow() == X.FinishWorkflow(old(Flow()), lineIndex)
    {
      if workflowFinalStatus == "completed" && upstreamCompleted && downstreamCompleted && workflowCompletedAt == 0 {
        workflowCompletedAt := lineIndex;
      }
    }

    lemma Ids()
      ensures workflowId == Flow().workflowId && upstreamHandoffId == Flow().upstream
        && downstreamHandoffId == Flow().downstream
      ensures upstreamCompleted == Flow().upstreamDone
    {
    }

    method ObserveHandoffCreate(lineIndex: nat, content: Json)
      modifies this
      ensures Seen() == old(Seen()) && Flow() == X.ObserveHandoffCreate(old(Flow()), lineIndex, content)
    {
      hide X.NestedValue;
      hide X.StringValue;
      hide X.ContainsString;
      hide ObjectField;
      hide ArrayField;
      hide BoolField;
      hide X.SetUpstream;
      hide X.SetDownstream;
      var createdIn := X.NestedValue(content, Workflow, Id);
      var handoff := ObjectField(content, Handoff);
      var handoffId := X.StringValue(handoff, Id);
      if createdIn == "" || handoffId == "" {
        return;
      }
      var dependsOnUpstream := X.ContainsString(ArrayField(handoff, DependsOnHandoffIds), upstreamHandoffId);
      if workflowId == "" {
        workflowId := createdIn;
      } else if createdIn != workflowId {
        if dependsOnUpstream {
          downstreamWorkflowMismatch := true;
        }
        return;
      }
      if BoolField(handoff, NeedsReview) {
        RecordUpstream(handoffId, lineIndex);
        return;
      }
      if dependsOnUpstream {
        RecordDownstream(handoffId, lineIndex);
      }
    }

    /** The reason loop of observeBlockedWork. */
    method MeetReasons(lineIndex: nat, reasons: seq<Json>)
      requires lineIndex > 0
      modifies this
      ensures Seen() == old(Seen())
      ensures var seen := exists k :: 0 <= k < |reasons| && X.IsDependencyReason(reasons[k], old(Flow()).upstream);
        Flow() == X.MeetDependency(old(Flow()), seen, lineIndex)
    {
      hide Seen;
      hide Flow;
      hide X.StringValue;
      hide X.MeetDependency;
      ghost var before := Flow();
      ghost var seen := false;
      X.MeetsTwice(before, seen, lineIndex);
      for j := 0 to |reasons|
        invariant Seen() == old(Seen())
        invariant seen <==> exists k :: 0 <= k < j && X.IsDependencyReason(reasons[k], before.upstream)
        invariant Flow() == X.MeetDependency(before, seen, lineIndex)
      {
        Ids();
        X.MeetsTwice(before, seen, lineIndex);
        if X.StringValue(reasons[j], Code) == "dependency_incomplete"
           && X.StringValue(reasons[j], DependencyHandoffId) == upstreamHandoffId {
          RecordDependency(lineIndex);
          seen := true;
        }
      }
    }

    method ObserveBlockedWork(lineIndex: nat, content: Json)
      requires lineIndex > 0
      modifies this
      ensures Seen() == old(Seen()) && Flow() == X.ObserveBlockedWork(old(Flow()), lineIndex, content)
    {
      hide Seen;
      hide Flow;
      hide X.NestedValue;
      hide X.IsDependencyReason;
      hide X.MeetDependency;
      hide ArrayField;
      Ids();
      if upstreamHandoffId == "" || downstreamHandoffId == "" {
        return;
      }
      var items := ArrayField(content, Items);
      ghost var before := Flow();
      ghost var seen := false;
      X.MeetsTwice(before, seen, lineIndex);
      for i := 0 to |items|
        invariant Seen() == old(Seen())
        invariant seen <==> exists k :: 0 <= k < i && X.BlocksOn(items[k], before.upstream, before.downstream)
        invariant Flow() == X.MeetDependency(before, seen, lineIndex)
      {
        Ids();
        X.MeetsTwice(before, seen, lineIndex);
        if X.NestedValue(items[i], Handoff, Id) == downstreamHandoffId {
          MeetReasons(lineIndex, ArrayField(items[i], Reasons));
          seen := seen || X.BlocksOn(items[i], before.upstream, before.downstream);
        }
      }
    }

    method ObserveHandoffProgress(lineIndex: nat, content: Json)
      modifies this
      ensures Seen() == old(Seen()) && Flow() == X.ObserveHandoffProgress(old(Flow()), lineIndex, content)
    {
      hide X.StringValue;
      hide ObjectField;
      var handoff := ObjectField(content, Handoff);
      var handoffId := X.StringValue(handoff, Id);
      if handoffId == upstreamHandoffId {
        if X.StringValue(handoff, Key.State) == "reviewed" && X.StringValue(handoff, ReviewDecision) == "approved" {
          RecordApproval(lineIndex);
        }
        if X.StringValue(handoff, Key.State) == "completed" {
          RecordUpstreamDone(lineIndex);
        }
      } else if handoffId == downstreamHandoffId {
        if X.StringValue(handoff, Key.State) == "completed" {
          RecordDownstreamDone(lineIndex);
        }
      }
    }

    method ObserveNextWork(lineIndex: nat, content: Json)
      requires lineIndex > 0
      modifies this
      ensures Seen() == old(Seen()) && Flow() == X.ObserveNextWork(old(Flow()), lineIndex, content)
    {
      hide Seen;
      hide Flow;
      hide X.NestedValue;
      hide X.MakeReady;
      hide ArrayField;
      Ids();
      if downstreamHandoffId == "" || !upstreamCompleted {
        return;
      }
      var items := ArrayField(content, Items);
      ghost var before := Flow();
      ghost var seen := false;
      X.ReadyTwice(before, seen, lineIndex);
      for i := 0 to |items|
        invariant Seen() == old(Seen())
        invariant seen <==> exists k :: 0 <= k < i && X.NestedValue(items[k], Handoff, Id) == before.downstream
        invariant Flow() == X.MakeReady(before, seen, lineIndex)
      {
        Ids();
        X.ReadyTwice(before, seen, lineIndex);
        if X.NestedValue(items[i], Handoff, Id) == downstreamHandoffId {
          RecordReady(lineIndex);
          seen := true;
        }
      }
    }

    /** One turn of the handoff loop of observeWorkflowStatus. */
    method CompleteListed(lineIndex: nat, handoff: Json)
      requires lineIndex > 0
      modifies this
      ensures Seen() == old(Seen())
      ensures var f := old(Flow()); Flow() == X.CompleteBoth(f, X.CompletedHandoff(handoff, f.upstream),
                f.downstream != f.upstream && X.CompletedHandoff(handoff, f.downstream), lineIndex)
    {
      hide X.StringValue;
      var id := X.StringValue(handoff, Id);
      if id == upstreamHandoffId {
        if X.StringValue(handoff, Key.State) == "completed" {
          RecordUpstreamDone(lineIndex);
        }
      } else if id == downstreamHandoffId {
        if X.StringValue(handoff, Key.State) == "completed" {
          RecordDownstreamDone(lineIndex);
        }
      }
    }

    /** The handoff loop of observeWorkflowStatus. */
    method CompleteAll(lineIndex: nat, handoffs: seq<Json>)
      requires lineIndex > 0
      modifies this
      ensures Seen() == old(Seen())
      ensures var f := old(Flow()); Flow() == X.CompleteBoth(f, X.Completes(handoffs, f.upstream),
                f.downstream != f.upstream && X.Completes(handoffs, f.downstream), lineIndex)
    {
      hide X.Completes;
      hide X.CompletedHandoff;
      hide X.CompleteBoth;
      hide Flow;
      hide Seen;
      ghost var before := Flow();
      X.NothingCompleted(before, handoffs, lineIndex);
      for i := 0 to |handoffs|
        invariant Seen() == old(Seen())
        invariant Flow() == X.CompleteBoth(before, X.Completes(handoffs[..i], before.upstream),
                    before.downstream != before.upstream && X.Completes(handoffs[..i], before.downstream), lineIndex)
      {
        X.CompletesMore(handoffs, i, before.upstream);
        X.CompletesMore(handoffs, i, before.downstream);
        X.CompleteBothTwice(before, X.Completes(handoffs[..i], before.upstream),
                            before.downstream != before.upstream && X.Completes(handoffs[..i], before.downstream),
                            X.CompletedHandoff(handoffs[i], before.upstream),
                            before.downstream != before.upstream && X.CompletedHandoff(handoffs[i], before.downstream),
                            lineIndex);
        CompleteListed(lineIndex, handoffs[i]);
      }
      assert handoffs[..|handoffs|] == handoffs;
    }

    method ObserveWorkflowStatus(lineIndex: nat, content: Json)
      requires lineIndex > 0
      modifies this
      ensures Seen() == old(Seen()) && Flow() == X.ObserveWorkflowStatus(old(Flow()), lineIndex, content)
    {
      hide Seen;
      hide Flow;
      hide X.StringValue;
      hide X.WorkflowObject;
      hide X.HandoffList;
      hide X.Completes;
      hide X.CompleteBoth;
      hide X.FinishWorkflow;
      Ids();
      var workflow := X.WorkflowObject(content);
      if X.StringValue(workflow, Id) != workflowId {
        return;
      }
      RecordStatus(X.StringValue(workflow, Status));
      CompleteAll(lineIndex, X.HandoffList(content));
      RecordFinish(lineIndex);
    }

    method ObserveEvidenceSummary(lineIndex: nat, content: Json)
      requires lineIndex > 0
      modifies this
      ensures Seen() == old(Seen()) && Flow() == X.ObserveEvidenceSummary(old(Flow()), lineIndex, content)
    {
      hide Seen;
      hide Flow;
      hide X.StringValue;
      hide X.Summarise;
      hide ArrayField;
      hide ObjectField;
      var workflows := ArrayField(ObjectField(content, Summary), Workflows);
      ghost var before := Flow();
      ghost var seen := false;
      X.SummarisesTwice(before, seen, lineIndex);
      for i := 0 to |workflows|
        invariant Seen() == old(Seen())
        invariant seen <==> exists k :: 0 <= k < i && X.CompletedWorkflow(workflows[k], before.workflowId)
        invariant Flow() == X.Summarise(before, seen, lineIndex)
      {
        Ids();
        X.SummarisesTwice(before, seen, lineIndex);
        if X.StringValue(workflows[i], Id) == workflowId && X.StringValue(workflows[i], Status) == "completed" {
          RecordSummary(lineIndex);
          seen := true;
        }
      }
    }

    method Observe(lineIndex: nat, tool: string, content: Json)
      requires lineIndex > 0
      modifies this
      ensures State() == X.Observe(old(State()), lineIndex, tool, content)
    {
      hide X.Inspect;
      if tool == "" {
        return;
      }
      toolsSeen := toolsSeen + {tool};
      if tool in X.FORBIDDEN {
        forbiddenToolsSeen := forbiddenToolsSeen + {tool};
      }
      assert Seen() == X.SeeTool(old(Seen()), tool) && Flow() == old(Flow());
      ObserveContent(lineIndex, X.ToolNamed(tool), content);
    }

    /** The switch of observe. */
    method ObserveContent(lineIndex: nat, tool: X.Tool, content: Json)
      requires lineIndex > 0
      modifies this
      ensures Seen() == old(Seen()) && Flow() == X.Inspect(old(Flow()), lineIndex, tool, content)
    {
      hide X.ObserveHandoffCreate;
      hide X.ObserveBlockedWork;
      hide X.ObserveHandoffProgress;
      hide X.ObserveNextWork;
      hide X.ObserveWorkflowStatus;
      hide X.ObserveEvidenceSummary;
      match tool
      case HandoffCreate => ObserveHandoffCreate(lineIndex, content);
      case BlockedWork => ObserveBlockedWork(lineIndex, content);
      case HandoffProgress => ObserveHandoffProgress(lineIndex, content);
      case NextWork => ObserveNextWork(lineIndex, content);
      case WorkflowStatus => ObserveWorkflowStatus(lineIndex, content);
      case EvidenceSummary => ObserveEvidenceSummary(lineIndex, content);
      case OtherTool =>
    }

    /** One turn of the scan loop. */
    method ObserveLine(lineIndex: nat, line: Line) returns (error: Option<ParseError>)
      requires lineIndex > 0
      modifies this
      ensures X.ScanLine(old(State()), lineIndex, line)
           == if error.None? then Ok(State()) else Err(error.value)
    {
      hide X.Observe;
      hide ExtractEventMetadata;
      hide ExtractToolResult;
      var metadata := ExtractEventMetadata(line, CLAWSIDE);
      if metadata.Err? {
        return Some(metadata.error);
      }
      if metadata.value.Some? {
        ObserveMetadata(metadata.value.value);
        if X.FromClawside(metadata.value.value) && metadata.value.value.tool in X.FORBIDDEN {
          ObserveForbiddenTool(metadata.value.value.tool);
          return None;
        }
      }
      var result := ExtractToolResult(line, CLAWSIDE);
      if result.Err? {
        return Some(result.error);
      }
      if result.value.Some? {
        Observe(lineIndex, result.value.value.tool, result.value.value.content);
      }
      return None;
    }
  }

  /** scanExternalRuntimeEvidence, on the lines that are not blank. */
  method Scan(lines: seq<Line>) returns (state: ExtractionState, error: Option<ParseError>)
    ensures fresh(state)
    ensures X.Scan(lines) == if error.None? then Ok(state.State()) else Err(error.value)
  {
    hide X.ScanLine;
    state := new ExtractionState();
    error := None;
    for lineIndex := 0 to |lines|
      invariant fresh(state) && error.None? && X.Scan(lines[..lineIndex]) == Ok(state.State())
    {
      assert lines[..lineIndex + 1][..lineIndex] == lines[..lineIndex];
      error := state.ObserveLine(lineIndex + 1, lines[lineIndex]);
      if error.Some? {
        ErrorStays(lines, lineIndex + 1, error.value);
        return;
      }
    }
    assert lines[..|lines|] == lines;
  }

  lemma {:induction false} ErrorStays(lines: seq<Line>, k: nat, error: ParseError)
    requires k <= |lines| && X.Scan(lines[..k]) == Err(error)
    ensures X.Scan(lines) == Err(error)
  {
    hide X.ScanLine;
    if k == |lines| {
      assert lines[..k] == lines;
    } else {
      assert lines[..|lines| - 1][..k] == lines[..k];
      ErrorStays(lines[..|lines| - 1], k, error);
    }
  }
}
