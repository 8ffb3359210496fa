/** The extractXToolResults loops of the truth-plane extractors: from the lines of a trajectory to the
    results of the extractor's own tools, and what is chosen from them. */
module TraceResults {
  import opened Options
  import opened Json
  import T = Trajectory
  import opened HandoffResults
  import opened Flows
  import ProgressionFlow
  import RepairFlow
  import MutationFlow
  import DeliveryFlow

  function ToolNamed(name: string): Option<Tool> {
    if HandoffToolNamed(name).Some? then HandoffToolNamed(name)
    else if RepairToolNamed(name).Some? then RepairToolNamed(name)
    else SenderToolNamed(name)
  }

  function HandoffToolNamed(name: string): Option<Tool> {
    if name == "handoff_create" then Some(HandoffCreate)
    else if name == "handoff_dispatch" then Some(HandoffDispatch)
    else if name == "handoff_progress" then Some(HandoffProgress)
    else if name == "handoff_get" then Some(HandoffGet)
    else if name == "workflow_status" then Some(WorkflowStatus)
    else if name == "divergence_list" then Some(DivergenceList)
    else None
  }

  function RepairToolNamed(name: string): Option<Tool> {
    if name == "repair_candidate_list" then Some(RepairCandidateList)
    else if name == "repair_reopen_handoff" then Some(RepairReopenHandoff)
    else if name == "repair_invalidate_event" then Some(RepairInvalidateEvent)
    else if name == "repair_backfill_event" then Some(RepairBackfillEvent)
    else if name == "repair_list" then Some(RepairList)
    else if name == "watch_list" then Some(WatchList)
    else if name == "watch_update" then Some(WatchUpdate)
    else None
  }

  function SenderToolNamed(name: string): Option<Tool> {
    if name == "ownership_update" then Some(OwnershipUpdate)
    else if name == "ownership_get" then Some(OwnershipGet)
    else if name == "a2a_deliver" then Some(A2ADeliver)
    else if name == "sender_job_get" then Some(SenderJobGet)
    else if name == "sender_job_list" then Some(SenderJobList)
    else if name == "sender_stats" then Some(SenderStats)
    else None
  }

  predicate Parses(line: T.Line) {
    T.ExtractToolResult(line, T.CLAWSIDE).Ok?
  }

  /** The result on a line, if it is of a tool that the extractor keeps. */
  function KeptOn(line: T.Line, keep: Tool -> bool): seq<ToolResult>
    requires Parses(line)
  {
    match T.ExtractToolResult(line, T.CLAWSIDE).value
    case None => []
    case Some(r) =>
      var tool := ToolNamed(r.tool);
      if tool.Some? && keep(tool.value) then [ToolResult(tool.value, r.content)] else []
  }

  /** All the kept results, or the error of the first line that does not parse. */
  function Results(lines: seq<T.Line>, keep: Tool -> bool): Result<seq<ToolResult>, T.ParseError>
    decreases |lines|
  {
    if lines == [] then Ok([])
    else
      var n := |lines| - 1;
      match Results(lines[..n], keep)
      case Err(e) => Err(e)
      case Ok(results) =>
        if Parses(lines[n]) then Ok(results + KeptOn(lines[n], keep))
        else Err(T.ExtractToolResult(lines[n], T.CLAWSIDE).error)
  }

  method ExtractToolResults(lines: seq<T.Line>, keep: Tool -> bool)
    returns (read: Result<seq<ToolResult>, T.ParseError>)
    ensures read == Results(lines, keep)
  {
    hide T.ExtractToolResult;
    hide ToolNamed;
    var results: seq<ToolResult> := [];
    for i := 0 to |lines|
      invariant Results(lines[..i], keep) == Ok(results)
    {
      assert lines[..i + 1][..i] == lines[..i];
      var result := T.ExtractToolResult(lines[i], T.CLAWSIDE);
      if result.Err? {
        ErrorStays(lines, i + 1, keep);
        return Err(result.error);
      }
      assert results + [] == results;
      if result.value.Some? {
        var tool := ToolNamed(result.value.value.tool);
        if tool.Some? && keep(tool.value) {
          results := results + [ToolResult(tool.value, result.value.value.content)];
        }
      }
    }
    assert lines[..|lines|] == lines;
    return Ok(results);
  }

  lemma {:induction false} ErrorStays(lines: seq<T.Line>, k: nat, keep: Tool -> bool)
    requires k <= |lines| && Results(lines[..k], keep).Err?
    ensures Results(lines, keep) == Results(lines[..k], keep)
    decreases |lines|
  {
    hide Parses;
    hide KeptOn;
    if k == |lines| {
      assert lines[..k] == lines;
    } else {
      assert lines[..|lines| - 1][..k] == lines[..k];
      ErrorStays(lines[..|lines| - 1], k, keep);
    }
  }

  ghost predicate AllParse(lines: seq<T.Line>) {
    forall k :: 0 <= k < |lines| ==> Parses(lines[k])
  }

  /** More lines only add results, as long as every one of them parses; otherwise there are none. */
  lemma {:induction false} ResultsGrow(lines: seq<T.Line>, more: seq<T.Line>, keep: Tool -> bool)
    requires Results(lines, keep).Ok?
    ensures Results(lines + more, keep).Ok? <==> AllParse(more)
    ensures Results(lines + more, keep).Ok? ==> Results(lines, keep).value <= Results(lines + more, keep).value
    decreases |more|
  {
    hide Parses;
    hide KeptOn;
    if more == [] {
      assert lines + more == lines;
    } else {
      var n := |more| - 1;
      ResultsGrow(lines, more[..n], keep);
      assert (lines + more)[..|lines + more| - 1] == lines + more[..n];
      assert more == more[..n] + [more[n]];
    }
  }

  /** What an extractor chooses from a trajectory; nothing when some line does not parse. */
  function Extracted<P>(flow: (seq<ToolResult>, nat) -> Option<P>, keep: Tool -> bool,
                        lines: seq<T.Line>): Option<Chosen<P>>
  {
    match Results(lines, keep)
    case Err(_) => None
    case Ok(results) => Choose(flow, results, |results|)
  }

  /** Extension stability over lines: an accepted trajectory stays accepted by a longer one exactly when
      every further line parses; then the choice never moves back, and changes only to a later success. */
  lemma TrajectoryStability<P>(flow: (seq<ToolResult>, nat) -> Option<P>, keep: Tool -> bool, lines: seq<T.Line>,
                               more: seq<T.Line>)
    requires Stable(flow) && Extracted(flow, keep, lines).Some?
    ensures Extracted(flow, keep, lines + more).Some? <==> AllParse(more)
    ensures AllParse(more) ==>
      && Results(lines + more, keep).Ok?
      && var before, after := Extracted(flow, keep, lines).value, Extracted(flow, keep, lines + more).value;
         var results := Results(lines + more, keep).value;
      && after.start >= before.start
      && (after == before <==> forall j :: before.start < j < |results| ==> flow(results, j).None?)
  {
    hide Results;
    hide AllParse;
    ResultsGrow(lines, more, keep);
    if AllParse(more) {
      var before, all := Results(lines, keep).value, Results(lines + more, keep).value;
      assert all == before + all[|before|..];
      ExtensionStability(flow, before, all[|before|..]);
    }
  }

  // ---------- the four extractors ----------

  /** isProgressionTool. */
  predicate IsProgressionTool(tool: Tool) {
    tool.HandoffCreate? || tool.HandoffDispatch? || tool.HandoffProgress? || tool.HandoffGet? || tool.WorkflowStatus?
  }

  /** isRepairTool. */
  predicate IsRepairTool(tool: Tool) {
    tool in RepairFlow.TOOLS
  }

  /** isMutationTool. */
  predicate IsMutationTool(tool: Tool) {
    tool in MutationFlow.TOOLS
  }

  /** isDeliveryTool. */
  predicate IsDeliveryTool(tool: Tool) {
    tool in DeliveryFlow.TOOLS || tool.SenderStats?
  }

  /** A trajectory that one of the four extractors accepts stays accepted exactly as long as it parses. */
  lemma AcceptedTrajectoriesStay(lines: seq<T.Line>, more: seq<T.Line>)
    ensures Extracted(ProgressionFlow.Flow, IsProgressionTool, lines).Some? ==>
      (Extracted(ProgressionFlow.Flow, IsProgressionTool, lines + more).Some? <==> AllParse(more))
    ensures Extracted(RepairFlow.Flow, IsRepairTool, lines).Some? ==>
      (Extracted(RepairFlow.Flow, IsRepairTool, lines + more).Some? <==> AllParse(more))
    ensures Extracted(MutationFlow.Flow, IsMutationTool, lines).Some? ==>
      (Extracted(MutationFlow.Flow, IsMutationTool, lines + more).Some? <==> AllParse(more))
    ensures Extracted(DeliveryFlow.Flow, IsDeliveryTool, lines).Some? ==>
      (Extracted(DeliveryFlow.Flow, IsDeliveryTool, lines + more).Some? <==> AllParse(more))
  {
    hide Extracted;
    hide AllParse;
    ProgressionFlow.FlowIsStable();
    RepairFlow.FlowIsStable();
    MutationFlow.FlowIsStable();
    DeliveryFlow.FlowIsStable();
    hide Stable;
    if Extracted(ProgressionFlow.Flow, IsProgressionTool, lines).Some? {
      TrajectoryStability(ProgressionFlow.Flow, IsProgressionTool, lines, more);
    }
    if Extracted(RepairFlow.Flow, IsRepairTool, lines).Some? {
      TrajectoryStability(RepairFlow.Flow, IsRepairTool, lines, more);
    }
    if Extracted(MutationFlow.Flow, IsMutationTool, lines).Some? {
      TrajectoryStability(MutationFlow.Flow, IsMutationTool, lines, more);
    }
    if Extracted(DeliveryFlow.Flow, IsDeliveryTool, lines).Some? {
      TrajectoryStability(DeliveryFlow.Flow, IsDeliveryTool, lines, more);
    }
  }

  // ---------- which results are kept ----------

  lemma HandoffNamedBack(name: string)
    ensures HandoffToolNamed(name).Some? ==>
      HandoffToolNamed(name).value != OtherTool && ToolName(HandoffToolNamed(name).value) == name
  {
  }

  lemma HandoffNames(tool: Tool)
    ensures HandoffToolNamed(ToolName(tool)) in {None, Some(tool)}
  {
  }

  lemma RepairNamedBack(name: string)
    ensures RepairToolNamed(name).Some? ==>
      RepairToolNamed(name).value != OtherTool && ToolName(RepairToolNamed(name).value) == name
  {
  }

  lemma RepairNames(tool: Tool)
    ensures RepairToolNamed(ToolName(tool)) in {None, Some(tool)}
  {
  }

  lemma SenderNamedBack(name: string)
    ensures SenderToolNamed(name).Some? ==>
      SenderToolNamed(name).value != OtherTool && ToolName(SenderToolNamed(name).value) == name
  {
  }

  lemma SenderNames(tool: Tool)
    ensures SenderToolNamed(ToolName(tool)) in {None, Some(tool)}
  {
  }

  lemma SomeNames(tool: Tool)
    requires tool != OtherTool
    ensures HandoffToolNamed(ToolName(tool)).Some? || RepairToolNamed(ToolName(tool)).Some?
            || SenderToolNamed(ToolName(tool)).Some?
  {
  }

  lemma NamedOnce(name: string, tool: Tool)
    requires tool != OtherTool
    ensures ToolNamed(name) == Some(tool) <==> name == ToolName(tool)
  {
    HandoffNamedBack(name);
    RepairNamedBack(name);
    SenderNamedBack(name);
    HandoffNames(tool);
    RepairNames(tool);
    SenderNames(tool);
    SomeNames(tool);
    hide HandoffToolNamed;
    hide RepairToolNamed;
    hide SenderToolNamed;
    hide ToolName;
  }

  /** A line gives exactly the result of the tool it names, when the extractor keeps that tool. */
  lemma KeptExactly(line: T.Line, keep: Tool -> bool, tool: Tool, content: Json)
    requires Parses(line) && tool != OtherTool
    ensures KeptOn(line, keep) == [ToolResult(tool, content)] <==>
      && keep(tool)
      && T.ExtractToolResult(line, T.CLAWSIDE) == Ok(Some(T.ToolResult(ToolName(tool), content)))
    ensures |KeptOn(line, keep)| <= 1
  {
    var read := T.ExtractToolResult(line, T.CLAWSIDE).value;
    hide T.ExtractToolResult;
    if read.Some? {
      NamedOnce(read.value.tool, tool);
    }
    hide ToolNamed;
    hide ToolName;
  }

  /** The results of a trajectory that parses are those of its lines, in order. */
  lemma ResultsOneMore(lines: seq<T.Line>, line: T.Line, keep: Tool -> bool)
    requires Results(lines, keep).Ok? && Parses(line)
    ensures Results(lines + [line], keep) == Ok(Results(lines, keep).value + KeptOn(line, keep))
    ensures Results([], keep) == Ok([])
  {
    hide Parses;
    hide KeptOn;
    var all := lines + [line];
    assert all[..|all| - 1] == lines && all[|all| - 1] == line;
  }

  /** The tools that the four extractors keep. */
  lemma KeptTools(tool: Tool)
    ensures IsProgressionTool(tool) <==>
      tool in [HandoffCreate, HandoffDispatch, HandoffProgress, HandoffGet, WorkflowStatus]
    ensures IsRepairTool(tool) <==>
      tool in [HandoffCreate, HandoffDispatch, HandoffProgress, RepairInvalidateEvent, RepairBackfillEvent, RepairList,
               HandoffGet]
    ensures IsMutationTool(tool) <==>
      tool in [HandoffCreate, WatchList, WatchUpdate, OwnershipUpdate, OwnershipGet]
    ensures IsDeliveryTool(tool) <==>
      tool in [HandoffCreate, HandoffDispatch, A2ADeliver, SenderJobGet, SenderJobList, SenderStats, HandoffGet,
               WorkflowStatus]
  {
  }
}
