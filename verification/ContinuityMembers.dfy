/** What the 18 steps of an accepted continuity trace say, member by member of the JSON results. */
module ContinuityMembers {
  import opened Options
  import opened Text
  import opened Json
  import opened HandoffResults
  import opened Continuity

  /** The first of the three members that hold a kind, if any does, holds ours. */
  predicate OurKindSays(content: Json) {
    var ours := "manual_openclaw_truth_plane_continuity_smoke";
    if SpeaksIn(content, Workflow, Kind) then SaysIn(content, Workflow, Kind, ours)
    else if SpeaksIn(content, Workflow, WorkflowKind) then SaysIn(content, Workflow, WorkflowKind, ours)
    else SpeaksIn(content, Handoff, WorkflowKind) ==> SaysIn(content, Handoff, WorkflowKind, ours)
  }

  predicate EntrySays(entry: Json, handoffId: string, workflowId: string) {
    && entry.Obj?
    && (Speaks(entry, HandoffId) ==> Says(entry, HandoffId, handoffId))
    && (Speaks(entry, WorkflowId) ==> Says(entry, WorkflowId, workflowId))
  }

  /** There is no list, or one whose entries name no other ids. */
  predicate ListSays(content: Json, key: Key, handoffId: string, workflowId: string) {
    content.Obj? && key in content.fields && content.fields[key] != Null ==>
      && content.fields[key].Arr?
      && forall i :: 0 <= i < |content.fields[key].items| ==>
         EntrySays(content.fields[key].items[i], handoffId, workflowId)
  }

  /** The repair that agent main asked for: it reopens this handoff, as created, for the reason of the run. */
  ghost predicate RepairSays(content: Json, handoffId: string, r: RepairRecord) {
    exists source :: IsInner(content, Repair, source) && SourceSays(source, handoffId, r)
  }

  predicate SourceSays(source: Json, handoffId: string, r: RepairRecord) {
    && r.id != "" && Says(source, Id, r.id)
    && r.action == "reopen_handoff" && Says(source, Action, "reopen_handoff")
    && r.reason == "manual continuity smoke reopen completed handoff" && Says(source, Reason, r.reason)
    && r.actorType == "agent" && SaysIn(source, RequestedBy, Type, "agent")
    && r.actorId == "main" && SaysIn(source, RequestedBy, Id, "main")
    && r.reopenedState == "created" && Says(source, ReopenedState, "created")
    && Says(source, TargetType, "handoff") && Says(source, TargetId, handoffId)
  }

  /** The workflow in that status; the handoff, where it is listed, in no other workflow or state. */
  ghost predicate StatusSays(content: Json, handoffId: string, workflowId: string, status: string) {
    && (status == "active" || status == "completed")
    && (exists workflow ::
          IsWorkflow(content, workflow) && Says(workflow, Id, workflowId) && Says(workflow, Status, status))
    && forall handoffs, i :: IsHandoffList(content, handoffs) && IsListed(handoffs, i, handoffId) ==>
         && (Speaks(handoffs[i], WorkflowId) ==> Says(handoffs[i], WorkflowId, workflowId))
         && (Speaks(handoffs[i], State) ==> Says(handoffs[i], State, "completed"))
  }

  /** What the result of step k says. */
  ghost predicate StepSays(result: ToolResult, k: nat, handoffId: string, workflowId: string)
    requires k < |TOOLS|
  {
    var content := result.content;
    && result.tool == TOOLS[k]
    && if k == 0 then CreateSays(content, handoffId, workflowId) && OurKindSays(content)
       else if k == 1 || k == 10 then DispatchSays(content, handoffId, workflowId)
       else if k < 7 then ProgressSays(content, PROGRESSIONS[k - 2], handoffId, workflowId)
       else if k == 7 then ListSays(content, Divergences, handoffId, workflowId)
       else if k == 8 then ListSays(content, RepairCandidates, handoffId, workflowId)
       else if k == 9 then exists repair :: RepairSays(content, handoffId, repair)
       else if k < 16 then ProgressSays(content, PROGRESSIONS[k - 11], handoffId, workflowId)
       else if k == 16 then GetSays(content, handoffId, workflowId, "completed")
       else exists status :: StatusSays(content, handoffId, workflowId, status)
  }

  // ---------- each validator accepts exactly what says so ----------

  lemma KindExactly(content: Json)
    ensures OfOurKind(FirstNonEmpty(FirstNonEmpty(NestedString(content, Workflow, Kind),
                                                  NestedString(content, Workflow, WorkflowKind)),
                                    NestedString(content, Handoff, WorkflowKind)))
       <==> OurKindSays(content)
  {
    ReadsNested(content, Workflow, Kind, KIND);
    ReadsNested(content, Workflow, WorkflowKind, KIND);
    ReadsNested(content, Handoff, WorkflowKind, KIND);
    hide NestedString;
    hide SaysIn;
    hide SpeaksIn;
  }

  lemma StartExactly(result: ToolResult, handoffId: string, workflowId: string)
    requires handoffId != "" && workflowId != ""
    ensures Creates(result, handoffId, workflowId) <==>
      result.tool.HandoffCreate? && CreateSays(result.content, handoffId, workflowId) && OurKindSays(result.content)
  {
    CreateExactly(result.content, handoffId, workflowId);
    KindExactly(result.content);
    hide CreatedIds;
    hide CreateSays;
    hide OurKindSays;
    hide OfOurKind;
    hide NestedString;
  }

  lemma EntryExactly(entry: Json, handoffId: string, workflowId: string)
    requires handoffId != "" && workflowId != ""
    ensures EntryValid(entry, handoffId, workflowId) <==> EntrySays(entry, handoffId, workflowId)
  {
    ReadsString(entry, HandoffId, handoffId);
    ReadsString(entry, WorkflowId, workflowId);
    hide StringField;
    hide Says;
    hide Speaks;
  }

  lemma ListExactly(content: Json, key: Key, handoffId: string, workflowId: string)
    requires handoffId != "" && workflowId != ""
    ensures ListValid(content, key, handoffId, workflowId) <==> ListSays(content, key, handoffId, workflowId)
  {
    forall entry
      ensures EntryValid(entry, handoffId, workflowId) <==> EntrySays(entry, handoffId, workflowId)
    {
      EntryExactly(entry, handoffId, workflowId);
    }
    hide EntryValid;
    hide EntrySays;
  }

  lemma ActorReads(source: Json, key: Key, text: string)
    requires text != ""
    ensures StringField(Field(source, RequestedBy), key) == text <==> SaysIn(source, RequestedBy, key, text)
  {
  }

  lemma SourceExactly(source: Json, handoffId: string, r: RepairRecord)
    requires handoffId != ""
    ensures SourceSays(source, handoffId, r) <==>
      && ReadRepair(source) == r && RepairExpected(r)
      && StringField(source, TargetType) == "handoff" && StringField(source, TargetId) == handoffId
  {
    ReadsString(source, Id, r.id);
    ReadsString(source, Action, "reopen_handoff");
    ReadsString(source, Reason, REASON);
    ActorReads(source, Type, "agent");
    ActorReads(source, Id, "main");
    ReadsString(source, ReopenedState, "created");
    ReadsString(source, TargetType, "handoff");
    ReadsString(source, TargetId, handoffId);
    hide StringField;
    hide Field;
    hide Says;
    hide SaysIn;
  }

  lemma RepairExactly(content: Json, handoffId: string, r: RepairRecord)
    requires handoffId != ""
    ensures ValidRepair(content, handoffId) == Some(r) <==> RepairSays(content, handoffId, r)
  {
    RepairSourceIs(content);
    SourceExactly(RepairSource(content), handoffId, r);
    hide SourceSays;
    hide IsInner;
    hide RepairSource;
    hide ReadRepair;
    hide StringField;
    hide RepairExpected;
  }

  lemma StatusExactly(content: Json, handoffId: string, workflowId: string, status: string)
    requires handoffId != "" && workflowId != ""
    ensures FinalStatus(content, handoffId, workflowId) == Some(status) <==>
      StatusSays(content, handoffId, workflowId, status)
  {
    StatusWorkflowIs(content);
    var workflow, handoffs := StatusWorkflow(content), StatusHandoffs(content);
    ReadsString(workflow, Id, workflowId);
    ReadsString(workflow, Status, status);
    ListedIs(handoffs, handoffId);
    var listed := ListedHandoff(handoffs, handoffId);
    ReadsString(listed, WorkflowId, workflowId);
    ReadsString(listed, State, "completed");
    HandoffListIs(content, handoffs);
    NothingListed(handoffId);
    NullIsSilent();
    forall all | IsHandoffList(content, all)
      ensures all == handoffs
    {
      HandoffListIs(content, all);
    }
    hide StatusWorkflow;
    hide StatusHandoffs;
    hide ListedHandoff;
    hide IsWorkflow;
    hide IsListed;
    hide IsHandoffList;
    hide StringField;
    hide Says;
    hide Speaks;
  }

  lemma NothingListed(handoffId: string)
    ensures forall i :: !IsListed([], i, handoffId)
  {
  }

  lemma NullIsSilent()
    ensures forall key :: StringField(Null, key) == ""
  {
  }

  lemma RepairFound(content: Json, handoffId: string)
    requires handoffId != ""
    ensures ValidRepair(content, handoffId).Some? <==> exists r :: RepairSays(content, handoffId, r)
  {
    hide ValidRepair;
    hide RepairSays;
    forall r
      ensures ValidRepair(content, handoffId) == Some(r) <==> RepairSays(content, handoffId, r)
    {
      RepairExactly(content, handoffId, r);
    }
    if ValidRepair(content, handoffId).Some? {
      assert RepairSays(content, handoffId, ValidRepair(content, handoffId).value);
    }
  }

  lemma StatusFound(content: Json, handoffId: string, workflowId: string)
    requires handoffId != "" && workflowId != ""
    ensures FinalStatus(content, handoffId, workflowId).Some? <==>
      exists status :: StatusSays(content, handoffId, workflowId, status)
  {
    hide FinalStatus;
    hide StatusSays;
    forall status
      ensures FinalStatus(content, handoffId, workflowId) == Some(status)
         <==> StatusSays(content, handoffId, workflowId, status)
    {
      StatusExactly(content, handoffId, workflowId, status);
    }
    if FinalStatus(content, handoffId, workflowId).Some? {
      assert StatusSays(content, handoffId, workflowId, FinalStatus(content, handoffId, workflowId).value);
    }
  }

  /** A result is a valid step exactly when it says what the step needs. */
  lemma StepExactly(result: ToolResult, k: nat, handoffId: string, workflowId: string)
    requires k < |TOOLS| && handoffId != "" && workflowId != ""
    ensures ShowsStep(result, k, handoffId, workflowId) <==> StepSays(result, k, handoffId, workflowId)
  {
    hide Creates;
    hide CreateSays;
    hide OurKindSays;
    hide DispatchValid;
    hide DispatchSays;
    hide ProgressionValid;
    hide ProgressSays;
    hide ListValid;
    hide ListSays;
    hide ValidRepair;
    hide RepairSays;
    hide FinalHandoffValid;
    hide GetSays;
    hide FinalStatus;
    hide StatusSays;
    var content := result.content;
    if k == 0 {
      StartExactly(result, handoffId, workflowId);
    } else if k == 1 || k == 10 {
      DispatchExactly(content, handoffId, workflowId);
    } else if k < 7 {
      ProgressExactly(content, PROGRESSIONS[k - 2], handoffId, workflowId);
    } else if k == 7 {
      ListExactly(content, Divergences, handoffId, workflowId);
    } else if k == 8 {
      ListExactly(content, RepairCandidates, handoffId, workflowId);
    } else if k == 9 {
      RepairFound(content, handoffId);
    } else if k < 16 {
      ProgressExactly(content, PROGRESSIONS[k - 11], handoffId, workflowId);
    } else if k == 16 {
      GetExactly(content, handoffId, workflowId, "completed");
    } else {
      StatusFound(content, handoffId, workflowId);
    }
  }

  // ---------- what an accepted trace says ----------

  lemma WitnessHasIds(results: seq<ToolResult>, path: seq<nat>, handoffId: string, workflowId: string)
    requires Witness(results, path, handoffId, workflowId) && path != []
    ensures handoffId != "" && workflowId != ""
  {
    assert ShowsStep(results[path[0]], 0, handoffId, workflowId);
    hide Witness;
    CreateHasIds(results[path[0]].content);
  }

  lemma CreateHasIds(content: Json)
    ensures CreateIds(content).Some? ==>
      CreateIds(content).value.handoffId != "" && CreateIds(content).value.workflowId != ""
  {
    hide CreatedIds;
    hide NestedString;
  }

  /** An accepted trace holds, at increasing positions, 18 results that say what the steps need for the ids of
      its summary; the repair and the status in the summary are what the tenth and the last of them say. */
  lemma AcceptedSays(results: seq<ToolResult>) returns (path: seq<nat>)
    requires Verdict(results).Ok?
    ensures |path| == |TOOLS| && Increasing(path, |results|)
    ensures var s := Verdict(results).value;
      && (forall k :: 0 <= k < |TOOLS| ==> StepSays(results[path[k]], k, s.handoffId, s.workflowId))
      && RepairSays(results[path[9]].content, s.handoffId, s.repair)
      && StatusSays(results[path[17]].content, s.handoffId, s.workflowId, s.workflowStatus)
      && s.handoffState == "completed"
  {
    path := AcceptedIsAccounted(results);
    var s := Verdict(results).value;
    hide Verdict;
    WitnessHasIds(results, path, s.handoffId, s.workflowId);
    RepairExactly(results[path[9]].content, s.handoffId, s.repair);
    StatusExactly(results[path[17]].content, s.handoffId, s.workflowId, s.workflowStatus);
    hide StepSays;
    hide ShowsStep;
    hide RepairSays;
    hide StatusSays;
    hide ValidRepair;
    hide FinalStatus;
    hide StartsFlow;
    hide Undisputed;
    forall k | 0 <= k < |TOOLS|
      ensures StepSays(results[path[k]], k, s.handoffId, s.workflowId)
    {
      assert ShowsStep(results[path[k]], k, s.handoffId, s.workflowId);
      StepExactly(results[path[k]], k, s.handoffId, s.workflowId);
    }
  }

  /** And 18 results that say so, one after the other, are accepted, whatever flows came before them. */
  lemma SayingIsEnough(before: seq<ToolResult>, steps: seq<ToolResult>, handoffId: string, workflowId: string)
    requires Run(before).Some? && |steps| == |TOOLS| && handoffId != "" && workflowId != ""
    requires forall k :: 0 <= k < |TOOLS| ==> StepSays(steps[k], k, handoffId, workflowId)
    ensures Verdict(before + steps).Ok?
    ensures Verdict(before + steps).value.handoffId == handoffId
    ensures Verdict(before + steps).value.workflowId == workflowId
  {
    hide StepSays;
    hide ShowsStep;
    hide Run;
    hide Verdict;
    forall k | 0 <= k < |TOOLS|
      ensures ShowsStep(steps[k], k, handoffId, workflowId)
    {
      StepExactly(steps[k], k, handoffId, workflowId);
    }
    CleanFlowIsAccepted(before, steps, handoffId, workflowId);
  }
}
