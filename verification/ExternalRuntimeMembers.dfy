/** What a tool result must say to show a milestone of the external runtime lifecycle, member by member. All
    its strings are read without the white space around them. */
module ExternalRuntimeMembers {
  import opened Options
  import opened Text
  import opened Json
  import opened ExternalRuntime
  import opened ExternalRuntimeLifecycle
  import opened Trajectory

  /** The member is that string, apart from white space around it. */
  predicate Names(value: Json, key: Key, text: string) {
    value.Obj? && key in value.fields && value.fields[key].Str? && Trim(value.fields[key].text) == text
  }

  predicate NamesIn(value: Json, outer: Key, key: Key, text: string) {
    value.Obj? && outer in value.fields && Names(value.fields[outer], key, text)
  }

  /** Some string of the list is that text. */
  ghost predicate ListNames(value: Json, outer: Key, key: Key, text: string) {
    exists inner, items: seq<Json>, i ::
      && Has(value, outer, inner) && Lists(inner, key, items) && 0 <= i < |items|
      && items[i].Str? && Trim(items[i].text) == text
  }

  predicate ReviewedHandoff(content: Json) {
    content.Obj? && Handoff in content.fields && Confirms(content.fields[Handoff], NeedsReview)
  }

  /** A create of that handoff in that workflow. */
  predicate CreateNames(content: Json, workflow: string, id: string) {
    workflow != "" && id != "" && NamesIn(content, Workflow, Id, workflow) && NamesIn(content, Handoff, Id, id)
  }

  /** Some listed item is the downstream handoff, blocked for want of the upstream one. */
  ghost predicate BlockSays(content: Json, upstream: string, downstream: string) {
    exists items: seq<Json>, i, reasons: seq<Json>, j ::
      && Lists(content, Items, items) && 0 <= i < |items| && NamesIn(items[i], Handoff, Id, downstream)
      && Lists(items[i], Reasons, reasons) && 0 <= j < |reasons|
      && Names(reasons[j], Code, "dependency_incomplete") && Names(reasons[j], DependencyHandoffId, upstream)
  }

  predicate ApprovalSays(content: Json, id: string) {
    && NamesIn(content, Handoff, Id, id) && NamesIn(content, Handoff, State, "reviewed")
    && NamesIn(content, Handoff, ReviewDecision, "approved")
  }

  predicate ProgressSays(content: Json, id: string) {
    NamesIn(content, Handoff, Id, id) && NamesIn(content, Handoff, State, "completed")
  }

  /** The workflow of a workflow_status: the object under the lower-case name, or else the other one. */
  predicate IsWorkflow(content: Json, workflow: Json) {
    if content.Obj? && Workflow in content.fields && content.fields[Workflow].Obj?
    then workflow == content.fields[Workflow]
    else Has(content, UpperWorkflow, workflow)
  }

  predicate IsHandoffList(content: Json, handoffs: seq<Json>) {
    if content.Obj? && Handoffs in content.fields && content.fields[Handoffs].Arr?
    then content.fields[Handoffs] == Arr(handoffs)
    else Lists(content, UpperHandoffs, handoffs)
  }

  ghost predicate StatusOfWorkflow(content: Json, workflow: string) {
    exists value :: IsWorkflow(content, value) && Names(value, Id, workflow)
  }

  /** The status of the workflow lists the handoff as completed. */
  ghost predicate StatusSays(content: Json, workflow: string, id: string) {
    && StatusOfWorkflow(content, workflow)
    && exists handoffs: seq<Json>, i :: IsHandoffList(content, handoffs) && 0 <= i < |handoffs|
         && Names(handoffs[i], Id, id) && Names(handoffs[i], State, "completed")
  }

  ghost predicate CompletionSays(tool: Tool, content: Json, workflow: string, id: string) {
    || (tool == HandoffProgress && ProgressSays(content, id))
    || (tool == WorkflowStatus && StatusSays(content, workflow, id))
  }

  ghost predicate ReadySays(content: Json, downstream: string) {
    exists items: seq<Json>, i ::
      Lists(content, Items, items) && 0 <= i < |items| && NamesIn(items[i], Handoff, Id, downstream)
  }

  ghost predicate ClosedSays(content: Json, workflow: string) {
    exists value :: IsWorkflow(content, value) && Names(value, Id, workflow) && Names(value, Status, "completed")
  }

  ghost predicate SummarySays(content: Json, workflow: string) {
    exists summary, workflows: seq<Json>, i ::
      && Has(content, Summary, summary) && Lists(summary, Workflows, workflows) && 0 <= i < |workflows|
      && Names(workflows[i], Id, workflow) && Names(workflows[i], Status, "completed")
  }

  /** A create in that workflow, or in any while none is known. */
  ghost predicate CreateSays(content: Json, workflow: string) {
    exists w, id :: CreateNames(content, w, id) && (workflow == "" || workflow == w)
  }

  /** What the tool result says when it shows the milestone. */
  ghost predicate Says(m: Milestone, tool: Tool, content: Json, ids: Ids) {
    match m
    case UpstreamCreated => tool == HandoffCreate && ReviewedHandoff(content) && CreateSays(content, ids.workflow)
    case DownstreamCreated =>
      && tool == HandoffCreate && !ReviewedHandoff(content) && CreateSays(content, ids.workflow)
      && ids.upstream != "" && ListNames(content, Handoff, DependsOnHandoffIds, ids.upstream)
    case DependencyMet =>
      && tool == BlockedWork && ids.upstream != "" && ids.downstream != ""
      && BlockSays(content, ids.upstream, ids.downstream)
    case ReviewApproved => tool == HandoffProgress && ApprovalSays(content, ids.upstream)
    case UpstreamCompleted => CompletionSays(tool, content, ids.workflow, ids.upstream)
    case DownstreamReadied => tool == NextWork && ids.downstream != "" && ReadySays(content, ids.downstream)
    case DownstreamCompleted =>
      ids.downstream != ids.upstream && CompletionSays(tool, content, ids.workflow, ids.downstream)
    case WorkflowFinished => tool == WorkflowStatus && ClosedSays(content, ids.workflow)
    case EvidenceSummarised => tool == EvidenceSummary && SummarySays(content, ids.workflow)
  }

  /** The ids by which the milestone goes are known. */
  predicate KnownFor(m: Milestone, ids: Ids) {
    && Trim(ids.upstream) == ids.upstream
    && (m == ReviewApproved || m == UpstreamCompleted ==> ids.upstream != "")
    && (m == DownstreamCompleted ==> ids.downstream != "")
    && (m == UpstreamCompleted || m == DownstreamCompleted || m == WorkflowFinished || m == EvidenceSummarised ==>
          ids.workflow != "")
  }

  // ---------- the readers return what is named ----------

  lemma ReadsName(value: Json, key: Key, text: string)
    requires text != ""
    ensures StringValue(value, key) == text <==> Names(value, key, text)
  {
  }

  lemma ReadsNameIn(value: Json, outer: Key, key: Key, text: string)
    requires text != ""
    ensures NestedValue(value, outer, key) == text <==> NamesIn(value, outer, key, text)
    ensures StringValue(ObjectField(value, outer), key) == text <==> NamesIn(value, outer, key, text)
  {
    hide Trim;
  }

  lemma CreateNamesExactly(content: Json, w: string, id: string)
    ensures CreateNames(content, w, id) <==> ExternalRuntime.Names(content) && NestedValue(content, Workflow, Id) == w
                                             && CreatedId(content) == id
  {
    hide StringValue;
    hide NestedValue;
    hide ObjectField;
    hide NamesIn;
    if w != "" && id != "" {
      ReadsNameIn(content, Workflow, Id, w);
      ReadsNameIn(content, Handoff, Id, id);
    }
  }

  lemma CreateExactly(content: Json, workflow: string)
    ensures Belongs(content, workflow) <==> CreateSays(content, workflow)
  {
    hide NestedValue;
    hide CreatedId;
    hide CreateNames;
    forall w, id
      ensures CreateNames(content, w, id) <==> ExternalRuntime.Names(content) && NestedValue(content, Workflow, Id) == w
                                               && CreatedId(content) == id
    {
      CreateNamesExactly(content, w, id);
    }
    if Belongs(content, workflow) {
      assert CreateNames(content, NestedValue(content, Workflow, Id), CreatedId(content));
    }
  }

  lemma ReviewExactly(content: Json)
    ensures BoolField(ObjectField(content, Handoff), NeedsReview) <==> ReviewedHandoff(content)
  {
  }

  lemma DependsExactly(content: Json, upstream: string)
    requires Trim(upstream) != ""
    ensures DependsOn(content, upstream) <==> ListNames(content, Handoff, DependsOnHandoffIds, upstream)
  {
    hide Trim;
    var handoff := ObjectField(content, Handoff);
    var items := ArrayField(handoff, DependsOnHandoffIds);
    if DependsOn(content, upstream) {
      assert Has(content, Handoff, handoff) && Lists(handoff, DependsOnHandoffIds, items);
    }
    if ListNames(content, Handoff, DependsOnHandoffIds, upstream) {
      var inner, listed: seq<Json>, i :| Has(content, Handoff, inner) && Lists(inner, DependsOnHandoffIds, listed)
        && 0 <= i < |listed| && listed[i].Str? && Trim(listed[i].text) == upstream;
      assert inner == handoff && listed == items;
    }
  }

  lemma ReasonExactly(reason: Json, upstream: string)
    requires upstream != ""
    ensures IsDependencyReason(reason, upstream) <==>
      Names(reason, Code, "dependency_incomplete") && Names(reason, DependencyHandoffId, upstream)
  {
    ReadsName(reason, Code, "dependency_incomplete");
    ReadsName(reason, DependencyHandoffId, upstream);
    hide StringValue;
    hide Names;
  }

  lemma ItemBlocks(item: Json, upstream: string, downstream: string)
    requires upstream != "" && downstream != ""
    ensures BlocksOn(item, upstream, downstream) <==>
      && NamesIn(item, Handoff, Id, downstream)
      && exists reasons: seq<Json>, j :: Lists(item, Reasons, reasons) && 0 <= j < |reasons|
           && Names(reasons[j], Code, "dependency_incomplete") && Names(reasons[j], DependencyHandoffId, upstream)
  {
    ReadsNameIn(item, Handoff, Id, downstream);
    var listed := ArrayField(item, Reasons);
    ReadsArray(item, Reasons, listed);
    forall reason
      ensures IsDependencyReason(reason, upstream)
         <==> Names(reason, Code, "dependency_incomplete") && Names(reason, DependencyHandoffId, upstream)
    {
      ReasonExactly(reason, upstream);
    }
    forall all | Lists(item, Reasons, all)
      ensures all == listed
    {
      ReadsArray(item, Reasons, all);
    }
    hide ArrayField;
    hide Lists;
    hide NestedValue;
    hide NamesIn;
    hide Names;
    hide IsDependencyReason;
  }

  lemma BlockExactly(content: Json, upstream: string, downstream: string)
    requires upstream != "" && downstream != ""
    ensures ListsBlocked(content, upstream, downstream) <==> BlockSays(content, upstream, downstream)
  {
    var listed := ArrayField(content, Items);
    ReadsArray(content, Items, listed);
    forall i | 0 <= i < |listed|
      ensures BlocksOn(listed[i], upstream, downstream) <==>
        && NamesIn(listed[i], Handoff, Id, downstream)
        && exists reasons: seq<Json>, j :: Lists(listed[i], Reasons, reasons) && 0 <= j < |reasons|
             && Names(reasons[j], Code, "dependency_incomplete") && Names(reasons[j], DependencyHandoffId, upstream)
    {
      ItemBlocks(listed[i], upstream, downstream);
    }
    forall all | Lists(content, Items, all)
      ensures all == listed
    {
      ReadsArray(content, Items, all);
    }
    hide ArrayField;
    hide Lists;
    hide NamesIn;
    hide Names;
    hide BlocksOn;
  }

  lemma HandoffExactly(content: Json, id: string)
    requires id != ""
    ensures Approves(content, id) <==> ApprovalSays(content, id)
    ensures CompletedHandoff(ObjectField(content, Handoff), id) <==> ProgressSays(content, id)
  {
    ReadsNameIn(content, Handoff, Id, id);
    ReadsNameIn(content, Handoff, State, "reviewed");
    ReadsNameIn(content, Handoff, State, "completed");
    ReadsNameIn(content, Handoff, ReviewDecision, "approved");
    hide StringValue;
    hide NestedValue;
    hide ObjectField;
    hide NamesIn;
  }

  lemma WorkflowObjectIs(content: Json, key: Key, text: string)
    requires text != ""
    ensures forall value :: IsWorkflow(content, value) && Names(value, key, text) ==> value == WorkflowObject(content)
    ensures Names(WorkflowObject(content), key, text) ==> IsWorkflow(content, WorkflowObject(content))
  {
    hide Trim;
  }

  lemma WorkflowExactly(content: Json, workflow: string)
    requires workflow != ""
    ensures StringValue(WorkflowObject(content), Id) == workflow <==> StatusOfWorkflow(content, workflow)
    ensures CompletedWorkflow(WorkflowObject(content), workflow) <==> ClosedSays(content, workflow)
  {
    WorkflowObjectIs(content, Id, workflow);
    ReadsName(WorkflowObject(content), Id, workflow);
    ReadsName(WorkflowObject(content), Status, "completed");
    hide StringValue;
    hide Names;
    hide WorkflowObject;
    hide IsWorkflow;
  }

  lemma HandoffListIs(content: Json, handoffs: seq<Json>)
    ensures IsHandoffList(content, handoffs) ==> HandoffList(content) == handoffs
    ensures HandoffList(content) != [] ==> IsHandoffList(content, HandoffList(content))
  {
  }

  lemma StatusExactly(content: Json, workflow: string, id: string)
    requires workflow != "" && id != ""
    ensures StringValue(WorkflowObject(content), Id) == workflow && Completes(HandoffList(content), id)
       <==> StatusSays(content, workflow, id)
  {
    WorkflowExactly(content, workflow);
    var listed := HandoffList(content);
    HandoffListIs(content, listed);
    forall all | IsHandoffList(content, all)
      ensures all == listed
    {
      HandoffListIs(content, all);
    }
    forall handoff
      ensures CompletedHandoff(handoff, id) <==> Names(handoff, Id, id) && Names(handoff, State, "completed")
    {
      ReadsName(handoff, Id, id);
      ReadsName(handoff, State, "completed");
    }
    hide StringValue;
    hide WorkflowObject;
    hide HandoffList;
    hide StatusOfWorkflow;
    hide IsHandoffList;
    hide CompletedHandoff;
    hide Names;
  }

  lemma ReadyExactly(content: Json, downstream: string)
    requires downstream != ""
    ensures ListsReady(content, downstream) <==> ReadySays(content, downstream)
  {
    var listed := ArrayField(content, Items);
    ReadsArray(content, Items, listed);
    forall item
      ensures NestedValue(item, Handoff, Id) == downstream <==> NamesIn(item, Handoff, Id, downstream)
    {
      ReadsNameIn(item, Handoff, Id, downstream);
    }
    forall all | Lists(content, Items, all)
      ensures all == listed
    {
      ReadsArray(content, Items, all);
    }
    hide ArrayField;
    hide Lists;
    hide NestedValue;
    hide NamesIn;
  }

  lemma SummaryExactly(content: Json, workflow: string)
    requires workflow != ""
    ensures ListsCompleted(content, workflow) <==> SummarySays(content, workflow)
  {
    var summary := ObjectField(content, Summary);
    var listed := ArrayField(summary, Workflows);
    ReadsArray(summary, Workflows, listed);
    assert Has(content, Summary, summary) || summary == Obj(map[]);
    forall inner | Has(content, Summary, inner) && inner.Obj?
      ensures inner == summary
    {
    }
    forall all | Lists(summary, Workflows, all)
      ensures all == listed
    {
      ReadsArray(summary, Workflows, all);
    }
    forall value
      ensures CompletedWorkflow(value, workflow) <==> Names(value, Id, workflow) && Names(value, Status, "completed")
    {
      ReadsName(value, Id, workflow);
      ReadsName(value, Status, "completed");
    }
    assert listed != [] ==> Has(content, Summary, summary);
    assert forall inner: Json, all: seq<Json> :: Lists(inner, Workflows, all) ==> inner.Obj?;
    hide ObjectField;
    hide ArrayField;
    hide Lists;
    hide Has;
    hide CompletedWorkflow;
    hide Names;
  }

  /** A tool result shows a milestone exactly when it says so, for the ids known before it. */
  lemma ShowsExactly(m: Milestone, tool: Tool, content: Json, ids: Ids)
    requires KnownFor(m, ids)
    ensures Shows(m, tool, content, ids) <==> Says(m, tool, content, ids)
  {
    hide Belongs;
    hide CreateSays;
    hide DependsOn;
    hide ListNames;
    hide BoolField;
    hide ObjectField;
    hide ReviewedHandoff;
    hide ListsBlocked;
    hide BlockSays;
    hide Approves;
    hide ApprovalSays;
    hide ProgressSays;
    hide CompletedHandoff;
    hide Completes;
    hide StatusSays;
    hide ListsReady;
    hide ReadySays;
    hide CompletedWorkflow;
    hide WorkflowObject;
    hide HandoffList;
    hide StringValue;
    hide ClosedSays;
    hide ListsCompleted;
    hide SummarySays;
    match m
    case UpstreamCreated =>
      CreateExactly(content, ids.workflow);
      ReviewExactly(content);
    case DownstreamCreated =>
      CreateExactly(content, ids.workflow);
      ReviewExactly(content);
      if ids.upstream == "" {
        DependsOnNothing(content);
      } else {
        DependsExactly(content, ids.upstream);
      }
    case DependencyMet =>
      if ids.upstream != "" && ids.downstream != "" {
        BlockExactly(content, ids.upstream, ids.downstream);
      }
    case ReviewApproved => HandoffExactly(content, ids.upstream);
    case UpstreamCompleted =>
      HandoffExactly(content, ids.upstream);
      StatusExactly(content, ids.workflow, ids.upstream);
    case DownstreamReadied =>
      if ids.downstream != "" {
        ReadyExactly(content, ids.downstream);
      }
    case DownstreamCompleted =>
      HandoffExactly(content, ids.downstream);
      StatusExactly(content, ids.workflow, ids.downstream);
    case WorkflowFinished => WorkflowExactly(content, ids.workflow);
    case EvidenceSummarised => SummaryExactly(content, ids.workflow);
  }

  // ---------- what an accepted trajectory says ----------

  /** The ids known before line n. */
  function IdsBefore(lines: seq<Line>, n: nat): Ids
    requires 1 <= n <= |lines|
  {
    IdsOf(lines[..n - 1])
  }

  lemma RenamedKnows(ids: Ids, tool: Tool, content: Json)
    requires Trim(ids.upstream) == ids.upstream
    ensures var more := Renamed(ids, tool, content);
      && Trim(more.upstream) == more.upstream
      && (ids.workflow != "" ==> more.workflow != "") && (ids.upstream != "" ==> more.upstream != "")
      && (ids.downstream != "" ==> more.downstream != "")
  {
    TrimTwice(StringField(ObjectField(content, Handoff), Id));
    hide Trim;
    hide StringField;
    hide DependsOn;
    hide BoolField;
  }

  lemma {:induction false} IdsStayKnown(lines: seq<Line>, i: nat, j: nat)
    requires i <= j <= |lines|
    ensures var ids, more := IdsOf(lines[..i]), IdsOf(lines[..j]);
      && Trim(ids.upstream) == ids.upstream && Trim(more.upstream) == more.upstream
      && (ids.workflow != "" ==> more.workflow != "") && (ids.upstream != "" ==> more.upstream != "")
      && (ids.downstream != "" ==> more.downstream != "")
    decreases j
  {
    hide Renamed;
    hide Reply;
    hide Trim;
    if j > 0 {
      IdsStayKnown(lines, if i < j then i else j - 1, j - 1);
      assert lines[..j] == lines[..j - 1] + [lines[j - 1]];
      IdsOfMore(lines[..j - 1], lines[j - 1]);
      hide IdsOf;
      if Reply(lines[j - 1]).Some? {
        var result := Reply(lines[j - 1]).value;
        RenamedKnows(IdsOf(lines[..j - 1]), ToolNamed(result.tool), result.content);
      }
    } else {
      assert Trim("") == "" by { TrimNothing(); }
    }
  }

  lemma TrimNothing()
    ensures Trim("") == ""
  {
  }

  lemma CreatesMakeKnown(lines: seq<Line>, n: nat, m: Milestone)
    requires ShownAt(lines, n, m) && (m == UpstreamCreated || m == DownstreamCreated)
    ensures n <= |lines| && IdsOf(lines[..n]).workflow != ""
    ensures if m == UpstreamCreated then IdsOf(lines[..n]).upstream != "" else IdsOf(lines[..n]).downstream != ""
  {
    hide IdsOf;
    hide Reply;
    hide NestedValue;
    hide CreatedId;
    hide DependsOn;
    assert lines[..n] == lines[..n - 1] + [lines[n - 1]];
    IdsOfMore(lines[..n - 1], lines[n - 1]);
  }

  /** Line n says what the milestone needs, for the ids known before it. */
  ghost predicate LineSays(lines: seq<Line>, n: nat, m: Milestone) {
    && 1 <= n <= |lines| && Reply(lines[n - 1]).Some?
    && var result := Reply(lines[n - 1]).value;
       Says(m, ToolNamed(result.tool), result.content, IdsBefore(lines, n))
  }

  /** The milestones of an accepted trajectory are on lines in order, and each line says what its milestone
      needs, for the ids known before it. */
  lemma AcceptedSays(lines: seq<Line>)
    requires Scan(lines).Ok? && Output(Scan(lines).value).Some?
    ensures var k := Scan(lines).value.flow.marks; InOrder(k) && forall m: Milestone :: LineSays(lines, MarkOf(k, m), m)
  {
    AcceptedLifecycle(lines);
    var k := Scan(lines).value.flow.marks;
    hide Scan;
    hide Output;
    hide LineSays;
    hide Firsts;
    hide InOrder;
    forall m: Milestone
      ensures LineSays(lines, MarkOf(k, m), m)
    {
      MilestoneSays(lines, k, m);
    }
  }

  lemma MilestoneSays(lines: seq<Line>, k: Marks, m: Milestone)
    requires Firsts(lines, k) && InOrder(k)
    ensures LineSays(lines, MarkOf(k, m), m)
  {
    hide ShownAt;
    hide Firsts;
    hide LineSays;
    hide IdsOf;
    FirstIsShown(lines, k, m);
    FirstIsShown(lines, k, UpstreamCreated);
    FirstIsShown(lines, k, DownstreamCreated);
    ShownIsLine(lines, MarkOf(k, m), m);
    ShownIsLine(lines, k.upstreamCreated, UpstreamCreated);
    ShownIsLine(lines, k.downstreamCreated, DownstreamCreated);
    CreatesMakeKnown(lines, k.upstreamCreated, UpstreamCreated);
    CreatesMakeKnown(lines, k.downstreamCreated, DownstreamCreated);
    KnownAtMilestone(lines, k, m);
    hide KnownFor;
    ShownSays(lines, MarkOf(k, m), m);
  }

  lemma FirstIsShown(lines: seq<Line>, k: Marks, m: Milestone)
    requires Firsts(lines, k) && InOrder(k)
    ensures ShownAt(lines, MarkOf(k, m), m)
  {
    hide ShownAt;
    assert IsFirst(lines, k, m);
  }

  lemma KnownAtMilestone(lines: seq<Line>, k: Marks, m: Milestone)
    requires InOrder(k) && MarkOf(k, m) <= |lines|
    requires k.upstreamCreated <= |lines| && k.downstreamCreated <= |lines|
    requires IdsOf(lines[..k.upstreamCreated]).workflow != "" && IdsOf(lines[..k.upstreamCreated]).upstream != ""
    requires IdsOf(lines[..k.downstreamCreated]).downstream != ""
    ensures MarkOf(k, m) > 0 && KnownFor(m, IdsBefore(lines, MarkOf(k, m)))
  {
    hide IdsOf;
    hide Trim;
    var n := MarkOf(k, m);
    IdsStayKnown(lines, 0, n - 1);
    if k.upstreamCreated < n {
      IdsStayKnown(lines, k.upstreamCreated, n - 1);
    }
    if k.downstreamCreated < n {
      IdsStayKnown(lines, k.downstreamCreated, n - 1);
    }
  }

  lemma ShownSays(lines: seq<Line>, n: nat, m: Milestone)
    requires ShownAt(lines, n, m) && 1 <= n <= |lines| && KnownFor(m, IdsBefore(lines, n))
    ensures LineSays(lines, n, m)
  {
    hide Shows;
    hide Says;
    hide Reply;
    hide IdsOf;
    hide KnownFor;
    var result := Reply(lines[n - 1]).value;
    ShowsExactly(m, ToolNamed(result.tool), result.content, IdsBefore(lines, n));
  }
}
