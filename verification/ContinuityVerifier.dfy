/** cmd/openclaw-mcp-smoke/openclaw_truth_plane_continuity_results.go: the smoke check that judges the record
    of the continuity extractor. The search for unsafe strings is a parameter. */
module ContinuityVerifier {
  import opened Options
  import opened Text
  import opened Json
  import opened HandoffResults
  import C = Continuity

  const REQUIRED: seq<string> := [
    "handoff_create", "handoff_dispatch", "handoff_progress", "handoff_progress", "handoff_progress",
    "handoff_progress",
    "handoff_progress", "divergence_list", "repair_candidate_list", "repair_reopen_handoff", "handoff_dispatch",
    "handoff_progress", "handoff_progress", "handoff_progress", "handoff_progress", "handoff_progress", "handoff_get",
    "workflow_status"
  ]

  predicate RepairAccepted(repair: Json) {
    var actor := Field(repair, Actor);
    && Trim(StringField(repair, Id)) != ""
    && StringField(repair, Action) == "reopen_handoff"
    && StringField(repair, Reason) == "manual continuity smoke reopen completed handoff"
    && StringField(actor, Type) == "agent" && StringField(actor, Id) == "main"
    && StringField(repair, ReopenedState) == "created"
  }

  predicate ToolsAccepted(tools: seq<Json>) {
    tools == Strings(REQUIRED)
  }

  /** validateOpenClawTruthPlaneContinuityResults: whether the file is accepted. */
  predicate Accepts(value: Json, safe: Json -> bool) {
    && safe(value)
    && var continuity := Field(value, TruthPlaneContinuity);
       && continuity.Obj?
       && Trim(StringField(continuity, HandoffId)) != ""
       && Trim(StringField(continuity, WorkflowId)) != ""
       && Field(continuity, Repair).Obj? && RepairAccepted(Field(continuity, Repair))
       && BoolField(continuity, DivergenceObserved) && BoolField(continuity, CandidateObserved)
       && StringField(continuity, PostReopenFinalHandoffState) == "completed"
       && (var status := StringField(continuity, PostReopenFinalWorkflowStatus);
           status == "active" || status == "completed")
       && Field(continuity, Tools).Arr? && ToolsAccepted(ArrayField(continuity, Tools))
  }

  // ---------- the list of tools ----------

  datatype ToolsDetail = ToolsOk | UnknownTool | WrongOrder | MissingTool | MissingToolNamed(name: string)

  /** validateOpenClawTruthPlaneContinuityTools. */
  method ValidateTools(tools: seq<Json>) returns (detail: ToolsDetail)
    ensures detail.ToolsOk? <==> ToolsAccepted(tools)
    ensures detail != MissingTool
  {
    if |tools| < |REQUIRED| {
      detail := MissingContinuityTool(tools);
      return;
    }
    if |tools| > |REQUIRED| {
      return UnknownTool;
    }
    for i := 0 to |tools|
      invariant forall k :: 0 <= k < i ==> tools[k] == Str(REQUIRED[k])
    {
      if !tools[i].Str? || tools[i].text !in REQUIRED {
        assert tools[i] != Str(REQUIRED[i]);
        return UnknownTool;
      }
      if tools[i].text != REQUIRED[i] {
        return WrongOrder;
      }
    }
    return ToolsOk;
  }

  /** The strings of the list, as a bag. */
  ghost function Bag(tools: seq<Json>): multiset<string> {
    if tools == [] then multiset{}
    else Bag(tools[..|tools| - 1]) + (var t := tools[|tools| - 1]; if t.Str? then multiset{t.text} else multiset{})
  }

  /** What is left of a list once the bag is taken out of it. */
  ghost predicate LeftOver(remaining: seq<string>, list: seq<string>, bag: multiset<string>) {
    multiset(remaining) == multiset(list) - bag
  }

  /** The inner loop: the first such tool is taken out. */
  method Strike(list: seq<string>, tool: string) returns (remaining: seq<string>)
    ensures LeftOver(remaining, list, multiset{tool}) && |remaining| + 1 >= |list|
  {
    for i := 0 to |list|
      invariant tool !in list[..i]
    {
      if tool == list[i] {
        assert list == list[..i] + [tool] + list[i + 1..];
        return list[..i] + list[i + 1..];
      }
    }
    assert list[..|list|] == list;
    assert tool !in multiset(list);
    return list;
  }

  lemma BagMore(tools: seq<Json>, i: nat)
    requires i < |tools| && tools[i].Str?
    ensures Bag(tools[..i + 1]) == Bag(tools[..i]) + multiset{tools[i].text}
  {
    assert tools[..i + 1][..i] == tools[..i];
  }

  lemma TakenTogether(after: seq<string>, left: seq<string>, list: seq<string>, bag: multiset<string>, tool: string)
    requires LeftOver(left, list, bag) && LeftOver(after, left, multiset{tool})
    ensures LeftOver(after, list, bag + multiset{tool})
  {
    var all, rest := multiset(list), multiset(after);
    forall x
      ensures rest[x] == (all - (bag + multiset{tool}))[x]
    {
      assert rest[x] == (all - bag - multiset{tool})[x];
    }
  }

  /** The loop over the tools: what is left of a list when they are taken out one by one. */
  method StrikeAll(list: seq<string>, tools: seq<Json>) returns (remaining: Option<seq<string>>)
    ensures remaining.None? <==> exists i :: 0 <= i < |tools| && !tools[i].Str?
    ensures remaining.Some? ==> LeftOver(remaining.value, list, Bag(tools)) && |remaining.value| + |tools| >= |list|
  {
    hide LeftOver;
    hide Bag;
    NothingTaken(list, tools);
    var left := list;
    for i := 0 to |tools|
      invariant forall k :: 0 <= k < i ==> tools[k].Str?
      invariant LeftOver(left, list, Bag(tools[..i])) && |left| + i >= |list|
    {
      if !tools[i].Str? {
        return None;
      }
      BagMore(tools, i);
      var after := Strike(left, tools[i].text);
      TakenTogether(after, left, list, Bag(tools[..i]), tools[i].text);
      left := after;
    }
    assert tools[..|tools|] == tools;
    return Some(left);
  }

  lemma NothingTaken(list: seq<string>, tools: seq<Json>)
    ensures LeftOver(list, list, Bag(tools[..0]))
  {
  }

  /** missingOpenClawTruthPlaneContinuityTool. Called with too short a list it always has a tool left to
      name, and it names one that the list holds too few times. */
  method MissingContinuityTool(tools: seq<Json>) returns (detail: ToolsDetail)
    ensures detail.UnknownTool? || detail.MissingTool? || detail.MissingToolNamed?
    ensures detail.UnknownTool? <==> exists i :: 0 <= i < |tools| && !tools[i].Str?
    ensures detail.MissingToolNamed? ==> Bag(tools)[detail.name] < multiset(REQUIRED)[detail.name]
    ensures detail.MissingTool? ==> |tools| >= |REQUIRED| && multiset(REQUIRED) <= Bag(tools)
  {
    var required := REQUIRED;
    detail := MissingFrom(required, tools);
  }

  method MissingFrom(required: seq<string>, tools: seq<Json>) returns (detail: ToolsDetail)
    ensures detail.UnknownTool? || detail.MissingTool? || detail.MissingToolNamed?
    ensures detail.UnknownTool? <==> exists i :: 0 <= i < |tools| && !tools[i].Str?
    ensures detail.MissingToolNamed? ==> Bag(tools)[detail.name] < multiset(required)[detail.name]
    ensures detail.MissingTool? ==> |tools| >= |required| && multiset(required) <= Bag(tools)
  {
    var remaining := StrikeAll(required, tools);
    if remaining.None? {
      return UnknownTool;
    }
    if |remaining.value| == 0 {
      NothingLeft(multiset(required), Bag(tools));
      return MissingTool;
    }
    assert remaining.value[0] in multiset(remaining.value);
    return MissingToolNamed(remaining.value[0]);
  }

  lemma NothingLeft(required: multiset<string>, bag: multiset<string>)
    requires required - bag == multiset{}
    ensures required <= bag
  {
    forall x
      ensures required[x] <= bag[x]
    {
      assert x !in required - bag;
    }
  }

  // ---------- the record ----------

  function ToolNames(tools: seq<Tool>): (names: seq<string>)
    ensures |names| == |tools| && forall i :: 0 <= i < |names| ==> names[i] == ToolName(tools[i])
  {
    seq(|tools|, i requires 0 <= i < |tools| => ToolName(tools[i]))
  }

  function EncodeActor(r: C.RepairRecord): Json {
    Obj(map[Type := Str(r.actorType), Id := Str(r.actorId)])
  }

  function EncodeRepair(r: C.RepairRecord): Json {
    Obj(map[Id := Str(r.id), Action := Str(r.action), Reason := Str(r.reason), Actor := EncodeActor(r),
            ReopenedState := Str(r.reopenedState)])
  }

  function EncodeSummary(s: C.Summary): Json {
    Obj(map[HandoffId := Str(s.handoffId), WorkflowId := Str(s.workflowId), Repair := EncodeRepair(s.repair),
            DivergenceObserved := Bool(s.divergence), CandidateObserved := Bool(s.candidate),
            PostReopenFinalHandoffState := Str(s.handoffState), PostReopenFinalWorkflowStatus := Str(s.workflowStatus),
            Tools := Arr(Strings(ToolNames(s.tools)))])
  }

  function Encode(s: C.Summary): Json {
    Obj(map[TruthPlaneContinuity := EncodeSummary(s)])
  }

  lemma SummaryReads(s: C.Summary)
    ensures var v := EncodeSummary(s);
      && StringField(v, HandoffId) == s.handoffId && StringField(v, WorkflowId) == s.workflowId
      && Field(v, Repair) == EncodeRepair(s.repair) && BoolField(v, DivergenceObserved) == s.divergence
  {
    hide EncodeRepair;
    hide Strings;
    hide ToolNames;
  }

  lemma SummaryReadsMore(s: C.Summary)
    ensures var v := EncodeSummary(s);
      && BoolField(v, CandidateObserved) == s.candidate
      && StringField(v, PostReopenFinalHandoffState) == s.handoffState
      && StringField(v, PostReopenFinalWorkflowStatus) == s.workflowStatus
      && Field(v, Tools) == Arr(Strings(ToolNames(s.tools)))
  {
    hide EncodeRepair;
    hide Strings;
    hide ToolNames;
  }

  lemma RepairReads(r: C.RepairRecord)
    ensures var v := EncodeRepair(r); var actor := Field(v, Actor);
      && StringField(v, Id) == r.id && StringField(v, Action) == r.action && StringField(v, Reason) == r.reason
      && StringField(v, ReopenedState) == r.reopenedState
      && StringField(actor, Type) == r.actorType && StringField(actor, Id) == r.actorId
  {
    assert Field(EncodeRepair(r), Actor) == EncodeActor(r);
  }

  lemma RepairAgrees(r: C.RepairRecord)
    requires C.RepairExpected(r)
    ensures RepairAccepted(EncodeRepair(r)) <==> Trim(r.id) != ""
  {
    RepairReads(r);
    hide EncodeRepair;
    hide StringField;
    hide Field;
    hide Trim;
  }

  lemma NamesAgree()
    ensures ToolNames(C.TOOLS) == REQUIRED
  {
  }

  /** Producer and consumer agree: the record of an accepted trace passes the smoke check exactly when it is
      safe and its three ids are not blank. */
  lemma VerifierAcceptsExtractor(results: seq<ToolResult>, safe: Json -> bool)
    requires C.Verdict(results).Ok?
    ensures var s := C.Verdict(results).value;
      Accepts(Encode(s), safe) <==>
        safe(Encode(s)) && Trim(s.handoffId) != "" && Trim(s.workflowId) != "" && Trim(s.repair.id) != ""
  {
    hide C.Verdict;
    hide C.Accounted;
    hide C.RepairExpected;
    hide Encode;
    hide EncodeSummary;
    hide EncodeRepair;
    hide RepairAccepted;
    hide Trim;
    hide Field;
    hide Strings;
    hide ToolNames;
    var path := C.AcceptedIsAccounted(results);
    var s := C.Verdict(results).value;
    AccountedMeans(results, path, s);
    SummaryReads(s);
    SummaryReadsMore(s);
    RepairAgrees(s.repair);
    NamesAgree();
    RecordReads(s);
  }

  lemma RecordReads(s: C.Summary)
    ensures Field(Encode(s), TruthPlaneContinuity) == EncodeSummary(s)
    ensures EncodeSummary(s).Obj? && EncodeRepair(s.repair).Obj?
  {
  }

  lemma AccountedMeans(results: seq<ToolResult>, path: seq<nat>, s: C.Summary)
    requires C.Accounted(results, path, s)
    ensures s.divergence && s.candidate && s.handoffState == "completed" && s.tools == C.TOOLS
    ensures s.workflowStatus == "active" || s.workflowStatus == "completed"
    ensures C.RepairExpected(s.repair)
  {
    hide C.Witness;
    hide C.Undisputed;
    var repair := C.ValidRepair(results[path[9]].content, s.handoffId);
    var status := C.FinalStatus(results[path[17]].content, s.handoffId, s.workflowId);
    hide C.ValidRepair;
    hide C.FinalStatus;
    hide C.RepairExpected;
  }

  // ---------- what an accepted record says, member by member ----------

  predicate RepairSays(repair: Json) {
    && Fills(repair, Id) && Says(repair, Action, "reopen_handoff")
    && Says(repair, Reason, "manual continuity smoke reopen completed handoff")
    && SaysIn(repair, Actor, Type, "agent") && SaysIn(repair, Actor, Id, "main")
    && Says(repair, ReopenedState, "created")
  }

  ghost predicate RecordSays(value: Json) {
    exists record, repair ::
      && Has(value, TruthPlaneContinuity, record) && Fills(record, HandoffId) && Fills(record, WorkflowId)
      && Has(record, Repair, repair) && RepairSays(repair)
      && Confirms(record, DivergenceObserved) && Confirms(record, CandidateObserved)
      && Says(record, PostReopenFinalHandoffState, "completed")
      && (Says(record, PostReopenFinalWorkflowStatus, "active")
          || Says(record, PostReopenFinalWorkflowStatus, "completed"))
      && Lists(record, Key.Tools, Strings(REQUIRED))
  }

  lemma FillsExactly(value: Json, key: Key)
    ensures Trim(StringField(value, key)) != "" <==> Fills(value, key)
  {
  }

  lemma RepairExactly(repair: Json)
    ensures repair.Obj? && RepairAccepted(repair) <==> RepairSays(repair)
  {
    FillsExactly(repair, Id);
    ReadsString(repair, Action, "reopen_handoff");
    ReadsString(repair, Reason, "manual continuity smoke reopen completed handoff");
    ActorReads(repair, Type, "agent");
    ActorReads(repair, Id, "main");
    ReadsString(repair, ReopenedState, "created");
    SaysIsObject(repair, Action, "reopen_handoff");
    hide StringField;
    hide Field;
    hide Trim;
    hide Fills;
    hide Says;
    hide SaysIn;
  }

  lemma ActorReads(repair: Json, key: Key, text: string)
    requires text != ""
    ensures StringField(Field(repair, Actor), key) == text <==> SaysIn(repair, Actor, key, text)
  {
  }

  lemma RecordExactly(record: Json)
    ensures StringField(record, PostReopenFinalHandoffState) == "completed" <==>
      Says(record, PostReopenFinalHandoffState, "completed")
    ensures forall status :: status == "active" || status == "completed" ==>
      (StringField(record, PostReopenFinalWorkflowStatus) == status
       <==> Says(record, PostReopenFinalWorkflowStatus, status))
    ensures Field(record, Key.Tools).Arr? && ToolsAccepted(ArrayField(record, Key.Tools)) <==>
      Lists(record, Key.Tools, Strings(REQUIRED))
  {
    hide Strings;
  }

  /** The smoke check accepts exactly the safe files whose record says all of this. */
  lemma AcceptsExactly(value: Json, safe: Json -> bool)
    ensures Accepts(value, safe) <==> safe(value) && RecordSays(value)
  {
    var record := Field(value, TruthPlaneContinuity);
    var repair := Field(record, Repair);
    FillsExactly(record, HandoffId);
    FillsExactly(record, WorkflowId);
    RepairExactly(repair);
    ReadsBool(record, DivergenceObserved);
    ReadsBool(record, CandidateObserved);
    RecordExactly(record);
    FieldIs(value, TruthPlaneContinuity);
    FieldIs(record, Repair);
    assert Fills(record, HandoffId) ==> record.Obj?;
    assert RepairSays(repair) ==> repair.Obj? by { SaysIsObject(repair, Action, "reopen_handoff"); }
    hide StringField;
    hide BoolField;
    hide ArrayField;
    hide Field;
    hide Has;
    hide Trim;
    hide Fills;
    hide Says;
    hide Confirms;
    hide RepairAccepted;
    hide RepairSays;
    hide ToolsAccepted;
    hide Lists;
    hide Strings;
  }

  lemma FieldIs(value: Json, key: Key)
    ensures forall member :: Has(value, key, member) ==> member == Field(value, key)
    ensures Field(value, key).Obj? ==> Has(value, key, Field(value, key))
  {
  }
}
