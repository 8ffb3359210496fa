/** cmd/openclaw-truth-plane-repair-extract/main.go: a received event is invalidated and backfilled by two
    repairs. */
module RepairFlow {
  import opened Options
  import opened Text
  import opened Json
  import opened HandoffResults
  import opened Flows

  datatype RepairRecord = RepairRecord(id: string, action: string, reason: string, actorType: string, actorId: string)

  datatype Summary = RepairSummary(handoffId: string, workflowId: string, invalidatedEventId: string,
                                   repair: RepairRecord,
                                   backfill: RepairRecord, backfilledEventType: string)

  const INVALIDATE_REASON := "manual repair smoke invalidate receive event"
  const BACKFILL_REASON := "manual repair smoke backfill receive event"
  const NO_REPAIR := RepairRecord("", "", "", "", "")
  const RECEIVE := ProgressionStep("receive", "received")

  // ---------- validators ----------

  /** validateReceiveProgress: the id of the receive event. */
  function ReceivedEvent(content: Json, handoffId: string, workflowId: string): Option<string> {
    if ProgressionValid(content, RECEIVE, handoffId, workflowId) then NonEmpty(NestedString(content, Event, Id))
    else None
  }

  function ReadRepair(source: Json): RepairRecord {
    var actor := Field(source, RequestedBy);
    RepairRecord(StringField(source, Id), StringField(source, Action), StringField(source, Reason),
                 StringField(actor, Type), StringField(actor, Id))
  }

  function InvalidatedEvent(source: Json): string {
    FirstNonEmpty(StringField(source, InvalidatesId), StringField(source, TargetId))
  }

  predicate ByMain(r: RepairRecord, action: string, reason: string) {
    r.id != "" && r.action == action && r.reason == reason && r.actorType == "agent" && r.actorId == "main"
  }

  function Invalidation(content: Json, eventId: string): Option<RepairRecord> {
    var source := RepairSource(content);
    var repair := ReadRepair(source);
    if ByMain(repair, "invalidate_event", INVALIDATE_REASON) && InvalidatedEvent(source) == eventId then Some(repair)
    else None
  }

  function Backfill(content: Json): Option<RepairRecord> {
    var repair := ReadRepair(RepairSource(content));
    if ByMain(repair, "backfill_event", BACKFILL_REASON) then Some(repair) else None
  }

  predicate ListsInvalidation(entry: Json, want: RepairRecord, eventId: string) {
    entry.Obj? && ReadRepair(RepairSource(entry)) == want && InvalidatedEvent(RepairSource(entry)) == eventId
  }

  predicate ListsBackfill(entry: Json, want: RepairRecord, handoffId: string) {
    entry.Obj? && ReadRepair(RepairSource(entry)) == want && StringField(RepairSource(entry), TargetId) == handoffId
  }

  /** Both repairs are on the list. */
  predicate BothListed(content: Json, eventId: string, invalidation: RepairRecord, handoffId: string,
                       backfill: RepairRecord)
  {
    var repairs := ArrayField(content, Repairs);
    && (exists i :: 0 <= i < |repairs| && ListsInvalidation(repairs[i], invalidation, eventId))
    && (exists i :: 0 <= i < |repairs| && ListsBackfill(repairs[i], backfill, handoffId))
  }

  predicate ReceivedAgain(event: Json) {
    event.Obj? && BoolField(event, Accepted) && StringField(event, Type) == "received"
  }

  function BackfilledEventType(content: Json): string {
    var timeline := ArrayField(content, Timeline);
    if exists i :: 0 <= i < |timeline| && ReceivedAgain(timeline[i]) then "received" else ""
  }

  // ---------- the flow ----------

  /** How many of the seven steps have been made, and what they have said. */
  datatype Repairing = Repairing(step: nat, ids: Ids, eventId: string, invalidation: RepairRecord,
                                 backfill: RepairRecord)

  const BEGIN := Repairing(0, Ids("", ""), "", NO_REPAIR, NO_REPAIR)

  function Filled(s: Repairing, content: Json): Summary {
    RepairSummary(s.ids.handoffId, s.ids.workflowId, s.eventId, s.invalidation, s.backfill,
                  BackfilledEventType(content))
  }

  function Step(s: Repairing, result: ToolResult): Turn<Repairing, Summary> {
    match result.tool
    case HandoffCreate =>
      if s.step != 0 then Finish(None)
      else (match CreatedIds(result.content)
            case None => Finish(None)
            case Some(ids) => Continue(s.(step := 1, ids := ids)))
    case HandoffDispatch =>
      if s.step != 1 then Continue(s)
      else if !DispatchValid(result.content, s.ids.handoffId, s.ids.workflowId) then Finish(None)
      else Continue(s.(step := 2))
    case HandoffProgress =>
      if s.step != 2 then Continue(s)
      else (match ReceivedEvent(result.content, s.ids.handoffId, s.ids.workflowId)
            case None => Finish(None)
            case Some(id) => Continue(s.(step := 3, eventId := id)))
    case RepairInvalidateEvent =>
      if s.step != 3 then Continue(s)
      else (match Invalidation(result.content, s.eventId)
            case None => Finish(None)
            case Some(repair) => Continue(s.(step := 4, invalidation := repair)))
    case RepairBackfillEvent =>
      if s.step != 4 then Continue(s)
      else (match Backfill(result.content)
            case None => Finish(None)
            case Some(repair) => Continue(s.(step := 5, backfill := repair)))
    case RepairList =>
      if s.step != 5 then Continue(s)
      else if !BothListed(result.content, s.eventId, s.invalidation, s.ids.handoffId, s.backfill) then Finish(None)
      else Continue(s.(step := 6))
    case HandoffGet =>
      if s.step != 6 then Continue(s)
      else if !FinalHandoffValid(result.content, s.ids.handoffId, s.ids.workflowId, "received") then Finish(None)
      else Finish(Some(Filled(s, result.content)))
    case _ => Continue(s)
  }

  /** A flow that has not succeeded by the end of the trace does not. */
  function Unfinished(s: Repairing): Option<Summary> {
    None
  }

  const LOOP: Machine<Repairing, Summary> := Machine(Step, Unfinished)

  function Flow(results: seq<ToolResult>, start: nat): Option<Summary> {
    if start < |results| && results[start].tool.HandoffCreate? then RunFrom(LOOP, BEGIN, results, start) else None
  }

  /** summarizeRepairFlow. */
  method SummarizeRepairFlow(results: seq<ToolResult>, start: nat) returns (payload: Option<Summary>)
    requires start < |results| && results[start].tool.HandoffCreate?
    ensures payload == Flow(results, start)
  {
    hide CreatedIds;
    hide DispatchValid;
    hide ReceivedEvent;
    hide Invalidation;
    hide Backfill;
    hide BothListed;
    hide FinalHandoffValid;
    hide BackfilledEventType;
    var handoffId, workflowId, receiveEventId := "", "", "";
    var dispatchSeen, receiveSeen, invalidationSeen, backfillSeen, repairListSeen := false, false, false, false, false;
    var invalidationRepair, backfillRepair := NO_REPAIR, NO_REPAIR;
    ghost var s := BEGIN;
    for i := start to |results|
      invariant Flow(results, start) == RunFrom(LOOP, s, results, i)
      invariant s == Repairing(s.step, Ids(handoffId, workflowId), receiveEventId, invalidationRepair, backfillRepair)
        && s.step <= 6
      invariant i > start <==> s.step >= 1
      invariant handoffId != "" <==> s.step >= 1
      invariant dispatchSeen <==> s.step >= 2
      invariant receiveSeen <==> s.step >= 3
      invariant invalidationSeen <==> s.step >= 4
      invariant backfillSeen <==> s.step >= 5
      invariant repairListSeen <==> s.step >= 6
    {
      var content := results[i].content;
      ghost var turn := Step(s, results[i]);
      if i > start && results[i].tool.HandoffCreate? {
        return None;
      }
      match results[i].tool {
        case HandoffCreate =>
          if !dispatchSeen && !receiveSeen {
            var ids := CreatedIds(content);
            if ids.None? { return None; }
            handoffId, workflowId := ids.value.handoffId, ids.value.workflowId;
          }
        case HandoffDispatch =>
          if handoffId != "" && !dispatchSeen {
            if !DispatchValid(content, handoffId, workflowId) { return None; }
            dispatchSeen := true;
          }
        case HandoffProgress =>
          if dispatchSeen && !receiveSeen {
            var event := ReceivedEvent(content, handoffId, workflowId);
            if event.None? { return None; }
            receiveEventId, receiveSeen := event.value, true;
          }
        case RepairInvalidateEvent =>
          if receiveSeen && !invalidationSeen {
            var repair := Invalidation(content, receiveEventId);
            if repair.None? { return None; }
            invalidationRepair, invalidationSeen := repair.value, true;
          }
        case RepairBackfillEvent =>
          if invalidationSeen && !backfillSeen {
            var repair := Backfill(content);
            if repair.None? { return None; }
            backfillRepair, backfillSeen := repair.value, true;
          }
        case RepairList =>
          if backfillSeen && !repairListSeen {
            if !BothListed(content, receiveEventId, invalidationRepair, handoffId, backfillRepair) { return None; }
            repairListSeen := true;
          }
        case HandoffGet =>
          if repairListSeen {
            if !FinalHandoffValid(content, handoffId, workflowId, "received") { return None; }
            return Some(RepairSummary(handoffId, workflowId, receiveEventId, invalidationRepair, backfillRepair,
                                      BackfilledEventType(content)));
          }
        case _ =>
      }
      s := turn.state;
    }
    return None;
  }

  /** What the trace as a whole yields. */
  function Selected(results: seq<ToolResult>): Option<Chosen<Summary>> {
    Choose(Flow, results, |results|)
  }

  /** summarizeRepairResults: the payload of the last flow that succeeds. */
  method SummarizeRepairResults(results: seq<ToolResult>) returns (selected: Option<Chosen<Summary>>)
    ensures selected == Selected(results)
  {
    hide RunFrom;
    selected := None;
    for i := 0 to |results|
      invariant selected == Choose(Flow, results, i)
    {
      if results[i].tool.HandoffCreate? {
        var candidate := SummarizeRepairFlow(results, i);
        if candidate.Some? {
          selected := Some(Chosen(i, candidate.value));
        }
      }
    }
  }

  // ---------- stability ----------

  lemma FlowIsStable()
    ensures Stable(Flow)
  {
    forall results: seq<ToolResult>, more: seq<ToolResult>, i: nat | i < |results| && Flow(results, i).Some?
      ensures Flow(results + more, i) == Flow(results, i)
    {
      LoopIsSettled();
      hide Settled;
      assert (results + more)[i] == results[i];
      RunsStably(LOOP, BEGIN, results, more, i);
    }
  }

  lemma LoopIsSettled()
    ensures Settled(LOOP)
  {
    hide Step;
  }

  /** An accepted trace stays accepted, and keeps its payload until a later flow succeeds. */
  lemma AcceptanceIsStable(results: seq<ToolResult>, more: seq<ToolResult>)
    requires Selected(results).Some?
    ensures var before := Selected(results).value; var after := Selected(results + more);
      && after.Some? && after.value.start >= before.start
      && (after.value == before <==>
            forall j :: before.start < j < |results + more| ==> Flow(results + more, j).None?)
  {
    FlowIsStable();
    ExtensionStability(Flow, results, more);
  }

  // ---------- soundness ----------

  const TOOLS: seq<Tool> := [
    HandoffCreate, HandoffDispatch, HandoffProgress, RepairInvalidateEvent, RepairBackfillEvent, RepairList, HandoffGet
  ]

  /** What a result must say to be step k of a flow with that summary. */
  predicate Shows(k: nat, r: ToolResult, p: Summary) {
    && k < |TOOLS| && r.tool == TOOLS[k]
    && match r.tool
       case HandoffCreate => CreatedIds(r.content) == Some(Ids(p.handoffId, p.workflowId))
       case HandoffDispatch => DispatchValid(r.content, p.handoffId, p.workflowId)
       case HandoffProgress => ReceivedEvent(r.content, p.handoffId, p.workflowId) == Some(p.invalidatedEventId)
       case RepairInvalidateEvent => Invalidation(r.content, p.invalidatedEventId) == Some(p.repair)
       case RepairBackfillEvent => Backfill(r.content) == Some(p.backfill)
       case RepairList => BothListed(r.content, p.invalidatedEventId, p.repair, p.handoffId, p.backfill)
       case HandoffGet =>
         FinalHandoffValid(r.content, p.handoffId, p.workflowId, "received")
           && BackfilledEventType(r.content) == p.backfilledEventType
       case _ => false
  }

  /** What the steps so far have already settled. */
  predicate Agrees(s: Repairing, p: Summary) {
    && s.step < |TOOLS|
    && (s.step >= 1 ==> s.ids == Ids(p.handoffId, p.workflowId))
    && (s.step >= 3 ==> s.eventId == p.invalidatedEventId)
    && (s.step >= 4 ==> s.invalidation == p.repair)
    && (s.step >= 5 ==> s.backfill == p.backfill)
  }

  const STEPS: Order<Repairing, Summary> :=
    Order(7, (s: Repairing) => true, (s: Repairing) => s.step, Agrees, Shows, (r: ToolResult) => r.tool.HandoffCreate?)

  lemma TurnIsInOrder(s: Repairing, r: ToolResult, p: Summary)
    ensures TurnSound(LOOP, STEPS, s, r, p)
  {
    hide CreatedIds;
    hide DispatchValid;
    hide ReceivedEvent;
    hide Invalidation;
    hide Backfill;
    hide BothListed;
    hide FinalHandoffValid;
    hide BackfilledEventType;
  }

  lemma LoopIsSound()
    ensures Sound(LOOP, STEPS)
  {
    forall s: Repairing, r: ToolResult, p: Summary
      ensures TurnSound(LOOP, STEPS, s, r, p)
    {
      TurnIsInOrder(s, r, p);
    }
    hide TurnSound;
    hide Step;
    hide Agrees;
  }

  /** An accepted flow holds its seven steps in order, from its own create on and before any other, each
      valid for the ids and repairs in the summary. */
  lemma FlowHasPath(results: seq<ToolResult>, start: nat) returns (path: seq<nat>)
    requires Flow(results, start).Some?
    ensures path != [] && path[0] == start && Path(STEPS, results, start, 0, Flow(results, start).value, path)
  {
    LoopIsSound();
    hide Sound;
    path := RunStartsPath(LOOP, STEPS, BEGIN, results, start, Flow(results, start).value);
  }

  // ---------- exactly what succeeds ----------

  /** The steps, on the states that still wait for a tool. */
  const COUNTED: Order<Repairing, Summary> := STEPS.(valid := (s: Repairing) => s.step < |TOOLS|)

  lemma TurnCounts(s: Repairing, r: ToolResult, p: Summary)
    requires s.step < |TOOLS|
    ensures CountsTurn(LOOP, COUNTED, TOOLS, s, r, p)
  {
    hide CreatedIds;
    hide DispatchValid;
    hide ReceivedEvent;
    hide Invalidation;
    hide Backfill;
    hide BothListed;
    hide FinalHandoffValid;
    hide BackfilledEventType;
  }

  lemma LoopCounts()
    ensures Counts(LOOP, COUNTED, TOOLS)
  {
    forall s: Repairing, r: ToolResult, p: Summary | s.step < |TOOLS|
      ensures CountsTurn(LOOP, COUNTED, TOOLS, s, r, p)
    {
      TurnCounts(s, r, p);
    }
    hide CountsTurn;
    hide Step;
    hide Agrees;
  }

  /** A create starts a successful flow exactly when the first result of each tool after it, one after the
      other, is valid for the payload, with no other create in between. */
  lemma FlowExactly(results: seq<ToolResult>, start: nat, p: Summary)
    requires start < |results| && results[start].tool.HandoffCreate?
    ensures Flow(results, start) == Some(p) <==> exists path :: FirstPath(COUNTED, TOOLS, results, start, 0, p, path)
  {
    LoopCounts();
    hide Counts;
    hide FirstPath;
    hide RunFrom;
    if Flow(results, start) == Some(p) {
      var path := CountedRunTakesFirsts(LOOP, COUNTED, TOOLS, BEGIN, results, start, p);
    }
    if exists path :: FirstPath(COUNTED, TOOLS, results, start, 0, p, path) {
      var path :| FirstPath(COUNTED, TOOLS, results, start, 0, p, path);
      FirstsAreACountedRun(LOOP, COUNTED, TOOLS, BEGIN, results, start, p, path);
    }
  }

  // ---------- what the steps say, member by member ----------

  /** The repair that agent main asked for, with that action and reason. */
  predicate SourceSays(source: Json, action: string, reason: string, r: RepairRecord) {
    && r.id != "" && Says(source, Id, r.id) && r.action == action && Says(source, Action, action)
    && r.reason == reason && Says(source, Reason, reason)
    && r.actorType == "agent" && SaysIn(source, RequestedBy, Type, "agent")
    && r.actorId == "main" && SaysIn(source, RequestedBy, Id, "main")
  }

  /** The event that the repair invalidates, or else its target. */
  predicate InvalidatesSays(source: Json, eventId: string) {
    if Speaks(source, InvalidatesId) then Says(source, InvalidatesId, eventId) else Says(source, TargetId, eventId)
  }

  ghost predicate InvalidationSays(content: Json, eventId: string, r: RepairRecord) {
    exists source :: IsInner(content, Repair, source) && InvalidatesSays(source, eventId)
      && SourceSays(source, "invalidate_event", "manual repair smoke invalidate receive event", r)
  }

  ghost predicate BackfillSays(content: Json, r: RepairRecord) {
    exists source :: IsInner(content, Repair, source)
      && SourceSays(source, "backfill_event", "manual repair smoke backfill receive event", r)
  }

  /** Some entry of the list is the invalidation of that event, and some entry the backfill of that handoff. */
  ghost predicate ListSays(content: Json, p: Summary) {
    exists repairs: seq<Json>, i, j ::
      && Lists(content, Repairs, repairs) && 0 <= i < |repairs| && 0 <= j < |repairs|
      && repairs[i].Obj? && InvalidationSays(repairs[i], p.invalidatedEventId, p.repair)
      && repairs[j].Obj? && BackfillSays(repairs[j], p.backfill) && TargetSays(repairs[j], p.handoffId)
  }

  ghost predicate TargetSays(entry: Json, handoffId: string) {
    exists source :: IsInner(entry, Repair, source) && Says(source, TargetId, handoffId)
  }

  /** The timeline holds an accepted received event. */
  ghost predicate ReceivedSays(content: Json) {
    exists timeline: seq<Json>, i :: Lists(content, Timeline, timeline) && 0 <= i < |timeline|
      && Confirms(timeline[i], Accepted) && Says(timeline[i], Type, "received")
  }

  /** What step k says for a summary whose ids are not empty. */
  ghost predicate StepSays(k: nat, r: ToolResult, p: Summary) {
    && k < |TOOLS| && r.tool == TOOLS[k]
    && if k == 0 then CreateSays(r.content, p.handoffId, p.workflowId)
       else if k == 1 then DispatchSays(r.content, p.handoffId, p.workflowId)
       else if k == 2 then
         && ProgressSays(r.content, ProgressionStep("receive", "received"), p.handoffId, p.workflowId)
         && SaysIn(r.content, Event, Id, p.invalidatedEventId)
       else if k == 3 then InvalidationSays(r.content, p.invalidatedEventId, p.repair)
       else if k == 4 then BackfillSays(r.content, p.backfill)
       else if k == 5 then ListSays(r.content, p)
       else
         && GetSays(r.content, p.handoffId, p.workflowId, "received")
         && p.backfilledEventType == if ReceivedSays(r.content) then "received" else ""
  }

  lemma ActorReads(source: Json, key: Key, text: string)
    requires text != ""
    ensures StringField(Field(source, RequestedBy), key) == text <==> SaysIn(source, RequestedBy, key, text)
  {
  }

  lemma SourceExactly(source: Json, action: string, reason: string, r: RepairRecord)
    requires action != "" && reason != ""
    ensures SourceSays(source, action, reason, r) <==> ReadRepair(source) == r && ByMain(r, action, reason)
  {
    ReadsString(source, Id, r.id);
    ReadsString(source, Action, action);
    ReadsString(source, Reason, reason);
    ActorReads(source, Type, "agent");
    ActorReads(source, Id, "main");
    hide StringField;
    hide Field;
    hide Says;
    hide SaysIn;
  }

  lemma InvalidatesExactly(source: Json, eventId: string)
    requires eventId != ""
    ensures InvalidatedEvent(source) == eventId <==> InvalidatesSays(source, eventId)
  {
    ReadsString(source, InvalidatesId, eventId);
    ReadsString(source, TargetId, eventId);
    hide StringField;
    hide Says;
    hide Speaks;
  }

  lemma InvalidationExactly(content: Json, eventId: string, r: RepairRecord)
    requires eventId != ""
    ensures Invalidation(content, eventId) == Some(r) <==> InvalidationSays(content, eventId, r)
  {
    RepairSourceIs(content);
    SourceExactly(RepairSource(content), "invalidate_event", INVALIDATE_REASON, r);
    InvalidatesExactly(RepairSource(content), eventId);
    hide IsInner;
    hide RepairSource;
    hide SourceSays;
    hide InvalidatesSays;
    hide ReadRepair;
    hide InvalidatedEvent;
    hide ByMain;
  }

  lemma BackfillExactly(content: Json, r: RepairRecord)
    ensures Backfill(content) == Some(r) <==> BackfillSays(content, r)
  {
    RepairSourceIs(content);
    SourceExactly(RepairSource(content), "backfill_event", BACKFILL_REASON, r);
    hide IsInner;
    hide RepairSource;
    hide SourceSays;
    hide ReadRepair;
    hide ByMain;
  }

  lemma EntriesExactly(entry: Json, p: Summary)
    requires p.invalidatedEventId != "" && p.handoffId != ""
    requires ByMain(p.repair, "invalidate_event", INVALIDATE_REASON)
      && ByMain(p.backfill, "backfill_event", BACKFILL_REASON)
    ensures ListsInvalidation(entry, p.repair, p.invalidatedEventId) <==>
      entry.Obj? && InvalidationSays(entry, p.invalidatedEventId, p.repair)
    ensures ListsBackfill(entry, p.backfill, p.handoffId) <==>
      entry.Obj? && BackfillSays(entry, p.backfill) && TargetSays(entry, p.handoffId)
  {
    InvalidationExactly(entry, p.invalidatedEventId, p.repair);
    BackfillExactly(entry, p.backfill);
    RepairSourceIs(entry);
    ReadsString(RepairSource(entry), TargetId, p.handoffId);
    hide IsInner;
    hide RepairSource;
    hide SourceSays;
    hide InvalidatesSays;
    hide InvalidationSays;
    hide BackfillSays;
    hide InvalidatedEvent;
    hide ReadRepair;
    hide StringField;
    hide Says;
    hide ByMain;
  }

  lemma ListExactly(content: Json, p: Summary)
    requires p.invalidatedEventId != "" && p.handoffId != ""
    requires ByMain(p.repair, "invalidate_event", INVALIDATE_REASON)
      && ByMain(p.backfill, "backfill_event", BACKFILL_REASON)
    ensures BothListed(content, p.invalidatedEventId, p.repair, p.handoffId, p.backfill) <==> ListSays(content, p)
  {
    var repairs := ArrayField(content, Repairs);
    ReadsArray(content, Repairs, repairs);
    forall i | 0 <= i < |repairs|
      ensures ListsInvalidation(repairs[i], p.repair, p.invalidatedEventId)
         <==> repairs[i].Obj? && InvalidationSays(repairs[i], p.invalidatedEventId, p.repair)
      ensures ListsBackfill(repairs[i], p.backfill, p.handoffId)
         <==> repairs[i].Obj? && BackfillSays(repairs[i], p.backfill) && TargetSays(repairs[i], p.handoffId)
    {
      EntriesExactly(repairs[i], p);
    }
    forall all | Lists(content, Repairs, all)
      ensures all == repairs
    {
      ReadsArray(content, Repairs, all);
    }
    hide ArrayField;
    hide Lists;
    hide ListsInvalidation;
    hide ListsBackfill;
    hide InvalidationSays;
    hide BackfillSays;
    hide TargetSays;
    hide ByMain;
  }

  lemma ReceivedExactly(content: Json)
    ensures BackfilledEventType(content) == if ReceivedSays(content) then "received" else ""
  {
    var timeline := ArrayField(content, Timeline);
    ReadsArray(content, Timeline, timeline);
    forall event
      ensures ReceivedAgain(event) <==> Confirms(event, Accepted) && Says(event, Type, "received")
    {
      ReadsBool(event, Accepted);
      ReadsString(event, Type, "received");
    }
    forall all | Lists(content, Timeline, all)
      ensures all == timeline
    {
      ReadsArray(content, Timeline, all);
    }
    hide ArrayField;
    hide Lists;
    hide ReceivedAgain;
    hide Confirms;
    hide Says;
  }

  lemma ReceiveExactly(content: Json, p: Summary)
    requires p.handoffId != "" && p.workflowId != "" && p.invalidatedEventId != ""
    ensures ReceivedEvent(content, p.handoffId, p.workflowId) == Some(p.invalidatedEventId) <==>
      && ProgressSays(content, ProgressionStep("receive", "received"), p.handoffId, p.workflowId)
      && SaysIn(content, Event, Id, p.invalidatedEventId)
  {
    assert RECEIVE == PROGRESSIONS[0];
    ProgressExactly(content, RECEIVE, p.handoffId, p.workflowId);
    ReadsNested(content, Event, Id, p.invalidatedEventId);
    hide ProgressionValid;
    hide ProgressSays;
    hide NestedString;
    hide SaysIn;
  }

  /** The summary names both ids, the event, and the two repairs of agent main. */
  predicate Complete(p: Summary) {
    && p.handoffId != "" && p.workflowId != "" && p.invalidatedEventId != ""
    && ByMain(p.repair, "invalidate_event", INVALIDATE_REASON) && ByMain(p.backfill, "backfill_event", BACKFILL_REASON)
  }

  /** A result is a valid step exactly when it says what the step needs. */
  lemma StepExactly(k: nat, r: ToolResult, p: Summary)
    requires Complete(p)
    ensures Shows(k, r, p) <==> StepSays(k, r, p)
  {
    hide CreatedIds;
    hide CreateSays;
    hide DispatchValid;
    hide DispatchSays;
    hide ProgressSays;
    hide ReceivedEvent;
    hide Invalidation;
    hide InvalidationSays;
    hide Backfill;
    hide BackfillSays;
    hide BothListed;
    hide ListSays;
    hide FinalHandoffValid;
    hide GetSays;
    hide BackfilledEventType;
    hide ReceivedSays;
    hide ByMain;
    if k == 0 {
      CreateExactly(r.content, p.handoffId, p.workflowId);
    } else if k == 1 {
      DispatchExactly(r.content, p.handoffId, p.workflowId);
    } else if k == 2 {
      ReceiveExactly(r.content, p);
    } else if k == 3 {
      InvalidationExactly(r.content, p.invalidatedEventId, p.repair);
    } else if k == 4 {
      BackfillExactly(r.content, p.backfill);
    } else if k == 5 {
      ListExactly(r.content, p);
    } else {
      GetExactly(r.content, p.handoffId, p.workflowId, "received");
      ReceivedExactly(r.content);
    }
  }

  lemma FirstStepsNameAll(k: nat, r: ToolResult, p: Summary)
    requires Shows(k, r, p)
    ensures k == 0 ==> p.handoffId != "" && p.workflowId != ""
    ensures k == 2 ==> p.invalidatedEventId != ""
    ensures k == 3 ==> ByMain(p.repair, "invalidate_event", INVALIDATE_REASON)
    ensures k == 4 ==> ByMain(p.backfill, "backfill_event", BACKFILL_REASON)
  {
    hide ProgressionValid;
    hide DispatchValid;
    hide BothListed;
    hide FinalHandoffValid;
    hide NestedString;
    hide RepairSource;
    hide ReadRepair;
    hide InvalidatedEvent;
  }

  /** A repair that succeeds holds, at increasing positions, the seven results that say what it reports. */
  lemma FlowSays(results: seq<ToolResult>, start: nat) returns (path: seq<nat>)
    requires Flow(results, start).Some?
    ensures |path| == |TOOLS| && path[0] == start
    ensures forall j, k :: 0 <= j < k < |TOOLS| ==> path[j] < path[k]
    ensures forall k :: 0 <= k < |TOOLS| ==>
      path[k] < |results| && StepSays(k, results[path[k]], Flow(results, start).value)
  {
    path := FlowHasPath(results, start);
    var p := Flow(results, start).value;
    hide Flow;
    hide Shows;
    forall k | 0 <= k < |TOOLS|
      ensures path[k] < |results| && Shows(k, results[path[k]], p)
    {
    }
    FirstStepsNameAll(0, results[path[0]], p);
    FirstStepsNameAll(2, results[path[2]], p);
    FirstStepsNameAll(3, results[path[3]], p);
    FirstStepsNameAll(4, results[path[4]], p);
    assert Complete(p);
    hide Complete;
    forall k | 0 <= k < |TOOLS|
      ensures StepSays(k, results[path[k]], p)
    {
      StepExactly(k, results[path[k]], p);
    }
  }
}
