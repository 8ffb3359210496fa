/** cmd/openclaw-truth-plane-mutation-extract/main.go: a watch and the ownership of a handoff are updated,
    and both updates are seen to persist. */
module MutationFlow {
  import opened Options
  import opened Text
  import opened Json
  import opened HandoffResults
  import opened Flows

  datatype Watching = Watching(id: string, status: string, deadlineAt: string, escalationPolicy: string)

  datatype Party = Party(kind: string, id: string)

  datatype Owning = Owning(currentOwner: Party, leaseHolder: Party, reviewer: Party, escalationOwner: Party,
                           fallbackOwner: Party, leasedAt: string, leaseExpiresAt: string)

  datatype Summary = MutationSummary(handoffId: string, workflowId: string, watch: Watching, ownership: Owning)

  const NO_PARTY := Party("", "")
  const NO_WATCH := Watching("", "", "", "")
  const NO_OWNER := Owning(NO_PARTY, NO_PARTY, NO_PARTY, NO_PARTY, NO_PARTY, "", "")

  const EXPECTED_OWNERSHIP := Owning(
    Party("agent", "operator"), Party("agent", "operator"), Party("agent", "reviewer"), Party("user", "ops"),
    Party("agent", "planner"), "2026-05-07T12:00:00Z", "2026-05-07T12:30:00Z")

  // ---------- readers ----------

  function ContentHandoffId(content: Json): string {
    FirstNonEmpty(StringField(content, HandoffId),
                  FirstNonEmpty(NestedString(content, Handoff, Id),
                                FirstNonEmpty(NestedString(content, Watch, HandoffId),
                                              NestedString(content, Ownership, HandoffId))))
  }

  function ContentWatchId(content: Json): string {
    FirstNonEmpty(StringField(content, Id),
                  FirstNonEmpty(StringField(content, WatchId), NestedString(content, Watch, Id)))
  }

  /** watchFromObject, which needs an id. */
  function ReadWatch(value: Json): (r: Option<Watching>)
    ensures r.Some? ==> r.value.id != "" && r.value.id == StringField(value, Id)
  {
    if StringField(value, Id) == "" then None
    else Some(Watching(StringField(value, Id), StringField(value, Status), StringField(value, DeadlineAt),
                       StringField(value, EscalationPolicy)))
  }

  function WatchFromContent(content: Json): Option<Watching> {
    ReadWatch(if HasObject(content, Watch) then Field(content, Watch) else content)
  }

  /** firstWatchForHandoff. */
  function FirstWatch(watches: seq<Json>, handoffId: string): Option<Watching> {
    if watches == [] then None
    else if watches[0].Obj? && ContentHandoffId(watches[0]) == handoffId && ReadWatch(watches[0]).Some? then
      ReadWatch(watches[0])
    else FirstWatch(watches[1..], handoffId)
  }

  /** matchingWatch: the first watch of the handoff with that id. */
  function MatchingWatch(watches: seq<Json>, handoffId: string, watchId: string): (r: Option<Watching>)
    ensures r.Some? ==> r.value.id == watchId
  {
    if watches == [] then None
    else if watches[0].Obj? && ContentHandoffId(watches[0]) == handoffId && StringField(watches[0], Id) == watchId
    then ReadWatch(watches[0])
    else MatchingWatch(watches[1..], handoffId, watchId)
  }

  predicate Targets(content: Json, handoffId: string, watchId: string) {
    || (ContentHandoffId(content) == handoffId && ContentWatchId(content) == watchId)
    || (HasObject(content, Watch) && ContentHandoffId(Field(content, Watch)) == handoffId
        && ContentWatchId(Field(content, Watch)) == watchId)
  }

  predicate ExpectedWatch(w: Watching) {
    w.status == "disabled" && w.deadlineAt == "2026-05-07T12:30:00Z" && w.escalationPolicy == "manual-smoke-escalation"
  }

  /** The watch that a watch_update has set, if it is the one the smoke run asks for. */
  function UpdatedWatch(content: Json, handoffId: string, watchId: string): Option<Watching> {
    var watch := WatchFromContent(content);
    if watch.Some? && Targets(content, handoffId, watchId) && ExpectedWatch(watch.value) then watch else None
  }

  function ReadParty(value: Json, key: Key): Party {
    Party(StringField(Field(value, key), Type), StringField(Field(value, key), Id))
  }

  function ReadOwnership(content: Json): Option<Owning> {
    var value := if HasObject(content, Ownership) then Field(content, Ownership) else content;
    var owner := ReadParty(value, CurrentOwner);
    if owner == NO_PARTY then None
    else Some(Owning(owner, ReadParty(value, LeaseHolder), ReadParty(value, ReviewerActor),
                     ReadParty(value, Key.EscalationOwner),
                     ReadParty(value, Key.FallbackOwner), StringField(value, LeasedAt),
                     StringField(value, LeaseExpiresAt)))
  }

  /** The ownership that a result shows of the handoff. */
  function OwnershipOf(content: Json, handoffId: string): Option<Owning> {
    if ContentHandoffId(content) == handoffId then ReadOwnership(content) else None
  }

  // ---------- the flow ----------

  /** How many of the six steps have been made. A first watch_list without a watch of the handoff makes the
      flow barren: it never gets any further. */
  datatype Mutating = Mutating(step: nat, barren: bool, ids: Ids, watchId: string, watch: Watching, ownership: Owning)

  const BEGIN := Mutating(0, false, Ids("", ""), "", NO_WATCH, NO_OWNER)

  function OnWatchList(s: Mutating, content: Json): Mutating {
    var watches := ArrayField(content, Watches);
    if s.step == 1 && !s.barren then
      (match FirstWatch(watches, s.ids.handoffId)
       case None => s.(barren := true)
       case Some(w) => s.(step := 2, watchId := w.id))
    else if s.step == 4 && MatchingWatch(watches, s.ids.handoffId, s.watchId) == Some(s.watch) then s.(step := 5)
    else s
  }

  function OnWatchUpdate(s: Mutating, content: Json): Mutating {
    if s.step != 2 then s
    else match UpdatedWatch(content, s.ids.handoffId, s.watchId)
      case None => s
      case Some(w) => s.(step := 3, watch := w)
  }

  function OnOwnershipUpdate(s: Mutating, content: Json): Mutating {
    if s.step == 3 && OwnershipOf(content, s.ids.handoffId) == Some(EXPECTED_OWNERSHIP)
    then s.(step := 4, ownership := EXPECTED_OWNERSHIP) else s
  }

  function OnOwnershipGet(s: Mutating, content: Json): Mutating {
    if s.step == 5 && OwnershipOf(content, s.ids.handoffId) == Some(s.ownership) then s.(step := 6) else s
  }

  /** The payload, once all six steps have been made. */
  function Payload(s: Mutating): Option<Summary> {
    if s.step == 6 then Some(MutationSummary(s.ids.handoffId, s.ids.workflowId, s.watch, s.ownership)) else None
  }

  function Step(s: Mutating, result: ToolResult): Turn<Mutating, Summary> {
    match result.tool
    case HandoffCreate =>
      if s.step != 0 then Finish(Payload(s))
      else (match CreatedIds(result.content)
            case None => Finish(None)
            case Some(ids) => Continue(s.(step := 1, ids := ids)))
    case WatchList => Continue(OnWatchList(s, result.content))
    case WatchUpdate => Continue(OnWatchUpdate(s, result.content))
    case OwnershipUpdate => Continue(OnOwnershipUpdate(s, result.content))
    case OwnershipGet => Continue(OnOwnershipGet(s, result.content))
    case _ => Continue(s)
  }

  const LOOP: Machine<Mutating, Summary> := Machine(Step, Payload)

  function Flow(results: seq<ToolResult>, start: nat): Option<Summary> {
    if start < |results| && results[start].tool.HandoffCreate? then RunFrom(LOOP, BEGIN, results, start) else None
  }

  /** summarizeMutationFlow. */
  method SummarizeMutationFlow(results: seq<ToolResult>, start: nat) returns (payload: Option<Summary>)
    requires start < |results| && results[start].tool.HandoffCreate?
    ensures payload == Flow(results, start)
  {
    hide CreatedIds;
    hide FirstWatch;
    hide MatchingWatch;
    hide UpdatedWatch;
    hide OwnershipOf;
    var handoffId, workflowId, selectedWatchId := "", "", "";
    var firstWatchListSeen, firstWatchList, watchUpdate, ownershipUpdate, finalWatchList, ownershipGet :=
      false, false, false, false, false, false;
    var updatedWatch, updatedOwnership := NO_WATCH, NO_OWNER;
    ghost var s := BEGIN;
    var i := start;
    while i < |results| && !(i > start && results[i].tool.HandoffCreate?)
      invariant start <= i <= |results|
      invariant Flow(results, start) == RunFrom(LOOP, s, results, i)
      invariant s
        == Mutating(s.step, s.barren, Ids(handoffId, workflowId), selectedWatchId, updatedWatch, updatedOwnership)
      invariant s.step <= 6 && (i > start <==> s.step >= 1) && (handoffId != "" <==> s.step >= 1)
      invariant s.barren ==> s.step == 1
      invariant firstWatchListSeen <==> s.barren || s.step >= 2
      invariant firstWatchList <==> s.step >= 2
      invariant watchUpdate <==> s.step >= 3
      invariant ownershipUpdate <==> s.step >= 4
      invariant finalWatchList <==> s.step >= 5
      invariant ownershipGet <==> s.step >= 6
    {
      var content := results[i].content;
      ghost var turn := Step(s, results[i]);
      match results[i].tool {
        case HandoffCreate =>
          if !firstWatchListSeen {
            var ids := CreatedIds(content);
            if ids.None? { return None; }
            handoffId, workflowId := ids.value.handoffId, ids.value.workflowId;
          }
        case WatchList =>
          if handoffId != "" {
            if !firstWatchListSeen {
              firstWatchListSeen := true;
              var watch := FirstWatch(ArrayField(content, Watches), handoffId);
              if watch.Some? {
                selectedWatchId, firstWatchList := watch.value.id, true;
              }
            } else if firstWatchList && watchUpdate && ownershipUpdate {
              var watch := MatchingWatch(ArrayField(content, Watches), handoffId, selectedWatchId);
              if watch.Some? && watch.value == updatedWatch {
                finalWatchList := true;
              }
            }
          }
        case WatchUpdate =>
          if firstWatchList && !watchUpdate {
            var watch := UpdatedWatch(content, handoffId, selectedWatchId);
            if watch.Some? {
              updatedWatch, watchUpdate := watch.value, true;
            }
          }
        case OwnershipUpdate =>
          if watchUpdate && !ownershipUpdate {
            var ownership := OwnershipOf(content, handoffId);
            if ownership.Some? && ownership.value == EXPECTED_OWNERSHIP {
              updatedOwnership, ownershipUpdate := ownership.value, true;
            }
          }
        case OwnershipGet =>
          if ownershipUpdate && finalWatchList {
            var ownership := OwnershipOf(content, handoffId);
            if ownership.Some? && ownership.value == updatedOwnership {
              ownershipGet := true;
            }
          }
        case _ =>
      }
      s := turn.state;
      i := i + 1;
    }
    if handoffId == "" || !firstWatchList || !watchUpdate || !ownershipUpdate || !finalWatchList || !ownershipGet {
      return None;
    }
    return Some(MutationSummary(handoffId, workflowId, updatedWatch, updatedOwnership));
  }

  /** What the trace as a whole yields. */
  function Selected(results: seq<ToolResult>): Option<Chosen<Summary>> {
    Choose(Flow, results, |results|)
  }

  /** summarizeMutationResults: the payload of the last flow that succeeds. */
  method SummarizeMutationResults(results: seq<ToolResult>) returns (selected: Option<Chosen<Summary>>)
    ensures selected == Selected(results)
  {
    hide RunFrom;
    selected := None;
    for i := 0 to |results|
      invariant selected == Choose(Flow, results, i)
    {
      if results[i].tool.HandoffCreate? {
        var candidate := SummarizeMutationFlow(results, i);
        if candidate.Some? {
          selected := Some(Chosen(i, candidate.value));
        }
      }
    }
  }

  // ---------- stability ----------

  lemma FlowIsStable()
    ensures Stable(Flow)
  {
    forall results: seq<ToolResult>, more: seq<ToolResult>, i: nat | i < |results| && Flow(results, i).Some?
      ensures Flow(results + more, i) == Flow(results, i)
    {
      LoopIsSettled();
      hide Settled;
      assert (results + more)[i] == results[i];
      RunsStably(LOOP, BEGIN, results, more, i);
    }
  }

  /** Once everything has been seen, later watches and owners no longer matter. */
  lemma LoopIsSettled()
    ensures Settled(LOOP)
  {
    hide CreatedIds;
    hide FirstWatch;
    hide MatchingWatch;
    hide UpdatedWatch;
    hide OwnershipOf;
  }

  /** An accepted trace stays accepted, and keeps its payload until a later flow succeeds. */
  lemma AcceptanceIsStable(results: seq<ToolResult>, more: seq<ToolResult>)
    requires Selected(results).Some?
    ensures var before := Selected(results).value; var after := Selected(results + more);
      && after.Some? && after.value.start >= before.start
      && (after.value == before <==>
            forall j :: before.start < j < |results + more| ==> Flow(results + more, j).None?)
  {
    FlowIsStable();
    ExtensionStability(Flow, results, more);
  }

  // ---------- soundness ----------

  const TOOLS: seq<Tool> := [HandoffCreate, WatchList, WatchUpdate, OwnershipUpdate, WatchList, OwnershipGet]

  /** What a result must say to be step k of a flow with that summary. */
  predicate Shows(k: nat, r: ToolResult, p: Summary) {
    && k < |TOOLS| && r.tool == TOOLS[k]
    && match k
       case 0 => CreatedIds(r.content) == Some(Ids(p.handoffId, p.workflowId))
       case 1 =>
         var first := FirstWatch(ArrayField(r.content, Watches), p.handoffId);
         first.Some? && first.value.id == p.watch.id
       case 2 => UpdatedWatch(r.content, p.handoffId, p.watch.id) == Some(p.watch)
       case 3 => OwnershipOf(r.content, p.handoffId) == Some(p.ownership) && p.ownership == EXPECTED_OWNERSHIP
       case 4 => MatchingWatch(ArrayField(r.content, Watches), p.handoffId, p.watch.id) == Some(p.watch)
       case _ => OwnershipOf(r.content, p.handoffId) == Some(p.ownership)
  }

  /** What the steps so far have already settled. */
  predicate Agrees(s: Mutating, p: Summary) {
    && (s.step >= 1 ==> s.ids == Ids(p.handoffId, p.workflowId))
    && (s.step >= 2 ==> s.watchId == p.watch.id)
    && (s.step >= 3 ==> s.watch == p.watch)
    && (s.step >= 4 ==> s.ownership == p.ownership)
  }

  /** The watch that was seen to persist is the one first selected. */
  predicate Valid(s: Mutating) {
    s.step <= 6 && (s.step >= 5 ==> s.watch.id == s.watchId)
  }

  const STEPS: Order<Mutating, Summary> :=
    Order(6, Valid, (s: Mutating) => s.step, Agrees, Shows, (r: ToolResult) => r.tool.HandoffCreate?)

  lemma TurnIsInOrder(s: Mutating, r: ToolResult, p: Summary)
    requires Valid(s)
    ensures TurnSound(LOOP, STEPS, s, r, p)
  {
    hide CreatedIds;
    hide FirstWatch;
    hide MatchingWatch;
    hide UpdatedWatch;
    hide OwnershipOf;
  }

  lemma LoopIsSound()
    ensures Sound(LOOP, STEPS)
  {
    forall s: Mutating, r: ToolResult, p: Summary | Valid(s)
      ensures TurnSound(LOOP, STEPS, s, r, p)
    {
      TurnIsInOrder(s, r, p);
    }
    hide TurnSound;
    hide Step;
  }

  /** An accepted flow holds its six steps in order, from its own create on and before any other, each
      valid for the ids, the watch and the ownership in the summary. */
  lemma FlowHasPath(results: seq<ToolResult>, start: nat) returns (path: seq<nat>)
    requires Flow(results, start).Some?
    ensures path != [] && path[0] == start && Path(STEPS, results, start, 0, Flow(results, start).value, path)
  {
    LoopIsSound();
    hide Sound;
    path := RunStartsPath(LOOP, STEPS, BEGIN, results, start, Flow(results, start).value);
  }

  // ---------- what the steps say, member by member ----------

  /** The handoff that a value names: by itself, or by its handoff, watch or ownership, whichever speaks first. */
  predicate NamesHandoff(value: Json, handoffId: string) {
    if Speaks(value, HandoffId) then Says(value, HandoffId, handoffId)
    else if SpeaksIn(value, Handoff, Id) then SaysIn(value, Handoff, Id, handoffId)
    else if SpeaksIn(value, Watch, HandoffId) then SaysIn(value, Watch, HandoffId, handoffId)
    else SaysIn(value, Ownership, HandoffId, handoffId)
  }

  predicate NamesWatch(value: Json, watchId: string) {
    if Speaks(value, Id) then Says(value, Id, watchId)
    else if Speaks(value, WatchId) then Says(value, WatchId, watchId)
    else SaysIn(value, Watch, Id, watchId)
  }

  /** The watch as the smoke run has updated it. */
  predicate WatchSays(value: Json, w: Watching) {
    && w.id != "" && Says(value, Id, w.id)
    && w.status == "disabled" && Says(value, Status, "disabled")
    && w.deadlineAt == "2026-05-07T12:30:00Z" && Says(value, DeadlineAt, "2026-05-07T12:30:00Z")
    && w.escalationPolicy == "manual-smoke-escalation" && Says(value, EscalationPolicy, "manual-smoke-escalation")
  }

  /** The update names the handoff and the watch, outside or inside its watch, and has set the watch. */
  ghost predicate UpdateSays(content: Json, handoffId: string, w: Watching) {
    && (exists value :: IsInner(content, Watch, value) && WatchSays(value, w))
    && ((NamesHandoff(content, handoffId) && NamesWatch(content, w.id))
        || exists inner :: Has(content, Watch, inner) && inner.Obj? && NamesHandoff(inner, handoffId)
                           && NamesWatch(inner, w.id))
  }

  predicate IsWatchOf(value: Json, handoffId: string) {
    value.Obj? && NamesHandoff(value, handoffId) && Speaks(value, Id)
  }

  /** The first listed watch of the handoff is the one with that id. */
  ghost predicate SelectionSays(content: Json, handoffId: string, watchId: string) {
    exists watches: seq<Json>, i ::
      && Lists(content, Watches, watches) && 0 <= i < |watches|
      && IsWatchOf(watches[i], handoffId) && Says(watches[i], Id, watchId)
      && forall j :: 0 <= j < i ==> !IsWatchOf(watches[j], handoffId)
  }

  predicate IsTheWatch(value: Json, handoffId: string, watchId: string) {
    value.Obj? && NamesHandoff(value, handoffId) && Says(value, Id, watchId)
  }

  /** The first listed watch of the handoff with that id is as it was updated. */
  ghost predicate PersistenceSays(content: Json, handoffId: string, w: Watching) {
    exists watches: seq<Json>, i ::
      && Lists(content, Watches, watches) && 0 <= i < |watches|
      && IsTheWatch(watches[i], handoffId, w.id) && WatchSays(watches[i], w)
      && forall j :: 0 <= j < i ==> !IsTheWatch(watches[j], handoffId, w.id)
  }

  predicate PartySays(value: Json, key: Key, kind: string, id: string) {
    SaysIn(value, key, Type, kind) && SaysIn(value, key, Id, id)
  }

  predicate OwnersSay(value: Json) {
    && PartySays(value, CurrentOwner, "agent", "operator") && PartySays(value, LeaseHolder, "agent", "operator")
    && PartySays(value, ReviewerActor, "agent", "reviewer") && PartySays(value, Key.EscalationOwner, "user", "ops")
    && PartySays(value, Key.FallbackOwner, "agent", "planner")
    && Says(value, LeasedAt, "2026-05-07T12:00:00Z") && Says(value, LeaseExpiresAt, "2026-05-07T12:30:00Z")
  }

  /** The ownership of the handoff is as the smoke run has updated it. */
  ghost predicate OwnershipSays(content: Json, handoffId: string) {
    NamesHandoff(content, handoffId) && exists value :: IsInner(content, Ownership, value) && OwnersSay(value)
  }

  ghost predicate StepSays(k: nat, r: ToolResult, p: Summary) {
    && k < |TOOLS| && r.tool == TOOLS[k]
    && if k == 0 then CreateSays(r.content, p.handoffId, p.workflowId)
       else if k == 1 then SelectionSays(r.content, p.handoffId, p.watch.id)
       else if k == 2 then UpdateSays(r.content, p.handoffId, p.watch)
       else if k == 4 then PersistenceSays(r.content, p.handoffId, p.watch)
       else OwnershipSays(r.content, p.handoffId) && p.ownership == EXPECTED_OWNERSHIP
  }

  lemma NamesHandoffExactly(value: Json, handoffId: string)
    requires handoffId != ""
    ensures ContentHandoffId(value) == handoffId <==> NamesHandoff(value, handoffId)
  {
    ReadsString(value, HandoffId, handoffId);
    ReadsNested(value, Handoff, Id, handoffId);
    ReadsNested(value, Watch, HandoffId, handoffId);
    ReadsNested(value, Ownership, HandoffId, handoffId);
    hide StringField;
    hide NestedString;
    hide Says;
    hide SaysIn;
    hide Speaks;
    hide SpeaksIn;
  }

  lemma NamesWatchExactly(value: Json, watchId: string)
    requires watchId != ""
    ensures ContentWatchId(value) == watchId <==> NamesWatch(value, watchId)
  {
    ReadsString(value, Id, watchId);
    ReadsString(value, WatchId, watchId);
    ReadsNested(value, Watch, Id, watchId);
    hide StringField;
    hide NestedString;
    hide Says;
    hide SaysIn;
    hide Speaks;
    hide SpeaksIn;
  }

  lemma WatchExactly(value: Json, w: Watching)
    ensures ReadWatch(value) == Some(w) && ExpectedWatch(w) <==> WatchSays(value, w)
  {
    ReadsString(value, Id, w.id);
    ReadsString(value, Status, "disabled");
    ReadsString(value, DeadlineAt, "2026-05-07T12:30:00Z");
    ReadsString(value, EscalationPolicy, "manual-smoke-escalation");
    hide StringField;
    hide Says;
  }

  lemma InnerIs(content: Json, key: Key)
    ensures var inner := if HasObject(content, key) then Field(content, key) else content;
      IsInner(content, key, inner) && forall value :: IsInner(content, key, value) ==> value == inner
    ensures HasObject(content, key) <==> exists inner :: Has(content, key, inner) && inner.Obj?
    ensures forall inner :: Has(content, key, inner) ==> inner == Field(content, key)
  {
    if HasObject(content, key) {
      assert Has(content, key, Field(content, key));
    }
  }

  lemma UpdateExactly(content: Json, handoffId: string, w: Watching)
    requires handoffId != "" && w.id != ""
    ensures UpdatedWatch(content, handoffId, w.id) == Some(w) <==> UpdateSays(content, handoffId, w)
  {
    InnerIs(content, Watch);
    WatchExactly(if HasObject(content, Watch) then Field(content, Watch) else content, w);
    NamesHandoffExactly(content, handoffId);
    NamesWatchExactly(content, w.id);
    NamesHandoffExactly(Field(content, Watch), handoffId);
    NamesWatchExactly(Field(content, Watch), w.id);
    hide ContentHandoffId;
    hide ContentWatchId;
    hide NamesHandoff;
    hide NamesWatch;
    hide ReadWatch;
    hide ExpectedWatch;
    hide WatchSays;
    hide IsInner;
    hide Field;
    hide Has;
  }

  lemma {:induction false} FirstWatchIs(watches: seq<Json>, handoffId: string, i: nat)
    requires i < |watches| && handoffId != "" && IsWatchOf(watches[i], handoffId)
    requires forall j :: 0 <= j < i ==> !IsWatchOf(watches[j], handoffId)
    ensures FirstWatch(watches, handoffId) == ReadWatch(watches[i]) && ReadWatch(watches[i]).Some?
  {
    IsWatchOfExactly(watches[0], handoffId);
    hide IsWatchOf;
    hide ReadWatch;
    hide ContentHandoffId;
    if i > 0 {
      FirstWatchIs(watches[1..], handoffId, i - 1);
    }
  }

  lemma IsWatchOfExactly(value: Json, handoffId: string)
    requires handoffId != ""
    ensures IsWatchOf(value, handoffId) <==>
      value.Obj? && ContentHandoffId(value) == handoffId && ReadWatch(value).Some?
  {
    NamesHandoffExactly(value, handoffId);
    ReadsString(value, Id, "");
    hide NamesHandoff;
    hide ContentHandoffId;
    hide StringField;
    hide Speaks;
  }

  lemma {:induction false} FirstWatchFound(watches: seq<Json>, handoffId: string) returns (i: nat)
    requires handoffId != "" && FirstWatch(watches, handoffId).Some?
    ensures i < |watches| && IsWatchOf(watches[i], handoffId)
    ensures forall j :: 0 <= j < i ==> !IsWatchOf(watches[j], handoffId)
  {
    IsWatchOfExactly(watches[0], handoffId);
    hide IsWatchOf;
    hide ReadWatch;
    hide ContentHandoffId;
    i := 0;
    if !IsWatchOf(watches[0], handoffId) {
      i := FirstWatchFound(watches[1..], handoffId);
      i := i + 1;
    }
  }

  lemma SelectionExactly(content: Json, handoffId: string, watchId: string)
    requires handoffId != "" && watchId != ""
    ensures SelectionSays(content, handoffId, watchId) <==>
      var first := FirstWatch(ArrayField(content, Watches), handoffId); first.Some? && first.value.id == watchId
  {
    hide FirstWatch;
    hide IsWatchOf;
    hide Says;
    hide ReadWatch;
    hide ArrayField;
    hide Lists;
    var listed := ArrayField(content, Watches);
    ReadsArray(content, Watches, listed);
    if SelectionSays(content, handoffId, watchId) {
      var watches, i :| Lists(content, Watches, watches) && 0 <= i < |watches|
        && IsWatchOf(watches[i], handoffId) && Says(watches[i], Id, watchId)
        && forall j :: 0 <= j < i ==> !IsWatchOf(watches[j], handoffId);
      ReadsArray(content, Watches, watches);
      FirstWatchIs(listed, handoffId, i);
      ReadsString(listed[i], Id, watchId);
      hide StringField;
    }
    if FirstWatch(listed, handoffId).Some? && FirstWatch(listed, handoffId).value.id == watchId {
      var i := FirstWatchFound(listed, handoffId);
      FirstWatchIs(listed, handoffId, i);
      ReadsString(listed[i], Id, watchId);
      hide StringField;
    }
  }

  lemma IsTheWatchExactly(value: Json, handoffId: string, watchId: string)
    requires handoffId != "" && watchId != ""
    ensures IsTheWatch(value, handoffId, watchId) <==>
      value.Obj? && ContentHandoffId(value) == handoffId && StringField(value, Id) == watchId
  {
    NamesHandoffExactly(value, handoffId);
    ReadsString(value, Id, watchId);
    hide NamesHandoff;
    hide ContentHandoffId;
    hide StringField;
    hide Says;
  }

  lemma {:induction false} MatchingWatchIs(watches: seq<Json>, handoffId: string, watchId: string, i: nat)
    requires i < |watches| && handoffId != "" && watchId != "" && IsTheWatch(watches[i], handoffId, watchId)
    requires forall j :: 0 <= j < i ==> !IsTheWatch(watches[j], handoffId, watchId)
    ensures MatchingWatch(watches, handoffId, watchId) == ReadWatch(watches[i])
  {
    IsTheWatchExactly(watches[0], handoffId, watchId);
    hide IsTheWatch;
    hide ReadWatch;
    hide ContentHandoffId;
    hide StringField;
    if i > 0 {
      MatchingWatchIs(watches[1..], handoffId, watchId, i - 1);
    }
  }

  lemma {:induction false} MatchingWatchFound(watches: seq<Json>, handoffId: string, watchId: string) returns (i: nat)
    requires handoffId != "" && watchId != "" && MatchingWatch(watches, handoffId, watchId).Some?
    ensures i < |watches| && IsTheWatch(watches[i], handoffId, watchId)
    ensures forall j :: 0 <= j < i ==> !IsTheWatch(watches[j], handoffId, watchId)
  {
    IsTheWatchExactly(watches[0], handoffId, watchId);
    hide IsTheWatch;
    hide ReadWatch;
    hide ContentHandoffId;
    hide StringField;
    i := 0;
    if !IsTheWatch(watches[0], handoffId, watchId) {
      i := MatchingWatchFound(watches[1..], handoffId, watchId);
      i := i + 1;
    }
  }

  lemma PersistenceExactly(content: Json, handoffId: string, w: Watching)
    requires handoffId != "" && w.id != "" && ExpectedWatch(w)
    ensures PersistenceSays(content, handoffId, w) <==>
      MatchingWatch(ArrayField(content, Watches), handoffId, w.id) == Some(w)
  {
    hide MatchingWatch;
    hide IsTheWatch;
    hide WatchSays;
    hide ReadWatch;
    hide ArrayField;
    hide Lists;
    hide ExpectedWatch;
    var listed := ArrayField(content, Watches);
    ReadsArray(content, Watches, listed);
    if PersistenceSays(content, handoffId, w) {
      var watches, i :| Lists(content, Watches, watches) && 0 <= i < |watches|
        && IsTheWatch(watches[i], handoffId, w.id) && WatchSays(watches[i], w)
        && forall j :: 0 <= j < i ==> !IsTheWatch(watches[j], handoffId, w.id);
      ReadsArray(content, Watches, watches);
      MatchingWatchIs(listed, handoffId, w.id, i);
      WatchExactly(listed[i], w);
    }
    if MatchingWatch(listed, handoffId, w.id) == Some(w) {
      var i := MatchingWatchFound(listed, handoffId, w.id);
      MatchingWatchIs(listed, handoffId, w.id, i);
      WatchExactly(listed[i], w);
    }
  }

  lemma PartyExactly(value: Json, key: Key, kind: string, id: string)
    requires kind != "" && id != ""
    ensures ReadParty(value, key) == Party(kind, id) <==> PartySays(value, key, kind, id)
  {
  }

  lemma OwnersExactly(content: Json)
    ensures ReadOwnership(content) == Some(EXPECTED_OWNERSHIP) <==>
      exists value :: IsInner(content, Ownership, value) && OwnersSay(value)
  {
    InnerIs(content, Ownership);
    var value := if HasObject(content, Ownership) then Field(content, Ownership) else content;
    PartyExactly(value, CurrentOwner, "agent", "operator");
    PartyExactly(value, LeaseHolder, "agent", "operator");
    PartyExactly(value, ReviewerActor, "agent", "reviewer");
    PartyExactly(value, Key.EscalationOwner, "user", "ops");
    PartyExactly(value, Key.FallbackOwner, "agent", "planner");
    ReadsString(value, LeasedAt, "2026-05-07T12:00:00Z");
    ReadsString(value, LeaseExpiresAt, "2026-05-07T12:30:00Z");
    hide IsInner;
    hide ReadParty;
    hide PartySays;
    hide StringField;
    hide Says;
    hide HasObject;
    hide Field;
  }

  lemma OwnershipExactly(content: Json, handoffId: string)
    requires handoffId != ""
    ensures OwnershipOf(content, handoffId) == Some(EXPECTED_OWNERSHIP) <==> OwnershipSays(content, handoffId)
  {
    NamesHandoffExactly(content, handoffId);
    OwnersExactly(content);
    hide ContentHandoffId;
    hide NamesHandoff;
    hide ReadOwnership;
    hide OwnersSay;
    hide IsInner;
  }

  /** A result is a valid step exactly when it says what the step needs. */
  lemma StepExactly(k: nat, r: ToolResult, p: Summary)
    requires p.handoffId != "" && p.workflowId != "" && p.watch.id != "" && ExpectedWatch(p.watch)
    requires p.ownership == EXPECTED_OWNERSHIP
    ensures Shows(k, r, p) <==> StepSays(k, r, p)
  {
    hide CreatedIds;
    hide CreateSays;
    hide SelectionSays;
    hide FirstWatch;
    hide UpdatedWatch;
    hide UpdateSays;
    hide OwnershipOf;
    hide OwnershipSays;
    hide MatchingWatch;
    hide PersistenceSays;
    hide ArrayField;
    hide ExpectedWatch;
    if k == 0 {
      CreateExactly(r.content, p.handoffId, p.workflowId);
    } else if k == 1 {
      SelectionExactly(r.content, p.handoffId, p.watch.id);
    } else if k == 2 {
      UpdateExactly(r.content, p.handoffId, p.watch);
    } else if k == 4 {
      PersistenceExactly(r.content, p.handoffId, p.watch);
    } else {
      OwnershipExactly(r.content, p.handoffId);
    }
  }

  lemma StepsNameAll(k: nat, r: ToolResult, p: Summary)
    requires Shows(k, r, p)
    ensures k == 0 ==> p.handoffId != "" && p.workflowId != ""
    ensures k == 2 ==> p.watch.id != "" && ExpectedWatch(p.watch)
    ensures k == 3 ==> p.ownership == EXPECTED_OWNERSHIP
  {
    hide ContentHandoffId;
    hide ContentWatchId;
    hide FirstWatch;
    hide MatchingWatch;
    hide ReadOwnership;
    hide ExpectedWatch;
    hide NestedString;
    hide Targets;
  }

  /** A mutation that succeeds holds, at increasing positions, the six results that say what it reports. */
  lemma FlowSays(results: seq<ToolResult>, start: nat) returns (path: seq<nat>)
    requires Flow(results, start).Some?
    ensures |path| == |TOOLS| && path[0] == start
    ensures forall j, k :: 0 <= j < k < |TOOLS| ==> path[j] < path[k]
    ensures forall k :: 0 <= k < |TOOLS| ==>
      path[k] < |results| && StepSays(k, results[path[k]], Flow(results, start).value)
  {
    path := FlowHasPath(results, start);
    var p := Flow(results, start).value;
    hide Flow;
    hide Shows;
    hide ExpectedWatch;
    forall k | 0 <= k < |TOOLS|
      ensures path[k] < |results| && Shows(k, results[path[k]], p)
    {
    }
    StepsNameAll(0, results[path[0]], p);
    StepsNameAll(2, results[path[2]], p);
    StepsNameAll(3, results[path[3]], p);
    forall k | 0 <= k < |TOOLS|
      ensures StepSays(k, results[path[k]], p)
    {
      StepExactly(k, results[path[k]], p);
    }
  }
}
