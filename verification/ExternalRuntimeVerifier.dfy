/** cmd/openclaw-mcp-smoke/openclaw_external_runtime_evidence.go: the smoke check that judges the record
    that the extractor writes. The checks for unsafe strings are a parameter. */
module ExternalRuntimeVerifier {
  import opened Options
  import opened Text
  import opened Json
  import X = ExternalRuntime
  import Trajectory

  const SCHEMA := "p37.external-runtime-trajectory.v1"
  const SOURCE_KIND := "openclaw_events_jsonl_export"

  const REQUIRED: seq<string> := [
    "agent_register", "handoff_create", "next_work", "blocked_work", "handoff_progress", "workflow_status",
    "coordination_evidence_summary"
  ]

  const ALLOWED: seq<string> := REQUIRED

  predicate ForbiddenField(key: Key) {
    || key.SenderDelivery? || key.SenderJob? || key.SenderJobId? || key.SenderBaseUrl? || key.SenderAuthKey?
    || key.ClawsideA2AAuthKey? || key.DeliveryTargetRef? || key.DeliveryJob? || key.Telegram? || key.ChatId?
    || key.RuntimeLaunch? || key.RuntimeSession? || key.RuntimeSessionId? || key.Worker? || key.WorkerId?
    || key.WorkerLaunch? || key.Sandbox? || key.SandboxLaunch?
  }

  /** No forbidden member at any depth. */
  ghost predicate NoForbiddenField(value: Json) {
    match value
    case Arr(items) => forall i :: 0 <= i < |items| ==> NoForbiddenField(items[i])
    case Obj(fields) => forall k :: k in fields ==> !ForbiddenField(k) && NoForbiddenField(fields[k])
    case _ => true
  }

  function StringAt(value: Json, key: Key): string {
    Trim(StringField(value, key))
  }

  /** An array of non-blank strings, trimmed. */
  function StringList(items: seq<Json>): Option<seq<string>> {
    if items == [] then Some([])
    else if !items[0].Str? || Trim(items[0].text) == "" then None
    else
      var rest := StringList(items[1..]);
      if rest.None? then None else Some([Trim(items[0].text)] + rest.value)
  }

  predicate ProvenanceAccepted(evidence: Json) {
    var p := Field(evidence, TrajectoryProvenance);
    && p.Obj?
    && StringAt(p, SourceKind) == SOURCE_KIND
    && BoolField(p, ReadOnlyValidation)
    && BoolField(p, ExternalRuntimeTrajectoryObserved)
    && IntField(p, TrajectoryEventCount) > 0
    && IntField(p, ClawsideToolResultCount) >= |REQUIRED|
    && IntField(p, NonClawsideEventCount) > 0
    && Field(p, ObservedEventTypes).Arr? && ArrayField(p, ObservedEventTypes) != []
    && StringList(ArrayField(p, ObservedEventTypes)).Some?
    && BoolField(p, LifecycleOrderVerified)
    && BoolField(p, BoundedOutputSanitized)
    && BoolField(p, ForbiddenLaunchOrDeliveryToolsAbsent)
  }

  predicate ToolsAccepted(evidence: Json) {
    && Field(evidence, Tools).Arr?
    && var tools := StringList(ArrayField(evidence, Tools));
       && tools.Some?
       && (forall i :: 0 <= i < |REQUIRED| ==> REQUIRED[i] in tools.value)
       && (forall i :: 0 <= i < |tools.value| ==> tools.value[i] !in X.FORBIDDEN && tools.value[i] in ALLOWED)
  }

  predicate GatesAccepted(evidence: Json) {
    && BoolField(evidence, DependencyGateVerified)
    && BoolField(evidence, ReviewGateVerified)
    && BoolField(evidence, DownstreamReady)
    && StringAt(evidence, WorkflowFinalStatus) == "completed"
    && BoolField(evidence, EvidenceSummaryReady)
    && BoolField(evidence, NoSenderDelivery)
    && BoolField(evidence, NoRuntimeLaunchByClawside)
  }

  /** validateOpenClawExternalRuntimeEvidenceResult: whether the file is accepted. `safe` stands for the
      searches for unsafe strings, before and after the other checks. */
  ghost predicate Accepts(value: Json, safe: Json -> bool) {
    && safe(value) && NoForbiddenField(value)
    && var evidence := Field(value, ExternalRuntimeEvidence);
       && evidence.Obj?
       && StringAt(evidence, SchemaVersion) == SCHEMA
       && ProvenanceAccepted(evidence)
       && StringAt(evidence, WorkflowId) != ""
       && StringAt(evidence, UpstreamHandoffId) != ""
       && StringAt(evidence, DownstreamHandoffId) != ""
       && ToolsAccepted(evidence)
       && GatesAccepted(evidence)
  }

  // ---------- the record the extractor writes ----------

  /** `types` lists the observed event types; the program sorts them, which the verifier does not look at. */
  function EncodeProvenance(p: X.Provenance, types: seq<string>): Json {
    Obj(map[
      SourceKind := Str(SOURCE_KIND), ReadOnlyValidation := Bool(true),
      ExternalRuntimeTrajectoryObserved := Bool(p.observed), TrajectoryEventCount := Num(p.events),
      ClawsideToolResultCount := Num(p.clawside), NonClawsideEventCount := Num(p.others),
      ObservedEventTypes := Arr(Strings(types)), LifecycleOrderVerified := Bool(p.orderVerified),
      BoundedOutputSanitized := Bool(true), ForbiddenLaunchOrDeliveryToolsAbsent := Bool(p.forbiddenAbsent)])
  }

  function Names(e: X.Evidence): map<Key, Json> {
    map[SchemaVersion := Str(SCHEMA), WorkflowId := Str(e.workflowId), UpstreamHandoffId := Str(e.upstream),
        DownstreamHandoffId := Str(e.downstream), WorkflowFinalStatus := Str("completed")]
  }

  function Gates(): map<Key, Json> {
    map[DependencyGateVerified := Bool(true), ReviewGateVerified := Bool(true), DownstreamReady := Bool(true),
        EvidenceSummaryReady := Bool(true), NoSenderDelivery := Bool(true), NoRuntimeLaunchByClawside := Bool(true)]
  }

  function Nested(e: X.Evidence, types: seq<string>): map<Key, Json> {
    map[Tools := Arr(Strings(e.tools)), TrajectoryProvenance := EncodeProvenance(e.provenance, types)]
  }

  function EncodeEvidence(e: X.Evidence, types: seq<string>): Json {
    Obj(Names(e) + Gates() + Nested(e, types))
  }

  function Encode(e: X.Evidence, types: seq<string>): Json {
    Obj(map[ExternalRuntimeEvidence := EncodeEvidence(e, types)])
  }

  lemma {:induction false} StringListOf(values: seq<string>)
    requires forall i :: 0 <= i < |values| ==> values[i] != "" && Trim(values[i]) == values[i]
    ensures StringList(Strings(values)) == Some(values)
  {
    if values != [] {
      assert Strings(values)[1..] == Strings(values[1..]);
      StringListOf(values[1..]);
      assert values == [values[0]] + values[1..];
    }
  }

  lemma PlainTrims(s: string)
    requires X.Plain(s)
    ensures Trim(s) == s && s != ""
  {
    assert X.PlainChar(s[0]) && X.PlainChar(s[|s| - 1]);
  }

  lemma RequiredTrims()
    ensures forall i :: 0 <= i < |X.REQUIRED| ==> X.REQUIRED[i] != "" && Trim(X.REQUIRED[i]) == X.REQUIRED[i]
  {
    hide Trim;
    forall i | 0 <= i < |X.REQUIRED|
      ensures X.REQUIRED[i] != "" && Trim(X.REQUIRED[i]) == X.REQUIRED[i]
    {
      X.RequiredIsPlain(X.REQUIRED[i]);
      PlainTrims(X.REQUIRED[i]);
    }
  }

  // ---------- what the extractor knows about its strings ----------

  predicate Trimmed(s: string) {
    Trim(s) == s
  }

  predicate IdsTrimmed(ids: X.Ids) {
    Trimmed(ids.workflow) && Trimmed(ids.upstream) && Trimmed(ids.downstream)
  }

  ghost predicate TypesTrimmed(s: X.Seen) {
    forall t :: t in s.types ==> Trimmed(t)
  }

  lemma RenamedTrims(ids: X.Ids, tool: X.Tool, content: Json)
    requires IdsTrimmed(ids)
    ensures IdsTrimmed(X.Renamed(ids, tool, content))
  {
    TrimTwice(StringField(Field(content, Workflow), Id));
    TrimTwice(StringField(ObjectField(content, Handoff), Id));
    hide Trim;
    hide StringField;
    hide X.ContainsString;
    hide BoolField;
  }

  lemma InspectTrims(f: X.Flow, n: nat, tool: X.Tool, content: Json)
    requires IdsTrimmed(f.Named())
    ensures IdsTrimmed(X.Inspect(f, n, tool, content).Named())
  {
    hide IdsTrimmed;
    hide X.Inspect;
    hide X.Renamed;
    hide X.Mismatches;
    hide X.StatusAfter;
    X.InspectNotes(f, n, tool, content);
    RenamedTrims(f.Named(), tool, content);
  }

  lemma CountLineTrims(seen: X.Seen, line: Trajectory.Line, tool: Option<string>)
    requires TypesTrimmed(seen)
    ensures TypesTrimmed(X.CountLine(seen, line, tool))
  {
    var m := Trajectory.ExtractEventMetadata(line, Trajectory.CLAWSIDE);
    if m.Ok? && m.value.Some? {
      KindIsTrimmed(line);
    }
    hide Trajectory.ExtractEventMetadata;
    hide Trimmed;
  }

  lemma KindIsTrimmed(line: Trajectory.Line)
    ensures var m := Trajectory.ExtractEventMetadata(line, Trajectory.CLAWSIDE);
      m.Ok? && m.value.Some? ==> Trimmed(m.value.value.kind)
  {
    if line.TrajectoryEvent? {
      TrimTwice(line.kind);
    }
    hide Trajectory.MetadataServerAndTool;
    hide Trim;
  }

  lemma {:induction false} ScanTrims(lines: seq<Trajectory.Line>)
    requires X.Scan(lines).Ok?
    ensures IdsTrimmed(X.Scan(lines).value.flow.Named()) && TypesTrimmed(X.Scan(lines).value.seen)
    decreases |lines|
  {
    if lines != [] {
      var before, line := lines[..|lines| - 1], lines[|lines| - 1];
      ScanTrims(before);
      var s := X.Scan(before).value;
      X.ScanLineSplits(s, |lines|, line);
      hide X.ScanLine;
      hide X.Observed;
      hide IdsTrimmed;
      hide TypesTrimmed;
      var o := X.Observed(line).value;
      CountLineTrims(s.seen, line, None);
      if o.Some? {
        CountLineTrims(s.seen, line, Some(o.value.tool));
        InspectTrims(s.flow, |lines|, X.ToolNamed(o.value.tool), o.value.content);
      }
    }
  }

  // ---------- agreement ----------

  lemma SevenRequired()
    ensures |X.RequiredSet()| == |REQUIRED|
  {
    assert X.RequiredSet() == {"agent_register", "handoff_create", "next_work", "blocked_work", "handoff_progress",
                               "workflow_status", "coordination_evidence_summary"};
  }

  /** Seven distinct tools were seen on seven distinct lines, and the metadata parser counted each of them. */
  lemma CountCoversRequired(lines: seq<Trajectory.Line>)
    requires X.Scan(lines).Ok? && X.Output(X.Scan(lines).value).Some?
    ensures X.Scan(lines).value.seen.clawside >= |REQUIRED|
  {
    X.ScanEstablishes(lines);
    SevenRequired();
    var s := X.Scan(lines).value;
    RequiredAllSeen(s);
    hide X.Scan;
    hide X.Output;
    hide X.FlagsMatchMarks;
    assert X.RequiredSeen(s.seen) == X.RequiredSet();
  }

  lemma RequiredAllSeen(s: X.Extraction)
    requires X.Output(s).Some?
    ensures X.RequiredSet() <= s.seen.tools
  {
    hide X.LifecycleOrderVerified;
    forall x | x in X.RequiredSet()
      ensures x in s.seen.tools
    {
      var i :| 0 <= i < |X.REQUIRED| && X.REQUIRED[i] == x;
    }
  }

  /** The list of types is the set of types that were observed. */
  ghost predicate ListsTypes(types: seq<string>, observed: set<string>) {
    (forall i :: 0 <= i < |types| ==> types[i] in observed) && (observed != {} ==> types != [])
  }

  lemma NamesRead(e: X.Evidence, types: seq<string>)
    ensures var evidence := EncodeEvidence(e, types);
      && StringField(evidence, SchemaVersion) == SCHEMA && StringField(evidence, WorkflowId) == e.workflowId
      && StringField(evidence, UpstreamHandoffId) == e.upstream
      && StringField(evidence, DownstreamHandoffId) == e.downstream
  {
    hide EncodeProvenance;
    hide Strings;
  }

  lemma StatusRead(e: X.Evidence, types: seq<string>)
    ensures StringField(EncodeEvidence(e, types), WorkflowFinalStatus) == "completed"
  {
    hide EncodeProvenance;
    hide Strings;
  }

  lemma GatesRead(e: X.Evidence, types: seq<string>)
    ensures var evidence := EncodeEvidence(e, types);
      && BoolField(evidence, DependencyGateVerified) && BoolField(evidence, ReviewGateVerified)
      && BoolField(evidence, DownstreamReady) && BoolField(evidence, EvidenceSummaryReady)
      && BoolField(evidence, NoSenderDelivery) && BoolField(evidence, NoRuntimeLaunchByClawside)
  {
    hide EncodeProvenance;
    hide Strings;
  }

  lemma NestedRead(e: X.Evidence, types: seq<string>)
    ensures var evidence := EncodeEvidence(e, types);
      Field(evidence, Tools) == Arr(Strings(e.tools))
        && Field(evidence, TrajectoryProvenance) == EncodeProvenance(e.provenance, types)
  {
    hide EncodeProvenance;
    hide Strings;
  }

  lemma ProvenanceReads(p: X.Provenance, types: seq<string>)
    ensures var v := EncodeProvenance(p, types);
      && StringField(v, SourceKind) == SOURCE_KIND && BoolField(v, ReadOnlyValidation)
      && BoolField(v, ExternalRuntimeTrajectoryObserved) == p.observed && IntField(v, TrajectoryEventCount) == p.events
      && IntField(v, ClawsideToolResultCount) == p.clawside && IntField(v, NonClawsideEventCount) == p.others
  {
    hide Strings;
  }

  lemma ProvenanceReadsMore(p: X.Provenance, types: seq<string>)
    ensures var v := EncodeProvenance(p, types);
      && Field(v, ObservedEventTypes) == Arr(Strings(types)) && BoolField(v, LifecycleOrderVerified) == p.orderVerified
      && BoolField(v, BoundedOutputSanitized) && BoolField(v, ForbiddenLaunchOrDeliveryToolsAbsent) == p.forbiddenAbsent
  {
    hide Strings;
  }

  ghost predicate CleanFields(fields: map<Key, Json>) {
    forall k :: k in fields ==> !ForbiddenField(k) && NoForbiddenField(fields[k])
  }

  lemma NamesAreClean(e: X.Evidence)
    ensures CleanFields(Names(e))
  {
  }

  lemma GatesAreClean()
    ensures CleanFields(Gates())
  {
  }

  lemma ProvenanceIsClean(p: X.Provenance, types: seq<string>)
    ensures NoForbiddenField(EncodeProvenance(p, types))
  {
    assert NoForbiddenField(Arr(Strings(types)));
  }

  lemma NestedIsClean(e: X.Evidence, types: seq<string>)
    ensures CleanFields(Nested(e, types))
  {
    ProvenanceIsClean(e.provenance, types);
    hide EncodeProvenance;
    assert NoForbiddenField(Arr(Strings(e.tools)));
  }

  lemma EvidenceHasNoForbiddenField(e: X.Evidence, types: seq<string>)
    ensures NoForbiddenField(Encode(e, types))
  {
    NamesAreClean(e);
    GatesAreClean();
    NestedIsClean(e, types);
    hide Names;
    hide Gates;
    hide Nested;
    assert NoForbiddenField(EncodeEvidence(e, types));
    hide EncodeEvidence;
  }

  lemma ProvenanceAgrees(e: X.Evidence, types: seq<string>)
    requires var p := e.provenance;
      p.observed && p.events > 0 && p.clawside >= |REQUIRED| && p.others > 0 && p.orderVerified && p.forbiddenAbsent
    requires types != [] && forall i :: 0 <= i < |types| ==> types[i] != "" && Trim(types[i]) == types[i]
    ensures ProvenanceAccepted(EncodeEvidence(e, types))
  {
    StringListOf(types);
    SourceKindTrims();
    NestedRead(e, types);
    ProvenanceReads(e.provenance, types);
    ProvenanceReadsMore(e.provenance, types);
    assert EncodeProvenance(e.provenance, types).Obj?;
    hide EncodeEvidence;
    hide EncodeProvenance;
    hide Trim;
    hide StringList;
    hide Field;
  }

  lemma SourceKindTrims()
    ensures Trim(SOURCE_KIND) == SOURCE_KIND
  {
  }

  lemma SchemaTrims()
    ensures Trim(SCHEMA) == SCHEMA
  {
  }

  lemma CompletedTrims()
    ensures Trim("completed") == "completed"
  {
  }

  lemma EvidenceAgrees(e: X.Evidence, types: seq<string>)
    requires e.tools == X.REQUIRED
    requires e.workflowId != "" && e.upstream != "" && e.downstream != ""
    requires Trim(e.workflowId) == e.workflowId && Trim(e.upstream) == e.upstream && Trim(e.downstream) == e.downstream
    ensures var evidence := EncodeEvidence(e, types);
      && StringAt(evidence, SchemaVersion) == SCHEMA && StringAt(evidence, WorkflowId) != ""
      && StringAt(evidence, UpstreamHandoffId) != "" && StringAt(evidence, DownstreamHandoffId) != ""
      && GatesAccepted(evidence)
  {
    SchemaTrims();
    CompletedTrims();
    NamesRead(e, types);
    StatusRead(e, types);
    GatesRead(e, types);
    hide EncodeEvidence;
    hide Trim;
    hide StringField;
    hide BoolField;
  }

  lemma ToolsAgree(e: X.Evidence, types: seq<string>)
    requires e.tools == X.REQUIRED
    ensures ToolsAccepted(EncodeEvidence(e, types))
  {
    RequiredTrims();
    StringListOf(X.REQUIRED);
    NoRequiredToolIsForbidden();
    hide Trim;
    hide StringList;
    hide EncodeProvenance;
    assert ArrayField(EncodeEvidence(e, types), Tools) == Strings(X.REQUIRED);
    assert X.REQUIRED == REQUIRED;
  }

  lemma NoRequiredToolIsForbidden()
    ensures forall i :: 0 <= i < |X.REQUIRED| ==> X.REQUIRED[i] !in X.FORBIDDEN
  {
  }

  /** Producer and consumer agree: the record of an accepted trajectory passes the smoke check exactly
      when its strings are safe. */
  lemma VerifierAcceptsExtractor(lines: seq<Trajectory.Line>, types: seq<string>, safe: Json -> bool)
    requires X.Scan(lines).Ok? && X.Output(X.Scan(lines).value).Some?
    requires ListsTypes(types, X.Output(X.Scan(lines).value).value.provenance.types)
    ensures var record := Encode(X.Output(X.Scan(lines).value).value, types); Accepts(record, safe) <==> safe(record)
  {
    X.ScanEstablishes(lines);
    ScanTrims(lines);
    CountCoversRequired(lines);
    var s := X.Scan(lines).value;
    OutputSays(s);
    hide X.Scan;
    hide X.FlagsMatchMarks;
    var e := X.Output(s).value;
    hide X.Output;
    hide Trim;
    EvidenceHasNoForbiddenField(e, types);
    forall i | 0 <= i < |types|
      ensures types[i] != "" && Trim(types[i]) == types[i]
    {
      assert Trimmed(types[i]);
    }
    ProvenanceAgrees(e, types);
    assert Trimmed(e.workflowId) && Trimmed(e.upstream) && Trimmed(e.downstream);
    EvidenceAgrees(e, types);
    ToolsAgree(e, types);
    hide EncodeEvidence;
    hide NoForbiddenField;
    hide ProvenanceAccepted;
    hide ToolsAccepted;
    hide GatesAccepted;
    assert Field(Encode(e, types), ExternalRuntimeEvidence) == EncodeEvidence(e, types);
    assert EncodeEvidence(e, types).Obj? by { EvidenceIsObject(e, types); }
  }

  lemma EvidenceIsObject(e: X.Evidence, types: seq<string>)
    ensures EncodeEvidence(e, types).Obj?
  {
  }

  lemma OutputSays(s: X.Extraction)
    requires X.Output(s).Some?
    ensures var e := X.Output(s).value; var p := e.provenance;
      && e.tools == X.REQUIRED && e.workflowId == s.flow.workflowId && e.upstream == s.flow.upstream
      && e.downstream == s.flow.downstream && e.workflowId != "" && e.upstream != "" && e.downstream != ""
      && p.observed && p.events == s.seen.events && p.clawside == s.seen.clawside && p.others == s.seen.others > 0
      && p.types == s.seen.types && p.orderVerified && p.forbiddenAbsent
  {
    hide X.OrderVerifiedFrom;
  }

  // ---------- what an accepted record says, member by member ----------

  /** The member is that string, apart from white space around it. */
  predicate Reads(value: Json, key: Key, text: string) {
    value.Obj? && key in value.fields && value.fields[key].Str? && Trim(value.fields[key].text) == text
  }

  predicate AtLeast(value: Json, key: Key, bound: int) {
    value.Obj? && key in value.fields && value.fields[key].Num? && value.fields[key].number >= bound
  }

  predicate AllFilled(items: seq<Json>) {
    forall i :: 0 <= i < |items| ==> items[i].Str? && Trim(items[i].text) != ""
  }

  ghost predicate ProvenanceSays(p: Json) {
    && Reads(p, SourceKind, "openclaw_events_jsonl_export")
    && Confirms(p, ReadOnlyValidation) && Confirms(p, ExternalRuntimeTrajectoryObserved)
    && AtLeast(p, TrajectoryEventCount, 1) && AtLeast(p, ClawsideToolResultCount, 7)
    && AtLeast(p, NonClawsideEventCount, 1)
    && (exists types: seq<Json> :: Lists(p, ObservedEventTypes, types) && types != [] && AllFilled(types))
    && Confirms(p, LifecycleOrderVerified) && Confirms(p, BoundedOutputSanitized)
    && Confirms(p, ForbiddenLaunchOrDeliveryToolsAbsent)
  }

  predicate OnlyRequired(items: seq<Json>)
    requires AllFilled(items)
  {
    forall i :: 0 <= i < |items| ==> Trim(items[i].text) in REQUIRED
  }

  /** Some item is that text. */
  ghost predicate IsListed(items: seq<Json>, text: string)
    requires AllFilled(items)
  {
    exists j :: 0 <= j < |items| && Trim(items[j].text) == text
  }

  /** The seven required tools are listed, and no others. */
  ghost predicate ToolsSay(evidence: Json) {
    exists tools: seq<Json> ::
      && Lists(evidence, Tools, tools) && AllFilled(tools) && OnlyRequired(tools)
      && forall i :: 0 <= i < |REQUIRED| ==> IsListed(tools, REQUIRED[i])
  }

  ghost predicate EvidenceSays(evidence: Json) {
    && Reads(evidence, SchemaVersion, "p37.external-runtime-trajectory.v1")
    && (exists p :: Has(evidence, TrajectoryProvenance, p) && ProvenanceSays(p))
    && Fills(evidence, WorkflowId) && Fills(evidence, UpstreamHandoffId) && Fills(evidence, DownstreamHandoffId)
    && ToolsSay(evidence)
    && Confirms(evidence, DependencyGateVerified) && Confirms(evidence, ReviewGateVerified)
    && Confirms(evidence, DownstreamReady) && Reads(evidence, WorkflowFinalStatus, "completed")
    && Confirms(evidence, EvidenceSummaryReady) && Confirms(evidence, NoSenderDelivery)
    && Confirms(evidence, NoRuntimeLaunchByClawside)
  }

  lemma ReadsExactly(value: Json, key: Key, text: string)
    ensures text != "" ==> (StringAt(value, key) == text <==> Reads(value, key, text))
    ensures StringAt(value, key) != "" <==> Fills(value, key)
  {
  }

  lemma AtLeastExactly(value: Json, key: Key, bound: int)
    requires bound > 0
    ensures IntField(value, key) >= bound <==> AtLeast(value, key, bound)
  {
  }

  lemma {:induction false} StringListIs(items: seq<Json>)
    ensures StringList(items).Some? <==> AllFilled(items)
    ensures StringList(items).Some? ==>
      && |StringList(items).value| == |items|
      && forall i :: 0 <= i < |items| ==> items[i].Str? && StringList(items).value[i] == Trim(items[i].text)
  {
    hide Trim;
    if items != [] {
      var rest := items[1..];
      StringListIs(rest);
      assert forall i :: 1 <= i < |items| ==> items[i] == rest[i - 1];
      assert forall i :: 0 <= i < |rest| ==> rest[i] == items[i + 1];
    }
  }

  lemma TypesExactly(p: Json)
    ensures Field(p, ObservedEventTypes).Arr? && ArrayField(p, ObservedEventTypes) != []
            && StringList(ArrayField(p, ObservedEventTypes)).Some?
       <==> exists types: seq<Json> :: Lists(p, ObservedEventTypes, types) && types != [] && AllFilled(types)
  {
    var listed := ArrayField(p, ObservedEventTypes);
    ReadsArray(p, ObservedEventTypes, listed);
    StringListIs(listed);
    forall all | Lists(p, ObservedEventTypes, all)
      ensures all == listed
    {
      ReadsArray(p, ObservedEventTypes, all);
    }
    hide ArrayField;
    hide Lists;
    hide StringList;
    hide AllFilled;
  }

  lemma ProvenanceExactly(p: Json)
    ensures var evidence := Obj(map[TrajectoryProvenance := p]); ProvenanceAccepted(evidence) <==> ProvenanceSays(p)
  {
    assert Field(Obj(map[TrajectoryProvenance := p]), TrajectoryProvenance) == p;
    ReadsExactly(p, SourceKind, SOURCE_KIND);
    FlagsExactly(p);
    AtLeastExactly(p, TrajectoryEventCount, 1);
    AtLeastExactly(p, ClawsideToolResultCount, 7);
    AtLeastExactly(p, NonClawsideEventCount, 1);
    TypesExactly(p);
    assert Reads(p, SourceKind, SOURCE_KIND) ==> p.Obj?;
    hide Field;
    hide StringAt;
    hide IntField;
    hide BoolField;
    hide ArrayField;
    hide StringList;
    hide Reads;
    hide AtLeast;
    hide Confirms;
    hide Lists;
    hide AllFilled;
  }

  lemma FlagsExactly(value: Json)
    ensures forall key :: BoolField(value, key) <==> Confirms(value, key)
  {
  }

  lemma ListedIs(items: seq<Json>, text: string)
    requires AllFilled(items)
    ensures StringList(items).Some? && (text in StringList(items).value <==> IsListed(items, text))
  {
    StringListIs(items);
    hide StringList;
    hide Trim;
    if IsListed(items, text) {
      var j :| 0 <= j < |items| && Trim(items[j].text) == text;
      assert StringList(items).value[j] == text;
    }
  }

  lemma OnlyRequiredIs(items: seq<Json>)
    requires AllFilled(items)
    ensures StringList(items).Some?
    ensures OnlyRequired(items) <==>
      var tools := StringList(items).value;
        forall i :: 0 <= i < |tools| ==> tools[i] !in X.FORBIDDEN && tools[i] in ALLOWED
  {
    StringListIs(items);
    RequiredIsAllowed();
    hide StringList;
    hide Trim;
  }

  lemma RequiredIsAllowed()
    ensures forall x :: x in REQUIRED ==> x !in X.FORBIDDEN
  {
  }

  lemma ToolsExactly(evidence: Json)
    ensures ToolsAccepted(evidence) <==> ToolsSay(evidence)
  {
    hide ArrayField;
    hide StringList;
    hide OnlyRequired;
    hide IsListed;
    var listed := ArrayField(evidence, Tools);
    ReadsArray(evidence, Tools, listed);
    StringListIs(listed);
    hide AllFilled;
    if AllFilled(listed) {
      OnlyRequiredIs(listed);
      forall i | 0 <= i < |REQUIRED|
        ensures REQUIRED[i] in StringList(listed).value <==> IsListed(listed, REQUIRED[i])
      {
        ListedIs(listed, REQUIRED[i]);
      }
    }
    forall all | Lists(evidence, Tools, all)
      ensures all == listed
    {
      ReadsArray(evidence, Tools, all);
    }
    hide Lists;
  }

  lemma ProvenanceIsMember(evidence: Json)
    ensures ProvenanceAccepted(evidence) <==> exists p :: Has(evidence, TrajectoryProvenance, p) && ProvenanceSays(p)
  {
    var p := Field(evidence, TrajectoryProvenance);
    ProvenanceExactly(p);
    assert Field(Obj(map[TrajectoryProvenance := p]), TrajectoryProvenance) == p;
    SameProvenance(evidence, Obj(map[TrajectoryProvenance := p]));
    assert p.Obj? ==> Has(evidence, TrajectoryProvenance, p);
    assert ProvenanceAccepted(evidence) ==> p.Obj?;
    assert forall q :: Has(evidence, TrajectoryProvenance, q) ==> q == p;
    hide ProvenanceAccepted;
    hide ProvenanceSays;
    hide Field;
    hide Has;
  }

  lemma SameProvenance(a: Json, b: Json)
    requires Field(a, TrajectoryProvenance) == Field(b, TrajectoryProvenance)
    ensures ProvenanceAccepted(a) <==> ProvenanceAccepted(b)
  {
  }

  lemma EvidenceExactly(evidence: Json)
    ensures evidence.Obj? && StringAt(evidence, SchemaVersion) == SCHEMA && ProvenanceAccepted(evidence)
            && StringAt(evidence, WorkflowId) != "" && StringAt(evidence, UpstreamHandoffId) != ""
            && StringAt(evidence, DownstreamHandoffId) != "" && ToolsAccepted(evidence) && GatesAccepted(evidence)
       <==> EvidenceSays(evidence)
  {
    ReadsExactly(evidence, SchemaVersion, SCHEMA);
    ProvenanceIsMember(evidence);
    ReadsExactly(evidence, WorkflowId, "");
    ReadsExactly(evidence, UpstreamHandoffId, "");
    ReadsExactly(evidence, DownstreamHandoffId, "");
    ToolsExactly(evidence);
    FlagsExactly(evidence);
    ReadsExactly(evidence, WorkflowFinalStatus, "completed");
    assert Fills(evidence, WorkflowId) ==> evidence.Obj?;
    hide StringAt;
    hide BoolField;
    hide ProvenanceAccepted;
    hide ProvenanceSays;
    hide ToolsAccepted;
    hide ToolsSay;
    hide Reads;
    hide Fills;
    hide Confirms;
    hide Has;
  }

  /** The smoke check accepts exactly the safe files that hold no forbidden member at any depth and whose
      evidence says all of this. */
  lemma AcceptsExactly(value: Json, safe: Json -> bool)
    ensures Accepts(value, safe) <==>
      && safe(value) && NoForbiddenField(value)
      && exists evidence :: Has(value, ExternalRuntimeEvidence, evidence) && EvidenceSays(evidence)
  {
    var evidence := Field(value, ExternalRuntimeEvidence);
    EvidenceExactly(evidence);
    assert evidence.Obj? ==> Has(value, ExternalRuntimeEvidence, evidence);
    assert forall e :: Has(value, ExternalRuntimeEvidence, e) ==> e == evidence;
    hide NoForbiddenField;
    hide EvidenceSays;
    hide StringAt;
    hide ProvenanceAccepted;
    hide ToolsAccepted;
    hide GatesAccepted;
    hide Field;
    hide Has;
  }

  /** A record that holds any of these members is not accepted, however deep it is. */
  ghost predicate Holds(value: Json, key: Key) {
    match value
    case Arr(items) => exists i :: 0 <= i < |items| && Holds(items[i], key)
    case Obj(fields) => key in fields || exists k :: k in fields && Holds(fields[k], key)
    case _ => false
  }

  lemma {:induction false} HeldIsForbidden(value: Json, key: Key)
    requires ForbiddenField(key) && Holds(value, key)
    ensures !NoForbiddenField(value)
  {
    hide ForbiddenField;
    match value
    case Arr(items) =>
      var i :| 0 <= i < |items| && Holds(items[i], key);
      HeldIsForbidden(items[i], key);
    case Obj(fields) =>
      if key !in fields {
        var k :| k in fields && Holds(fields[k], key);
        HeldIsForbidden(fields[k], key);
      }
    case _ =>
  }

  lemma ForbiddenMemberRejects(value: Json, key: Key, safe: Json -> bool)
    requires Holds(value, key)
    requires key in [SenderDelivery, SenderJob, SenderJobId, SenderBaseUrl, SenderAuthKey, ClawsideA2AAuthKey,
                     DeliveryTargetRef, DeliveryJob, Telegram, ChatId, RuntimeLaunch, RuntimeSession, RuntimeSessionId,
                     Worker, WorkerId, WorkerLaunch, Sandbox, SandboxLaunch]
    ensures !Accepts(value, safe)
  {
    hide *;
    KeyIsForbidden(key);
    HeldIsForbidden(value, key);
    AcceptedIsClean(value, safe);
  }

  lemma AcceptedIsClean(value: Json, safe: Json -> bool)
    ensures Accepts(value, safe) ==> NoForbiddenField(value)
  {
  }

  lemma KeyIsForbidden(key: Key)
    requires key in [SenderDelivery, SenderJob, SenderJobId, SenderBaseUrl, SenderAuthKey, ClawsideA2AAuthKey,
                     DeliveryTargetRef, DeliveryJob, Telegram, ChatId, RuntimeLaunch, RuntimeSession, RuntimeSessionId,
                     Worker, WorkerId, WorkerLaunch, Sandbox, SandboxLaunch]
    ensures ForbiddenField(key)
  {
  }
}
