/** Decoded JSON values (Go's any) and the field readers that the extractors share. */
module Json {
  import opened Options
  import opened Text

  /** The member names that the modelled code reads or writes; the rest are Other. */
  datatype Key =
    // tool results
    | Handoff | Id | WorkflowId | Workflow | UpperWorkflow | Kind | WorkflowKind | Attempt | HandoffId | Events
    | Accepted | Type | Decision | Action | State | Next | Event | Divergences | RepairCandidates | Repair | Reason
    | RequestedBy | ReopenedState | TargetType | TargetId | Status | Handoffs | UpperHandoffs | Timeline
    | InvalidatesId | Repairs | Watches | Watch | WatchId | Ownership | DeadlineAt | EscalationPolicy
    | CurrentOwner | LeaseHolder | ReviewerActor | EscalationOwner | FallbackOwner | LeasedAt | LeaseExpiresAt
    | Jobs | Job | JobId | TargetAgent | Bot | ChatId | AttemptCount | LastError | PendingCount | RetryCount
    | SendingCount | WorkerRunning | Items | Reasons | Code | DependencyHandoffId | DependsOnHandoffIds
    | NeedsReview | ReviewDecision | Summary | Workflows
    // extracted records
    | ExternalRuntimeEvidence | SchemaVersion | UpstreamHandoffId | DownstreamHandoffId | Tools
    | DependencyGateVerified | ReviewGateVerified | DownstreamReady | WorkflowFinalStatus | EvidenceSummaryReady
    | NoSenderDelivery | NoRuntimeLaunchByClawside | TrajectoryProvenance | SourceKind | ReadOnlyValidation
    | ExternalRuntimeTrajectoryObserved | TrajectoryEventCount | ClawsideToolResultCount | NonClawsideEventCount
    | ObservedEventTypes | LifecycleOrderVerified | BoundedOutputSanitized | ForbiddenLaunchOrDeliveryToolsAbsent
    | TruthPlaneContinuity | DivergenceObserved | CandidateObserved | PostReopenFinalHandoffState
    | PostReopenFinalWorkflowStatus | Actor
    // members that must not appear in external runtime evidence
    | SenderDelivery | SenderJob | SenderJobId | SenderBaseUrl | SenderAuthKey | ClawsideA2AAuthKey
    | DeliveryTargetRef | DeliveryJob | Telegram | RuntimeLaunch | RuntimeSession | RuntimeSessionId
    | Worker | WorkerId | WorkerLaunch | Sandbox | SandboxLaunch
    | Other(name: string)

  datatype Json =
    | Null
    | Bool(flag: bool)
    | Num(number: int)
    | Str(text: string)
    | Arr(items: seq<Json>)
    | Obj(fields: map<Key, Json>)

  /** value[key], or Null when it is not an object or has no such member. */
  function Field(value: Json, key: Key): Json {
    if value.Obj? && key in value.fields then value.fields[key] else Null
  }

  /** The member as an object; anything else reads as the empty object. */
  function ObjectField(value: Json, key: Key): Json {
    var v := Field(value, key);
    if v.Obj? then v else Obj(map[])
  }

  predicate HasObject(value: Json, key: Key) {
    Field(value, key).Obj?
  }

  function StringField(value: Json, key: Key): string {
    var v := Field(value, key);
    if v.Str? then v.text else ""
  }

  function BoolField(value: Json, key: Key): bool {
    var v := Field(value, key);
    v.Bool? && v.flag
  }

  function IntField(value: Json, key: Key): int {
    var v := Field(value, key);
    if v.Num? then v.number else 0
  }

  /** The member as an array; anything else reads as the empty array. */
  function ArrayField(value: Json, key: Key): seq<Json> {
    var v := Field(value, key);
    if v.Arr? then v.items else []
  }

  /** A string of a nested object, "" when it is missing: there is no telling the two apart. */
  function NestedString(value: Json, outer: Key, key: Key): string {
    StringField(Field(value, outer), key)
  }

  /** The strings as an array's items. */
  function Strings(values: seq<string>): (items: seq<Json>)
    ensures |items| == |values| && forall i :: 0 <= i < |items| ==> items[i] == Str(values[i])
  {
    seq(|values|, i requires 0 <= i < |values| => Str(values[i]))
  }

  /** Some id only when it is not empty. */
  function NonEmpty(s: string): Option<string> {
    if s == "" then None else Some(s)
  }

  // ---------- what a value says, member by member ----------

  /** The value is an object with that member. */
  predicate Has(value: Json, key: Key, member: Json) {
    value.Obj? && key in value.fields && value.fields[key] == member
  }

  /** The member is that string. */
  predicate Says(value: Json, key: Key, text: string) {
    Has(value, key, Str(text))
  }

  /** The member is a string that is not empty. */
  predicate Speaks(value: Json, key: Key) {
    value.Obj? && key in value.fields && value.fields[key].Str? && value.fields[key].text != ""
  }

  predicate Confirms(value: Json, key: Key) {
    Has(value, key, Bool(true))
  }

  /** The member is an object that says so in turn. */
  predicate SaysIn(value: Json, outer: Key, key: Key, text: string) {
    value.Obj? && outer in value.fields && Says(value.fields[outer], key, text)
  }

  predicate SpeaksIn(value: Json, outer: Key, key: Key) {
    value.Obj? && outer in value.fields && Speaks(value.fields[outer], key)
  }

  /** The member is an array of these items. */
  predicate Lists(value: Json, key: Key, items: seq<Json>) {
    Has(value, key, Arr(items))
  }

  // The readers return what the value says.

  lemma ReadsString(value: Json, key: Key, text: string)
    ensures text != "" ==> (StringField(value, key) == text <==> Says(value, key, text))
    ensures StringField(value, key) != "" <==> Speaks(value, key)
    ensures Says(value, key, text) ==> StringField(value, key) == text
  {
  }

  lemma ReadsNested(value: Json, outer: Key, key: Key, text: string)
    ensures text != "" ==> (NestedString(value, outer, key) == text <==> SaysIn(value, outer, key, text))
    ensures NestedString(value, outer, key) != "" <==> SpeaksIn(value, outer, key)
  {
  }

  lemma ReadsBool(value: Json, key: Key)
    ensures BoolField(value, key) <==> Confirms(value, key)
  {
  }

  lemma ReadsArray(value: Json, key: Key, items: seq<Json>)
    ensures Lists(value, key, items) ==> ArrayField(value, key) == items
    ensures items != [] ==> (ArrayField(value, key) == items <==> Lists(value, key, items))
    ensures Field(value, key).Arr? <==> Lists(value, key, ArrayField(value, key))
  {
  }

  lemma ReadsInt(value: Json, key: Key, number: int)
    ensures number != 0 ==> (IntField(value, key) == number <==> Has(value, key, Num(number)))
    ensures Has(value, key, Num(number)) ==> IntField(value, key) == number
  {
  }

  /** The member as a number, 0 when it is none. */
  predicate Amounts(value: Json, key: Key, number: int) {
    if value.Obj? && key in value.fields && value.fields[key].Num? then value.fields[key].number == number
    else number == 0
  }

  /** The member as a string, empty when it is none. */
  predicate Words(value: Json, key: Key, text: string) {
    if value.Obj? && key in value.fields && value.fields[key].Str? then value.fields[key].text == text
    else text == ""
  }

  lemma ReadsAny(value: Json, key: Key, number: int, text: string)
    ensures IntField(value, key) == number <==> Amounts(value, key, number)
    ensures StringField(value, key) == text <==> Words(value, key, text)
  {
  }

  /** The member is a string that is not blank. */
  predicate Fills(value: Json, key: Key) {
    value.Obj? && key in value.fields && value.fields[key].Str? && Trim(value.fields[key].text) != ""
  }
}
