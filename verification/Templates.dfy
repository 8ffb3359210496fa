/** internal/orchestrator/collaboration_template.go: applying a collaboration template creates one
    workflow and three handoffs in a transaction, at most once per idempotency key. */
module Templates {
  import opened Options
  import opened Text

  type Id = string

  datatype RoleName = Upstream | Downstream | Reviewer

  datatype Role = Role(receiverId: string, projectRef: string)

  datatype Input = Input(templateName: string, workflowKind: string, intent: string,
                         upstream: Role, downstream: Role, reviewer: Role, key: string)

  datatype Workflow = Workflow(id: Id, kind: string, rootHandoff: Id, currentHandoff: Id)

  datatype Handoff = Handoff(id: Id, workflowId: Id, workflowKind: string, dependsOn: seq<Id>, intent: string,
                             payloadRef: string, sender: string, receiver: string, required: bool)

  datatype Template = UpstreamDownstreamReview | ReviewGate | FanoutReview

  datatype Error = UnknownTemplate | IntentRequired | RoleInvalid(role: RoleName) | IdempotencyConflict

  const DEFAULT_KIND := "multi_project_collaboration"
  const TEMPLATE_SENDER := "clawside-template"

  // ---------- the catalogue ----------

  /** The roles of a template, in the order of its handoffs. */
  function Roles(t: Template): seq<RoleName> {
    if t == ReviewGate then [Upstream, Reviewer, Downstream] else [Upstream, Downstream, Reviewer]
  }

  /** The declared dependencies: the first role depends on the second. */
  function Dependencies(t: Template): set<(RoleName, RoleName)> {
    match t
    case UpstreamDownstreamReview => {(Downstream, Upstream), (Reviewer, Downstream)}
    case ReviewGate => {(Reviewer, Upstream), (Downstream, Reviewer)}
    case FanoutReview => {(Downstream, Upstream), (Reviewer, Upstream)}
  }

  function TemplateNamed(name: string): Option<Template> {
    if name == "upstream_downstream_review" then Some(UpstreamDownstreamReview)
    else if name == "review_gate" then Some(ReviewGate)
    else if name == "fanout_review" then Some(FanoutReview)
    else None
  }

  // ---------- input ----------

  function TrimRole(r: Role): Role {
    Role(Trim(r.receiverId), Trim(r.projectRef))
  }

  function TrimInput(i: Input): Input {
    Input(Trim(i.templateName), Trim(i.workflowKind), Trim(i.intent), TrimRole(i.upstream), TrimRole(i.downstream),
          TrimRole(i.reviewer), Trim(i.key))
  }

  predicate SafeChar(c: char) {
    'a' <= c <= 'z' || 'A' <= c <= 'Z' || '0' <= c <= '9' || c == '_' || c == '-' || c == '.'
  }

  /** The segments of strings.Split(s, "/"). */
  function Segments(s: string, current: string := ""): (r: seq<string>)
    ensures r != []
  {
    if s == "" then [current]
    else if s[0] == '/' then [current] + Segments(s[1..])
    else Segments(s[1..], current + [s[0]])
  }

  predicate UnsafeProjectRef(ref: string) {
    var scheme := "project://";
    if !HasPrefix(ref, scheme) || |ref| == |scheme| then true
    else
      var rest := ref[|scheme|..];
      || HasPrefix(rest, "/") || HasPrefix(rest, "~") || HasPrefix(rest, ".")
      || exists seg ::
           seg in Segments(rest) && (seg == "" || seg == "." || seg == ".." || exists c :: c in seg && !SafeChar(c))
  }

  predicate ValidRole(r: Role) {
    && r.receiverId != "" && (forall c :: c in r.receiverId ==> SafeChar(c))
    && r.projectRef != "" && !UnsafeProjectRef(r.projectRef)
  }

  /** The checks before the transaction; the template and the trimmed input with its default kind. */
  function Checked(raw: Input): Result<(Template, Input), Error> {
    var input := TrimInput(raw);
    var template := TemplateNamed(input.templateName);
    if template.None? then Err(UnknownTemplate)
    else
      var full := if input.workflowKind == "" then input.(workflowKind := DEFAULT_KIND) else input;
      if full.intent == "" then Err(IntentRequired)
      else if !ValidRole(full.upstream) then Err(RoleInvalid(Upstream))
      else if !ValidRole(full.downstream) then Err(RoleInvalid(Downstream))
      else if !ValidRole(full.reviewer) then Err(RoleInvalid(Reviewer))
      else Ok((template.value, full))
  }

  // ---------- exactly what is accepted ----------

  function Join(segments: seq<string>): string {
    if segments == [] then ""
    else if |segments| == 1 then segments[0]
    else segments[0] + "/" + Join(segments[1..])
  }

  predicate NoSlash(s: string) {
    forall i :: 0 <= i < |s| ==> s[i] != '/'
  }

  /** Splitting takes the text apart at its slashes, and nowhere else. */
  lemma {:induction false} SegmentsJoin(s: string, current: string)
    requires NoSlash(current)
    ensures Join(Segments(s, current)) == current + s
    ensures forall seg :: seg in Segments(s, current) ==> NoSlash(seg)
    decreases |s|
  {
    if s == "" {
      assert current + s == current;
    } else if s[0] == '/' {
      SegmentsJoin(s[1..], "");
      JoinMore(current, Segments(s[1..]));
      assert current + s == current + "/" + s[1..] && "" + s[1..] == s[1..];
      hide Join;
    } else {
      SegmentsJoin(s[1..], current + [s[0]]);
      assert current + [s[0]] + s[1..] == current + s;
      hide Join;
    }
  }

  lemma JoinMore(first: string, rest: seq<string>)
    requires rest != []
    ensures Join([first] + rest) == first + "/" + Join(rest)
  {
    assert ([first] + rest)[1..] == rest;
  }

  /** And joining such segments again is undone by splitting. */
  lemma {:induction false} JoinSplits(segments: seq<string>, done: string)
    requires segments != [] && forall seg :: seg in segments ==> NoSlash(seg)
    requires NoSlash(done)
    ensures Segments(Join(segments), done) == [done + segments[0]] + segments[1..]
    decreases |segments|, |segments[0]|
  {
    var first := segments[0];
    assert first in segments;
    if first != "" {
      var shorter := [first[1..]] + segments[1..];
      assert shorter[1..] == segments[1..];
      assert forall seg :: seg in segments[1..] ==> seg in segments;
      assert NoSlash(first) && NoSlash(first[1..]) && NoSlash(done + [first[0]]);
      JoinSplits(shorter, done + [first[0]]);
      JoinStarts(segments);
      assert done + [first[0]] + first[1..] == done + first;
    } else if |segments| == 1 {
      assert done + first == done && segments[1..] == [];
    } else {
      var rest := segments[1..];
      assert forall seg :: seg in rest ==> seg in segments;
      JoinSplits(rest, "");
      assert Join(segments) == "" + "/" + Join(rest) && Join(segments)[0] == '/' && Join(segments)[1..] == Join(rest);
      assert "" + rest[0] == rest[0] && rest == [rest[0]] + rest[1..] && done + first == done;
    }
  }

  lemma JoinStarts(segments: seq<string>)
    requires segments != [] && segments[0] != ""
    ensures Join(segments) != "" && Join(segments)[0] == segments[0][0]
    ensures Join(segments)[1..] == Join([segments[0][1..]] + segments[1..])
  {
    var shorter := [segments[0][1..]] + segments[1..];
    assert shorter[1..] == segments[1..];
    if |segments| > 1 {
      assert Join(segments) == segments[0] + ("/" + Join(segments[1..]));
      assert Join(shorter) == segments[0][1..] + ("/" + Join(segments[1..]));
    }
  }

  /** A name in a project reference: safe characters, and neither of the two directory names. */
  predicate GoodSegment(seg: string) {
    seg != "" && seg != "." && seg != ".." && forall c :: c in seg ==> SafeChar(c)
  }

  /** project:// and good segments between slashes, the first of which does not start with a point. */
  ghost predicate SafeRef(ref: string) {
    exists segments: seq<string> :: IsRef(ref, segments)
  }

  predicate IsRef(ref: string, segments: seq<string>) {
    && segments != [] && ref == "project://" + Join(segments)
    && (forall seg :: seg in segments ==> GoodSegment(seg))
    && segments[0] != "" && segments[0][0] != '.'
  }

  lemma GoodHasNoSlash(seg: string)
    requires GoodSegment(seg)
    ensures NoSlash(seg) && seg[0] != '~' && seg[0] != '/'
  {
    assert forall i :: 0 <= i < |seg| ==> seg[i] in seg;
  }

  lemma RefExactly(ref: string)
    ensures !UnsafeProjectRef(ref) <==> SafeRef(ref)
  {
    var scheme := "project://";
    if SafeRef(ref) {
      var segments :| IsRef(ref, segments);
      RefIsSafe(ref, segments);
    }
    if !UnsafeProjectRef(ref) {
      var rest := ref[|scheme|..];
      SegmentsJoin(rest, "");
      assert "" + rest == rest && ref == scheme + rest;
      var segments := Segments(rest);
      SafeSegments(ref, segments);
    }
  }

  lemma RefIsSafe(ref: string, segments: seq<string>)
    requires IsRef(ref, segments)
    ensures !UnsafeProjectRef(ref)
  {
    var scheme := "project://";
    var rest := Join(segments);
    assert ref[|scheme|..] == rest;
    forall seg | seg in segments
      ensures NoSlash(seg)
    {
      GoodHasNoSlash(seg);
    }
    JoinSplits(segments, "");
    JoinStarts(segments);
    GoodHasNoSlash(segments[0]);
    assert "" + segments[0] == segments[0] && segments == [segments[0]] + segments[1..];
    assert Segments(rest) == segments;
    hide Segments;
  }

  lemma SafeSegments(ref: string, segments: seq<string>)
    requires !UnsafeProjectRef(ref) && segments == Segments(ref[|"project://"|..])
      && ref == "project://" + Join(segments)
    ensures IsRef(ref, segments)
  {
    var rest := ref[|"project://"|..];
    assert rest == Join(segments);
    forall seg | seg in segments
      ensures GoodSegment(seg)
    {
    }
    assert segments[0] in segments;
    JoinStarts(segments);
  }

  /** The errors in the order in which they are looked for. */
  const CHECKS: seq<Error> := [
    UnknownTemplate, IntentRequired, RoleInvalid(Upstream), RoleInvalid(Downstream), RoleInvalid(Reviewer)
  ]

  /** A receiver of safe characters and a safe project reference, apart from white space around them. */
  ghost predicate SoundRole(r: Role) {
    && Trim(r.receiverId) != "" && (forall c :: c in Trim(r.receiverId) ==> SafeChar(c))
    && SafeRef(Trim(r.projectRef))
  }

  /** The template that a name selects. */
  predicate Selects(name: string, t: Template) {
    match t
    case UpstreamDownstreamReview => Trim(name) == "upstream_downstream_review"
    case ReviewGate => Trim(name) == "review_gate"
    case FanoutReview => Trim(name) == "fanout_review"
  }

  /** What is wrong with an application that has that error, seen by itself. */
  ghost predicate Faulty(raw: Input, e: Error) {
    match e
    case UnknownTemplate => forall t :: !Selects(raw.templateName, t)
    case IntentRequired => Trim(raw.intent) == ""
    case RoleInvalid(role) => !SoundRole(RoleOf(raw, role))
    case IdempotencyConflict => false
  }

  ghost predicate IsFirstFault(raw: Input, k: int) {
    0 <= k < |CHECKS| && Faulty(raw, CHECKS[k]) && forall j :: 0 <= j < k ==> !Faulty(raw, CHECKS[j])
  }

  /** The application as it is carried out: without white space, and of the default kind when it names none. */
  predicate Asks(raw: Input, input: Input) {
    && input.templateName == Trim(raw.templateName) && input.intent == Trim(raw.intent) && input.key == Trim(raw.key)
    && input.workflowKind
       == (if Trim(raw.workflowKind) == "" then "multi_project_collaboration" else Trim(raw.workflowKind))
    && (forall r :: RoleOf(input, r).receiverId == Trim(RoleOf(raw, r).receiverId))
    && (forall r :: RoleOf(input, r).projectRef == Trim(RoleOf(raw, r).projectRef))
  }

  lemma RoleExactly(r: Role)
    ensures ValidRole(TrimRole(r)) <==> SoundRole(r)
  {
    RefExactly(Trim(r.projectRef));
    NoRefIsUnsafe();
    hide Trim;
    hide UnsafeProjectRef;
    hide SafeRef;
    hide SafeChar;
  }

  lemma NoRefIsUnsafe()
    ensures !SafeRef("")
  {
    RefExactly("");
  }

  lemma SelectsExactly(name: string)
    ensures forall t :: TemplateNamed(Trim(name)) == Some(t) <==> Selects(name, t)
    ensures TemplateNamed(Trim(name)).None? <==> forall t :: !Selects(name, t)
  {
    hide Trim;
    assert "review_gate" != "fanout_review";
    if TemplateNamed(Trim(name)).Some? {
      assert Selects(name, TemplateNamed(Trim(name)).value);
    }
  }

  /** An application passes exactly when it has none of the faults, with the template that its name selects;
      otherwise it gets the first of its faults. */
  lemma ChecksExactly(raw: Input)
    ensures Checked(raw).Ok? <==> forall e :: !Faulty(raw, e)
    ensures Checked(raw).Ok? ==> Selects(raw.templateName, Checked(raw).value.0) && Asks(raw, Checked(raw).value.1)
    ensures forall k :: IsFirstFault(raw, k) ==> Checked(raw) == Err(CHECKS[k])
  {
    SelectsExactly(raw.templateName);
    RoleExactly(raw.upstream);
    RoleExactly(raw.downstream);
    RoleExactly(raw.reviewer);
    hide Trim;
    hide TemplateNamed;
    hide Selects;
    hide SoundRole;
    hide ValidRole;
    if Checked(raw).Err? {
      var e := Checked(raw).error;
      var k := if e == UnknownTemplate then 0 else if e == IntentRequired then 1
               else if e == RoleInvalid(Upstream) then 2 else if e == RoleInvalid(Downstream) then 3 else 4;
      FaultAt(raw, k);
      hide Checked;
      hide Faulty;
      forall j | IsFirstFault(raw, j)
        ensures j == k
      {
      }
    } else {
      NoFault(raw);
      hide Faulty;
    }
  }

  lemma FaultsAre(raw: Input)
    ensures Faulty(raw, CHECKS[0]) <==> TemplateNamed(Trim(raw.templateName)).None?
    ensures Faulty(raw, CHECKS[1]) <==> Trim(raw.intent) == ""
    ensures Faulty(raw, CHECKS[2]) <==> !ValidRole(TrimRole(raw.upstream))
    ensures Faulty(raw, CHECKS[3]) <==> !ValidRole(TrimRole(raw.downstream))
    ensures Faulty(raw, CHECKS[4]) <==> !ValidRole(TrimRole(raw.reviewer))
  {
    SelectsExactly(raw.templateName);
    RoleExactly(raw.upstream);
    RoleExactly(raw.downstream);
    RoleExactly(raw.reviewer);
    hide Trim;
    hide TemplateNamed;
    hide Selects;
    hide SoundRole;
    hide ValidRole;
    hide TrimRole;
  }

  lemma FaultAt(raw: Input, k: nat)
    requires k < |CHECKS| && Checked(raw) == Err(CHECKS[k])
    ensures IsFirstFault(raw, k)
  {
    FaultsAre(raw);
    hide Faulty;
    hide Trim;
    hide TemplateNamed;
    hide ValidRole;
    hide TrimRole;
    assert CHECKS[0] == UnknownTemplate && CHECKS[1] == IntentRequired && CHECKS[2] == RoleInvalid(Upstream);
    assert CHECKS[3] == RoleInvalid(Downstream) && CHECKS[4] == RoleInvalid(Reviewer);
  }

  lemma NoFault(raw: Input)
    requires Checked(raw).Ok?
    ensures forall e :: !Faulty(raw, e)
  {
    SelectsExactly(raw.templateName);
    RoleExactly(raw.upstream);
    RoleExactly(raw.downstream);
    RoleExactly(raw.reviewer);
    hide Trim;
    hide TemplateNamed;
    hide Selects;
    hide SoundRole;
    hide ValidRole;
  }

  // ---------- the builders ----------

  /** What NewID returned for one application. */
  datatype Ids = Ids(workflow: Id, first: Id, second: Id, third: Id)

  function Root(input: Input, ids: Ids): Handoff {
    Handoff(ids.first, ids.workflow, input.workflowKind, [], input.intent, input.upstream.projectRef,
            TEMPLATE_SENDER, input.upstream.receiverId, true)
  }

  function Appended(input: Input, ids: Ids, id: Id, role: Role, sender: string, dependsOn: seq<Id>): Handoff {
    Handoff(id, ids.workflow, input.workflowKind, dependsOn, input.intent, role.projectRef, sender, role.receiverId,
            true)
  }

  function BuildUpstreamDownstreamReview(input: Input, ids: Ids): seq<Handoff> {
    var upstream := Root(input, ids);
    var downstream := Appended(input, ids, ids.second, input.downstream, upstream.receiver, [upstream.id]);
    var reviewer := Appended(input, ids, ids.third, input.reviewer, downstream.receiver, [downstream.id]);
    [upstream, downstream, reviewer]
  }

  function BuildReviewGate(input: Input, ids: Ids): seq<Handoff> {
    var upstream := Root(input, ids);
    var reviewer := Appended(input, ids, ids.second, input.reviewer, upstream.receiver, [upstream.id]);
    var downstream := Appended(input, ids, ids.third, input.downstream, reviewer.receiver, [reviewer.id]);
    [upstream, reviewer, downstream]
  }

  function BuildFanoutReview(input: Input, ids: Ids): seq<Handoff> {
    var upstream := Root(input, ids);
    var downstream := Appended(input, ids, ids.second, input.downstream, upstream.receiver, [upstream.id]);
    var reviewer := Appended(input, ids, ids.third, input.reviewer, upstream.receiver, [upstream.id]);
    [upstream, downstream, reviewer]
  }

  function Build(t: Template, input: Input, ids: Ids): (hs: seq<Handoff>)
    ensures |hs| == 3
  {
    match t
    case UpstreamDownstreamReview => BuildUpstreamDownstreamReview(input, ids)
    case ReviewGate => BuildReviewGate(input, ids)
    case FanoutReview => BuildFanoutReview(input, ids)
  }

  function RoleOf(input: Input, r: RoleName): Role {
    match r
    case Upstream => input.upstream
    case Downstream => input.downstream
    case Reviewer => input.reviewer
  }

  predicate Distinct(ids: Ids) {
    ids.first != ids.second && ids.first != ids.third && ids.second != ids.third
  }

  /** The built handoffs are the catalogue's: handoff k goes to the k-th role, and depends on another
      handoff exactly when the catalogue declares that its role depends on the other's. */
  lemma {:induction false} BuildFollowsCatalogue(t: Template, input: Input, ids: Ids, j: nat, k: nat)
    requires Distinct(ids) && j < 3 && k < 3
    ensures |Build(t, input, ids)| == |Roles(t)| == 3
    ensures var hs := Build(t, input, ids);
      && hs[k].receiver == RoleOf(input, Roles(t)[k]).receiverId
      && hs[k].payloadRef == RoleOf(input, Roles(t)[k]).projectRef
      && hs[k].workflowId == ids.workflow && hs[k].required
      && hs[k].intent == input.intent && hs[k].workflowKind == input.workflowKind
      && hs[k].id == [ids.first, ids.second, ids.third][k]
      && (forall d :: d in hs[k].dependsOn ==> d == ids.first || d == ids.second || d == ids.third)
      && (hs[k].dependsOn == [] ==> k == 0 && hs[k].sender == "clawside-template")
      && (hs[j].id in hs[k].dependsOn <==> (Roles(t)[k], Roles(t)[j]) in Dependencies(t))
      && (hs[j].id in hs[k].dependsOn ==> j < k && hs[k].sender == hs[j].receiver)
  {
  }

  // ---------- the store ----------

  /** An application is recorded under its key; the payload hash is injective, so it is the payload. */
  datatype Record = Record(payload: Input, template: Template, workflowId: Id, handoffIds: seq<Id>)

  datatype Db = Db(workflows: seq<Workflow>, handoffs: seq<Handoff>, applications: map<string, Record>)

  datatype Applied = Applied(workflowId: Id, handoffIds: seq<Id>, replayed: bool)

  function HandoffIds(hs: seq<Handoff>): (r: seq<Id>)
    ensures |r| == |hs| && forall i :: 0 <= i < |hs| ==> r[i] == hs[i].id
  {
    seq(|hs|, i requires 0 <= i < |hs| => hs[i].id)
  }

  /** What NewID promises: ids that are not in use. */
  ghost predicate Fresh(db: Db, ids: Ids) {
    && Distinct(ids)
    && (forall w :: w in db.workflows ==> w.id != ids.workflow)
    && (forall h :: h in db.handoffs ==> h.id != ids.first && h.id != ids.second && h.id != ids.third)
  }

  function Apply(db: Db, raw: Input, ids: Ids): (Db, Result<Applied, Error>) {
    var checked := Checked(raw);
    if checked.Err? then (db, Err(checked.error))
    else
      var (t, input) := checked.value;
      var payload := input.(key := "");
      if input.key != "" && input.key in db.applications then
        var record := db.applications[input.key];
        if record.payload != payload then (db, Err(IdempotencyConflict))
        else (db, Ok(Applied(record.workflowId, record.handoffIds, true)))
      else
        var hs := Build(t, input, ids);
        var record := Record(payload, t, ids.workflow, HandoffIds(hs));
        (Db(db.workflows + [Workflow(ids.workflow, input.workflowKind, hs[0].id, hs[2].id)],
            db.handoffs + hs,
            if input.key == "" then db.applications else db.applications[input.key := record]),
         Ok(Applied(ids.workflow, HandoffIds(hs), false)))
  }

  /** The three ways an application can go once its input is checked. */
  lemma ApplyCases(db: Db, raw: Input, ids: Ids)
    ensures Checked(raw).Err? ==> Apply(db, raw, ids) == (db, Err(Checked(raw).error))
    ensures Checked(raw).Ok? ==>
      var (t, input) := Checked(raw).value;
      var payload := input.(key := "");
      if input.key != "" && input.key in db.applications then
        var record := db.applications[input.key];
        Apply(db, raw, ids) == (db, if record.payload != payload then Err(IdempotencyConflict)
                                    else Ok(Applied(record.workflowId, record.handoffIds, true)))
      else
        var hs := Build(t, input, ids);
        var record := Record(payload, t, ids.workflow, HandoffIds(hs));
        Apply(db, raw, ids) == (Db(db.workflows + [Workflow(ids.workflow, input.workflowKind, hs[0].id, hs[2].id)],
                                   db.handoffs + hs,
                                   if input.key == "" then db.applications else db.applications[input.key := record]),
                                Ok(Applied(ids.workflow, HandoffIds(hs), false)))
  {
    hide Checked;
    hide Build;
  }

  /** What an application does, in the caller's terms. A faulty one changes nothing and gets its first fault.
      One under a bound key changes nothing, and is answered from the record when it asks for what the record
      holds, else with a conflict. Any other adds one workflow of three handoffs, those of the selected
      template, and binds the key, if there is one. */
  ghost predicate Applies(db: Db, raw: Input, ids: Ids, later: Db, result: Result<Applied, Error>) {
    var key := Trim(raw.key);
    && (forall k :: IsFirstFault(raw, k) ==> later == db && result == Err(CHECKS[k]))
    && ((forall e :: !Faulty(raw, e)) ==>
          if key != "" && key in db.applications then
            && later == db
            && var record := db.applications[key];
               result == if record.payload.key == "" && Asks(raw, record.payload.(key := key))
                         then Ok(Applied(record.workflowId, record.handoffIds, true)) else Err(IdempotencyConflict)
          else exists t, input ::
            Selects(raw.templateName, t) && Asks(raw, input) && Creates(db, t, input, ids, later, result))
  }

  predicate Creates(db: Db, t: Template, input: Input, ids: Ids, later: Db, result: Result<Applied, Error>) {
    var handoffIds := [ids.first, ids.second, ids.third];
    && later.workflows == db.workflows + [Workflow(ids.workflow, input.workflowKind, ids.first, ids.third)]
    && later.handoffs == db.handoffs + Build(t, input, ids)
    && later.applications == (if input.key == "" then db.applications
                              else db.applications[input.key := Record(input.(key := ""), t, ids.workflow, handoffIds)])
    && result == Ok(Applied(ids.workflow, handoffIds, false))
  }

  lemma AskedOnce(raw: Input, a: Input, b: Input)
    requires Asks(raw, a) && Asks(raw, b)
    ensures a == b
  {
    hide Trim;
    assert forall r :: RoleOf(a, r) == RoleOf(b, r);
    assert RoleOf(a, Upstream) == a.upstream && RoleOf(a, Downstream) == a.downstream
      && RoleOf(a, Reviewer) == a.reviewer;
    assert RoleOf(b, Upstream) == b.upstream && RoleOf(b, Downstream) == b.downstream
      && RoleOf(b, Reviewer) == b.reviewer;
  }

  lemma ApplySays(db: Db, raw: Input, ids: Ids)
    ensures Applies(db, raw, ids, Apply(db, raw, ids).0, Apply(db, raw, ids).1)
  {
    ChecksExactly(raw);
    ApplyCases(db, raw, ids);
    hide Apply;
    hide Checked;
    hide Faulty;
    hide Trim;
    hide Selects;
    if Checked(raw).Err? {
      assert Apply(db, raw, ids).0 == db;
    } else {
      var (t, input) := Checked(raw).value;
      assert input.key == Trim(raw.key);
      NoFirstFault(raw);
      if input.key != "" && input.key in db.applications {
        ReplayIs(raw, input, db.applications[input.key].payload);
        hide Asks;
      } else {
        BuiltIds(t, input, ids);
        hide Build;
        hide Asks;
        assert Creates(db, t, input, ids, Apply(db, raw, ids).0, Apply(db, raw, ids).1);
      }
    }
  }

  lemma NoFirstFault(raw: Input)
    requires forall e :: !Faulty(raw, e)
    ensures forall k :: !IsFirstFault(raw, k)
  {
    hide Faulty;
  }

  lemma ReplayIs(raw: Input, input: Input, payload: Input)
    requires Asks(raw, input)
    ensures payload == input.(key := "") <==> payload.key == "" && Asks(raw, payload.(key := input.key))
  {
    if payload.key == "" && Asks(raw, payload.(key := input.key)) {
      AskedOnce(raw, input, payload.(key := input.key));
    }
    if payload == input.(key := "") {
      assert payload.(key := input.key) == input;
    }
    hide Asks;
  }

  lemma BuiltIds(t: Template, input: Input, ids: Ids)
    ensures HandoffIds(Build(t, input, ids)) == [ids.first, ids.second, ids.third]
    ensures Build(t, input, ids)[0].id == ids.first && Build(t, input, ids)[2].id == ids.third
  {
  }

  datatype Call = Call(raw: Input, ids: Ids)

  const EMPTY := Db([], [], map[])

  function Run(db: Db, calls: seq<Call>): Db
    decreases |calls|
  {
    if calls == [] then db
    else
      var before := Run(db, calls[..|calls| - 1]);
      Apply(before, calls[|calls| - 1].raw, calls[|calls| - 1].ids).0
  }

  ghost predicate AllFresh(db: Db, calls: seq<Call>) {
    forall k :: 0 <= k < |calls| ==> Fresh(Run(db, calls[..k]), calls[k].ids)
  }

  // ---------- what every call sequence keeps ----------

  /** A handoff depends only on earlier handoffs of its own workflow. */
  ghost predicate PointsBack(hs: seq<Handoff>, i: nat)
    requires i < |hs|
  {
    forall d :: d in hs[i].dependsOn ==> exists j :: 0 <= j < i && hs[j].id == d && hs[j].workflowId == hs[i].workflowId
  }

  /** The record's three handoffs stand together in the table, as its template builds them. */
  ghost predicate Stored(db: Db, key: string, at: nat)
    requires key in db.applications
  {
    var record := db.applications[key];
    && record.payload.key == ""
    && at + 3 <= |db.handoffs| && |record.handoffIds| == 3
    && var ids := Ids(record.workflowId, record.handoffIds[0], record.handoffIds[1], record.handoffIds[2]);
       && Distinct(ids)
       && db.handoffs[at..at + 3] == Build(record.template, record.payload, ids)
  }

  /** The b-th three handoffs are what some template builds for some input. */
  ghost predicate BlockAt(hs: seq<Handoff>, b: nat)
    requires 3 * b + 3 <= |hs|
  {
    exists t, input, ids :: Distinct(ids) && hs[3 * b..3 * b + 3] == Build(t, input, ids)
  }

  /** The handoff table is a sequence of template applications, keyed or not. */
  ghost predicate Blocks(hs: seq<Handoff>) {
    |hs| % 3 == 0 && forall b: nat :: 3 * b + 3 <= |hs| ==> BlockAt(hs, b)
  }

  ghost predicate Inv(db: Db) {
    && Blocks(db.handoffs)
    && (forall i, j :: 0 <= i < j < |db.handoffs| ==> db.handoffs[i].id != db.handoffs[j].id)
    && (forall i :: 0 <= i < |db.handoffs| ==> PointsBack(db.handoffs, i))
    && (forall key :: key in db.applications ==> exists at: nat :: Stored(db, key, at))
  }

  /** Rows stay where they are, and a key once bound keeps its record. */
  ghost predicate Extends(db: Db, later: Db) {
    && db.workflows <= later.workflows && db.handoffs <= later.handoffs
    && (forall key :: key in db.applications ==>
        key in later.applications && later.applications[key] == db.applications[key])
  }

  lemma BuildIgnoresKey(t: Template, input: Input, ids: Ids)
    ensures Build(t, input.(key := ""), ids) == Build(t, input, ids)
  {
  }

  lemma BuiltPointsBack(hs: seq<Handoff>, t: Template, input: Input, ids: Ids, i: nat)
    requires Distinct(ids) && i < 3
    ensures PointsBack(hs + Build(t, input, ids), |hs| + i)
  {
    var all := hs + Build(t, input, ids);
    var n := |hs|;
    assert all[n] == Build(t, input, ids)[0] && all[n + 1] == Build(t, input, ids)[1]
      && all[n + 2] == Build(t, input, ids)[2];
    assert all[n].workflowId == all[n + 1].workflowId == all[n + 2].workflowId == ids.workflow;
  }

  lemma OldPointsBack(hs: seq<Handoff>, more: seq<Handoff>, i: nat)
    requires i < |hs| && PointsBack(hs, i)
    ensures PointsBack(hs + more, i)
  {
    forall d | d in hs[i].dependsOn
      ensures exists j :: 0 <= j < i && (hs + more)[j].id == d && (hs + more)[j].workflowId == hs[i].workflowId
    {
      var j :| 0 <= j < i && hs[j].id == d && hs[j].workflowId == hs[i].workflowId;
      assert (hs + more)[j] == hs[j];
    }
  }

  lemma ApplyKeepsGraph(db: Db, raw: Input, ids: Ids)
    requires Inv(db) && Fresh(db, ids)
    ensures var hs := Apply(db, raw, ids).0.handoffs;
      && (forall i, j :: 0 <= i < j < |hs| ==> hs[i].id != hs[j].id)
      && (forall i :: 0 <= i < |hs| ==> PointsBack(hs, i))
  {
    hide Checked;
    hide Stored;
    var later := Apply(db, raw, ids).0;
    if later.handoffs != db.handoffs {
      var (t, input) := Checked(raw).value;
      var n := |db.handoffs|;
      assert later.handoffs == db.handoffs + Build(t, input, ids);
      hide PointsBack;
      hide Apply;
      hide Build;
      forall i | 0 <= i < |later.handoffs|
        ensures PointsBack(later.handoffs, i)
      {
        if i < n {
          OldPointsBack(db.handoffs, Build(t, input, ids), i);
        } else {
          BuiltPointsBack(db.handoffs, t, input, ids, i - n);
        }
      }
      forall i, j | 0 <= i < j < |later.handoffs|
        ensures later.handoffs[i].id != later.handoffs[j].id
      {
        if i < n {
          assert db.handoffs[i] in db.handoffs;
        }
      }
    }
  }

  lemma ApplyKeepsRecords(db: Db, raw: Input, ids: Ids)
    requires Inv(db) && Fresh(db, ids)
    ensures var later := Apply(db, raw, ids).0;
      Extends(db, later) && forall key :: key in later.applications ==> exists at: nat :: Stored(later, key, at)
  {
    hide Checked;
    hide Build;
    var later := Apply(db, raw, ids).0;
    forall key | key in later.applications
      ensures exists at: nat :: Stored(later, key, at)
    {
      if key in db.applications {
        var at: nat :| Stored(db, key, at);
        assert later.handoffs[at..at + 3] == db.handoffs[at..at + 3];
        assert Stored(later, key, at);
      } else {
        var (t, input) := Checked(raw).value;
        NewRecordStored(db, t, input, ids, later, key);
      }
    }
  }

  lemma NewRecordStored(db: Db, t: Template, input: Input, ids: Ids, later: Db, key: string)
    requires Distinct(ids)
    requires later.handoffs == db.handoffs + Build(t, input, ids)
    requires key in later.applications
    requires later.applications[key] == Record(input.(key := ""), t, ids.workflow, HandoffIds(Build(t, input, ids)))
    ensures Stored(later, key, |db.handoffs|)
  {
    BuildIgnoresKey(t, input, ids);
    var hs := Build(t, input, ids);
    assert hs[0].id == ids.first && hs[1].id == ids.second && hs[2].id == ids.third;
    assert later.handoffs[|db.handoffs|..|db.handoffs| + 3] == hs;
  }

  lemma BlocksGrow(hs: seq<Handoff>, t: Template, input: Input, ids: Ids)
    requires Blocks(hs) && Distinct(ids)
    ensures Blocks(hs + Build(t, input, ids))
  {
    var built := Build(t, input, ids);
    assert |built| == 3;
    hide Build;
    var all := hs + built;
    forall b: nat | 3 * b + 3 <= |all|
      ensures BlockAt(all, b)
    {
      if 3 * b + 3 <= |hs| {
        assert BlockAt(hs, b) && all[3 * b..3 * b + 3] == hs[3 * b..3 * b + 3];
      } else {
        assert 3 * b == |hs| && all[3 * b..3 * b + 3] == built;
      }
    }
  }

  lemma ApplyKeepsBlocks(db: Db, raw: Input, ids: Ids)
    requires Blocks(db.handoffs) && Fresh(db, ids)
    ensures Blocks(Apply(db, raw, ids).0.handoffs)
  {
    hide Checked;
    hide Build;
    hide Blocks;
    if Checked(raw).Ok? {
      var (t, input) := Checked(raw).value;
      BlocksGrow(db.handoffs, t, input, ids);
    }
  }

  lemma ApplyKeeps(db: Db, raw: Input, ids: Ids)
    requires Inv(db) && Fresh(db, ids)
    ensures Inv(Apply(db, raw, ids).0) && Extends(db, Apply(db, raw, ids).0)
  {
    hide Apply;
    hide Stored;
    ApplyKeepsBlocks(db, raw, ids);
    hide Blocks;
    ApplyKeepsGraph(db, raw, ids);
    ApplyKeepsRecords(db, raw, ids);
  }

  /** Over any sequence of calls the invariant holds and what is stored stays: in particular a key is
      bound forever to one payload, workflow and list of handoffs. */
  lemma {:induction false} RunKeeps(db: Db, calls: seq<Call>)
    requires Inv(db) && AllFresh(db, calls)
    ensures Inv(Run(db, calls)) && Extends(db, Run(db, calls))
    decreases |calls|
  {
    hide Apply;
    hide Inv;
    hide Fresh;
    if calls != [] {
      var before := calls[..|calls| - 1];
      assert forall k :: 0 <= k < |before| ==> before[..k] == calls[..k];
      assert calls[..|before|] == before;
      RunKeeps(db, before);
      ApplyKeeps(Run(db, before), calls[|calls| - 1].raw, calls[|calls| - 1].ids);
    }
  }

  /** A call with a key that was applied before: with the same payload it returns the same workflow and
      handoffs and creates nothing, with another payload it is a conflict and changes nothing; and this
      is so after any calls in between. */
  lemma ReplayOrConflict(db: Db, first: Call, between: seq<Call>, again: Call)
    requires Inv(db) && Fresh(db, first.ids) && AllFresh(Apply(db, first.raw, first.ids).0, between)
    requires Apply(db, first.raw, first.ids).1.Ok? && Checked(first.raw).value.1.key != ""
    requires Checked(again.raw).Ok? && Checked(again.raw).value.1.key == Checked(first.raw).value.1.key
    ensures var (bound, done) := Apply(db, first.raw, first.ids);
      var later := Run(bound, between);
      var (after, answer) := Apply(later, again.raw, again.ids);
      && after == later
      && answer == if Checked(again.raw).value.1 == Checked(first.raw).value.1
                   then Ok(Applied(done.value.workflowId, done.value.handoffIds, true)) else Err(IdempotencyConflict)
  {
    hide Checked;
    hide Build;
    var bound := Apply(db, first.raw, first.ids).0;
    ApplyKeeps(db, first.raw, first.ids);
    RunKeeps(bound, between);
    var input := Checked(first.raw).value.1;
    assert input.key in bound.applications && bound.applications[input.key].payload == input.(key := "");
    var other := Checked(again.raw).value.1;
    assert other == input <==> other.(key := "") == input.(key := "");
  }

  // ---------- acyclicity ----------

  function PositionOf(hs: seq<Handoff>, id: Id): (i: nat)
    ensures i <= |hs|
    ensures i < |hs| ==> hs[i].id == id
    ensures i == |hs| ==> forall h :: h in hs ==> h.id != id
  {
    if hs == [] then 0
    else
      var i := PositionOf(hs[..|hs| - 1], id);
      if i < |hs| - 1 then i
      else if hs[|hs| - 1].id == id then |hs| - 1
      else
        assert hs == hs[..|hs| - 1] + [hs[|hs| - 1]];
        |hs|
  }

  /** A chain of dependencies: each id is a stored handoff, and depends on the next one. */
  ghost predicate Chain(hs: seq<Handoff>, path: seq<Id>) {
    forall k :: 0 <= k < |path| - 1 ==> LinkAt(hs, path, k)
  }

  ghost predicate LinkAt(hs: seq<Handoff>, path: seq<Id>, k: nat)
    requires k < |path| - 1
  {
    exists i :: 0 <= i < |hs| && hs[i].id == path[k] && path[k + 1] in hs[i].dependsOn
  }

  lemma PositionIsIndex(hs: seq<Handoff>, i: nat)
    requires i < |hs| && forall j, k :: 0 <= j < k < |hs| ==> hs[j].id != hs[k].id
    ensures PositionOf(hs, hs[i].id) == i
  {
    assert hs[i] in hs;
  }

  lemma {:induction false} ChainDescends(hs: seq<Handoff>, path: seq<Id>)
    requires forall j, k :: 0 <= j < k < |hs| ==> hs[j].id != hs[k].id
    requires forall i :: 0 <= i < |hs| ==> PointsBack(hs, i)
    requires |path| >= 2 && Chain(hs, path)
    ensures PositionOf(hs, path[|path| - 1]) < PositionOf(hs, path[0]) < |hs|
  {
    hide PositionOf;
    assert LinkAt(hs, path, 0);
    var i :| 0 <= i < |hs| && hs[i].id == path[0] && path[1] in hs[i].dependsOn;
    assert PointsBack(hs, i);
    var j :| 0 <= j < i && hs[j].id == path[1] && hs[j].workflowId == hs[i].workflowId;
    PositionIsIndex(hs, i);
    PositionIsIndex(hs, j);
    if |path| > 2 {
      var rest := path[1..];
      forall k | 0 <= k < |rest| - 1
        ensures LinkAt(hs, rest, k)
      {
        assert LinkAt(hs, path, k + 1);
        assert rest[k] == path[k + 1] && rest[k + 1] == path[k + 1 + 1];
      }
      ChainDescends(hs, path[1..]);
    }
  }

  /** The stored dependency graph has no cycle, after any sequence of calls. */
  lemma NoDependencyCycle(calls: seq<Call>, path: seq<Id>)
    requires AllFresh(EMPTY, calls) && |path| >= 2 && Chain(Run(EMPTY, calls).handoffs, path)
    ensures path[0] != path[|path| - 1]
  {
    RunKeeps(EMPTY, calls);
    ChainDescends(Run(EMPTY, calls).handoffs, path);
  }

  // ---------- the service ----------

  class Service {
    var db: Db

    ghost predicate Valid()
      reads this
    {
      Inv(db)
    }

    constructor ()
      ensures Valid() && db == EMPTY
    {
      db := EMPTY;
    }

    /** ApplyCollaborationTemplate, in one transaction: an error leaves the store as it was. */
    method ApplyCollaborationTemplate(raw: Input, ids: Ids) returns (result: Result<Applied, Error>)
      requires Valid() && Fresh(db, ids)
      modifies this
      ensures Valid() && (db, result) == Apply(old(db), raw, ids)
      ensures Applies(old(db), raw, ids, db, result)
      ensures result.Err? || result.value.replayed ==> db == old(db)
      ensures result.Ok? && !result.value.replayed ==>
        |db.workflows| == |old(db).workflows| + 1 && |db.handoffs| == |old(db).handoffs| + 3
    {
      hide Inv;
      hide Fresh;
      hide Extends;
      hide Checked;
      hide Build;
      hide Apply;
      hide Applies;
      ApplySays(db, raw, ids);
      ApplyKeeps(db, raw, ids);
      ApplyCases(db, raw, ids);
      var checked := Checked(raw);
      if checked.Err? {
        return Err(checked.error);
      }
      var (template, input) := checked.value;
      var payload := input.(key := "");
      if input.key != "" && input.key in db.applications {
        var record := db.applications[input.key];
        if record.payload != payload {
          return Err(IdempotencyConflict);
        }
        return Ok(Applied(record.workflowId, record.handoffIds, true));
      }
      var built := Build(template, input, ids);
      var workflow := Workflow(ids.workflow, input.workflowKind, built[0].id, built[2].id);
      var tx := db.(workflows := db.workflows + [workflow]);
      var i := 0;
      while i < |built|
        invariant i <= |built|
        invariant tx == db.(workflows := db.workflows + [workflow], handoffs := db.handoffs + built[..i])
      {
        assert built[..i + 1] == built[..i] + [built[i]];
        tx := tx.(handoffs := tx.handoffs + [built[i]]);
        i := i + 1;
      }
      assert built[..i] == built;
      if input.key != "" {
        var record := Record(payload, template, ids.workflow, HandoffIds(built));
        tx := tx.(applications := tx.applications[input.key := record]);
      }
      db := tx;
      return Ok(Applied(ids.workflow, HandoffIds(built), false));
    }
  }
}
