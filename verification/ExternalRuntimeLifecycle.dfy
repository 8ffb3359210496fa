/** What scanning a trajectory means line by line, and exactly which trajectories the external runtime
    extractor accepts. */
module ExternalRuntimeLifecycle {
  import opened Options
  import opened Text
  import opened Json
  import opened Trajectory
  import opened ExternalRuntime

  // ---------- what the lines say ----------

  /** The tool result that a line is observed as. */
  function Reply(line: Line): Option<ToolResult> {
    match Observed(line)
    case Ok(Some(result)) => if result.tool != "" then Some(result) else None
    case _ => None
  }

  ghost predicate AllParse(lines: seq<Line>) {
    forall i :: 0 <= i < |lines| ==> Observed(lines[i]).Ok?
  }

  /** The ids known after the lines: the workflow of the first create that names one, and the handoffs of
      the last creates of that workflow that need a review, or depend on the upstream handoff then known. */
  function IdsOf(lines: seq<Line>): Ids
    decreases |lines|
  {
    if lines == [] then Ids("", "", "")
    else
      var ids := IdsOf(lines[..|lines| - 1]);
      match Reply(lines[|lines| - 1])
      case None => ids
      case Some(result) => Renamed(ids, ToolNamed(result.tool), result.content)
  }

  /** What the last workflow_status of the workflow says. */
  function LastStatus(lines: seq<Line>): string
    decreases |lines|
  {
    if lines == [] then ""
    else
      var status := LastStatus(lines[..|lines| - 1]);
      match Reply(lines[|lines| - 1])
      case None => status
      case Some(result) =>
        StatusAfter(status, IdsOf(lines[..|lines| - 1]), ToolNamed(result.tool), result.content)
  }

  /** Line n shows the milestone for the ids known before it. */
  predicate ShownAt(lines: seq<Line>, n: nat, m: Milestone) {
    && 1 <= n <= |lines| && Reply(lines[n - 1]).Some?
    && var result := Reply(lines[n - 1]).value;
      Shows(m, ToolNamed(result.tool), result.content, IdsOf(lines[..n - 1]))
  }

  predicate MismatchAt(lines: seq<Line>, n: nat) {
    && 1 <= n <= |lines| && Reply(lines[n - 1]).Some?
    && var result := Reply(lines[n - 1]).value;
      Mismatches(IdsOf(lines[..n - 1]), ToolNamed(result.tool), result.content)
  }

  /** Line n can be the line of the milestone, given those of the others: readiness counts only after the
      upstream completion, and the closed workflow only once both handoffs are completed. */
  predicate CountsAt(lines: seq<Line>, k: Marks, n: nat, m: Milestone) {
    && ShownAt(lines, n, m)
    && (m == DownstreamReadied ==> 0 < k.upstreamCompleted < n)
    && (m == WorkflowFinished ==> 0 < k.upstreamCompleted <= n && 0 < k.downstreamCompleted <= n)
  }

  /** The milestone's line is the first one that counts; there is none when it is 0. */
  ghost predicate IsFirst(lines: seq<Line>, k: Marks, m: Milestone) {
    && (MarkOf(k, m) != 0 ==> CountsAt(lines, k, MarkOf(k, m), m))
    && forall n: nat :: 1 <= n <= |lines| && CountsAt(lines, k, n, m) ==> 0 < MarkOf(k, m) <= n
  }

  ghost predicate Firsts(lines: seq<Line>, k: Marks) {
    forall m: Milestone :: IsFirst(lines, k, m)
  }

  predicate Calls(line: Line, name: string) {
    Reply(line).Some? && Reply(line).value.tool == name
  }

  /** The line names a forbidden tool of Clawside, in its metadata or as a tool result. */
  predicate Forbids(line: Line) {
    || (exists name :: name in FORBIDDEN && Calls(line, name))
    || (var m := ExtractEventMetadata(line, CLAWSIDE);
        m.Ok? && m.value.Some? && FromClawside(m.value.value) && m.value.value.tool in FORBIDDEN)
  }

  /** An event of the runtime itself. */
  predicate Outside(line: Line) {
    var m := ExtractEventMetadata(line, CLAWSIDE);
    m.Ok? && m.value.Some? && !FromClawside(m.value.value)
  }

  // ---------- the scan finds the first lines ----------

  lemma ShownBefore(lines: seq<Line>, line: Line, n: nat, m: Milestone)
    requires n <= |lines|
    ensures ShownAt(lines + [line], n, m) <==> ShownAt(lines, n, m)
    ensures MismatchAt(lines + [line], n) <==> MismatchAt(lines, n)
  {
    hide Shows;
    hide Mismatches;
    hide Reply;
    hide IdsOf;
    if 1 <= n {
      assert (lines + [line])[..n - 1] == lines[..n - 1] && (lines + [line])[n - 1] == lines[n - 1];
    }
  }

  lemma ShownLast(lines: seq<Line>, line: Line, m: Milestone)
    requires Reply(line).Some?
    ensures var result := Reply(line).value; var tool := ToolNamed(result.tool); var n := |lines| + 1;
      && (ShownAt(lines + [line], n, m) <==> Shows(m, tool, result.content, IdsOf(lines)))
      && (MismatchAt(lines + [line], n) <==> Mismatches(IdsOf(lines), tool, result.content))
  {
    hide Shows;
    hide Mismatches;
    hide Reply;
    hide IdsOf;
    assert (lines + [line])[..|lines|] == lines && (lines + [line])[|lines|] == line;
  }

  /** A mark that was set stays, and one that is set now is of the last line. */
  predicate Advances(k: Marks, j: Marks, n: nat, m: Milestone) {
    MarkOf(k, m) < n && (MarkOf(j, m) == MarkOf(k, m) || (MarkOf(k, m) == 0 && MarkOf(j, m) == n))
  }

  lemma CountsBefore(lines: seq<Line>, line: Line, k: Marks, j: Marks, i: nat, m: Milestone)
    requires i <= |lines|
    requires Advances(k, j, |lines| + 1, UpstreamCompleted) && Advances(k, j, |lines| + 1, DownstreamCompleted)
    ensures CountsAt(lines + [line], j, i, m) <==> CountsAt(lines, k, i, m)
  {
    hide ShownAt;
    ShownBefore(lines, line, i, m);
  }

  lemma FirstStep(lines: seq<Line>, line: Line, k: Marks, j: Marks, m: Milestone)
    requires IsFirst(lines, k, m) && Advances(k, j, |lines| + 1, m)
    requires Advances(k, j, |lines| + 1, UpstreamCompleted) && Advances(k, j, |lines| + 1, DownstreamCompleted)
    requires MarkOf(k, m) == 0 ==> (MarkOf(j, m) != 0 <==> CountsAt(lines + [line], j, |lines| + 1, m))
    ensures IsFirst(lines + [line], j, m)
  {
    var all := lines + [line];
    hide CountsAt;
    hide MarkOf;
    forall n: nat | 1 <= n <= |all| && CountsAt(all, j, n, m)
      ensures 0 < MarkOf(j, m) <= n
    {
      if n <= |lines| {
        CountsBefore(lines, line, k, j, n, m);
      }
    }
    if MarkOf(k, m) != 0 {
      CountsHere(lines, k, MarkOf(k, m), m);
      CountsBefore(lines, line, k, j, MarkOf(k, m), m);
    }
  }

  lemma CountsHere(lines: seq<Line>, k: Marks, n: nat, m: Milestone)
    requires CountsAt(lines, k, n, m)
    ensures 1 <= n <= |lines|
  {
    hide Shows;
    hide IdsOf;
  }

  /** What the lifecycle part of the state means. */
  ghost predicate Means(lines: seq<Line>, f: Flow) {
    && FlagsMatchMarks(f)
    && f.Named() == IdsOf(lines)
    && f.finalStatus == LastStatus(lines)
    && (f.mismatch <==> exists n: nat :: MismatchAt(lines, n))
    && Firsts(lines, f.marks)
  }

  lemma MarksAreLines(lines: seq<Line>, k: Marks, m: Milestone)
    requires Firsts(lines, k)
    ensures MarkOf(k, m) <= |lines|
  {
    hide CountsAt;
    assert IsFirst(lines, k, m);
    if MarkOf(k, m) != 0 {
      CountsHere(lines, k, MarkOf(k, m), m);
    }
  }

  lemma QuietStep(lines: seq<Line>, line: Line, k: Marks)
    requires Firsts(lines, k) && Reply(line).None?
    ensures Firsts(lines + [line], k)
  {
    hide IsFirst;
    forall m: Milestone
      ensures IsFirst(lines + [line], k, m)
    {
      assert IsFirst(lines, k, m);
      MarksAreLines(lines, k, m);
      MarksAreLines(lines, k, UpstreamCompleted);
      MarksAreLines(lines, k, DownstreamCompleted);
      assert (lines + [line])[|lines|] == line;
      assert !CountsAt(lines + [line], k, |lines| + 1, m) by {
        hide Shows;
        hide IdsOf;
      }
      hide CountsAt;
      FirstStep(lines, line, k, k, m);
    }
  }

  lemma TellsCounts(lines: seq<Line>, line: Line, f: Flow, g: Flow, m: Milestone)
    requires FlagsMatchMarks(f) && f.Named() == IdsOf(lines) && Firsts(lines, f.marks) && Reply(line).Some?
    requires var result := Reply(line).value; var tool := ToolNamed(result.tool); var n := |lines| + 1;
      && Marked(f, g, n, tool, result.content, UpstreamCompleted)
      && Marked(f, g, n, tool, result.content, DownstreamCompleted)
    ensures var result := Reply(line).value;
      Tells(f, m, ToolNamed(result.tool), result.content) <==> CountsAt(lines + [line], g.marks, |lines| + 1, m)
  {
    hide Shows;
    hide ShownAt;
    hide Reply;
    hide ToolNamed;
    hide IdsOf;
    hide Firsts;
    ShownLast(lines, line, m);
    MarksAreLines(lines, f.marks, UpstreamCompleted);
    MarksAreLines(lines, f.marks, DownstreamCompleted);
  }

  lemma MarkedAdvances(lines: seq<Line>, f: Flow, g: Flow, tool: Tool, content: Json, m: Milestone)
    requires Firsts(lines, f.marks) && Marked(f, g, |lines| + 1, tool, content, m)
    ensures Advances(f.marks, g.marks, |lines| + 1, m)
  {
    hide Firsts;
    hide Tells;
    MarksAreLines(lines, f.marks, m);
  }

  lemma ReplyStepAt(lines: seq<Line>, line: Line, f: Flow, g: Flow, m: Milestone)
    requires FlagsMatchMarks(f) && f.Named() == IdsOf(lines) && Firsts(lines, f.marks) && Reply(line).Some?
    requires var result := Reply(line).value; g == Inspect(f, |lines| + 1, ToolNamed(result.tool), result.content)
    ensures IsFirst(lines + [line], g.marks, m)
  {
    hide Inspect;
    hide FlagsMatchMarks;
    hide Reply;
    hide ToolNamed;
    var result := Reply(line).value;
    var tool, n := ToolNamed(result.tool), |lines| + 1;
    InspectMarks(f, n, tool, result.content, m);
    InspectMarks(f, n, tool, result.content, UpstreamCompleted);
    InspectMarks(f, n, tool, result.content, DownstreamCompleted);
    MarkedAdvances(lines, f, g, tool, result.content, m);
    MarkedAdvances(lines, f, g, tool, result.content, UpstreamCompleted);
    MarkedAdvances(lines, f, g, tool, result.content, DownstreamCompleted);
    TellsCounts(lines, line, f, g, m);
    assert IsFirst(lines, f.marks, m);
    hide IsFirst;
    hide Firsts;
    hide Advances;
    hide Tells;
    hide CountsAt;
    hide MarkOf;
    FirstStep(lines, line, f.marks, g.marks, m);
  }

  lemma ReplyStep(lines: seq<Line>, line: Line, f: Flow, g: Flow)
    requires Means(lines, f) && Reply(line).Some?
    requires var result := Reply(line).value; g == Inspect(f, |lines| + 1, ToolNamed(result.tool), result.content)
    ensures Means(lines + [line], g)
  {
    hide Inspect;
    hide FlagsMatchMarks;
    hide Reply;
    hide ToolNamed;
    hide IsFirst;
    hide MismatchAt;
    hide Renamed;
    hide Mismatches;
    hide StatusAfter;
    var result := Reply(line).value;
    var tool, n, all := ToolNamed(result.tool), |lines| + 1, lines + [line];
    InspectKeepsFlags(f, n, tool, result.content);
    InspectNotes(f, n, tool, result.content);
    assert all[..|all| - 1] == lines && all[|all| - 1] == line;
    MismatchStep(lines, line);
    ShownLast(lines, line, UpstreamCreated);
    forall m: Milestone
      ensures IsFirst(all, g.marks, m)
    {
      ReplyStepAt(lines, line, f, g, m);
    }
  }

  lemma MismatchStep(lines: seq<Line>, line: Line)
    ensures (exists n: nat :: MismatchAt(lines + [line], n))
       <==> (exists n: nat :: MismatchAt(lines, n)) || MismatchAt(lines + [line], |lines| + 1)
  {
    hide Mismatches;
    hide Reply;
    hide IdsOf;
    if exists n: nat :: MismatchAt(lines + [line], n) {
      var n: nat :| MismatchAt(lines + [line], n);
      if n <= |lines| {
        ShownBefore(lines, line, n, UpstreamCreated);
      }
    }
    if exists n: nat :: MismatchAt(lines, n) {
      var n: nat :| MismatchAt(lines, n);
      ShownBefore(lines, line, n, UpstreamCreated);
    }
  }

  lemma SilentStep(lines: seq<Line>, line: Line, f: Flow)
    requires Means(lines, f) && Reply(line).None?
    ensures Means(lines + [line], f)
  {
    hide Reply;
    hide FlagsMatchMarks;
    hide Firsts;
    var all := lines + [line];
    assert all[..|all| - 1] == lines && all[|all| - 1] == line;
    MismatchStep(lines, line);
    QuietStep(lines, line, f.marks);
  }

  lemma NothingMeans()
    ensures Means([], FRESH.flow)
  {
    hide Shows;
  }

  /** A line either only counts, or is replied to as well. */
  lemma ReplySplits(s: Extraction, n: nat, line: Line)
    requires ScanLine(s, n, line).Ok?
    ensures match Reply(line)
      case None => ScanLine(s, n, line).value == Extraction(CountLine(s.seen, line, None), s.flow)
      case Some(result) =>
        ScanLine(s, n, line).value
          == Extraction(CountLine(s.seen, line, Some(result.tool)),
                        Inspect(s.flow, n, ToolNamed(result.tool), result.content))
  {
    hide ScanLine;
    hide Inspect;
    hide CountLine;
    hide Observed;
    hide ToolNamed;
    ScanLineSplits(s, n, line);
  }

  /** After every trajectory that parses, the state holds the ids that the lines name, the last status, and
      for each milestone the first line that counts for it. */
  lemma {:induction false} ScanMeans(lines: seq<Line>)
    requires Scan(lines).Ok?
    ensures Means(lines, Scan(lines).value.flow)
    decreases |lines|
  {
    hide ScanLine;
    hide Means;
    hide Inspect;
    hide Reply;
    hide ToolNamed;
    hide CountLine;
    if lines == [] {
      NothingMeans();
    } else {
      var before, line := lines[..|lines| - 1], lines[|lines| - 1];
      ScanMeans(before);
      var s := Scan(before).value;
      ReplySplits(s, |lines|, line);
      assert before + [line] == lines;
      if Reply(line).Some? {
        ReplyStep(before, line, s.flow, Scan(lines).value.flow);
      } else {
        SilentStep(before, line, s.flow);
      }
    }
  }

  // ---------- what has been seen ----------

  ghost predicate Called(lines: seq<Line>, name: string) {
    exists i :: 0 <= i < |lines| && Calls(lines[i], name)
  }

  ghost predicate AnyForbids(lines: seq<Line>) {
    exists i :: 0 <= i < |lines| && Forbids(lines[i])
  }

  ghost predicate AnyOutside(lines: seq<Line>) {
    exists i :: 0 <= i < |lines| && Outside(lines[i])
  }

  /** What the counting part of the state means. */
  ghost predicate Tallies(lines: seq<Line>, seen: Seen) {
    && (forall name :: name in REQUIRED ==> (name in seen.tools <==> Called(lines, name)))
    && (seen.forbidden != {} <==> AnyForbids(lines))
    && (seen.others != 0 <==> AnyOutside(lines))
  }

  lemma OneMore(lines: seq<Line>, line: Line)
    ensures forall name :: Called(lines + [line], name) <==> Called(lines, name) || Calls(line, name)
    ensures AnyForbids(lines + [line]) <==> AnyForbids(lines) || Forbids(line)
    ensures AnyOutside(lines + [line]) <==> AnyOutside(lines) || Outside(line)
  {
    hide Calls;
    hide Forbids;
    hide Outside;
    var all := lines + [line];
    assert all[|lines|] == line && forall i :: 0 <= i < |lines| ==> all[i] == lines[i];
    forall name
      ensures Called(all, name) <==> Called(lines, name) || Calls(line, name)
    {
      if Called(lines, name) {
        var i :| 0 <= i < |lines| && Calls(lines[i], name);
        assert Calls(all[i], name);
      }
    }
    if AnyForbids(lines) {
      var i :| 0 <= i < |lines| && Forbids(lines[i]);
      assert Forbids(all[i]);
    }
    if AnyOutside(lines) {
      var i :| 0 <= i < |lines| && Outside(lines[i]);
      assert Outside(all[i]);
    }
  }

  lemma NotForbiddenAndRequired(name: string)
    requires name in REQUIRED
    ensures name !in FORBIDDEN
  {
  }

  lemma CountLineTallies(seen: Seen, line: Line)
    requires Observed(line).Ok?
    ensures var t := CountLine(seen, line, match Reply(line) case None => None case Some(result) => Some(result.tool));
      && (forall name :: name in REQUIRED ==> (name in t.tools <==> name in seen.tools || Calls(line, name)))
      && (t.forbidden != {} <==> seen.forbidden != {} || Forbids(line))
      && (t.others != 0 <==> seen.others != 0 || Outside(line))
  {
    hide ExtractEventMetadata;
    hide ExtractToolResult;
    forall name | name in REQUIRED
      ensures name !in FORBIDDEN
    {
      NotForbiddenAndRequired(name);
    }
  }

  /** After every trajectory that parses, the required tools seen are those of its results, and the other
      counts say whether a forbidden tool and an event of the runtime occurred. */
  lemma {:induction false} ScanTallies(lines: seq<Line>)
    requires Scan(lines).Ok?
    ensures Tallies(lines, Scan(lines).value.seen)
    decreases |lines|
  {
    hide ScanLine;
    hide Inspect;
    hide Reply;
    hide Observed;
    hide ToolNamed;
    hide CountLine;
    hide Called;
    hide AnyForbids;
    hide AnyOutside;
    if lines != [] {
      var before, line := lines[..|lines| - 1], lines[|lines| - 1];
      ScanTallies(before);
      var s := Scan(before).value;
      ScanLineSplits(s, |lines|, line);
      ReplySplits(s, |lines|, line);
      CountLineTallies(s.seen, line);
      assert before + [line] == lines;
      OneMore(before, line);
    } else {
      NothingTallies();
    }
  }

  lemma NothingTallies()
    ensures Tallies([], FRESH.seen)
  {
  }

  /** A scan goes through exactly when every line parses. */
  lemma {:induction false} ScanParses(lines: seq<Line>)
    ensures Scan(lines).Ok? <==> AllParse(lines)
    decreases |lines|
  {
    hide Observed;
    hide ScanLine;
    if lines != [] {
      var before, line := lines[..|lines| - 1], lines[|lines| - 1];
      ScanParses(before);
      assert before + [line] == lines;
      if Scan(before).Ok? {
        ScanLineParses(Scan(before).value, |lines|, line);
      }
    }
  }

  lemma ScanLineParses(s: Extraction, n: nat, line: Line)
    ensures ScanLine(s, n, line).Ok? <==> Observed(line).Ok?
  {
    hide ExtractEventMetadata;
    hide ExtractToolResult;
  }

  // ---------- exactly what is accepted ----------

  /** Two milestones that no single tool result can show. */
  predicate Exclusive(a: Milestone, b: Milestone) {
    match (a, b)
    case (UpstreamCreated, DownstreamCreated) => true
    case (DownstreamCreated, DependencyMet) => true
    case (DependencyMet, ReviewApproved) => true
    case (ReviewApproved, UpstreamCompleted) => true
    case (UpstreamCompleted, DownstreamReadied) => true
    case (DownstreamReadied, DownstreamCompleted) => true
    case (WorkflowFinished, EvidenceSummarised) => true
    case _ => false
  }

  lemma ExclusiveMilestones(a: Milestone, b: Milestone, tool: Tool, content: Json, ids: Ids)
    requires Exclusive(a, b) && Shows(a, tool, content, ids)
    ensures !Shows(b, tool, content, ids)
  {
    hide StringValue;
    hide Completes;
    hide CompletedWorkflow;
    hide ListsBlocked;
    hide ListsReady;
    hide ListsCompleted;
    hide Belongs;
    hide DependsOn;
    hide BoolField;
  }

  /** Neighbouring milestones need different lines. */
  lemma DistinctLines(lines: seq<Line>, k: Marks, a: Milestone, b: Milestone)
    requires Firsts(lines, k) && Exclusive(a, b) && MarkOf(k, a) != 0
    ensures MarkOf(k, a) != MarkOf(k, b)
  {
    hide Shows;
    hide Reply;
    hide MarkOf;
    hide Exclusive;
    assert IsFirst(lines, k, a) && IsFirst(lines, k, b);
    if MarkOf(k, a) == MarkOf(k, b) {
      var n := MarkOf(k, a);
      var result := Reply(lines[n - 1]).value;
      ExclusiveMilestones(a, b, ToolNamed(result.tool), result.content, IdsOf(lines[..n - 1]));
    }
  }

  /** The milestones are on strictly increasing lines, but for one pair that may coincide. */
  ghost predicate InOrder(k: Marks) {
    0 < k.upstreamCreated < k.downstreamCreated < k.dependencyGate < k.reviewApproved < k.upstreamCompleted
      < k.downstreamReady < k.downstreamCompleted <= k.workflowCompleted < k.evidenceSummary
  }

  ghost predicate InOrderAtMost(k: Marks) {
    0 < k.upstreamCreated <= k.downstreamCreated <= k.dependencyGate <= k.reviewApproved <= k.upstreamCompleted
      <= k.downstreamReady <= k.downstreamCompleted <= k.workflowCompleted <= k.evidenceSummary
  }

  lemma {:induction false} OrderMeans(marks: seq<nat>, i: nat)
    requires i <= |marks|
    ensures OrderVerifiedFrom(marks, i)
       <==> forall j :: i <= j < |marks| ==> marks[j] != 0 && (j > 0 ==> marks[j - 1] <= marks[j])
    decreases |marks| - i
  {
    if i < |marks| {
      OrderMeans(marks, i + 1);
    }
  }

  lemma OrderVerifiedMeans(f: Flow)
    ensures ExternalRuntime.LifecycleOrderVerified(f) <==> InOrderAtMost(f.marks)
  {
    var list := f.marks.List();
    OrderMeans(list, 0);
    hide OrderVerifiedFrom;
    if InOrderAtMost(f.marks) {
      forall j | 0 <= j < |list|
        ensures list[j] != 0 && (j > 0 ==> list[j - 1] <= list[j])
      {
      }
    }
    if forall j :: 0 <= j < |list| ==> list[j] != 0 && (j > 0 ==> list[j - 1] <= list[j]) {
      assert list[0] <= list[1] <= list[2] <= list[3] <= list[4] <= list[5] <= list[6] <= list[7] <= list[8];
    }
  }

  lemma StrictlyInOrder(lines: seq<Line>, k: Marks)
    requires Firsts(lines, k)
    ensures InOrderAtMost(k) <==> InOrder(k)
  {
    hide Firsts;
    if InOrderAtMost(k) {
      DistinctLines(lines, k, UpstreamCreated, DownstreamCreated);
      DistinctLines(lines, k, DownstreamCreated, DependencyMet);
      DistinctLines(lines, k, DependencyMet, ReviewApproved);
      DistinctLines(lines, k, ReviewApproved, UpstreamCompleted);
      DistinctLines(lines, k, UpstreamCompleted, DownstreamReadied);
      DistinctLines(lines, k, DownstreamReadied, DownstreamCompleted);
      DistinctLines(lines, k, WorkflowFinished, EvidenceSummarised);
    }
  }

  /** Everything that acceptance depends on, as properties of the lines alone. */
  ghost predicate Lifecycle(lines: seq<Line>, k: Marks) {
    && AllParse(lines)
    && (forall name :: name in REQUIRED ==> Called(lines, name))
    && !AnyForbids(lines)
    && AnyOutside(lines)
    && (forall n: nat :: !MismatchAt(lines, n))
    && LastStatus(lines) == "completed"
    && Firsts(lines, k)
    && InOrder(k)
  }

  /** Output is a conjunction; of its gates the order implies all but the last status. */
  lemma OutputMeans(s: Extraction)
    requires FlagsMatchMarks(s.flow)
    ensures Output(s).Some?
       <==> && (forall name :: name in REQUIRED ==> name in s.seen.tools)
            && s.seen.forbidden == {} && s.seen.others != 0
            && !s.flow.mismatch && s.flow.finalStatus == "completed" && InOrderAtMost(s.flow.marks)
  {
    OrderVerifiedMeans(s.flow);
    hide ExternalRuntime.LifecycleOrderVerified;
    if forall name :: name in REQUIRED ==> name in s.seen.tools {
      assert forall i :: 0 <= i < |REQUIRED| ==> REQUIRED[i] in REQUIRED;
    }
  }

  lemma OutputIds(s: Extraction)
    requires Output(s).Some?
    ensures Output(s).value.workflowId == s.flow.workflowId && Output(s).value.upstream == s.flow.upstream
    ensures Output(s).value.downstream == s.flow.downstream
  {
    hide ExternalRuntime.LifecycleOrderVerified;
  }

  lemma AcceptedLifecycle(lines: seq<Line>)
    requires Scan(lines).Ok?
    ensures Output(Scan(lines).value).Some? <==> Lifecycle(lines, Scan(lines).value.flow.marks)
  {
    var s := Scan(lines).value;
    ScanEstablishes(lines);
    ScanParses(lines);
    ScanMeans(lines);
    ScanTallies(lines);
    StrictlyInOrder(lines, s.flow.marks);
    hide Scan;
    OutputMeans(s);
    hide Output;
    hide FlagsMatchMarks;
    hide Firsts;
    hide InOrder;
    hide InOrderAtMost;
    hide Called;
    hide AnyForbids;
    hide AnyOutside;
    hide MismatchAt;
    hide AllParse;
  }

  // The lines determine the marks.

  lemma SameFirst(lines: seq<Line>, k: Marks, j: Marks, m: Milestone)
    requires IsFirst(lines, k, m) && IsFirst(lines, j, m)
    requires k.upstreamCompleted == j.upstreamCompleted || (m != DownstreamReadied && m != WorkflowFinished)
    requires k.downstreamCompleted == j.downstreamCompleted || m != WorkflowFinished
    ensures MarkOf(k, m) == MarkOf(j, m)
  {
    hide MarkOf;
    hide Shows;
    hide Reply;
    hide IdsOf;
    assert forall n: nat :: CountsAt(lines, k, n, m) <==> CountsAt(lines, j, n, m);
    hide ShownAt;
    if MarkOf(k, m) != 0 {
      assert CountsAt(lines, j, MarkOf(k, m), m);
      CountsHere(lines, k, MarkOf(k, m), m);
    }
    if MarkOf(j, m) != 0 {
      assert CountsAt(lines, k, MarkOf(j, m), m);
      CountsHere(lines, j, MarkOf(j, m), m);
    }
  }

  lemma FirstsAreUnique(lines: seq<Line>, k: Marks, j: Marks)
    requires Firsts(lines, k) && Firsts(lines, j)
    ensures k == j
  {
    hide IsFirst;
    assert forall m: Milestone :: IsFirst(lines, k, m) && IsFirst(lines, j, m);
    SameFirst(lines, k, j, UpstreamCompleted);
    SameFirst(lines, k, j, DownstreamCompleted);
    SameFirst(lines, k, j, UpstreamCreated);
    SameFirst(lines, k, j, DownstreamCreated);
    SameFirst(lines, k, j, DependencyMet);
    SameFirst(lines, k, j, ReviewApproved);
    SameFirst(lines, k, j, DownstreamReadied);
    SameFirst(lines, k, j, WorkflowFinished);
    SameFirst(lines, k, j, EvidenceSummarised);
  }

  /** A trajectory is accepted exactly when its lines parse, use every required tool and no forbidden one,
      hold an event of the runtime and no mismatched create, end on a completed status, and their first
      lines for the nine milestones are in order; the record then has those lines and the ids they name. */
  lemma AcceptedExactly(lines: seq<Line>)
    ensures (Scan(lines).Ok? && Output(Scan(lines).value).Some?) <==> exists k :: Lifecycle(lines, k)
    ensures forall k :: Lifecycle(lines, k) ==>
      && Scan(lines).Ok? && Scan(lines).value.flow.marks == k && Output(Scan(lines).value).Some?
      && var e := Output(Scan(lines).value).value; Ids(e.workflowId, e.upstream, e.downstream) == IdsOf(lines)
  {
    ScanParses(lines);
    if Scan(lines).Ok? {
      AcceptedLifecycle(lines);
      ScanMeans(lines);
      var s := Scan(lines).value;
      if Output(s).Some? {
        OutputIds(s);
      }
      hide Scan;
      hide Output;
      hide IsFirst;
      forall k | Lifecycle(lines, k)
        ensures s.flow.marks == k
      {
        FirstsAreUnique(lines, k, s.flow.marks);
      }
    }
    hide Scan;
    hide Output;
  }

  // ---------- the ids of the record ----------

  lemma NoRename(ids: Ids, tool: Tool, content: Json)
    requires !Shows(UpstreamCreated, tool, content, ids)
    ensures Renamed(ids, tool, content).upstream == ids.upstream
    ensures !Shows(DownstreamCreated, tool, content, ids) ==> Renamed(ids, tool, content).downstream == ids.downstream
  {
    hide Belongs;
    hide DependsOn;
  }

  lemma Rename(ids: Ids, tool: Tool, content: Json)
    ensures Shows(UpstreamCreated, tool, content, ids) ==>
      Renamed(ids, tool, content).upstream == CreatedId(content)
        && Renamed(ids, tool, content).downstream == ids.downstream
    ensures Shows(DownstreamCreated, tool, content, ids) ==>
      Renamed(ids, tool, content).downstream == CreatedId(content)
        && Renamed(ids, tool, content).upstream == ids.upstream
  {
    hide Belongs;
    hide DependsOn;
  }

  /** Line n is the last one that shows the milestone. */
  ghost predicate IsLast(lines: seq<Line>, n: nat, m: Milestone) {
    ShownAt(lines, n, m) && forall i: nat :: ShownAt(lines, i, m) ==> i <= n
  }

  lemma LastBefore(lines: seq<Line>, line: Line, n: nat, m: Milestone)
    requires n <= |lines| && IsLast(lines + [line], n, m)
    ensures IsLast(lines, n, m) && !ShownAt(lines + [line], |lines| + 1, m)
  {
    hide ShownAt;
    ShownBefore(lines, line, n, m);
    forall i: nat | ShownAt(lines, i, m)
      ensures i <= n
    {
      ShownIsLine(lines, i, m);
      ShownBefore(lines, line, i, m);
    }
  }

  lemma ShownIsLine(lines: seq<Line>, n: nat, m: Milestone)
    requires ShownAt(lines, n, m)
    ensures 1 <= n <= |lines| && Reply(lines[n - 1]).Some?
  {
    hide Shows;
    hide Reply;
    hide IdsOf;
  }

  lemma IdsOfMore(lines: seq<Line>, line: Line)
    ensures IdsOf(lines + [line])
         == match Reply(line) case None => IdsOf(lines)
            case Some(result) => Renamed(IdsOf(lines), ToolNamed(result.tool), result.content)
  {
    var all := lines + [line];
    assert all[..|all| - 1] == lines && all[|all| - 1] == line;
    hide Renamed;
    hide Reply;
  }

  /** The upstream handoff known in the end is that of the last create of the workflow that needs a review,
      and the downstream handoff that of the last other create that depends on the upstream then known. */
  lemma {:induction false} LatestCreates(lines: seq<Line>, n: nat, m: Milestone)
    requires IsLast(lines, n, m) && (m == UpstreamCreated || m == DownstreamCreated)
    ensures n <= |lines| && n > 0 && Reply(lines[n - 1]).Some?
    ensures CreatedId(Reply(lines[n - 1]).value.content)
         == if m == UpstreamCreated then IdsOf(lines).upstream else IdsOf(lines).downstream
    decreases |lines|
  {
    hide Shows;
    hide Reply;
    hide Renamed;
    hide IdsOf;
    hide CreatedId;
    ShownIsLine(lines, n, m);
    var before, line := lines[..|lines| - 1], lines[|lines| - 1];
    assert before + [line] == lines;
    IdsOfMore(before, line);
    if Reply(line).Some? {
      var result := Reply(line).value;
      ShownLast(before, line, m);
      Rename(IdsOf(before), ToolNamed(result.tool), result.content);
      if !Shows(UpstreamCreated, ToolNamed(result.tool), result.content, IdsOf(before)) {
        NoRename(IdsOf(before), ToolNamed(result.tool), result.content);
      }
    }
    hide ShownAt;
    if n < |lines| {
      LastBefore(before, line, n, m);
      LatestCreates(before, n, m);
      assert lines[n - 1] == before[n - 1];
    }
  }

  // ---------- the plain lifecycle ----------

  /** The ids known before line n when the two creates are on the marked lines. */
  function KnownBefore(k: Marks, ids: Ids, n: nat): Ids {
    if n <= k.upstreamCreated then Ids("", "", "")
    else if n <= k.downstreamCreated then ids.(downstream := "")
    else ids
  }

  /** A create that changes nothing: it names nothing, or it is a later one of another workflow and does not
      depend on the upstream handoff. */
  predicate Harmless(tool: Tool, content: Json, known: Ids) {
    tool != HandoffCreate || !Names(content)
    || (known.workflow != "" && NestedValue(content, Workflow, Id) != known.workflow
        && !DependsOn(content, known.upstream))
  }

  /** The create of a handoff in a workflow. */
  predicate Creates(tool: Tool, content: Json, workflow: string, id: string) {
    tool == HandoffCreate && NestedValue(content, Workflow, Id) == workflow && CreatedId(content) == id
  }

  /** What line n says of the two creates: it is one of them, or it is harmless. */
  predicate PlainCreateAt(lines: seq<Line>, k: Marks, ids: Ids, n: nat) {
    1 <= n <= |lines| && Reply(lines[n - 1]).Some? ==>
      var result := Reply(lines[n - 1]).value; var tool, content := ToolNamed(result.tool), result.content;
      var needsReview := BoolField(ObjectField(content, Handoff), NeedsReview);
      if n == k.upstreamCreated then Creates(tool, content, ids.workflow, ids.upstream) && needsReview
      else if n == k.downstreamCreated then
        Creates(tool, content, ids.workflow, ids.downstream) && !needsReview && DependsOn(content, ids.upstream)
      else Harmless(tool, content, KnownBefore(k, ids, n))
  }

  /** Line n shows a milestone, for the ids that the plain lifecycle has named before it. */
  predicate PlainlyShows(lines: seq<Line>, k: Marks, ids: Ids, n: nat, m: Milestone) {
    && 1 <= n <= |lines| && Reply(lines[n - 1]).Some?
    && var result := Reply(lines[n - 1]).value;
      Shows(m, ToolNamed(result.tool), result.content, KnownBefore(k, ids, n))
  }

  /** Readiness is looked for only after the upstream completion, and the closed workflow only from the
      downstream completion on. */
  function LooksFrom(k: Marks, m: Milestone): nat {
    if m == DownstreamReadied then k.upstreamCompleted + 1
    else if m == WorkflowFinished then k.downstreamCompleted
    else 1
  }

  /** The milestone is on its line, and on no earlier one on which it is looked for. */
  ghost predicate PlainFirst(lines: seq<Line>, k: Marks, ids: Ids, m: Milestone) {
    && PlainlyShows(lines, k, ids, MarkOf(k, m), m)
    && forall n: nat :: LooksFrom(k, m) <= n < MarkOf(k, m) ==> !PlainlyShows(lines, k, ids, n, m)
  }

  /** Two creates on their lines, no other that matters, and every milestone on its line and not before. */
  ghost predicate PlainLifecycle(lines: seq<Line>, k: Marks, ids: Ids) {
    && InOrder(k)
    && ids.workflow != "" && ids.upstream != "" && ids.downstream != ""
    && (forall n: nat :: PlainCreateAt(lines, k, ids, n))
    && (forall m: Milestone :: PlainFirst(lines, k, ids, m))
  }

  lemma PlainRename(lines: seq<Line>, k: Marks, ids: Ids, n: nat)
    requires 1 <= n <= |lines| && Reply(lines[n - 1]).Some? && 0 < k.upstreamCreated < k.downstreamCreated
    requires ids.workflow != "" && ids.upstream != "" && ids.downstream != ""
    requires PlainCreateAt(lines, k, ids, n)
    ensures var result := Reply(lines[n - 1]).value; var known := KnownBefore(k, ids, n);
      && Renamed(known, ToolNamed(result.tool), result.content) == KnownBefore(k, ids, n + 1)
      && !Mismatches(known, ToolNamed(result.tool), result.content)
  {
    hide NestedValue;
    hide CreatedId;
    hide BoolField;
    hide ObjectField;
    hide ToolNamed;
    hide Reply;
    DependsOnNothing(Reply(lines[n - 1]).value.content);
    hide DependsOn;
  }

  lemma DependsOnNothing(content: Json)
    ensures !DependsOn(content, "")
  {
    hide ArrayField;
    hide ObjectField;
  }

  lemma PlainHasReply(lines: seq<Line>, k: Marks, ids: Ids, m: Milestone)
    requires PlainFirst(lines, k, ids, m)
    ensures 1 <= MarkOf(k, m) <= |lines| && Reply(lines[MarkOf(k, m) - 1]).Some?
  {
    hide Shows;
    hide Reply;
    hide KnownBefore;
  }

  lemma SilentLine(lines: seq<Line>, k: Marks, ids: Ids, n: nat)
    requires PlainLifecycle(lines, k, ids) && 1 <= n <= |lines| && Reply(lines[n - 1]).None?
    ensures KnownBefore(k, ids, n) == KnownBefore(k, ids, n + 1)
  {
    hide PlainFirst;
    hide PlainCreateAt;
    hide Reply;
    assert PlainFirst(lines, k, ids, UpstreamCreated) && PlainFirst(lines, k, ids, DownstreamCreated);
    PlainHasReply(lines, k, ids, UpstreamCreated);
    PlainHasReply(lines, k, ids, DownstreamCreated);
  }

  lemma {:induction false} PlainIds(lines: seq<Line>, k: Marks, ids: Ids, n: nat)
    requires PlainLifecycle(lines, k, ids) && n <= |lines|
    ensures IdsOf(lines[..n]) == KnownBefore(k, ids, n + 1)
  {
    hide PlainFirst;
    hide PlainCreateAt;
    hide Reply;
    hide Renamed;
    hide ToolNamed;
    if n > 0 {
      hide IdsOf;
      PlainIds(lines, k, ids, n - 1);
      assert lines[..n] == lines[..n - 1] + [lines[n - 1]];
      IdsOfMore(lines[..n - 1], lines[n - 1]);
      assert PlainCreateAt(lines, k, ids, n);
      hide PlainLifecycle;
      if Reply(lines[n - 1]).Some? {
        PlainNames(lines, k, ids);
        PlainRename(lines, k, ids, n);
      } else {
        SilentLine(lines, k, ids, n);
      }
    }
  }

  lemma PlainNames(lines: seq<Line>, k: Marks, ids: Ids)
    requires PlainLifecycle(lines, k, ids)
    ensures 0 < k.upstreamCreated < k.downstreamCreated
    ensures ids.workflow != "" && ids.upstream != "" && ids.downstream != ""
  {
    hide PlainFirst;
    hide PlainCreateAt;
  }

  lemma PlainNoMismatch(lines: seq<Line>, k: Marks, ids: Ids, n: nat)
    requires PlainLifecycle(lines, k, ids)
    ensures !MismatchAt(lines, n)
  {
    hide IdsOf;
    hide PlainFirst;
    hide Reply;
    hide Renamed;
    hide Mismatches;
    if 1 <= n <= |lines| && Reply(lines[n - 1]).Some? {
      PlainIds(lines, k, ids, n - 1);
      assert PlainCreateAt(lines, k, ids, n);
      hide PlainCreateAt;
      PlainRename(lines, k, ids, n);
    }
  }

  lemma PlainShown(lines: seq<Line>, k: Marks, ids: Ids, n: nat, m: Milestone)
    requires PlainLifecycle(lines, k, ids)
    ensures ShownAt(lines, n, m) <==> PlainlyShows(lines, k, ids, n, m)
  {
    if 1 <= n <= |lines| {
      PlainIds(lines, k, ids, n - 1);
    }
    hide IdsOf;
    hide PlainLifecycle;
    hide Reply;
    hide Shows;
  }

  lemma PlainIsFirst(lines: seq<Line>, k: Marks, ids: Ids, m: Milestone)
    requires PlainLifecycle(lines, k, ids)
    ensures IsFirst(lines, k, m)
  {
    hide ShownAt;
    hide PlainlyShows;
    hide PlainCreateAt;
    assert PlainFirst(lines, k, ids, m);
    PlainShown(lines, k, ids, MarkOf(k, m), m);
    forall n: nat | 1 <= n <= |lines| && CountsAt(lines, k, n, m)
      ensures 0 < MarkOf(k, m) <= n
    {
      PlainShown(lines, k, ids, n, m);
    }
  }

  /** A plain lifecycle is accepted, with its own lines and ids, once every required tool, no forbidden one
      and an event of the runtime occur, every line parses and no later status takes the completion back. */
  lemma PlainLifecycleIsAccepted(lines: seq<Line>, k: Marks, ids: Ids)
    requires PlainLifecycle(lines, k, ids) && AllParse(lines) && LastStatus(lines) == "completed"
    requires (forall name :: name in REQUIRED ==> Called(lines, name)) && !AnyForbids(lines) && AnyOutside(lines)
    ensures Scan(lines).Ok? && Scan(lines).value.flow.marks == k && Output(Scan(lines).value).Some?
    ensures var e := Output(Scan(lines).value).value; Ids(e.workflowId, e.upstream, e.downstream) == ids
  {
    hide PlainCreateAt;
    hide PlainFirst;
    hide IsFirst;
    hide Scan;
    hide Output;
    hide MismatchAt;
    hide AllParse;
    hide Called;
    hide AnyForbids;
    hide AnyOutside;
    forall m: Milestone
      ensures IsFirst(lines, k, m)
    {
      PlainIsFirst(lines, k, ids, m);
    }
    forall n: nat
      ensures !MismatchAt(lines, n)
    {
      PlainNoMismatch(lines, k, ids, n);
    }
    PlainIds(lines, k, ids, |lines|);
    assert lines[..|lines|] == lines;
    PlainEnds(lines, k, ids);
    hide IdsOf;
    hide Firsts;
    assert Lifecycle(lines, k) by {
      assert Firsts(lines, k) by {
        assert forall m: Milestone :: IsFirst(lines, k, m);
        PlainFirsts(lines, k);
      }
    }
    hide Lifecycle;
    AcceptedExactly(lines);
  }

  lemma PlainFirsts(lines: seq<Line>, k: Marks)
    requires forall m: Milestone :: IsFirst(lines, k, m)
    ensures Firsts(lines, k)
  {
    hide IsFirst;
  }

  lemma PlainEnds(lines: seq<Line>, k: Marks, ids: Ids)
    requires PlainLifecycle(lines, k, ids)
    ensures KnownBefore(k, ids, |lines| + 1) == ids
  {
    hide Shows;
    hide PlainCreateAt;
    assert PlainFirst(lines, k, ids, DownstreamCreated);
  }

  // ---------- what no later event can repair ----------

  /** What later lines leave alone. */
  ghost predicate Later(s: Extraction, t: Extraction) {
    && (forall m: Milestone :: MarkOf(s.flow.marks, m) != 0 ==> MarkOf(t.flow.marks, m) == MarkOf(s.flow.marks, m))
    && s.seen.forbidden <= t.seen.forbidden
    && (s.flow.mismatch ==> t.flow.mismatch)
    && (s.flow.workflowId != "" ==> t.flow.workflowId == s.flow.workflowId)
  }

  lemma CountLineForbids(seen: Seen, line: Line, tool: Option<string>)
    ensures seen.forbidden <= CountLine(seen, line, tool).forbidden
  {
    hide ExtractEventMetadata;
  }

  lemma WorkflowStays(ids: Ids, tool: Tool, content: Json)
    ensures ids.workflow != "" ==> Renamed(ids, tool, content).workflow == ids.workflow
  {
    hide DependsOn;
    hide NestedValue;
    hide CreatedId;
  }

  lemma InspectLater(f: Flow, n: nat, tool: Tool, content: Json)
    requires n > 0
    ensures var g := Inspect(f, n, tool, content);
      && (forall m: Milestone :: MarkOf(f.marks, m) != 0 ==> MarkOf(g.marks, m) == MarkOf(f.marks, m))
      && (f.mismatch ==> g.mismatch) && (f.workflowId != "" ==> g.workflowId == f.workflowId)
  {
    hide Inspect;
    hide Tells;
    hide Renamed;
    hide Mismatches;
    hide StatusAfter;
    hide MarkOf;
    InspectNotes(f, n, tool, content);
    WorkflowStays(f.Named(), tool, content);
    var g := Inspect(f, n, tool, content);
    assert f.Named().workflow == f.workflowId && g.Named().workflow == g.workflowId;
    forall m: Milestone | MarkOf(f.marks, m) != 0
      ensures MarkOf(g.marks, m) == MarkOf(f.marks, m)
    {
      InspectMarks(f, n, tool, content, m);
    }
  }

  lemma ScanLineLater(s: Extraction, n: nat, line: Line)
    requires n > 0 && ScanLine(s, n, line).Ok?
    ensures Later(s, ScanLine(s, n, line).value)
  {
    hide ScanLine;
    hide Reply;
    hide Inspect;
    hide CountLine;
    hide ToolNamed;
    hide MarkOf;
    ReplySplits(s, n, line);
    CountLineForbids(s.seen, line, None);
    if Reply(line).Some? {
      var result := Reply(line).value;
      CountLineForbids(s.seen, line, Some(result.tool));
      InspectLater(s.flow, n, ToolNamed(result.tool), result.content);
    }
  }

  lemma {:induction false} ScanLater(lines: seq<Line>, more: seq<Line>)
    requires Scan(lines + more).Ok?
    ensures Scan(lines).Ok? && Later(Scan(lines).value, Scan(lines + more).value)
    decreases |more|
  {
    hide ScanLine;
    hide MarkOf;
    if more == [] {
      assert lines + more == lines;
    } else {
      var before := more[..|more| - 1];
      assert (lines + more)[..|lines + more| - 1] == lines + before;
      ScanLater(lines, before);
      ScanLineLater(Scan(lines + before).value, |lines + more|, more[|more| - 1]);
    }
  }

  /** Something has happened that no later event can undo: a forbidden tool, a workflow that does not
      match, or two milestones in the wrong order. */
  ghost predicate Hopeless(s: Extraction) {
    || s.seen.forbidden != {} || s.flow.mismatch
    || exists i, j :: 0 <= i < j < |LIFECYCLE| && Swapped(s.flow.marks, i, j)
  }

  ghost predicate Swapped(k: Marks, i: nat, j: nat)
    requires i < j < |LIFECYCLE|
  {
    MarkOf(k, LIFECYCLE[i]) > MarkOf(k, LIFECYCLE[j]) > 0
  }

  lemma HopelessStays(s: Extraction, t: Extraction)
    requires Hopeless(s) && Later(s, t)
    ensures Hopeless(t)
  {
    hide MarkOf;
    if s.seen.forbidden == {} && !s.flow.mismatch {
      var i, j :| 0 <= i < j < |LIFECYCLE| && Swapped(s.flow.marks, i, j);
      assert Swapped(t.flow.marks, i, j);
    }
  }

  lemma AcceptedLines(s: Extraction)
    requires Output(s).Some?
    ensures InOrderAtMost(s.flow.marks)
  {
    OrderVerifiedMeans(s.flow);
    hide ExternalRuntime.LifecycleOrderVerified;
  }

  lemma HopelessIsRejected(s: Extraction)
    requires Hopeless(s)
    ensures Output(s) == None
  {
    if Output(s).Some? {
      AcceptedLines(s);
      AcceptedIsClean(s);
      hide Output;
      hide MarkOf;
      var i, j :| 0 <= i < j < |LIFECYCLE| && Swapped(s.flow.marks, i, j);
      MarksAreOrdered(s.flow.marks, i, j);
    }
  }

  /** Such a rejection is final: no continuation of the trajectory is accepted. */
  lemma RejectionIsFinal(lines: seq<Line>, more: seq<Line>)
    requires Scan(lines + more).Ok? && (Scan(lines).Ok? ==> Hopeless(Scan(lines).value))
    ensures Output(Scan(lines + more).value) == None
  {
    ScanLater(lines, more);
    var s, t := Scan(lines).value, Scan(lines + more).value;
    hide Scan;
    hide Output;
    HopelessStays(s, t);
    HopelessIsRejected(t);
  }

  lemma AcceptedIsClean(s: Extraction)
    requires Output(s).Some?
    ensures s.seen.forbidden == {} && !s.flow.mismatch
  {
    hide ExternalRuntime.LifecycleOrderVerified;
  }

  lemma MarksAreOrdered(k: Marks, i: nat, j: nat)
    requires InOrderAtMost(k) && i < j < |LIFECYCLE|
    ensures MarkOf(k, LIFECYCLE[i]) <= MarkOf(k, LIFECYCLE[j])
  {
    var list := k.List();
    assert forall x :: 0 <= x < |LIFECYCLE| ==> MarkOf(k, LIFECYCLE[x]) == list[x];
  }

  // ---------- what is never accepted ----------

  /** Launching or delivering by any of these tools, in a trajectory that is otherwise perfect. */
  lemma ForbiddenToolRejects(lines: seq<Line>, i: nat, name: string)
    requires i < |lines|
    requires name in ["handoff_dispatch", "a2a_deliver", "message/send", "message/stream", "sender_health",
                      "sender_ready", "sender_stats", "sender_job_list", "sender_job_get"]
    requires
      || Calls(lines[i], name)
      || (var m := ExtractEventMetadata(lines[i], CLAWSIDE);
          m.Ok? && m.value.Some? && FromClawside(m.value.value) && m.value.value.tool == name)
    ensures Scan(lines).Ok? ==> Output(Scan(lines).value) == None
  {
    IsForbidden(name);
    assert Forbids(lines[i]) by {
      hide Calls;
      hide ExtractEventMetadata;
    }
    AcceptedExactly(lines);
    hide Scan;
    hide Output;
    hide Forbids;
    hide Calls;
    hide ExtractEventMetadata;
    assert AnyForbids(lines);
    hide AnyForbids;
    forall k
      ensures !Lifecycle(lines, k)
    {
      hide Firsts;
      hide InOrder;
    }
  }

  lemma IsForbidden(name: string)
    requires name in ["handoff_dispatch", "a2a_deliver", "message/send", "message/stream", "sender_health",
                      "sender_ready", "sender_stats", "sender_job_list", "sender_job_get"]
    ensures name in FORBIDDEN
  {
  }
}
