/** What the progression, repair, mutation and delivery extractors have in common: a flow is recognised
    from each possible start of it, by a loop over the rest of the trace, and the last success is chosen. */
module Flows {
  import opened Options
  import opened HandoffResults

  // ---------- choosing a flow ----------

  datatype Chosen<+P> = Chosen(start: nat, payload: P)

  /** The last start below n from which the flow succeeds. */
  function Choose<P>(flow: (seq<ToolResult>, nat) -> Option<P>, results: seq<ToolResult>, n: nat): Option<Chosen<P>>
    requires n <= |results|
  {
    if n == 0 then None
    else
      match flow(results, n - 1)
      case Some(p) => Some(Chosen(n - 1, p))
      case None => Choose(flow, results, n - 1)
  }

  lemma {:induction false} ChoosesLast<P>(flow: (seq<ToolResult>, nat) -> Option<P>, results: seq<ToolResult>, n: nat)
    requires n <= |results|
    ensures match Choose(flow, results, n)
      case Some(c) =>
        c.start < n && flow(results, c.start) == Some(c.payload)
          && (forall j :: c.start < j < n ==> flow(results, j).None?)
      case None => forall j :: 0 <= j < n ==> flow(results, j).None?
  {
    if n > 0 {
      ChoosesLast(flow, results, n - 1);
    }
  }

  /** The converse. */
  lemma LastStartIsChosen<P>(flow: (seq<ToolResult>, nat) -> Option<P>, results: seq<ToolResult>, start: nat, p: P)
    requires start < |results| && flow(results, start) == Some(p)
    requires forall j :: start < j < |results| ==> flow(results, j).None?
    ensures Choose(flow, results, |results|) == Some(Chosen(start, p))
  {
    ChoosesLast(flow, results, |results|);
  }

  /** A flow that has succeeded is not changed by anything that comes later. */
  ghost predicate Stable<P>(flow: (seq<ToolResult>, nat) -> Option<P>) {
    forall results: seq<ToolResult>, more: seq<ToolResult>, i: nat {:trigger flow(results + more, i)} ::
      i < |results| && flow(results, i).Some? ==> flow(results + more, i) == flow(results, i)
  }

  /** Extension stability: an accepted trace stays accepted however it goes on; the chosen start never
      moves back; and unless a start after the chosen one succeeds, the choice stays the same. */
  lemma ExtensionStability<P>(flow: (seq<ToolResult>, nat) -> Option<P>, results: seq<ToolResult>,
                              more: seq<ToolResult>)
    requires Stable(flow) && Choose(flow, results, |results|).Some?
    ensures var before := Choose(flow, results, |results|).value;
      var after := Choose(flow, results + more, |results + more|);
      && after.Some? && after.value.start >= before.start
      && (after.value == before <==>
            forall j :: before.start < j < |results + more| ==> flow(results + more, j).None?)
  {
    ChoosesLast(flow, results, |results|);
    ChoosesLast(flow, results + more, |results + more|);
    var before := Choose(flow, results, |results|).value;
    assert flow(results + more, before.start) == Some(before.payload);
  }

  // ---------- recognising a flow ----------

  datatype Turn<S, P> = Continue(state: S) | Finish(outcome: Option<P>)

  /** The loop of a flow: what one result does, and what is left when the trace ends. */
  datatype Machine<!S, !P> = Machine(step: (S, ToolResult) -> Turn<S, P>, finish: S -> Option<P>)

  function RunFrom<S, P>(m: Machine<S, P>, s: S, results: seq<ToolResult>, i: nat): Option<P>
    requires i <= |results|
    decreases |results| - i
  {
    if i == |results| then m.finish(s)
    else
      match m.step(s, results[i])
      case Finish(outcome) => outcome
      case Continue(t) => RunFrom(m, t, results, i + 1)
  }

  /** Once the trace could end here with success, no result can change that success. */
  ghost predicate Settled<S(!new), P>(m: Machine<S, P>) {
    forall s: S, r: ToolResult {:trigger m.step(s, r)} :: m.finish(s).Some? ==>
      match m.step(s, r)
      case Finish(outcome) => outcome == m.finish(s)
      case Continue(t) => m.finish(t) == m.finish(s)
  }

  lemma {:induction false} RunsStably<S(!new), P>(m: Machine<S, P>, s: S, results: seq<ToolResult>,
                                                  more: seq<ToolResult>, i: nat)
    requires Settled(m) && i <= |results| && RunFrom(m, s, results, i).Some?
    ensures RunFrom(m, s, results + more, i) == RunFrom(m, s, results, i)
    decreases |results| - i
  {
    if i == |results| {
      StaysFinished(m, s, results + more, i);
    } else {
      assert (results + more)[i] == results[i];
      if m.step(s, results[i]).Continue? {
        RunsStably(m, m.step(s, results[i]).state, results, more, i + 1);
      }
    }
  }

  lemma {:induction false} StaysFinished<S(!new), P>(m: Machine<S, P>, s: S, results: seq<ToolResult>, i: nat)
    requires Settled(m) && i <= |results| && m.finish(s).Some?
    ensures RunFrom(m, s, results, i) == m.finish(s)
    decreases |results| - i
  {
    if i < |results| && m.step(s, results[i]).Continue? {
      StaysFinished(m, m.step(s, results[i]).state, results, i + 1);
    }
  }

  // ---------- what a recognised flow holds ----------

  /** A declared order of steps: how many a state has made, what it already knows of the payload, and what
      a result must say to be step k of a flow with that payload. A bar ends a flow that has begun. */
  datatype Order<!S, !P> = Order(
    length: nat, valid: S -> bool, stage: S -> nat, agrees: (S, P) -> bool, shows: (nat, ToolResult, P) -> bool,
    bar: ToolResult -> bool)

  ghost predicate TurnSound<S, P>(m: Machine<S, P>, o: Order<S, P>, s: S, r: ToolResult, p: P) {
    match m.step(s, r)
    case Continue(t) =>
      && o.valid(t) && !(o.bar(r) && o.stage(s) > 0)
      && (o.agrees(t, p) ==>
            && o.agrees(s, p)
            && (o.stage(t) == o.stage(s) || (o.stage(t) == o.stage(s) + 1 && o.shows(o.stage(s), r, p))))
    case Finish(outcome) =>
      outcome == Some(p) ==>
        || m.finish(s) == Some(p)
        || (o.agrees(s, p) && o.stage(s) + 1 == o.length && o.shows(o.stage(s), r, p) && !(o.bar(r) && o.stage(s) > 0))
  }

  /** The loop keeps to the order. */
  ghost predicate Sound<S(!new), P(!new)>(m: Machine<S, P>, o: Order<S, P>) {
    && (forall s: S, r: ToolResult, p: P {:trigger m.step(s, r), o.agrees(s, p)} :: o.valid(s) ==>
        TurnSound(m, o, s, r, p))
    && (forall s: S, p: P {:trigger o.agrees(s, p)} ::
          o.valid(s) && m.finish(s) == Some(p) ==> o.agrees(s, p) && o.stage(s) == o.length)
  }

  /** Positions of the steps from k on, in strictly increasing order, with no bar between them. */
  ghost predicate Path<S, P>(o: Order<S, P>, results: seq<ToolResult>, i: nat, k: nat, p: P, path: seq<nat>) {
    && |path| + k == o.length
    && (forall j :: 0 <= j < |path| ==> i <= path[j] < |results| && o.shows(k + j, results[path[j]], p))
    && (forall a, b :: 0 <= a < b < |path| ==> path[a] < path[b])
    && (path != [] ==>
          forall j :: (if k > 0 then i <= j else path[0] < j) && j <= path[|path| - 1] ==> !o.bar(results[j]))
  }

  lemma PathStays<S, P>(o: Order<S, P>, results: seq<ToolResult>, i: nat, k: nat, p: P, path: seq<nat>)
    requires i < |results| && Path(o, results, i + 1, k, p, path) && (k > 0 ==> !o.bar(results[i]))
    ensures Path(o, results, i, k, p, path)
  {
  }

  lemma PathGrows<S, P>(o: Order<S, P>, results: seq<ToolResult>, i: nat, k: nat, p: P, rest: seq<nat>)
    requires i < |results| && Path(o, results, i + 1, k + 1, p, rest) && (k > 0 ==> !o.bar(results[i]))
    requires o.shows(k, results[i], p)
    ensures Path(o, results, i, k, p, [i] + rest)
  {
    var path := [i] + rest;
    forall j | 0 <= j < |path|
      ensures i <= path[j] < |results| && o.shows(k + j, results[path[j]], p)
    {
      if j > 0 {
        assert path[j] == rest[j - 1];
        assert o.shows(k + 1 + (j - 1), results[rest[j - 1]], p);
      }
    }
    forall a, b | 0 <= a < b < |path|
      ensures path[a] < path[b]
    {
      assert path[b] == rest[b - 1];
      if a > 0 {
        assert path[a] == rest[a - 1];
      }
    }
    if rest != [] {
      assert path[|path| - 1] == rest[|rest| - 1];
    }
  }

  /** Soundness, for every flow at once. */
  lemma {:induction false} RunHasPath<S(!new), P(!new)>(m: Machine<S, P>, o: Order<S, P>, s: S,
                                                        results: seq<ToolResult>, i: nat, p: P)
      returns (path: seq<nat>)
    requires Sound(m, o) && o.valid(s) && i <= |results| && RunFrom(m, s, results, i) == Some(p)
    ensures o.agrees(s, p) && Path(o, results, i, o.stage(s), p, path)
    decreases |results| - i
  {
    path := [];
    FinishedAgrees(m, o, s, p);
    if i < |results| {
      var r := results[i];
      assert TurnSound(m, o, s, r, p) by { TurnIsSound(m, o, s, r, p); }
      hide Sound;
      match m.step(s, r)
      case Finish(outcome) =>
        if m.finish(s) != Some(p) {
          assert Path(o, results, i + 1, o.length, p, []);
          PathGrows(o, results, i, o.stage(s), p, []);
          path := [i];
          assert path == [i] + [];
        }
      case Continue(t) =>
        var rest := RunHasPath(m, o, t, results, i + 1, p);
        hide Path;
        if o.stage(t) == o.stage(s) {
          PathStays(o, results, i, o.stage(s), p, rest);
          path := rest;
        } else {
          PathGrows(o, results, i, o.stage(s), p, rest);
          path := [i] + rest;
        }
    }
  }

  lemma TurnIsSound<S(!new), P(!new)>(m: Machine<S, P>, o: Order<S, P>, s: S, r: ToolResult, p: P)
    requires Sound(m, o) && o.valid(s)
    ensures TurnSound(m, o, s, r, p)
  {
    hide TurnSound;
    var turn, agrees := m.step(s, r), o.agrees(s, p);
  }

  lemma FinishedAgrees<S(!new), P(!new)>(m: Machine<S, P>, o: Order<S, P>, s: S, p: P)
    requires Sound(m, o) && o.valid(s)
    ensures m.finish(s) == Some(p) ==> o.agrees(s, p) && o.stage(s) == o.length
  {
    hide TurnSound;
    var agrees := o.agrees(s, p);
  }

  /** A flow whose first result is its first step. */
  lemma RunStartsPath<S(!new), P(!new)>(m: Machine<S, P>, o: Order<S, P>, s: S, results: seq<ToolResult>, i: nat, p: P)
      returns (path: seq<nat>)
    requires Sound(m, o) && o.valid(s) && o.stage(s) == 0 && i < |results| && RunFrom(m, s, results, i) == Some(p)
    requires m.step(s, results[i]).Continue? ==> o.stage(m.step(s, results[i]).state) == 1
    requires m.step(s, results[i]).Finish? ==> m.step(s, results[i]).outcome.None?
    ensures path != [] && path[0] == i && Path(o, results, i, 0, p, path)
  {
    var r := results[i];
    TurnIsSound(m, o, s, r, p);
    hide Sound;
    var t := m.step(s, r).state;
    var rest := RunHasPath(m, o, t, results, i + 1, p);
    PathGrows(o, results, i, 0, p, rest);
    path := [i] + rest;
  }

  // ---------- flows that count their steps ----------

  /** A loop that waits for one tool after the other: it passes over every other result, ends at a bar, and
      takes the tool it waits for exactly when the result is valid for the payload. */
  ghost predicate CountsTurn<S, P>(m: Machine<S, P>, o: Order<S, P>, tools: seq<Tool>, s: S, r: ToolResult, p: P)
    requires o.stage(s) < |tools|
  {
    var k := o.stage(s);
    if o.bar(r) && k > 0 then m.step(s, r) == Finish(None)
    else if r.tool != tools[k] then m.step(s, r) == Continue(s)
    else
      match m.step(s, r)
      case Continue(t) =>
        && o.valid(t) && o.stage(t) == k + 1 < |tools|
        && (o.agrees(t, p) <==> o.agrees(s, p) && o.shows(k, r, p))
      case Finish(None) => !(o.agrees(s, p) && o.shows(k, r, p))
      case Finish(Some(q)) => k + 1 == |tools| && (p == q <==> o.agrees(s, p) && o.shows(k, r, p))
  }

  ghost predicate Counts<S(!new), P(!new)>(m: Machine<S, P>, o: Order<S, P>, tools: seq<Tool>) {
    && o.length == |tools|
    && (forall s: S {:trigger o.valid(s)} :: o.valid(s) ==> o.stage(s) < |tools| && m.finish(s).None?)
    && (forall s: S, r: ToolResult, p: P {:trigger m.step(s, r), o.agrees(s, p)} ::
          o.valid(s) && o.stage(s) < |tools| ==> CountsTurn(m, o, tools, s, r, p))
  }

  /** The first result of a tool from a position on. */
  ghost predicate FirstFrom(results: seq<ToolResult>, from: nat, tool: Tool, at: nat) {
    from <= at < |results| && results[at].tool == tool && forall x :: from <= x < at ==> results[x].tool != tool
  }

  /** Step j of the path: the first result of its tool after the step before, valid for the payload. */
  ghost predicate PathStep<S, P>(o: Order<S, P>, tools: seq<Tool>, results: seq<ToolResult>, i: nat, k: nat, p: P,
                                 path: seq<nat>, j: nat)
    requires j < |path| && k + j < |tools|
  {
    && FirstFrom(results, if j == 0 then i else path[j - 1] + 1, tools[k + j], path[j])
    && o.shows(k + j, results[path[j]], p)
  }

  /** No bar on the way, once the path has begun. */
  ghost predicate Unbarred<S, P>(o: Order<S, P>, results: seq<ToolResult>, i: nat, k: nat, path: seq<nat>)
    requires path != []
  {
    forall x :: (if k > 0 then i <= x else path[0] < x) && x <= path[|path| - 1] && x < |results| ==> !o.bar(results[x])
  }

  /** From i on, the first result of each tool after the one before it, each valid for the payload, with no
      bar on the way. */
  ghost predicate FirstPath<S, P>(o: Order<S, P>, tools: seq<Tool>, results: seq<ToolResult>, i: nat, k: nat, p: P,
                                  path: seq<nat>)
  {
    && k < |tools| && |path| + k == |tools|
    && (forall j :: 0 <= j < |path| ==> PathStep(o, tools, results, i, k, p, path, j))
    && Unbarred(o, results, i, k, path)
  }

  lemma CountsHere<S(!new), P(!new)>(m: Machine<S, P>, o: Order<S, P>, tools: seq<Tool>, s: S, r: ToolResult, p: P)
    requires Counts(m, o, tools) && o.valid(s)
    ensures o.stage(s) < |tools| && m.finish(s).None? && CountsTurn(m, o, tools, s, r, p)
  {
    hide CountsTurn;
    var turn, agrees := m.step(s, r), o.agrees(s, p);
  }

  lemma FirstPathSkips<S, P>(o: Order<S, P>, tools: seq<Tool>, results: seq<ToolResult>, i: nat, k: nat, p: P,
                             path: seq<nat>)
    requires i < |results| && k < |tools| && results[i].tool != tools[k] && (k > 0 ==> !o.bar(results[i]))
    ensures FirstPath(o, tools, results, i, k, p, path) <==> FirstPath(o, tools, results, i + 1, k, p, path)
  {
    if |path| + k == |tools| {
      UnbarredSkips(o, results, i, k, path);
      if FirstPath(o, tools, results, i, k, p, path) {
        forall j {:trigger path[j]} | 0 <= j < |path|
          ensures PathStep(o, tools, results, i + 1, k, p, path, j)
        {
          assert PathStep(o, tools, results, i, k, p, path, j);
        }
      }
      if FirstPath(o, tools, results, i + 1, k, p, path) {
        forall j {:trigger path[j]} | 0 <= j < |path|
          ensures PathStep(o, tools, results, i, k, p, path, j)
        {
          assert PathStep(o, tools, results, i + 1, k, p, path, j);
        }
      }
    }
  }

  lemma UnbarredSkips<S, P>(o: Order<S, P>, results: seq<ToolResult>, i: nat, k: nat, path: seq<nat>)
    requires i < |results| && (k > 0 ==> !o.bar(results[i])) && path != []
    ensures Unbarred(o, results, i, k, path) <==> Unbarred(o, results, i + 1, k, path)
  {
  }

  lemma FirstPathStarts<S, P>(o: Order<S, P>, tools: seq<Tool>, results: seq<ToolResult>, i: nat, k: nat, p: P,
                              path: seq<nat>)
    requires i < |results| && FirstPath(o, tools, results, i, k, p, path) && results[i].tool == tools[k]
    ensures path[0] == i && o.shows(k, results[i], p)
    ensures k + 1 < |tools| ==> FirstPath(o, tools, results, i + 1, k + 1, p, path[1..])
  {
    assert PathStep(o, tools, results, i, k, p, path, 0);
    if k + 1 < |tools| {
      var rest := path[1..];
      forall j {:trigger rest[j]} | 0 <= j < |rest|
        ensures PathStep(o, tools, results, i + 1, k + 1, p, rest, j)
      {
        assert PathStep(o, tools, results, i, k, p, path, j + 1);
        assert k + (j + 1) == k + 1 + j;
      }
      assert rest[|rest| - 1] == path[|path| - 1];
      PathClimbs(o, tools, results, i, k, p, path);
      hide PathStep;
    }
  }

  lemma PathClimbs<S, P>(o: Order<S, P>, tools: seq<Tool>, results: seq<ToolResult>, i: nat, k: nat, p: P,
                         path: seq<nat>)
    requires FirstPath(o, tools, results, i, k, p, path)
    ensures i <= path[0] <= path[|path| - 1] < |results|
  {
    assert PathStep(o, tools, results, i, k, p, path, 0);
    var j := 0;
    while j < |path| - 1
      invariant 0 <= j < |path| && path[0] <= path[j] < |results|
    {
      assert PathStep(o, tools, results, i, k, p, path, j + 1);
      j := j + 1;
    }
  }

  lemma FirstPathGrows<S, P>(o: Order<S, P>, tools: seq<Tool>, results: seq<ToolResult>, i: nat, k: nat, p: P,
                             rest: seq<nat>)
    requires i < |results| && k < |tools| && results[i].tool == tools[k] && (k > 0 ==> !o.bar(results[i]))
    requires o.shows(k, results[i], p)
    requires if k + 1 == |tools| then rest == [] else FirstPath(o, tools, results, i + 1, k + 1, p, rest)
    ensures FirstPath(o, tools, results, i, k, p, [i] + rest)
  {
    var path := [i] + rest;
    forall j | 0 <= j < |path|
      ensures PathStep(o, tools, results, i, k, p, path, j)
    {
      if j > 0 {
        assert PathStep(o, tools, results, i + 1, k + 1, p, rest, j - 1);
        assert path[j] == rest[j - 1] && k + 1 + (j - 1) == k + j;
        assert j > 1 ==> path[j - 1] == rest[j - 2];
      }
    }
    if rest != [] {
      assert path[|path| - 1] == rest[|rest| - 1];
    }
    hide PathStep;
  }

  /** Soundness and completeness at once: such a loop succeeds with a payload exactly when the first results
      of its tools, one after the other, are valid for it. */
  lemma {:induction false} CountedRunTakesFirsts<S(!new), P(!new)>(
      m: Machine<S, P>, o: Order<S, P>, tools: seq<Tool>, s: S, results: seq<ToolResult>, i: nat, p: P)
        returns (path: seq<nat>)
    requires Counts(m, o, tools) && o.valid(s) && i <= |results| && RunFrom(m, s, results, i) == Some(p)
    ensures o.agrees(s, p) && FirstPath(o, tools, results, i, o.stage(s), p, path)
    decreases |results| - i
  {
    var k := o.stage(s);
    assert o.valid(s) ==> m.finish(s).None?;
    var r := results[i];
    CountsHere(m, o, tools, s, r, p);
    hide Counts;
    hide FirstPath;
    match m.step(s, r)
    case Finish(outcome) =>
      FirstPathGrows(o, tools, results, i, k, p, []);
      path := [i] + [];
    case Continue(t) =>
      if !(o.bar(r) && k > 0) && r.tool != tools[k] {
        path := CountedRunTakesFirsts(m, o, tools, s, results, i + 1, p);
        FirstPathSkips(o, tools, results, i, k, p, path);
      } else {
        var rest := CountedRunTakesFirsts(m, o, tools, t, results, i + 1, p);
        FirstPathGrows(o, tools, results, i, k, p, rest);
        path := [i] + rest;
      }
  }

  lemma {:induction false} FirstsAreACountedRun<S(!new), P(!new)>(
      m: Machine<S, P>, o: Order<S, P>, tools: seq<Tool>, s: S, results: seq<ToolResult>, i: nat, p: P, path: seq<nat>)
    requires Counts(m, o, tools) && o.valid(s) && i <= |results|
    requires o.agrees(s, p) && FirstPath(o, tools, results, i, o.stage(s), p, path)
    ensures RunFrom(m, s, results, i) == Some(p)
    decreases |results| - i
  {
    var k := o.stage(s);
    PathClimbs(o, tools, results, i, k, p, path);
    var r := results[i];
    CountsHere(m, o, tools, s, r, p);
    assert k > 0 ==> !o.bar(r);
    hide Counts;
    hide FirstPath;
    if r.tool != tools[k] {
      FirstPathSkips(o, tools, results, i, k, p, path);
      FirstsAreACountedRun(m, o, tools, s, results, i + 1, p, path);
    } else {
      FirstPathStarts(o, tools, results, i, k, p, path);
      if m.step(s, r).Continue? {
        FirstsAreACountedRun(m, o, tools, m.step(s, r).state, results, i + 1, p, path[1..]);
      }
    }
  }
}
