/** checkMultiAgentA2A of cmd/openclaw-mcp-smoke/smoke.go: rounds of agent turns, polled through a slice
    of active indices that is compacted in place. Replies of the MCP tools and the clock are inputs. */
module A2ATurns {
  import opened Options
  import opened Text

  datatype Turn = Turn(agent: string, round: nat, status: string, workflowId: string, handoffId: string,
                       attempt: string, reply: string)

  /** The fields that updateA2ATurnSummary reads from a tool result. */
  datatype Summary = Summary(status: string, workflowId: string, handoffId: string, attempt: string, reply: string)

  /** A tool call fails or returns a summary. */
  type Reply = Option<Summary>

  /** One pass over the active turns: the replies by turn index, and what happens after the pass. */
  datatype Sweep = Sweep(replies: map<nat, Summary>, deadlinePassed: bool, waitFailed: bool)

  function Updated(t: Turn, s: Summary): Turn {
    t.(status := FirstNonEmpty(s.status, t.status), workflowId := FirstNonEmpty(s.workflowId, t.workflowId),
       handoffId := FirstNonEmpty(s.handoffId, t.handoffId), attempt := FirstNonEmpty(s.attempt, t.attempt),
       reply := FirstNonEmpty(s.reply, t.reply))
  }

  predicate AttemptFailed(t: Turn) {
    t.attempt == "rejected" || t.attempt == "timeout"
  }

  /** What a good turn looks like in the end. */
  predicate Good(t: Turn) {
    t.status == "completed" && t.reply != "" && !AttemptFailed(t) && t.workflowId != "" && t.handoffId != ""
  }

  datatype Verdict = Pending | Done | Failure

  /** The poll of one turn: its new state, and whether it stays active, is done or is a failure. */
  function Polled(t: Turn, reply: Reply): (Turn, Verdict) {
    if reply.None? then (t.(status := "failed"), Failure)
    else
      var u := Updated(t, reply.value);
      if AttemptFailed(u) then
        (if u.status == "" || u.status == "pending" then u.(status := "failed") else u, Failure)
      else if u.status == "completed" then (u, if u.reply == "" then Failure else Done)
      else if u.status == "failed" || u.status == "timeout" then (u, Failure)
      else (u, Pending)
  }

  function ReplyFor(sweep: Sweep, i: nat): Reply {
    if i in sweep.replies then Some(sweep.replies[i]) else None
  }

  ghost predicate Increasing(s: seq<nat>) {
    forall j, k :: 0 <= j < k < |s| ==> s[j] < s[k]
  }

  /** The indices, in order, whose turns are still pending after the poll. */
  function StillPending(turns: seq<Turn>, active: seq<nat>, sweep: Sweep): seq<nat>
    requires forall k :: 0 <= k < |active| ==> active[k] < |turns|
  {
    if active == [] then []
    else
      var last := active[|active| - 1];
      StillPending(turns, active[..|active| - 1], sweep)
      + if Polled(turns[last], ReplyFor(sweep, last)).1 == Pending then [last] else []
  }

  lemma {:induction false} StillPendingIsFilter(turns: seq<Turn>, active: seq<nat>, sweep: Sweep)
    requires (forall k :: 0 <= k < |active| ==> active[k] < |turns|) && Increasing(active)
    ensures var kept := StillPending(turns, active, sweep);
      && (forall i :: i in kept <==> i in active && Polled(turns[i], ReplyFor(sweep, i)).1 == Pending)
      && Increasing(kept)
  {
    hide Polled;
    if active != [] {
      var n := |active| - 1;
      var front := active[..n];
      StillPendingIsFilter(turns, front, sweep);
      assert active == front + [active[n]];
      forall i | i in front
        ensures i < active[n]
      {
        var k :| 0 <= k < n && active[k] == i;
      }
      var kept := StillPending(turns, front, sweep);
      hide StillPending;
      IncreasingGrows(kept, active[n]);
    }
  }

  lemma IncreasingGrows(s: seq<nat>, x: nat)
    requires Increasing(s) && forall i :: i in s ==> i < x
    ensures Increasing(s + [x])
  {
    assert forall k :: 0 <= k < |s| ==> s[k] in s;
  }

  /** The turns after a pass, and the number of failures in it. */
  function AfterPolls(turns: seq<Turn>, active: seq<nat>, sweep: Sweep): (updated: seq<Turn>)
    requires forall k :: 0 <= k < |active| ==> active[k] < |turns|
    ensures |updated| == |turns|
  {
    if active == [] then turns
    else
      var last := active[|active| - 1];
      AfterPolls(turns, active[..|active| - 1], sweep)[last := Polled(turns[last], ReplyFor(sweep, last)).0]
  }

  function FailedPolls(turns: seq<Turn>, active: seq<nat>, sweep: Sweep): nat
    requires forall k :: 0 <= k < |active| ==> active[k] < |turns|
  {
    if active == [] then 0
    else
      var last := active[|active| - 1];
      FailedPolls(turns, active[..|active| - 1], sweep)
      + if Polled(turns[last], ReplyFor(sweep, last)).1 == Failure then 1 else 0
  }

  lemma {:induction false} AfterPollsAt(turns: seq<Turn>, active: seq<nat>, sweep: Sweep)
    requires forall k :: 0 <= k < |active| ==> active[k] < |turns|
    ensures forall i :: 0 <= i < |turns| ==>
      AfterPolls(turns, active, sweep)[i] == if i in active then Polled(turns[i], ReplyFor(sweep, i)).0 else turns[i]
    ensures FailedPolls(turns, active, sweep) == 0
       <==> forall i :: i in active ==> Polled(turns[i], ReplyFor(sweep, i)).1 != Failure
  {
    hide Polled;
    if active != [] {
      var n := |active| - 1;
      AfterPollsAt(turns, active[..n], sweep);
      assert active == active[..n] + [active[n]];
    }
  }

  ghost predicate ValidActive(turns: seq<Turn>, active: seq<nat>) {
    && Increasing(active)
    && (forall k :: 0 <= k < |active| ==>
         active[k] < |turns| && turns[active[k]].workflowId != "" && turns[active[k]].handoffId != "")
  }

  /** A failure has been recorded exactly when some turn that is no longer active is not good. */
  ghost predicate Tracks(turns: seq<Turn>, active: seq<nat>, failures: nat) {
    failures == 0 <==> forall i :: 0 <= i < |turns| && i !in active ==> Good(turns[i])
  }

  lemma PolledVerdict(t: Turn, reply: Reply)
    requires t.workflowId != "" && t.handoffId != ""
    ensures var (u, verdict) := Polled(t, reply);
      && u.workflowId != "" && u.handoffId != ""
      && (verdict == Done ==> Good(u))
      && (verdict == Failure ==> !Good(u))
  {
  }

  lemma NoPolls(turns: seq<Turn>, was: seq<nat>, sweep: Sweep)
    ensures StillPending(turns, was[..0], sweep) == []
    ensures AfterPolls(turns, was[..0], sweep) == turns && FailedPolls(turns, was[..0], sweep) == 0
  {
  }

  lemma OnePoll(turns: seq<Turn>, was: seq<nat>, r: nat, sweep: Sweep)
    requires r < |was| && Increasing(was) && forall k :: 0 <= k < |was| ==> was[k] < |turns|
    ensures var idx := was[r]; var (turn, verdict) := Polled(turns[idx], ReplyFor(sweep, idx));
      && AfterPolls(turns, was[..r], sweep)[idx] == turns[idx]
      && AfterPolls(turns, was[..r + 1], sweep) == AfterPolls(turns, was[..r], sweep)[idx := turn]
      && StillPending(turns, was[..r + 1], sweep)
         == StillPending(turns, was[..r], sweep) + (if verdict == Pending then [idx] else [])
      && FailedPolls(turns, was[..r + 1], sweep)
         == FailedPolls(turns, was[..r], sweep) + (if verdict == Failure then 1 else 0)
  {
    hide Polled;
    assert was[..r + 1][..r] == was[..r];
    AfterPollsAt(turns, was[..r], sweep);
  }

  /** One pass over the active slice. It reuses the slice as its own output: afterwards the first m slots
      hold exactly the indices that are still pending, and every polled turn, and no other, is updated. */
  method PollSweep(turns: seq<Turn>, active: array<nat>, n: nat, sweep: Sweep)
    returns (updated: seq<Turn>, m: nat, failures: nat)
    requires n <= active.Length && ValidActive(turns, active[..n])
    modifies active
    ensures m <= n && active[..m] == StillPending(turns, old(active[..n]), sweep)
    ensures updated == AfterPolls(turns, old(active[..n]), sweep)
    ensures failures == FailedPolls(turns, old(active[..n]), sweep)
  {
    hide Polled;
    hide StillPending;
    hide AfterPolls;
    hide FailedPolls;
    ghost var was := active[..n];
    NoPolls(turns, was, sweep);
    updated, m, failures := turns, 0, 0;
    var r := 0;
    while r < n
      invariant m <= r <= n
      invariant forall k :: r <= k < n ==> active[k] == was[k]
      invariant active[..m] == StillPending(turns, was[..r], sweep)
      invariant updated == AfterPolls(turns, was[..r], sweep)
      invariant failures == FailedPolls(turns, was[..r], sweep)
    {
      var idx := active[r];
      OnePoll(turns, was, r, sweep);
      var (turn, verdict) := Polled(updated[idx], ReplyFor(sweep, idx));
      updated := updated[idx := turn];
      if verdict == Failure {
        failures := failures + 1;
      } else if verdict == Pending {
        active[m] := idx;
        m := m + 1;
        assert active[..m][..m - 1] == active[..m - 1] && active[..m][m - 1] == idx;
      }
      r := r + 1;
    }
    assert was[..r] == was;
  }

  /** What a pass does to the turns that it does not keep. */
  lemma SweepSettles(turns: seq<Turn>, active: seq<nat>, sweep: Sweep, i: nat)
    requires ValidActive(turns, active) && i < |turns| && i !in StillPending(turns, active, sweep)
    ensures Good(AfterPolls(turns, active, sweep)[i])
       <==> if i in active then Polled(turns[i], ReplyFor(sweep, i)).1 != Failure else Good(turns[i])
  {
    hide Polled;
    hide Good;
    StillPendingIsFilter(turns, active, sweep);
    AfterPollsAt(turns, active, sweep);
    if i in active {
      PolledVerdict(turns[i], ReplyFor(sweep, i));
    }
  }

  lemma SweepKeepsIds(turns: seq<Turn>, active: seq<nat>, sweep: Sweep)
    requires ValidActive(turns, active)
    ensures ValidActive(AfterPolls(turns, active, sweep), StillPending(turns, active, sweep))
  {
    hide Polled;
    StillPendingIsFilter(turns, active, sweep);
    AfterPollsAt(turns, active, sweep);
    var kept, updated := StillPending(turns, active, sweep), AfterPolls(turns, active, sweep);
    forall k | 0 <= k < |kept|
      ensures kept[k] < |turns| && updated[kept[k]].workflowId != "" && updated[kept[k]].handoffId != ""
    {
      assert kept[k] in kept;
      PolledVerdict(turns[kept[k]], ReplyFor(sweep, kept[k]));
    }
  }

  lemma SweepTracks(turns: seq<Turn>, active: seq<nat>, sweep: Sweep, updated: seq<Turn>, failures: nat, more: nat)
    requires ValidActive(turns, active) && Tracks(turns, active, failures)
    requires updated == AfterPolls(turns, active, sweep) && more == FailedPolls(turns, active, sweep)
    ensures ValidActive(updated, StillPending(turns, active, sweep))
    ensures Tracks(updated, StillPending(turns, active, sweep), failures + more)
  {
    hide Polled;
    hide Good;
    SweepKeepsIds(turns, active, sweep);
    StillPendingIsFilter(turns, active, sweep);
    AfterPollsAt(turns, active, sweep);
    var kept := StillPending(turns, active, sweep);
    forall i | 0 <= i < |turns| && i !in kept
      ensures Good(updated[i])
        <==> if i in active then Polled(turns[i], ReplyFor(sweep, i)).1 != Failure else Good(turns[i])
    {
      SweepSettles(turns, active, sweep, i);
    }
    hide StillPending;
    hide AfterPolls;
    hide FailedPolls;
    hide ValidActive;
    if failures > 0 {
      var i :| 0 <= i < |turns| && i !in active && !Good(turns[i]);
      assert i !in kept && !Good(updated[i]);
    } else if more > 0 {
      var i :| i in active && Polled(turns[i], ReplyFor(sweep, i)).1 == Failure;
      assert i !in kept && !Good(updated[i]);
    }
  }

  // ---------- what becomes of one turn ----------

  /** The end of a turn that is being polled: what its own replies make of it, pass by pass, until it settles,
      the deadline passes or the wait fails. */
  function Fate(t: Turn, sweeps: seq<Sweep>, i: nat): Turn
    decreases |sweeps|
  {
    if sweeps == [] then t
    else
      var (u, verdict) := Polled(t, ReplyFor(sweeps[0], i));
      if verdict != Pending then u
      else if sweeps[0].deadlinePassed then u.(status := "timeout")
      else if sweeps[0].waitFailed then u.(status := "failed")
      else Fate(u, sweeps[1..], i)
  }

  /** A turn as its start leaves it. */
  function Started(agent: string, round: nat, reply: Reply): Turn {
    var turn := Turn(agent, round, "", "", "", "", "");
    if reply.None? then turn.(status := "failed")
    else
      var t := Updated(turn, reply.value);
      if t.handoffId == "" || t.workflowId == "" then t.(status := FirstNonEmpty(t.status, "failed")) else t
  }

  /** The start was answered, with both ids. */
  predicate Waits(agent: string, round: nat, reply: Reply) {
    reply.Some? && Started(agent, round, reply).handoffId != "" && Started(agent, round, reply).workflowId != ""
  }

  /** The turn in the end. */
  function Ended(agent: string, round: nat, reply: Reply, sweeps: seq<Sweep>, i: nat): Turn {
    var t := Started(agent, round, reply);
    if Waits(agent, round, reply) then Fate(t, sweeps, i) else t
  }

  /** After k passes the turns that are still active have their fate before them, those that are not any more
      have met it, and the others are as they were. */
  ghost predicate FatesKept(turns: seq<Turn>, initial: seq<nat>, updated: seq<Turn>, active: seq<nat>,
                            sweeps: seq<Sweep>, k: nat)
    requires k <= |sweeps|
  {
    && |updated| == |turns| && (forall i :: i in active ==> i in initial)
    && forall i :: 0 <= i < |turns| ==> FateKept(turns, initial, updated, active, sweeps, k, i)
  }

  ghost predicate FateKept(turns: seq<Turn>, initial: seq<nat>, updated: seq<Turn>, active: seq<nat>,
                           sweeps: seq<Sweep>, k: nat, i: nat)
    requires k <= |sweeps| && i < |turns| == |updated|
  {
    if i in active then Fate(turns[i], sweeps, i) == Fate(updated[i], sweeps[k..], i)
    else updated[i] == if i in initial then Fate(turns[i], sweeps, i) else turns[i]
  }

  lemma FatesBegin(turns: seq<Turn>, active: seq<nat>, sweeps: seq<Sweep>)
    ensures FatesKept(turns, active, turns, active, sweeps, 0)
  {
    hide Fate;
    assert sweeps[0..] == sweeps;
  }

  /** One pass, after which the loop goes on. */
  lemma SweepKeepsFates(turns: seq<Turn>, initial: seq<nat>, before: seq<Turn>, was: seq<nat>, sweeps: seq<Sweep>,
                        k: nat)
    requires k < |sweeps| && ValidActive(before, was) && FatesKept(turns, initial, before, was, sweeps, k)
    ensures var updated, active := AfterPolls(before, was, sweeps[k]), StillPending(before, was, sweeps[k]);
      && ((!sweeps[k].deadlinePassed && !sweeps[k].waitFailed) || active == [] ==>
            FatesKept(turns, initial, updated, active, sweeps, k + 1))
      && (sweeps[k].deadlinePassed || sweeps[k].waitFailed ==>
            var status := if sweeps[k].deadlinePassed then "timeout" else "failed";
            forall given :: GivenUp(updated, active, status, given) ==>
              FatesKept(turns, initial, given, [], sweeps, k + 1))
  {
    hide Polled;
    StillPendingIsFilter(before, was, sweeps[k]);
    AfterPollsAt(before, was, sweeps[k]);
    var updated, active := AfterPolls(before, was, sweeps[k]), StillPending(before, was, sweeps[k]);
    assert sweeps[k..][0] == sweeps[k] && sweeps[k..][1..] == sweeps[k + 1..];
    hide StillPending;
    hide AfterPolls;
    hide ValidActive;
    forall i | 0 <= i < |turns|
      ensures i in active && !sweeps[k].deadlinePassed && !sweeps[k].waitFailed ==>
        FateKept(turns, initial, updated, active, sweeps, k + 1, i)
      ensures i !in active ==> FateKept(turns, initial, updated, active, sweeps, k + 1, i)
      ensures i in active && sweeps[k].deadlinePassed ==> Fate(turns[i], sweeps, i) == updated[i].(status := "timeout")
      ensures i in active && !sweeps[k].deadlinePassed && sweeps[k].waitFailed ==>
        Fate(turns[i], sweeps, i) == updated[i].(status := "failed")
    {
      assert FateKept(turns, initial, before, was, sweeps, k, i);
    }
  }

  /** The active turns end with that status, and the others as they are. */
  ghost predicate GivenUp(turns: seq<Turn>, active: seq<nat>, status: string, updated: seq<Turn>) {
    && |updated| == |turns|
    && forall i :: 0 <= i < |turns| ==> updated[i] == if i in active then turns[i].(status := status) else turns[i]
  }

  /** Turn j of round r is what became of the turn of agent j. */
  ghost predicate SeatAt(turns: seq<Turn>, agents: seq<string>, starts: seq<seq<Reply>>, sweeps: seq<seq<Sweep>>,
                         r: nat, j: nat)
    requires j < |agents| && r < |starts| == |sweeps| && j < |starts[r]|
  {
    var k := r * |agents| + j;
    0 <= k < |turns| && turns[k] == Ended(agents[j], r + 1, starts[r][j], sweeps[r], k)
  }

  ghost predicate Scheduled(agents: seq<string>, rounds: nat, starts: seq<seq<Reply>>, sweeps: seq<seq<Sweep>>) {
    && |starts| == |sweeps| == rounds
    && (forall r :: 0 <= r < rounds ==> |starts[r]| == |agents|)
    && forall r :: 0 <= r < rounds ==> |sweeps[r]| > 0 && sweeps[r][|sweeps[r]| - 1].deadlinePassed
  }

  /** Round after round, one turn for each agent in order. */
  ghost predicate Seated(turns: seq<Turn>, agents: seq<string>, starts: seq<seq<Reply>>, sweeps: seq<seq<Sweep>>,
                         rounds: nat)
    requires Scheduled(agents, |starts|, starts, sweeps) && rounds <= |starts|
  {
    && |turns| == rounds * |agents|
    && forall r: nat, j: nat :: r < rounds && j < |agents| ==> SeatAt(turns, agents, starts, sweeps, r, j)
  }

  /** The turns of a round, as their starts leave them. */
  ghost predicate RoundStarted(turns: seq<Turn>, from: nat, agents: seq<string>, round: nat, replies: seq<Reply>,
                               active: seq<nat>)
    requires |replies| == |agents|
  {
    && |turns| == from + |agents| && (forall i :: i in active ==> from <= i < |turns|)
    && forall j :: 0 <= j < |agents| ==> StartedAt(turns, from, agents, round, replies, active, j)
  }

  ghost predicate StartedAt(turns: seq<Turn>, from: nat, agents: seq<string>, round: nat, replies: seq<Reply>,
                            active: seq<nat>, j: nat)
    requires j < |agents| == |replies|
  {
    && from + j < |turns| && turns[from + j] == Started(agents[j], round, replies[j])
    && (from + j in active <==> Waits(agents[j], round, replies[j]))
  }

  lemma RoundSeated(before: seq<Turn>, started: seq<Turn>, active: seq<nat>, ended: seq<Turn>, agents: seq<string>,
                    starts: seq<seq<Reply>>, sweeps: seq<seq<Sweep>>, round: nat)
    requires Scheduled(agents, |starts|, starts, sweeps) && round < |starts|
    requires Seated(before, agents, starts, sweeps, round) && before <= started
    requires RoundStarted(started, |before|, agents, round + 1, starts[round], active)
    requires FatesKept(started, active, ended, [], sweeps[round], |sweeps[round]|)
    ensures Seated(ended, agents, starts, sweeps, round + 1)
  {
    assert (round + 1) * |agents| == round * |agents| + |agents|;
    hide Fate;
    hide Started;
    forall r: nat, j: nat | r < round + 1 && j < |agents|
      ensures SeatAt(ended, agents, starts, sweeps, r, j)
    {
      if r < round {
        assert SeatAt(before, agents, starts, sweeps, r, j);
        var k := r * |agents| + j;
        assert FateKept(started, active, ended, [], sweeps[round], |sweeps[round]|, k);
        assert before[k] == started[k];
      } else {
        assert r * |agents| + j == |before| + j;
        assert FateKept(started, active, ended, [], sweeps[round], |sweeps[round]|, |before| + j);
        assert StartedAt(started, |before|, agents, round + 1, starts[round], active, j);
      }
    }
  }

  /** What one poll makes of a turn: its fields are those of the reply, where that has them, and a failed call
      leaves them. A rejected or timed-out attempt is a failure, and ends a turn that is pending; of the others
      a completed turn is done exactly when it has a reply text, a failed or timed-out one is a failure, and
      any other goes on. */
  lemma PollSays(t: Turn, reply: Reply)
    ensures var (u, verdict) := Polled(t, reply);
      && u.agent == t.agent && u.round == t.round
      && (reply.None? ==> u == t.(status := "failed") && verdict == Failure)
      && (reply.Some? ==>
            var s := reply.value; var dead := u.attempt == "rejected" || u.attempt == "timeout";
            var status := if s.status != "" then s.status else t.status;
            && u.workflowId == (if s.workflowId != "" then s.workflowId else t.workflowId)
            && u.handoffId == (if s.handoffId != "" then s.handoffId else t.handoffId)
            && u.attempt == (if s.attempt != "" then s.attempt else t.attempt)
            && u.reply == (if s.reply != "" then s.reply else t.reply)
            && u.status == (if dead && (status == "" || status == "pending") then "failed" else status)
            && (verdict == Done <==> !dead && u.status == "completed" && u.reply != "")
            && (verdict == Pending
                <==> !dead && u.status != "completed" && u.status != "failed" && u.status != "timeout"))
  {
  }

  /** Gives up on the turns that are still active. */
  method GiveUp(turns: seq<Turn>, active: array<nat>, n: nat, status: string) returns (updated: seq<Turn>)
    requires 0 < n <= active.Length && ValidActive(turns, active[..n]) && status != "completed"
    ensures GivenUp(turns, active[..n], status, updated)
    ensures exists i :: 0 <= i < |updated| && !Good(updated[i])
  {
    updated := turns;
    var k := 0;
    while k < n
      invariant k <= n && |updated| == |turns|
      invariant forall i :: 0 <= i < |turns| ==>
        updated[i] == if i in active[..k] then turns[i].(status := status) else turns[i]
    {
      assert active[..k + 1] == active[..k] + [active[k]];
      assert active[k] in active[..n];
      updated := updated[active[k] := updated[active[k]].(status := status)];
      k := k + 1;
    }
    assert active[0] in active[..n];
    assert !Good(updated[active[0]]);
  }

  /** Polls the active turns until none is left, the deadline passes or the wait fails. */
  method PollUntilSettled(turns: seq<Turn>, active: array<nat>, n: nat, sweeps: seq<Sweep>, failures: nat)
    returns (updated: seq<Turn>, total: nat)
    requires n <= active.Length && ValidActive(turns, active[..n]) && Tracks(turns, active[..n], failures)
    requires |sweeps| > 0 && sweeps[|sweeps| - 1].deadlinePassed
    modifies active
    ensures FatesKept(turns, old(active[..n]), updated, [], sweeps, |sweeps|)
    ensures Tracks(updated, [], total)
  {
    hide Good;
    hide StillPending;
    hide AfterPolls;
    hide FailedPolls;
    hide FatesKept;
    hide ValidActive;
    hide Tracks;
    updated, total := turns, failures;
    ghost var initial := active[..n];
    FatesBegin(turns, initial, sweeps);
    var left: nat, k: nat := n, 0;
    while left > 0
      invariant left <= active.Length && k <= |sweeps|
      invariant ValidActive(updated, active[..left]) && Tracks(updated, active[..left], total)
      invariant FatesKept(turns, initial, updated, active[..left], sweeps, k)
      invariant left > 0 ==> k < |sweeps|
      decreases |sweeps| - k
    {
      var sweep := sweeps[k];
      ghost var was, before := active[..left], updated;
      var more;
      updated, left, more := PollSweep(updated, active, left, sweep);
      SweepTracks(before, was, sweep, updated, total, more);
      SweepKeepsFates(turns, initial, before, was, sweeps, k);
      total := total + more;
      k := k + 1;
      if left == 0 {
        assert active[..left] == [];
        break;
      }
      if sweep.deadlinePassed {
        ghost var polled := updated;
        updated := GiveUp(updated, active, left, "timeout");
        NothingTracked(updated, total + left);
        total := total + left;
        FatesMet(turns, initial, updated, sweeps, k);
        return;
      }
      if sweep.waitFailed {
        updated := GiveUp(updated, active, left, "failed");
        NothingTracked(updated, total + left);
        total := total + left;
        FatesMet(turns, initial, updated, sweeps, k);
        return;
      }
    }
    assert active[..left] == [];
    FatesMet(turns, initial, updated, sweeps, k);
  }

  lemma NothingTracked(turns: seq<Turn>, failures: nat)
    requires failures > 0 && exists i :: 0 <= i < |turns| && !Good(turns[i])
    ensures Tracks(turns, [], failures)
  {
    hide Good;
  }

  /** Once no turn is active the number of passes does not matter. */
  lemma FatesMet(turns: seq<Turn>, initial: seq<nat>, updated: seq<Turn>, sweeps: seq<Sweep>, k: nat)
    requires k <= |sweeps| && FatesKept(turns, initial, updated, [], sweeps, k)
    ensures FatesKept(turns, initial, updated, [], sweeps, |sweeps|)
  {
    hide Fate;
    forall i | 0 <= i < |turns|
      ensures FateKept(turns, initial, updated, [], sweeps, |sweeps|, i)
    {
      assert FateKept(turns, initial, updated, [], sweeps, k, i);
    }
  }

  /** Starts one turn per agent. */
  method StartTurns(turns: seq<Turn>, agents: seq<string>, round: nat, replies: seq<Reply>, active: array<nat>,
                    failures: nat)
    returns (updated: seq<Turn>, n: nat, total: nat)
    requires |replies| == |agents| == active.Length && Tracks(turns, [], failures)
    modifies active
    ensures n <= active.Length && turns <= updated
    ensures RoundStarted(updated, |turns|, agents, round, replies, active[..n])
    ensures n <= active.Length && ValidActive(updated, active[..n]) && Tracks(updated, active[..n], total)
  {
    hide RoundStarted;
    hide ValidActive;
    hide Tracks;
    updated, n, total := turns, 0, failures;
    var j := 0;
    assert active[..0] == [];
    NothingStarted(turns, round, agents[..0], replies[..0]);
    while j < |agents|
      invariant n <= j <= |agents| && |updated| == |turns| + j && turns <= updated
      invariant RoundStarted(updated, |turns|, agents[..j], round, replies[..j], active[..n])
      invariant ValidActive(updated, active[..n]) && Tracks(updated, active[..n], total)
    {
      var turn := Turn(agents[j], round, "", "", "", "", "");
      ghost var was, before := active[..n], updated;
      assert forall i :: 0 <= i < |updated| ==> (updated + [turn])[i] == updated[i];
      if replies[j].None? {
        turn := turn.(status := "failed");
        total := total + 1;
        assert !Good(turn);
      } else {
        turn := Updated(turn, replies[j].value);
        if turn.handoffId == "" || turn.workflowId == "" {
          turn := turn.(status := FirstNonEmpty(turn.status, "failed"));
          total := total + 1;
          assert !Good(turn);
        } else {
          active[n] := |updated|;
          n := n + 1;
          assert active[..n] == was + [|updated|];
        }
      }
      assert turn == Started(agents[j], round, replies[j]);
      hide Good;
      hide Updated;
      hide Started;
      OneMoreStarted(before, |turns|, agents, round, replies, was, turn, active[..n], j);
      updated := updated + [turn];
      AppendTracks(before, was, turn, active[..n], if n == |was| then total - 1 else total, total);
      j := j + 1;
    }
    assert agents[..j] == agents && replies[..j] == replies;
  }

  lemma NothingStarted(turns: seq<Turn>, round: nat, agents: seq<string>, replies: seq<Reply>)
    requires agents == [] && replies == []
    ensures RoundStarted(turns, |turns|, agents, round, replies, []) && ValidActive(turns, [])
  {
  }

  lemma OneMoreStarted(turns: seq<Turn>, from: nat, agents: seq<string>, round: nat, replies: seq<Reply>,
                       was: seq<nat>, turn: Turn, active: seq<nat>, j: nat)
    requires j < |agents| == |replies| && RoundStarted(turns, from, agents[..j], round, replies[..j], was)
    requires turn == Started(agents[j], round, replies[j])
    requires active == if Waits(agents[j], round, replies[j]) then was + [|turns|] else was
    ensures RoundStarted(turns + [turn], from, agents[..j + 1], round, replies[..j + 1], active)
  {
    hide Started;
    hide Waits;
    var all := turns + [turn];
    var some, answers := agents[..j + 1], replies[..j + 1];
    forall k | 0 <= k < |some|
      ensures StartedAt(all, from, some, round, answers, active, k)
    {
      if k < j {
        assert agents[..j][k] == agents[..j + 1][k] && replies[..j][k] == replies[..j + 1][k];
        assert StartedAt(turns, from, agents[..j], round, replies[..j], was, k);
      }
    }
  }

  lemma AppendTracks(turns: seq<Turn>, active: seq<nat>, turn: Turn, active': seq<nat>, failures: nat, failures': nat)
    requires ValidActive(turns, active) && Tracks(turns, active, failures)
    requires || (active' == active && !Good(turn) && failures' == failures + 1)
             || (active' == active + [|turns|] && turn.workflowId != "" && turn.handoffId != ""
                 && failures' == failures)
    ensures ValidActive(turns + [turn], active') && Tracks(turns + [turn], active', failures')
  {
    var all := turns + [turn];
    if active' == active {
      assert |turns| !in active && !Good(all[|turns|]);
    } else {
      assert forall k :: 0 <= k < |active| ==> active'[k] == active[k];
      assert forall i :: 0 <= i < |all| && i !in active' ==> i < |turns| && all[i] == turns[i];
      assert forall i :: 0 <= i < |turns| && i !in active ==> i !in active' && all[i] == turns[i];
    }
  }

  /** The turns are those of every agent in every round, in order, each as its own start and its own replies
      left it, whatever the other turns do; and the check is ok if and only if every one of them is good:
      completed, with a reply, without a rejected or timed-out attempt, and with its ids. */
  method CheckMultiAgentA2A(agents: seq<string>, rounds: nat, starts: seq<seq<Reply>>, sweeps: seq<seq<Sweep>>)
    returns (ok: bool, turns: seq<Turn>)
    requires Scheduled(agents, rounds, starts, sweeps)
    ensures Seated(turns, agents, starts, sweeps, rounds)
    ensures ok <==> forall i :: 0 <= i < |turns| ==> Good(turns[i])
  {
    turns := [];
    var failures, round := 0, 0;
    while round < rounds
      invariant round <= rounds && Seated(turns, agents, starts, sweeps, round)
      invariant Tracks(turns, [], failures)
    {
      hide Seated;
      hide RoundStarted;
      hide FatesKept;
      ghost var before := turns;
      var active := new nat[|agents|](_ => 0);
      var n;
      turns, n, failures := StartTurns(turns, agents, round + 1, starts[round], active, failures);
      ghost var started, waiting := turns, active[..n];
      turns, failures := PollUntilSettled(turns, active, n, sweeps[round], failures);
      RoundSeated(before, started, waiting, turns, agents, starts, sweeps, round);
      round := round + 1;
    }
    return failures == 0, turns;
  }
}
