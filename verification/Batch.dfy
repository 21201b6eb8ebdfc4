/** A fetched batch of tasks (`poll_and_execute_task`): all tasks run interleaved under a join that fails fast.

    The join may return the error of a failed task at any step after the failure.  It then drops every task it
    still drives, but not the detached tasks. */
module Batch {
  import opened Wrappers
  import opened Retry
  import CA = ClaimAnswer
  import TaskRuns
  import Reply
  import opened Http

  type Task = CA.Task
  type Phase = CA.Phase

  datatype Join = Running | Returned(result: Result<(), CA.Error>)

  datatype State = State(tasks: seq<Task>, join: Join)

  datatype Label = TaskStep(i: nat, what: CA.Label) | JoinFails(i: nat) | JoinSucceeds

  /** Still driven by the join. */
  predicate IsPending(p: Phase) {
    p.Racing? || (p.Replying? && !p.detached)
  }

  /** Handed over to a detached task, which may be running or have ended. */
  predicate IsHandedOver(p: Phase) {
    p.Detached? || (p.Replying? && p.detached) || p.DetachedEnd?
  }

  predicate IsSettled(p: Phase) {
    p.Answered? || IsHandedOver(p)
  }

  function Cancel(tasks: seq<Task>): (r: seq<Task>)
    ensures |r| == |tasks|
    ensures forall i :: 0 <= i < |tasks| ==>
              r[i] == if IsPending(tasks[i].phase) then CA.Task(CA.Cancelled, tasks[i].trace) else tasks[i]
  {
    seq(|tasks|, i requires 0 <= i < |tasks| =>
      if IsPending(tasks[i].phase) then CA.Task(CA.Cancelled, tasks[i].trace) else tasks[i])
  }

  function Next(retries: nat, s: State, l: Label): Option<State> {
    match l
    case TaskStep(i, what) =>
      if i >= |s.tasks| then None
      else
        (match CA.Step(retries, s.tasks[i], what)
         case None => None
         case Some(t) => Some(s.(tasks := s.tasks[i := t])))
    case JoinFails(i) =>
      if i < |s.tasks| && s.join.Running? && s.tasks[i].phase.Failed?
      then Some(State(Cancel(s.tasks), Returned(Failure(s.tasks[i].phase.error))))
      else None
    case JoinSucceeds =>
      if s.join.Running? && (forall i :: 0 <= i < |s.tasks| ==> IsSettled(s.tasks[i].phase))
      then Some(s.(join := Returned(Success(()))))
      else None
  }

  function Run(retries: nat, s: State, labels: seq<Label>): Option<State> {
    if labels == [] then Some(s)
    else
      match Run(retries, s, labels[..|labels| - 1])
      case None => None
      case Some(before) => Next(retries, before, labels[|labels| - 1])
  }

  /** A batch of `n` tasks that has just been fetched. */
  function Fetched(n: nat): State {
    State(Repeat(n, CA.FRESH), Running)
  }

  // ---------- safety of all runs ----------

  ghost predicate TasksSafe(retries: nat, tasks: seq<Task>) {
    forall i :: 0 <= i < |tasks| ==> CA.Inv(retries, tasks[i])
  }

  predicate JoinFits(s: State) {
    match s.join
    case Running => forall i :: 0 <= i < |s.tasks| ==> !s.tasks[i].phase.Cancelled?
    case Returned(Success(_)) => forall i :: 0 <= i < |s.tasks| ==> IsSettled(s.tasks[i].phase)
    case Returned(Failure(e)) =>
      && (forall i :: 0 <= i < |s.tasks| ==> !IsPending(s.tasks[i].phase))
      && (exists i :: 0 <= i < |s.tasks| && s.tasks[i].phase == CA.Failed(e))
  }

  ghost predicate Inv(retries: nat, s: State) {
    TasksSafe(retries, s.tasks) && JoinFits(s)
  }

  lemma FetchedIsSafe(retries: nat, n: nat)
    ensures Inv(retries, Fetched(n)) && |Fetched(n).tasks| == n
  {
    forall i | 0 <= i < n ensures CA.Inv(retries, Fetched(n).tasks[i]) {
      CA.FreshIsSafe(retries);
    }
  }

  lemma CancelIsSafe(retries: nat, t: Task)
    requires CA.Inv(retries, t) && IsPending(t.phase)
    ensures CA.Inv(retries, CA.Task(CA.Cancelled, t.trace))
  {
  }

  /** A step never revives a task, and only claiming hands one over. */
  lemma StepMoves(retries: nat, t: Task, l: CA.Label)
    requires CA.Step(retries, t, l).Some?
    ensures var next := CA.Step(retries, t, l).value;
            && !next.phase.Cancelled?
            && (IsPending(t.phase) || (IsHandedOver(t.phase) && IsHandedOver(next.phase)))
  {
  }

  lemma NextKeepsTasks(retries: nat, s: State, l: Label)
    requires TasksSafe(retries, s.tasks) && Next(retries, s, l).Some?
    ensures TasksSafe(retries, Next(retries, s, l).value.tasks)
  {
    var after := Next(retries, s, l).value;
    if l.TaskStep? {
      CA.StepKeeps(retries, s.tasks[l.i], l.what);
    }
    forall j | 0 <= j < |after.tasks| ensures CA.Inv(retries, after.tasks[j]) {
      if l.JoinFails? && IsPending(s.tasks[j].phase) {
        CancelIsSafe(retries, s.tasks[j]);
      }
    }
  }

  lemma NextKeepsJoin(retries: nat, s: State, l: Label)
    requires JoinFits(s) && Next(retries, s, l).Some?
    ensures JoinFits(Next(retries, s, l).value)
    ensures |Next(retries, s, l).value.tasks| == |s.tasks|
  {
    var after := Next(retries, s, l).value;
    match l
    case TaskStep(i, what) =>
      StepMoves(retries, s.tasks[i], what);
      if s.join.Returned? && s.join.result.Failure? {
        var j :| 0 <= j < |s.tasks| && s.tasks[j].phase == CA.Failed(s.join.result.error);
        assert after.tasks[j] == s.tasks[j];
      }
    case JoinFails(i) => assert after.tasks[i] == s.tasks[i];
    case JoinSucceeds =>
  }

  lemma {:induction false} AllRunsSafe(retries: nat, s: State, labels: seq<Label>)
    requires Inv(retries, s) && Run(retries, s, labels).Some?
    ensures Inv(retries, Run(retries, s, labels).value)
    ensures |Run(retries, s, labels).value.tasks| == |s.tasks|
    decreases |labels|
  {
    if labels != [] {
      var earlier, last := labels[..|labels| - 1], labels[|labels| - 1];
      AllRunsSafe(retries, s, earlier);
      var before := Run(retries, s, earlier).value;
      NextKeepsTasks(retries, before, last);
      NextKeepsJoin(retries, before, last);
    }
  }

  /** Some interleaving of a batch of `n` tasks leads to `s`. */
  ghost predicate Reachable(retries: nat, n: nat, s: State) {
    exists labels :: Run(retries, Fetched(n), labels) == Some(s)
  }

  lemma ReachableIsSafe(retries: nat, n: nat, s: State)
    requires Reachable(retries, n, s)
    ensures Inv(retries, s) && |s.tasks| == n
  {
    var labels :| Run(retries, Fetched(n), labels) == Some(s);
    FetchedIsSafe(retries, n);
    AllRunsSafe(retries, Fetched(n), labels);
  }

  /** The labels of a run that concern task `i`. */
  function Mine(labels: seq<Label>, i: nat): seq<CA.Label> {
    if labels == [] then []
    else
      var last := labels[|labels| - 1];
      Mine(labels[..|labels| - 1], i) + if last.TaskStep? && last.i == i then [last.what] else []
  }

  /** What has come in for task `i` in a run: the answers to its PUTs, what its target answered, the target's body. */
  function HasComeIn(labels: seq<Label>, i: nat): TaskRuns.Incoming {
    TaskRuns.HasComeIn(Mine(labels, i))
  }

  lemma MineMore(labels: seq<Label>, l: Label, i: nat)
    ensures Mine(labels + [l], i) == if l.TaskStep? && l.i == i then Mine(labels, i) + [l.what] else Mine(labels, i)
  {
    assert (labels + [l])[..|labels|] == labels;
  }

  /** The task is as its own steps have left it, or has been cancelled in that state. */
  predicate IsOrWas(now: Task, t: Task) {
    now.trace == t.trace && (now.phase == t.phase || (now.phase.Cancelled? && IsPending(t.phase)))
  }

  lemma NextRunsAlone(retries: nat, s: State, l: Label, i: nat, t: Task) returns (u: Task)
    requires Next(retries, s, l).Some? && i < |s.tasks| && IsOrWas(s.tasks[i], t)
    ensures if l.TaskStep? && l.i == i then CA.Step(retries, t, l.what) == Some(u) else u == t
    ensures i < |Next(retries, s, l).value.tasks| && IsOrWas(Next(retries, s, l).value.tasks[i], u)
  {
    u := if l.TaskStep? && l.i == i then CA.Step(retries, s.tasks[i], l.what).value else t;
  }

  lemma TaskRunsOn(retries: nat, t: Task, labels: seq<CA.Label>, l: CA.Label)
    requires CA.RunTask(retries, CA.FRESH, labels) == Some(t)
    ensures CA.RunTask(retries, CA.FRESH, labels + [l]) == CA.Step(retries, t, l)
  {
    assert (labels + [l])[..|labels|] == labels;
  }

  /** In a batch a task runs as it would alone, until it is cancelled. */
  lemma {:induction false} RunsAlone(retries: nat, n: nat, labels: seq<Label>, i: nat) returns (t: Task)
    requires Run(retries, Fetched(n), labels).Some? && i < n
    ensures CA.RunTask(retries, CA.FRESH, Mine(labels, i)) == Some(t)
    ensures i < |Run(retries, Fetched(n), labels).value.tasks|
    ensures IsOrWas(Run(retries, Fetched(n), labels).value.tasks[i], t)
    decreases |labels|
  {
    if labels == [] {
      t := CA.FRESH;
    } else {
      var earlier, last := labels[..|labels| - 1], labels[|labels| - 1];
      assert labels == earlier + [last];
      var before := RunsAlone(retries, n, earlier, i);
      MineMore(earlier, last, i);
      t := NextRunsAlone(retries, Run(retries, Fetched(n), earlier).value, last, i, before);
      if last.TaskStep? && last.i == i {
        TaskRunsOn(retries, before, Mine(earlier, i), last.what);
      }
    }
  }

  /** What has come in for a task decides what becomes of it, in whatever company: its phase, or that in which it was
      cancelled; and its trace shows what the target answered. */
  lemma EveryTaskIsDecided(retries: nat, n: nat, labels: seq<Label>, s: State, i: nat) returns (phase: Phase)
    requires Run(retries, Fetched(n), labels) == Some(s) && i < |s.tasks|
    ensures s.tasks[i].phase == phase || (s.tasks[i].phase.Cancelled? && IsPending(phase))
    ensures TaskRuns.Decides(retries, HasComeIn(labels, i), phase)
    ensures TaskRuns.Shows(HasComeIn(labels, i), phase, CA.Seen(s.tasks[i].trace))
  {
    ReachableIsSafe(retries, n, s);
    var t := RunsAlone(retries, n, labels, i);
    TaskRuns.RunIsDecided(retries, Mine(labels, i), t);
    phase := t.phase;
  }

  /** In every interleaving, the PUTs started for a task are at most max(1, retries) claims followed by at most
      max(1, retries) attempts to send one and the same message, which says what the target answered; when one of
      these starts at most one claim attempt is open, and none if the claim branch won; the target is asked at
      most once; `send_reply` is entered exactly when the execution ends, so at most once. */
  lemma TraceOfEveryTask(retries: nat, n: nat, labels: seq<Label>, s: State, i: nat)
    returns (msg: Option<Reply.TaskResult>)
    requires Run(retries, Fetched(n), labels) == Some(s) && i < |s.tasks|
    ensures var trace := s.tasks[i].trace;
            var f := CA.Seen(trace);
            var incoming := HasComeIn(labels, i);
            && CA.Puts(trace) == Repeat(f.claims, None) + Repeat(f.results, msg)
            && f.claims <= MaxAttempts(retries) && f.results <= MaxAttempts(retries)
            && (f.results > 0 ==> msg.Some? && TaskRuns.Says(incoming.out, incoming.body, msg.value))
            && (forall p: nat :: p < |trace| ==> CA.ClaimSettledBeforeResult(trace, p))
            && f.requests <= 1 && f.entered == f.done <= 1
  {
    ReachableIsSafe(retries, n, s);
    assert CA.Inv(retries, s.tasks[i]);
    var phase := EveryTaskIsDecided(retries, n, labels, s, i);
    var f := CA.Seen(s.tasks[i].trace);
    msg := CA.TheMessage(f);
    if f.results > 0 {
      MessageSays(HasComeIn(labels, i), f, msg.value);
    }
  }

  lemma MessageSays(i: TaskRuns.Incoming, f: CA.Facts, msg: Reply.TaskResult)
    requires f.outcome == i.out && f.body == (if i.body.Some? then i.body.value else None)
    requires CA.TheMessage(f) == Some(msg)
    ensures TaskRuns.Says(i.out, i.body, msg)
  {
  }

  /** Whatever attempt of whatever task gets through, and in whatever interleaving, the asking side unpacks it to
      what the target answered, status, headers and body, exactly if its Content-Length is absent or right, and
      otherwise answers 400 or 500; and to 502 if the target was not reached. */
  lemma WhatTheAskerGets(retries: nat, n: nat, labels: seq<Label>, s: State, i: nat, p: nat,
                         earlier: seq<Reply.TaskResult>)
    requires Run(retries, Fetched(n), labels) == Some(s) && i < |s.tasks|
    requires p < |CA.Puts(s.tasks[i].trace)| && CA.Puts(s.tasks[i].trace)[p].Some?
    ensures var incoming := HasComeIn(labels, i);
            var got := Reply.Unpacked(earlier + [CA.Puts(s.tasks[i].trace)[p].value]);
            incoming.out.Some? &&
            match incoming.out.value
            case NotReached => got == Failure(502)
            case Reached(status, headers) =>
              && incoming.body.Some? && incoming.body.value.Some?
              && var sent := Reply.HttpResponse(status, headers, incoming.body.value.value);
                 if Reply.SaysItsLength(sent) then got == Success(sent) else got in {Failure(400), Failure(500)}
  {
    var msg := TraceOfEveryTask(retries, n, labels, s, i);
    assert CA.Puts(s.tasks[i].trace)[p] == msg;
    Reply.UnpackedExactly(earlier + [msg.value]);
  }

  /** What becomes of a task. */
  datatype Fate = WasAnswered | WasHandedOver | HasFailed | WasCancelled

  /** The fate shows in the phase, and in what the trace counts: acknowledged claims, detached tasks created and
      replies accepted. */
  predicate HasFate(t: Task, fate: Fate) {
    var f := CA.Seen(t.trace);
    match fate
    case WasAnswered => t.phase.Answered? && f.accepted == 1 && f.spawned == 0
    case WasHandedOver => IsHandedOver(t.phase) && f.acks == 1 && f.spawned == 1
    case HasFailed => t.phase.Failed? && f.accepted == 0 && f.spawned == 0
    case WasCancelled => t.phase.Cancelled? && f.accepted == 0 && f.spawned == 0
  }

  ghost predicate HasOneFate(t: Task, among: set<Fate>) {
    exists fate :: fate in among && HasFate(t, fate) && forall other :: HasFate(t, other) ==> other == fate
  }

  /** Batch conservation: when the join has returned Ok, every task had its claim acknowledged and owns exactly
      one detached replier, or its reply was accepted; when it has returned an error, that is the error of some
      failed task, and every task has exactly one fate: answered, handed over, failed or cancelled. */
  lemma BatchConservation(retries: nat, n: nat, s: State)
    requires Reachable(retries, n, s) && s.join.Returned?
    ensures |s.tasks| == n
    ensures match s.join.result
            case Success(_) =>
              forall i :: 0 <= i < |s.tasks| ==> HasOneFate(s.tasks[i], {WasAnswered, WasHandedOver})
            case Failure(e) =>
              && (exists i :: 0 <= i < |s.tasks| && s.tasks[i].phase == CA.Failed(e))
              && (forall i :: 0 <= i < |s.tasks| ==>
                    HasOneFate(s.tasks[i], {WasAnswered, WasHandedOver, HasFailed, WasCancelled}))
  {
    ReachableIsSafe(retries, n, s);
    forall i | 0 <= i < |s.tasks|
      ensures !IsPending(s.tasks[i].phase) ==> HasOneFate(s.tasks[i], {FateOf(s.tasks[i])})
    {
      FateIsFitting(retries, s.tasks[i]);
    }
  }

  function FateOf(t: Task): Fate {
    if t.phase.Answered? then WasAnswered
    else if IsHandedOver(t.phase) then WasHandedOver
    else if t.phase.Failed? then HasFailed
    else WasCancelled
  }

  lemma FateIsFitting(retries: nat, t: Task)
    requires CA.Inv(retries, t)
    ensures !IsPending(t.phase) ==> HasOneFate(t, {FateOf(t)})
  {
    if !IsPending(t.phase) {
      assert HasFate(t, FateOf(t));
    }
  }

  // ---------- isolation of detached tasks ----------

  /** Once a task has been handed over, what becomes of it depends on its own steps alone: siblings that fail, the
      join that returns and the cancellation that follows leave no mark on it.  In particular it is never failed
      or cancelled. */
  lemma {:induction false} DetachedTaskIsIsolated(retries: nat, s: State, labels: seq<Label>, i: nat)
    requires i < |s.tasks| && IsHandedOver(s.tasks[i].phase)
    requires Run(retries, s, labels).Some?
    ensures i < |Run(retries, s, labels).value.tasks|
    ensures CA.RunTask(retries, s.tasks[i], Mine(labels, i)) == Some(Run(retries, s, labels).value.tasks[i])
    ensures IsHandedOver(Run(retries, s, labels).value.tasks[i].phase)
    decreases |labels|
  {
    if labels != [] {
      var earlier, last := labels[..|labels| - 1], labels[|labels| - 1];
      DetachedTaskIsIsolated(retries, s, earlier, i);
      var before := Run(retries, s, earlier).value;
      if last.TaskStep? {
        StepMoves(retries, before.tasks[last.i], last.what);
      }
      if last.TaskStep? && last.i == i {
        var mine := Mine(labels, i);
        assert mine[..|mine| - 1] == Mine(earlier, i) && mine[|mine| - 1] == last.what;
      } else {
        assert Mine(labels, i) == Mine(earlier, i);
      }
    }
  }

  // ---------- all runs end, and end well ----------

  function PutRank(retries: nat, put: Loop<()>): nat {
    var m := MaxAttempts(retries);
    match put
    case InFlight(k) => if k <= m then 2 * (m - k) + 2 else 0
    case Backoff(k) => if k <= m then 2 * (m - k) + 1 else 0
    case Finished(_) => 0
  }

  function ExecutionRank(x: CA.Execution): nat {
    if x.Idle? then 2 else 1
  }

  /** A bound on the steps a task can still take. */
  function Rank(retries: nat, p: Phase): nat {
    var reply := 2 * MaxAttempts(retries) + 2;
    match p
    case Racing(Unpolled, x) => 2 * MaxAttempts(retries) + 1 + ExecutionRank(x) + reply
    case Racing(Claiming(put), x) => PutRank(retries, put) + ExecutionRank(x) + reply
    case Detached(x) => ExecutionRank(x) + reply
    case Replying(_, Reading(_)) => reply - 1
    case Replying(_, Sending(_, put)) => PutRank(retries, put)
    case _ => 0
  }

  lemma ClaimRankFalls(retries: nat, claim: CA.Claim, x: CA.Execution, l: CA.Label, f: CA.Facts)
    requires CA.PhaseFits(retries, CA.Racing(claim, x), f) && CA.ClaimEffect(retries, claim, x, l).Some?
    ensures Rank(retries, CA.ClaimEffect(retries, claim, x, l).value.phase) < Rank(retries, CA.Racing(claim, x))
  {
  }

  lemma ExecutionRankFalls(retries: nat, p: Phase, l: CA.Label, f: CA.Facts)
    requires CA.PhaseFits(retries, p, f) && (p.Racing? || p.Detached?) && CA.ExecutionEffect(p, l).Some?
    ensures Rank(retries, CA.ExecutionEffect(p, l).value.phase) < Rank(retries, p)
  {
  }

  lemma ReplyRankFalls(retries: nat, d: bool, stage: CA.Stage, l: CA.Label, f: CA.Facts)
    requires CA.PhaseFits(retries, CA.Replying(d, stage), f) && CA.ReplyEffect(retries, d, stage, l).Some?
    ensures Rank(retries, CA.ReplyEffect(retries, d, stage, l).value.phase) < Rank(retries, CA.Replying(d, stage))
  {
  }

  lemma PhaseRankFalls(retries: nat, p: Phase, l: CA.Label, f: CA.Facts)
    requires CA.PhaseFits(retries, p, f) && CA.StepEffect(retries, p, l).Some?
    ensures Rank(retries, CA.StepEffect(retries, p, l).value.phase) < Rank(retries, p)
  {
    match p
    case Racing(claim, x) =>
      if CA.ClaimEffect(retries, claim, x, l).Some? {
        ClaimRankFalls(retries, claim, x, l, f);
      } else {
        ExecutionRankFalls(retries, p, l, f);
      }
    case Detached(_) => ExecutionRankFalls(retries, p, l, f);
    case Replying(d, stage) => ReplyRankFalls(retries, d, stage, l, f);
  }

  lemma RankFalls(retries: nat, t: Task, l: CA.Label)
    requires CA.Inv(retries, t) && CA.Step(retries, t, l).Some?
    ensures Rank(retries, CA.Step(retries, t, l).value.phase) < Rank(retries, t.phase)
  {
    PhaseRankFalls(retries, t.phase, l, CA.Seen(t.trace));
  }

  function TotalRank(retries: nat, tasks: seq<Task>): nat {
    if tasks == [] then 0 else Rank(retries, tasks[0].phase) + TotalRank(retries, tasks[1..])
  }

  lemma {:induction false} UpdateLowersTotal(retries: nat, tasks: seq<Task>, i: nat, t: Task)
    requires i < |tasks| && Rank(retries, t.phase) < Rank(retries, tasks[i].phase)
    ensures TotalRank(retries, tasks[i := t]) < TotalRank(retries, tasks)
  {
    if i > 0 {
      UpdateLowersTotal(retries, tasks[1..], i - 1, t);
      assert tasks[i := t][1..] == tasks[1..][i - 1 := t];
    } else {
      assert tasks[i := t][1..] == tasks[1..];
    }
  }

  lemma {:induction false} CancelLowersTotal(retries: nat, tasks: seq<Task>)
    ensures TotalRank(retries, Cancel(tasks)) <= TotalRank(retries, tasks)
  {
    if tasks != [] {
      CancelLowersTotal(retries, tasks[1..]);
      assert Cancel(tasks)[1..] == Cancel(tasks[1..]);
    }
  }

  function StepsLeft(retries: nat, s: State): nat {
    TotalRank(retries, s.tasks) + if s.join.Running? then 1 else 0
  }

  lemma StepsLeftFall(retries: nat, s: State, l: Label)
    requires TasksSafe(retries, s.tasks) && Next(retries, s, l).Some?
    ensures StepsLeft(retries, Next(retries, s, l).value) < StepsLeft(retries, s)
  {
    match l
    case TaskStep(i, what) =>
      RankFalls(retries, s.tasks[i], what);
      UpdateLowersTotal(retries, s.tasks, i, CA.Step(retries, s.tasks[i], what).value);
    case JoinFails(_) => CancelLowersTotal(retries, s.tasks);
    case JoinSucceeds =>
  }

  lemma {:induction false} FreshRank(retries: nat, n: nat)
    ensures TotalRank(retries, Repeat(n, CA.FRESH)) == n * (4 * MaxAttempts(retries) + 5)
  {
    if n > 0 {
      FreshRank(retries, n - 1);
      assert Repeat(n, CA.FRESH)[1..] == Repeat(n - 1, CA.FRESH);
    }
  }

  /** No interleaving goes on forever: a batch of `n` tasks takes at most n * (4 * max(1, retries) + 5) + 1 steps. */
  lemma AllRunsEnd(retries: nat, n: nat, labels: seq<Label>)
    requires Run(retries, Fetched(n), labels).Some?
    ensures |labels| <= n * (4 * MaxAttempts(retries) + 5) + 1
  {
    FetchedIsSafe(retries, n);
    FreshRank(retries, n);
    StepsBounded(retries, Fetched(n), labels);
  }

  lemma {:induction false} StepsBounded(retries: nat, s: State, labels: seq<Label>)
    requires Inv(retries, s) && Run(retries, s, labels).Some?
    ensures |labels| + StepsLeft(retries, Run(retries, s, labels).value) <= StepsLeft(retries, s)
    decreases |labels|
  {
    if labels != [] {
      var earlier := labels[..|labels| - 1];
      StepsBounded(retries, s, earlier);
      AllRunsSafe(retries, s, earlier);
      StepsLeftFall(retries, Run(retries, s, earlier).value, labels[|labels| - 1]);
    }
  }

  predicate HasEnded(p: Phase) {
    p.Answered? || p.DetachedEnd? || p.Failed? || p.Cancelled?
  }

  /** Something the runtime or the network can do to a task that has not ended. */
  lemma PhaseCanStep(retries: nat, p: Phase, f: CA.Facts) returns (l: CA.Label)
    requires CA.PhaseFits(retries, p, f) && !HasEnded(p)
    ensures CA.StepEffect(retries, p, l).Some?
  {
    match p
    case Racing(_, x) => l := if x.Idle? then CA.PollExecution(false) else CA.TargetAnswered(Reply.NotReached);
    case Detached(x) => l := if x.Idle? then CA.PollExecution(false) else CA.TargetAnswered(Reply.NotReached);
    case Replying(_, Reading(_)) => l := CA.BodyArrived(None);
    case Replying(_, Sending(_, put)) =>
      l := if put.InFlight? then CA.ResultAnswered(TransportError(false)) else CA.ResultWake;
  }

  /** A batch never gets stuck: as long as the join has not returned or a task has not ended, something can
      happen next. */
  lemma BatchCanStep(retries: nat, s: State) returns (l: Label)
    requires Inv(retries, s)
    requires s.join.Running? || exists i :: 0 <= i < |s.tasks| && !HasEnded(s.tasks[i].phase)
    ensures Next(retries, s, l).Some?
  {
    if i: nat :| i < |s.tasks| && !HasEnded(s.tasks[i].phase) {
      assert CA.Inv(retries, s.tasks[i]);
      var what := PhaseCanStep(retries, s.tasks[i].phase, CA.Seen(s.tasks[i].trace));
      l := TaskStep(i, what);
    } else if i: nat :| i < |s.tasks| && s.tasks[i].phase.Failed? {
      l := JoinFails(i);
    } else {
      l := JoinSucceeds;
    }
  }

  /** Where every run ends when nothing more can happen: the join has returned, every task has ended, and for
      every task that was handed over its execution ended and `send_reply` was entered, exactly once. */
  lemma MaximalRuns(retries: nat, n: nat, s: State)
    requires Reachable(retries, n, s)
    requires forall l :: Next(retries, s, l) == None
    ensures s.join.Returned? && |s.tasks| == n
    ensures forall i :: 0 <= i < |s.tasks| ==>
              && HasEnded(s.tasks[i].phase)
              && (IsHandedOver(s.tasks[i].phase) ==>
                    CA.Seen(s.tasks[i].trace).done == 1 == CA.Seen(s.tasks[i].trace).entered)
  {
    ReachableIsSafe(retries, n, s);
    if s.join.Running? || exists i :: 0 <= i < |s.tasks| && !HasEnded(s.tasks[i].phase) {
      var l := BatchCanStep(retries, s);
      assert false;
    }
    forall i | 0 <= i < |s.tasks| && IsHandedOver(s.tasks[i].phase)
      ensures CA.Seen(s.tasks[i].trace).done == 1 == CA.Seen(s.tasks[i].trace).entered
    {
      assert CA.Inv(retries, s.tasks[i]);
    }
  }
}
