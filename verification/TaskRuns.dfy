/** What decides the course of a task: the answers of the broker, the target's response and its body, as they come in
    with the labels of a run.  Nothing here is said in terms of the steps of the task. */
module TaskRuns {
  import opened Wrappers
  import opened Http
  import opened Retry
  import opened Reply
  import opened ClaimAnswer

  // ---------- what comes in ----------

  /** The answers to the attempts to claim and to send the result, in order; what the target answered, or NotReached
      if local checks refuse the task; and the target's body, Some(None) if it could not be read. */
  datatype Incoming = Incoming(
    claims: seq<Ack>, results: seq<Ack>, out: Option<Executed>, body: Option<Option<Bytes>>)

  function ComesIn(i: Incoming, l: Label): Incoming {
    match l
    case ClaimAnswered(a) => i.(claims := i.claims + [a])
    case ResultAnswered(a) => i.(results := i.results + [a])
    case TargetAnswered(out) => i.(out := Some(out))
    case PollExecution(true) => i.(out := Some(NotReached))
    case BodyArrived(body) => i.(body := Some(body))
    case _ => i
  }

  function HasComeIn(labels: seq<Label>): Incoming {
    if labels == [] then Incoming([], [], None, None)
    else ComesIn(HasComeIn(labels[..|labels| - 1]), labels[|labels| - 1])
  }

  // ---------- what it means ----------

  /** A 4xx or 5xx status, or a timeout. */
  predicate AsksAgain(a: Ack) {
    match a
    case Response(status, _) => 400 <= status <= 599
    case TransportError(timeout) => timeout
  }

  predicate IsAccepted(a: Ack) {
    a.Response? && (a.status < 400 || a.status > 599)
  }

  predicate IsAcknowledged(a: Ack) {
    a.Response? && a.status in {201, 204}
  }

  /** Every answer asks for another attempt, and there is one left. */
  predicate GoesOn(retries: nat, answers: seq<Ack>) {
    forall k :: 0 <= k < |answers| ==> AsksAgain(answers[k]) && k + 1 < retries
  }

  /** The last answer asks for no other attempt, or was to the last attempt; and none before. */
  predicate IsOver(retries: nat, answers: seq<Ack>) {
    && answers != []
    && (forall k :: 0 <= k < |answers| - 1 ==> AsksAgain(answers[k]) && k + 1 < retries)
    && (!AsksAgain(answers[|answers| - 1]) || |answers| >= retries)
  }

  predicate ClaimWins(retries: nat, answers: seq<Ack>) {
    IsOver(retries, answers) && IsAcknowledged(answers[|answers| - 1])
  }

  predicate ClaimFails(retries: nat, answers: seq<Ack>) {
    IsOver(retries, answers) && !IsAcknowledged(answers[|answers| - 1])
  }

  predicate ResultGetsThrough(retries: nat, answers: seq<Ack>) {
    IsOver(retries, answers) && IsAccepted(answers[|answers| - 1])
  }

  predicate ResultGetsLost(retries: nat, answers: seq<Ack>) {
    IsOver(retries, answers) && !IsAccepted(answers[|answers| - 1])
  }

  predicate ResultFailsWith(retries: nat, answers: seq<Ack>, e: RetryError) {
    IsOver(retries, answers) && IsErrorOf(answers[|answers| - 1], e)
  }

  predicate IsErrorOf(a: Ack, e: RetryError) {
    match a
    case Response(status, _) => 400 <= status <= 599 && e == BadStatus(status)
    case TransportError(timeout) => e == Transport(timeout)
  }

  /** The message says what the target answered, or that it was not reached. */
  predicate Says(out: Option<Executed>, body: Option<Option<Bytes>>, msg: TaskResult) {
    match out
    case None => false
    case Some(Reached(status, headers)) =>
      && body.Some? && body.value.Some?
      && msg == TaskResult(Succeeded, Some(HttpResponse(status, headers, body.value.value)))
    case Some(NotReached) =>
      msg.status == PermFailed && msg.body.Some? && msg.body.value.status == 500 && msg.body.value.headers == map[]
  }

  /** There is something to send. */
  predicate IsComplete(out: Option<Executed>, body: Option<Option<Bytes>>) {
    out == Some(NotReached) || (out.Some? && body.Some? && body.value.Some?)
  }

  predicate IsUnreadable(out: Option<Executed>, body: Option<Option<Bytes>>) {
    out.Some? && out.value.Reached? && body == Some(None)
  }

  /** `answered` attempts have their answer; the next one is under way, or about to be. */
  predicate IsAt(put: Loop<()>, answered: nat) {
    match put
    case InFlight(k) => k == answered + 1
    case Backoff(k) => k == answered > 0
    case Finished(_) => false
  }

  /** What has come in leads to this phase and no other. */
  predicate Decides(retries: nat, i: Incoming, phase: Phase) {
    match phase
    case Racing(claim, _) =>
      && GoesOn(retries, i.claims) && i.out == None && i.body == None && i.results == []
      && (match claim
          case Unpolled => i.claims == []
          case Claiming(put) => IsAt(put, |i.claims|))
    case Detached(_) => ClaimWins(retries, i.claims) && i.out == None && i.body == None && i.results == []
    case Replying(d, stage) =>
      && (if d then ClaimWins(retries, i.claims) else GoesOn(retries, i.claims))
      && (match stage
          case Reading(o) => i.out == Some(o) && o.Reached? && i.body == None && i.results == []
          case Sending(msg, put) =>
            Says(i.out, i.body, msg) && GoesOn(retries, i.results) && IsAt(put, |i.results|))
    case Answered => GoesOn(retries, i.claims) && IsComplete(i.out, i.body) && ResultGetsThrough(retries, i.results)
    case DetachedEnd(delivered) =>
      && ClaimWins(retries, i.claims)
      && if delivered then IsComplete(i.out, i.body) && ResultGetsThrough(retries, i.results)
         else if i.results == [] then IsUnreadable(i.out, i.body)
         else IsComplete(i.out, i.body) && ResultGetsLost(retries, i.results)
    case Failed(ClaimFailed) => ClaimFails(retries, i.claims) && i.out == None && i.results == []
    case Failed(BodyUnreadable) => GoesOn(retries, i.claims) && IsUnreadable(i.out, i.body) && i.results == []
    case Failed(ResultFailed(e)) =>
      GoesOn(retries, i.claims) && IsComplete(i.out, i.body) && ResultFailsWith(retries, i.results, e)
    case Cancelled => false
  }

  /** What the trace shows is what came in, and as many attempts as were answered, and those still open. */
  predicate Shows(i: Incoming, phase: Phase, f: Facts) {
    && f.outcome == i.out && f.body == (if i.body.Some? then i.body.value else None)
    && (if phase.Racing? then f.claims == |i.claims| + (if IsClaiming(phase.claim) then 1 else 0)
        else |i.claims| <= f.claims <= |i.claims| + 1)
    && f.results == |i.results| + if IsSending(phase) then 1 else 0
  }

  predicate IsClaiming(claim: Claim) {
    claim.Claiming? && claim.put.InFlight?
  }

  predicate IsSending(phase: Phase) {
    phase.Replying? && phase.stage.Sending? && phase.stage.put.InFlight?
  }

  predicate Explained(retries: nat, i: Incoming, phase: Phase, f: Facts) {
    Decides(retries, i, phase) && Shows(i, phase, f)
  }

  ghost predicate ExplainedBy(retries: nat, i: Incoming, e: Effect, f: Facts) {
    Explained(retries, i, e.phase, ObserveAll(f, e.events))
  }

  // ---------- every step ----------

  /** The loop of a PUT with answers so far that is given another one. */
  function Given(retries: nat, answers: seq<Ack>, a: Ack): Loop<()> {
    OnOutcome(|answers| + 1, retries, a)
  }

  lemma NotOver(retries: nat, answers: seq<Ack>, a: Ack)
    requires GoesOn(retries, answers) && !Given(retries, answers, a).Finished?
    ensures GoesOn(retries, answers + [a]) && IsAt(Given(retries, answers, a), |answers| + 1)
  {
    var more := answers + [a];
    assert AsksAgain(a) && |more| < retries;
    forall k | 0 <= k < |more| ensures AsksAgain(more[k]) && k + 1 < retries {
      assert k < |answers| ==> more[k] == answers[k];
    }
  }

  lemma Over(retries: nat, answers: seq<Ack>, a: Ack)
    requires GoesOn(retries, answers) && Given(retries, answers, a).Finished?
    ensures IsOver(retries, answers + [a])
    ensures var outcome := Given(retries, answers, a).outcome;
            if IsAccepted(a) then outcome == Success(a) else outcome.Failure? && IsErrorOf(a, outcome.error)
  {
    var more := answers + [a];
    forall k | 0 <= k < |more| - 1 ensures AsksAgain(more[k]) && k + 1 < retries {
      assert more[k] == answers[k];
    }
  }

  lemma ObservedOne(f: Facts, a: ClaimAnswer.Event)
    ensures ObserveAll(f, [a]) == Observe(f, a)
  {
    assert [a][1..] == [];
  }

  lemma ObservedTwo(f: Facts, a: ClaimAnswer.Event, b: ClaimAnswer.Event)
    ensures ObserveAll(f, [a, b]) == Observe(Observe(f, a), b)
  {
    ObservedOne(Observe(f, a), b);
    assert [a, b][1..] == [b];
  }

  lemma ObservedThree(f: Facts, a: ClaimAnswer.Event, b: ClaimAnswer.Event, c: ClaimAnswer.Event)
    ensures ObserveAll(f, [a, b, c]) == Observe(Observe(Observe(f, a), b), c)
  {
    ObservedTwo(Observe(f, a), b, c);
    assert [a, b, c][1..] == [b, c];
  }

  lemma ClaimGoesOnExplained(retries: nat, i: Incoming, k: nat, x: Execution, a: Ack, f: Facts)
    requires Explained(retries, i, Racing(Claiming(InFlight(k)), x), f)
    requires !OnOutcome(k, retries, a).Finished?
    ensures ExplainedBy(retries, ComesIn(i, ClaimAnswered(a)),
                        ClaimEffect(retries, Claiming(InFlight(k)), x, ClaimAnswered(a)).value, f)
  {
    NotOver(retries, i.claims, a);
    ObservedTwo(f, ClaimOutcome(a), ClaimPut);
  }

  lemma ClaimWinsExplained(retries: nat, i: Incoming, k: nat, x: Execution, a: Ack, f: Facts)
    requires Explained(retries, i, Racing(Claiming(InFlight(k)), x), f)
    requires OnOutcome(k, retries, a).Finished? && IsClaimAck(a)
    ensures ExplainedBy(retries, ComesIn(i, ClaimAnswered(a)), Effect(Detached(x), [ClaimOutcome(a), Spawned]), f)
  {
    Over(retries, i.claims, a);
    ObservedTwo(f, ClaimOutcome(a), Spawned);
  }

  lemma ClaimFailsExplained(retries: nat, i: Incoming, k: nat, x: Execution, a: Ack, f: Facts)
    requires Explained(retries, i, Racing(Claiming(InFlight(k)), x), f)
    requires OnOutcome(k, retries, a).Finished? && !IsClaimAck(a)
    ensures ExplainedBy(retries, ComesIn(i, ClaimAnswered(a)), Effect(Failed(ClaimFailed), [ClaimOutcome(a)]), f)
  {
    Over(retries, i.claims, a);
    ObservedOne(f, ClaimOutcome(a));
  }

  lemma ClaimAnswerExplained(retries: nat, i: Incoming, k: nat, x: Execution, a: Ack, f: Facts)
    requires Explained(retries, i, Racing(Claiming(InFlight(k)), x), f)
    ensures ExplainedBy(retries, ComesIn(i, ClaimAnswered(a)),
                        ClaimEffect(retries, Claiming(InFlight(k)), x, ClaimAnswered(a)).value, f)
  {
    if OnOutcome(k, retries, a).Finished? {
      if IsClaimAck(a) {
        ClaimWinsExplained(retries, i, k, x, a, f);
      } else {
        ClaimFailsExplained(retries, i, k, x, a, f);
      }
    } else {
      ClaimGoesOnExplained(retries, i, k, x, a, f);
    }
  }

  lemma ClaimStartsExplained(retries: nat, i: Incoming, claim: Claim, x: Execution, l: Label, f: Facts)
    requires Explained(retries, i, Racing(claim, x), f) && ClaimEffect(retries, claim, x, l).Some?
    requires !l.ClaimAnswered?
    ensures ExplainedBy(retries, i, ClaimEffect(retries, claim, x, l).value, f)
  {
    ObservedOne(f, ClaimPut);
  }

  lemma ClaimExplained(retries: nat, i: Incoming, claim: Claim, x: Execution, l: Label, f: Facts)
    requires Explained(retries, i, Racing(claim, x), f) && ClaimEffect(retries, claim, x, l).Some?
    ensures ExplainedBy(retries, ComesIn(i, l), ClaimEffect(retries, claim, x, l).value, f)
  {
    if l.ClaimAnswered? {
      ClaimAnswerExplained(retries, i, claim.put.tries, x, l.answer, f);
    } else {
      ClaimStartsExplained(retries, i, claim, x, l, f);
    }
  }

  lemma ErrorSays(out: Executed)
    requires out.NotReached?
    ensures Says(Some(out), None, Message(out, None).value)
  {
  }

  lemma EntryExplained(retries: nat, i: Incoming, phase: Phase, out: Executed, f: Facts)
    requires Explained(retries, i, phase, f) && (phase.Racing? || phase.Detached?)
    ensures ExplainedBy(retries, i.(out := Some(out)), EnterReply(phase.Detached?, out), f)
  {
    if out.Reached? {
      ObservedTwo(f, ExecutionDone(out), ReplyEntered);
    } else {
      ErrorSays(out);
      ObservedThree(f, ExecutionDone(out), ReplyEntered, ResultPut(Message(out, None).value));
    }
  }

  lemma ExecutionExplained(retries: nat, i: Incoming, phase: Phase, l: Label, f: Facts)
    requires Explained(retries, i, phase, f) && (phase.Racing? || phase.Detached?)
    requires ExecutionEffect(phase, l).Some?
    ensures ExplainedBy(retries, ComesIn(i, l), ExecutionEffect(phase, l).value, f)
  {
    match l
    case PollExecution(refused) =>
      if refused {
        EntryExplained(retries, i, phase, NotReached, f);
      } else {
        ObservedOne(f, TargetRequest);
      }
    case TargetAnswered(out) => EntryExplained(retries, i, phase, out, f);
  }

  lemma BodyExplained(retries: nat, i: Incoming, d: bool, out: Executed, body: Option<Bytes>, f: Facts)
    requires Explained(retries, i, Replying(d, Reading(out)), f)
    ensures ExplainedBy(retries, ComesIn(i, BodyArrived(body)),
                        ReplyEffect(retries, d, Reading(out), BodyArrived(body)).value, f)
  {
    if body.Some? {
      ObservedTwo(f, BodyRead(body.value), ResultPut(Message(out, body).value));
    }
  }

  lemma SaysCompletely(out: Option<Executed>, body: Option<Option<Bytes>>, msg: TaskResult)
    requires Says(out, body, msg)
    ensures IsComplete(out, body)
  {
  }

  lemma ResultGoesOnExplained(retries: nat, i: Incoming, d: bool, msg: TaskResult, k: nat, a: Ack, f: Facts)
    requires Explained(retries, i, Replying(d, Sending(msg, InFlight(k))), f)
    requires !OnOutcome(k, retries, a).Finished?
    ensures ExplainedBy(retries, ComesIn(i, ResultAnswered(a)),
                        ReplyEffect(retries, d, Sending(msg, InFlight(k)), ResultAnswered(a)).value, f)
  {
    NotOver(retries, i.results, a);
    ObservedTwo(f, ResultOutcome(a), ResultPut(msg));
  }

  lemma ResultEndsExplained(retries: nat, i: Incoming, d: bool, msg: TaskResult, k: nat, a: Ack, f: Facts)
    requires Explained(retries, i, Replying(d, Sending(msg, InFlight(k))), f)
    requires OnOutcome(k, retries, a).Finished?
    ensures ExplainedBy(retries, ComesIn(i, ResultAnswered(a)),
                        ReplyEffect(retries, d, Sending(msg, InFlight(k)), ResultAnswered(a)).value, f)
  {
    Over(retries, i.results, a);
    ObservedOne(f, ResultOutcome(a));
    SaysCompletely(i.out, i.body, msg);
  }

  lemma ResultAnswerExplained(retries: nat, i: Incoming, d: bool, msg: TaskResult, k: nat, a: Ack, f: Facts)
    requires Explained(retries, i, Replying(d, Sending(msg, InFlight(k))), f)
    ensures ExplainedBy(retries, ComesIn(i, ResultAnswered(a)),
                        ReplyEffect(retries, d, Sending(msg, InFlight(k)), ResultAnswered(a)).value, f)
  {
    if OnOutcome(k, retries, a).Finished? {
      ResultEndsExplained(retries, i, d, msg, k, a, f);
    } else {
      ResultGoesOnExplained(retries, i, d, msg, k, a, f);
    }
  }

  lemma SendExplained(retries: nat, i: Incoming, d: bool, msg: TaskResult, put: Loop<()>, l: Label, f: Facts)
    requires Explained(retries, i, Replying(d, Sending(msg, put)), f)
    requires ReplyEffect(retries, d, Sending(msg, put), l).Some?
    ensures ExplainedBy(retries, ComesIn(i, l), ReplyEffect(retries, d, Sending(msg, put), l).value, f)
  {
    if l.ResultAnswered? {
      ResultAnswerExplained(retries, i, d, msg, put.tries, l.answer, f);
    } else {
      ObservedOne(f, ResultPut(msg));
    }
  }

  lemma EffectExplained(retries: nat, i: Incoming, phase: Phase, l: Label, f: Facts)
    requires Explained(retries, i, phase, f) && StepEffect(retries, phase, l).Some?
    ensures ExplainedBy(retries, ComesIn(i, l), StepEffect(retries, phase, l).value, f)
  {
    match phase
    case Racing(claim, x) =>
      if ClaimEffect(retries, claim, x, l).Some? {
        ClaimExplained(retries, i, claim, x, l, f);
      } else {
        ExecutionExplained(retries, i, phase, l, f);
      }
    case Detached(_) => ExecutionExplained(retries, i, phase, l, f);
    case Replying(d, Reading(out)) => BodyExplained(retries, i, d, out, l.body, f);
    case Replying(d, Sending(msg, put)) => SendExplained(retries, i, d, msg, put, l, f);
  }

  lemma {:induction false} SeenMore(trace: seq<ClaimAnswer.Event>, events: seq<ClaimAnswer.Event>)
    ensures Seen(trace + events) == ObserveAll(Seen(trace), events)
    decreases |events|
  {
    if events == [] {
      assert trace + events == trace;
    } else {
      assert (trace + [events[0]])[..|trace|] == trace;
      SeenMore(trace + [events[0]], events[1..]);
      assert trace + events == trace + [events[0]] + events[1..];
    }
  }

  ghost predicate IsExplained(retries: nat, labels: seq<Label>, t: Task) {
    Explained(retries, HasComeIn(labels), t.phase, Seen(t.trace))
  }

  lemma StepExplained(retries: nat, labels: seq<Label>, t: Task, l: Label)
    requires IsExplained(retries, labels, t) && Step(retries, t, l).Some?
    ensures IsExplained(retries, labels + [l], Step(retries, t, l).value)
  {
    assert (labels + [l])[..|labels|] == labels;
    EffectExplained(retries, HasComeIn(labels), t.phase, l, Seen(t.trace));
    SeenMore(t.trace, StepEffect(retries, t.phase, l).value.events);
  }

  lemma FreshIsExplained(retries: nat, labels: seq<Label>, t: Task)
    requires labels == [] && t == FRESH
    ensures IsExplained(retries, labels, t)
  {
    NothingIsExplained(retries, HasComeIn(labels), t.phase, Seen(t.trace));
  }

  lemma NothingIsExplained(retries: nat, i: Incoming, phase: Phase, f: Facts)
    requires i.claims == [] && i.results == [] && i.out == None && i.body == None
    requires phase.Racing? && phase.claim.Unpolled?
    requires f.outcome == None && f.body == None && f.claims == f.results == 0
    ensures Explained(retries, i, phase, f)
  {
  }

  lemma {:induction false} LaterIsExplained(retries: nat, t: Task, labels: seq<Label>)
    requires IsExplained(retries, [], t) && RunTask(retries, t, labels).Some?
    ensures IsExplained(retries, labels, RunTask(retries, t, labels).value)
    decreases |labels|
  {
    if labels != [] {
      var init, last := labels[..|labels| - 1], labels[|labels| - 1];
      assert labels == init + [last];
      LaterIsExplained(retries, t, init);
      var before, after := RunTask(retries, t, init).value, RunTask(retries, t, labels).value;
      assert Step(retries, before, last) == Some(after);
      StepExplained(retries, init, before, last);
    }
  }

  /** In every run of a task, the answers that have come in decide its phase: whether it is still going, has been
      handed over, answered, or failed and why; each PUT is tried again exactly as long as its answers ask for it and
      attempts are left; and what the trace shows of the target's answer is what the target answered. */
  lemma RunIsDecided(retries: nat, labels: seq<Label>, t: Task)
    requires RunTask(retries, FRESH, labels) == Some(t)
    ensures Decides(retries, HasComeIn(labels), t.phase) && Shows(HasComeIn(labels), t.phase, Seen(t.trace))
  {
    FreshIsExplained(retries, [], FRESH);
    LaterIsExplained(retries, FRESH, labels);
  }

  /** Nothing that the network may bring is left out: whatever the answer to an open attempt, the target's answer, the
      body or the outcome of the local checks, there is a step for it. */
  lemma EveryAnswerIsTaken(retries: nat, t: Task, a: Ack, out: Executed, body: Option<Bytes>, refused: bool)
    ensures t.phase.Racing? && t.phase.claim.Unpolled? ==> Step(retries, t, PollClaim).Some?
    ensures t.phase.Racing? && t.phase.claim.Claiming? && t.phase.claim.put.InFlight? ==>
              Step(retries, t, ClaimAnswered(a)).Some?
    ensures t.phase.Racing? && t.phase.claim.Claiming? && t.phase.claim.put.Backoff? ==>
              Step(retries, t, ClaimWake).Some?
    ensures (t.phase.Racing? || t.phase.Detached?) && t.phase.execution.Idle? ==>
              Step(retries, t, PollExecution(refused)).Some?
    ensures (t.phase.Racing? || t.phase.Detached?) && t.phase.execution.Requesting? ==>
              Step(retries, t, TargetAnswered(out)).Some?
    ensures t.phase.Replying? && t.phase.stage.Reading? ==> Step(retries, t, BodyArrived(body)).Some?
    ensures t.phase.Replying? && t.phase.stage.Sending? && t.phase.stage.put.InFlight? ==>
              Step(retries, t, ResultAnswered(a)).Some?
    ensures t.phase.Replying? && t.phase.stage.Sending? && t.phase.stage.put.Backoff? ==>
              Step(retries, t, ResultWake).Some?
  {
  }
}
