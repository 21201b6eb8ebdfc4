/** One task of a fetched batch: claiming it and executing it race (`claim_or_answer`).

    A task is a state machine.  Each label is one thing the runtime or the network does to it; `Step` says what
    the task then does, and which events it adds to its trace.  Both PUTs (claim and result) are the retry loop
    of module Retry, one attempt at a time. */
module ClaimAnswer {
  import opened Wrappers
  import opened Http
  import opened Retry
  import opened Reply

  type Ack = Attempt<()>

  datatype Event =
    | ClaimPut                        // an attempt to PUT the claim starts
    | ClaimOutcome(answer: Ack)       // that attempt gets its outcome
    | Spawned                         // the claim branch won with Ok: the execution moves to a detached task
    | TargetRequest                   // the request to the target is issued
    | ExecutionDone(out: Executed)
    | ReplyEntered                    // `send_reply` is called
    | BodyRead(bytes: Bytes)          // the target's body has been read
    | ResultPut(msg: TaskResult)      // an attempt to PUT the result starts
    | ResultOutcome(answer: Ack)

  datatype Label =
    | PollClaim                       // first poll of the claim future
    | ClaimAnswered(answer: Ack)
    | ClaimWake                       // the sleep between two claim attempts is over
    | PollExecution(refused: bool)    // first poll of the execution; refused when local checks fail
    | TargetAnswered(out: Executed)
    | BodyArrived(body: Option<Bytes>)
    | ResultAnswered(answer: Ack)
    | ResultWake

  datatype Claim = Unpolled | Claiming(put: Loop<()>)

  datatype Execution = Idle | Requesting

  datatype Stage = Reading(out: Executed) | Sending(msg: TaskResult, put: Loop<()>)

  datatype Error = ClaimFailed | BodyUnreadable | ResultFailed(error: RetryError)

  datatype Phase =
    | Racing(claim: Claim, execution: Execution)
    | Detached(execution: Execution)
    | Replying(detached: bool, stage: Stage)
    | Answered
    | DetachedEnd(delivered: bool)
    | Failed(error: Error)
    | Cancelled

  datatype Task = Task(phase: Phase, trace: seq<Event>)

  const FRESH := Task(Racing(Unpolled, Idle), [])

  predicate IsClaimAck(a: Ack) {
    a.Response? && (a.status == 201 || a.status == 204)
  }

  // ---------- one step ----------

  /** The next phase, and the events on the way. */
  datatype Effect = Effect(phase: Phase, events: seq<Event>)

  function ClaimEffect(retries: nat, claim: Claim, x: Execution, l: Label): Option<Effect> {
    match (claim, l)
    case (Unpolled, PollClaim) => Some(Effect(Racing(Claiming(InFlight(1)), x), [ClaimPut]))
    case (Claiming(Backoff(k)), ClaimWake) => Some(Effect(Racing(Claiming(InFlight(k + 1)), x), [ClaimPut]))
    case (Claiming(InFlight(k)), ClaimAnswered(a)) =>
      (match OnOutcome(k, retries, a)
       case InFlight(n) => Some(Effect(Racing(Claiming(InFlight(n)), x), [ClaimOutcome(a), ClaimPut]))
       case Backoff(n) => Some(Effect(Racing(Claiming(Backoff(n)), x), [ClaimOutcome(a)]))
       case Finished(outcome) =>
         if outcome.Success? && IsClaimAck(outcome.value)
         then Some(Effect(Detached(x), [ClaimOutcome(a), Spawned]))
         else Some(Effect(Failed(ClaimFailed), [ClaimOutcome(a)])))
    case _ => None
  }

  /** `send_reply` is entered with the outcome of the execution; an error needs no body and is sent at once. */
  function EnterReply(detached: bool, out: Executed): Effect {
    match out
    case Reached(_, _) => Effect(Replying(detached, Reading(out)), [ExecutionDone(out), ReplyEntered])
    case NotReached =>
      var msg := Message(out, None).value;
      Effect(Replying(detached, Sending(msg, InFlight(1))), [ExecutionDone(out), ReplyEntered, ResultPut(msg)])
  }

  function ExecutionEffect(phase: Phase, l: Label): Option<Effect>
    requires phase.Racing? || phase.Detached?
  {
    match (phase.execution, l)
    case (Idle, PollExecution(refused)) =>
      if refused then Some(EnterReply(phase.Detached?, NotReached))
      else Some(Effect(phase.(execution := Requesting), [TargetRequest]))
    case (Requesting, TargetAnswered(out)) => Some(EnterReply(phase.Detached?, out))
    case _ => None
  }

  /** The end of `send_reply`: a detached task only logs an error, otherwise the error is the task's. */
  function ReplyEnd(detached: bool, error: Option<Error>): Phase {
    if detached then DetachedEnd(error == None)
    else if error == None then Answered
    else Failed(error.value)
  }

  function ReplyEffect(retries: nat, d: bool, stage: Stage, l: Label): Option<Effect> {
    match (stage, l)
    case (Reading(out), BodyArrived(body)) =>
      (match (body, Message(out, body))
       case (Some(bytes), Some(msg)) =>
         Some(Effect(Replying(d, Sending(msg, InFlight(1))), [BodyRead(bytes), ResultPut(msg)]))
       case _ => Some(Effect(ReplyEnd(d, Some(BodyUnreadable)), [])))
    case (Sending(msg, Backoff(k)), ResultWake) =>
      Some(Effect(Replying(d, Sending(msg, InFlight(k + 1))), [ResultPut(msg)]))
    case (Sending(msg, InFlight(k)), ResultAnswered(a)) =>
      (match OnOutcome(k, retries, a)
       case InFlight(n) => Some(Effect(Replying(d, Sending(msg, InFlight(n))), [ResultOutcome(a), ResultPut(msg)]))
       case Backoff(n) => Some(Effect(Replying(d, Sending(msg, Backoff(n))), [ResultOutcome(a)]))
       case Finished(outcome) =>
         var error := if outcome.Success? then None else Some(ResultFailed(outcome.error));
         Some(Effect(ReplyEnd(d, error), [ResultOutcome(a)])))
    case _ => None
  }

  function StepEffect(retries: nat, phase: Phase, l: Label): Option<Effect> {
    match phase
    case Racing(claim, x) =>
      var e := ClaimEffect(retries, claim, x, l);
      if e.Some? then e else ExecutionEffect(phase, l)
    case Detached(_) => ExecutionEffect(phase, l)
    case Replying(d, stage) => ReplyEffect(retries, d, stage, l)
    case _ => None
  }

  /** None when the label does not apply. */
  function Step(retries: nat, t: Task, l: Label): Option<Task> {
    match StepEffect(retries, t.phase, l)
    case None => None
    case Some(e) => Some(Task(e.phase, t.trace + e.events))
  }

  function RunTask(retries: nat, t: Task, labels: seq<Label>): Option<Task> {
    if labels == [] then Some(t)
    else
      match RunTask(retries, t, labels[..|labels| - 1])
      case None => None
      case Some(before) => Step(retries, before, labels[|labels| - 1])
  }

  // ---------- what a trace shows ----------

  /** What an observer of a trace has counted and noted. */
  datatype Facts = Facts(
    claims: nat,        // claim attempts started
    acks: nat,          // of these, acknowledged with 201 or 204
    nacks: nat,         // of these, ended otherwise
    spawned: nat,       // detached tasks created
    requests: nat,      // requests issued to the target
    done: nat,          // ends of the execution
    entered: nat,       // calls of send_reply
    results: nat,       // result attempts started
    accepted: nat,      // of these, answered with a non-error status
    outcome: Option<Executed>,
    body: Option<Bytes>)

  const NOTHING := Facts(0, 0, 0, 0, 0, 0, 0, 0, 0, None, None)

  function Observe(f: Facts, e: Event): Facts {
    match e
    case ClaimPut => f.(claims := f.claims + 1)
    case ClaimOutcome(a) => if IsClaimAck(a) then f.(acks := f.acks + 1) else f.(nacks := f.nacks + 1)
    case Spawned => f.(spawned := f.spawned + 1)
    case TargetRequest => f.(requests := f.requests + 1)
    case ExecutionDone(out) => f.(done := f.done + 1, outcome := Some(out))
    case ReplyEntered => f.(entered := f.entered + 1)
    case BodyRead(bytes) => f.(body := Some(bytes))
    case ResultPut(_) => f.(results := f.results + 1)
    case ResultOutcome(a) => if Verdict(a).Success? then f.(accepted := f.accepted + 1) else f
  }

  function Seen(trace: seq<Event>): Facts {
    if trace == [] then NOTHING else Observe(Seen(trace[..|trace| - 1]), trace[|trace| - 1])
  }

  /** The PUTs to the broker, in order: None for a claim, Some(msg) for a result. */
  function Puts(trace: seq<Event>): seq<Option<TaskResult>> {
    if trace == [] then [] else Puts(trace[..|trace| - 1]) + PutOf(trace[|trace| - 1])
  }

  function PutOf(e: Event): seq<Option<TaskResult>> {
    match e
    case ClaimPut => [None]
    case ResultPut(msg) => [Some(msg)]
    case _ => []
  }

  /** The one message that the execution as seen gives rise to. */
  function TheMessage(f: Facts): Option<TaskResult> {
    match f.outcome
    case None => None
    case Some(out) => Message(out, f.body)
  }

  /** Claim attempts that have started and got no outcome. */
  function Unacknowledged(f: Facts): int {
    f.claims - f.acks - f.nacks
  }

  /** When a result attempt starts, at most one claim attempt is open, and none if the claim branch won. */
  predicate ClaimSettledBeforeResult(trace: seq<Event>, p: nat)
    requires p < |trace|
  {
    var f := Seen(trace[..p]);
    trace[p].ResultPut? ==> 0 <= Unacknowledged(f) <= if f.spawned > 0 then 0 else 1
  }

  /** Claim attempts, then attempts to send one and the same message. */
  predicate PutsInOrder(trace: seq<Event>) {
    var f := Seen(trace);
    && (f.results > 0 ==> TheMessage(f).Some?)
    && Puts(trace) == Repeat(f.claims, None) + Repeat(f.results, TheMessage(f))
  }

  /** What holds of every trace, whatever happens to the task. */
  ghost predicate TraceSafe(retries: nat, trace: seq<Event>) {
    && PutsInOrder(trace)
    && (forall p: nat :: p < |trace| ==> ClaimSettledBeforeResult(trace, p))
    && Bounded(retries, Seen(trace))
  }

  predicate Bounded(retries: nat, f: Facts) {
    && f.claims <= MaxAttempts(retries) && f.results <= MaxAttempts(retries)
    && f.requests <= 1 && f.done <= 1 && f.entered <= 1 && f.accepted <= 1
  }

  // ---------- the invariant ----------

  predicate PutOpen(retries: nat, put: Loop<()>, started: nat) {
    match put
    case InFlight(k) => k == started && 1 <= k <= MaxAttempts(retries)
    case Backoff(k) => k == started && 1 <= k < MaxAttempts(retries)
    case Finished(_) => false
  }

  predicate NothingSent(x: Execution, f: Facts) {
    && f.requests == (if x.Requesting? then 1 else 0)
    && f.done == 0 && f.entered == 0 && f.results == 0 && f.accepted == 0 && f.body == None
  }

  /** How the phase and the facts of the trace fit together. */
  predicate PhaseFits(retries: nat, phase: Phase, f: Facts) {
    var open := Unacknowledged(f);
    f.acks == f.spawned && f.entered == f.done &&
    match phase
    case Racing(claim, x) =>
      && NothingSent(x, f) && f.spawned == 0
      && (match claim
          case Unpolled => f.claims == 0 && open == 0
          case Claiming(put) => PutOpen(retries, put, f.claims) && open == if put.InFlight? then 1 else 0)
    case Detached(x) => NothingSent(x, f) && f.spawned == 1 && open == 0
    case Replying(d, stage) =>
      && f.spawned == (if d then 1 else 0)
      && 0 <= open <= (if d then 0 else 1)
      && f.entered == 1 && f.done == 1 && f.accepted == 0
      && (match stage
          case Reading(out) => out.Reached? && f.outcome == Some(out) && f.body == None && f.results == 0
          case Sending(msg, put) => TheMessage(f) == Some(msg) && PutOpen(retries, put, f.results))
    case Answered => f.spawned == 0 && f.entered == 1 && f.accepted == 1
    case DetachedEnd(delivered) => f.spawned == 1 && f.entered == 1 && f.accepted == if delivered then 1 else 0
    case Failed(_) => f.spawned == 0 && f.accepted == 0
    case Cancelled => f.spawned == 0 && f.accepted == 0
  }

  ghost predicate Inv(retries: nat, t: Task) {
    TraceSafe(retries, t.trace) && PhaseFits(retries, t.phase, Seen(t.trace))
  }

  lemma FreshIsSafe(retries: nat)
    ensures Inv(retries, FRESH)
  {
  }

  // ---------- adding events to a safe trace ----------

  /** The conditions under which an event keeps a trace safe. */
  predicate Allowed(retries: nat, f: Facts, e: Event) {
    && Bounded(retries, Observe(f, e))
    && match e
       case ClaimPut => f.results == 0
       case ResultPut(msg) =>
         TheMessage(f) == Some(msg) && 0 <= Unacknowledged(f) <= if f.spawned > 0 then 0 else 1
       case ExecutionDone(_) => f.results == 0
       case BodyRead(_) => f.results == 0
       case _ => true
  }

  lemma AddEvent(retries: nat, trace: seq<Event>, e: Event)
    requires TraceSafe(retries, trace) && Allowed(retries, Seen(trace), e)
    ensures TraceSafe(retries, trace + [e]) && Seen(trace + [e]) == Observe(Seen(trace), e)
  {
    var longer := trace + [e];
    assert longer[..|trace|] == trace;
    AddPut(retries, trace, e);
    forall p: nat | p < |longer| ensures ClaimSettledBeforeResult(longer, p) {
      if p < |trace| {
        assert ClaimSettledBeforeResult(trace, p);
        assert longer[..p] == trace[..p];
      }
    }
  }

  lemma AddPut(retries: nat, trace: seq<Event>, e: Event)
    requires PutsInOrder(trace) && Allowed(retries, Seen(trace), e)
    ensures PutsInOrder(trace + [e])
  {
    assert (trace + [e])[..|trace|] == trace;
    var f := Seen(trace);
    match e
    case ClaimPut => RepeatSnoc<Option<TaskResult>>(f.claims, None);
    case ResultPut(msg) => RepeatSnoc(f.results, Some(msg));
    case _ =>
  }

  function ObserveAll(f: Facts, events: seq<Event>): Facts
    decreases |events|
  {
    if events == [] then f else ObserveAll(Observe(f, events[0]), events[1..])
  }

  predicate AllAllowed(retries: nat, f: Facts, events: seq<Event>)
    decreases |events|
  {
    events != [] ==> Allowed(retries, f, events[0]) && AllAllowed(retries, Observe(f, events[0]), events[1..])
  }

  lemma {:induction false} AddEvents(retries: nat, trace: seq<Event>, events: seq<Event>)
    requires TraceSafe(retries, trace) && AllAllowed(retries, Seen(trace), events)
    ensures TraceSafe(retries, trace + events) && Seen(trace + events) == ObserveAll(Seen(trace), events)
    decreases |events|
  {
    if events == [] {
      assert trace + events == trace;
    } else {
      AddEvent(retries, trace, events[0]);
      AddEvents(retries, trace + [events[0]], events[1..]);
      assert trace + events == trace + [events[0]] + events[1..];
    }
  }

  // ---------- every step keeps the invariant ----------

  lemma One(retries: nat, f: Facts, a: Event)
    ensures ObserveAll(f, [a]) == Observe(f, a)
    ensures AllAllowed(retries, f, [a]) <==> Allowed(retries, f, a)
  {
    assert [a][1..] == [];
  }

  lemma OneOrTwo(retries: nat, f: Facts, a: Event, b: Event)
    ensures ObserveAll(f, [a]) == Observe(f, a)
    ensures AllAllowed(retries, f, [a]) <==> Allowed(retries, f, a)
    ensures ObserveAll(f, [a, b]) == Observe(Observe(f, a), b)
    ensures AllAllowed(retries, f, [a, b]) <==> Allowed(retries, f, a) && Allowed(retries, Observe(f, a), b)
  {
    One(retries, f, a);
    One(retries, Observe(f, a), b);
    assert [a, b][1..] == [b];
  }

  predicate EffectKeeps(retries: nat, f: Facts, e: Effect) {
    AllAllowed(retries, f, e.events) && PhaseFits(retries, e.phase, ObserveAll(f, e.events))
  }

  lemma ClaimStarts(retries: nat, claim: Claim, x: Execution, l: Label, f: Facts)
    requires Bounded(retries, f) && PhaseFits(retries, Racing(claim, x), f)
    requires ClaimEffect(retries, claim, x, l).Some? && !l.ClaimAnswered?
    ensures EffectKeeps(retries, f, ClaimEffect(retries, claim, x, l).value)
  {
    One(retries, f, ClaimPut);
  }

  lemma ClaimGoesOn(retries: nat, k: nat, x: Execution, a: Ack, f: Facts)
    requires Bounded(retries, f) && PhaseFits(retries, Racing(Claiming(InFlight(k)), x), f)
    requires !OnOutcome(k, retries, a).Finished?
    ensures EffectKeeps(retries, f, ClaimEffect(retries, Claiming(InFlight(k)), x, ClaimAnswered(a)).value)
  {
    if OnOutcome(k, retries, a).InFlight? {
      OneOrTwo(retries, f, ClaimOutcome(a), ClaimPut);
    } else {
      One(retries, f, ClaimOutcome(a));
    }
  }

  lemma ClaimEnds(retries: nat, k: nat, x: Execution, a: Ack, f: Facts)
    requires Bounded(retries, f) && PhaseFits(retries, Racing(Claiming(InFlight(k)), x), f)
    requires OnOutcome(k, retries, a).Finished?
    ensures EffectKeeps(retries, f, ClaimEffect(retries, Claiming(InFlight(k)), x, ClaimAnswered(a)).value)
  {
    if OnOutcome(k, retries, a).outcome.Success? && IsClaimAck(a) {
      OneOrTwo(retries, f, ClaimOutcome(a), Spawned);
    } else {
      One(retries, f, ClaimOutcome(a));
    }
  }

  lemma ClaimEffectKeeps(retries: nat, claim: Claim, x: Execution, l: Label, f: Facts)
    requires Bounded(retries, f) && PhaseFits(retries, Racing(claim, x), f)
    requires ClaimEffect(retries, claim, x, l).Some?
    ensures EffectKeeps(retries, f, ClaimEffect(retries, claim, x, l).value)
  {
    if l.ClaimAnswered? {
      if OnOutcome(claim.put.tries, retries, l.answer).Finished? {
        ClaimEnds(retries, claim.put.tries, x, l.answer, f);
      } else {
        ClaimGoesOn(retries, claim.put.tries, x, l.answer, f);
      }
    } else {
      ClaimStarts(retries, claim, x, l, f);
    }
  }

  lemma Three(retries: nat, f: Facts, a: Event, b: Event, c: Event)
    ensures ObserveAll(f, [a, b, c]) == Observe(Observe(Observe(f, a), b), c)
    ensures AllAllowed(retries, f, [a, b, c]) <==>
            && Allowed(retries, f, a) && Allowed(retries, Observe(f, a), b)
            && Allowed(retries, Observe(Observe(f, a), b), c)
  {
    OneOrTwo(retries, Observe(f, a), b, c);
    assert [a, b, c][1..] == [b, c];
  }

  /** Where `send_reply` has been entered and nothing has been sent. */
  predicate AtReply(d: bool, f: Facts) {
    && f.acks == f.spawned == (if d then 1 else 0)
    && 0 <= Unacknowledged(f) <= (if d then 0 else 1)
    && f.entered == 1 && f.done == 1 && f.results == 0 && f.accepted == 0
  }

  lemma ReplyStarts(retries: nat, phase: Phase, out: Executed, f: Facts)
    requires Bounded(retries, f) && PhaseFits(retries, phase, f) && (phase.Racing? || phase.Detached?)
    ensures Allowed(retries, f, ExecutionDone(out))
    ensures var g := Observe(f, ExecutionDone(out));
            var h := Observe(g, ReplyEntered);
            && Allowed(retries, g, ReplyEntered)
            && AtReply(phase.Detached?, h) && h.outcome == Some(out) && h.body == None && Bounded(retries, h)
  {
  }

  lemma SendingStarts(retries: nat, d: bool, msg: TaskResult, f: Facts)
    requires Bounded(retries, f) && AtReply(d, f) && TheMessage(f) == Some(msg)
    ensures Allowed(retries, f, ResultPut(msg))
    ensures PhaseFits(retries, Replying(d, Sending(msg, InFlight(1))), Observe(f, ResultPut(msg)))
  {
  }

  lemma ReachedKeeps(retries: nat, phase: Phase, out: Executed, f: Facts)
    requires Bounded(retries, f) && PhaseFits(retries, phase, f) && (phase.Racing? || phase.Detached?)
    requires out.Reached?
    ensures EffectKeeps(retries, f, EnterReply(phase.Detached?, out))
  {
    OneOrTwo(retries, f, ExecutionDone(out), ReplyEntered);
    ReplyStarts(retries, phase, out, f);
  }

  lemma NotReachedKeeps(retries: nat, phase: Phase, out: Executed, f: Facts)
    requires Bounded(retries, f) && PhaseFits(retries, phase, f) && (phase.Racing? || phase.Detached?)
    requires out.NotReached?
    ensures EffectKeeps(retries, f, EnterReply(phase.Detached?, out))
  {
    var msg := Message(out, None).value;
    Three(retries, f, ExecutionDone(out), ReplyEntered, ResultPut(msg));
    ReplyStarts(retries, phase, out, f);
    var g := Observe(Observe(f, ExecutionDone(out)), ReplyEntered);
    SendingStarts(retries, phase.Detached?, msg, g);
  }

  lemma ExecutionEffectKeeps(retries: nat, phase: Phase, l: Label, f: Facts)
    requires Bounded(retries, f) && PhaseFits(retries, phase, f) && (phase.Racing? || phase.Detached?)
    requires ExecutionEffect(phase, l).Some?
    ensures EffectKeeps(retries, f, ExecutionEffect(phase, l).value)
  {
    match l
    case PollExecution(refused) =>
      if refused {
        NotReachedKeeps(retries, phase, NotReached, f);
      } else {
        One(retries, f, TargetRequest);
      }
    case TargetAnswered(out) =>
      if out.Reached? {
        ReachedKeeps(retries, phase, out, f);
      } else {
        NotReachedKeeps(retries, phase, out, f);
      }
  }

  lemma BodyKeeps(retries: nat, d: bool, out: Executed, body: Option<Bytes>, f: Facts)
    requires Bounded(retries, f) && PhaseFits(retries, Replying(d, Reading(out)), f)
    ensures EffectKeeps(retries, f, ReplyEffect(retries, d, Reading(out), BodyArrived(body)).value)
  {
    if body.Some? {
      OneOrTwo(retries, f, BodyRead(body.value), ResultPut(Message(out, body).value));
    }
  }

  lemma ResultStarts(retries: nat, d: bool, msg: TaskResult, k: nat, f: Facts)
    requires Bounded(retries, f) && PhaseFits(retries, Replying(d, Sending(msg, Backoff(k))), f)
    ensures EffectKeeps(retries, f, ReplyEffect(retries, d, Sending(msg, Backoff(k)), ResultWake).value)
  {
    One(retries, f, ResultPut(msg));
  }

  lemma ResultEnds(retries: nat, d: bool, msg: TaskResult, k: nat, a: Ack, f: Facts)
    requires Bounded(retries, f) && PhaseFits(retries, Replying(d, Sending(msg, InFlight(k))), f)
    ensures EffectKeeps(retries, f, ReplyEffect(retries, d, Sending(msg, InFlight(k)), ResultAnswered(a)).value)
  {
    var e := ResultOutcome(a);
    match OnOutcome(k, retries, a)
    case InFlight(_) => OneOrTwo(retries, f, e, ResultPut(msg));
    case _ => One(retries, f, e);
  }

  lemma StepKeeps(retries: nat, t: Task, l: Label)
    requires Inv(retries, t) && Step(retries, t, l).Some?
    ensures Inv(retries, Step(retries, t, l).value)
  {
    var f := Seen(t.trace);
    var e := StepEffect(retries, t.phase, l).value;
    assert EffectKeeps(retries, f, e) by {
      match t.phase
      case Racing(claim, x) =>
        if ClaimEffect(retries, claim, x, l).Some? {
          ClaimEffectKeeps(retries, claim, x, l, f);
        } else {
          ExecutionEffectKeeps(retries, t.phase, l, f);
        }
      case Detached(_) => ExecutionEffectKeeps(retries, t.phase, l, f);
      case Replying(d, Reading(out)) => BodyKeeps(retries, d, out, l.body, f);
      case Replying(d, Sending(msg, Backoff(k))) => ResultStarts(retries, d, msg, k, f);
      case Replying(d, Sending(msg, InFlight(k))) => ResultEnds(retries, d, msg, k, l.answer, f);
    }
    AddEvents(retries, t.trace, e.events);
  }
}
