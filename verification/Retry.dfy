/** The bounded retry loop under every request to the Beam proxy (`retry_beam_req`).

    The network is a stream of outcomes: `reqFn(k)` is what the k-th attempt gets, counting from 1, and
    `request(k)` is what it sends.
    The loop is modelled twice: as the imperative method `RetryBeamReq`, and as a small-step machine
    (`OnOutcome`) that the claim/answer protocol interleaves with other work.  `MachineRefines` shows
    that driving the machine to its end gives what the method gives. */
module Retry {
  import opened Wrappers

  /** What one attempt brings back.  Every HTTP answer is a `Response`, whatever its status. */
  datatype Attempt<+T> = Response(status: nat, payload: T) | TransportError(timeout: bool)

  datatype RetryError = BadStatus(status: nat) | Transport(timeout: bool)

  datatype Event = Start(attempt: nat) | Sleep(seconds: nat)

  predicate IsErrorStatus(status: nat) {
    400 <= status < 600
  }

  /** An outcome after which the loop tries again, as long as it has tries left. */
  predicate Retryable<T>(a: Attempt<T>) {
    match a
    case Response(status, _) => IsErrorStatus(status)
    case TransportError(timeout) => timeout
  }

  predicate BacksOff<T>(a: Attempt<T>) {
    a.Response? && IsErrorStatus(a.status)
  }

  function MaxAttempts(retries: nat): nat {
    if retries == 0 then 1 else retries
  }

  /** What the caller gets when `a` is the last outcome. */
  function Verdict<T>(a: Attempt<T>): Result<Attempt<T>, RetryError> {
    match a
    case Response(status, _) => if IsErrorStatus(status) then Failure(BadStatus(status)) else Success(a)
    case TransportError(timeout) => Failure(Transport(timeout))
  }

  /** The loop stops at attempt `n`: every earlier outcome asks for another attempt, and attempt `n`
      either does not or is the last one allowed. */
  predicate StopsAt<T>(reqFn: nat -> Attempt<T>, retries: nat, n: nat) {
    && 1 <= n <= MaxAttempts(retries)
    && (forall k :: 1 <= k < n ==> Retryable(reqFn(k)))
    && (n == MaxAttempts(retries) || !Retryable(reqFn(n)))
  }

  /** Everything that happens up to and including the start of attempt `n`: one second of sleep after each
      earlier error status, none after a timeout. */
  function LogUpTo<T>(reqFn: nat -> Attempt<T>, n: nat): seq<Event> {
    if n == 0 then []
    else if n > 1 && BacksOff(reqFn(n - 1)) then LogUpTo(reqFn, n - 1) + [Sleep(1), Start(n)]
    else LogUpTo(reqFn, n - 1) + [Start(n)]
  }

  method RetryBeamReq<Q, T>(request: nat -> Q, reqFn: nat -> Attempt<T>, retries: nat)
    returns (outcome: Result<Attempt<T>, RetryError>, attempts: nat, log: seq<Event>, sent: seq<Q>)
    ensures StopsAt(reqFn, retries, attempts)
    ensures outcome == Verdict(reqFn(attempts))
    ensures outcome.Success? ==> outcome.value.Response? && !IsErrorStatus(outcome.value.status)
    ensures log == LogUpTo(reqFn, attempts)
    ensures |sent| == attempts && forall k :: 0 <= k < attempts ==> sent[k] == request(k + 1)
  {
    attempts, log, sent := 0, [], [];
    while true
      invariant attempts == 0 || attempts < retries
      invariant forall k :: 1 <= k <= attempts ==> Retryable(reqFn(k))
      invariant |sent| == attempts && forall k :: 0 <= k < attempts ==> sent[k] == request(k + 1)
      invariant log == LogUpTo(reqFn, attempts) +
                       (if attempts > 0 && BacksOff(reqFn(attempts)) then [Sleep(1)] else [])
      decreases MaxAttempts(retries) - attempts
    {
      attempts := attempts + 1;
      log, sent := log + [Start(attempts)], sent + [request(attempts)];
      var resp := reqFn(attempts);
      if resp.TransportError? {
        if resp.timeout && attempts < retries {
          continue;
        }
        return Failure(Transport(resp.timeout)), attempts, log, sent;
      }
      if !IsErrorStatus(resp.status) {
        return Success(resp), attempts, log, sent;
      } else if attempts < retries {
        log := log + [Sleep(1)];
      } else {
        return Failure(BadStatus(resp.status)), attempts, log, sent;
      }
    }
  }

  /** The loop stops at an attempt exactly if all earlier ones brought a 4xx or 5xx status or a timeout and this one
      does not or is the last of `retries` (one, if that is 0); it then gives this attempt's status or transport
      error, or its response if that is no error. */
  lemma StopsExactly<T>(reqFn: nat -> Attempt<T>, retries: nat, n: nat)
    ensures StopsAt(reqFn, retries, n) <==>
            && n >= 1 && (n <= retries || n == 1)
            && (forall k :: 1 <= k < n ==>
                  match reqFn(k)
                  case Response(status, _) => 400 <= status <= 599
                  case TransportError(timeout) => timeout)
            && (n >= retries ||
                match reqFn(n)
                case Response(status, _) => status < 400 || status > 599
                case TransportError(timeout) => !timeout)
    ensures match reqFn(n)
            case Response(status, _) =>
              Verdict(reqFn(n)) == if 400 <= status <= 599 then Failure(BadStatus(status)) else Success(reqFn(n))
            case TransportError(timeout) => Verdict(reqFn(n)) == Failure(Transport(timeout))
  {
  }

  /** Between two attempts it sleeps one second exactly if the first brought a 4xx or 5xx status. */
  lemma SleepsExactly<T>(reqFn: nat -> Attempt<T>, n: nat)
    requires n >= 1
    ensures LogUpTo(reqFn, 1) == [Start(1)]
    ensures LogUpTo(reqFn, n + 1)
            == LogUpTo(reqFn, n)
               + (if reqFn(n).Response? && 400 <= reqFn(n).status <= 599 then [Sleep(1)] else [])
               + [Start(n + 1)]
  {
    assert LogUpTo(reqFn, 0) == [];
  }

  /** Some attempt is the last one, and only one: the loop terminates and its outcome is determined. */
  lemma {:induction false} StopExistsUnique<T>(reqFn: nat -> Attempt<T>, retries: nat, from: nat) returns (n: nat)
    requires 1 <= from <= MaxAttempts(retries)
    requires forall k :: 1 <= k < from ==> Retryable(reqFn(k))
    ensures StopsAt(reqFn, retries, n)
    ensures forall m :: StopsAt(reqFn, retries, m) ==> m == n
    decreases MaxAttempts(retries) - from
  {
    if from == MaxAttempts(retries) || !Retryable(reqFn(from)) {
      n := from;
    } else {
      n := StopExistsUnique(reqFn, retries, from + 1);
    }
  }

  function Sleeps(log: seq<Event>): nat {
    if log == [] then 0 else Sleeps(log[..|log| - 1]) + (if log[|log| - 1].Sleep? then log[|log| - 1].seconds else 0)
  }

  function ErrorStatuses<T>(reqFn: nat -> Attempt<T>, n: nat): nat {
    if n <= 1 then 0 else ErrorStatuses(reqFn, n - 1) + (if BacksOff(reqFn(n - 1)) then 1 else 0)
  }

  lemma SleepsSnoc(log: seq<Event>, e: Event)
    ensures Sleeps(log + [e]) == Sleeps(log) + (if e.Sleep? then e.seconds else 0)
  {
    assert (log + [e])[..|log|] == log;
  }

  /** The time slept is one second per error status among the attempts before the last, so at most
      one second less than the number of attempts. */
  lemma {:induction false} SleepsOncePerErrorStatus<T>(reqFn: nat -> Attempt<T>, n: nat)
    requires n >= 1
    ensures Sleeps(LogUpTo(reqFn, n)) == ErrorStatuses(reqFn, n) <= n - 1
  {
    if n == 1 {
      SleepsSnoc([], Start(1));
      assert LogUpTo(reqFn, 1) == LogUpTo(reqFn, 0) + [Start(1)] == [] + [Start(1)];
    } else {
      SleepsOncePerErrorStatus(reqFn, n - 1);
      var before := LogUpTo(reqFn, n - 1);
      if BacksOff(reqFn(n - 1)) {
        SleepsSnoc(before, Sleep(1));
        SleepsSnoc(before + [Sleep(1)], Start(n));
        assert before + [Sleep(1), Start(n)] == before + [Sleep(1)] + [Start(n)];
      } else {
        SleepsSnoc(before, Start(n));
      }
    }
  }

  // ---------- the same loop as a state machine ----------

  /** One suspended call of the loop: waiting for attempt `tries`, sleeping after it, or finished. */
  datatype Loop<+T> =
    | InFlight(tries: nat)
    | Backoff(tries: nat)
    | Finished(outcome: Result<Attempt<T>, RetryError>)

  /** What the loop does when attempt `tries` comes back with `a`. */
  function OnOutcome<T>(tries: nat, retries: nat, a: Attempt<T>): Loop<T> {
    match a
    case TransportError(timeout) =>
      if timeout && tries < retries then InFlight(tries + 1) else Finished(Failure(Transport(timeout)))
    case Response(status, _) =>
      if !IsErrorStatus(status) then Finished(Success(a))
      else if tries < retries then Backoff(tries)
      else Finished(Failure(BadStatus(status)))
  }

  datatype Run<+T> = Run(outcome: Result<Attempt<T>, RetryError>, log: seq<Event>)

  /** Runs the machine to its end from the moment attempt `tries` starts. */
  function Drive<T>(reqFn: nat -> Attempt<T>, retries: nat, tries: nat): Run<T>
    decreases retries - tries
  {
    match OnOutcome(tries, retries, reqFn(tries))
    case InFlight(next) =>
      var rest := Drive(reqFn, retries, next);
      Run(rest.outcome, [Start(tries)] + rest.log)
    case Backoff(same) =>
      var rest := Drive(reqFn, retries, same + 1);
      Run(rest.outcome, [Start(tries), Sleep(1)] + rest.log)
    case Finished(outcome) => Run(outcome, [Start(tries)])
  }

  /** The machine gives the outcome and the log that the imperative loop gives. */
  lemma MachineRefines<T>(reqFn: nat -> Attempt<T>, retries: nat, n: nat)
    requires StopsAt(reqFn, retries, n)
    ensures Drive(reqFn, retries, 1) == Run(Verdict(reqFn(n)), LogUpTo(reqFn, n))
  {
    DriveFrom(reqFn, retries, 1, n);
    assert LogUpTo(reqFn, 0) == [];
  }

  /** The log just before attempt `tries` starts. */
  function Before<T>(reqFn: nat -> Attempt<T>, tries: nat): seq<Event>
    requires tries >= 1
  {
    LogUpTo(reqFn, tries - 1) + if tries > 1 && BacksOff(reqFn(tries - 1)) then [Sleep(1)] else []
  }

  lemma BeforeNext<T>(reqFn: nat -> Attempt<T>, tries: nat)
    requires tries >= 1
    ensures LogUpTo(reqFn, tries) == Before(reqFn, tries) + [Start(tries)]
    ensures Before(reqFn, tries + 1)
            == Before(reqFn, tries) + (if BacksOff(reqFn(tries)) then [Start(tries), Sleep(1)] else [Start(tries)])
  {
  }

  lemma {:induction false} DriveFrom<T>(reqFn: nat -> Attempt<T>, retries: nat, tries: nat, n: nat)
    requires StopsAt(reqFn, retries, n) && 1 <= tries <= n
    ensures Drive(reqFn, retries, tries).outcome == Verdict(reqFn(n))
    ensures Before(reqFn, tries) + Drive(reqFn, retries, tries).log == LogUpTo(reqFn, n)
    decreases n - tries
  {
    BeforeNext(reqFn, tries);
    if tries < n {
      assert Retryable(reqFn(tries));
      DriveFrom(reqFn, retries, tries + 1, n);
      var rest := Drive(reqFn, retries, tries + 1).log;
      var event := if BacksOff(reqFn(tries)) then [Start(tries), Sleep(1)] else [Start(tries)];
      assert Drive(reqFn, retries, tries).log == event + rest;
      Associative(Before(reqFn, tries), event, rest);
    }
  }

  lemma Associative<E>(a: seq<E>, b: seq<E>, c: seq<E>)
    ensures a + (b + c) == a + b + c
  {
  }
}
