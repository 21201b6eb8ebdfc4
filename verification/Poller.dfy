/** The polling loop (`poller`) and its back-off counter.

    Each turn of the loop makes one call.  A `Call` says how the call ends and how long things take: the call
    itself, whatever a sleep takes beyond its nominal length, and the time that passes between checking the
    timer and the next call.  Times are nanoseconds on a monotonic clock.  A run is any finite sequence of
    calls, so a property of all runs is a property of every prefix of the endless loop.

    `tries` is a u32.  Its increment wraps around in a release build (a debug build stops instead). */
module Poller {
  import opened Wrappers

  const SECOND: nat := 1_000_000_000
  const MINUTE: nat := 60 * SECOND
  const U32_SIZE: nat := 0x1_0000_0000

  datatype BeamError =
    | ProxyReqwestError(connect: bool)
    | ProxyTimeoutError
    | ProxyRejectedAuthorization
    | OtherError

  datatype Call = Call(result: Option<BeamError>, took: nat, oversleep: nat, lag: nat)

  /** How the loop reacts to a call. */
  datatype Kind = Served | ConnectRetry | TimeoutRetry | Stopped | FastRetry | SlowRetry

  /** One turn as seen from outside: when the call returned, the reaction, and the counter right after it. */
  datatype Entry = Entry(at: nat, kind: Kind, tries: nat)

  datatype State = State(tries: nat, timer: nat, now: nat)

  // ---------- specification of one turn and of a run ----------

  function React(tries: nat, result: Option<BeamError>): Kind {
    match result
    case None => Served
    case Some(ProxyReqwestError(true)) => ConnectRetry
    case Some(ProxyTimeoutError) => TimeoutRetry
    case Some(ProxyRejectedAuthorization) => Stopped
    case Some(_) => if tries < 10 then FastRetry else SlowRetry
  }

  function NominalSleep(kind: Kind): nat {
    match kind
    case ConnectRetry => SECOND
    case SlowRetry => 10 * SECOND
    case _ => 0
  }

  /** The u32 increment. */
  function WrappingInc(n: nat): nat {
    if n + 1 == U32_SIZE then 0 else n + 1
  }

  function Counted(tries: nat, kind: Kind): nat {
    if kind.TimeoutRetry? || kind.FastRetry? then WrappingInc(tries) else tries
  }

  function SaturatingSub(a: nat, b: nat): nat {
    if a < b then 0 else a - b
  }

  function EntryOf(s: State, call: Call): Entry {
    var kind := React(s.tries, call.result);
    Entry(s.now + call.took, kind, Counted(s.tries, kind))
  }

  function Turn(s: State, call: Call): State {
    var e := EntryOf(s, call);
    var checked := e.at + NominalSleep(e.kind) + call.oversleep;
    if e.kind.Stopped? then State(e.tries, s.timer, e.at)
    else if s.timer + MINUTE < checked then State(SaturatingSub(e.tries, 2), checked + call.lag, checked + call.lag)
    else State(e.tries, s.timer, checked + call.lag)
  }

  function Log(s: State, calls: seq<Call>): seq<Entry>
    decreases |calls|
  {
    if calls == [] then []
    else if EntryOf(s, calls[0]).kind.Stopped? then [EntryOf(s, calls[0])]
    else [EntryOf(s, calls[0])] + Log(Turn(s, calls[0]), calls[1..])
  }

  function After(s: State, calls: seq<Call>): State
    decreases |calls|
  {
    if calls == [] then s
    else if EntryOf(s, calls[0]).kind.Stopped? then Turn(s, calls[0])
    else After(Turn(s, calls[0]), calls[1..])
  }

  predicate Valid(s: State) {
    s.tries < U32_SIZE && s.timer <= s.now
  }

  // ---------- the loop ----------

  method Poll(start: nat, calls: seq<Call>) returns (log: seq<Entry>, tries: nat, timer: nat, now: nat)
    ensures log == Log(State(0, start, start), calls)
    ensures State(tries, timer, now) == After(State(0, start, start), calls)
  {
    tries, timer, now, log := 0, start, start, [];
    var i := 0;
    while i < |calls|
      invariant 0 <= i <= |calls|
      invariant Log(State(0, start, start), calls) == log + Log(State(tries, timer, now), calls[i..])
      invariant After(State(0, start, start), calls) == After(State(tries, timer, now), calls[i..])
    {
      Unroll(State(tries, timer, now), calls[i..]);
      assert calls[i..][1..] == calls[i + 1..];
      var entry;
      entry, tries, timer, now := OneTurn(tries, timer, now, calls[i]);
      log := log + [entry];
      if entry.kind.Stopped? {
        break;
      }
      i := i + 1;
    }
  }

  /** The body of the loop. */
  method OneTurn(tries: nat, timer: nat, now: nat, call: Call)
    returns (entry: Entry, newTries: nat, newTimer: nat, newNow: nat)
    ensures entry == EntryOf(State(tries, timer, now), call)
    ensures State(newTries, newTimer, newNow) == Turn(State(tries, timer, now), call)
  {
    newTimer, newNow := timer, now + call.took;
    var kind, sleep;
    kind, newTries, sleep := Handle(tries, call.result);
    entry := Entry(newNow, kind, newTries);
    if kind.Stopped? {
      return;
    }
    newNow := newNow + sleep + call.oversleep;
    if newTimer + MINUTE < newNow {
      newTries := if newTries < 2 then 0 else newTries - 2;
      newNow := newNow + call.lag;
      newTimer := newNow;
    } else {
      newNow := newNow + call.lag;
    }
  }

  /** The arms of the match on what a call gave. */
  method Handle(tries: nat, result: Option<BeamError>) returns (kind: Kind, counted: nat, sleep: nat)
    ensures kind == React(tries, result) && counted == Counted(tries, kind) && sleep == NominalSleep(kind)
  {
    kind, counted, sleep := Served, tries, 0;
    match result {
      case None =>
      case Some(ProxyReqwestError(true)) =>
        kind, sleep := ConnectRetry, SECOND;
      case Some(ProxyTimeoutError) =>
        kind, counted := TimeoutRetry, WrappingInc(tries);
      case Some(ProxyRejectedAuthorization) =>
        kind := Stopped;
      case Some(e) =>
        if tries < 10 {
          kind, counted := FastRetry, WrappingInc(tries);
        } else {
          kind, sleep := SlowRetry, 10 * SECOND;
        }
    }
  }

  lemma Unroll(s: State, calls: seq<Call>)
    requires calls != []
    ensures Log(s, calls)[0] == EntryOf(s, calls[0])
    ensures EntryOf(s, calls[0]).kind.Stopped? ==>
              Log(s, calls) == [EntryOf(s, calls[0])] && After(s, calls) == Turn(s, calls[0])
    ensures !EntryOf(s, calls[0]).kind.Stopped? ==>
              && Log(s, calls)[1..] == Log(Turn(s, calls[0]), calls[1..])
              && Log(s, calls) == [EntryOf(s, calls[0])] + Log(Turn(s, calls[0]), calls[1..])
              && After(s, calls) == After(Turn(s, calls[0]), calls[1..])
  {
  }

  // ---------- what each result does ----------

  /** A generic error: neither a failure to connect nor a timeout nor a rejection. */
  predicate IsGeneric(result: Option<BeamError>) {
    result == Some(ProxyReqwestError(false)) || result == Some(OtherError)
  }

  /** What the result adds to the counter: one for a timeout and for each generic error below ten. */
  function Added(tries: nat, result: Option<BeamError>): nat {
    if result == Some(ProxyTimeoutError) || (IsGeneric(result) && tries < 10) then 1 else 0
  }

  /** How long the loop sleeps on the result, in nanoseconds: a second if the proxy cannot be reached, and ten for a
      generic error from ten on. */
  function SleepsFor(tries: nat, result: Option<BeamError>): nat {
    if result == Some(ProxyReqwestError(true)) then 1_000_000_000
    else if IsGeneric(result) && tries >= 10 then 10_000_000_000
    else 0
  }

  /** One turn, read off the call alone.  A turn that ends more than a minute after the timer was set takes two off
      the counter and sets the timer again. */
  predicate TurnsInto(before: State, call: Call, entry: Entry, after: State) {
    var tries := (before.tries + Added(before.tries, call.result)) % 0x1_0000_0000;
    var end := before.now + call.took + SleepsFor(before.tries, call.result) + call.oversleep;
    && entry.at == before.now + call.took && entry.tries == tries
    && (entry.kind == Stopped <==> call.result == Some(ProxyRejectedAuthorization))
    && (entry.kind == FastRetry <==> IsGeneric(call.result) && before.tries < 10)
    && (entry.kind == SlowRetry <==> IsGeneric(call.result) && before.tries >= 10)
    && (entry.kind == ConnectRetry <==> call.result == Some(ProxyReqwestError(true)))
    && (entry.kind == TimeoutRetry <==> call.result == Some(ProxyTimeoutError))
    && (call.result != Some(ProxyRejectedAuthorization) ==>
          if before.timer + 60_000_000_000 < end
          then after == State(if tries < 2 then 0 else tries - 2, end + call.lag, end + call.lag)
          else after == State(tries, before.timer, end + call.lag))
  }

  /** The loop makes one turn for each call up to and including the first one that the proxy rejects, and no other
      result ends it; and each turn is as above. */
  lemma {:induction false} LoopExactly(s: State, calls: seq<Call>)
    requires Valid(s)
    ensures var log := Log(s, calls);
            && |log| <= |calls|
            && (|log| < |calls| ==> log != [] && calls[|log| - 1].result == Some(ProxyRejectedAuthorization))
            && (forall i :: 0 <= i < |log| - 1 ==> calls[i].result != Some(ProxyRejectedAuthorization))
            && (forall i :: 0 <= i < |log| ==>
                  TurnsInto(After(s, calls[..i]), calls[i], log[i], After(s, calls[..i + 1])))
    decreases |calls|
  {
    if calls != [] {
      Unroll(s, calls);
      TurnExactly(s, calls[0]);
      FirstTurn(s, calls);
      if !EntryOf(s, calls[0]).kind.Stopped? {
        var next, rest, log := Turn(s, calls[0]), calls[1..], Log(s, calls);
        LoopExactly(next, rest);
        forall i | 0 < i < |log|
          ensures TurnsInto(After(s, calls[..i]), calls[i], log[i], After(s, calls[..i + 1]))
          ensures i < |log| - 1 ==> calls[i].result != Some(ProxyRejectedAuthorization)
        {
          LaterTurn(s, calls, i);
          LaterTurn(s, calls, i + 1);
          assert log[1..][i - 1] == log[i] && rest[i - 1] == calls[i];
        }
      }
    }
  }

  lemma TurnExactly(s: State, call: Call)
    requires Valid(s)
    ensures Valid(Turn(s, call)) && TurnsInto(s, call, EntryOf(s, call), Turn(s, call))
  {
  }

  lemma FirstTurn(s: State, calls: seq<Call>)
    requires calls != []
    ensures After(s, calls[..0]) == s && After(s, calls[..1]) == Turn(s, calls[0])
  {
    Unroll(s, calls[..1]);
    assert calls[..1][1..] == [];
  }

  lemma LaterTurn(s: State, calls: seq<Call>, i: nat)
    requires 0 < i <= |calls| && !EntryOf(s, calls[0]).kind.Stopped?
    ensures After(s, calls[..i]) == After(Turn(s, calls[0]), calls[1..][..i - 1])
  {
    Unroll(s, calls[..i]);
    assert calls[..i][1..] == calls[1..][..i - 1];
  }

  // ---------- the rate of retries without sleep ----------

  /** Generic errors retried without sleeping, among those that arrived by `deadline`. */
  function FastBy(log: seq<Entry>, deadline: nat): nat {
    if log == [] then 0
    else (if log[0].kind.FastRetry? && log[0].at <= deadline then 1 else 0) + FastBy(log[1..], deadline)
  }

  /** Timeouts by `deadline` that wrapped the counter from 2^32-1 to 0. */
  function WrapsBy(log: seq<Entry>, deadline: nat): nat {
    if log == [] then 0
    else (if log[0].kind.TimeoutRetry? && log[0].tries == 0 && log[0].at <= deadline then 1 else 0)
         + WrapsBy(log[1..], deadline)
  }

  function Potential(tries: nat): nat {
    if tries < 10 then tries else 10
  }

  /** Whole minutes from `timer` to `deadline`: no more decays than this can happen in between. */
  function Minutes(timer: nat, deadline: nat): nat {
    if timer <= deadline then (deadline - timer) / MINUTE else 0
  }

  lemma MinuteGone(timer: nat, later: nat, deadline: nat)
    requires timer + MINUTE <= later <= deadline
    ensures Minutes(timer, deadline) >= 1 + Minutes(later, deadline)
  {
    var rest := deadline - later;
    assert deadline - timer >= rest + MINUTE;
    assert (rest + MINUTE) / MINUTE == 1 + rest / MINUTE;
    DivMonotone(rest + MINUTE, deadline - timer);
  }

  lemma DivMonotone(a: nat, b: nat)
    requires a <= b
    ensures a / MINUTE <= b / MINUTE
  {
  }

  lemma {:induction false} NothingBefore(s: State, calls: seq<Call>, deadline: nat)
    requires deadline < s.now
    ensures FastBy(Log(s, calls), deadline) == 0 == WrapsBy(Log(s, calls), deadline)
    decreases |calls|
  {
    if calls != [] && !EntryOf(s, calls[0]).kind.Stopped? {
      NothingBefore(Turn(s, calls[0]), calls[1..], deadline);
    }
  }

  /** The amortised argument: a retry without sleep uses up one unit of 10 - Potential, which only a decay (two
      units, at most once a minute) or a wrap-around (ten units) gives back. */
  lemma {:induction false} FastRetriesAmortised(s: State, calls: seq<Call>, deadline: nat)
    requires Valid(s)
    ensures FastBy(Log(s, calls), deadline)
            <= 10 - Potential(s.tries) + 2 * Minutes(s.timer, deadline) + 10 * WrapsBy(Log(s, calls), deadline)
    decreases |calls|
  {
    if calls != [] && !EntryOf(s, calls[0]).kind.Stopped? {
      var next := Turn(s, calls[0]);
      FastRetriesAmortised(next, calls[1..], deadline);
      assert Log(s, calls)[1..] == Log(next, calls[1..]);
      if deadline < next.now {
        NothingBefore(next, calls[1..], deadline);
      } else if next.timer != s.timer {
        MinuteGone(s.timer, next.timer, deadline);
      }
    }
  }

  /** In every run, whatever happens: within any time `t` from the start, the generic errors retried without
      sleeping number at most 10 + 2 * (whole minutes in t), plus 10 for each time the counter wrapped around. */
  lemma RateBoundWithWraps(start: nat, calls: seq<Call>, t: nat)
    ensures FastBy(Log(State(0, start, start), calls), start + t)
            <= 10 + 2 * (t / MINUTE) + 10 * WrapsBy(Log(State(0, start, start), calls), start + t)
  {
    FastRetriesAmortised(State(0, start, start), calls, start + t);
  }

  function Timeouts(log: seq<Entry>): nat {
    if log == [] then 0 else (if log[0].kind.TimeoutRetry? then 1 else 0) + Timeouts(log[1..])
  }

  function Excess(tries: nat): nat {
    if tries < 10 then 0 else tries - 10
  }

  /** Only timeouts count above 10, so every wrap-around takes 2^32 - 10 of them. */
  lemma {:induction false} WrapsTakeTimeouts(s: State, calls: seq<Call>, deadline: nat)
    requires Valid(s)
    ensures Timeouts(Log(s, calls)) + Excess(s.tries) >= (U32_SIZE - 10) * WrapsBy(Log(s, calls), deadline)
    decreases |calls|
  {
    if calls != [] && !EntryOf(s, calls[0]).kind.Stopped? {
      WrapsTakeTimeouts(Turn(s, calls[0]), calls[1..], deadline);
      assert Log(s, calls)[1..] == Log(Turn(s, calls[0]), calls[1..]);
    }
  }

  // ---------- the rate bound without wrap-arounds ----------

  /** Every call that ends in a timeout takes at least `tau`. */
  predicate Lasting(calls: seq<Call>, tau: nat) {
    forall i :: 0 <= i < |calls| && calls[i].result == Some(ProxyTimeoutError) ==> tau <= calls[i].took
  }

  /** In nanoseconds.  2^32 - 10 timeouts that last so long take more than five minutes, in which the bound grows by
      as much as a wrap-around of the counter gives. */
  const LEAST: nat := 70

  /** Two retries for each reset of the timer that this much time in timeouts takes, up to ten. */
  function Saved(time: int): nat {
    var most := MINUTE - LEAST;
    if time <= 0 then 0
    else if time <= most then 2
    else if time <= 2 * most then 4
    else if time <= 3 * most then 6
    else if time <= 4 * most then 8
    else 10
  }

  /** The retries saved up on the way from 10 to `tries` before the last reset of the timer, `gap` ago. */
  function Credit(tries: nat, gap: nat): nat {
    Saved(Excess(tries) * LEAST - (if gap < MINUTE then gap else MINUTE))
  }

  /** The retries without sleep that the counter still allows until the timer is reset. */
  function Spare(tries: nat, gap: nat): nat {
    10 - Potential(tries) + Credit(tries, gap)
  }

  predicate Lasts(call: Call) {
    call.result == Some(ProxyTimeoutError) ==> LEAST <= call.took
  }

  function Fast(kind: Kind): nat {
    if kind.FastRetry? then 1 else 0
  }

  lemma SpareWithoutReset(tries: nat, gap: nat, call: Call, later: nat)
    requires tries < U32_SIZE && Lasts(call)
    requires gap + call.took <= MINUTE && gap + call.took <= later
    ensures var kind := React(tries, call.result);
            Fast(kind) + Spare(Counted(tries, kind), later) <= Spare(tries, gap)
  {
  }

  lemma SpareAfterReset(tries: nat, gap: nat, call: Call)
    requires tries < U32_SIZE && Lasts(call)
    ensures var kind := React(tries, call.result);
            Fast(kind) + Spare(SaturatingSub(Counted(tries, kind), 2), 0) <= Spare(tries, gap) + 2
  {
  }

  /** The retries without sleep that a state still allows until `deadline`. */
  function Allowance(s: State, deadline: nat): nat
    requires s.timer <= s.now
  {
    Spare(s.tries, s.now - s.timer) + 2 * Minutes(s.timer, deadline)
  }

  /** Without a reset of the timer a turn costs no more than it may, with one two more. */
  predicate Spares(s: State, fast: nat, t: State)
    requires s.timer <= s.now && t.timer <= t.now
  {
    var spare := fast + Spare(t.tries, t.now - t.timer);
    if t.timer == s.timer then spare <= Spare(s.tries, s.now - s.timer)
    else s.timer + MINUTE <= t.timer && spare <= Spare(s.tries, s.now - s.timer) + 2
  }

  lemma TurnShape(s: State, call: Call)
    requires Valid(s) && !EntryOf(s, call).kind.Stopped?
    ensures var kind, t := React(s.tries, call.result), Turn(s, call);
            && Valid(t)
            && if t.timer == s.timer then
                 && t.tries == Counted(s.tries, kind)
                 && s.now + call.took <= t.now && s.now + call.took <= s.timer + MINUTE
               else
                 t == State(SaturatingSub(Counted(s.tries, kind), 2), t.now, t.now) && s.timer + MINUTE <= t.timer
  {
  }

  lemma TurnSpares(s: State, call: Call)
    requires Valid(s) && Lasts(call) && !EntryOf(s, call).kind.Stopped?
    ensures Valid(Turn(s, call)) && Spares(s, Fast(React(s.tries, call.result)), Turn(s, call))
  {
    TurnShape(s, call);
    var next, kind := Turn(s, call), React(s.tries, call.result);
    var gap := s.now - s.timer;
    if next.timer != s.timer {
      SpareAfterReset(s.tries, gap, call);
    } else {
      SpareWithoutReset(s.tries, gap, call, next.now - s.timer);
    }
  }

  /** The minutes that pass while the counter is above 10 are saved up, and pay for the wrap-around. */
  lemma AllowanceShrinks(s: State, fast: nat, t: State, deadline: nat)
    requires s.timer <= s.now && t.timer <= t.now <= deadline && Spares(s, fast, t)
    ensures fast + Allowance(t, deadline) <= Allowance(s, deadline)
  {
    if t.timer != s.timer {
      MinuteGone(s.timer, t.timer, deadline);
    }
  }

  lemma {:induction false} LastingRetriesAmortised(s: State, calls: seq<Call>, deadline: nat)
    requires Valid(s) && Lasting(calls, LEAST)
    ensures FastBy(Log(s, calls), deadline) <= Allowance(s, deadline)
    decreases |calls|
  {
    if calls != [] && !EntryOf(s, calls[0]).kind.Stopped? {
      var next := Turn(s, calls[0]);
      assert Log(s, calls)[1..] == Log(next, calls[1..]);
      if deadline < next.now {
        NothingBefore(next, calls[1..], deadline);
      } else {
        TurnSpares(s, calls[0]);
        AllowanceShrinks(s, Fast(React(s.tries, calls[0].result)), next, deadline);
        LastingRetriesAmortised(next, calls[1..], deadline);
      }
    }
  }

  predicate KeepsRate(start: nat, calls: seq<Call>, t: nat) {
    FastBy(Log(State(0, start, start), calls), start + t) <= 10 + 2 * (t / MINUTE)
  }

  /** The back-off rate bound: in every run, of any length, whose timed-out calls each take 70 nanoseconds or more,
      at most 10 + 2 * (whole minutes in t) generic errors are retried without sleeping within any time `t`. */
  lemma BackoffRateBound(start: nat, calls: seq<Call>, t: nat)
    requires Lasting(calls, LEAST)
    ensures KeepsRate(start, calls, t)
  {
    LastingRetriesAmortised(State(0, start, start), calls, start + t);
  }

  ghost predicate RateKeptIfLasting(tau: nat) {
    forall start: nat, calls: seq<Call>, t: nat | Lasting(calls, tau) :: KeepsRate(start, calls, t)
  }

  ghost predicate RateKeptIfFewer(timeouts: nat) {
    forall start: nat, calls: seq<Call>, t: nat | Timeouts(Log(State(0, start, start), calls)) < timeouts ::
      KeepsRate(start, calls, t)
  }

  /** The 70 nanoseconds are exact. */
  lemma RateKeptExactlyIfLasting(tau: nat)
    ensures RateKeptIfLasting(tau) <==> tau >= LEAST
  {
    if tau >= LEAST {
      forall start: nat, calls: seq<Call>, t: nat | Lasting(calls, tau) ensures KeepsRate(start, calls, t) {
        BackoffRateBound(start, calls, t);
      }
    } else {
      var calls := TwentyErrorsInFiveMinutes(tau);
      assert !KeepsRate(0, calls, TWENTY_BY);
    }
  }

  /** With calls of any duration, the bound holds for all runs with fewer than 2^32 - 10 timeouts, and no more. */
  lemma RateKeptExactlyIfFewer(timeouts: nat)
    ensures RateKeptIfFewer(timeouts) <==> timeouts <= U32_SIZE - 10
  {
    if timeouts <= U32_SIZE - 10 {
      forall start: nat, calls: seq<Call>, t: nat | Timeouts(Log(State(0, start, start), calls)) < timeouts
        ensures KeepsRate(start, calls, t)
      {
        RateBoundWithWraps(start, calls, t);
        WrapsTakeTimeouts(State(0, start, start), calls, start + t);
      }
    } else {
      var calls := WrapsAttainTheBound(1);
      assert !KeepsRate(0, calls, 0);
    }
  }

  // ---------- runs that lead from one state to another ----------

  predicate NeverStops(calls: seq<Call>) {
    forall i :: 0 <= i < |calls| ==> calls[i].result != Some(ProxyRejectedAuthorization)
  }

  /** The calls lead from `s` to `t` with so many retries without sleep by `deadline` and so many timeouts, each of
      which takes at least `tau`. */
  predicate Leads(tau: nat, deadline: nat, s: State, calls: seq<Call>, t: State, fast: nat, timeouts: nat) {
    && NeverStops(calls) && Lasting(calls, tau)
    && After(s, calls) == t
    && FastBy(Log(s, calls), deadline) == fast && Timeouts(Log(s, calls)) == timeouts
  }

  lemma {:induction false} Sequential(s: State, a: seq<Call>, b: seq<Call>, deadline: nat)
    requires NeverStops(a)
    ensures After(s, a + b) == After(After(s, a), b)
    ensures FastBy(Log(s, a + b), deadline) == FastBy(Log(s, a), deadline) + FastBy(Log(After(s, a), b), deadline)
    ensures WrapsBy(Log(s, a + b), deadline) == WrapsBy(Log(s, a), deadline) + WrapsBy(Log(After(s, a), b), deadline)
    ensures Timeouts(Log(s, a + b)) == Timeouts(Log(s, a)) + Timeouts(Log(After(s, a), b))
    decreases |a|
  {
    if a == [] {
      assert a + b == b;
    } else {
      assert (a + b)[1..] == a[1..] + b;
      Unroll(s, a + b);
      Unroll(s, a);
      Sequential(Turn(s, a[0]), a[1..], b, deadline);
    }
  }

  lemma Then(tau: nat, deadline: nat, s: State, a: seq<Call>, t: State, fast: nat, timeouts: nat,
             b: seq<Call>, u: State, moreFast: nat, moreTimeouts: nat)
    requires Leads(tau, deadline, s, a, t, fast, timeouts) && Leads(tau, deadline, t, b, u, moreFast, moreTimeouts)
    ensures Leads(tau, deadline, s, a + b, u, fast + moreFast, timeouts + moreTimeouts)
  {
    Sequential(s, a, b, deadline);
  }

  function Timeout(took: nat): Call {
    Call(Some(ProxyTimeoutError), took, 0, 0)
  }

  const QUICK_ERROR: Call := Call(Some(OtherError), 0, 0, 0)

  /** One timeout, with or without a reset of the timer. */
  function TimedOut(tau: nat, s: State): State {
    var now, tries := s.now + tau, WrappingInc(s.tries);
    if s.timer + MINUTE < now then State(SaturatingSub(tries, 2), now, now) else State(tries, s.timer, now)
  }

  lemma OneTimeout(tau: nat, deadline: nat, s: State)
    requires Valid(s)
    ensures Leads(tau, deadline, s, [Timeout(tau)], TimedOut(tau, s), 0, 1)
  {
    Unroll(s, [Timeout(tau)]);
    assert [Timeout(tau)][1..] == [];
  }

  lemma ThenTimeout(tau: nat, deadline: nat, s: State, calls: seq<Call>, t: State, fast: nat, timeouts: nat)
    requires Leads(tau, deadline, s, calls, t, fast, timeouts) && Valid(t)
    ensures Leads(tau, deadline, s, calls + [Timeout(tau)], TimedOut(tau, t), fast, timeouts + 1)
  {
    OneTimeout(tau, deadline, t);
    Then(tau, deadline, s, calls, t, fast, timeouts, [Timeout(tau)], TimedOut(tau, t), 0, 1);
  }

  /** `n` times `tau`, by addition. */
  function Sum(n: nat, tau: nat): nat {
    if n == 0 then 0 else Sum(n - 1, tau) + tau
  }

  lemma {:induction false} SumIsProduct(n: nat, tau: nat)
    ensures Sum(n, tau) == n * tau
  {
    if n > 0 {
      SumIsProduct(n - 1, tau);
      assert n * tau == (n - 1) * tau + tau;
    }
  }

  /** Timeouts within a minute of the last reset. */
  lemma {:induction false} Rise(tau: nat, deadline: nat, s: State, n: nat) returns (calls: seq<Call>)
    requires s.timer <= s.now && s.tries + n < U32_SIZE && s.now + Sum(n, tau) <= s.timer + MINUTE
    ensures Leads(tau, deadline, s, calls, State(s.tries + n, s.timer, s.now + Sum(n, tau)), 0, n)
  {
    if n == 0 {
      calls := [];
    } else {
      var init := Rise(tau, deadline, s, n - 1);
      ThenTimeout(tau, deadline, s, init, State(s.tries + n - 1, s.timer, s.now + Sum(n - 1, tau)), 0, n - 1);
      calls := init + [Timeout(tau)];
    }
  }

  /** As many timeouts as it takes from one reset of the timer to the next. */
  lemma Lap(tau: nat, deadline: nat, n: nat, tries: nat, timer: nat) returns (calls: seq<Call>)
    requires n >= 2 && Sum(n - 1, tau) <= MINUTE < Sum(n, tau) && tries + n < U32_SIZE
    ensures Leads(tau, deadline, State(tries, timer, timer), calls,
                  State(tries + n - 2, timer + Sum(n, tau), timer + Sum(n, tau)), 0, n)
  {
    var s, t := State(tries, timer, timer), State(tries + n - 1, timer, timer + Sum(n - 1, tau));
    var init := Rise(tau, deadline, s, n - 1);
    ThenTimeout(tau, deadline, s, init, t, 0, n - 1);
    calls := init + [Timeout(tau)];
  }

  function LapsEnd(tau: nat, n: nat, k: nat, tries: nat, timer: nat): State
    requires n >= 2
  {
    State(tries + k * (n - 2), timer + Sum(k, n * tau), timer + Sum(k, n * tau))
  }

  lemma {:induction false} Laps(tau: nat, deadline: nat, n: nat, k: nat, tries: nat, timer: nat)
    returns (calls: seq<Call>)
    requires n >= 2 && (n - 1) * tau <= MINUTE < n * tau && tries + k * (n - 2) + 2 < U32_SIZE
    ensures Leads(tau, deadline, State(tries, timer, timer), calls, LapsEnd(tau, n, k, tries, timer), 0, k * n)
    decreases k
  {
    if k == 0 {
      calls := [];
    } else {
      assert k * (n - 2) == (k - 1) * (n - 2) + (n - 2) && k * n == (k - 1) * n + n;
      SumIsProduct(n - 1, tau);
      SumIsProduct(n, tau);
      var init := Laps(tau, deadline, n, k - 1, tries, timer);
      var mid := LapsEnd(tau, n, k - 1, tries, timer);
      var last := Lap(tau, deadline, n, mid.tries, mid.timer);
      Then(tau, deadline, State(tries, timer, timer), init, mid, 0, (k - 1) * n,
           last, LapsEnd(tau, n, k, tries, timer), 0, n);
      calls := init + last;
    }
  }

  lemma OneError(tau: nat, deadline: nat, s: State)
    requires s.timer <= s.now <= s.timer + MINUTE && s.now <= deadline && s.tries < 10
    ensures Leads(tau, deadline, s, [QUICK_ERROR], State(s.tries + 1, s.timer, s.now), 1, 0)
  {
    assert [QUICK_ERROR][1..] == [];
    assert Log(s, [QUICK_ERROR]) == [Entry(s.now, FastRetry, s.tries + 1)];
  }

  /** Errors that come at once. */
  lemma {:induction false} QuickErrors(tau: nat, deadline: nat, s: State, n: nat) returns (calls: seq<Call>)
    requires s.timer <= s.now <= s.timer + MINUTE && s.now <= deadline && s.tries + n <= 10
    ensures Leads(tau, deadline, s, calls, State(s.tries + n, s.timer, s.now), n, 0)
    decreases n
  {
    if n == 0 {
      calls := [];
    } else {
      var init := QuickErrors(tau, deadline, s, n - 1);
      var t, u := State(s.tries + n - 1, s.timer, s.now), State(s.tries + n, s.timer, s.now);
      OneError(tau, deadline, t);
      Then(tau, deadline, s, init, t, n - 1, 0, [QUICK_ERROR], u, 1, 0);
      calls := init + [QUICK_ERROR];
    }
  }

  // ---------- runs that break the bounds ----------

  /** From 10 up to the wrap-around in no time. */
  lemma UpToTheWrap(deadline: nat) returns (calls: seq<Call>)
    ensures Leads(0, deadline, State(10, 0, 0), calls, State(0, 0, 0), 0, U32_SIZE - 10)
  {
    var s, t := State(10, 0, 0), State(U32_SIZE - 1, 0, 0);
    SumIsProduct(U32_SIZE - 11, 0);
    var rise := Rise(0, deadline, s, U32_SIZE - 11);
    ThenTimeout(0, deadline, s, rise, t, 0, U32_SIZE - 11);
    calls := rise + [Timeout(0)];
  }

  /** Timeouts that take no time attain the bound of `RateBoundWithWraps`: ten quick errors, and then `wraps` times
      the 2^32 - 10 timeouts up to a wrap-around and ten more errors. */
  lemma {:induction false} WrapsAttainTheBound(wraps: nat) returns (calls: seq<Call>)
    ensures Leads(0, 0, State(0, 0, 0), calls, State(10, 0, 0), 10 + 10 * wraps, (U32_SIZE - 10) * wraps)
    decreases wraps
  {
    var zero, ten := State(0, 0, 0), State(10, 0, 0);
    var errors := QuickErrors(0, 0, zero, 10);
    if wraps == 0 {
      calls := errors;
    } else {
      var before := WrapsAttainTheBound(wraps - 1);
      var timeouts := UpToTheWrap(0);
      var n, m := 10 + 10 * (wraps - 1), (U32_SIZE - 10) * (wraps - 1);
      Then(0, 0, zero, before, ten, n, m, timeouts, zero, 0, U32_SIZE - 10);
      Then(0, 0, zero, before + timeouts, zero, n, m + (U32_SIZE - 10), errors, ten, 10, 0);
      calls := before + timeouts + errors;
    }
  }

  /** 69 nanoseconds times the 2^32 - 2 timeouts it takes from 10 to the wrap-around with four decays on the way:
      a little less than five minutes. */
  const TWENTY_BY: nat := 69 * (U32_SIZE - 2)

  const MINUTE_OF_TIMEOUTS: nat := MINUTE / 69 + 1

  lemma ClimbInFiveMinutes() returns (calls: seq<Call>)
    ensures exists timer: nat ::
              && timer <= TWENTY_BY <= timer + MINUTE
              && Leads(69, TWENTY_BY, State(10, 0, 0), calls, State(0, timer, TWENTY_BY), 0, U32_SIZE - 2)
  {
    var s, d, n := State(10, 0, 0), TWENTY_BY, MINUTE_OF_TIMEOUTS;
    var laps := Laps(69, d, n, 4, 10, 0);
    var mid := LapsEnd(69, n, 4, 10, 0);
    var m := U32_SIZE - 1 - mid.tries;
    SumIsProduct(4, n * 69);
    SumIsProduct(m, 69);
    var rise := Rise(69, d, mid, m);
    var top := State(U32_SIZE - 1, mid.timer, mid.now + m * 69);
    Then(69, d, s, laps, mid, 0, 4 * n, rise, top, 0, m);
    ThenTimeout(69, d, s, laps + rise, top, 0, 4 * n + m);
    calls := laps + rise + [Timeout(69)];
  }

  /** With shorter timeouts, twenty errors can be retried without sleeping in less than five minutes. */
  lemma TwentyErrorsInFiveMinutes(tau: nat) returns (calls: seq<Call>)
    requires tau < LEAST
    ensures Lasting(calls, tau) && !KeepsRate(0, calls, TWENTY_BY)
  {
    var d, zero, ten := TWENTY_BY, State(0, 0, 0), State(10, 0, 0);
    var errors := QuickErrors(69, d, zero, 10);
    var climb := ClimbInFiveMinutes();
    var timer: nat :| timer <= d <= timer + MINUTE && Leads(69, d, ten, climb, State(0, timer, d), 0, U32_SIZE - 2);
    Then(69, d, zero, errors, ten, 10, 0, climb, State(0, timer, d), 0, U32_SIZE - 2);
    var more := QuickErrors(69, d, State(0, timer, d), 10);
    Then(69, d, zero, errors + climb, State(0, timer, d), 10, U32_SIZE - 2, more, State(10, timer, d), 10, 0);
    calls := errors + climb + more;
  }

  // ---------- the counter when timeouts last ----------

  /** If every call that ends in a timeout lasts longer than the 60 seconds of the long poll, the counter is at most
      10 at every loop head (whatever run leads there) and at most 11 in between, and never wraps around. */
  lemma {:induction false} CounterSafety(s: State, calls: seq<Call>)
    requires Valid(s) && s.tries <= 10 && Lasting(calls, MINUTE + 1)
    ensures After(s, calls).tries <= 10
    ensures forall i :: 0 <= i < |Log(s, calls)| ==> Log(s, calls)[i].tries <= 11
    ensures forall deadline :: WrapsBy(Log(s, calls), deadline) == 0
    decreases |calls|
  {
    if calls != [] && !EntryOf(s, calls[0]).kind.Stopped? {
      var next := Turn(s, calls[0]);
      CounterSafety(next, calls[1..]);
      assert Log(s, calls)[1..] == Log(next, calls[1..]);
    }
  }

  ghost predicate AtMostTenIfLasting(tau: nat) {
    forall start: nat, calls: seq<Call> | Lasting(calls, tau) :: After(State(0, start, start), calls).tries <= 10
  }

  /** The hypothesis of `CounterSafety` is exact: ten quick errors and one timeout of 60 seconds lead to 11. */
  lemma AtMostTenExactlyIfLasting(tau: nat)
    ensures AtMostTenIfLasting(tau) <==> tau > MINUTE
  {
    if tau > MINUTE {
      forall start: nat, calls: seq<Call> | Lasting(calls, tau)
        ensures After(State(0, start, start), calls).tries <= 10
      {
        CounterSafety(State(0, start, start), calls);
      }
    } else {
      var zero, ten := State(0, 0, 0), State(10, 0, 0);
      var errors := QuickErrors(tau, 0, zero, 10);
      ThenTimeout(tau, 0, zero, errors, ten, 10, 0);
      assert After(State(0, 0, 0), errors + [Timeout(tau)]).tries == 11;
    }
  }

  /** The increment never overflows if timeouts last longer than half a minute: then there are no three of them from
      one reset of the timer to the next. */
  lemma {:induction false} NoOverflow(s: State, calls: seq<Call>, deadline: nat)
    requires Valid(s) && Lasting(calls, MINUTE / 2 + 1)
    requires s.tries <= 10 || (s.tries == 11 && s.timer + MINUTE / 2 < s.now)
    ensures WrapsBy(Log(s, calls), deadline) == 0
    ensures After(s, calls).tries <= 11
    decreases |calls|
  {
    if calls != [] && !EntryOf(s, calls[0]).kind.Stopped? {
      NoOverflow(Turn(s, calls[0]), calls[1..], deadline);
      assert Log(s, calls)[1..] == Log(Turn(s, calls[0]), calls[1..]);
    }
  }

  ghost predicate NoOverflowIfLasting(tau: nat) {
    forall start: nat, calls: seq<Call>, deadline: nat | Lasting(calls, tau) ::
      WrapsBy(Log(State(0, start, start), calls), deadline) == 0
  }

  lemma NoOverflowExactlyIfLasting(tau: nat)
    ensures NoOverflowIfLasting(tau) <==> tau > MINUTE / 2
  {
    if tau > MINUTE / 2 {
      forall start: nat, calls: seq<Call>, deadline: nat | Lasting(calls, tau)
        ensures WrapsBy(Log(State(0, start, start), calls), deadline) == 0
      {
        NoOverflow(State(0, start, start), calls, deadline);
      }
    } else {
      var calls, deadline := HalfMinutesOverflow();
      assert Lasting(calls, tau);
    }
  }

  /** Three timeouts of half a minute each, over and over, raise the counter by one each time round. */
  lemma HalfMinutesOverflow() returns (calls: seq<Call>, deadline: nat)
    ensures Lasting(calls, MINUTE / 2)
    ensures WrapsBy(Log(State(0, 0, 0), calls), deadline) > 0
  {
    var tau, k, s := MINUTE / 2, U32_SIZE - 3, State(0, 0, 0);
    var mid := LapsEnd(tau, 3, k, 0, 0);
    var top := State(U32_SIZE - 1, mid.timer, mid.now + 2 * tau);
    deadline := top.now + tau;
    var laps := Laps(tau, deadline, 3, k, 0, 0);
    SumIsProduct(2, tau);
    var rise := Rise(tau, deadline, mid, 2);
    Then(tau, deadline, s, laps, mid, 0, k * 3, rise, top, 0, 2);
    calls := laps + rise + [Timeout(tau)];
    Sequential(s, laps + rise, [Timeout(tau)], deadline);
    Unroll(top, [Timeout(tau)]);
  }

  // ---------- time asleep ----------

  function Count(log: seq<Entry>, kind: Kind): nat {
    if log == [] then 0 else (if log[0].kind == kind then 1 else 0) + Count(log[1..], kind)
  }

  function Slept(log: seq<Entry>): nat {
    if log == [] then 0 else NominalSleep(log[0].kind) + Slept(log[1..])
  }

  lemma {:induction false} SleptIsCounted(log: seq<Entry>)
    ensures Slept(log) == SECOND * Count(log, ConnectRetry) + 10 * SECOND * Count(log, SlowRetry)
  {
    if log != [] {
      SleptIsCounted(log[1..]);
    }
  }

  lemma TurnTakes(s: State, call: Call)
    ensures Turn(s, call).now >= s.now + NominalSleep(EntryOf(s, call).kind)
  {
  }

  /** The nominal sleeps of a run fit into the time it takes: every connect failure costs a second and every slow
      retry ten. */
  lemma SleepsTakeTime(s: State, calls: seq<Call>)
    ensures SECOND * Count(Log(s, calls), ConnectRetry) + 10 * SECOND * Count(Log(s, calls), SlowRetry)
            <= After(s, calls).now - s.now
  {
    SleptIsCounted(Log(s, calls));
    SleptFits(s, calls);
  }

  lemma {:induction false} SleptFits(s: State, calls: seq<Call>)
    ensures s.now + Slept(Log(s, calls)) <= After(s, calls).now
    decreases |calls|
  {
    if calls != [] {
      Unroll(s, calls);
      TurnTakes(s, calls[0]);
      if !EntryOf(s, calls[0]).kind.Stopped? {
        SleptFits(Turn(s, calls[0]), calls[1..]);
      } else {
        assert Log(s, calls)[1..] == [];
      }
    }
  }
}
