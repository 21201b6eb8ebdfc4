/** The time-limited cache of the central site list (`CentralTargetsKind`), used by many requests at once.

    The lock is held only while the stored pair is read or written, never while the list is fetched.  Storing a
    fetched list is two steps: the clock is read (`TakeTime`), because the right-hand side of the assignment is
    evaluated first, and then the lock is taken and the pair is overwritten (`Store`).  Times are nanoseconds. */
module SiteCache {
  import opened Wrappers
  import CacheControl

  const SECOND: nat := 1_000_000_000

  /** A successfully fetched list and how long it may be cached. */
  datatype Fetched<M> = Fetched(lifetime: nat, mapping: M)

  /** The response to a fetch: its Cache-Control header, and the list if the body decodes. */
  datatype Response<M> = Response(cacheControl: Option<string>, list: Option<M>)

  function Fetch<M>(response: Option<Response<M>>): Option<Fetched<M>> {
    match response
    case Some(Response(header, Some(list))) => Some(Fetched(CacheControl.CacheFor(header) * SECOND, list))
    case _ => None
  }

  // ---------- one getter alone: the code as it is written ----------

  /** One request for the list: what the fetch gives if there is one, how long it takes, and how long passes
      between reading the clock and storing. */
  datatype Request<M> = Request(fetched: Option<Fetched<M>>, took: nat, delay: nat)

  datatype Cell<M> = Cell(until: nat, mapping: M, now: nat)

  /** The cell and the answer after one `get`. */
  function Alone<M>(c: Cell<M>, r: Request<M>): (Cell<M>, M) {
    if c.until > c.now then (c, c.mapping)
    else
      match r.fetched
      case None => (c.(now := c.now + r.took), c.mapping)
      case Some(f) => (Cell(c.now + r.took + f.lifetime, f.mapping, c.now + r.took + r.delay), f.mapping)
  }

  class CentralTargets<M> {
    var until: nat
    var mapping: M
    var now: nat

    function View(): Cell<M>
      reads this
    {
      Cell(until, mapping, now)
    }

    /** From the response to the first fetch. */
    constructor (start: nat, cacheControl: Option<string>, list: M)
      ensures mapping == list && now == start
      ensures exists seconds: nat ::
                CacheControl.AsksFor(cacheControl, seconds) && until == start + 1_000_000_000 * seconds
    {
      var lifetime := CacheControl.CacheFor(cacheControl);
      until, mapping, now := start + lifetime * SECOND, list, start;
      new;
      CacheControl.CacheForExactly(cacheControl, lifetime);
    }

    method Get(response: Option<Response<M>>, took: nat, delay: nat) returns (targets: M)
      modifies this
      ensures (View(), targets) == Alone(old(View()), Request(Fetch(response), took, delay))
      ensures old(until > now) ==> View() == old(View()) && targets == mapping
      ensures old(until <= now) ==>
                match response
                case Some(Response(header, Some(list))) =>
                  && targets == mapping == list && now == old(now) + took + delay
                  && exists seconds: nat ::
                       CacheControl.AsksFor(header, seconds) && until == old(now) + took + 1_000_000_000 * seconds
                case _ => targets == mapping == old(mapping) && until == old(until) && now == old(now) + took
    {
      if until > now {
        return mapping;
      }
      now := now + took;
      match Fetch(response) {
        case None =>
          return mapping;
        case Some(f) =>
          CacheControl.CacheForExactly(response.value.cacheControl, f.lifetime / SECOND);
          var expiry := now + f.lifetime;
          targets := f.mapping;
          now := now + delay;
          until, mapping := expiry, targets;
      }
    }
  }

  // ---------- many getters at once ----------

  /** A clock reading together with the list to be stored under it. */
  datatype Stamp<M> = Stamp(at: nat, fetched: Fetched<M>)

  datatype Phase<M> =
    | Idle
    | Fetching
    | Arrived(fetched: Fetched<M>)
    | FetchFailed
    | Stamped(stamp: Stamp<M>)

  /** One getter, and the times at which it started a fetch. */
  datatype Getter<M> = Getter(phase: Phase<M>, starts: seq<nat>)

  /** Where an answer comes from: the cache, the getter's own fetch, or the cache because that fetch failed. */
  datatype Origin = Hit | Fresh | FellBack

  datatype Answer<M> = Answer(at: nat, mapping: M, origin: Origin)

  /** The clock, the stored pair and the getters; and for reference all lists fetched, all clock readings made
      for storing, those that were stored (the first of each when the cache was created), each in the order of
      events, and all answers given. */
  datatype State<M> = State(
    now: nat, until: nat, mapping: M, getters: seq<Getter<M>>,
    fetched: seq<Fetched<M>>, stamps: seq<Stamp<M>>, stored: seq<Stamp<M>>, answers: seq<Answer<M>>)

  datatype Label<M> =
    | Tick(time: nat)
    | Check(g: nat)
    | Arrive(g: nat, result: Option<Fetched<M>>)
    | TakeTime(g: nat)
    | Store(g: nat)
    | FallBack(g: nat)

  function Created<M>(start: nat, first: Fetched<M>, getters: nat): State<M> {
    State(start, start + first.lifetime, first.mapping, Repeat(getters, Getter(Idle, [])),
          [first], [Stamp(start, first)], [Stamp(start, first)], [])
  }

  function Enter<M>(s: State<M>, g: nat, phase: Phase<M>): State<M>
    requires g < |s.getters|
  {
    s.(getters := s.getters[g := s.getters[g].(phase := phase)])
  }

  function Respond<M>(s: State<M>, g: nat, mapping: M, origin: Origin): State<M>
    requires g < |s.getters|
  {
    Enter(s, g, Idle).(answers := s.answers + [Answer(s.now, mapping, origin)])
  }

  /** None when the label does not apply. */
  function Step<M>(s: State<M>, l: Label<M>): Option<State<M>> {
    if l.Tick? then Some(s.(now := s.now + l.time))
    else if l.g >= |s.getters| then None
    else
      var getter := s.getters[l.g];
      match (l, getter.phase)
      case (Check(g), Idle) =>
        if s.until > s.now then Some(Respond(s, g, s.mapping, Hit))
        else Some(s.(getters := s.getters[g := Getter(Fetching, getter.starts + [s.now])]))
      case (Arrive(g, Some(f)), Fetching) => Some(Enter(s, g, Arrived(f)).(fetched := s.fetched + [f]))
      case (Arrive(g, None), Fetching) => Some(Enter(s, g, FetchFailed))
      case (FallBack(g), FetchFailed) => Some(Respond(s, g, s.mapping, FellBack))
      case (TakeTime(g), Arrived(f)) =>
        Some(Enter(s, g, Stamped(Stamp(s.now, f))).(stamps := s.stamps + [Stamp(s.now, f)]))
      case (Store(g), Stamped(stamp)) =>
        Some(Respond(s, g, stamp.fetched.mapping, Fresh)
             .(until := stamp.at + stamp.fetched.lifetime, mapping := stamp.fetched.mapping,
               stored := s.stored + [stamp]))
      case _ => None
  }

  /** Nothing that may happen to a getter is left out. */
  lemma EveryEventIsTaken<M>(s: State<M>, g: nat, result: Option<Fetched<M>>, time: nat)
    requires g < |s.getters|
    ensures Step(s, Tick(time)).Some?
    ensures match s.getters[g].phase
            case Idle => Step(s, Check(g)).Some?
            case Fetching => Step(s, Arrive(g, result)).Some?
            case Arrived(_) => Step(s, TakeTime(g)).Some?
            case FetchFailed => Step(s, FallBack(g)).Some?
            case Stamped(_) => Step(s, Store(g)).Some?
  {
  }

  function Run<M>(s: State<M>, labels: seq<Label<M>>): Option<State<M>> {
    if labels == [] then Some(s)
    else
      match Run(s, labels[..|labels| - 1])
      case None => None
      case Some(before) => Step(before, labels[|labels| - 1])
  }

  // ---------- safety ----------

  /** The stored pair is the list and the expiry of one and the same clock reading. */
  ghost predicate PairOf<M>(s: State<M>, stamp: Stamp<M>) {
    s.mapping == stamp.fetched.mapping && s.until == stamp.at + stamp.fetched.lifetime
  }

  /** The list was stamped no later than `at` and is fresh then. */
  ghost predicate FreshAt<M>(stamp: Stamp<M>, mapping: M, at: nat) {
    stamp.fetched.mapping == mapping && stamp.at <= at < stamp.at + stamp.fetched.lifetime
  }

  ghost predicate Justified<M>(s: State<M>, a: Answer<M>) {
    && (exists f :: f in s.fetched && f.mapping == a.mapping)
    && (a.origin.Hit? ==> exists stamp :: stamp in s.stamps && FreshAt(stamp, a.mapping, a.at))
  }

  /** The stored pair is that of the last stored stamp, and every list at hand has been fetched. */
  ghost predicate Sound<M>(s: State<M>) {
    && s.stored != [] && PairOf(s, s.stored[|s.stored| - 1])
    && (forall stamp :: stamp in s.stored ==> stamp in s.stamps)
    && (forall stamp :: stamp in s.stamps ==> stamp.at <= s.now && stamp.fetched in s.fetched)
    && (forall g :: 0 <= g < |s.getters| ==>
          match s.getters[g].phase
          case Arrived(f) => f in s.fetched
          case Stamped(stamp) => stamp in s.stamps
          case _ => true)
  }

  ghost predicate Safe<M>(s: State<M>) {
    Sound(s) && forall a :: a in s.answers ==> Justified(s, a)
  }

  /** What has been fetched, stamped and answered stays. */
  ghost predicate Extends<M>(s: State<M>, t: State<M>) {
    s.fetched <= t.fetched && s.stamps <= t.stamps && s.answers <= t.answers && s.now <= t.now
  }

  lemma StepExtends<M>(s: State<M>, l: Label<M>)
    requires Step(s, l).Some?
    ensures Extends(s, Step(s, l).value)
    ensures |Step(s, l).value.getters| == |s.getters|
  {
  }

  lemma StaysJustified<M>(s: State<M>, t: State<M>, a: Answer<M>)
    requires Justified(s, a) && Extends(s, t)
    ensures Justified(t, a)
  {
    var f :| f in s.fetched && f.mapping == a.mapping;
    assert f in t.fetched;
    if a.origin.Hit? {
      var stamp :| stamp in s.stamps && FreshAt(stamp, a.mapping, a.at);
      assert stamp in t.stamps;
    }
  }

  lemma NewAnswerJustified<M>(s: State<M>, l: Label<M>, a: Answer<M>)
    requires Sound(s) && Step(s, l).Some? && Step(s, l).value.answers == s.answers + [a]
    ensures Justified(Step(s, l).value, a)
  {
    var t := Step(s, l).value;
    var stamp := s.stored[|s.stored| - 1];
    assert stamp in s.stored && stamp in t.stamps && stamp.fetched in t.fetched;
    assert t.answers[|s.answers|] == a;
    var getter := s.getters[l.g];
    if l.Store? {
      assert getter.phase.stamp.fetched in t.fetched && getter.phase.stamp.fetched.mapping == a.mapping;
    } else {
      assert stamp.fetched.mapping == a.mapping;
    }
    if a.origin.Hit? {
      assert FreshAt(stamp, a.mapping, a.at);
    }
  }

  lemma StepKeepsSound<M>(s: State<M>, l: Label<M>)
    requires Sound(s) && Step(s, l).Some?
    ensures Sound(Step(s, l).value)
  {
  }

  lemma StepKeepsSafe<M>(s: State<M>, l: Label<M>)
    requires Safe(s) && Step(s, l).Some?
    ensures Safe(Step(s, l).value)
  {
    var t := Step(s, l).value;
    StepExtends(s, l);
    StepKeepsSound(s, l);
    forall a | a in t.answers ensures Justified(t, a) {
      if a in s.answers {
        StaysJustified(s, t, a);
      } else {
        NewAnswerJustified(s, l, a);
      }
    }
  }

  /** Cache safety: in every interleaving of any number of getters, the stored list and expiry come from one and
      the same successful fetch, every answer is a list that some successful fetch gave, and a hit was stamped
      and not yet expired when it was answered. */
  lemma {:induction false} CacheSafety<M>(start: nat, first: Fetched<M>, getters: nat, labels: seq<Label<M>>)
    requires Run(Created(start, first, getters), labels).Some?
    ensures Safe(Run(Created(start, first, getters), labels).value)
    decreases |labels|
  {
    if labels == [] {
      assert PairOf(Created(start, first, getters), Stamp(start, first));
    } else {
      var earlier := labels[..|labels| - 1];
      CacheSafety(start, first, getters, earlier);
      StepKeepsSafe(Run(Created(start, first, getters), earlier).value, labels[|labels| - 1]);
    }
  }

  /** One getter that is not interrupted does what the method `Get` does. */
  lemma AloneIsARun<M>(s: State<M>, g: nat, r: Request<M>) returns (t: State<M>, labels: seq<Label<M>>)
    requires g < |s.getters| && s.getters[g].phase == Idle
    ensures Run(s, labels) == Some(t)
    ensures IsAlone(s, g, r, t)
  {
    if s.until > s.now {
      labels, t := OneMore(s, [], s, Check(g));
    } else {
      labels, t := StartFetch(s, g, r.took);
      match r.fetched
      case None => labels, t := FetchAndFallBack(s, labels, t, g);
      case Some(f) => labels, t := FetchAndStore(s, labels, t, g, f, r.delay);
    }
  }

  /** `t` has the pair, the clock and one more answer as after `get` alone, and the getter is idle again. */
  ghost predicate IsAlone<M>(s: State<M>, g: nat, r: Request<M>, t: State<M>) {
    var after := Alone(Cell(s.until, s.mapping, s.now), r);
    && Cell(t.until, t.mapping, t.now) == after.0
    && |t.answers| == |s.answers| + 1 && t.answers[|s.answers|].mapping == after.1
    && g < |t.getters| == |s.getters| && t.getters[g].phase == Idle
  }

  lemma StartFetch<M>(s: State<M>, g: nat, took: nat) returns (labels: seq<Label<M>>, t: State<M>)
    requires g < |s.getters| && s.getters[g].phase == Idle && s.until <= s.now
    ensures Run(s, labels) == Some(t)
    ensures t.until == s.until && t.mapping == s.mapping && t.now == s.now + took && t.answers == s.answers
    ensures |t.getters| == |s.getters| && t.getters[g].phase == Fetching
  {
    labels, t := OneMore(s, [], s, Check(g));
    labels, t := OneMore(s, labels, t, Tick(took));
  }

  lemma FetchAndFallBack<M>(s: State<M>, labels: seq<Label<M>>, t: State<M>, g: nat)
    returns (more: seq<Label<M>>, u: State<M>)
    requires Run(s, labels) == Some(t) && g < |t.getters| && t.getters[g].phase == Fetching
    ensures Run(s, more) == Some(u)
    ensures u.until == t.until && u.mapping == t.mapping && u.now == t.now
    ensures u.answers == t.answers + [Answer(t.now, t.mapping, FellBack)]
    ensures |u.getters| == |t.getters| && u.getters[g].phase == Idle
  {
    more, u := OneMore(s, labels, t, Arrive(g, None));
    more, u := OneMore(s, more, u, FallBack(g));
  }

  lemma FetchAndStore<M>(s: State<M>, labels: seq<Label<M>>, t: State<M>, g: nat, f: Fetched<M>, delay: nat)
    returns (more: seq<Label<M>>, u: State<M>)
    requires Run(s, labels) == Some(t) && g < |t.getters| && t.getters[g].phase == Fetching
    ensures Run(s, more) == Some(u)
    ensures u.until == t.now + f.lifetime && u.mapping == f.mapping && u.now == t.now + delay
    ensures u.answers == t.answers + [Answer(u.now, f.mapping, Fresh)]
    ensures |u.getters| == |t.getters| && u.getters[g].phase == Idle
  {
    more, u := OneMore(s, labels, t, Arrive(g, Some(f)));
    more, u := OneMore(s, more, u, TakeTime(g));
    assert u.getters[g].phase == Stamped(Stamp(t.now, f));
    more, u := OneMore(s, more, u, Tick(delay));
    more, u := OneMore(s, more, u, Store(g));
  }

  lemma OneMore<M>(s: State<M>, labels: seq<Label<M>>, t: State<M>, l: Label<M>)
    returns (more: seq<Label<M>>, u: State<M>)
    requires Run(s, labels) == Some(t) && Step(t, l).Some?
    ensures more == labels + [l] && Run(s, more) == Some(u) && Some(u) == Step(t, l)
  {
    more, u := labels + [l], Step(t, l).value;
    assert more[..|labels|] == labels;
  }

  // ---------- failed fetches ----------

  /** The getter's next label is the failure of its fetch. */
  predicate WillFail<M>(g: nat, labels: seq<Label<M>>)
    decreases |labels|
  {
    labels != [] &&
    if labels[0].Tick? || labels[0].g != g then WillFail(g, labels[1..])
    else labels[0].Arrive? && labels[0].result.None?
  }

  /** Whether a label belongs to a fetch that fails: its start, its failure or falling back. */
  predicate OfFailure<M>(l: Label<M>, rest: seq<Label<M>>) {
    match l
    case Check(g) => WillFail(g, rest)
    case Arrive(_, result) => result.None?
    case FallBack(_) => true
    case _ => false
  }

  /** The run without the fetches that fail. */
  function Erase<M>(labels: seq<Label<M>>): seq<Label<M>>
    decreases |labels|
  {
    if labels == [] then []
    else (if OfFailure(labels[0], labels[1..]) then [] else [labels[0]]) + Erase(labels[1..])
  }

  function WithoutFellBack<M>(answers: seq<Answer<M>>): seq<Answer<M>> {
    if answers == [] then []
    else
      var last := answers[|answers| - 1];
      WithoutFellBack(answers[..|answers| - 1]) + if last.origin.FellBack? then [] else [last]
  }

  ghost predicate SameCache<M>(s: State<M>, t: State<M>) {
    && s.now == t.now && s.until == t.until && s.mapping == t.mapping
    && s.fetched == t.fetched && s.stamps == t.stamps && s.stored == t.stored
  }

  function WithoutFailure<M>(phase: Phase<M>, fails: bool): Phase<M> {
    if phase.FetchFailed? || (phase.Fetching? && fails) then Idle else phase
  }

  /** `t` is as `s`, but without the fetches that have failed or that fail in the rest of the run. */
  ghost predicate Erased<M>(s: State<M>, t: State<M>, rest: seq<Label<M>>) {
    && SameCache(s, t) && |s.getters| == |t.getters| && t.answers == WithoutFellBack(s.answers)
    && forall g :: 0 <= g < |s.getters| ==>
         t.getters[g].phase == WithoutFailure(s.getters[g].phase, WillFail(g, rest))
  }

  lemma {:induction false} RunFirst<M>(s: State<M>, l: Label<M>, rest: seq<Label<M>>)
    ensures Run(s, [l] + rest) == if Step(s, l).Some? then Run(Step(s, l).value, rest) else None
    decreases |rest|
  {
    var all := [l] + rest;
    if rest == [] {
      assert all[..0] == [];
    } else {
      var init := rest[..|rest| - 1];
      assert all[..|rest|] == [l] + init;
      RunFirst(s, l, init);
    }
  }

  /** Only a fetch under way can fail. */
  lemma {:induction false} IsFetching<M>(s: State<M>, g: nat, labels: seq<Label<M>>)
    requires g < |s.getters| && Run(s, labels).Some? && WillFail(g, labels)
    ensures s.getters[g].phase.Fetching?
    decreases |labels|
  {
    var l, rest := labels[0], labels[1..];
    assert labels == [l] + rest;
    RunFirst(s, l, rest);
    if l.Tick? || l.g != g {
      IsFetching(Step(s, l).value, g, rest);
    }
  }

  lemma WithoutFellBackSnoc<M>(answers: seq<Answer<M>>, a: Answer<M>)
    ensures WithoutFellBack(answers + [a]) == WithoutFellBack(answers) + if a.origin.FellBack? then [] else [a]
  {
    assert (answers + [a])[..|answers|] == answers;
  }

  lemma OtherAnswersStay<M>(s: State<M>, l: Label<M>)
    requires Step(s, l).Some? && Step(s, l).value.answers != s.answers
    ensures var more := Step(s, l).value.answers;
            && |more| == |s.answers| + 1
            && WithoutFellBack(more)
               == WithoutFellBack(s.answers) + if l.FallBack? then [] else [more[|s.answers|]]
  {
    var more := Step(s, l).value.answers;
    WithoutFellBackSnoc(s.answers, more[|s.answers|]);
  }

  lemma DroppedStep<M>(s: State<M>, t: State<M>, l: Label<M>, rest: seq<Label<M>>)
    requires Step(s, l).Some? && Run(Step(s, l).value, rest).Some? && Erased(s, t, [l] + rest) && OfFailure(l, rest)
    ensures Erased(Step(s, l).value, t, rest)
  {
    assert ([l] + rest)[1..] == rest;
    if Step(s, l).value.answers != s.answers {
      OtherAnswersStay(s, l);
    }
    if l.Check? {
      IsFetching(Step(s, l).value, l.g, rest);
    }
  }

  lemma KeptStep<M>(s: State<M>, t: State<M>, l: Label<M>, rest: seq<Label<M>>)
    requires Step(s, l).Some? && Erased(s, t, [l] + rest) && !OfFailure(l, rest)
    ensures Step(t, l).Some? && Erased(Step(s, l).value, Step(t, l).value, rest)
  {
    assert ([l] + rest)[1..] == rest;
    if Step(s, l).value.answers != s.answers {
      OtherAnswersStay(s, l);
    }
    if !l.Tick? {
      assert t.getters[l.g].phase == s.getters[l.g].phase;
    }
  }

  lemma {:induction false} ErasedRun<M>(s: State<M>, t: State<M>, labels: seq<Label<M>>)
    requires Run(s, labels).Some? && Erased(s, t, labels)
    ensures Run(t, Erase(labels)).Some?
    ensures Erased(Run(s, labels).value, Run(t, Erase(labels)).value, [])
    decreases |labels|
  {
    if labels != [] {
      var l, rest := labels[0], labels[1..];
      assert labels == [l] + rest;
      RunFirst(s, l, rest);
      if OfFailure(l, rest) {
        DroppedStep(s, t, l, rest);
        ErasedRun(Step(s, l).value, t, rest);
        assert Erase(labels) == Erase(rest);
      } else {
        KeptStep(s, t, l, rest);
        ErasedRun(Step(s, l).value, Step(t, l).value, rest);
        assert Erase(labels) == [l] + Erase(rest);
        RunFirst(t, l, Erase(rest));
      }
    }
  }

  /** The answer was given when label number `k` fell back, and is what was stored then. */
  ghost predicate StoredThen<M>(s0: State<M>, labels: seq<Label<M>>, k: nat, a: Answer<M>) {
    && k < |labels| && labels[k].FallBack?
    && Run(s0, labels[..k]).Some?
    && Run(s0, labels[..k]).value.now == a.at && Run(s0, labels[..k]).value.mapping == a.mapping
  }

  lemma {:induction false} FellBackOnStored<M>(s0: State<M>, labels: seq<Label<M>>, a: Answer<M>)
    requires Run(s0, labels).Some? && a in Run(s0, labels).value.answers && a !in s0.answers && a.origin.FellBack?
    ensures exists k: nat :: StoredThen(s0, labels, k, a)
    decreases |labels|
  {
    var n := |labels| - 1;
    var init := labels[..n];
    if a in Run(s0, init).value.answers {
      FellBackOnStored(s0, init, a);
      var k: nat :| StoredThen(s0, init, k, a);
      assert labels[..k] == init[..k];
      assert StoredThen(s0, labels, k, a);
    } else {
      assert StoredThen(s0, labels, n, a);
    }
  }

  /** Fetches that fail leave no trace: in every interleaving, without them the clock, the stored pair, everything
      fetched and stored and every other answer are the same; and a getter whose fetch failed is answered with
      what is stored when it falls back (which may be newer than what was stored when it began). */
  lemma FailedFetch<M>(start: nat, first: Fetched<M>, getters: nat, labels: seq<Label<M>>)
    requires Run(Created(start, first, getters), labels).Some?
    ensures Run(Created(start, first, getters), Erase(labels)).Some?
    ensures var s := Run(Created(start, first, getters), labels).value;
            var t := Run(Created(start, first, getters), Erase(labels)).value;
            && SameCache(s, t) && t.answers == WithoutFellBack(s.answers)
            && (forall a :: a in s.answers && a.origin.FellBack? ==>
                  exists k: nat :: StoredThen(Created(start, first, getters), labels, k, a))
  {
    var s0 := Created(start, first, getters);
    ErasedRun(s0, s0, labels);
    forall a | a in Run(s0, labels).value.answers && a.origin.FellBack?
      ensures exists k: nat :: StoredThen(s0, labels, k, a)
    {
      FellBackOnStored(s0, labels, a);
    }
  }

  // ---------- how often the list is fetched ----------

  /** What limits the time between reading the clock and storing: it is at most `lag`, or lists are stored in the
      order of their clock readings. */
  datatype Rule = Within(lag: nat) | InOrder

  /** The clock reading that was stored last. */
  function StoredAt<M>(s: State<M>): nat {
    if s.stored == [] then 0 else s.stored[|s.stored| - 1].at
  }

  /** A step of a run in which every fetch succeeds with lifetime `c`, and storing obeys the rule. */
  predicate Disciplined<M>(c: nat, rule: Rule, s: State<M>, l: Label<M>) {
    match l
    case Arrive(_, result) => result.Some? && result.value.lifetime == c
    case Store(g) =>
      g < |s.getters| && s.getters[g].phase.Stamped? ==>
        var at := s.getters[g].phase.stamp.at;
        if rule.InOrder? then StoredAt(s) <= at else s.now <= at + rule.lag
    case _ => true
  }

  function DisciplinedRun<M>(c: nat, rule: Rule, s: State<M>, labels: seq<Label<M>>): Option<State<M>> {
    if labels == [] then Some(s)
    else
      match DisciplinedRun(c, rule, s, labels[..|labels| - 1])
      case None => None
      case Some(before) =>
        if Disciplined(c, rule, before, labels[|labels| - 1]) then Step(before, labels[|labels| - 1]) else None
  }

  /** The state a disciplined run reaches from the creation of the cache. */
  function Disciplining<M>(c: nat, rule: Rule, start: nat, first: Fetched<M>, getters: nat, labels: seq<Label<M>>)
    : Option<State<M>>
  {
    DisciplinedRun(c, rule, Created(start, first, getters), labels)
  }

  /** How far the expiry can fall back: not at all for one getter, whatever the lag. */
  function Slack(rule: Rule, getters: nat): nat {
    if rule.InOrder? || getters <= 1 then 0 else rule.lag
  }

  /** The least time between two fetch starts of one getter. */
  function Gap(c: nat, slack: nat): nat {
    if slack <= c then c - slack else 0
  }

  function Last(starts: seq<nat>): nat
    requires starts != []
  {
    starts[|starts| - 1]
  }

  /** Consecutive fetch starts are at least `d` apart. */
  predicate Spaced(starts: seq<nat>, d: nat) {
    forall i :: 0 < i < |starts| ==> starts[i - 1] + d <= starts[i]
  }

  /** What the times of a getter keep to, by whichever rule lists are stored. */
  predicate InTime<M>(c: nat, s: State<M>, getter: Getter<M>) {
    && (getter.starts != [] ==> Last(getter.starts) <= s.now)
    && (!getter.phase.Idle? ==>
          && getter.starts != [] && s.until <= s.now + c
          && (|s.stored| == 1 ==> s.until <= Last(getter.starts))
          && (|s.getters| == 1 ==> s.until <= Last(getter.starts) && StoredAt(s) <= Last(getter.starts)))
    && match getter.phase
       case Arrived(f) => f.lifetime == c
       case Stamped(stamp) => stamp.fetched.lifetime == c && Last(getter.starts) <= stamp.at <= s.now
       case FetchFailed => false
       case _ => true
  }

  predicate AllInTime<M>(c: nat, s: State<M>) {
    && s.stored != [] && StoredAt(s) <= s.now
    && s.until == StoredAt(s) + s.stored[|s.stored| - 1].fetched.lifetime
    && (|s.stored| > 1 ==> s.until == StoredAt(s) + c)
    && forall g :: 0 <= g < |s.getters| ==> InTime(c, s, s.getters[g])
  }

  lemma OthersStayInTime<M>(c: nat, rule: Rule, s: State<M>, l: Label<M>, getter: Getter<M>)
    requires AllInTime(c, s) && Disciplined(c, rule, s, l) && Step(s, l).Some?
    requires InTime(c, s, getter) && (l.Tick? || |s.getters| > 1)
    ensures InTime(c, Step(s, l).value, getter)
  {
    if l.Store? {
      assert InTime(c, s, s.getters[l.g]);
    }
  }

  lemma ActorStaysInTime<M>(c: nat, rule: Rule, s: State<M>, l: Label<M>)
    requires AllInTime(c, s) && Disciplined(c, rule, s, l) && Step(s, l).Some? && !l.Tick?
    ensures InTime(c, Step(s, l).value, Step(s, l).value.getters[l.g])
  {
    assert InTime(c, s, s.getters[l.g]);
  }

  lemma StepKeepsTime<M>(c: nat, rule: Rule, s: State<M>, l: Label<M>)
    requires AllInTime(c, s) && Disciplined(c, rule, s, l) && Step(s, l).Some?
    ensures AllInTime(c, Step(s, l).value)
  {
    var t := Step(s, l).value;
    if !l.Tick? {
      assert InTime(c, s, s.getters[l.g]);
      ActorStaysInTime(c, rule, s, l);
    }
    forall g | 0 <= g < |t.getters| && (l.Tick? || g != l.g) ensures InTime(c, t, t.getters[g]) {
      OthersStayInTime(c, rule, s, l, s.getters[g]);
    }
  }

  /** In every run, whatever the lag, a step moves the stored expiry backwards exactly if it stores a list whose
      clock reading is older than the one stored last. */
  lemma BackwardsExactlyIfOlder<M>(c: nat, rule: Rule, start: nat, first: Fetched<M>, getters: nat,
                                   labels: seq<Label<M>>, s: State<M>, l: Label<M>, t: State<M>)
    requires Disciplining(c, rule, start, first, getters, labels) == Some(s)
    requires Disciplined(c, rule, s, l) && Step(s, l) == Some(t)
    ensures t.until < s.until <==> l.Store? && s.getters[l.g].phase.stamp.at < StoredAt(s)
  {
    RunKeepsTime(c, rule, start, first, getters, labels);
    if l.Store? {
      assert InTime(c, s, s.getters[l.g]);
    }
  }

  lemma {:induction false} RunKeepsTime<M>(c: nat, rule: Rule, start: nat, first: Fetched<M>, getters: nat,
                                           labels: seq<Label<M>>)
    requires Disciplining(c, rule, start, first, getters, labels).Some?
    ensures AllInTime(c, Disciplining(c, rule, start, first, getters, labels).value)
    ensures |Disciplining(c, rule, start, first, getters, labels).value.getters| == getters
    decreases |labels|
  {
    if labels != [] {
      var init := labels[..|labels| - 1];
      RunKeepsTime(c, rule, start, first, getters, init);
      var s := Disciplining(c, rule, start, first, getters, init).value;
      StepKeepsTime(c, rule, s, labels[|labels| - 1]);
      StepExtends(s, labels[|labels| - 1]);
    }
  }

  /** The fetch starts of a getter are spaced, and an idle getter's last one leaves room for the next. */
  predicate GetterPaced(c: nat, slack: nat, until: nat, idle: bool, starts: seq<nat>) {
    Spaced(starts, Gap(c, slack)) && (idle && starts != [] ==> Last(starts) + c <= until + slack)
  }

  predicate Paced<M>(c: nat, slack: nat, s: State<M>) {
    forall g :: 0 <= g < |s.getters| ==>
      GetterPaced(c, slack, s.until, s.getters[g].phase.Idle?, s.getters[g].starts)
  }

  lemma StepKeepsPace<M>(c: nat, rule: Rule, s: State<M>, l: Label<M>)
    requires AllInTime(c, s) && Disciplined(c, rule, s, l) && Step(s, l).Some?
    requires Paced(c, Slack(rule, |s.getters|), s)
    ensures Paced(c, Slack(rule, |s.getters|), Step(s, l).value)
    ensures s.until <= Step(s, l).value.until + Slack(rule, |s.getters|)
  {
    var t, slack := Step(s, l).value, Slack(rule, |s.getters|);
    if l.Store? {
      assert InTime(c, s, s.getters[l.g]);
    }
    forall g | 0 <= g < |t.getters|
      ensures GetterPaced(c, slack, t.until, t.getters[g].phase.Idle?, t.getters[g].starts)
    {
      assert GetterPaced(c, slack, s.until, s.getters[g].phase.Idle?, s.getters[g].starts);
      assert InTime(c, s, s.getters[g]);
    }
  }

  lemma {:induction false} RunKeepsPace<M>(c: nat, rule: Rule, start: nat, first: Fetched<M>, getters: nat,
                                           labels: seq<Label<M>>)
    requires Disciplining(c, rule, start, first, getters, labels).Some?
    ensures Paced(c, Slack(rule, getters), Disciplining(c, rule, start, first, getters, labels).value)
    decreases |labels|
  {
    if labels != [] {
      var init := labels[..|labels| - 1];
      RunKeepsTime(c, rule, start, first, getters, init);
      RunKeepsPace(c, rule, start, first, getters, init);
      var s := Disciplining(c, rule, start, first, getters, init).value;
      StepKeepsPace(c, rule, s, labels[|labels| - 1]);
    }
  }

  function CountIn(starts: seq<nat>, lo: nat, hi: nat): nat {
    if starts == [] then 0
    else CountIn(starts[..|starts| - 1], lo, hi) + if lo <= Last(starts) <= hi then 1 else 0
  }

  lemma {:induction false} SpacedStartsAreFew(starts: seq<nat>, d: nat, lo: nat, hi: nat)
    requires Spaced(starts, d) && lo <= hi
    ensures CountIn(starts, lo, hi) > 0 ==>
              starts != [] && lo + (CountIn(starts, lo, hi) - 1) * d <= Min(hi, Last(starts))
  {
    if starts != [] {
      var init := starts[..|starts| - 1];
      SpacedStartsAreFew(init, d, lo, hi);
      var n := CountIn(init, lo, hi);
      if n > 0 {
        assert Last(init) + d <= Last(starts);
        assert n * d == (n - 1) * d + d;
      }
    }
  }

  function Min(a: nat, b: nat): nat {
    if a <= b then a else b
  }

  lemma QuotientBound(n: nat, d: nat, t: nat)
    requires d > 0 && n * d <= t
    ensures n <= t / d
  {
    var q := t / d;
    assert n * d < (q + 1) * d by {
      assert t == q * d + t % d;
      assert (q + 1) * d == q * d + d;
    }
    LessFactor(n, q + 1, d);
  }

  lemma LessFactor(a: nat, b: nat, d: nat)
    requires a * d < b * d
    ensures a < b
  {
    if b <= a {
      FactorMonotone(b, a, d);
      assert false;
    }
  }

  lemma FactorMonotone(b: nat, a: nat, d: nat)
    requires b <= a
    ensures b * d <= a * d
  {
    assert a * d == b * d + (a - b) * d;
  }

  function TotalIn<M>(getters: seq<Getter<M>>, lo: nat, hi: nat): nat {
    if getters == [] then 0
    else TotalIn(getters[..|getters| - 1], lo, hi) + CountIn(getters[|getters| - 1].starts, lo, hi)
  }

  lemma FewStarts(starts: seq<nat>, d: nat, lo: nat, t: nat)
    requires d > 0 && Spaced(starts, d)
    ensures CountIn(starts, lo, lo + t) <= t / d + 1
  {
    var n := CountIn(starts, lo, lo + t);
    if n > 0 {
      FitsWindow(starts, d, lo, t, n - 1);
      QuotientBound(n - 1, d, t);
    }
  }

  lemma FitsWindow(starts: seq<nat>, d: nat, lo: nat, t: nat, m: nat)
    requires Spaced(starts, d) && CountIn(starts, lo, lo + t) == m + 1
    ensures m * d <= t
  {
    SpacedStartsAreFew(starts, d, lo, lo + t);
  }

  lemma {:induction false} TotalBound<M>(getters: seq<Getter<M>>, each: nat, lo: nat, hi: nat)
    requires forall g :: 0 <= g < |getters| ==> CountIn(getters[g].starts, lo, hi) <= each
    ensures TotalIn(getters, lo, hi) <= |getters| * each
  {
    if getters != [] {
      TotalBound(getters[..|getters| - 1], each, lo, hi);
      assert |getters| * each == (|getters| - 1) * each + each;
    }
  }

  /** Refresh bound: two fetch starts of one getter are at least c apart for a single getter or if lists are stored
      in order, otherwise c less the lag; and `getters` getters together start at most
      getters * (floor(t / gap) + 1) fetches within any time `t`. */
  lemma RefreshBound<M>(c: nat, rule: Rule, start: nat, first: Fetched<M>, getters: nat, labels: seq<Label<M>>,
                        lo: nat, t: nat)
    requires Disciplining(c, rule, start, first, getters, labels).Some?
    ensures var s := Disciplining(c, rule, start, first, getters, labels).value;
            var gap := Gap(c, Slack(rule, getters));
            && (forall g :: 0 <= g < |s.getters| ==> Spaced(s.getters[g].starts, gap))
            && (gap > 0 ==> TotalIn(s.getters, lo, lo + t) <= getters * (t / gap + 1))
  {
    RunKeepsTime(c, rule, start, first, getters, labels);
    RunKeepsPace(c, rule, start, first, getters, labels);
    var s, slack := Disciplining(c, rule, start, first, getters, labels).value, Slack(rule, getters);
    var gap := Gap(c, slack);
    forall g | 0 <= g < |s.getters|
      ensures Spaced(s.getters[g].starts, gap)
      ensures gap > 0 ==> CountIn(s.getters[g].starts, lo, lo + t) <= t / gap + 1
    {
      assert GetterPaced(c, slack, s.until, s.getters[g].phase.Idle?, s.getters[g].starts);
      if gap > 0 {
        FewStarts(s.getters[g].starts, gap, lo, t);
      }
    }
    if gap > 0 {
      TotalBound(s.getters, t / gap + 1, lo, lo + t);
    }
  }

  // ---------- when the expiry moves backwards, and how close fetches come ----------

  /** A disciplined run reaches the state. */
  ghost predicate Reaches(c: nat, rule: Rule, start: nat, first: Fetched<nat>, getters: nat, s: State<nat>) {
    exists labels :: Disciplining(c, rule, start, first, getters, labels) == Some(s)
  }

  lemma ReachesMore(c: nat, rule: Rule, getters: nat, s: State<nat>, l: Label<nat>) returns (t: State<nat>)
    requires Reaches(c, rule, 0, Fetched(0, 0), getters, s) && Disciplined(c, rule, s, l) && Step(s, l).Some?
    ensures Some(t) == Step(s, l) && Reaches(c, rule, 0, Fetched(0, 0), getters, t)
  {
    t := Step(s, l).value;
    var labels :| Disciplining(c, rule, 0, Fetched(0, 0), getters, labels) == Some(s);
    assert (labels + [l])[..|labels|] == labels;
    assert Disciplining(c, rule, 0, Fetched(0, 0), getters, labels + [l]) == Some(t);
  }

  /** In no run whatsoever does a step move the stored expiry backwards. */
  ghost predicate NeverBackwards(c: nat, rule: Rule, getters: nat) {
    forall start: nat, first: Fetched<nat>, s: State<nat>, l: Label<nat> |
      Reaches(c, rule, start, first, getters, s) && Disciplined(c, rule, s, l) && Step(s, l).Some? ::
      s.until <= Step(s, l).value.until
  }

  /** The stored expiry never moves backwards if and only if there is one getter, or lists are stored in order, or
      nothing can come between reading the clock and storing. */
  lemma NeverBackwardsExactly(c: nat, rule: Rule, getters: nat)
    ensures NeverBackwards(c, rule, getters) <==> rule.InOrder? || rule.lag == 0 || getters <= 1
  {
    if Slack(rule, getters) == 0 {
      forall start: nat, first: Fetched<nat>, s: State<nat>, l: Label<nat> |
        Reaches(c, rule, start, first, getters, s) && Disciplined(c, rule, s, l) && Step(s, l).Some?
        ensures s.until <= Step(s, l).value.until
      {
        var labels :| Disciplining(c, rule, start, first, getters, labels) == Some(s);
        RunKeepsTime(c, rule, start, first, getters, labels);
        RunKeepsPace(c, rule, start, first, getters, labels);
        StepKeepsPace(c, rule, s, l);
      }
    } else {
      var s, t := Overtaken(c, rule.lag, getters);
      assert s.until > Step(s, Store(1)).value.until;
    }
  }

  /** In every run any two consecutive fetch starts of one getter are at least `gap` apart. */
  ghost predicate AlwaysSpaced(c: nat, rule: Rule, getters: nat, gap: nat) {
    forall start: nat, first: Fetched<nat>, s: State<nat>, g: nat |
      Reaches(c, rule, start, first, getters, s) && g < |s.getters| :: Spaced(s.getters[g].starts, gap)
  }

  /** The spacing of `RefreshBound` is exact. */
  lemma AlwaysSpacedExactly(c: nat, rule: Rule, getters: nat, gap: nat)
    requires getters > 0
    ensures AlwaysSpaced(c, rule, getters, gap) <==> gap <= Gap(c, Slack(rule, getters))
  {
    if gap <= Gap(c, Slack(rule, getters)) {
      forall start: nat, first: Fetched<nat>, s: State<nat>, g: nat |
        Reaches(c, rule, start, first, getters, s) && g < |s.getters|
        ensures Spaced(s.getters[g].starts, gap)
      {
        var labels :| Disciplining(c, rule, start, first, getters, labels) == Some(s);
        RefreshBound(c, rule, start, first, getters, labels, 0, 0);
      }
    } else {
      var s, at := StartsAsCloseAsCanBe(c, rule, getters);
      assert s.getters[0].starts == [at, at + Gap(c, Slack(rule, getters))];
      assert s.getters[0].starts[1 - 1] + gap > s.getters[0].starts[1];
    }
  }

  /** Getter `g` fetches, from its check to its clock reading. */
  lemma FetchAndStamp(c: nat, rule: Rule, getters: nat, s: State<nat>, g: nat, list: nat) returns (t: State<nat>)
    requires Reaches(c, rule, 0, Fetched(0, 0), getters, s)
    requires g < |s.getters| && s.getters[g].phase.Idle? && s.until <= s.now
    ensures Reaches(c, rule, 0, Fetched(0, 0), getters, t)
    ensures t.now == s.now && t.until == s.until && t.stored == s.stored
    ensures t.getters == s.getters[g := Getter(Stamped(Stamp(s.now, Fetched(c, list))), s.getters[g].starts + [s.now])]
  {
    t := ReachesMore(c, rule, getters, s, Check(g));
    t := ReachesMore(c, rule, getters, t, Arrive(g, Some(Fetched(c, list))));
    t := ReachesMore(c, rule, getters, t, TakeTime(g));
  }

  lemma Beginning(c: nat, rule: Rule, getters: nat) returns (s: State<nat>)
    ensures s == Created(0, Fetched(0, 0), getters) && Reaches(c, rule, 0, Fetched(0, 0), getters, s)
  {
    s := Created(0, Fetched(0, 0), getters);
    var none: seq<Label<nat>> := [];
    assert DisciplinedRun(c, rule, s, none) == Some(s);
    assert Disciplining(c, rule, 0, Fetched(0, 0), getters, none) == Some(s);
  }

  /** Getter 1 reads the clock first and stores last; getter 0 overtakes it. */
  lemma Overtaken(c: nat, lag: nat, getters: nat) returns (s: State<nat>, t: State<nat>)
    requires 0 < lag && getters >= 2
    ensures Reaches(c, Within(lag), 0, Fetched(0, 0), getters, s)
    ensures Disciplined(c, Within(lag), s, Store(1)) && Step(s, Store(1)) == Some(t)
    ensures s.until == lag + c && t.until == c && t.now == lag
    ensures |t.getters| == getters && t.getters[0] == Getter(Idle, [lag])
    ensures Reaches(c, Within(lag), 0, Fetched(0, 0), getters, t)
  {
    s := Beginning(c, Within(lag), getters);
    s := FetchAndStamp(c, Within(lag), getters, s, 1, 1);
    s := ReachesMore(c, Within(lag), getters, s, Tick(lag));
    s := FetchAndStamp(c, Within(lag), getters, s, 0, 2);
    s := ReachesMore(c, Within(lag), getters, s, Store(0));
    t := ReachesMore(c, Within(lag), getters, s, Store(1));
  }

  /** Getter 0 fetches at once. */
  lemma FetchedOnce(c: nat, rule: Rule, getters: nat) returns (s: State<nat>)
    requires getters > 0
    ensures Reaches(c, rule, 0, Fetched(0, 0), getters, s)
    ensures s.now == 0 && s.until == c && |s.getters| == getters && s.getters[0] == Getter(Idle, [0])
  {
    s := Beginning(c, rule, getters);
    s := FetchAndStamp(c, rule, getters, s, 0, 1);
    s := ReachesMore(c, rule, getters, s, Store(0));
  }

  lemma StartsAgain(c: nat, rule: Rule, getters: nat, s: State<nat>, at: nat, gap: nat) returns (t: State<nat>)
    requires Reaches(c, rule, 0, Fetched(0, 0), getters, s) && s.now == at && s.until <= at + gap
    requires |s.getters| == getters > 0 && s.getters[0] == Getter(Idle, [at])
    ensures Reaches(c, rule, 0, Fetched(0, 0), getters, t)
    ensures |t.getters| == getters && t.getters[0].starts == [at, at + gap]
  {
    t := ReachesMore(c, rule, getters, s, Tick(gap));
    t := ReachesMore(c, rule, getters, t, Check(0));
  }

  /** Getter 0 starts two fetches as close together as the bound allows. */
  lemma StartsAsCloseAsCanBe(c: nat, rule: Rule, getters: nat) returns (s: State<nat>, at: nat)
    requires getters > 0
    ensures Reaches(c, rule, 0, Fetched(0, 0), getters, s)
    ensures |s.getters| == getters && s.getters[0].starts == [at, at + Gap(c, Slack(rule, getters))]
  {
    if Slack(rule, getters) == 0 {
      var once := FetchedOnce(c, rule, getters);
      at := 0;
      s := StartsAgain(c, rule, getters, once, 0, c);
    } else {
      var _, t := Overtaken(c, rule.lag, getters);
      at := rule.lag;
      s := StartsAgain(c, rule, getters, t, rule.lag, Gap(c, rule.lag));
    }
  }
}
