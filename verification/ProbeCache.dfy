/**
 * The status page's cache (apps/purse-console/src/server/status.ts): one value, loaded at
 * most once per `ttl`, kept `staleFor` past its own check when a later load fails.
 */
module ProbeCache {
  import opened Common

  datatype Probed<T> =
    | Up(value: T, checkedAt: int, stale: bool)
    | Down(reason: nat, checkedAt: int)

  datatype Good<T> = Good(value: T, checkedAt: int)

  datatype Attempt<T> = Attempt(at: int, result: Probed<T>)

  /** A load under way: when it started and, until the promise is let go of, what it came to. */
  datatype Flight<T> = Flight(start: int, done: Option<Probed<T>>)

  datatype State<T> = State(value: Option<Good<T>>, attempt: Option<Attempt<T>>, inFlight: Option<Flight<T>>)

  /** What a read gets: an answer from memory, or the promise of the load it started or joined. */
  datatype Answer<T> = Served(result: Probed<T>) | Started | JoinedLoad(start: int)

  function ReadAt<T>(s: State<T>, ttl: int, now: int): (State<T>, Answer<T>) {
    if s.attempt.Some? && now - s.attempt.value.at < ttl then (s, Served(s.attempt.value.result))
    else if s.inFlight.Some? then (s, JoinedLoad(s.inFlight.value.start))
    else (s.(inFlight := Some(Flight(now, None))), Started)
  }

  /** A load's end: a value replaces the last good one; a failure falls back on it while it is young enough. */
  function Landed<T>(s: State<T>, staleFor: int, outcome: Result<T, nat>): State<T>
    requires s.inFlight.Some?
  {
    var now := s.inFlight.value.start;
    match outcome
    case Ok(value) =>
      var result := Up(value, now, false);
      State(Some(Good(value, now)), Some(Attempt(now, result)), Some(Flight(now, Some(result))))
    case Err(reason) =>
      if s.value.Some? && now - s.value.value.checkedAt < staleFor then
        var result := Up(s.value.value.value, s.value.value.checkedAt, true);
        State(s.value, Some(Attempt(now, result)), Some(Flight(now, Some(result))))
      else
        var result := Down(reason, now);
        State(None, Some(Attempt(now, result)), Some(Flight(now, Some(result))))
  }

  class Cache<T> {
    const ttl: int
    const staleFor: int
    var value: Option<Good<T>>
    var attempt: Option<Attempt<T>>
    var inFlight: Option<Flight<T>>

    constructor (ttlMs: int, staleMs: int)
      ensures View() == State(None, None, None) && ttl == ttlMs && staleFor == staleMs
    {
      ttl, staleFor, value, attempt, inFlight := ttlMs, staleMs, None, None, None;
    }

    function View(): State<T>
      reads this
    {
      State(value, attempt, inFlight)
    }

    method Read(now: int) returns (answer: Answer<T>)
      modifies this`inFlight
      ensures (View(), answer) == ReadAt(old(View()), ttl, now)
      ensures if attempt.Some? && now < attempt.value.at + ttl then
                answer == Served(attempt.value.result) && inFlight == old(inFlight)
              else if old(inFlight).Some? then
                answer == JoinedLoad(inFlight.value.start) && inFlight == old(inFlight)
              else answer == Started && inFlight == Some(Flight(now, None))
    {
      if attempt.Some? && now - attempt.value.at < ttl {
        return Served(attempt.value.result);
      }
      if inFlight.None? {
        inFlight := Some(Flight(now, None));
        return Started;
      }
      return JoinedLoad(inFlight.value.start);
    }

    /** The rest of `probe`, once the load returns or throws. */
    method Land(outcome: Result<T, nat>) returns (result: Probed<T>)
      requires inFlight.Some?
      modifies this
      ensures View() == Landed(old(View()), staleFor, outcome)
      ensures inFlight == Some(Flight(old(inFlight).value.start, Some(result)))
      ensures attempt == Some(Attempt(inFlight.value.start, result))
      ensures var start, good := old(inFlight).value.start, old(value);
        match outcome
        case Ok(loaded) => result == Up(loaded, start, false) && value == Some(Good(loaded, start))
        case Err(reason) =>
          if good.Some? && start < good.value.checkedAt + staleFor then
            result == Up(good.value.value, good.value.checkedAt, true) && value == good
          else result == Down(reason, start) && value == None
    {
      var now := inFlight.value.start;
      match outcome {
        case Ok(loaded) =>
          value := Some(Good(loaded, now));
          result := Up(loaded, now, false);
        case Err(reason) =>
          var lastGood: Option<Good<T>> := None;
          if value.Some? && now - value.value.checkedAt < staleFor {
            lastGood := value;
          }
          if lastGood.None? {
            value := None;
            result := Down(reason, now);
          } else {
            result := Up(lastGood.value.value, lastGood.value.checkedAt, true);
          }
      }
      attempt := Some(Attempt(now, result));
      inFlight := Some(Flight(now, Some(result)));
    }

    /** The `finally` that lets go of the promise. */
    method Release()
      requires inFlight.Some? && inFlight.value.done.Some?
      modifies this`inFlight
      ensures View() == old(View()).(inFlight := None)
    {
      inFlight := None;
    }

    method Reset()
      modifies this`value, this`attempt
      ensures View() == State(None, None, old(inFlight))
    {
      value := None;
      attempt := None;
    }
  }

  // ---- Runs --------------------------------------------------------------------------

  datatype Load<T> = Load(start: int, outcome: Option<Result<T, nat>>)

  datatype Event<T> = Reads(now: int) | Lands(outcome: Result<T, nat>) | Releases | Resets

  /**
   * A run so far: the cache, every load in order of starting, what reads were served from
   * memory, what each load gave the read that started it, and before which loads a reset
   * came since the one before.
   */
  datatype Run<T> = Run(
    state: State<T>,
    loads: seq<Load<T>>,
    served: seq<(int, Probed<T>)>,
    landed: seq<Attempt<T>>,
    resetSince: bool,
    resetBefore: seq<bool>)

  function Step<T>(r: Run<T>, ttl: int, staleFor: int, e: Event<T>): Run<T> {
    match e
    case Reads(now) =>
      var (after, answer) := ReadAt(r.state, ttl, now);
      match answer {
        case Served(result) => r.(state := after, served := r.served + [(now, result)])
        case Started => r.(state := after, loads := r.loads + [Load(now, None)],
          resetBefore := r.resetBefore + [r.resetSince], resetSince := false)
        case JoinedLoad(_) => r.(state := after)
      }
    case Lands(outcome) =>
      if r.state.inFlight.Some? && r.state.inFlight.value.done.None? && r.loads != [] then
        var last := |r.loads| - 1;
        var after := Landed(r.state, staleFor, outcome);
        r.(state := after, loads := r.loads[last := Load(r.loads[last].start, Some(outcome))],
           landed := r.landed + [after.attempt.value])
      else r
    case Releases =>
      if r.state.inFlight.Some? && r.state.inFlight.value.done.Some? then r.(state := r.state.(inFlight := None)) else r
    case Resets => r.(state := State(None, None, r.state.inFlight), resetSince := true)
  }

  function After<T>(ttl: int, staleFor: int, events: seq<Event<T>>): Run<T> {
    if events == [] then Run(State(None, None, None), [], [], [], false, [])
    else Step(After(ttl, staleFor, events[..|events| - 1]), ttl, staleFor, events[|events| - 1])
  }

  /** A load that started at `at` returned this value. */
  ghost predicate Loaded<T>(loads: seq<Load<T>>, value: T, at: int) {
    exists i :: 0 <= i < |loads| && loads[i] == Load(at, Some(Ok(value)))
  }

  /** An answer given at `now` from memory is what a load found, and no older than it may be. */
  ghost predicate Honest<T>(loads: seq<Load<T>>, ttl: int, staleFor: int, now: int, result: Probed<T>) {
    match result
    case Up(value, checkedAt, stale) =>
      && Loaded(loads, value, checkedAt)
      && (if stale then now - checkedAt < ttl + staleFor else now - checkedAt < ttl)
    case Down(_, checkedAt) => now - checkedAt < ttl
  }

  /**
   * What the read that started a load at `at` was given: a value just loaded, one still
   * young enough, or the failure.
   */
  ghost predicate AttemptInv<T>(loads: seq<Load<T>>, staleFor: int, a: Attempt<T>) {
    match a.result
    case Up(value, checkedAt, stale) =>
      && Loaded(loads, value, checkedAt)
      && (if stale then a.at - checkedAt < staleFor else a.at == checkedAt)
    case Down(_, checkedAt) => a.at == checkedAt
  }

  ghost predicate RunInv<T(!new)>(r: Run<T>, ttl: int, staleFor: int) {
    var n := |r.loads|;
    && |r.resetBefore| == n
    && (r.state.inFlight.Some? ==>
          && n > 0 && r.state.inFlight.value.start == r.loads[n - 1].start
          && (r.state.inFlight.value.done.None? <==> r.loads[n - 1].outcome.None?))
    && (forall i | 0 <= i < n && (i < n - 1 || r.state.inFlight.None?) :: r.loads[i].outcome.Some?)
    && (n > 0 && !r.resetSince && r.loads[n - 1].outcome.Some? ==>
          r.state.attempt.Some? && r.state.attempt.value.at == r.loads[n - 1].start)
    && (r.state.value.Some? ==> Loaded(r.loads, r.state.value.value.value, r.state.value.value.checkedAt))
    && (r.state.attempt.Some? ==> AttemptInv(r.loads, staleFor, r.state.attempt.value))
    && (forall k | 0 <= k < |r.landed| :: AttemptInv(r.loads, staleFor, r.landed[k]))
    && (forall k | 0 <= k < |r.served| :: Honest(r.loads, ttl, staleFor, r.served[k].0, r.served[k].1))
    && (forall i | 0 < i < n && !r.resetBefore[i] :: r.loads[i].start - r.loads[i - 1].start >= ttl)
  }

  /** Loads already made are still there when others are started or finished. */
  ghost predicate Extends<T>(loads: seq<Load<T>>, more: seq<Load<T>>) {
    |loads| <= |more| && forall i | 0 <= i < |loads| && loads[i].outcome.Some? :: more[i] == loads[i]
  }

  lemma {:induction false} LoadedStays<T>(loads: seq<Load<T>>, more: seq<Load<T>>, value: T, at: int)
    requires Extends(loads, more) && Loaded(loads, value, at)
    ensures Loaded(more, value, at)
  {
    var i :| 0 <= i < |loads| && loads[i] == Load(at, Some(Ok(value)));
    assert more[i] == loads[i];
  }

  lemma {:induction false} ServedStaysHonest<T>(r: Run<T>, more: seq<Load<T>>, ttl: int, staleFor: int)
    requires Extends(r.loads, more)
    requires forall k | 0 <= k < |r.served| :: Honest(r.loads, ttl, staleFor, r.served[k].0, r.served[k].1)
    ensures forall k | 0 <= k < |r.served| :: Honest(more, ttl, staleFor, r.served[k].0, r.served[k].1)
  {
    forall k | 0 <= k < |r.served| ensures Honest(more, ttl, staleFor, r.served[k].0, r.served[k].1) {
      if r.served[k].1.Up? {
        LoadedStays(r.loads, more, r.served[k].1.value, r.served[k].1.checkedAt);
      }
    }
  }

  lemma {:induction false} LandedStayHonest<T>(loads: seq<Load<T>>, more: seq<Load<T>>, landed: seq<Attempt<T>>,
      staleFor: int)
    requires Extends(loads, more) && forall k | 0 <= k < |landed| :: AttemptInv(loads, staleFor, landed[k])
    ensures forall k | 0 <= k < |landed| :: AttemptInv(more, staleFor, landed[k])
  {
    forall k | 0 <= k < |landed| ensures AttemptInv(more, staleFor, landed[k]) {
      if landed[k].result.Up? {
        LoadedStays(loads, more, landed[k].result.value, landed[k].result.checkedAt);
      }
    }
  }

  lemma {:induction false} StartKeeps<T(!new)>(r: Run<T>, ttl: int, staleFor: int, now: int)
    requires RunInv(r, ttl, staleFor) && ReadAt(r.state, ttl, now).1.Started?
    ensures RunInv(Step(r, ttl, staleFor, Reads(now)), ttl, staleFor)
  {
    var more := r.loads + [Load(now, None)];
    ServedStaysHonest(r, more, ttl, staleFor);
    LandedStayHonest(r.loads, more, r.landed, staleFor);
    if r.state.value.Some? {
      LoadedStays(r.loads, more, r.state.value.value.value, r.state.value.value.checkedAt);
    }
    if r.state.attempt.Some? && r.state.attempt.value.result.Up? {
      LoadedStays(r.loads, more, r.state.attempt.value.result.value, r.state.attempt.value.result.checkedAt);
    }
  }

  lemma {:induction false} LandKeeps<T(!new)>(r: Run<T>, ttl: int, staleFor: int, outcome: Result<T, nat>)
    requires RunInv(r, ttl, staleFor)
    ensures RunInv(Step(r, ttl, staleFor, Lands(outcome)), ttl, staleFor)
  {
    if r.state.inFlight.Some? && r.state.inFlight.value.done.None? {
      var last := |r.loads| - 1;
      var more := r.loads[last := Load(r.loads[last].start, Some(outcome))];
      ServedStaysHonest(r, more, ttl, staleFor);
      LandedStayHonest(r.loads, more, r.landed, staleFor);
      if outcome.Ok? {
        assert more[last] == Load(r.loads[last].start, Some(Ok(outcome.value)));
        assert Loaded(more, outcome.value, r.loads[last].start);
      } else if r.state.value.Some? {
        LoadedStays(r.loads, more, r.state.value.value.value, r.state.value.value.checkedAt);
      }
    }
  }

  lemma {:induction false} StepKeeps<T(!new)>(r: Run<T>, ttl: int, staleFor: int, e: Event<T>)
    requires RunInv(r, ttl, staleFor)
    ensures RunInv(Step(r, ttl, staleFor, e), ttl, staleFor)
  {
    match e
    case Reads(now) =>
      if ReadAt(r.state, ttl, now).1.Started? {
        StartKeeps(r, ttl, staleFor, now);
      }
    case Lands(outcome) => LandKeeps(r, ttl, staleFor, outcome);
    case Releases =>
    case Resets =>
  }

  lemma {:induction false} AfterInv<T(!new)>(ttl: int, staleFor: int, events: seq<Event<T>>)
    ensures RunInv(After(ttl, staleFor, events), ttl, staleFor)
  {
    if events != [] {
      AfterInv(ttl, staleFor, events[..|events| - 1]);
      StepKeeps(After(ttl, staleFor, events[..|events| - 1]), ttl, staleFor, events[|events| - 1]);
    }
  }

  /** Loads never overlap: in every run each has ended before the next began, resets or not. */
  lemma {:induction false} LoadsNeverOverlap<T(!new)>(ttl: int, staleFor: int, events: seq<Event<T>>, i: nat)
    requires i + 1 < |After(ttl, staleFor, events).loads|
    ensures After(ttl, staleFor, events).loads[i].outcome.Some?
  {
    AfterInv(ttl, staleFor, events);
  }

  /** Loads start at least the ttl apart, unless a reset came between them. */
  lemma {:induction false} LoadsAreSpaced<T(!new)>(ttl: int, staleFor: int, events: seq<Event<T>>, i: nat)
    requires i + 1 < |After(ttl, staleFor, events).loads|
    ensures var r := After(ttl, staleFor, events);
      |r.resetBefore| == |r.loads| && (!r.resetBefore[i + 1] ==> r.loads[i + 1].start - r.loads[i].start >= ttl)
  {
    AfterInv(ttl, staleFor, events);
  }

  /**
   * Everything served from memory is a value some load returned at the time it states,
   * younger than the ttl when fresh and than the ttl and the stale allowance together when
   * stale.
   */
  lemma {:induction false} ServedHonestly<T(!new)>(ttl: int, staleFor: int, events: seq<Event<T>>, k: nat)
    requires k < |After(ttl, staleFor, events).served|
    ensures var r := After(ttl, staleFor, events); Honest(r.loads, ttl, staleFor, r.served[k].0, r.served[k].1)
  {
    AfterInv(ttl, staleFor, events);
  }

  /**
   * And what a load gives the read that started it is its own value, one younger than the
   * stale allowance, or its failure.
   */
  lemma {:induction false} LandedHonestly<T(!new)>(ttl: int, staleFor: int, events: seq<Event<T>>, k: nat)
    requires k < |After(ttl, staleFor, events).landed|
    ensures var r := After(ttl, staleFor, events); AttemptInv(r.loads, staleFor, r.landed[k])
  {
    AfterInv(ttl, staleFor, events);
  }

  // ---- Resets ------------------------------------------------------------------------

  function Continued<T>(r: Run<T>, ttl: int, staleFor: int, later: seq<Event<T>>): Run<T> {
    if later == [] then r
    else Step(Continued(r, ttl, staleFor, later[..|later| - 1]), ttl, staleFor, later[|later| - 1])
  }

  /** The run goes on after a reset. */
  function AfterReset<T>(ttl: int, staleFor: int, before: seq<Event<T>>, later: seq<Event<T>>): Run<T> {
    Continued(Step(After(ttl, staleFor, before), ttl, staleFor, Resets), ttl, staleFor, later)
  }

  /** One of the loads from the `first` on ended this way. */
  ghost predicate Ended<T>(loads: seq<Load<T>>, first: nat, start: int, outcome: Result<T, nat>) {
    exists i :: first <= i < |loads| && loads[i] == Load(start, Some(outcome))
  }

  /** What these loads found, or how they failed. */
  ghost predicate FoundSince<T>(loads: seq<Load<T>>, first: nat, result: Probed<T>) {
    match result
    case Up(value, checkedAt, _) => Ended(loads, first, checkedAt, Ok(value))
    case Down(reason, checkedAt) => Ended(loads, first, checkedAt, Err(reason))
  }

  /**
   * Everything remembered, and everything served from memory after the first `served`,
   * comes from the loads from the `first` on.
   */
  ghost predicate OnlySince<T>(r: Run<T>, first: nat, served: nat) {
    && (r.state.value.Some? ==> Ended(r.loads, first, r.state.value.value.checkedAt, Ok(r.state.value.value.value)))
    && (r.state.attempt.Some? ==> FoundSince(r.loads, first, r.state.attempt.value.result))
    && (forall k | served <= k < |r.served| :: FoundSince(r.loads, first, r.served[k].1))
  }

  predicate Unfinished<T>(s: State<T>) {
    s.inFlight.Some? && s.inFlight.value.done.None?
  }

  /** A load that has not ended yet started no earlier than the `first`. */
  ghost predicate CleanSince<T>(r: Run<T>, first: nat, served: nat) {
    OnlySince(r, first, served) && first <= |r.loads| && (Unfinished(r.state) ==> first < |r.loads|)
  }

  lemma {:induction false} EndedStays<T>(loads: seq<Load<T>>, more: seq<Load<T>>, first: nat, start: int,
      outcome: Result<T, nat>)
    requires Extends(loads, more) && Ended(loads, first, start, outcome)
    ensures Ended(more, first, start, outcome)
  {
    var i :| first <= i < |loads| && loads[i] == Load(start, Some(outcome));
    assert more[i] == loads[i];
  }

  lemma {:induction false} FoundStays<T>(loads: seq<Load<T>>, more: seq<Load<T>>, first: nat, result: Probed<T>)
    requires Extends(loads, more) && FoundSince(loads, first, result)
    ensures FoundSince(more, first, result)
  {
    match result
    case Up(value, checkedAt, _) => EndedStays(loads, more, first, checkedAt, Ok(value));
    case Down(reason, checkedAt) => EndedStays(loads, more, first, checkedAt, Err(reason));
  }

  lemma {:induction false} OnlySinceStays<T(!new)>(r: Run<T>, more: seq<Load<T>>, first: nat, served: nat)
    requires OnlySince(r, first, served) && Extends(r.loads, more)
    ensures OnlySince(r.(loads := more), first, served)
  {
    if r.state.value.Some? {
      EndedStays(r.loads, more, first, r.state.value.value.checkedAt, Ok(r.state.value.value.value));
    }
    if r.state.attempt.Some? {
      FoundStays(r.loads, more, first, r.state.attempt.value.result);
    }
    forall k | served <= k < |r.served| ensures FoundSince(more, first, r.served[k].1) {
      FoundStays(r.loads, more, first, r.served[k].1);
    }
  }

  lemma {:induction false} StaysClean<T(!new)>(r: Run<T>, ttl: int, staleFor: int, e: Event<T>, first: nat, served: nat)
    requires RunInv(r, ttl, staleFor) && CleanSince(r, first, served)
    ensures CleanSince(Step(r, ttl, staleFor, e), first, served)
  {
    match e
    case Reads(now) => OnlySinceStays(r, r.loads + [Load(now, None)], first, served);
    case Lands(outcome) => LandsClean(r, ttl, staleFor, outcome, first, served);
    case Releases =>
    case Resets =>
  }

  lemma {:induction false} LandsClean<T(!new)>(r: Run<T>, ttl: int, staleFor: int, outcome: Result<T, nat>,
      first: nat, served: nat)
    requires RunInv(r, ttl, staleFor) && CleanSince(r, first, served)
    ensures CleanSince(Step(r, ttl, staleFor, Lands(outcome)), first, served)
  {
    if Unfinished(r.state) {
      var last := |r.loads| - 1;
      var more := r.loads[last := Load(r.loads[last].start, Some(outcome))];
      OnlySinceStays(r, more, first, served);
      assert more[last] == Load(r.loads[last].start, Some(outcome));
      assert Ended(more, first, r.loads[last].start, outcome);
    }
  }

  lemma {:induction false} ContinuedClean<T(!new)>(r: Run<T>, ttl: int, staleFor: int, later: seq<Event<T>>,
      first: nat, served: nat)
    requires RunInv(r, ttl, staleFor) && CleanSince(r, first, served)
    ensures RunInv(Continued(r, ttl, staleFor, later), ttl, staleFor)
      && CleanSince(Continued(r, ttl, staleFor, later), first, served)
  {
    if later != [] {
      var front := later[..|later| - 1];
      ContinuedClean(r, ttl, staleFor, front, first, served);
      StepKeeps(Continued(r, ttl, staleFor, front), ttl, staleFor, later[|later| - 1]);
      StaysClean(Continued(r, ttl, staleFor, front), ttl, staleFor, later[|later| - 1], first, served);
    }
  }

  /** In every continuation after the reset, memory holds and serves only what loads started after it found. */
  ghost predicate Forgets<T(!new)>(ttl: int, staleFor: int, before: seq<Event<T>>) {
    var atReset := After(ttl, staleFor, before);
    forall later: seq<Event<T>> ::
      OnlySince(AfterReset(ttl, staleFor, before, later), |atReset.loads|, |atReset.served|)
  }

  /** A load left unfinished by the reset lands after it, and is remembered. */
  lemma {:induction false} OldLoadRemembered<T(!new)>(ttl: int, staleFor: int, before: seq<Event<T>>)
    requires Unfinished(After(ttl, staleFor, before).state)
    ensures !Forgets(ttl, staleFor, before)
  {
    var atReset := After(ttl, staleFor, before);
    var reset, end := Step(atReset, ttl, staleFor, Resets), Lands(Err(0));
    AfterInv(ttl, staleFor, before);
    assert [end][..0] == [];
    assert Continued(reset, ttl, staleFor, [end][..0]) == reset;
    assert AfterReset(ttl, staleFor, before, [end]) == Step(reset, ttl, staleFor, end);
    assert !OnlySince(AfterReset(ttl, staleFor, before, [end]), |atReset.loads|, |atReset.served|);
  }

  /**
   * A reset forgets exactly when no load is under way: whatever is remembered or served
   * from memory afterwards, in every continuation, was then found by loads started after
   * it; a load under way lands in memory as if there had been no reset.
   */
  lemma {:induction false} ResetForgetsIff<T(!new)>(ttl: int, staleFor: int, before: seq<Event<T>>)
    ensures Forgets(ttl, staleFor, before) <==> !Unfinished(After(ttl, staleFor, before).state)
  {
    if Unfinished(After(ttl, staleFor, before).state) {
      OldLoadRemembered(ttl, staleFor, before);
    } else {
      var atReset := After(ttl, staleFor, before);
      AfterInv(ttl, staleFor, before);
      StepKeeps(atReset, ttl, staleFor, Resets);
      forall later: seq<Event<T>>
        ensures OnlySince(AfterReset(ttl, staleFor, before, later), |atReset.loads|, |atReset.served|)
      {
        ContinuedClean(Step(atReset, ttl, staleFor, Resets), ttl, staleFor, later, |atReset.loads|, |atReset.served|);
      }
    }
  }

  lemma {:induction false} ContinuedTwice<T(!new)>(r: Run<T>, ttl: int, staleFor: int, one: Event<T>, two: Event<T>)
    ensures Continued(r, ttl, staleFor, [one, two]) == Step(Step(r, ttl, staleFor, one), ttl, staleFor, two)
  {
    assert [one, two][..1] == [one] && [one][..0] == [];
    assert Continued(r, ttl, staleFor, [one]) == Step(Continued(r, ttl, staleFor, []), ttl, staleFor, one);
  }

  /**
   * A reset in the middle of a load: the value it brings, checked before the reset, is
   * served as fresh after it, and no load started since found it.
   */
  lemma {:induction false} OldValueServed<T(!new)>(ttl: int, staleFor: int, before: seq<Event<T>>, value: T, now: int)
    requires Unfinished(After(ttl, staleFor, before).state)
    requires now - After(ttl, staleFor, before).state.inFlight.value.start < ttl
    ensures var atReset := After(ttl, staleFor, before);
      var r, stale := AfterReset(ttl, staleFor, before, [Lands(Ok(value)), Reads(now)]),
        Up(value, atReset.state.inFlight.value.start, false);
      && r.served == atReset.served + [(now, stale)]
      && !FoundSince(r.loads, |atReset.loads|, stale)
  {
    var reset := Step(After(ttl, staleFor, before), ttl, staleFor, Resets);
    AfterInv(ttl, staleFor, before);
    ContinuedTwice(reset, ttl, staleFor, Lands(Ok(value)), Reads(now));
  }

  /** A read may be given the promise of a load started before the reset, even one that has ended. */
  ghost predicate JoinsOnlySince<T(!new)>(ttl: int, staleFor: int, before: seq<Event<T>>) {
    var first := |After(ttl, staleFor, before).loads|;
    forall later: seq<Event<T>> ::
      AfterReset(ttl, staleFor, before, later).state.inFlight.Some? ==>
          first < |AfterReset(ttl, staleFor, before, later).loads|
  }

  lemma {:induction false} ContinuedJoins<T(!new)>(r: Run<T>, ttl: int, staleFor: int, later: seq<Event<T>>, first: nat)
    requires first <= |r.loads| && (r.state.inFlight.Some? ==> first < |r.loads|)
    ensures var after := Continued(r, ttl, staleFor, later);
      first <= |after.loads| && (after.state.inFlight.Some? ==> first < |after.loads|)
  {
    if later != [] {
      ContinuedJoins(r, ttl, staleFor, later[..|later| - 1], first);
    }
  }

  /** Reads after the reset join no load from before it exactly when none was held at all, ended or not. */
  lemma {:induction false} ResetUnjoinsIff<T(!new)>(ttl: int, staleFor: int, before: seq<Event<T>>)
    ensures JoinsOnlySince(ttl, staleFor, before) <==> After(ttl, staleFor, before).state.inFlight.None?
  {
    var atReset := After(ttl, staleFor, before);
    var reset := Step(atReset, ttl, staleFor, Resets);
    if atReset.state.inFlight.Some? {
      assert AfterReset(ttl, staleFor, before, []) == reset;
    } else {
      forall later: seq<Event<T>>
        ensures AfterReset(ttl, staleFor, before, later).state.inFlight.Some?
          ==> |atReset.loads| < |AfterReset(ttl, staleFor, before, later).loads|
      {
        ContinuedJoins(reset, ttl, staleFor, later, |atReset.loads|);
      }
    }
  }
}
