/**
 * Runs, from the empty database on, in which the two limits of the engine are met: how
 * long a window the velocity limit bounds when the clocks disagree, and what becomes of a
 * pool too large for one ledger amount.
 */
module ContestScenarios {
  import opened Common
  import opened Ledger
  import opened Contests
  import opened ContestInvariant
  import opened ContestSettlement
  import opened ContestRuns
  import opened ContestTheorems
  import opened ContestLifecycle
  import opened ContestLimits
  import Eligibility
  import S = Settlement

  // ---- A tenant whose rules ask for nothing but the velocity limits ------------------

  function RulesOf(per24h: Option<nat>, per7d: Option<nat>): Eligibility.Ruleset {
    var anywhere := Eligibility.AssetRules(Eligibility.All, None, false);
    Eligibility.Ruleset(18, map[], anywhere, anywhere, None, per24h, per7d)
  }

  const NEWCOMER := Eligibility.User(None, Eligibility.Unstarted, None, [], None)

  function EnvAt(rules: Eligibility.Ruleset, now: int, at: int, freshId: nat): Env {
    Env(Operator, Eligibility.Instant(now, Eligibility.Date(1970, 1, 1)), at, freshId, NEWCOMER, rules)
  }

  function TermsFor(amount: int, policy: Policy): Terms {
    Terms(amount, None, S.PrizeStructure(S.WinnerTakeAll, None), S.SplitEvenly, policy, 0, None, None)
  }

  function ContestIn(id: nat, terms: Terms, state: ContestState, participants: seq<Participant>): Contest {
    Contest(0, id, POINTS, terms, state, None, participants, [], [])
  }

  /** Nothing but funds and the velocity limits stands in a newcomer's way. */
  lemma {:induction false} NewcomerAllowed(i: Eligibility.Input, per24h: Option<nat>, per7d: Option<nat>)
    requires i.user == NEWCOMER && i.ruleset == RulesOf(per24h, per7d) && i.balance >= i.entryAmount
    requires !Eligibility.OverLimit(per24h, i.velocity.last24h + i.entryAmount)
    requires !Eligibility.OverLimit(per7d, i.velocity.last7d + i.entryAmount)
    ensures Eligibility.Decide(i) == Eligibility.Allowed
  {
    forall r ensures !Eligibility.Applies(i, r) {
      assert !Eligibility.Restricted(i, r);
    }
    Eligibility.AllowedIff(i);
  }

  // ---- One action at a time ----------------------------------------------------------

  /** Where a run stands: these contests, this journal, and every key so far below `next`. */
  ghost predicate Stands(run: seq<Action>, contests: map<nat, Contest>, journal: Journal, next: nat) {
    var db := Reached(run);
    && db.contests == contests && db.journal == journal
    && (forall tenant: nat, key: nat | (tenant, key) in db.keys :: key < next)
    && (forall i | 0 <= i < |journal| && journal[i].post.key.OutsideKey? :: journal[i].post.key.id < next)
  }

  lemma {:induction false} ReachedPush(run: seq<Action>, action: Action)
    ensures Reached(run + [action]) == Act(Reached(run), action)
  {
    assert (run + [action])[..|run|] == run;
  }

  lemma {:induction false} Nowhere()
    ensures Stands([], map[], [], 0)
  {
  }

  function Issue(user: nat, amount: int, id: nat): OutsideFlow {
    IssuePoints(0, POINTS, user, amount, id)
  }

  function FundsOf(user: nat, amount: int, id: nat, at: int): Entry {
    Entry(OutsidePost(Issue(user, amount, id)), at)
  }

  lemma {:induction false} Issued(run: seq<Action>, contests: map<nat, Contest>, journal: Journal, next: nat,
      user: nat, amount: int, at: int)
    requires Stands(run, contests, journal, next) && 0 < amount <= MAX_AMOUNT
    ensures Stands(run + [Outside(Issue(user, amount, next), at)],
                   contests, journal + [FundsOf(user, amount, next, at)], next + 1)
  {
    var from, to := PromoLiability(0, POINTS), Wallet(0, POINTS, user);
    ReachedPush(run, Outside(Issue(user, amount, next), at));
    MoveValid(from, to, amount);
    MoveCovered(journal, from, to, amount);
    PostSucceeds(journal, OutsidePost(Issue(user, amount, next)), at);
  }

  lemma {:induction false} Created(run: seq<Action>, contests: map<nat, Contest>, journal: Journal, next: nat,
      id: nat, terms: Terms, env: Env)
    requires Stands(run, contests, journal, next) && CheckTerms(terms) == None
    requires env.freshId == id && id !in contests && env.ruleset.perContest == None
    requires forall other | other in contests :: contests[other].externalId != id
    ensures Stands(run + [Ask(Command(0, next, Create(id, POINTS, terms), env))],
                   contests[id := ContestIn(id, terms, Draft, [])], journal, next + 1)
  {
    ReachedPush(run, Ask(Command(0, next, Create(id, POINTS, terms), env)));
  }

  lemma {:induction false} Moved(run: seq<Action>, contests: map<nat, Contest>, journal: Journal, next: nat,
      id: nat, to: ContestState, env: Env)
    requires Stands(run, contests, journal, next) && id in contests && contests[id].tenant == 0
    requires to.Open? || to.Locked? || to.InProgress?
    requires to in Transitions(contests[id].state) && env.actor == Operator && env.ruleset.perContest == None
    ensures Stands(run + [Ask(Command(0, next, MoveTo(id, to), env))],
                   contests[id := contests[id].(state := to)], journal, next + 1)
  {
    ReachedPush(run, Ask(Command(0, next, MoveTo(id, to), env)));
  }

  /** A contest created and opened at once. */
  function Opening(id: nat, terms: Terms, next: nat, env: Env): seq<Action> {
    [Ask(Command(0, next, Create(id, POINTS, terms), env)), Ask(Command(0, next + 1, MoveTo(id, Open), env))]
  }

  lemma {:induction false} Opened(run: seq<Action>, contests: map<nat, Contest>, journal: Journal, next: nat,
      id: nat, terms: Terms, env: Env)
    requires Stands(run, contests, journal, next) && CheckTerms(terms) == None
    requires env.freshId == id && id !in contests && env.ruleset.perContest == None && env.actor == Operator
    requires forall other | other in contests :: contests[other].externalId != id
    ensures Stands(run + Opening(id, terms, next, env), contests[id := ContestIn(id, terms, Open, [])], journal,
      next + 2)
  {
    var draft := contests[id := ContestIn(id, terms, Draft, [])];
    var steps := Opening(id, terms, next, env);
    Created(run, contests, journal, next, id, terms, env);
    Moved(run + [steps[0]], draft, journal, next + 1, id, Open, env);
    assert run + [steps[0]] + [steps[1]] == run + steps;
    assert draft[id := draft[id].(state := Open)] == contests[id := ContestIn(id, terms, Open, [])];
  }

  function Seat(user: nat, entry: nat): Participant {
    Participant(user, None, None, entry, ParticipantState.Entered)
  }

  /** The stake an entry of ours posts. */
  function StakeOf(id: nat, user: nat, amount: int, key: nat, at: int): Entry {
    Entry(EscrowPost(0, POINTS, id, user, amount, key), at)
  }

  lemma {:induction false} Entered(run: seq<Action>, contests: map<nat, Contest>, journal: Journal, next: nat,
      id: nat, terms: Terms, participants: seq<Participant>, user: nat, env: Env)
    requires Stands(run, contests, journal, next) && id in contests
      && contests[id] == ContestIn(id, terms, Open, participants)
    requires terms.maxParticipants.None? && terms.locksAt.None? && FindParticipant(participants, user).None?
    requires Eligibility.Decide(EntryInput(journal, contests[id], user, env)) == Eligibility.Allowed
    ensures Stands(run + [Ask(Command(0, next, Enter(id, user, None, None), env))],
                   contests[id := ContestIn(id, terms, Open, participants + [Seat(user, |journal|)])],
                   journal + [StakeOf(id, user, terms.entryAmount, next, env.at)], next + 1)
  {
    var r := Enter(id, user, None, None);
    ReachedInv(run);
    ReachedPush(run, Ask(Command(0, next, r, env)));
    EnterActs(Reached(run), next, r, env);
  }

  lemma {:induction false} EnterActs(db: Db, key: nat, r: Request, env: Env)
    requires DbInv(db) && r.Enter? && r.seed.None? && (0, key) !in db.keys && Owned(db, 0, r.contest).Ok?
    requires var k := db.contests[r.contest];
      && k.state.Open? && k.terms.maxParticipants.None? && k.terms.locksAt.None?
      && FindParticipant(k.participants, r.user).None?
      && Eligibility.Decide(EntryInput(db.journal, k, r.user, env)) == Eligibility.Allowed
    ensures var (after, record) := EnteredDb(db, r, key, env, None);
      Act(db, Ask(Command(0, key, r, env))) == Keyed(after, Command(0, key, r, env), record)
  {
    EnterOutcome(db, 0, key, r, env);
  }

  // ---- How long a window the limit bounds --------------------------------------------

  const USER: nat := 7
  const LIMIT: nat := 10
  const STAKES := TermsFor(LIMIT, OperatorClose)

  function LimitRules(window: int): Eligibility.Ruleset {
    if window == Eligibility.LAST_24H then RulesOf(Some(LIMIT), None) else RulesOf(None, Some(LIMIT))
  }

  /** A user with twice the limit, and two contests to stake the limit in. */
  function TwoContests(rules: Eligibility.Ruleset, now: int, at: int): seq<Action> {
    [Outside(Issue(USER, 2 * LIMIT, 0), at)]
    + Opening(1, STAKES, 1, EnvAt(rules, now, at, 1)) + Opening(2, STAKES, 3, EnvAt(rules, now, at, 2))
  }

  function Contests0(): map<nat, Contest> {
    map[1 := ContestIn(1, STAKES, Open, []), 2 := ContestIn(2, STAKES, Open, [])]
  }

  lemma {:induction false} TwoOpened(window: int, now: int, at: int)
    ensures Stands(TwoContests(LimitRules(window), now, at), Contests0(), [FundsOf(USER, 2 * LIMIT, 0, at)], 5)
  {
    var rules, funds := LimitRules(window), [FundsOf(USER, 2 * LIMIT, 0, at)];
    var run := [Outside(Issue(USER, 2 * LIMIT, 0), at)];
    Nowhere();
    Issued([], map[], [], 0, USER, 2 * LIMIT, at);
    assert [] + run == run && [] + funds == funds;
    Opened(run, map[], funds, 1, 1, STAKES, EnvAt(rules, now, at, 1));
    Opened(run + Opening(1, STAKES, 1, EnvAt(rules, now, at, 1)), map[1 := ContestIn(1, STAKES, Open, [])], funds, 3,
           2, STAKES, EnvAt(rules, now, at, 2));
  }

  /** Both entries: each stakes the whole limit, the second `gap` after the first. */
  function TwoStakes(rules: Eligibility.Ruleset, now: int, at: int, gap: nat): seq<Action> {
    OneStake(rules, now, at) + [Ask(Command(0, 6, Enter(2, USER, None, None), EnvAt(rules, now + gap, at + gap, 0)))]
  }

  function FirstStaked(at: int): Journal {
    [FundsOf(USER, 2 * LIMIT, 0, at), StakeOf(1, USER, LIMIT, 5, at)]
  }

  lemma {:induction false} FirstFits(window: int, now: int, at: int, env: Env)
    requires env == EnvAt(LimitRules(window), now, at, 0)
    ensures Eligibility.Decide(EntryInput([FundsOf(USER, 2 * LIMIT, 0, at)], ContestIn(1, STAKES, Open, []), USER,
      env)).Allowed?
  {
    var wallet, funds := Wallet(0, POINTS, USER), FundsOf(USER, 2 * LIMIT, 0, at);
    BalancePush([], funds, wallet);
    MoveDelta(PromoLiability(0, POINTS), wallet, 2 * LIMIT, wallet);
    assert [] + [funds] == [funds];
    SincePush([], funds, wallet, now - Eligibility.LAST_24H);
    SincePush([], funds, wallet, now - Eligibility.LAST_7D);
    NewcomerAllowed(EntryInput([funds], ContestIn(1, STAKES, Open, []), USER, env), env.ruleset.per24h,
        env.ruleset.per7d);
  }

  /** Once the first stake has left the window the second is judged by, the second is allowed. */
  lemma {:induction false} SecondFits(window: int, now: int, at: int, gap: nat, env: Env)
    requires window == Eligibility.LAST_24H || window == Eligibility.LAST_7D
    requires env == EnvAt(LimitRules(window), now + gap, at + gap, 0) && at <= now + gap - window
    ensures Eligibility.Decide(EntryInput(FirstStaked(at), ContestIn(2, STAKES, Open, []), USER, env)).Allowed?
  {
    var wallet, funds, stake := Wallet(0, POINTS, USER), FundsOf(USER, 2 * LIMIT, 0, at),
      StakeOf(1, USER, LIMIT, 5, at);
    BalancePush([], funds, wallet);
    BalancePush([funds], stake, wallet);
    MoveDelta(PromoLiability(0, POINTS), wallet, 2 * LIMIT, wallet);
    MoveDelta(wallet, Escrow(0, POINTS, 1), LIMIT, wallet);
    assert [] + [funds] == [funds] && [funds] + [stake] == FirstStaked(at);
    NothingSince(at, now + gap - window);
    NewcomerAllowed(EntryInput(FirstStaked(at), ContestIn(2, STAKES, Open, []), USER, env), env.ruleset.per24h,
        env.ruleset.per7d);
  }

  lemma {:induction false} NothingSince(at: int, since: int)
    requires at <= since
    ensures Eligibility.StakedSince(FirstStaked(at), Wallet(0, POINTS, USER), since) == 0
  {
    var wallet, funds, stake := Wallet(0, POINTS, USER), FundsOf(USER, 2 * LIMIT, 0, at),
      StakeOf(1, USER, LIMIT, 5, at);
    SincePush([], funds, wallet, since);
    SincePush([funds], stake, wallet, since);
    assert [] + [funds] == [funds] && [funds] + [stake] == FirstStaked(at);
  }

  lemma {:induction false} SincePush(journal: Journal, entry: Entry, wallet: Account, since: int)
    ensures Eligibility.StakedSince(journal + [entry], wallet, since)
         == Eligibility.StakedSince(journal, wallet, since)
            + if entry.postedAt > since then Eligibility.Staked(entry, wallet) else 0
  {
    assert (journal + [entry])[..|journal|] == journal;
  }

  lemma {:induction false} WithinPush(journal: Journal, entry: Entry, wallet: Account, from: int, to: int)
    ensures StakedWithin(journal + [entry], wallet, from, to)
         == StakedWithin(journal, wallet, from, to)
            + if from < entry.postedAt <= to then Eligibility.Staked(entry, wallet) else 0
  {
    assert (journal + [entry])[..|journal|] == journal;
  }

  /** The two stakes of the whole limit, posted `gap` apart. */
  function BothStaked(at: int, gap: nat): Journal {
    FirstStaked(at) + [StakeOf(2, USER, LIMIT, 6, at + gap)]
  }

  function OneStake(rules: Eligibility.Ruleset, now: int, at: int): seq<Action> {
    TwoContests(rules, now, at) + [Ask(Command(0, 5, Enter(1, USER, None, None), EnvAt(rules, now, at, 0)))]
  }

  lemma {:induction false} FirstEntered(window: int, now: int, at: int)
    ensures Stands(OneStake(LimitRules(window), now, at), Contests0()[1 := ContestIn(1, STAKES, Open, [Seat(USER, 1)])],
                   FirstStaked(at), 6)
  {
    var rules, funds := LimitRules(window), [FundsOf(USER, 2 * LIMIT, 0, at)];
    TwoOpened(window, now, at);
    FirstFits(window, now, at, EnvAt(rules, now, at, 0));
    Entered(TwoContests(rules, now, at), Contests0(), funds, 5, 1, STAKES, [], USER, EnvAt(rules, now, at, 0));
    assert funds + [StakeOf(1, USER, LIMIT, 5, at)] == FirstStaked(at) && [] + [Seat(USER, 1)] == [Seat(USER, 1)];
  }

  lemma {:induction false} BothEntered(window: int, now: int, at: int, gap: nat)
    requires window == Eligibility.LAST_24H || window == Eligibility.LAST_7D
    requires at <= now + gap - window
    ensures Reached(TwoStakes(LimitRules(window), now, at, gap)).journal == BothStaked(at, gap)
  {
    FirstEntered(window, now, at);
    SecondEntered(OneStake(LimitRules(window), now, at), Contests0()[1 := ContestIn(1, STAKES, Open, [Seat(USER, 1)])],
                  window, now, at, gap);
  }

  lemma {:induction false} SecondEntered(run: seq<Action>, contests: map<nat, Contest>, window: int, now: int,
      at: int, gap: nat)
    requires window == Eligibility.LAST_24H || window == Eligibility.LAST_7D
    requires at <= now + gap - window && Stands(run, contests, FirstStaked(at), 6)
    requires 2 in contests && contests[2] == ContestIn(2, STAKES, Open, [])
    ensures var env := EnvAt(LimitRules(window), now + gap, at + gap, 0);
      Reached(run + [Ask(Command(0, 6, Enter(2, USER, None, None), env))]).journal == BothStaked(at, gap)
  {
    var env := EnvAt(LimitRules(window), now + gap, at + gap, 0);
    SecondFits(window, now, at, gap, env);
    SecondStakes(run, contests, FirstStaked(at), env);
  }

  /** An allowed entry to the second contest, whatever the journal before it. */
  lemma {:induction false} SecondStakes(run: seq<Action>, contests: map<nat, Contest>, journal: Journal, env: Env)
    requires Stands(run, contests, journal, 6)
    requires 2 in contests && contests[2] == ContestIn(2, STAKES, Open, [])
    requires Eligibility.Decide(EntryInput(journal, ContestIn(2, STAKES, Open, []), USER, env)).Allowed?
    ensures Reached(run + [Ask(Command(0, 6, Enter(2, USER, None, None), env))]).journal ==
            journal + [StakeOf(2, USER, LIMIT, 6, env.at)]
  {
    Entered(run, contests, journal, 6, 2, STAKES, [], USER, env);
  }

  lemma {:induction false} BothCounted(at: int, gap: nat, length: int)
    requires length > gap
    ensures StakedWithin(BothStaked(at, gap), Wallet(0, POINTS, USER), at + gap - length, at + gap) == 2 * LIMIT
  {
    var wallet, funds, stake := Wallet(0, POINTS, USER), FundsOf(USER, 2 * LIMIT, 0, at),
      StakeOf(1, USER, LIMIT, 5, at);
    var from, to := at + gap - length, at + gap;
    StakeOfMove(wallet, Escrow(0, POINTS, 1), LIMIT, wallet);
    StakeOfMove(wallet, Escrow(0, POINTS, 2), LIMIT, wallet);
    WithinPush([], funds, wallet, from, to);
    WithinPush([funds], stake, wallet, from, to);
    WithinPush(FirstStaked(at), StakeOf(2, USER, LIMIT, 6, at + gap), wallet, from, to);
    assert [] + [funds] == [funds] && [funds] + [stake] == FirstStaked(at);
  }

  /** Neither clock of a run ever goes back. */
  ghost predicate ClocksAdvance(run: seq<Action>) {
    forall i, j | 0 <= i < j < |run| ::
      && At(run[i]) <= At(run[j])
      && (run[i].Ask? && run[j].Ask? ==> run[i].cmd.env.now.ms <= run[j].cmd.env.now.ms)
  }

  function At(action: Action): int {
    match action
    case Ask(cmd) => cmd.env.at
    case Outside(_, at) => at
  }

  /** The window of this length that ends here holds no more than the limit. */
  predicate Within(run: seq<Action>, wallet: Account, length: int, end: int, limit: nat) {
    StakedWithin(Reached(run).journal, wallet, end - length, end) <= limit
  }

  /** No window of this length holds more than the limit, in any run whose judging clock is at most `skew` ahead. */
  ghost predicate Bounds(window: int, skew: int, length: int) {
    forall run: seq<Action>, ruleset: Eligibility.Ruleset, limit: nat, wallet: Account, end: int
      | JudgedBy(run, ruleset, skew) && ClocksAdvance(run) && Limits(ruleset, window, limit) ::
      Within(run, wallet, length, end, limit)
  }

  lemma {:induction false} TwoStakesJudged(window: int, skew: int, at: int, gap: nat)
    ensures var run := TwoStakes(LimitRules(window), at + skew, at, gap);
      JudgedBy(run, LimitRules(window), skew) && ClocksAdvance(run)
  {
  }

  lemma {:induction false} LimitNamed(window: int)
    requires window == Eligibility.LAST_24H || window == Eligibility.LAST_7D
    ensures Limits(LimitRules(window), window, LIMIT)
  {
  }

  lemma {:induction false} LongerFails(window: int, skew: int, length: int)
    requires window == Eligibility.LAST_24H || window == Eligibility.LAST_7D
    requires length > 0 && length > window - skew
    ensures !Bounds(window, skew, length)
  {
    var gap: nat := if window > skew then window - skew else 0;
    var at: nat := if skew < 0 then -skew else 0;
    LongerFailsAt(window, skew, length, gap, at);
  }

  lemma {:induction false} LongerFailsAt(window: int, skew: int, length: int, gap: nat, at: nat)
    requires window == Eligibility.LAST_24H || window == Eligibility.LAST_7D
    requires gap >= window - skew && length > gap
    ensures !Bounds(window, skew, length)
  {
    var run := TwoStakes(LimitRules(window), at + skew, at, gap);
    LimitNamed(window);
    TwoStakesJudged(window, skew, at, gap);
    Overspent(window, at + skew, at, gap, length);
    Counterexample(run, LimitRules(window), Wallet(0, POINTS, USER), at + gap, window, skew, length);
  }

  lemma {:induction false} Counterexample(run: seq<Action>, ruleset: Eligibility.Ruleset, wallet: Account, end: int,
      window: int, skew: int, length: int)
    requires JudgedBy(run, ruleset, skew) && ClocksAdvance(run) && Limits(ruleset, window, LIMIT)
    requires !Within(run, wallet, length, end, LIMIT)
    ensures !Bounds(window, skew, length)
  {
  }

  lemma {:induction false} Overspent(window: int, now: int, at: int, gap: nat, length: int)
    requires window == Eligibility.LAST_24H || window == Eligibility.LAST_7D
    requires at <= now + gap - window && length > gap
    ensures !Within(TwoStakes(LimitRules(window), now, at, gap), Wallet(0, POINTS, USER), length, at + gap, LIMIT)
  {
    BothEntered(window, now, at, gap);
    BothCounted(at, gap, length);
  }

  lemma {:induction false} ShorterCountsLess(journal: Journal, wallet: Account, early: int, late: int, to: int)
    requires StakesPositive(journal, wallet) && early <= late
    ensures StakedWithin(journal, wallet, early, to) >= StakedWithin(journal, wallet, late, to)
  {
    if journal != [] {
      ShorterCountsLess(journal[..|journal| - 1], wallet, early, late, to);
    }
  }

  lemma {:induction false} EmptyWindow(journal: Journal, wallet: Account, from: int, to: int)
    requires to <= from
    ensures StakedWithin(journal, wallet, from, to) == 0
  {
    if journal != [] {
      EmptyWindow(journal[..|journal| - 1], wallet, from, to);
    }
  }

  /**
   * Exactly how long a window the velocity limit bounds: as long as the window the ruleset
   * names, less what the judging clock may be ahead of the ledger's. It holds in every run
   * for such windows and shorter ones; for any longer there is a run, with both clocks
   * advancing, in which funded stakes in two contests exceed it.
   */
  lemma {:induction false} WindowExact(window: int, skew: int, length: int)
    requires window == Eligibility.LAST_24H || window == Eligibility.LAST_7D
    ensures Bounds(window, skew, length) <==> length <= 0 || length <= window - skew
  {
    if length > 0 && length > window - skew {
      LongerFails(window, skew, length);
    } else {
      forall run: seq<Action>, ruleset: Eligibility.Ruleset, limit: nat, wallet: Account, end: int
        | JudgedBy(run, ruleset, skew) && ClocksAdvance(run) && Limits(ruleset, window, limit)
        ensures Within(run, wallet, length, end, limit)
      {
        ShortFits(run, ruleset, window, limit, skew, wallet, end, length);
      }
    }
  }

  lemma {:induction false} ShortFits(run: seq<Action>, ruleset: Eligibility.Ruleset, window: int, limit: nat, skew: int,
      wallet: Account, end: int, length: int)
    requires JudgedBy(run, ruleset, skew) && Limits(ruleset, window, limit) && (length <= 0 || length <= window - skew)
    ensures Within(run, wallet, length, end, limit)
  {
    if length <= 0 {
      EmptyWindow(Reached(run).journal, wallet, end - length, end);
    } else {
      ReachedStakes(run, wallet);
      SlidingWindow(run, ruleset, window, limit, skew, wallet, end);
      ShorterCountsLess(Reached(run).journal, wallet, end - (window - skew), end - length, end);
    }
  }

  /** The limit on its own window holds in every run exactly when the judging clock is never ahead. */
  lemma {:induction false} LimitHoldsIff(window: int, skew: int)
    requires window == Eligibility.LAST_24H || window == Eligibility.LAST_7D
    ensures Bounds(window, skew, window) <==> skew <= 0
  {
    WindowExact(window, skew, window);
  }

  // ---- A pool too large for one ledger amount ----------------------------------------

  const FREELY := RulesOf(None, None)
  const BATCH := [Submission(1, Some(2.0), true), Submission(2, Some(1.0), true)]

  /** The largest stake there can be. */
  function Highest(policy: Policy): Terms {
    TermsFor(MAX_AMOUNT, policy)
  }

  function Now(id: nat): Env {
    EnvAt(FREELY, 0, 0, id)
  }

  /** Two users funded with it, and a contest open for them. */
  function Offered(policy: Policy): seq<Action> {
    [Outside(Issue(1, MAX_AMOUNT, 0), 0)] + [Outside(Issue(2, MAX_AMOUNT, 1), 0)]
        + Opening(1, Highest(policy), 2, Now(1))
  }

  function Joining(user: nat, key: nat): Action {
    Ask(Command(0, key, Enter(1, user, None, None), Now(0)))
  }

  function Moving(to: ContestState, key: nat): Action {
    Ask(Command(0, key, MoveTo(1, to), Now(0)))
  }

  /** Both enter, and the contest starts. */
  function Playing(policy: Policy): seq<Action> {
    Offered(policy) + [Joining(1, 4)] + [Joining(2, 5)] + [Moving(Locked, 6)] + [Moving(InProgress, 7)]
  }

  function BothFunded(): Journal {
    [FundsOf(1, MAX_AMOUNT, 0, 0), FundsOf(2, MAX_AMOUNT, 1, 0)]
  }

  function OneJoined(): Journal {
    BothFunded() + [StakeOf(1, 1, MAX_AMOUNT, 4, 0)]
  }

  function BothJoined(): Journal {
    OneJoined() + [StakeOf(1, 2, MAX_AMOUNT, 5, 0)]
  }

  /** Both funded with all a wallet can be issued at once. */
  lemma {:induction false} FundsStand()
    ensures Stands([Outside(Issue(1, MAX_AMOUNT, 0), 0)] + [Outside(Issue(2, MAX_AMOUNT, 1), 0)], map[], BothFunded(),
                   2)
  {
    var one := Outside(Issue(1, MAX_AMOUNT, 0), 0);
    Nowhere();
    Issued([], map[], [], 0, 1, MAX_AMOUNT, 0);
    assert [] + [one] == [one] && [] + [FundsOf(1, MAX_AMOUNT, 0, 0)] == [FundsOf(1, MAX_AMOUNT, 0, 0)];
    Issued([one], map[], [FundsOf(1, MAX_AMOUNT, 0, 0)], 1, 2, MAX_AMOUNT, 0);
    assert [FundsOf(1, MAX_AMOUNT, 0, 0)] + [FundsOf(2, MAX_AMOUNT, 1, 0)] == BothFunded();
  }

  lemma {:induction false} OfferStands(policy: Policy)
    ensures Stands(Offered(policy), map[1 := ContestIn(1, Highest(policy), Open, [])], BothFunded(), 4)
  {
    FundsStand();
    Opened([Outside(Issue(1, MAX_AMOUNT, 0), 0)] + [Outside(Issue(2, MAX_AMOUNT, 1), 0)], map[], BothFunded(), 2, 1,
        Highest(policy), Now(1));
  }

  /** What the two wallets hold before and after the first stake. */
  lemma {:induction false} Holdings()
    ensures Balance(BothFunded(), Wallet(0, POINTS, 1)) == MAX_AMOUNT
    ensures Balance(OneJoined(), Wallet(0, POINTS, 2)) == MAX_AMOUNT
  {
    var promo, first, second, escrow := PromoLiability(0, POINTS), Wallet(0, POINTS, 1), Wallet(0, POINTS, 2),
      Escrow(0, POINTS, 1);
    var one, two := FundsOf(1, MAX_AMOUNT, 0, 0), FundsOf(2, MAX_AMOUNT, 1, 0);
    assert [] + [one] == [one] && [one] + [two] == BothFunded();
    forall wallet | wallet == first || wallet == second
      ensures Balance(BothFunded(), wallet) == MAX_AMOUNT
    {
      BalancePush([], one, wallet);
      BalancePush([one], two, wallet);
      MoveDelta(promo, first, MAX_AMOUNT, wallet);
      MoveDelta(promo, second, MAX_AMOUNT, wallet);
    }
    BalancePush(BothFunded(), StakeOf(1, 1, MAX_AMOUNT, 4, 0), second);
    MoveDelta(first, escrow, MAX_AMOUNT, second);
  }

  lemma {:induction false} FreelyAllowed(journal: Journal, k: Contest, user: nat)
    requires Balance(journal, WalletOf(k, user)) >= k.terms.entryAmount
    ensures Eligibility.Decide(EntryInput(journal, k, user, Now(0))) == Eligibility.Allowed
  {
    NewcomerAllowed(EntryInput(journal, k, user, Now(0)), None, None);
  }

  lemma {:induction false} Joins(run: seq<Action>, journal: Journal, next: nat, policy: Policy, ps: seq<Participant>,
      user: nat)
    requires Stands(run, map[1 := ContestIn(1, Highest(policy), Open, ps)], journal, next)
    requires FindParticipant(ps, user).None? && Balance(journal, Wallet(0, POINTS, user)) == MAX_AMOUNT
    ensures Stands(run + [Joining(user, next)],
      map[1 := ContestIn(1, Highest(policy), Open, ps + [Seat(user, |journal|)])],
                   journal + [StakeOf(1, user, MAX_AMOUNT, next, 0)], next + 1)
  {
    var k := ContestIn(1, Highest(policy), Open, ps);
    var joined := ContestIn(1, Highest(policy), Open, ps + [Seat(user, |journal|)]);
    FreelyAllowed(journal, k, user);
    Entered(run, map[1 := k], journal, next, 1, Highest(policy), ps, user, Now(0));
    assert map[1 := k][1 := joined] == map[1 := joined];
  }

  lemma {:induction false} FirstJoins(policy: Policy)
    ensures Stands(Offered(policy) + [Joining(1, 4)], map[1 := ContestIn(1, Highest(policy), Open, [Seat(1, 2)])],
      OneJoined(), 5)
  {
    OfferStands(policy);
    Holdings();
    JoinsAs(Offered(policy), BothFunded(), 4, policy, [], 1, [Seat(1, 2)], OneJoined());
  }

  lemma {:induction false} BothJoin(policy: Policy)
    ensures Stands(Offered(policy) + [Joining(1, 4)] + [Joining(2, 5)],
                   map[1 := ContestIn(1, Highest(policy), Open, [Seat(1, 2), Seat(2, 3)])], BothJoined(), 6)
  {
    FirstJoins(policy);
    Holdings();
    JoinsAs(Offered(policy) + [Joining(1, 4)], OneJoined(), 5, policy, [Seat(1, 2)], 2, [Seat(1, 2), Seat(2, 3)],
        BothJoined());
  }

  lemma {:induction false} JoinsAs(run: seq<Action>, journal: Journal, next: nat, policy: Policy,
      ps: seq<Participant>, user: nat,
      seats: seq<Participant>, after: Journal)
    requires Stands(run, map[1 := ContestIn(1, Highest(policy), Open, ps)], journal, next)
    requires FindParticipant(ps, user).None? && Balance(journal, Wallet(0, POINTS, user)) == MAX_AMOUNT
    requires seats == ps + [Seat(user, |journal|)] && after == journal + [StakeOf(1, user, MAX_AMOUNT, next, 0)]
    ensures Stands(run + [Joining(user, next)], map[1 := ContestIn(1, Highest(policy), Open, seats)], after, next + 1)
  {
    Joins(run, journal, next, policy, ps, user);
  }

  function Started(policy: Policy): Contest {
    ContestIn(1, Highest(policy), InProgress, [Seat(1, 2), Seat(2, 3)])
  }

  lemma {:induction false} LockStands(policy: Policy)
    ensures Stands(Offered(policy) + [Joining(1, 4)] + [Joining(2, 5)] + [Moving(Locked, 6)],
                   map[1 := Started(policy).(state := Locked)], BothJoined(), 7)
  {
    var run := Offered(policy) + [Joining(1, 4)] + [Joining(2, 5)];
    var open, locked := Started(policy).(state := Open), Started(policy).(state := Locked);
    BothJoin(policy);
    Moved(run, map[1 := open], BothJoined(), 6, 1, Locked, Now(0));
    assert map[1 := open][1 := locked] == map[1 := locked];
  }

  lemma {:induction false} PlayStands(policy: Policy)
    ensures Stands(Playing(policy), map[1 := Started(policy)], BothJoined(), 8)
  {
    var run := Offered(policy) + [Joining(1, 4)] + [Joining(2, 5)] + [Moving(Locked, 6)];
    var locked := Started(policy).(state := Locked);
    LockStands(policy);
    Moved(run, map[1 := locked], BothJoined(), 7, 1, InProgress, Now(0));
    assert map[1 := locked][1 := Started(policy)] == map[1 := Started(policy)];
  }

  /** The reckoning of the two stakes comes to more than any one ledger amount. */
  lemma {:induction false} TooMuch(k: Contest)
    requires k.participants == [Seat(1, 2), Seat(2, 3)] && k.terms.entryAmount == MAX_AMOUNT && k.terms.rakeBps == 0
    requires Roster(k)
    ensures Reckon(k).Ok? && Reckon(k).value.net == 2 * MAX_AMOUNT
  {
    ReckonFacts(k);
    assert k.participants[..1] == [Seat(1, 2)] && k.participants[..1][..0] == [];
    assert ActiveCount(k.participants[..1]) == 1;
    assert ActiveCount(k.participants) == 2;
  }

  lemma {:induction false} BothFinished(k: Contest)
    requires k.participants == [Seat(1, 2), Seat(2, 3)] && k.scores == []
    ensures CheckBatch(BATCH) == None && CheckScored(k.participants, BATCH) == None && !FinishedAlready(k.scores, BATCH)
    ensures AllExpectedResults(Scored(k, BATCH, 0))
  {
    var scores := WithScores([], BATCH, 0);
    assert scores == [ScoreRow(1, Some(2.0), true, 0, None), ScoreRow(2, Some(1.0), true, 0, None)];
    assert scores[0].user == 1 && scores[1].user == 2;
    assert HasFinished(scores, 1) && HasFinished(scores, 2);
    Seated1();
    assert BATCH[1..] == [BATCH[1]] && BATCH[1..][1..] == [];
  }

  lemma {:induction false} Seated1()
    ensures FindParticipant([Seat(1, 2), Seat(2, 3)], 1) == Some(0)
      && FindParticipant([Seat(1, 2), Seat(2, 3)], 2) == Some(1)
  {
    assert [Seat(1, 2), Seat(2, 3)][..1] == [Seat(1, 2)];
  }

  function Scoring(key: nat): Command {
    Command(0, key, SubmitScores(1, BATCH), Now(0))
  }

  lemma {:induction false} ScoringAdvances(policy: Policy)
    ensures var db := Reached(Playing(policy)); var scored := Scored(Started(policy), BATCH, 0);
      && Owned(db, 0, 1) == Ok(Started(policy)) && (0, 8) !in db.keys
      && RunScores(db, 0, Scoring(8).request, Now(0)) ==
          match Advance(db.journal, 1, scored, Now(0))
          case Err(e) => Err(e)
          case Ok((journal, k)) =>
            Ok((db.(contests := db.contests[1 := k], journal := journal),
                ScoresRecord(1, seq(|BATCH|, i => 0 + i), k.state.Settled?)))
  {
    PlayStands(policy);
    BothFinished(Started(policy));
  }

  function Waiting(policy: Policy): Contest {
    Scored(Started(policy), BATCH, 0).(state := AwaitingSettlement)
  }

  lemma {:induction false} WaitingReady(policy: Policy)
    ensures Ready(Reached(Playing(policy)).journal, 1, Waiting(policy))
    ensures Reckon(Waiting(policy)).Ok? && Reckon(Waiting(policy)).value.net == 2 * MAX_AMOUNT
  {
    var db := Reached(Playing(policy));
    ReachedInv(Playing(policy));
    PlayStands(policy);
    BothFinished(Started(policy));
    ScoredReady(db, 1, Started(policy), BATCH, 0);
    TooMuch(Waiting(policy));
  }

  /** Everything is in, the contest waits for an operator, and the previewed pool is past 64 bits. */
  function LargePool(): seq<Action> {
    Playing(OperatorClose) + [Ask(Scoring(8))]
  }

  lemma {:induction false} ScoringRuns()
    ensures var db := Reached(Playing(OperatorClose)); var result := RunScores(db, 0, Scoring(8).request, Now(0));
      result.Ok? && result.value.0 == db.(contests := db.contests[1 := Waiting(OperatorClose)])
  {
    var db := Reached(Playing(OperatorClose));
    ScoringAdvances(OperatorClose);
    BothFinished(Started(OperatorClose));
    AdvanceOutcome(db.journal, 1, Scored(Started(OperatorClose), BATCH, 0), Now(0));
  }

  lemma {:induction false} ScoresAct(db: Db, cmd: Command)
    requires cmd.request.SubmitScores? && CheckBatch(cmd.request.batch) == None && (cmd.tenant, cmd.key) !in db.keys
    requires RunScores(db, cmd.tenant, cmd.request, cmd.env).Ok?
    ensures var (after, record) := RunScores(db, cmd.tenant, cmd.request, cmd.env).value;
      Act(db, Ask(cmd)) == Keyed(after, cmd, record)
  {
  }

  lemma {:induction false} ScoredStands()
    ensures var db := Reached(LargePool());
      && 1 in db.contests && db.contests[1] == Waiting(OperatorClose)
      && db.journal == Reached(Playing(OperatorClose)).journal
      && (0, 9) !in db.keys
  {
    PlayStands(OperatorClose);
    ScoringRuns();
    BothFinished(Started(OperatorClose));
    ScoresAct(Reached(Playing(OperatorClose)), Scoring(8));
    ReachedPush(Playing(OperatorClose), Ask(Scoring(8)));
  }

  /** Such a pool can be reached, so the refusal of its close is real. */
  lemma {:induction false} LargePoolReached()
    ensures var db := Reached(LargePool()); var preview := PreviewSettlement(db, 0, 1);
      && Owned(db, 0, 1).Ok? && db.contests[1].state.AwaitingSettlement? && (0, 9) !in db.keys
      && preview.Ok? && preview.value.net == 2 * MAX_AMOUNT
  {
    ScoredStands();
    WaitingReady(OperatorClose);
    ComputesReckoning(Reached(LargePool()).journal, 1, Waiting(OperatorClose));
  }

  /**
   * A close under the previewed hash, by an operator and under a new key, succeeds exactly
   * when the previewed net pool fits in one ledger amount. Otherwise it is refused, now and
   * however often it is asked, and changes nothing.
   */
  lemma {:induction false} CloseFitsIff(run: seq<Action>, cmd: Command, id: nat)
    requires var db := Reached(run);
      && Owned(db, cmd.tenant, id).Ok? && db.contests[id].state.AwaitingSettlement? && cmd.env.actor.Operator?
      && (cmd.tenant, cmd.key) !in db.keys
      && PreviewSettlement(db, cmd.tenant, id).Ok?
      && cmd.request == Close(id, PreviewSettlement(db, cmd.tenant, id).value.hash)
    ensures var db := Reached(run); var preview := PreviewSettlement(db, cmd.tenant, id).value;
      && (Step(db, cmd).1.Done? <==> preview.net <= MAX_AMOUNT)
      && (preview.net > MAX_AMOUNT ==> Step(db, cmd) == (db, Failed(LedgerRefused(AmountTooLarge))))
  {
    var db := Reached(run);
    ReachedInv(run);
    PreviewIsReckoning(db, cmd.tenant, id);
    var preview := PreviewSettlement(db, cmd.tenant, id).value;
    var result := CloseRuns(db, cmd.tenant, cmd.request, cmd.env, preview);
    ClosedStep(db, cmd, result);
  }

  lemma {:induction false} PreviewIsReckoning(db: Db, tenant: nat, id: nat)
    requires DbInv(db) && Owned(db, tenant, id).Ok? && db.contests[id].state.AwaitingSettlement?
    ensures PreviewSettlement(db, tenant, id) == Reckon(db.contests[id])
  {
    assert ContestInv(db.journal, id, db.contests[id]);
    ComputesReckoning(db.journal, id, db.contests[id]);
  }

  lemma {:induction false} CloseRuns(db: Db, tenant: nat, r: Request, env: Env, preview: Preview)
      returns (result: Result<(Db, Record), Failure>)
    requires DbInv(db) && r.Close? && Owned(db, tenant, r.contest).Ok? && env.actor.Operator?
    requires db.contests[r.contest].state.AwaitingSettlement?
    requires Reckon(db.contests[r.contest]) == Ok(preview) && r.hash == preview.hash
    ensures result == RunClose(db, tenant, r, env)
    ensures if preview.net > MAX_AMOUNT then result == Err(LedgerRefused(AmountTooLarge)) else result.Ok?
  {
    CloseOutcome(db, tenant, r, env);
    result := RunClose(db, tenant, r, env);
  }

  lemma {:induction false} ClosedStep(db: Db, cmd: Command, result: Result<(Db, Record), Failure>)
    requires cmd.request.Close? && (cmd.tenant, cmd.key) !in db.keys
    requires RunClose(db, cmd.tenant, cmd.request, cmd.env) == result
    ensures result.Ok? ==> Step(db, cmd).1.Done?
    ensures result.Err? && !result.error.NotEligible? ==> Step(db, cmd) == (db, Failed(result.error))
  {
    RunsTheClose(db, cmd);
    StepOf(db, cmd, result);
  }

  lemma {:induction false} RunsTheClose(db: Db, cmd: Command)
    requires cmd.request.Close?
    ensures Run(db, cmd) == RunClose(db, cmd.tenant, cmd.request, cmd.env)
  {
  }

  /** A request under a new key answers what its operation came to. */
  lemma {:induction false} StepOf(db: Db, cmd: Command, result: Result<(Db, Record), Failure>)
    requires CheckRequest(cmd.request) == None && (cmd.tenant, cmd.key) !in db.keys && Run(db, cmd) == result
    ensures result.Ok? ==> Step(db, cmd).1.Done?
    ensures result.Err? && !result.error.NotEligible? ==> Step(db, cmd) == (db, Failed(result.error))
  {
  }

  lemma {:induction false} LargePoolNeverCloses(env: Env)
    requires env.actor.Operator?
    ensures var db := Reached(LargePool()); var preview := PreviewSettlement(db, 0, 1);
      && preview.Ok?
      && Step(db, Command(0, 9, Close(1, preview.value.hash), env)) == (db, Failed(LedgerRefused(AmountTooLarge)))
  {
    LargePoolReached();
    var hash := PreviewSettlement(Reached(LargePool()), 0, 1).value.hash;
    CloseFitsIff(LargePool(), Command(0, 9, Close(1, hash), env), 1);
  }

  /** Under automatic settlement the same pool refuses the very scores that would complete it. */
  lemma {:induction false} LargePoolRefusesScores()
    ensures var db := Reached(Playing(Auto)); Step(db, Scoring(8)) == (db, Failed(LedgerRefused(AmountTooLarge)))
  {
    ScoringAdvances(Auto);
    AutoRefuses();
    BothFinished(Started(Auto));
    RefusedStep(Reached(Playing(Auto)), Scoring(8), LedgerRefused(AmountTooLarge));
  }

  lemma {:induction false} AutoRefuses()
    ensures Advance(Reached(Playing(Auto)).journal, 1, Scored(Started(Auto), BATCH, 0), Now(0))
      == Err(LedgerRefused(AmountTooLarge))
  {
    var journal := Reached(Playing(Auto)).journal;
    WaitingReady(Auto);
    BothFinished(Started(Auto));
    AdvanceOutcome(journal, 1, Scored(Started(Auto), BATCH, 0), Now(0));
    PlatformSettles(Waiting(Auto));
    var result := SettlementResult(journal, Waiting(Auto), Reckon(Waiting(Auto)).value, Now(0));
  }

  lemma {:induction false} PlatformSettles(k: Contest)
    requires k.state.AwaitingSettlement? && k.terms.policy.Auto?
    ensures CheckTransition(k, Settling, System).None?
  {
  }

  lemma {:induction false} SettlementResult(journal: Journal, k: Contest, p: Preview, env: Env)
      returns (result: Result<Outcome, Failure>)
    requires Ready(journal, 1, k) && Reckon(k) == Ok(p) && CheckTransition(k, Settling, System).None?
    ensures result == ExecuteSettlement(journal, 1, k, System, None, env)
    ensures p.net > MAX_AMOUNT ==> result == Err(LedgerRefused(AmountTooLarge))
  {
    SettlementOutcome(journal, 1, k, System, None, env);
    result := ExecuteSettlement(journal, 1, k, System, None, env);
  }

  lemma {:induction false} RefusedStep(db: Db, cmd: Command, failure: Failure)
    requires cmd.request.SubmitScores? && CheckBatch(cmd.request.batch) == None && (cmd.tenant, cmd.key) !in db.keys
    requires RunScores(db, cmd.tenant, cmd.request, cmd.env) == Err(failure)
    ensures Step(db, cmd) == (db, Failed(failure))
  {
  }
}
