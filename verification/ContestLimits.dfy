/**
 * Responsible-gaming limits over whole runs: the check made at each entry, one user at a
 * time, bounds what is staked in every 24-hour and 7-day window.
 */
module ContestLimits {
  import opened Common
  import opened Ledger
  import opened Contests
  import opened ContestRuns
  import opened ContestTheorems
  import opened Eligibility
  import S = Settlement

  // ---- Rolling totals ----------------------------------------------------------------

  /** Everything staked from a wallet by entries posted after `from` and no later than `to`. */
  function StakedWithin(journal: Journal, wallet: Account, from: int, to: int): int {
    if journal == [] then 0
    else
      var last := journal[|journal| - 1];
      StakedWithin(journal[..|journal| - 1], wallet, from, to)
        + if from < last.postedAt <= to then Staked(last, wallet) else 0
  }

  ghost predicate StakesPositive(journal: Journal, wallet: Account) {
    forall i | 0 <= i < |journal| :: Staked(journal[i], wallet) >= 0
  }

  lemma {:induction false} DebitNonNegative(lines: seq<Line>, wallet: Account)
    requires forall l | 0 <= l < |lines| :: lines[l].amount > 0
    ensures DebitOf(lines, wallet) >= 0
  {
    if lines != [] {
      DebitNonNegative(lines[..|lines| - 1], wallet);
    }
  }

  lemma {:induction false} WellPostedStakes(journal: Journal, wallet: Account)
    requires WellPosted(journal)
    ensures StakesPositive(journal, wallet)
  {
    forall i | 0 <= i < |journal| ensures Staked(journal[i], wallet) >= 0 {
      assert ValidateLines(journal[i].post.lines) == None;
      DebitNonNegative(journal[i].post.lines, wallet);
    }
  }

  /** An earlier start counts no less. */
  lemma {:induction false} EarlierCountsMore(journal: Journal, wallet: Account, early: int, late: int)
    requires StakesPositive(journal, wallet) && early <= late
    ensures StakedSince(journal, wallet, early) >= StakedSince(journal, wallet, late)
  {
    if journal != [] {
      EarlierCountsMore(journal[..|journal| - 1], wallet, early, late);
    }
  }

  lemma {:induction false} WithinIsSince(journal: Journal, wallet: Account, from: int, to: int)
    requires StakesPositive(journal, wallet)
    ensures StakedWithin(journal, wallet, from, to) <= StakedSince(journal, wallet, from)
  {
    if journal != [] {
      WithinIsSince(journal[..|journal| - 1], wallet, from, to);
    }
  }

  // ---- What the check at entry leaves behind -----------------------------------------

  /** When it was posted, a stake fitted under the limit together with everything in the window behind it. */
  ghost predicate Fits(journal: Journal, i: nat, wallet: Account, limit: nat, window: int)
    requires i < |journal|
  {
    Staked(journal[i], wallet) == 0
    || StakedSince(journal[..i], wallet, journal[i].postedAt - window) + Staked(journal[i], wallet) <= limit
  }

  ghost predicate AllFit(journal: Journal, wallet: Account, limit: nat, window: int) {
    forall i | 0 <= i < |journal| :: Fits(journal, i, wallet, limit, window)
  }

  /** If every stake fitted when it was posted, no window anywhere holds more than the limit. */
  lemma {:induction false} WindowBounded(journal: Journal, wallet: Account, limit: nat, window: int, end: int)
    requires AllFit(journal, wallet, limit, window) && StakesPositive(journal, wallet)
    ensures StakedWithin(journal, wallet, end - window, end) <= limit
  {
    if journal != [] {
      var n := |journal| - 1;
      var front, last := journal[..n], journal[n];
      forall i | 0 <= i < n ensures Fits(front, i, wallet, limit, window) {
        assert front[..i] == journal[..i] && Fits(journal, i, wallet, limit, window);
      }
      WindowBounded(front, wallet, limit, window, end);
      assert Fits(journal, n, wallet, limit, window);
      if end - window < last.postedAt <= end && Staked(last, wallet) != 0 {
        WithinIsSince(front, wallet, end - window, end);
        EarlierCountsMore(front, wallet, last.postedAt - window, end - window);
      }
    }
  }

  lemma {:induction false} AllFitPush(journal: Journal, entry: Entry, wallet: Account, limit: nat, window: int)
    requires AllFit(journal, wallet, limit, window)
    requires Staked(entry, wallet) == 0
      || StakedSince(journal, wallet, entry.postedAt - window) + Staked(entry, wallet) <= limit
    ensures AllFit(journal + [entry], wallet, limit, window)
  {
    var after := journal + [entry];
    assert after[..|journal|] == journal;
    forall i | 0 <= i < |after| ensures Fits(after, i, wallet, limit, window) {
      if i < |journal| {
        assert after[..i] == journal[..i] && Fits(journal, i, wallet, limit, window);
      }
    }
  }

  // ---- Who stakes --------------------------------------------------------------------

  /** The journal grown by entries that stake nothing. */
  ghost predicate NoNewStakes(journal: Journal, after: Journal) {
    journal <= after && forall i | |journal| <= i < |after| :: after[i].post.kind != EscrowEntry
  }

  lemma {:induction false} NoNewStakesFit(journal: Journal, after: Journal, wallet: Account, limit: nat, window: int)
    requires NoNewStakes(journal, after) && AllFit(journal, wallet, limit, window)
    ensures AllFit(after, wallet, limit, window)
    decreases |after|
  {
    if |after| == |journal| {
      assert after == journal;
    } else {
      var front := after[..|after| - 1];
      NoNewStakesFit(journal, front, wallet, limit, window);
      AllFitPush(front, after[|after| - 1], wallet, limit, window);
      assert after == front + [after[|after| - 1]];
    }
  }

  lemma {:induction false} PostStakesNothing(journal: Journal, post: Post, at: int)
    requires TryPost(journal, post, at).Ok? && post.kind != EscrowEntry
    ensures NoNewStakes(journal, TryPost(journal, post, at).value.journal)
  {
    PostShape(journal, post, at);
  }

  lemma {:induction false} SettlementStakesNothing(journal: Journal, id: nat, k: Contest, actor: ActorKind,
      expected: Option<Digest>, env: Env)
    requires ExecuteSettlement(journal, id, k, actor, expected, env).Ok?
    ensures NoNewStakes(journal, ExecuteSettlement(journal, id, k, actor, expected, env).value.journal)
  {
    var settling := Transition(journal, id, k, Settling, actor, env).value;
    var p := Compute(journal, id, settling).value;
    PayOutStakesNothing(journal, id, settling, p, actor, env);
  }

  lemma {:induction false} PayOutStakesNothing(journal: Journal, id: nat, k: Contest, p: Preview, actor: ActorKind,
      env: Env)
    requires PayOut(journal, id, k, p, actor, env).Ok?
    ensures NoNewStakes(journal, PayOut(journal, id, k, p, actor, env).value.journal)
  {
    var raked := PostRake(journal, id, k, p.rake, env.at).value;
    RakeStakesNothing(journal, id, k, p.rake, env.at);
    PayoutsStakeNothing(raked, id, k, p.payouts, env.at);
  }

  lemma {:induction false} RakeStakesNothing(journal: Journal, id: nat, k: Contest, rake: int, at: int)
    requires PostRake(journal, id, k, rake, at).Ok?
    ensures NoNewStakes(journal, PostRake(journal, id, k, rake, at).value)
  {
    if rake > 0 {
      PostStakesNothing(journal, RakePost(k.tenant, k.asset, id, rake), at);
    }
  }

  lemma {:induction false} PayoutsStakeNothing(journal: Journal, id: nat, k: Contest, payouts: seq<S.Payout>, at: int)
    requires PostPayouts(journal, id, k, payouts, at).Ok?
    ensures NoNewStakes(journal, PostPayouts(journal, id, k, payouts, at).value.0)
  {
    if Paid(payouts) != [] {
      PostStakesNothing(journal, SettlePost(k.tenant, k.asset, id, Paid(payouts)), at);
    }
  }

  lemma {:induction false} AdvanceStakesNothing(journal: Journal, id: nat, k: Contest, env: Env)
    requires (k.state.InProgress? || k.state.AwaitingSettlement?) && Advance(journal, id, k, env).Ok?
    ensures NoNewStakes(journal, Advance(journal, id, k, env).value.0)
  {
    AdvanceOutcome(journal, id, k, env);
    if AllExpectedResults(k) && k.terms.policy.Auto? {
      SettlementStakesNothing(journal, id, k.(state := AwaitingSettlement), System, None, env);
    }
  }

  lemma {:induction false} VoidStakesNothing(journal: Journal, id: nat, k: Contest, places: seq<nat>, at: int)
    requires forall i | 0 <= i < |places| :: places[i] < |k.participants|
    requires VoidEach(journal, id, k, places, at).Ok?
    ensures NoNewStakes(journal, VoidEach(journal, id, k, places, at).value.0)
  {
    if places != [] {
      var last := |places| - 1;
      VoidStakesNothing(journal, id, k, places[..last], at);
      var before := VoidEach(journal, id, k, places[..last], at).value.0;
      OneVoidStakesNothing(before, k.tenant, k.participants[places[last]].entry, VoidKey(id, places[last]), at);
    }
  }

  lemma {:induction false} OneVoidStakesNothing(journal: Journal, tenant: nat, entry: nat, key: LedgerKey, at: int)
    requires TryVoid(journal, tenant, entry, key, at).Ok?
    ensures NoNewStakes(journal, TryVoid(journal, tenant, entry, key, at).value.journal)
  {
    var original := journal[entry].post;
    PostStakesNothing(journal, Post(tenant, VoidEntry, key, original.contest, Some(entry), Mirror(original.lines)), at);
  }

  // ---- Every run ---------------------------------------------------------------------

  /** The limit a ruleset puts on a window, when it has one. */
  predicate Limits(ruleset: Ruleset, window: int, limit: nat) {
    (window == LAST_24H && ruleset.per24h == Some(limit)) || (window == LAST_7D && ruleset.per7d == Some(limit))
  }

  /** The stake an entry posts, judged by a clock at most `skew` ahead, fits in a window that much shorter. */
  lemma {:induction false} EntryFits(journal: Journal, k: Contest, user: nat, env: Env, entry: Entry, key: nat, id: nat,
      wallet: Account, limit: nat, window: int, skew: int)
    requires Decide(EntryInput(journal, k, user, env)).Allowed? && Limits(env.ruleset, window, limit)
    requires entry == Entry(EscrowPost(k.tenant, k.asset, id, user, k.terms.entryAmount, key), env.at)
    requires env.now.ms <= env.at + skew && StakesPositive(journal, wallet)
    ensures Staked(entry, wallet) == 0
      || StakedSince(journal, wallet, entry.postedAt - (window - skew)) + Staked(entry, wallet) <= limit
  {
    StakeOfMove(WalletOf(k, user), EscrowOf(id, k), k.terms.entryAmount, wallet);
    AllowedIff(EntryInput(journal, k, user, env));
    assert !Applies(EntryInput(journal, k, user, env), VelocityLimitExceeded);
    EarlierCountsMore(journal, wallet, env.now.ms - window, env.at - (window - skew));
  }

  lemma {:induction false} StakeOfMove(from: Account, to: Account, amount: int, wallet: Account)
    requires from != to
    ensures DebitOf(Move(from, to, amount), wallet) == if wallet == from then amount else 0
  {
    var lines := Move(from, to, amount);
    assert lines[..1] == [lines[0]] && lines[..1][..0] == [];
    assert DebitOf(lines[..1], wallet) == if wallet == from then amount else 0;
  }

  /** An allowed entry's stake, posted or found already posted, fits. */
  lemma {:induction false} StakeFits(journal: Journal, k: Contest, user: nat, env: Env, key: nat, id: nat,
      wallet: Account, limit: nat, window: int, skew: int)
    requires WellPosted(journal) && AllFit(journal, wallet, limit, window - skew)
    requires Decide(EntryInput(journal, k, user, env)).Allowed? && Limits(env.ruleset, window, limit)
    requires env.now.ms <= env.at + skew
    ensures var post := EscrowPost(k.tenant, k.asset, id, user, k.terms.entryAmount, key);
      AllFit(journal + [Entry(post, env.at)], wallet, limit, window - skew)
  {
    var entry := Entry(EscrowPost(k.tenant, k.asset, id, user, k.terms.entryAmount, key), env.at);
    WellPostedStakes(journal, wallet);
    EntryFits(journal, k, user, env, entry, key, id, wallet, limit, window, skew);
    AllFitPush(journal, entry, wallet, limit, window - skew);
  }

  lemma {:induction false} EnterFits(db: Db, cmd: Command, wallet: Account, limit: nat, window: int, skew: int)
    requires WellPosted(db.journal) && Run(db, cmd).Ok? && cmd.request.Enter?
    requires Limits(cmd.env.ruleset, window, limit) && cmd.env.now.ms <= cmd.env.at + skew
    requires AllFit(db.journal, wallet, limit, window - skew)
    ensures AllFit(Run(db, cmd).value.0.journal, wallet, limit, window - skew)
  {
    EnterPosts(db, cmd);
    var r := cmd.request;
    StakeFits(db.journal, db.contests[r.contest], r.user, cmd.env, cmd.key, r.contest, wallet, limit, window, skew);
  }

  lemma {:induction false} EnterPosts(db: Db, cmd: Command)
    requires Run(db, cmd).Ok? && cmd.request.Enter?
    ensures Owned(db, cmd.tenant, cmd.request.contest).Ok?
    ensures var r := cmd.request; var k := db.contests[r.contest];
      var post := EscrowPost(k.tenant, k.asset, r.contest, r.user, k.terms.entryAmount, cmd.key);
      && Decide(EntryInput(db.journal, k, r.user, cmd.env)).Allowed?
      && (Run(db, cmd).value.0.journal == db.journal
        || Run(db, cmd).value.0.journal == db.journal + [Entry(post, cmd.env.at)])
  {
  }

  /** No request but an entry stakes anything. */
  lemma {:induction false} OthersStakeNothing(db: Db, cmd: Command)
    requires Run(db, cmd).Ok? && !cmd.request.Enter?
    ensures NoNewStakes(db.journal, Run(db, cmd).value.0.journal)
  {
    match cmd.request
    case Withdraw(id, user) => WithdrawStakesNothing(db, cmd.tenant, cmd.key, cmd.request, cmd.env);
    case SubmitScores(id, batch) => ScoresStakeNothing(db, cmd.tenant, cmd.request, cmd.env);
    case Close(id, hash) => CloseStakesNothing(db, cmd.tenant, cmd.request, cmd.env);
    case VoidContest(id) => VoidingStakesNothing(db, cmd.tenant, cmd.request, cmd.env);
    case _ =>
  }

  lemma {:induction false} WithdrawStakesNothing(db: Db, tenant: nat, key: nat, r: Request, env: Env)
    requires r.Withdraw? && RunWithdraw(db, tenant, key, r, env).Ok?
    ensures NoNewStakes(db.journal, RunWithdraw(db, tenant, key, r, env).value.0.journal)
  {
    var k := db.contests[r.contest];
    PostStakesNothing(db.journal, RefundPost(tenant, k.asset, r.contest, r.user, k.terms.entryAmount, key), env.at);
  }

  lemma {:induction false} ScoresStakeNothing(db: Db, tenant: nat, r: Request, env: Env)
    requires r.SubmitScores? && RunScores(db, tenant, r, env).Ok?
    ensures NoNewStakes(db.journal, RunScores(db, tenant, r, env).value.0.journal)
  {
    var k := db.contests[r.contest];
    AdvanceStakesNothing(db.journal, r.contest, Scored(k, r.batch, env.at), env);
  }

  lemma {:induction false} CloseStakesNothing(db: Db, tenant: nat, r: Request, env: Env)
    requires r.Close? && RunClose(db, tenant, r, env).Ok?
    ensures NoNewStakes(db.journal, RunClose(db, tenant, r, env).value.0.journal)
  {
    SettlementStakesNothing(db.journal, r.contest, db.contests[r.contest], env.actor, Some(r.hash), env);
  }

  lemma {:induction false} VoidingStakesNothing(db: Db, tenant: nat, r: Request, env: Env)
    requires r.VoidContest? && RunVoid(db, tenant, r, env).Ok?
    ensures NoNewStakes(db.journal, RunVoid(db, tenant, r, env).value.0.journal)
  {
    var k := db.contests[r.contest];
    VoidStakesNothing(db.journal, r.contest, k, ActivePlaces(k.participants), env.at);
  }

  lemma {:induction false} CommitFits(db: Db, cmd: Command, wallet: Account, limit: nat, window: int, skew: int)
    requires WellPosted(db.journal) && Run(db, cmd).Ok?
    requires Limits(cmd.env.ruleset, window, limit) && cmd.env.now.ms <= cmd.env.at + skew
    requires AllFit(db.journal, wallet, limit, window - skew)
    ensures AllFit(Run(db, cmd).value.0.journal, wallet, limit, window - skew)
  {
    if cmd.request.Enter? {
      EnterFits(db, cmd, wallet, limit, window, skew);
    } else {
      OthersStakeNothing(db, cmd);
      NoNewStakesFit(db.journal, Run(db, cmd).value.0.journal, wallet, limit, window - skew);
    }
  }

  /** Every request of the run is judged under one ruleset, by a clock at most `skew` ahead of the ledger's. */
  ghost predicate JudgedBy(run: seq<Action>, ruleset: Ruleset, skew: int) {
    forall i | 0 <= i < |run| && run[i].Ask? ::
      run[i].cmd.env.ruleset == ruleset && run[i].cmd.env.now.ms <= run[i].cmd.env.at + skew
  }

  lemma {:induction false} ActFits(db: Db, action: Action, ruleset: Ruleset, wallet: Account, limit: nat, window: int,
      skew: int)
    requires WellPosted(db.journal) && JudgedBy([action], ruleset, skew) && Limits(ruleset, window, limit)
    requires AllFit(db.journal, wallet, limit, window - skew)
    ensures AllFit(Act(db, action).journal, wallet, limit, window - skew)
  {
    assert [action][0] == action;
    match action
    case Ask(cmd) =>
      StepCases(db, cmd);
      if Succeeds(db, cmd) {
        CommitFits(db, cmd, wallet, limit, window, skew);
      }
    case Outside(flow, at) => OutsideFits(db, flow, at, wallet, limit, window - skew);
  }

  lemma {:induction false} OutsideFits(db: Db, flow: OutsideFlow, at: int, wallet: Account, limit: nat, window: int)
    requires AllFit(db.journal, wallet, limit, window)
    ensures AllFit(Act(db, Outside(flow, at)).journal, wallet, limit, window)
  {
    if TryPost(db.journal, OutsidePost(flow), at).Ok? {
      PostStakesNothing(db.journal, OutsidePost(flow), at);
      NoNewStakesFit(db.journal, Act(db, Outside(flow, at)).journal, wallet, limit, window);
    }
  }

  lemma {:induction false} RunFits(run: seq<Action>, ruleset: Ruleset, wallet: Account, limit: nat, window: int,
      skew: int)
    requires JudgedBy(run, ruleset, skew) && Limits(ruleset, window, limit)
    ensures AllFit(Reached(run).journal, wallet, limit, window - skew)
  {
    if run != [] {
      var front := run[..|run| - 1];
      RunFits(front, ruleset, wallet, limit, window, skew);
      ReachedInv(front);
      ActFits(Reached(front), run[|run| - 1], ruleset, wallet, limit, window, skew);
    }
  }

  lemma {:induction false} ReachedStakes(run: seq<Action>, wallet: Account)
    ensures StakesPositive(Reached(run).journal, wallet)
  {
    ReachedInv(run);
    WellPostedStakes(Reached(run).journal, wallet);
  }

  /**
   * The sliding-window limit: in every run, no 24-hour and no 7-day window, wherever it
   * ends, holds more stakes from a wallet than the ruleset allows, across all contests. A
   * judging clock ahead of the ledger's shortens the window this holds of by as much.
   */
  lemma {:induction false} SlidingWindow(run: seq<Action>, ruleset: Ruleset, window: int, limit: nat, skew: int,
      wallet: Account, end: int)
    requires JudgedBy(run, ruleset, skew) && Limits(ruleset, window, limit)
    ensures StakedWithin(Reached(run).journal, wallet, end - (window - skew), end) <= limit
  {
    ReachedStakes(run, wallet);
    RunFits(run, ruleset, wallet, limit, window, skew);
    WindowBounded(Reached(run).journal, wallet, limit, window - skew, end);
  }
}
