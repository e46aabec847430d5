/**
 * When each request succeeds in a state some run reaches, and what it then does, written
 * out in the rows and the clock: nothing here is said through the engine's own checks.
 */
module ContestOutcomes {
  import opened Common
  import opened Ledger
  import opened Contests
  import opened ContestInvariant
  import opened ContestLifecycle
  import opened ContestRuns
  import opened ContestTheorems
  import opened EligibilityMeaning
  import Eligibility

  /** The contest a request names is there and is the caller's. */
  ghost predicate Own(db: Db, cmd: Command, id: nat) {
    id in db.contests && db.contests[id].tenant == cmd.tenant
  }

  /** How many participants have not withdrawn. */
  ghost function Playing(ps: seq<Participant>): set<nat> {
    set i: nat | i < |ps| && ps[i].state != Withdrawn
  }

  lemma {:induction false} PlayingAreActive(ps: seq<Participant>)
    ensures |Playing(ps)| == ActiveCount(ps)
  {
    if ps == [] {
      assert Playing(ps) == {};
    } else {
      var last := |ps| - 1;
      PlayingAreActive(ps[..last]);
      assert Playing(ps) == Playing(ps[..last]) + if ps[last].state != Withdrawn then {last} else {};
    }
  }

  lemma {:induction false} NobodyPlays(ps: seq<Participant>)
    ensures ActiveCount(ps) == 0 <==> forall i | 0 <= i < |ps| :: ps[i].state == Withdrawn
  {
    PlayingAreActive(ps);
    if ActiveCount(ps) == 0 {
      forall i | 0 <= i < |ps| ensures ps[i].state == Withdrawn {
        assert i !in Playing(ps);
      }
    } else {
      assert Playing(ps) != {};
      var i :| i in Playing(ps);
    }
  }

  /** A request that does not succeed leaves every contest and every balance alone. */
  lemma {:induction false} OtherwiseNothing(db: Db, cmd: Command)
    ensures !Step(db, cmd).1.Done? ==>
      Step(db, cmd).0.contests == db.contests && Step(db, cmd).0.journal == db.journal
  {
    StepCases(db, cmd);
  }

  // ---- Entering ----------------------------------------------------------------------

  /** The stake as the evaluator is shown it: the balance, and what was staked in the last 24 hours and 7 days. */
  ghost function StakeInput(db: Db, cmd: Command, k: Contest): Eligibility.Input
    requires cmd.request.Enter?
  {
    var wallet := Wallet(cmd.tenant, k.asset, cmd.request.user);
    Eligibility.Input(
      cmd.env.profile, k.asset, k.terms.entryAmount, Balance(db.journal, wallet),
      Eligibility.Velocity(Eligibility.StakedSince(db.journal, wallet, cmd.env.now.ms - 86_400_000),
                           Eligibility.StakedSince(db.journal, wallet, cmd.env.now.ms - 604_800_000)),
      cmd.env.ruleset, cmd.env.now)
  }

  /** Everything an entry needs besides being in time. */
  ghost predicate MayEnter(db: Db, cmd: Command, k: Contest)
    requires cmd.request.Enter?
  {
    && (cmd.request.seed.None? || cmd.request.seed.value >= 1)
    && k.state == Open
    && (forall i | 0 <= i < |k.participants| && k.participants[i].user == cmd.request.user ::
          k.participants[i].state == Withdrawn)
    && (k.terms.maxParticipants.None? || |Playing(k.participants)| < k.terms.maxParticipants.value)
    && forall reason :: !Means(StakeInput(db, cmd, k), reason)
  }

  lemma {:induction false} EntryConditions(db: Db, cmd: Command, k: Contest)
    requires cmd.request.Enter? && Roster(k) && k.tenant == cmd.tenant
    ensures var place := FindParticipant(k.participants, cmd.request.user);
      var decision := Eligibility.Decide(EntryInput(db.journal, k, cmd.request.user, cmd.env));
      MayEnter(db, cmd, k) <==>
        && CheckRequest(cmd.request) == None && k.state.Open? && !Full(k) && decision.Allowed?
        && !(place.Some? && Active(k.participants[place.value]))
  {
    PlayingAreActive(k.participants);
    DecisionMeans(StakeInput(db, cmd, k));
    assert StakeInput(db, cmd, k) == EntryInput(db.journal, k, cmd.request.user, cmd.env);
  }

  /** A request under a new key for one of the caller's contests runs, if its own fields are in order. */
  lemma {:induction false} EntryRuns(db: Db, cmd: Command)
    requires cmd.request.Enter? && (cmd.tenant, cmd.key) !in db.keys
    ensures Step(db, cmd).1.Done? <==>
      CheckRequest(cmd.request) == None && RunEnter(db, cmd.tenant, cmd.key, cmd.request, cmd.env).Ok?
    ensures Step(db, cmd).1.Done? ==>
      var (after, record) := RunEnter(db, cmd.tenant, cmd.key, cmd.request, cmd.env).value;
      Step(db, cmd) == (Keyed(after, cmd, record), Done(record))
  {
  }

  /**
   * In every reachable state an entry under a new key succeeds exactly when the contest is
   * the caller's and open, its lock time has not come, the user is not already in it, it is
   * not full and no rule stands against the stake. Otherwise no contest and no balance
   * changes.
   */
  lemma {:induction false} EntryAccepted(run: seq<Action>, cmd: Command)
    requires cmd.request.Enter? && (cmd.tenant, cmd.key) !in Reached(run).keys
    ensures var db, id := Reached(run), cmd.request.contest; var (after, reply) := Step(db, cmd);
      && (reply.Done? <==>
            && Own(db, cmd, id) && MayEnter(db, cmd, db.contests[id])
            && (db.contests[id].terms.locksAt.None? || cmd.env.now.ms < db.contests[id].terms.locksAt.value))
      && (!reply.Done? ==> after.contests == db.contests && after.journal == db.journal)
  {
    ReachedInv(run);
    OtherwiseNothing(Reached(run), cmd);
    EntryAcceptedIn(Reached(run), cmd);
  }

  lemma {:induction false} EntryAcceptedIn(db: Db, cmd: Command)
    requires DbInv(db) && cmd.request.Enter? && (cmd.tenant, cmd.key) !in db.keys
    ensures var id := cmd.request.contest;
      Step(db, cmd).1.Done? <==>
        && Own(db, cmd, id) && MayEnter(db, cmd, db.contests[id])
        && (db.contests[id].terms.locksAt.None? || cmd.env.now.ms < db.contests[id].terms.locksAt.value)
  {
    EntryRuns(db, cmd);
    if Own(db, cmd, cmd.request.contest) {
      var k := db.contests[cmd.request.contest];
      assert ContestInv(db.journal, cmd.request.contest, k);
      EnterOutcome(db, cmd.tenant, cmd.key, cmd.request, cmd.env);
      EntryConditions(db, cmd, k);
    }
  }

  /** Where a user stands among the participants, or past the end. */
  ghost predicate PlaceOf(ps: seq<Participant>, user: nat, place: nat) {
    && place <= |ps|
    && (forall i | 0 <= i < |ps| :: ps[i].user == user <==> i == place)
  }

  lemma {:induction false} PlaceFound(ps: seq<Participant>, user: nat, place: nat)
    requires PlaceOf(ps, user, place)
    ensures FindParticipant(ps, user) == if place < |ps| then Some(place) else None
  {
    var found := FindParticipant(ps, user);
    if place < |ps| {
      assert ps[place].user == user;
    }
    if found.Some? {
      assert ps[found.value].user == user;
    }
  }

  /**
   * What an entry leaves: one new journal entry that moves the stake from the user's wallet
   * to the contest's escrow, and the user's row, new or reactivated, pointing at it.
   */
  lemma {:induction false} EntryLeaves(run: seq<Action>, cmd: Command, place: nat)
    requires cmd.request.Enter? && Step(Reached(run), cmd).1.Done?
    requires cmd.request.contest in Reached(run).contests
    requires PlaceOf(Reached(run).contests[cmd.request.contest].participants, cmd.request.user, place)
    ensures var db, id, r := Reached(run), cmd.request.contest, cmd.request; var k := db.contests[id];
      var (after, reply) := Step(db, cmd);
      var seat := Participant(r.user, r.teamRef, r.seed, |db.journal|, Entered);
      && after.contests == db.contests[id := k.(participants :=
           if place < |k.participants| then k.participants[place := seat] else k.participants + [seat])]
      && after.journal == db.journal + [Entry(
           Post(cmd.tenant, EscrowEntry, EntryKey(cmd.key), Some(id), None,
                [Line(Wallet(cmd.tenant, k.asset, r.user), Debit, k.terms.entryAmount),
                 Line(Escrow(cmd.tenant, k.asset, id), Credit, k.terms.entryAmount)]), cmd.env.at)]
      && reply.record == EntryRecord(id, place, |db.journal|, |db.decisions|)
      && after.decisions == db.decisions + [DecisionRow(cmd.tenant, id, r.user, Eligibility.Allowed)]
  {
    ReachedInv(run);
    var db := Reached(run);
    StepCases(db, cmd);
    EntryRuns(db, cmd);
    EnterOutcome(db, cmd.tenant, cmd.key, cmd.request, cmd.env);
    PlaceFound(db.contests[cmd.request.contest].participants, cmd.request.user, place);
    EnteredIs(db, cmd.request, cmd.key, cmd.env, place);
  }

  lemma {:induction false} EnteredIs(db: Db, r: Request, key: nat, env: Env, place: nat)
    requires r.Enter? && r.contest in db.contests && place <= |db.contests[r.contest].participants|
    ensures var k := db.contests[r.contest];
      var (after, record) := EnteredDb(db, r, key, env, if place < |k.participants| then Some(place) else None);
      var seat := Participant(r.user, r.teamRef, r.seed, |db.journal|, Entered);
      && after.contests == db.contests[r.contest := k.(participants :=
           if place < |k.participants| then k.participants[place := seat] else k.participants + [seat])]
      && after.journal == db.journal + [Entry(
           Post(k.tenant, EscrowEntry, EntryKey(key), Some(r.contest), None,
                [Line(Wallet(k.tenant, k.asset, r.user), Debit, k.terms.entryAmount),
                 Line(Escrow(k.tenant, k.asset, r.contest), Credit, k.terms.entryAmount)]), env.at)]
      && record == EntryRecord(r.contest, place, |db.journal|, |db.decisions|)
      && after.decisions == db.decisions + [DecisionRow(k.tenant, r.contest, r.user, Eligibility.Allowed)]
  {
    var k := db.contests[r.contest];
    StakePost(k.tenant, k.asset, r.contest, r.user, k.terms.entryAmount, key);
  }

  lemma {:induction false} StakePost(tenant: nat, asset: Asset, id: nat, user: nat, amount: int, key: nat)
    ensures EscrowPost(tenant, asset, id, user, amount, key) ==
      Post(tenant, EscrowEntry, EntryKey(key), Some(id), None,
           [Line(Wallet(tenant, asset, user), Debit, amount), Line(Escrow(tenant, asset, id), Credit, amount)])
    ensures RefundPost(tenant, asset, id, user, amount, key) ==
      Post(tenant, RefundEntry, WithdrawKey(key), Some(id), None,
           [Line(Escrow(tenant, asset, id), Debit, amount), Line(Wallet(tenant, asset, user), Credit, amount)])
  {
  }

  // ---- Withdrawing -------------------------------------------------------------------

  lemma {:induction false} WithdrawalRuns(db: Db, cmd: Command)
    requires cmd.request.Withdraw? && (cmd.tenant, cmd.key) !in db.keys
    ensures Step(db, cmd).1.Done? <==> RunWithdraw(db, cmd.tenant, cmd.key, cmd.request, cmd.env).Ok?
    ensures Step(db, cmd).1.Done? ==>
      var (after, record) := RunWithdraw(db, cmd.tenant, cmd.key, cmd.request, cmd.env).value;
      Step(db, cmd) == (Keyed(after, cmd, record), Done(record))
  {
  }

  /**
   * In every reachable state a withdrawal under a new key succeeds exactly when the contest
   * is the caller's and open, its lock time has not come and the user is in it. It then
   * marks their row and returns the stake; otherwise no contest and no balance changes.
   */
  lemma {:induction false} WithdrawalAccepted(run: seq<Action>, cmd: Command, place: nat)
    requires cmd.request.Withdraw? && (cmd.tenant, cmd.key) !in Reached(run).keys
    requires cmd.request.contest in Reached(run).contests ==>
      PlaceOf(Reached(run).contests[cmd.request.contest].participants, cmd.request.user, place)
    ensures var db, id, r := Reached(run), cmd.request.contest, cmd.request; var (after, reply) := Step(db, cmd);
      && (reply.Done? <==>
            && Own(db, cmd, id)
            && var k := db.contests[id];
            && k.state == Open && (k.terms.locksAt.None? || cmd.env.now.ms < k.terms.locksAt.value)
            && place < |k.participants| && k.participants[place].state == Entered)
      && (if !reply.Done? then after.contests == db.contests && after.journal == db.journal
          else
            var k := db.contests[id];
            && after.contests == db.contests[id := k.(participants :=
                 k.participants[place := k.participants[place].(state := Withdrawn)])]
            && after.journal == db.journal + [Entry(
                 Post(cmd.tenant, RefundEntry, WithdrawKey(cmd.key), Some(id), None,
                      [Line(Escrow(cmd.tenant, k.asset, id), Debit, k.terms.entryAmount),
                       Line(Wallet(cmd.tenant, k.asset, r.user), Credit, k.terms.entryAmount)]), cmd.env.at)]
            && reply.record == WithdrawalRecord(id, place, |db.journal|))
  {
    ReachedInv(run);
    var db, id := Reached(run), cmd.request.contest;
    OtherwiseNothing(db, cmd);
    WithdrawalRuns(db, cmd);
    if Own(db, cmd, id) {
      WithdrawOutcome(db, cmd.tenant, cmd.key, cmd.request, cmd.env);
      PlaceFound(db.contests[id].participants, cmd.request.user, place);
      var k := db.contests[id];
      StakePost(cmd.tenant, k.asset, id, cmd.request.user, k.terms.entryAmount, cmd.key);
    }
  }

  /** Every user has a place among a reachable contest's participants, taken or not. */
  lemma {:induction false} HasPlace(run: seq<Action>, id: nat, user: nat) returns (place: nat)
    requires id in Reached(run).contests
    ensures PlaceOf(Reached(run).contests[id].participants, user, place)
  {
    ReachedContest(run, id);
    var ps := Reached(run).contests[id].participants;
    place := if FindParticipant(ps, user).Some? then FindParticipant(ps, user).value else |ps|;
  }

  // ---- Moving ------------------------------------------------------------------------

  /** Which plain moves there are, from which states, and what else each needs. */
  ghost predicate MayMove(k: Contest, to: ContestState, env: Env) {
    && env.actor != UserActor
    && match to
       case Open =>
         k.state == Draft && (env.ruleset.perContest.None? || k.terms.entryAmount <= env.ruleset.perContest.value)
       case Locked => k.state == Open
       case InProgress => k.state == Locked
       case AwaitingSettlement => k.state == InProgress
       case Cancelled =>
         && (k.state == Draft || k.state == Open || k.state == Locked || k.state == InProgress
             || (k.state == AwaitingSettlement && (k.terms.policy == OperatorClose ==> env.actor == Operator)))
         && forall i | 0 <= i < |k.participants| :: k.participants[i].state == Withdrawn
       case _ => false
  }

  lemma {:induction false} MoveAllowed(journal: Journal, id: nat, k: Contest, to: ContestState, env: Env)
    requires ContestInv(journal, id, k) && EscrowsTagged(journal)
    ensures PlainTarget(to) && Transition(journal, id, k, to, env.actor, env).Ok? <==> MayMove(k, to, env)
    ensures MayMove(k, to, env) ==> Transition(journal, id, k, to, env.actor, env) == Ok(k.(state := to))
  {
    CancelGuarded(journal, id, k, env);
    GuardedMove(journal, id, k, to, env);
  }

  lemma {:induction false} GuardedMove(journal: Journal, id: nat, k: Contest, to: ContestState, env: Env)
    requires CheckGuard(journal, id, k, Cancelled, env.ruleset) == None <==>
      forall i | 0 <= i < |k.participants| :: k.participants[i].state == Withdrawn
    ensures PlainTarget(to) && Transition(journal, id, k, to, env.actor, env).Ok? <==> MayMove(k, to, env)
    ensures MayMove(k, to, env) ==> Transition(journal, id, k, to, env.actor, env) == Ok(k.(state := to))
  {
  }

  /** Nobody left to refund is all a cancellation waits for: the escrow is empty then. */
  lemma {:induction false} CancelGuarded(journal: Journal, id: nat, k: Contest, env: Env)
    requires ContestInv(journal, id, k) && EscrowsTagged(journal)
    ensures CheckGuard(journal, id, k, Cancelled, env.ruleset) == None <==>
      forall i | 0 <= i < |k.participants| :: k.participants[i].state == Withdrawn
  {
    NobodyPlays(k.participants);
    EscrowHolds(journal, id, k);
    StakesOfNobody(k.terms.entryAmount);
  }

  lemma {:induction false} StakesOfNobody(amount: int)
    ensures 0 * amount == 0
  {
  }

  lemma {:induction false} MoveRuns(db: Db, cmd: Command)
    requires cmd.request.MoveTo? && (cmd.tenant, cmd.key) !in db.keys
    ensures Step(db, cmd).1.Done? <==> PlainTarget(cmd.request.to) && RunMove(db, cmd.tenant, cmd.request, cmd.env).Ok?
    ensures Step(db, cmd).1.Done? ==>
      var (after, record) := RunMove(db, cmd.tenant, cmd.request, cmd.env).value;
      Step(db, cmd) == (Keyed(after, cmd, record), Done(record))
  {
  }

  /**
   * In every reachable state a plain move under a new key succeeds exactly from the states
   * `MayMove` lists, a cancellation only when nobody plays, and changes nothing but the
   * state.
   */
  lemma {:induction false} MoveAccepted(run: seq<Action>, cmd: Command)
    requires cmd.request.MoveTo? && (cmd.tenant, cmd.key) !in Reached(run).keys
    ensures var db, id, to := Reached(run), cmd.request.contest, cmd.request.to; var (after, reply) := Step(db, cmd);
      && (reply.Done? <==> Own(db, cmd, id) && MayMove(db.contests[id], to, cmd.env))
      && after.journal == db.journal
      && after.contests == if reply.Done? then db.contests[id := db.contests[id].(state := to)] else db.contests
  {
    ReachedInv(run);
    var db, id := Reached(run), cmd.request.contest;
    OtherwiseNothing(db, cmd);
    MoveRuns(db, cmd);
    if Own(db, cmd, id) {
      ReachedContest(run, id);
      MoveAllowed(db.journal, id, db.contests[id], cmd.request.to, cmd.env);
    }
  }

  // ---- Money from outside ------------------------------------------------------------

  /**
   * What a posting made outside the contests does, if it goes through: points issued and
   * deposits add to the wallet, withdrawals take from it, and the other side is the
   * promotion's liability or what is held outside.
   */
  lemma {:induction false} OutsideMoves(db: Db, flow: OutsideFlow, at: int, account: Account)
    requires TryPost(db.journal, OutsidePost(flow), at).Ok?
      && !TryPost(db.journal, OutsidePost(flow), at).value.replayed
    ensures var after := Act(db, Outside(flow, at));
      && after == db.(journal := after.journal)
      && Balance(after.journal, account) == Balance(db.journal, account) +
           if account == Wallet(flow.tenant, flow.asset, flow.user) then
             (if flow.WithdrawFunds? then -flow.amount else flow.amount)
           else if flow.IssuePoints? && account == PromoLiability(flow.tenant, flow.asset) then -flow.amount
           else if flow.DepositFunds? && account == ExternalSettlement(flow.tenant, flow.asset) then flow.amount
           else if flow.WithdrawFunds? && account == ExternalSettlement(flow.tenant, flow.asset) then -flow.amount
           else 0
  {
    var post := OutsidePost(flow);
    PostShape(db.journal, post, at);
    BalancePush(db.journal, Entry(post, at), account);
    var wallet := Wallet(flow.tenant, flow.asset, flow.user);
    match flow
    case IssuePoints(_, _, _, amount, _) =>
      MoveDelta(PromoLiability(flow.tenant, flow.asset), wallet, amount, account);
    case DepositFunds(_, _, _, amount, _) =>
      MoveDelta(ExternalSettlement(flow.tenant, flow.asset), wallet, amount, account);
    case WithdrawFunds(_, _, _, amount, _) =>
      MoveDelta(wallet, ExternalSettlement(flow.tenant, flow.asset), amount, account);
  }
}
