/** When an entry or a withdrawal goes through, and how a contest may move between its states. */
module ContestLifecycle {
  import opened Common
  import opened Ledger
  import opened Contests
  import opened ContestInvariant
  import opened ContestSteps
  import opened ContestSettlement
  import opened ContestRuns
  import Eligibility

  /** A covered move under a new key always posts. */
  lemma {:induction false} MovePosts(journal: Journal, post: Post, from: Account, to: Account, amount: int, at: int)
    requires post.lines == Move(from, to, amount) && post.reverses.None? && KeyFree(journal, post.tenant, post.key)
    requires from.tenant == to.tenant == post.tenant && from.asset == to.asset && from != to
    requires !from.ExternalSettlement? && !to.ExternalSettlement?
    requires 0 < amount <= MAX_AMOUNT && amount <= Balance(journal, from)
    ensures TryPost(journal, post, at) == Ok(Posted(journal + [Entry(post, at)], |journal|, false))
  {
    MoveValid(from, to, amount);
    MoveCovered(journal, from, to, amount);
    PostSucceeds(journal, post, at);
  }

  // ---- Entering ----------------------------------------------------------------------

  /** An eligible user's stake always posts: the wallet covers it, and the key is new. */
  lemma {:induction false} StakePosts(db: Db, id: nat, k: Contest, user: nat, key: nat, env: Env)
    requires DbInv(db) && CheckTerms(k.terms) == None && (k.tenant, key) !in db.keys
    requires Eligibility.Decide(EntryInput(db.journal, k, user, env)).Allowed?
    ensures var post := EscrowPost(k.tenant, k.asset, id, user, k.terms.entryAmount, key);
      TryPost(db.journal, post, env.at) == Ok(Posted(db.journal + [Entry(post, env.at)], |db.journal|, false))
  {
    var post := EscrowPost(k.tenant, k.asset, id, user, k.terms.entryAmount, key);
    AllowedCovers(db.journal, k, user, env);
    KeyUnused(db, k.tenant, key);
    MovePosts(db.journal, post, WalletOf(k, user), EscrowOf(id, k), k.terms.entryAmount, env.at);
  }

  lemma {:induction false} AllowedCovers(journal: Journal, k: Contest, user: nat, env: Env)
    requires Eligibility.Decide(EntryInput(journal, k, user, env)).Allowed?
    ensures Balance(journal, WalletOf(k, user)) >= k.terms.entryAmount
  {
    Eligibility.AllowedIff(EntryInput(journal, k, user, env));
    assert !Eligibility.Applies(EntryInput(journal, k, user, env), Eligibility.InsufficientBalance);
  }

  /**
   * An entry is refused for the state, the lock time, an entry already active, a full
   * contest or the eligibility decision, in that order, and otherwise goes through: the
   * ledger never refuses a stake the decision allowed.
   */
  lemma {:induction false} EnterOutcome(db: Db, tenant: nat, key: nat, r: Request, env: Env)
    requires DbInv(db) && r.Enter? && (tenant, key) !in db.keys && Owned(db, tenant, r.contest).Ok?
    ensures var k := db.contests[r.contest]; var place := FindParticipant(k.participants, r.user);
      var decision := Eligibility.Decide(EntryInput(db.journal, k, r.user, env));
      RunEnter(db, tenant, key, r, env) ==
        if !k.state.Open? || (k.terms.locksAt.Some? && k.terms.locksAt.value <= env.now.ms) then Err(ContestNotOpen)
        else if place.Some? && Active(k.participants[place.value]) then Err(AlreadyEntered)
        else if Full(k) then Err(ContestFull)
        else if decision.Refused? then Err(NotEligible(decision))
        else Ok(EnteredDb(db, r, key, env, place))
  {
    var k := db.contests[r.contest];
    assert ContestInv(db.journal, r.contest, k);
    if Eligibility.Decide(EntryInput(db.journal, k, r.user, env)).Allowed? {
      StakePosts(db, r.contest, k, r.user, key, env);
    }
  }

  /**
   * The rows after an entry: the stake in escrow, the user seated under the entry that put
   * it there, the decision recorded.
   */
  function EnteredDb(db: Db, r: Request, key: nat, env: Env, place: Option<nat>): (Db, Record)
    requires r.Enter? && r.contest in db.contests
      && (place.Some? ==> place.value < |db.contests[r.contest].participants|)
  {
    var k := db.contests[r.contest];
    var p := Participant(r.user, r.teamRef, r.seed, |db.journal|, Entered);
    (Db(db.contests[r.contest := k.(participants := Seated(k.participants, place, p))],
        db.journal + [Entry(EscrowPost(k.tenant, k.asset, r.contest, r.user, k.terms.entryAmount, key), env.at)],
        db.keys,
        db.decisions + [DecisionRow(k.tenant, r.contest, r.user, Eligibility.Allowed)]),
     EntryRecord(r.contest, Or(place, |k.participants|), |db.journal|, |db.decisions|))
  }

  /** The stake moves whole: out of the user's wallet and into the contest's escrow, and no other balance changes. */
  lemma {:induction false} EntryMovesStake(db: Db, r: Request, key: nat, env: Env, place: Option<nat>, account: Account)
    requires r.Enter? && r.contest in db.contests
      && (place.Some? ==> place.value < |db.contests[r.contest].participants|)
    ensures var k := db.contests[r.contest];
      Balance(EnteredDb(db, r, key, env, place).0.journal, account) == Balance(db.journal, account)
        + if account == WalletOf(k, r.user) then -k.terms.entryAmount
          else if account == EscrowOf(r.contest, k) then k.terms.entryAmount else 0
  {
    var k := db.contests[r.contest];
    var post := EscrowPost(k.tenant, k.asset, r.contest, r.user, k.terms.entryAmount, key);
    BalancePush(db.journal, Entry(post, env.at), account);
    MoveDelta(WalletOf(k, r.user), EscrowOf(r.contest, k), k.terms.entryAmount, account);
  }

  // ---- Withdrawing -------------------------------------------------------------------

  /** A stake still held can always be returned: the escrow holds at least that much. */
  lemma {:induction false} RefundPosts(db: Db, id: nat, place: nat, key: nat, at: int)
    requires DbInv(db) && id in db.contests && db.contests[id].state.Open? && (db.contests[id].tenant, key) !in db.keys
    requires place < |db.contests[id].participants| && Active(db.contests[id].participants[place])
    ensures var k := db.contests[id];
      var post := RefundPost(k.tenant, k.asset, id, k.participants[place].user, k.terms.entryAmount, key);
      TryPost(db.journal, post, at) == Ok(Posted(db.journal + [Entry(post, at)], |db.journal|, false))
  {
    var k := db.contests[id];
    var user, amount := k.participants[place].user, k.terms.entryAmount;
    assert ContestInv(db.journal, id, k);
    EscrowCovers(db.journal, id, k, place);
    KeyUnused(db, k.tenant, key);
    MovePosts(db.journal, RefundPost(k.tenant, k.asset, id, user, amount, key), EscrowOf(id, k), WalletOf(k, user),
        amount, at);
  }

  lemma {:induction false} EscrowCovers(journal: Journal, id: nat, k: Contest, place: nat)
    requires EscrowsTagged(journal) && Accounted(journal, id, k) && !Terminal(k.state) && k.terms.entryAmount > 0
    requires place < |k.participants| && Active(k.participants[place])
    ensures Balance(journal, EscrowOf(id, k)) >= k.terms.entryAmount
  {
    ComputesReckoning(journal, id, k);
    ActivePlacesFacts(k.participants);
    OneOfMany(ActiveCount(k.participants), k.terms.entryAmount);
  }

  lemma {:induction false} OneOfMany(n: nat, amount: int)
    requires amount > 0
    ensures n > 0 ==> n * amount >= amount
  {
    if n > 1 {
      OneOfMany(n - 1, amount);
      assert n * amount == (n - 1) * amount + amount;
    }
  }

  /**
   * A withdrawal is refused for the state, the lock time, a stranger or an entry no longer
   * active, in that order, and otherwise goes through: the ledger never refuses to return
   * a stake.
   */
  lemma {:induction false} WithdrawOutcome(db: Db, tenant: nat, key: nat, r: Request, env: Env)
    requires DbInv(db) && r.Withdraw? && (tenant, key) !in db.keys && Owned(db, tenant, r.contest).Ok?
    ensures var k := db.contests[r.contest]; var place := FindParticipant(k.participants, r.user);
      RunWithdraw(db, tenant, key, r, env) ==
        if !k.state.Open? || (k.terms.locksAt.Some? && k.terms.locksAt.value <= env.now.ms)
          then Err(InvalidContestState)
        else if place.None? then Err(NotAParticipant)
        else if !k.participants[place.value].state.Entered? then Err(ParticipantNotActive)
        else Ok((db.(contests := db.contests[r.contest := WithdrawnAt(k, place.value)],
                     journal := db.journal + [Entry(RefundPost(k.tenant, k.asset, r.contest, r.user,
                         k.terms.entryAmount, key), env.at)]),
                 WithdrawalRecord(r.contest, place.value, |db.journal|)))
  {
    var k := db.contests[r.contest];
    var place := FindParticipant(k.participants, r.user);
    if k.state.Open? && place.Some? && k.participants[place.value].state.Entered? {
      RefundPosts(db, r.contest, place.value, key, env.at);
    }
  }

  // ---- Moving between states ---------------------------------------------------------

  /** The contest a request is about. */
  predicate Names(r: Request, id: nat) {
    !r.Create? && r.contest == id
  }

  /** Scores that leave every entered participant with a finished result. */
  ghost predicate Completes(k: Contest, cmd: Command)
    requires cmd.request.SubmitScores?
  {
    AllExpectedResults(Scored(k, cmd.request.batch, cmd.env.at))
  }

  /** The state a contest is left in by a request that succeeds. */
  ghost function Leaves(k: Contest, id: nat, cmd: Command): ContestState {
    if !Names(cmd.request, id) then k.state
    else
      match cmd.request
      case MoveTo(_, to) => to
      case SubmitScores(_, _) =>
        if !Completes(k, cmd) then k.state else if k.terms.policy.Auto? then Settled else AwaitingSettlement
      case Close(_, _) => Settled
      case VoidContest(_) => Voided
      case _ => k.state
  }

  /** The moves there are. */
  predicate Along(from: ContestState, to: ContestState) {
    match to
    case Open => from == Draft
    case Locked => from == Open
    case InProgress => from == Locked
    case AwaitingSettlement => from == InProgress
    case Settling => from == AwaitingSettlement
    case Settled => from == Settling
    case Cancelled =>
      from == Draft || from == Open || from == Locked || from == InProgress || from == AwaitingSettlement
    case Voided => from == Open || from == Locked || from == InProgress || from == AwaitingSettlement
    case _ => false
  }

  /**
   * Who may change a contest's state, and from where: anybody's scores while it is being
   * played or its results are awaited; otherwise, along the transition table or by a close,
   * anyone but a user, and only an operator where only operators close.
   */
  predicate Legal(k: Contest, to: ContestState, r: Request, actor: ActorKind) {
    if r.SubmitScores? then
      k.state.InProgress? || (k.state.AwaitingSettlement? && k.terms.policy.Auto?)
    else
      && !actor.UserActor?
      && (Along(k.state, to) || (r.Close? && k.state.AwaitingSettlement? && to.Settled?))
      && (k.state.AwaitingSettlement? && k.terms.policy.OperatorClose? ==> actor.Operator?)
  }

  /** The state is the one the request leaves, and the request was allowed to leave it. */
  ghost predicate Follows(k: Contest, id: nat, cmd: Command, to: ContestState) {
    to == Leaves(k, id, cmd) && (to != k.state ==> Legal(k, to, cmd.request, cmd.env.actor))
  }

  lemma {:induction false} StateAfter(db: Db, cmd: Command, id: nat)
    requires DbInv(db) && Succeeds(db, cmd) && id in db.contests
    ensures id in Committed(db, cmd).contests
    ensures Follows(db.contests[id], id, cmd, Committed(db, cmd).contests[id].state)
  {
    match cmd.request
    case MoveTo(_, _) => MoveStates(db, cmd, id);
    case SubmitScores(_, _) => ScoreStates(db, cmd, id);
    case Close(_, _) => CloseStates(db, cmd, id);
    case VoidContest(_) => VoidStates(db, cmd, id);
    case _ => StateKept(db, cmd, id);
  }

  lemma {:induction false} StateKept(db: Db, cmd: Command, id: nat)
    requires DbInv(db) && Succeeds(db, cmd) && id in db.contests
    requires cmd.request.Create? || cmd.request.Update? || cmd.request.Enter? || cmd.request.Withdraw?
    ensures id in Committed(db, cmd).contests && Committed(db, cmd).contests[id].state == db.contests[id].state
  {
    match cmd.request
    case Create(_, _, _) => CreateElsewhere(db, cmd, id);
    case Update(_, _) => UpdateStays(db, cmd, id);
    case Enter(_, _, _, _) => EntryStays(db, cmd, id);
    case Withdraw(_, _) => WithdrawalStays(db, cmd, id);
  }

  lemma {:induction false} EntryStays(db: Db, cmd: Command, id: nat)
    requires DbInv(db) && Succeeds(db, cmd) && cmd.request.Enter? && id in db.contests
    ensures id in Committed(db, cmd).contests && Committed(db, cmd).contests[id].state == db.contests[id].state
  {
    EnterShape(db, cmd);
  }

  lemma {:induction false} WithdrawalStays(db: Db, cmd: Command, id: nat)
    requires Succeeds(db, cmd) && cmd.request.Withdraw? && id in db.contests
    ensures id in Committed(db, cmd).contests && Committed(db, cmd).contests[id].state == db.contests[id].state
  {
    WithdrawShape(db, cmd);
  }

  lemma {:induction false} CreateElsewhere(db: Db, cmd: Command, id: nat)
    requires Succeeds(db, cmd) && cmd.request.Create? && id in db.contests
    ensures id in Committed(db, cmd).contests && Committed(db, cmd).contests[id] == db.contests[id]
  {
  }

  lemma {:induction false} UpdateStays(db: Db, cmd: Command, id: nat)
    requires Succeeds(db, cmd) && cmd.request.Update? && id in db.contests
    ensures id in Committed(db, cmd).contests && Committed(db, cmd).contests[id].state == db.contests[id].state
  {
  }

  /** A transition the checks allow is along the table, and made by an actor who may make it. */
  lemma {:induction false} CheckedIsLegal(k: Contest, to: ContestState, r: Request, actor: ActorKind)
    requires CheckTransition(k, to, actor).None? && !r.SubmitScores?
    ensures Legal(k, to, r, actor)
  {
  }

  lemma {:induction false} MoveStates(db: Db, cmd: Command, id: nat)
    requires Succeeds(db, cmd) && cmd.request.MoveTo? && id in db.contests
    ensures id in Committed(db, cmd).contests
    ensures Follows(db.contests[id], id, cmd, Committed(db, cmd).contests[id].state)
  {
    MoveShape(db, cmd);
    if id == cmd.request.contest {
      TransitionShape(db.journal, id, db.contests[id], cmd.request.to, cmd.env.actor, cmd.env);
      CheckedIsLegal(db.contests[id], cmd.request.to, cmd.request, cmd.env.actor);
    }
  }

  lemma {:induction false} ScoreStates(db: Db, cmd: Command, id: nat)
    requires DbInv(db) && Succeeds(db, cmd) && cmd.request.SubmitScores? && id in db.contests
    ensures id in Committed(db, cmd).contests
    ensures Follows(db.contests[id], id, cmd, Committed(db, cmd).contests[id].state)
  {
    var r, env := cmd.request, cmd.env;
    ScoresShape(db, cmd);
    if id == r.contest {
      AdvancedState(db, id, db.contests[id], r.batch, env);
    }
  }

  /** Complete results move a contest on as the platform, as far as its policy lets it. */
  lemma {:induction false} AdvancedState(db: Db, id: nat, k: Contest, batch: seq<Submission>, env: Env)
    requires DbInv(db) && id in db.contests && db.contests[id] == k && Scorable(k, batch)
    requires Advance(db.journal, id, Scored(k, batch, env.at), env).Ok?
    ensures var to := Advance(db.journal, id, Scored(k, batch, env.at), env).value.1.state;
      to == if !AllExpectedResults(Scored(k, batch, env.at)) then k.state
            else if k.terms.policy.Auto? then Settled else AwaitingSettlement
  {
    AdvanceOutcome(db.journal, id, Scored(k, batch, env.at), env);
    if AllExpectedResults(Scored(k, batch, env.at)) && k.terms.policy.Auto? {
      ScoredReady(db, id, k, batch, env.at);
      SettlementOutcome(db.journal, id, Scored(k, batch, env.at).(state := AwaitingSettlement), System, None, env);
    }
  }

  lemma {:induction false} CloseStates(db: Db, cmd: Command, id: nat)
    requires DbInv(db) && Succeeds(db, cmd) && cmd.request.Close? && id in db.contests
    ensures id in Committed(db, cmd).contests
    ensures Follows(db.contests[id], id, cmd, Committed(db, cmd).contests[id].state)
  {
    CloseShape(db, cmd);
    ClosedState(db, cmd.tenant, cmd.request, cmd.env, id);
    ClosingIsLegal(db.contests[cmd.request.contest], cmd.request, cmd.env.actor);
  }

  lemma {:induction false} ClosedState(db: Db, tenant: nat, r: Request, env: Env, id: nat)
    requires DbInv(db) && r.Close? && RunClose(db, tenant, r, env).Ok? && id in db.contests
    ensures r.contest in db.contests && CheckTransition(db.contests[r.contest], Settling, env.actor).None?
    ensures var after := RunClose(db, tenant, r, env).value.0;
      && id in after.contests
      && (if id == r.contest then after.contests[id].state.Settled? else after.contests[id] == db.contests[id])
  {
    CloseOutcome(db, tenant, r, env);
  }

  lemma {:induction false} ClosingIsLegal(k: Contest, r: Request, actor: ActorKind)
    requires k.state.AwaitingSettlement? && CheckTransition(k, Settling, actor).None? && r.Close?
    ensures Legal(k, Settled, r, actor)
  {
  }

  lemma {:induction false} VoidStates(db: Db, cmd: Command, id: nat)
    requires DbInv(db) && Succeeds(db, cmd) && cmd.request.VoidContest? && id in db.contests
    ensures id in Committed(db, cmd).contests
    ensures Follows(db.contests[id], id, cmd, Committed(db, cmd).contests[id].state)
  {
    VoidShape(db, cmd);
    RunVoidStates(db, cmd.tenant, cmd.request, cmd.env, id);
    CheckedIsLegal(db.contests[cmd.request.contest], Voided, cmd.request, cmd.env.actor);
  }

  lemma {:induction false} RunVoidStates(db: Db, tenant: nat, r: Request, env: Env, id: nat)
    requires r.VoidContest? && RunVoid(db, tenant, r, env).Ok? && id in db.contests
    ensures var after := RunVoid(db, tenant, r, env).value.0;
      && id in after.contests
      && (if id == r.contest then after.contests[id].state.Voided? else after.contests[id] == db.contests[id])
  {
  }

  /**
   * Every request that succeeds leaves each contest in the state `Leaves` gives, and was
   * allowed to: along the transition table, by a close, or by scores that complete the
   * results. Every other request leaves every state as it was.
   */
  lemma {:induction false} StatesFollowTheTable(db: Db, cmd: Command, id: nat)
    requires DbInv(db) && id in db.contests
    ensures var (after, reply) := Step(db, cmd);
      && id in after.contests
      && if reply.Done? then Follows(db.contests[id], id, cmd, after.contests[id].state)
         else after.contests[id] == db.contests[id]
  {
    StepCases(db, cmd);
    if Succeeds(db, cmd) {
      StateAfter(db, cmd, id);
    }
  }
}
