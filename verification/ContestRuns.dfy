/** Every request keeps the invariant, and so does every run of requests. */
module ContestRuns {
  import opened Common
  import opened Ledger
  import opened Contests
  import opened ContestInvariant
  import opened ContestSteps
  import opened ContestSettlement
  import opened ContestVoid

  /** The rows a request committed, with the idempotency record beside them. */
  function Keyed(after: Db, cmd: Command, record: Record): Db {
    after.(keys := after.keys[(cmd.tenant, cmd.key) := KeyRow(cmd.request, record)])
  }

  /** A request under a new key that passed its checks and ran to completion. */
  ghost predicate Succeeds(db: Db, cmd: Command) {
    && CheckRequest(cmd.request) == None && (cmd.tenant, cmd.key) !in db.keys
    && Run(db, cmd).Ok?
  }

  function Committed(db: Db, cmd: Command): Db
    requires Run(db, cmd).Ok?
  {
    Keyed(Run(db, cmd).value.0, cmd, Run(db, cmd).value.1)
  }

  // ---- Definition and plain moves ----------------------------------------------------

  lemma {:induction false} CreateKeeps(db: Db, cmd: Command)
    requires DbInv(db) && Succeeds(db, cmd) && cmd.request.Create?
    ensures DbInv(Committed(db, cmd)) && Grows(db, Committed(db, cmd))
  {
    var r := cmd.request;
    var k := Contest(cmd.tenant, r.externalId, r.asset, r.terms, Draft, None, [], [], []);
    NewContestInv(db, cmd.env.freshId, k);
    QuietCommitKeeps(db, cmd.env.freshId, k, Committed(db, cmd));
  }

  lemma {:induction false} UpdateKeeps(db: Db, cmd: Command)
    requires DbInv(db) && Succeeds(db, cmd) && cmd.request.Update?
    ensures DbInv(Committed(db, cmd)) && Grows(db, Committed(db, cmd))
  {
    var r := cmd.request;
    var k := db.contests[r.contest];
    PatchedTermsValid(k.terms, r.patch);
    DraftTermsKeep(db.journal, r.contest, k, Patched(k.terms, r.patch));
    QuietCommitKeeps(db, r.contest, k.(terms := Patched(k.terms, r.patch)), Committed(db, cmd));
  }

  lemma {:induction false} MoveKeeps(db: Db, cmd: Command)
    requires DbInv(db) && Succeeds(db, cmd) && cmd.request.MoveTo?
    ensures DbInv(Committed(db, cmd)) && Grows(db, Committed(db, cmd))
  {
    MoveShape(db, cmd);
    MoveCommit(db, cmd.request.contest, db.contests[cmd.request.contest], cmd.request.to, cmd.env, Committed(db, cmd));
  }

  lemma {:induction false} MoveShape(db: Db, cmd: Command)
    requires Succeeds(db, cmd) && cmd.request.MoveTo?
    ensures var r := cmd.request;
      && PlainTarget(r.to) && r.contest in db.contests
      && var moved := Transition(db.journal, r.contest, db.contests[r.contest], r.to, cmd.env.actor, cmd.env);
      && moved.Ok? && Committed(db, cmd).contests == db.contests[r.contest := moved.value]
      && Committed(db, cmd).journal == db.journal
      && Committed(db, cmd).keys.Keys == db.keys.Keys + {(cmd.tenant, cmd.key)}
  {
  }

  lemma {:induction false} MoveCommit(db: Db, id: nat, k: Contest, to: ContestState, env: Env, after: Db)
    requires DbInv(db) && id in db.contests && db.contests[id] == k && PlainTarget(to)
    requires Transition(db.journal, id, k, to, env.actor, env).Ok?
    requires after.contests == db.contests[id := Transition(db.journal, id, k, to, env.actor, env).value]
    requires after.journal == db.journal && db.keys.Keys <= after.keys.Keys
    ensures DbInv(after) && Grows(db, after)
  {
    TransitionShape(db.journal, id, k, to, env.actor, env);
    MovableResults(k, to);
    PlainMoveKeeps(db.journal, id, k, to);
    StateEvolves(k, to);
    QuietCommitKeeps(db, id, k.(state := to), after);
  }

  /** A contest whose results are complete is past every plain move but cancellation, which its entries refuse. */
  lemma {:induction false} MovableResults(k: Contest, to: ContestState)
    requires Roster(k) && Advanced(k) && PlainTarget(to) && to in Transitions(k.state)
    requires to.Cancelled? ==> ActiveCount(k.participants) == 0
    ensures !(SomeEntered(k) && AllExpectedResults(k))
  {
    if SomeEntered(k) {
      ActivePlacesFacts(k.participants);
    }
  }

  // ---- Entries -----------------------------------------------------------------------

  lemma {:induction false} EnterKeeps(db: Db, cmd: Command)
    requires DbInv(db) && Succeeds(db, cmd) && cmd.request.Enter?
    ensures DbInv(Committed(db, cmd)) && Grows(db, Committed(db, cmd))
  {
    var r := cmd.request;
    EnterShape(db, cmd);
    EnterCommit(db, r.contest, db.contests[r.contest], Participant(r.user, r.teamRef, r.seed, |db.journal|, Entered),
                cmd.key, cmd.env.at, Committed(db, cmd));
  }

  lemma {:induction false} EnterCommit(db: Db, id: nat, k: Contest, p: Participant, key: nat, at: int, after: Db)
    requires DbInv(db) && id in db.contests && db.contests[id] == k && k.state.Open? && !Full(k)
      && (k.tenant, key) !in db.keys
    requires p.state.Entered? && p.entry == |db.journal|
    requires var place := FindParticipant(k.participants, p.user); place.Some? ==> !Active(k.participants[place.value])
    requires var post := EscrowPost(k.tenant, k.asset, id, p.user, k.terms.entryAmount, key);
      && TryPost(db.journal, post, at).Ok?
      && after.journal == TryPost(db.journal, post, at).value.journal
      && after.contests == db.contests[id := k.(participants :=
        Seated(k.participants, FindParticipant(k.participants, p.user),
          p.(entry := TryPost(db.journal, post, at).value.entry)))]
    requires after.keys.Keys == db.keys.Keys + {(k.tenant, key)}
    ensures DbInv(after) && Grows(db, after)
  {
    var post := EscrowPost(k.tenant, k.asset, id, p.user, k.terms.entryAmount, key);
    var seated := Seated(k.participants, FindParticipant(k.participants, p.user), p);
    StakePosted(db, post, at, key);
    RosterEvolves(k, seated);
    SeatedInv(db.journal, id, k, Entry(post, at), p, key);
    StakeCommitted(db, id, k.(participants := seated), p.user, post, at, key, after);
  }

  lemma {:induction false} EnterShape(db: Db, cmd: Command)
    requires DbInv(db) && Succeeds(db, cmd) && cmd.request.Enter?
    ensures var r := cmd.request;
      && r.contest in db.contests
      && var k := db.contests[r.contest];
         var place := FindParticipant(k.participants, r.user);
         var posted := TryPost(db.journal, EscrowPost(cmd.tenant, k.asset, r.contest, r.user, k.terms.entryAmount,
           cmd.key), cmd.env.at);
      && k.tenant == cmd.tenant && k.state.Open? && !Full(k) && posted.Ok?
      && (place.Some? ==> !Active(k.participants[place.value]))
      && Committed(db, cmd).contests == db.contests[r.contest :=
          k.(participants := Seated(k.participants, place,
              Participant(r.user, r.teamRef, r.seed, posted.value.entry, Entered)))]
      && Committed(db, cmd).journal == posted.value.journal
      && Committed(db, cmd).keys.Keys == db.keys.Keys + {(cmd.tenant, cmd.key)}
  {
  }

  lemma {:induction false} WithdrawKeeps(db: Db, cmd: Command)
    requires DbInv(db) && Succeeds(db, cmd) && cmd.request.Withdraw?
    ensures DbInv(Committed(db, cmd)) && Grows(db, Committed(db, cmd))
  {
    var r := cmd.request;
    WithdrawShape(db, cmd);
    var k := db.contests[r.contest];
    WithdrawCommit(db, r.contest, k, FindParticipant(k.participants, r.user).value, cmd.key, cmd.env.at,
        Committed(db, cmd));
  }

  lemma {:induction false} WithdrawCommit(db: Db, id: nat, k: Contest, place: nat, key: nat, at: int, after: Db)
    requires DbInv(db) && id in db.contests && db.contests[id] == k && k.state.Open? && (k.tenant, key) !in db.keys
    requires place < |k.participants| && k.participants[place].state.Entered?
    requires var post := RefundPost(k.tenant, k.asset, id, k.participants[place].user, k.terms.entryAmount, key);
      && TryPost(db.journal, post, at).Ok?
      && after.journal == TryPost(db.journal, post, at).value.journal
    requires after.contests == db.contests[id := WithdrawnAt(k, place)]
      && after.keys.Keys == db.keys.Keys + {(k.tenant, key)}
    ensures DbInv(after) && Grows(db, after)
  {
    var post := RefundPost(k.tenant, k.asset, id, k.participants[place].user, k.terms.entryAmount, key);
    var k' := WithdrawnAt(k, place);
    RosterEvolves(k, k'.participants);
    WithdrawnInv(db.journal, id, k, Entry(post, at), place, key);
    StakeCommitted(db, id, k', k.participants[place].user, post, at, key, after);
  }

  lemma {:induction false} StakeCommitted(db: Db, id: nat, k: Contest, user: nat, post: Post, at: int, key: nat,
      after: Db)
    requires DbInv(db) && id in db.contests && Evolves(db.contests[id], k) && (k.tenant, key) !in db.keys
    requires post == EscrowPost(k.tenant, k.asset, id, user, k.terms.entryAmount, key)
      || post == RefundPost(k.tenant, k.asset, id, user, k.terms.entryAmount, key)
    requires TryPost(db.journal, post, at).Ok?
    requires after.contests == db.contests[id := k] && after.keys.Keys == db.keys.Keys + {(k.tenant, key)}
    requires after.journal == TryPost(db.journal, post, at).value.journal
    requires ContestInv(db.journal + [Entry(post, at)], id, k)
    ensures DbInv(after) && Grows(db, after)
  {
    StakeLines(post, k, id, user, key);
    StakePosted(db, post, at, key);
    StakeCommitKeeps(db, id, k, Entry(post, at), key, after);
  }

  lemma {:induction false} StakeLines(post: Post, k: Contest, id: nat, user: nat, key: nat)
    requires post == EscrowPost(k.tenant, k.asset, id, user, k.terms.entryAmount, key)
      || post == RefundPost(k.tenant, k.asset, id, user, k.terms.entryAmount, key)
    ensures forall l | 0 <= l < |post.lines| :: Custody(post.lines[l].account)
    ensures forall l | 0 <= l < |post.lines| && post.lines[l].account.Escrow? ::
      post.contest == Some(post.lines[l].account.contest)
  {
  }

  lemma {:induction false} WithdrawShape(db: Db, cmd: Command)
    requires Succeeds(db, cmd) && cmd.request.Withdraw?
    ensures var r := cmd.request;
      && r.contest in db.contests
      && var k := db.contests[r.contest];
         var place := FindParticipant(k.participants, r.user);
         var posted := TryPost(db.journal, RefundPost(cmd.tenant, k.asset, r.contest, r.user, k.terms.entryAmount,
           cmd.key), cmd.env.at);
      && k.tenant == cmd.tenant && k.state.Open? && place.Some? && k.participants[place.value].state.Entered?
        && posted.Ok?
      && Committed(db, cmd).contests == db.contests[r.contest := WithdrawnAt(k, place.value)]
      && Committed(db, cmd).journal == posted.value.journal
      && Committed(db, cmd).keys.Keys == db.keys.Keys + {(cmd.tenant, cmd.key)}
  {
  }

  // ---- Close and void ----------------------------------------------------------------

  lemma {:induction false} SettleKeysFree(db: Db, id: nat)
    requires DbInv(db) && id in db.contests && !db.contests[id].state.Settled?
    ensures KeyFree(db.journal, db.contests[id].tenant, RakeKey(id))
      && KeyFree(db.journal, db.contests[id].tenant, SettleKey(id))
  {
    forall i | 0 <= i < |db.journal|
      ensures db.journal[i].post.key != RakeKey(id) && db.journal[i].post.key != SettleKey(id)
    {
      assert EntryKnown(db, db.journal[i].post);
    }
  }

  lemma {:induction false} AwaitingIsReady(db: Db, id: nat)
    requires DbInv(db) && id in db.contests && db.contests[id].state.AwaitingSettlement?
    ensures Ready(db.journal, id, db.contests[id])
  {
    SettleKeysFree(db, id);
  }

  /** Rows committed with entries that say by their key what became of their contest. */
  ghost predicate Labelled(journal: Journal, from: nat, id: nat, k: Contest) {
    forall i | from <= i < |journal| ::
      && journal[i].post.contest == Some(id) && journal[i].post.tenant == k.tenant
      && (forall l | 0 <= l < |journal[i].post.lines| :: Custody(journal[i].post.lines[l].account))
      && match journal[i].post.key
         case RakeKey(c) => c == id && k.state.Settled? && journal[i].post.kind == FeeEntry
         case SettleKey(c) => c == id && k.state.Settled? && journal[i].post.kind == SettleEntry
         case VoidKey(c, _) => c == id && k.state.Voided? && journal[i].post.kind == VoidEntry
         case _ => false
  }

  lemma {:induction false} LabelledCommit(db: Db, id: nat, k: Contest, journal: Journal, after: Db)
    requires DbInv(db) && id in db.contests && Evolves(db.contests[id], k)
    requires after.contests == db.contests[id := k] && after.journal == journal && db.keys.Keys <= after.keys.Keys
    requires GrownFor(db.journal, journal, id) && Sound(journal) && Labelled(journal, |db.journal|, id, k)
    requires ContestInv(journal, id, k)
    ensures DbInv(after) && Grows(db, after)
  {
    LabelledKnown(after, |db.journal|, id, k);
    CommitKeeps(db, id, k, after);
  }

  lemma {:induction false} LabelledKnown(db: Db, from: nat, id: nat, k: Contest)
    requires Labelled(db.journal, from, id, k) && id in db.contests && db.contests[id] == k
    ensures forall i | from <= i < |db.journal| :: EntryKnown(db, db.journal[i].post)
  {
  }

  lemma {:induction false} SettledLabels(journal: Journal, id: nat, k: Contest, p: Preview, entry: Option<nat>, at: int)
    ensures Labelled(SettledJournal(journal, id, k, p, at), |journal|, id, SettledContest(k, p, entry, at))
  {
  }

  /** A committed settlement, whichever request ran it. */
  lemma {:induction false} SettledKeeps(db: Db, id: nat, k: Contest, p: Preview, entry: Option<nat>, at: int, after: Db)
    requires DbInv(db) && id in db.contests && !Terminal(db.contests[id].state) && Evolves(db.contests[id], k)
    requires Ready(db.journal, id, k) && Reckon(k) == Ok(p) && p.net <= MAX_AMOUNT
    requires after.contests == db.contests[id := SettledContest(k, p, entry, at)]
    requires after.journal == SettledJournal(db.journal, id, k, p, at) && db.keys.Keys <= after.keys.Keys
    ensures DbInv(after) && Grows(db, after)
  {
    SettledInv(db.journal, id, k, p, entry, at);
    SettledSound(db.journal, id, k, p, at);
    SettledLabels(db.journal, id, k, p, entry, at);
    LabelledCommit(db, id, SettledContest(k, p, entry, at), SettledJournal(db.journal, id, k, p, at), after);
  }

  /**
   * A close succeeds exactly when the contest is awaiting settlement, the actor may settle
   * it, the hash is the reckoning's, and the net pool fits in 64 bits.
   */
  lemma {:induction false} CloseOutcome(db: Db, tenant: nat, r: Request, env: Env)
    requires DbInv(db) && r.Close? && Owned(db, tenant, r.contest).Ok?
    ensures Reckon(db.contests[r.contest]).Ok?
    ensures var k := db.contests[r.contest]; var p := Reckon(k).value;
      var refused := CheckTransition(k, Settling, env.actor);
      RunClose(db, tenant, r, env) ==
        if k.state.Settled? then Err(AlreadySettled)
        else if refused.Some? then Err(refused.value)
        else if r.hash != p.hash then Err(PreviewHashMismatch)
        else if p.net > MAX_AMOUNT then Err(LedgerRefused(AmountTooLarge))
        else Ok((SettledDb(db, r.contest, k, p, env.at), ContestRecord(r.contest)))
  {
    var k := db.contests[r.contest];
    assert Roster(k) by {
      assert ContestInv(db.journal, r.contest, k);
    }
    ReckonFacts(k);
    if k.state.AwaitingSettlement? {
      AwaitingIsReady(db, r.contest);
      ReadyClose(db, tenant, r, env, k);
    } else {
      EarlyClose(db, tenant, r, env, k);
    }
  }

  function SettledDb(db: Db, id: nat, k: Contest, p: Preview, at: int): Db {
    db.(contests := db.contests[id := SettledContest(k, p, PayoutEntry(db.journal, id, k, p, at), at)],
        journal := SettledJournal(db.journal, id, k, p, at))
  }

  lemma {:induction false} ReadyClose(db: Db, tenant: nat, r: Request, env: Env, k: Contest)
    requires r.Close? && Owned(db, tenant, r.contest) == Ok(k) && Ready(db.journal, r.contest, k)
    ensures Reckon(k).Ok?
    ensures var p := Reckon(k).value; var refused := CheckTransition(k, Settling, env.actor);
      RunClose(db, tenant, r, env) ==
        if refused.Some? then Err(refused.value)
        else if r.hash != p.hash then Err(PreviewHashMismatch)
        else if p.net > MAX_AMOUNT then Err(LedgerRefused(AmountTooLarge))
        else Ok((SettledDb(db, r.contest, k, p, env.at), ContestRecord(r.contest)))
  {
    SettlementOutcome(db.journal, r.contest, k, env.actor, Some(r.hash), env);
  }

  lemma {:induction false} EarlyClose(db: Db, tenant: nat, r: Request, env: Env, k: Contest)
    requires r.Close? && Owned(db, tenant, r.contest) == Ok(k) && !k.state.AwaitingSettlement?
    ensures CheckTransition(k, Settling, env.actor).Some?
    ensures RunClose(db, tenant, r, env)
         == if k.state.Settled? then Err(AlreadySettled) else Err(CheckTransition(k, Settling, env.actor).value)
  {
  }

  lemma {:induction false} CloseKeeps(db: Db, cmd: Command)
    requires DbInv(db) && Succeeds(db, cmd) && cmd.request.Close?
    ensures DbInv(Committed(db, cmd)) && Grows(db, Committed(db, cmd))
  {
    var id := cmd.request.contest;
    CloseShape(db, cmd);
    var k := db.contests[id];
    CloseOutcome(db, cmd.tenant, cmd.request, cmd.env);
    AwaitingIsReady(db, id);
    var p := Reckon(k).value;
    SettledKeeps(db, id, k, p, PayoutEntry(db.journal, id, k, p, cmd.env.at), cmd.env.at, Committed(db, cmd));
  }

  lemma {:induction false} CloseShape(db: Db, cmd: Command)
    requires Succeeds(db, cmd) && cmd.request.Close?
    ensures RunClose(db, cmd.tenant, cmd.request, cmd.env).Ok? && Owned(db, cmd.tenant, cmd.request.contest).Ok?
    ensures db.contests[cmd.request.contest].state.AwaitingSettlement?
    ensures var after := RunClose(db, cmd.tenant, cmd.request, cmd.env).value.0;
      && Committed(db, cmd).contests == after.contests && Committed(db, cmd).journal == after.journal
      && Committed(db, cmd).keys.Keys == after.keys.Keys + {(cmd.tenant, cmd.key)}
  {
    EarlyCloseFails(db, cmd.tenant, cmd.request, cmd.env);
  }

  lemma {:induction false} EarlyCloseFails(db: Db, tenant: nat, r: Request, env: Env)
    requires r.Close? && RunClose(db, tenant, r, env).Ok?
    ensures Owned(db, tenant, r.contest).Ok? && db.contests[r.contest].state.AwaitingSettlement?
  {
    if Owned(db, tenant, r.contest).Ok? && !db.contests[r.contest].state.AwaitingSettlement? {
      EarlyClose(db, tenant, r, env, db.contests[r.contest]);
    }
  }

  lemma {:induction false} VoidLabels(journal: Journal, id: nat, k: Contest, at: int)
    ensures Labelled(VoidedJournal(journal, id, k, at), |journal|, id, k.(state := Voided))
  {
  }

  lemma {:induction false} VoidKeeps(db: Db, cmd: Command)
    requires DbInv(db) && Succeeds(db, cmd) && cmd.request.VoidContest?
    ensures DbInv(Committed(db, cmd)) && Grows(db, Committed(db, cmd))
  {
    var id := cmd.request.contest;
    VoidShape(db, cmd);
    VoidOutcome(db, cmd.tenant, cmd.request, cmd.env);
    VoidedKeeps(db, id, db.contests[id], cmd.env, Committed(db, cmd));
  }

  lemma {:induction false} VoidShape(db: Db, cmd: Command)
    requires Succeeds(db, cmd) && cmd.request.VoidContest?
    ensures Owned(db, cmd.tenant, cmd.request.contest).Ok?
    ensures CheckTransition(db.contests[cmd.request.contest], Voided, cmd.env.actor).None?
    ensures !db.contests[cmd.request.contest].state.Voided?
    ensures RunVoid(db, cmd.tenant, cmd.request, cmd.env).Ok?
    ensures Committed(db, cmd) == Keyed(RunVoid(db, cmd.tenant, cmd.request, cmd.env).value.0, cmd,
      RunVoid(db, cmd.tenant, cmd.request, cmd.env).value.1)
  {
  }

  lemma {:induction false} VoidedKeeps(db: Db, id: nat, k: Contest, env: Env, after: Db)
    requires DbInv(db) && id in db.contests && db.contests[id] == k && CheckTransition(k, Voided, env.actor).None?
    requires after.contests == db.contests[id := k.(state := Voided)] && db.keys.Keys <= after.keys.Keys
    requires after.journal == VoidedJournal(db.journal, id, k, env.at)
    ensures DbInv(after) && Grows(db, after)
  {
    VoidGoesThrough(db, id, k, env);
    VoidedInv(db.journal, id, k, env.at);
    VoidLabels(db.journal, id, k, env.at);
    LabelledCommit(db, id, k.(state := Voided), VoidedJournal(db.journal, id, k, env.at), after);
  }

  // ---- Scores ------------------------------------------------------------------------

  function Scored(k: Contest, batch: seq<Submission>, at: int): Contest {
    k.(scores := WithScores(k.scores, batch, at))
  }

  ghost predicate Scorable(k: Contest, batch: seq<Submission>) {
    && (k.state.InProgress? || k.state.AwaitingSettlement?)
    && DistinctSubmitters(batch) && !FinishedAlready(k.scores, batch)
  }

  lemma {:induction false} AdvanceOutcome(journal: Journal, id: nat, k: Contest, env: Env)
    requires k.state.InProgress? || k.state.AwaitingSettlement?
    ensures var waiting := k.(state := AwaitingSettlement);
      Advance(journal, id, k, env) ==
        if !AllExpectedResults(k) then Ok((journal, k))
        else if k.terms.policy.OperatorClose? then Ok((journal, waiting))
        else
          match ExecuteSettlement(journal, id, waiting, System, None, env)
          case Err(e) => Err(e)
          case Ok(o) => Ok((o.journal, o.contest))
  {
  }

  lemma {:induction false} ScoredEvolves(k: Contest, batch: seq<Submission>, at: int, state: ContestState)
    requires Scorable(k, batch) && (state.InProgress? || state.AwaitingSettlement?)
    ensures Evolves(k, Scored(k, batch, at).(state := state))
  {
  }

  lemma {:induction false} ScoredStakes(journal: Journal, id: nat, k: Contest, batch: seq<Submission>, at: int,
      state: ContestState)
    requires StakesHeld(journal, id, k) && !k.state.Voided?
    ensures StakesHeld(journal, id, Scored(k, batch, at).(state := state))
  {
    forall i | 0 <= i < |k.participants| && Active(k.participants[i])
      ensures HoldsStake(journal, id, Scored(k, batch, at).(state := state), k.participants[i])
    {
      assert HoldsStake(journal, id, k, k.participants[i]);
    }
  }

  lemma {:induction false} ScoredAccounts(journal: Journal, id: nat, k: Contest, batch: seq<Submission>, at: int,
      state: ContestState)
    requires Accounted(journal, id, k) && !Terminal(k.state) && !Terminal(state)
    ensures Accounted(journal, id, Scored(k, batch, at).(state := state))
  {
    var k' := Scored(k, batch, at).(state := state);
    forall u: nat ensures ContestDelta(journal, id, WalletOf(k', u)) == Owed(k', u) {
      assert ContestDelta(journal, id, WalletOf(k, u)) == Owed(k, u);
    }
  }

  /** A batch that leaves results missing, or completes those of an `operator_close` contest, only adds rows. */
  lemma {:induction false} ScoredInv(journal: Journal, id: nat, k: Contest, batch: seq<Submission>, at: int,
      state: ContestState)
    requires ContestInv(journal, id, k) && Scorable(k, batch)
    requires (state == k.state && !AllExpectedResults(Scored(k, batch, at)))
      || (state.AwaitingSettlement? && k.terms.policy.OperatorClose?)
    ensures ContestInv(journal, id, Scored(k, batch, at).(state := state))
  {
    ScoredStakes(journal, id, k, batch, at, state);
    ScoredAccounts(journal, id, k, batch, at, state);
    ScoresLinked(k.scores, batch, at);
    assert AllExpectedResults(Scored(k, batch, at).(state := state)) == AllExpectedResults(Scored(k, batch, at));
  }

  lemma {:induction false} ScoredReady(db: Db, id: nat, k: Contest, batch: seq<Submission>, at: int)
    requires DbInv(db) && id in db.contests && db.contests[id] == k && Scorable(k, batch)
    ensures Ready(db.journal, id, Scored(k, batch, at).(state := AwaitingSettlement))
  {
    ScoredStakes(db.journal, id, k, batch, at, AwaitingSettlement);
    ScoredAccounts(db.journal, id, k, batch, at, AwaitingSettlement);
    ScoresLinked(k.scores, batch, at);
    SettleKeysFree(db, id);
  }

  lemma {:induction false} ScoresKeep(db: Db, cmd: Command)
    requires DbInv(db) && Succeeds(db, cmd) && cmd.request.SubmitScores?
    ensures DbInv(Committed(db, cmd)) && Grows(db, Committed(db, cmd))
  {
    var r, env := cmd.request, cmd.env;
    var id := r.contest;
    ScoresShape(db, cmd);
    var k := db.contests[id];
    var scored := Scored(k, r.batch, env.at);
    AdvanceOutcome(db.journal, id, scored, env);
    ScoredEvolves(k, r.batch, env.at, k.state);
    ScoredEvolves(k, r.batch, env.at, AwaitingSettlement);
    if !AllExpectedResults(scored) {
      ScoredInv(db.journal, id, k, r.batch, env.at, k.state);
      assert scored.(state := k.state) == scored;
      QuietCommitKeeps(db, id, scored, Committed(db, cmd));
    } else if k.terms.policy.OperatorClose? {
      ScoredInv(db.journal, id, k, r.batch, env.at, AwaitingSettlement);
      QuietCommitKeeps(db, id, scored.(state := AwaitingSettlement), Committed(db, cmd));
    } else {
      AutoSettledKeeps(db, id, k, r.batch, env, Committed(db, cmd));
    }
  }

  lemma {:induction false} AutoSettledKeeps(db: Db, id: nat, k: Contest, batch: seq<Submission>, env: Env, after: Db)
    requires DbInv(db) && id in db.contests && db.contests[id] == k && Scorable(k, batch)
    requires var settled := ExecuteSettlement(db.journal, id, Scored(k, batch, env.at).(state := AwaitingSettlement),
      System, None, env);
      settled.Ok? && after.contests == db.contests[id := settled.value.contest]
          && after.journal == settled.value.journal
    requires db.keys.Keys <= after.keys.Keys
    ensures DbInv(after) && Grows(db, after)
  {
    var waiting := Scored(k, batch, env.at).(state := AwaitingSettlement);
    ScoredReady(db, id, k, batch, env.at);
    ScoredEvolves(k, batch, env.at, AwaitingSettlement);
    SettlementOutcome(db.journal, id, waiting, System, None, env);
    var p := Reckon(waiting).value;
    SettledKeeps(db, id, waiting, p, PayoutEntry(db.journal, id, waiting, p, env.at), env.at, after);
  }

  lemma {:induction false} ScoresShape(db: Db, cmd: Command)
    requires Succeeds(db, cmd) && cmd.request.SubmitScores?
    ensures var r := cmd.request;
      && Owned(db, cmd.tenant, r.contest).Ok? && Scorable(db.contests[r.contest], r.batch)
      && CheckScored(db.contests[r.contest].participants, r.batch) == None
      && var advanced := Advance(db.journal, r.contest, Scored(db.contests[r.contest], r.batch, cmd.env.at), cmd.env);
      && advanced.Ok?
      && Committed(db, cmd).contests == db.contests[r.contest := advanced.value.1]
      && Committed(db, cmd).journal == advanced.value.0
      && Committed(db, cmd).keys.Keys == db.keys.Keys + {(cmd.tenant, cmd.key)}
  {
  }

  // ---- Every step, every run ---------------------------------------------------------

  lemma {:induction false} RunKeeps(db: Db, cmd: Command)
    requires DbInv(db) && Succeeds(db, cmd)
    ensures DbInv(Committed(db, cmd)) && Grows(db, Committed(db, cmd))
  {
    match cmd.request
    case Create(_, _, _) => CreateKeeps(db, cmd);
    case Update(_, _) => UpdateKeeps(db, cmd);
    case MoveTo(_, _) => MoveKeeps(db, cmd);
    case Enter(_, _, _, _) => EnterKeeps(db, cmd);
    case Withdraw(_, _) => WithdrawKeeps(db, cmd);
    case SubmitScores(_, _) => ScoresKeep(db, cmd);
    case Close(_, _) => CloseKeeps(db, cmd);
    case VoidContest(_) => VoidKeeps(db, cmd);
  }

  /** Refusals and replays touch nothing the invariant speaks of. */
  lemma {:induction false} DecisionsAside(db: Db, decisions: seq<DecisionRow>)
    requires DbInv(db)
    ensures DbInv(db.(decisions := decisions))
  {
    var after := db.(decisions := decisions);
    forall i | 0 <= i < |after.journal| ensures EntryKnown(after, after.journal[i].post) {
      assert EntryKnown(db, db.journal[i].post);
    }
  }

  lemma {:induction false} NothingMoved(db: Db)
    ensures forall id | id in db.contests :: Evolves(db.contests[id], db.contests[id])
  {
  }

  lemma {:induction false} StepCases(db: Db, cmd: Command)
    ensures var (after, reply) := Step(db, cmd);
      if Succeeds(db, cmd) then after == Committed(db, cmd) && reply == Done(Run(db, cmd).value.1)
      else !reply.Done? && after == db.(decisions := after.decisions) && (reply.Replayed? ==> after == db)
  {
  }

  lemma {:induction false} StepKeeps(db: Db, cmd: Command)
    requires DbInv(db)
    ensures DbInv(Step(db, cmd).0) && Grows(db, Step(db, cmd).0)
  {
    StepCases(db, cmd);
    if Succeeds(db, cmd) {
      RunKeeps(db, cmd);
    } else {
      DecisionsAside(db, Step(db, cmd).0.decisions);
      NothingMoved(db);
    }
  }

  lemma {:induction false} OutsideKeeps(db: Db, flow: OutsideFlow, at: int)
    requires DbInv(db)
    ensures DbInv(Act(db, Outside(flow, at)))
  {
    var post := OutsidePost(flow);
    if TryPost(db.journal, post, at).Ok? {
      PostShape(db.journal, post, at);
      if !TryPost(db.journal, post, at).value.replayed {
        OutsidePlain(flow);
        OutsidePosted(db, post, at, Act(db, Outside(flow, at)));
      }
    }
  }

  /** No flow outside the contests touches one. */
  lemma {:induction false} OutsidePlain(flow: OutsideFlow)
    ensures var post := OutsidePost(flow);
      && post.contest == None && post.reverses == None && post.key.OutsideKey?
      && post.kind != FeeEntry && post.kind != SettleEntry
      && forall l | 0 <= l < |post.lines| :: !post.lines[l].account.Escrow?
  {
  }

  /** An entry made for no contest changes no contest's books. */
  lemma {:induction false} OutsidePosted(db: Db, post: Post, at: int, after: Db)
    requires DbInv(db) && TryPost(db.journal, post, at).Ok? && post.contest == None && post.reverses == None
      && post.key.OutsideKey?
    requires post.kind != FeeEntry && post.kind != SettleEntry
    requires forall l | 0 <= l < |post.lines| :: !post.lines[l].account.Escrow?
    requires after == db.(journal := db.journal + [Entry(post, at)])
      && after.journal == TryPost(db.journal, post, at).value.journal
    ensures DbInv(after)
  {
    PostKeeps(db.journal, post, at);
    EscrowsTaggedPush(db.journal, Entry(post, at));
    NothingMoved(db);
    forall i | 0 <= i < |after.journal| ensures EntryKnown(after, after.journal[i].post) {
      if i < |db.journal| {
        assert EntryKnown(db, db.journal[i].post);
      }
    }
    forall id | id in after.contests ensures ContestInv(after.journal, id, after.contests[id]) {
      OtherContestKept(db.journal, Entry(post, at), id, db.contests[id]);
    }
  }

  /** The invariant holds of the rows after any run from the empty database. */
  lemma {:induction false} AfterKeeps(db: Db, actions: seq<Action>)
    requires DbInv(db)
    ensures DbInv(After(db, actions))
  {
    if actions != [] {
      var before := After(db, actions[..|actions| - 1]);
      AfterKeeps(db, actions[..|actions| - 1]);
      match actions[|actions| - 1]
      case Ask(cmd) => StepKeeps(before, cmd);
      case Outside(flow, at) => OutsideKeeps(before, flow, at);
    }
  }
}
