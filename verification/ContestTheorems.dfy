/** What the contest engine guarantees over whole runs, from the empty database on. */
module ContestTheorems {
  import opened Common
  import opened Ledger
  import opened Contests
  import opened ContestInvariant
  import opened ContestSteps
  import opened ContestSettlement
  import opened ContestVoid
  import opened ContestRuns
  import S = Settlement
  import T = SettlementTheorems
  import Sorting

  /** The rows after a run that started with nothing. */
  function Reached(run: seq<Action>): Db {
    After(EMPTY, run)
  }

  lemma {:induction false} ReachedInv(run: seq<Action>)
    ensures DbInv(Reached(run))
  {
    EmptyInv();
    AfterKeeps(EMPTY, run);
  }

  lemma {:induction false} AfterConcat(db: Db, a: seq<Action>, b: seq<Action>)
    ensures After(db, a + b) == After(After(db, a), b)
  {
    if b == [] {
      assert a + b == a;
    } else {
      assert (a + b)[..|a + b| - 1] == a + b[..|b| - 1];
      AfterConcat(db, a, b[..|b| - 1]);
    }
  }

  // ---- What no run undoes ------------------------------------------------------------

  lemma {:induction false} ActEvolves(db: Db, action: Action, id: nat)
    requires DbInv(db) && id in db.contests
    ensures id in Act(db, action).contests && Evolves(db.contests[id], Act(db, action).contests[id])
  {
    NothingMoved(db);
    match action
    case Ask(cmd) => StepKeeps(db, cmd);
    case Outside(_, _) =>
  }

  lemma {:induction false} AfterEvolves(db: Db, run: seq<Action>, id: nat)
    requires DbInv(db) && id in db.contests
    ensures id in After(db, run).contests && Evolves(db.contests[id], After(db, run).contests[id])
  {
    if run == [] {
      NothingMoved(db);
    } else {
      var front := run[..|run| - 1];
      AfterEvolves(db, front, id);
      AfterKeeps(db, front);
      ActEvolves(After(db, front), run[|run| - 1], id);
      EvolvesTwice(db.contests[id], After(db, front).contests[id], After(db, run).contests[id]);
    }
  }

  // ---- Money -------------------------------------------------------------------------

  /** A contest's escrow holds exactly its active stakes while it is live, and nothing before or after. */
  lemma {:induction false} EscrowConservation(run: seq<Action>, id: nat)
    requires id in Reached(run).contests
    ensures var db := Reached(run); var k := db.contests[id];
      Balance(db.journal, EscrowOf(id, k)) ==
        if k.state.Open? || k.state.Locked? || k.state.InProgress? || k.state.AwaitingSettlement?
        then ActiveCount(k.participants) * k.terms.entryAmount else 0
    ensures var k := Reached(run).contests[id];
      k.terms.maxParticipants.Some? ==> ActiveCount(k.participants) <= k.terms.maxParticipants.value
    ensures !Reached(run).contests[id].state.Settling?
  {
    ReachedContest(run, id);
    EscrowHolds(Reached(run).journal, id, Reached(run).contests[id]);
  }

  lemma {:induction false} ReachedContest(run: seq<Action>, id: nat)
    requires id in Reached(run).contests
    ensures ContestInv(Reached(run).journal, id, Reached(run).contests[id]) && EscrowsTagged(Reached(run).journal)
  {
    ReachedInv(run);
  }

  lemma {:induction false} EscrowHolds(journal: Journal, id: nat, k: Contest)
    requires ContestInv(journal, id, k) && EscrowsTagged(journal)
    ensures Balance(journal, EscrowOf(id, k)) ==
      if k.state.Open? || k.state.Locked? || k.state.InProgress? || k.state.AwaitingSettlement?
      then ActiveCount(k.participants) * k.terms.entryAmount else 0
  {
    EscrowIsOwn(journal, k.tenant, k.asset, id);
    StakesNonNegative(ActiveCount(k.participants), k.terms.entryAmount);
  }

  /** No wallet and no escrow is ever below zero, and every entry balances. */
  lemma {:induction false} NeverOverdrawn(run: seq<Action>, account: Account)
    requires account.Wallet? || account.Escrow?
    ensures Balance(Reached(run).journal, account) >= 0
    ensures WellPosted(Reached(run).journal)
  {
    ReachedInv(run);
  }

  /** No request changes the total held in wallets, escrows and fee accounts. */
  lemma {:induction false} CustodyConserved(run: seq<Action>, cmd: Command)
    ensures CustodyTotal(Step(Reached(run), cmd).0.journal) == CustodyTotal(Reached(run).journal)
  {
    ReachedInv(run);
    StepKeeps(Reached(run), cmd);
    GrowthUnmoved(Reached(run), Step(Reached(run), cmd).0);
  }

  lemma {:induction false} GrowthUnmoved(db: Db, after: Db)
    requires DbInv(after) && Grows(db, after)
    ensures CustodyTotal(after.journal) == CustodyTotal(db.journal)
  {
    forall i | |db.journal| <= i < |after.journal| ensures CustodyDelta(after.journal[i].post.lines) == 0 {
      EntryUnmoved(after, i);
    }
    CustodyUnmoved(db.journal, after.journal);
  }

  lemma {:induction false} EntryUnmoved(db: Db, i: nat)
    requires JournalInv(db) && i < |db.journal| && db.journal[i].post.contest.Some?
    ensures CustodyDelta(db.journal[i].post.lines) == 0
  {
    assert EntryKnown(db, db.journal[i].post);
    CustodyBalanced(db.journal[i].post.lines);
  }

  lemma {:induction false} CustodyUnmoved(before: Journal, after: Journal)
    requires before <= after
    requires forall i | |before| <= i < |after| :: CustodyDelta(after[i].post.lines) == 0
    ensures CustodyTotal(after) == CustodyTotal(before)
    decreases |after|
  {
    if |after| == |before| {
      assert after == before;
    } else {
      CustodyUnmoved(before, after[..|after| - 1]);
    }
  }

  /**
   * What a contest has done to a user's wallet, over any number of withdrawals and
   * re-entries: nothing if they are out or it was voided, payout less stake if it settled,
   * the stake while it is live.
   */
  lemma {:induction false} UserAccounting(run: seq<Action>, id: nat, user: nat)
    requires id in Reached(run).contests
    ensures var db := Reached(run); var k := db.contests[id]; var place := FindParticipant(k.participants, user);
      ContestDelta(db.journal, id, WalletOf(k, user)) ==
        if k.state.Voided? || place.None? || k.participants[place.value].state.Withdrawn? then 0
        else if k.state.Settled? then PayoutOf(k.results, user) - k.terms.entryAmount
        else -k.terms.entryAmount
  {
    ReachedContest(run, id);
    var k := Reached(run).contests[id];
    assert ContestDelta(Reached(run).journal, id, WalletOf(k, user)) == Owed(k, user);
  }

  /**
   * Whatever has happened before, a void the transition table allows goes through: it
   * returns every active stake, empties the escrow and leaves nobody's wallet changed by
   * the contest.
   */
  lemma {:induction false} VoidAlwaysRefunds(run: seq<Action>, cmd: Command)
    requires var db := Reached(run);
      && cmd.request.VoidContest? && (cmd.tenant, cmd.key) !in db.keys && Owned(db, cmd.tenant, cmd.request.contest).Ok?
      && CheckTransition(db.contests[cmd.request.contest], Voided, cmd.env.actor).None?
    ensures var (after, reply) := Step(Reached(run), cmd); var id := cmd.request.contest;
      && reply.Done? && |reply.record.refunds| == ActiveCount(Reached(run).contests[id].participants)
      && id in after.contests && after.contests[id] == Reached(run).contests[id].(state := Voided)
      && Balance(after.journal, EscrowOf(id, after.contests[id])) == 0
      && forall user: nat :: ContestDelta(after.journal, id, WalletOf(after.contests[id], user)) == 0
  {
    ReachedInv(run);
    VoidRefunds(Reached(run), cmd);
    StepKeeps(Reached(run), cmd);
    VoidedBooks(Step(Reached(run), cmd).0, cmd.request.contest);
  }

  lemma {:induction false} VoidRefunds(db: Db, cmd: Command)
    requires DbInv(db) && cmd.request.VoidContest? && (cmd.tenant, cmd.key) !in db.keys
    requires Owned(db, cmd.tenant, cmd.request.contest).Ok?
    requires CheckTransition(db.contests[cmd.request.contest], Voided, cmd.env.actor).None?
    ensures var (after, reply) := Step(db, cmd); var id := cmd.request.contest;
      && reply == Done(VoidRecord(id, RefundIds(|db.journal|, ActiveCount(db.contests[id].participants))))
      && after.contests == db.contests[id := db.contests[id].(state := Voided)]
  {
    VoidOutcome(db, cmd.tenant, cmd.request, cmd.env);
    StepVoid(db, cmd);
  }

  lemma {:induction false} StepVoid(db: Db, cmd: Command)
    requires cmd.request.VoidContest? && (cmd.tenant, cmd.key) !in db.keys
    requires RunVoid(db, cmd.tenant, cmd.request, cmd.env).Ok?
    ensures var (after, record) := RunVoid(db, cmd.tenant, cmd.request, cmd.env).value;
      Step(db, cmd) == (Keyed(after, cmd, record), Done(record))
  {
  }

  lemma {:induction false} VoidedBooks(db: Db, id: nat)
    requires DbInv(db) && id in db.contests && db.contests[id].state.Voided?
    ensures Balance(db.journal, EscrowOf(id, db.contests[id])) == 0
    ensures forall user: nat :: ContestDelta(db.journal, id, WalletOf(db.contests[id], user)) == 0
  {
    var k := db.contests[id];
    assert ContestInv(db.journal, id, k);
    EscrowIsOwn(db.journal, k.tenant, k.asset, id);
    forall user: nat ensures ContestDelta(db.journal, id, WalletOf(k, user)) == 0 {
      assert ContestDelta(db.journal, id, WalletOf(k, user)) == Owed(k, user);
    }
  }

  // ---- Scores ------------------------------------------------------------------------

  /** An unfinished row, superseded by the first row after it of the same user. */
  predicate PointsToNext(rows: seq<ScoreRow>, i: nat)
    requires i < |rows|
  {
    && !rows[i].finished && rows[i].supersededBy.Some?
    && i < rows[i].supersededBy.value < |rows| && rows[rows[i].supersededBy.value].user == rows[i].user
    && forall j | i < j < rows[i].supersededBy.value :: rows[j].user != rows[i].user
  }

  /**
   * A user's score rows form one chain in submission order: each but the last was
   * unfinished and is superseded by the user's next row, and the last is the one that counts.
   */
  lemma {:induction false} OneCountingRow(run: seq<Action>, id: nat, user: nat)
    requires id in Reached(run).contests
    requires exists i :: 0 <= i < |Reached(run).contests[id].scores| && Reached(run).contests[id].scores[i].user == user
    ensures var rows := Reached(run).contests[id].scores;
      exists last :: 0 <= last < |rows| && rows[last].user == user && rows[last].supersededBy.None?
        && forall i | 0 <= i < |rows| && rows[i].user == user && i != last :: i < last && PointsToNext(rows, i)
  {
    ReachedInv(run);
    var db := Reached(run);
    var rows := db.contests[id].scores;
    assert ContestInv(db.journal, id, db.contests[id]);
    var i :| 0 <= i < |rows| && rows[i].user == user;
    var last := LastRow(rows, user, i);
    forall j | 0 <= j < |rows| && rows[j].user == user && j != last
      ensures j < last && PointsToNext(rows, j)
    {
      assert Linked(rows, j) && Linked(rows, last);
    }
  }

  lemma {:induction false} LastRow(rows: seq<ScoreRow>, user: nat, i: nat) returns (last: nat)
    requires ScoreHistory(rows) && i < |rows| && rows[i].user == user
    ensures last < |rows| && rows[last].user == user && rows[last].supersededBy.None?
    decreases |rows| - i
  {
    assert Linked(rows, i);
    if rows[i].supersededBy.None? {
      last := i;
    } else {
      last := LastRow(rows, user, rows[i].supersededBy.value);
    }
  }

  /** A finished attempt is final: whatever runs afterwards, the row is there, unchanged and still counting. */
  lemma {:induction false} FinishedIsFinal(run: seq<Action>, later: seq<Action>, id: nat, i: nat)
    requires id in Reached(run).contests && i < |Reached(run).contests[id].scores|
    requires Reached(run).contests[id].scores[i].finished
    ensures id in Reached(run + later).contests && i < |Reached(run + later).contests[id].scores|
    ensures Reached(run + later).contests[id].scores[i] == Reached(run).contests[id].scores[i]
    ensures Reached(run).contests[id].scores[i].supersededBy.None?
  {
    ReachedInv(run);
    var db := Reached(run);
    AfterConcat(EMPTY, run, later);
    AfterEvolves(db, later, id);
    assert ContestInv(db.journal, id, db.contests[id]) && Linked(db.contests[id].scores, i);
    assert RowEvolves(db.contests[id].scores[i], After(db, later).contests[id].scores[i]);
  }

  /** Once every entered participant's result is in, the contest has moved on as far as its policy lets it. */
  lemma {:induction false} CompleteMovesOn(run: seq<Action>, id: nat)
    requires id in Reached(run).contests
    requires SomeEntered(Reached(run).contests[id]) && AllExpectedResults(Reached(run).contests[id])
    ensures var k := Reached(run).contests[id];
      match k.terms.policy
      case Auto => k.state.Settled?
      case OperatorClose => k.state.AwaitingSettlement? || k.state.Settled? || k.state.Voided?
  {
    ReachedInv(run);
    var db := Reached(run);
    assert ContestInv(db.journal, id, db.contests[id]);
  }

  // ---- Exactly once ------------------------------------------------------------------

  /** A contest is settled by one entry and charged by one, however many times a close is asked for. */
  lemma {:induction false} SettledOnce(run: seq<Action>, id: nat, i: nat, j: nat)
    requires i < j < |Reached(run).journal|
    requires var journal := Reached(run).journal;
      && journal[i].post.contest == Some(id) && journal[j].post.contest == Some(id)
      && journal[i].post.kind == journal[j].post.kind
    ensures var kind := Reached(run).journal[i].post.kind; kind != SettleEntry && kind != FeeEntry
  {
    ReachedInv(run);
    var db := Reached(run);
    assert EntryKnown(db, db.journal[i].post) && EntryKnown(db, db.journal[j].post);
  }

  /**
   * A request that fails, or repeats one already answered, changes no contest, no balance
   * and no record of a request. It adds to the decisions exactly when it is an entry found
   * ineligible, and then the user's own refusal for that contest.
   */
  lemma {:induction false} RefusedChangesNothing(run: seq<Action>, cmd: Command)
    requires !Step(Reached(run), cmd).1.Done?
    ensures var db, (after, reply) := Reached(run), Step(Reached(run), cmd);
      if reply.Failed? && reply.failure.NotEligible? then
        && cmd.request.Enter? && reply.failure.decision.Refused?
        && after == db.(decisions := db.decisions
            + [DecisionRow(cmd.tenant, cmd.request.contest, cmd.request.user, reply.failure.decision)])
      else after == db
  {
    var db := Reached(run);
    var reply := Step(db, cmd).1;
    if reply.Failed? && reply.failure.NotEligible? {
      IneligibleEntry(db, cmd);
    }
  }

  /** An operation's refusal, if it refuses, is not for eligibility. */
  predicate Unrelated<T>(result: Result<T, Failure>) {
    result.Err? ==> !result.error.NotEligible?
  }

  /** Only an entry is refused for eligibility, and only by a refusal. */
  lemma {:induction false} IneligibleEntry(db: Db, cmd: Command)
    requires Run(db, cmd).Err? && Run(db, cmd).error.NotEligible?
    ensures cmd.request.Enter? && Run(db, cmd).error.decision.Refused?
  {
    if !cmd.request.Enter? {
      OthersUnrelated(db, cmd);
    }
  }

  lemma {:induction false} OthersUnrelated(db: Db, cmd: Command)
    requires !cmd.request.Enter?
    ensures Unrelated(Run(db, cmd))
  {
    var tenant, r, env := cmd.tenant, cmd.request, cmd.env;
    match r
    case SubmitScores(_, _) => ScoresUnrelated(db, tenant, r, env);
    case Close(_, _) => CloseUnrelated(db, tenant, r, env);
    case VoidContest(_) => VoidUnrelated(db, tenant, r, env);
    case _ =>
  }

  lemma {:induction false} PayOutUnrelated(journal: Journal, id: nat, k: Contest, p: Preview, actor: ActorKind,
      env: Env)
    ensures Unrelated(PayOut(journal, id, k, p, actor, env))
  {
  }

  lemma {:induction false} SettlementUnrelated(journal: Journal, id: nat, k: Contest, actor: ActorKind,
      expected: Option<Digest>, env: Env)
    ensures Unrelated(ExecuteSettlement(journal, id, k, actor, expected, env))
  {
    var settling := Transition(journal, id, k, Settling, actor, env);
    if settling.Ok? && Compute(journal, id, settling.value).Ok? {
      PayOutUnrelated(journal, id, settling.value, Compute(journal, id, settling.value).value, actor, env);
    }
  }

  lemma {:induction false} AdvanceUnrelated(journal: Journal, id: nat, k: Contest, env: Env)
    requires k.state.InProgress? || k.state.AwaitingSettlement?
    ensures Unrelated(Advance(journal, id, k, env))
  {
    AdvanceOutcome(journal, id, k, env);
    SettlementUnrelated(journal, id, k.(state := AwaitingSettlement), System, None, env);
  }

  lemma {:induction false} ScoresUnrelated(db: Db, tenant: nat, r: Request, env: Env)
    requires r.SubmitScores?
    ensures Unrelated(RunScores(db, tenant, r, env))
  {
    if r.contest in db.contests {
      var k := db.contests[r.contest];
      ScorableRefusal(k.participants, r.batch);
      if k.state.InProgress? || k.state.AwaitingSettlement? {
        AdvanceUnrelated(db.journal, r.contest, Scored(k, r.batch, env.at), env);
      }
    }
  }

  lemma {:induction false} CloseUnrelated(db: Db, tenant: nat, r: Request, env: Env)
    requires r.Close?
    ensures Unrelated(RunClose(db, tenant, r, env))
  {
    if r.contest in db.contests {
      SettlementUnrelated(db.journal, r.contest, db.contests[r.contest], env.actor, Some(r.hash), env);
    }
  }

  lemma {:induction false} VoidUnrelated(db: Db, tenant: nat, r: Request, env: Env)
    requires r.VoidContest?
    ensures Unrelated(RunVoid(db, tenant, r, env))
  {
    if r.contest in db.contests {
      VoidRefusal(db.journal, r.contest, db.contests[r.contest], ActivePlaces(db.contests[r.contest].participants),
          env.at);
    }
  }

  lemma {:induction false} VoidRefusal(journal: Journal, id: nat, k: Contest, places: seq<nat>, at: int)
    requires forall i | 0 <= i < |places| :: places[i] < |k.participants|
    ensures VoidEach(journal, id, k, places, at).Err? ==> VoidEach(journal, id, k, places, at).error.LedgerRefused?
  {
    if places != [] {
      VoidRefusal(journal, id, k, places[..|places| - 1], at);
    }
  }

  lemma {:induction false} ScorableRefusal(ps: seq<Participant>, batch: seq<Submission>)
    ensures var refused := CheckScored(ps, batch);
      refused.None? || refused == Some(NotAParticipant) || refused == Some(ParticipantNotActive)
  {
    if batch != [] {
      ScorableRefusal(ps, batch[1..]);
    }
  }

  lemma {:induction false} KeysPersist(db: Db, run: seq<Action>, name: (nat, nat))
    requires name in db.keys
    ensures name in After(db, run).keys && After(db, run).keys[name] == db.keys[name]
  {
    if run != [] {
      var before := After(db, run[..|run| - 1]);
      KeysPersist(db, run[..|run| - 1], name);
      match run[|run| - 1]
      case Ask(cmd) => StepKeepsKeys(before, cmd, name);
      case Outside(_, _) =>
    }
  }

  lemma {:induction false} StepKeepsKeys(db: Db, cmd: Command, name: (nat, nat))
    requires name in db.keys
    ensures name in Step(db, cmd).0.keys && Step(db, cmd).0.keys[name] == db.keys[name]
  {
    StepCases(db, cmd);
    if Succeeds(db, cmd) {
      RunLeavesKeys(db, cmd);
    }
  }

  lemma {:induction false} RunLeavesKeys(db: Db, cmd: Command)
    requires Run(db, cmd).Ok?
    ensures Run(db, cmd).value.0.keys == db.keys
  {
  }

  /**
   * Once a request has succeeded, the same request under the same key is answered with the
   * same record and changes nothing, however much later it comes and whoever sends it; any
   * other request under that key is refused and changes nothing.
   */
  lemma {:induction false} ExactlyOnce(db: Db, cmd: Command, later: seq<Action>, again: Command)
    requires Step(db, cmd).1.Done? && again.tenant == cmd.tenant && again.key == cmd.key
    ensures var now := After(Step(db, cmd).0, later);
      if again.request == cmd.request then Step(now, again) == (now, Replayed(Step(db, cmd).1.record))
      else Step(now, again).0 == now && Step(now, again).1.Failed?
  {
    StepCases(db, cmd);
    KeysPersist(Step(db, cmd).0, later, (cmd.tenant, cmd.key));
  }

  /** A run without the requests whose key had already succeeded when they arrived. */
  function WithoutRepeats(db: Db, run: seq<Action>): seq<Action> {
    if run == [] then []
    else
      var front, last := run[..|run| - 1], run[|run| - 1];
      WithoutRepeats(db, front) +
        if last.Ask? && (last.cmd.tenant, last.cmd.key) in After(db, front).keys then [] else [last]
  }

  /** Deleting every repeat from a run leaves the same rows at the end. */
  lemma {:induction false} RepeatsDoNothing(db: Db, run: seq<Action>)
    ensures After(db, WithoutRepeats(db, run)) == After(db, run)
  {
    if run != [] {
      var front, last := run[..|run| - 1], run[|run| - 1];
      var kept := WithoutRepeats(db, front);
      RepeatsDoNothing(db, front);
      if last.Ask? && (last.cmd.tenant, last.cmd.key) in After(db, front).keys {
        assert kept + [] == kept;
      } else {
        assert (kept + [last])[..|kept|] == kept;
      }
    }
  }

  // ---- The frozen preview ------------------------------------------------------------

  lemma {:induction false} ByPlacementIsTotal()
    ensures Sorting.TotalPreorder(ByPlacement())
  {
  }

  /** The engine already pays in the order the hash is taken over. */
  lemma {:induction false} SettledInCanonicalOrder(net: int, entrants: seq<S.Entrant>, prize: S.PrizeStructure,
      rule: S.TieBreak)
    requires S.Settle(net, entrants, prize, rule).Ok?
    ensures Canonical(S.Settle(net, entrants, prize, rule).value) == S.Settle(net, entrants, prize, rule).value
    ensures Sorting.Sorted(ByPlacement(), S.Settle(net, entrants, prize, rule).value)
  {
    var payouts := S.Settle(net, entrants, prize, rule).value;
    forall i, j | 0 <= i < j < |payouts|
      ensures ByPlacement()(payouts[i], payouts[j]) && !ByPlacement()(payouts[j], payouts[i])
    {
      T.PlacementsOrdered(net, entrants, prize, rule, i, j);
    }
    StrictlySorted(payouts);
  }

  lemma {:induction false} StrictlySorted(payouts: seq<S.Payout>)
    requires forall i, j | 0 <= i < j < |payouts| ::
      ByPlacement()(payouts[i], payouts[j]) && !ByPlacement()(payouts[j], payouts[i])
    ensures Canonical(payouts) == payouts
  {
    ByPlacementIsTotal();
    forall a, b | a in payouts && b in payouts && ByPlacement()(a, b) && ByPlacement()(b, a) ensures a == b {
      var i :| 0 <= i < |payouts| && payouts[i] == a;
      var j :| 0 <= j < |payouts| && payouts[j] == b;
    }
    Sorting.SortFixesSorted(ByPlacement(), payouts);
  }

  lemma {:induction false} ReckonedCanonical(k: Contest)
    requires Roster(k) && Reckon(k).Ok?
    ensures Canonical(Reckon(k).value.payouts) == Reckon(k).value.payouts
    ensures Sorting.Sorted(ByPlacement(), Reckon(k).value.payouts)
  {
    ReckonFacts(k);
    var p := Reckon(k).value;
    SettledInCanonicalOrder(p.net, Entrants(p.entries), k.terms.prize, k.terms.tieBreak);
  }

  /** Two reckonings of one contest with one hash pay, gross and rake the same, though only the payouts are hashed. */
  lemma {:induction false} SameHashSameMoney(a: Contest, b: Contest)
    requires Roster(a) && Roster(b) && Evolves(a, b)
    requires Reckon(a).Ok? && Reckon(b).Ok? && Reckon(a).value.hash == Reckon(b).value.hash
    ensures var p, q := Reckon(a).value, Reckon(b).value;
      p.payouts == q.payouts && p.gross == q.gross && p.rake == q.rake && p.net == q.net
  {
    ReckonFacts(a);
    ReckonFacts(b);
    ReckonPays(a);
    ReckonPays(b);
    ReckonedCanonical(a);
    ReckonedCanonical(b);
    if a.state.Draft? {
      assert ActiveCount(a.participants) == 0;
      StakesNonNegative(0, a.terms.entryAmount);
      StakesNonNegative(0, b.terms.entryAmount);
      NoRakeOnNothing(a.terms.rakeBps);
      NoRakeOnNothing(b.terms.rakeBps);
    }
  }

  lemma {:induction false} NoRakeOnNothing(bps: int)
    ensures ApplyBps(0, bps) == 0
  {
  }

  /**
   * The frozen preview: a close presenting the hash of an earlier preview, if it succeeds,
   * records exactly the previewed payouts and posts exactly the previewed rake and
   * payouts, whatever ran in between.
   */
  lemma {:induction false} FrozenPreview(run: seq<Action>, later: seq<Action>, tenant: nat, id: nat, cmd: Command)
    requires PreviewSettlement(Reached(run), tenant, id).Ok?
    requires cmd.request == Close(id, PreviewSettlement(Reached(run), tenant, id).value.hash)
    requires Step(Reached(run + later), cmd).1.Done?
    ensures var seen := PreviewSettlement(Reached(run), tenant, id).value;
      var before, after := Reached(run + later), Step(Reached(run + later), cmd).0;
      && id in after.contests && after.contests[id].state.Settled?
      && |after.contests[id].results| == |seen.payouts|
      && (forall i | 0 <= i < |seen.payouts| :: ResultPayout(after.contests[id].results[i]) == seen.payouts[i])
      && id in before.contests
      && after.journal == SettledJournal(before.journal, id, before.contests[id], seen, cmd.env.at)
  {
    ReachedInv(run);
    ReachedInv(run + later);
    AfterConcat(EMPTY, run, later);
    AfterEvolves(Reached(run), later, id);
    StepCases(Reached(run + later), cmd);
    FrozenClose(Reached(run), Reached(run + later), tenant, id, cmd);
  }

  /** Until a contest ends, its preview is the reckoning of its stakes. */
  lemma {:induction false} PreviewReckons(db: Db, tenant: nat, id: nat)
    requires DbInv(db) && Owned(db, tenant, id).Ok? && !Terminal(db.contests[id].state)
    ensures PreviewSettlement(db, tenant, id) == Reckon(db.contests[id])
  {
    assert ContestInv(db.journal, id, db.contests[id]);
    ComputesReckoning(db.journal, id, db.contests[id]);
  }

  lemma {:induction false} FrozenClose(db: Db, before: Db, tenant: nat, id: nat, cmd: Command)
    requires DbInv(db) && DbInv(before) && id in db.contests && id in before.contests
    requires Evolves(db.contests[id], before.contests[id])
    requires PreviewSettlement(db, tenant, id).Ok? && Succeeds(before, cmd)
    requires cmd.request == Close(id, PreviewSettlement(db, tenant, id).value.hash)
    ensures var seen := PreviewSettlement(db, tenant, id).value; var after := Committed(before, cmd);
      && id in after.contests && after.contests[id].state.Settled?
      && |after.contests[id].results| == |seen.payouts|
      && (forall i | 0 <= i < |seen.payouts| :: ResultPayout(after.contests[id].results[i]) == seen.payouts[i])
      && after.journal == SettledJournal(before.journal, id, before.contests[id], seen, cmd.env.at)
  {
    var k, k' := db.contests[id], before.contests[id];
    CloseCommits(before, cmd);
    assert ContestInv(db.journal, id, k) && ContestInv(before.journal, id, k');
    PreviewReckons(db, tenant, id);
    SameHashSameMoney(k, k');
    var p := Reckon(k').value;
    SameEntriesPosted(before.journal, id, k', p, Reckon(k).value, cmd.env.at);
    ResultsShow(k', p, PayoutEntry(before.journal, id, k', p, cmd.env.at), cmd.env.at);
  }

  lemma {:induction false} ResultsShow(k: Contest, p: Preview, entry: Option<nat>, at: int)
    ensures var settled := SettledContest(k, p, entry, at);
      && settled.state.Settled? && |settled.results| == |p.payouts|
      && forall i | 0 <= i < |p.payouts| :: ResultPayout(settled.results[i]) == p.payouts[i]
  {
  }

  /** What a successful close leaves behind. */
  lemma {:induction false} CloseCommits(db: Db, cmd: Command)
    requires DbInv(db) && Succeeds(db, cmd) && cmd.request.Close?
    ensures cmd.request.contest in db.contests && db.contests[cmd.request.contest].state.AwaitingSettlement?
    ensures var id, at := cmd.request.contest, cmd.env.at; var k := db.contests[id]; var reckoned := Reckon(k);
      && reckoned.Ok? && cmd.request.hash == reckoned.value.hash
      && Committed(db, cmd).journal == SettledJournal(db.journal, id, k, reckoned.value, at)
      && Committed(db, cmd).contests
          == db.contests[id := SettledContest(k, reckoned.value, PayoutEntry(db.journal, id, k, reckoned.value, at),
              at)]
  {
    CloseShape(db, cmd);
    CloseOutcome(db, cmd.tenant, cmd.request, cmd.env);
  }

  function ResultPayout(row: ResultRow): S.Payout {
    S.Payout(row.user, row.placement, row.payout)
  }

  lemma {:induction false} SameEntriesPosted(journal: Journal, id: nat, k: Contest, p: Preview, q: Preview, at: int)
    requires p.rake == q.rake && p.payouts == q.payouts
    ensures SettledJournal(journal, id, k, p, at) == SettledJournal(journal, id, k, q, at)
  {
  }

  // ---- Reading a settlement back -----------------------------------------------------

  lemma {:induction false} ByListingIsTotal()
    ensures Sorting.TotalPreorder(ByListing())
  {
  }

  lemma {:induction false} ListedInOrder(k: Contest)
    requires forall i, j | 0 <= i < j < |k.results| ::
      ByListing()(k.results[i], k.results[j]) && !ByListing()(k.results[j], k.results[i])
    ensures ListResults(k) == k.results
  {
    ByListingIsTotal();
    forall a, b | a in k.results && b in k.results && ByListing()(a, b) && ByListing()(b, a) ensures a == b {
      var i :| 0 <= i < |k.results| && k.results[i] == a;
      var j :| 0 <= j < |k.results| && k.results[j] == b;
    }
    Sorting.SortFixesSorted(ByListing(), k.results);
  }

  /** The result rows, listed, are the payouts the reckoning made. */
  lemma {:induction false} RecordedAsReckoned(k: Contest, p: Preview, entry: Option<nat>)
    requires Roster(k) && Reckon(k) == Ok(p) && k.results == ResultRows(p, entry)
    ensures RecordedPayouts(k) == p.payouts
  {
    ReckonFacts(k);
    forall i, j | 0 <= i < j < |k.results|
      ensures ByListing()(k.results[i], k.results[j]) && !ByListing()(k.results[j], k.results[i])
    {
      T.PlacementsOrdered(p.net, Entrants(p.entries), k.terms.prize, k.terms.tieBreak, i, j);
    }
    ListedInOrder(k);
  }

  /**
   * A settled contest's preview, rebuilt from its result rows and the journal's fee lines
   * with the escrow long empty, is the reckoning of its stakes.
   */
  lemma {:induction false} SettledPreview(db: Db, tenant: nat, id: nat)
    requires DbInv(db) && Owned(db, tenant, id).Ok? && db.contests[id].state.Settled?
    ensures PreviewSettlement(db, tenant, id) == Reckon(db.contests[id])
  {
    var k := db.contests[id];
    assert ContestInv(db.journal, id, k);
    RecordedIsReckoned(db.journal, id, k);
  }

  lemma {:induction false} RecordedIsReckoned(journal: Journal, id: nat, k: Contest)
    requires Roster(k) && k.state.Settled? && ResultsRecorded(journal, id, k)
    ensures Reckon(k) == Ok(Recorded(journal, id, k))
  {
    var p := Reckon(k).value;
    var entry :| k.results == ResultRows(p, entry);
    ReckonFacts(k);
    ReckonPays(k);
    RecordedAsReckoned(k, p, entry);
    RecordedIs(journal, id, k, p);
  }

  lemma {:induction false} RecordedIs(journal: Journal, id: nat, k: Contest, p: Preview)
    requires RecordedPayouts(k) == p.payouts && RakeTaken(journal, id) == p.rake && PayTotal(p.payouts) == p.net
    requires p.gross == p.net + p.rake && p.entries == ToEntries(k.participants, k.scores)
      && p.hash == PayoutHash(p.payouts)
    ensures Recorded(journal, id, k) == p
  {
  }

  /** The settlement reload round trip: at any time after a close, the preview reads what the close computed. */
  lemma {:induction false} SettlementReload(run: seq<Action>, cmd: Command, later: seq<Action>)
    requires cmd.request.Close? && Step(Reached(run), cmd).1.Done?
    ensures PreviewSettlement(After(Step(Reached(run), cmd).0, later), cmd.tenant, cmd.request.contest)
         == PreviewSettlement(Reached(run), cmd.tenant, cmd.request.contest)
    ensures PreviewSettlement(Reached(run), cmd.tenant, cmd.request.contest).Ok?
  {
    ReachedInv(run);
    var db, id := Reached(run), cmd.request.contest;
    StepCases(db, cmd);
    StepKeeps(db, cmd);
    CloseCommits(db, cmd);
    CloseShape(db, cmd);
    PreviewReckons(db, cmd.tenant, id);
    ReloadedPreview(Committed(db, cmd), later, cmd.tenant, id);
    var p := Reckon(db.contests[id]).value;
    SettledReckoning(db.contests[id], p, PayoutEntry(db.journal, id, db.contests[id], p, cmd.env.at), cmd.env.at);
  }

  lemma {:induction false} ReloadedPreview(db: Db, later: seq<Action>, tenant: nat, id: nat)
    requires DbInv(db) && Owned(db, tenant, id).Ok? && db.contests[id].state.Settled?
    ensures PreviewSettlement(After(db, later), tenant, id) == Reckon(db.contests[id])
  {
    AfterKeeps(db, later);
    AfterEvolves(db, later, id);
    SettledPreview(After(db, later), tenant, id);
  }
}
