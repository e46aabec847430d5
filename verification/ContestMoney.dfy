/** When a void and a close succeed, and what each does to every account in the journal. */
module ContestMoney {
  import opened Common
  import opened Ledger
  import opened Contests
  import opened ContestInvariant
  import opened ContestSteps
  import opened ContestSettlement
  import opened ContestVoid
  import opened ContestRuns
  import opened ContestTheorems
  import opened ContestOutcomes
  import S = Settlement
  import T = SettlementTheorems

  /** Entries all made for one contest move each account by what they do to it for that contest. */
  lemma {:induction false} TaggedGrowth(journal: Journal, after: Journal, id: nat, account: Account)
    requires GrownFor(journal, after, id)
    ensures Balance(after, account) - Balance(journal, account)
      == ContestDelta(after, id, account) - ContestDelta(journal, id, account)
    decreases |after|
  {
    if |after| == |journal| {
      assert after == journal;
    } else {
      TaggedGrowth(journal, after[..|after| - 1], id, account);
    }
  }

  // ---- Voiding -----------------------------------------------------------------------

  /** An operator, the platform or a tenant may void a contest that is being played or waits, users never. */
  ghost predicate MayVoid(k: Contest, actor: ActorKind) {
    && actor != UserActor
    && (k.state == Open || k.state == Locked || k.state == InProgress
        || (k.state == AwaitingSettlement && (k.terms.policy == OperatorClose ==> actor == Operator)))
  }

  lemma {:induction false} VoidAllowed(k: Contest, actor: ActorKind)
    ensures MayVoid(k, actor) <==> CheckTransition(k, Voided, actor) == None
  {
  }

  lemma {:induction false} VoidRuns(db: Db, cmd: Command)
    requires cmd.request.VoidContest? && (cmd.tenant, cmd.key) !in db.keys
    ensures Step(db, cmd).1.Done? <==> RunVoid(db, cmd.tenant, cmd.request, cmd.env).Ok?
    ensures Step(db, cmd).1.Done? ==>
      var (after, record) := RunVoid(db, cmd.tenant, cmd.request, cmd.env).value;
      Step(db, cmd) == (Keyed(after, cmd, record), Done(record))
  {
  }

  /** Exactly when a void succeeds, and the state and journal it leaves. */
  lemma {:induction false} VoidAcceptedIn(db: Db, cmd: Command)
    requires DbInv(db) && cmd.request.VoidContest? && (cmd.tenant, cmd.key) !in db.keys
    ensures var id := cmd.request.contest; var (after, reply) := Step(db, cmd);
      && (reply.Done? <==> Own(db, cmd, id) && MayVoid(db.contests[id], cmd.env.actor))
      && (reply.Done? ==>
            && after.contests == db.contests[id := db.contests[id].(state := Voided)]
            && after.journal == VoidedJournal(db.journal, id, db.contests[id], cmd.env.at))
  {
    VoidRuns(db, cmd);
    if Own(db, cmd, cmd.request.contest) {
      VoidOutcome(db, cmd.tenant, cmd.request, cmd.env);
      VoidAllowed(db.contests[cmd.request.contest], cmd.env.actor);
    }
  }

  /** Refunds reach nothing but the escrow and the wallets of those refunded. */
  lemma {:induction false} RefundsElsewhere(id: nat, k: Contest, places: seq<nat>, account: Account)
    requires forall i | 0 <= i < |places| :: places[i] < |k.participants|
    requires account != Escrow(k.tenant, k.asset, id)
    requires forall i | 0 <= i < |places| :: account != Wallet(k.tenant, k.asset, k.participants[places[i]].user)
    ensures Refunds(id, k, places, account) == 0
  {
    if places != [] {
      RefundsElsewhere(id, k, places[..|places| - 1], account);
    }
  }

  /** What a void does to an account: the escrow is emptied, and whoever still plays gets their stake back. */
  ghost predicate VoidPays(before: Journal, after: Journal, id: nat, k: Contest, account: Account) {
    if account == Escrow(k.tenant, k.asset, id) then Balance(after, account) == 0
    else if exists i ::
        i in Playing(k.participants) && account == Wallet(k.tenant, k.asset, k.participants[i].user) then
      Balance(after, account) == Balance(before, account) + k.terms.entryAmount
    else Balance(after, account) == Balance(before, account)
  }

  lemma {:induction false} VoidRefunded(k: Contest, id: nat, account: Account)
    requires Roster(k) && account != Escrow(k.tenant, k.asset, id)
    ensures Refunds(id, k, ActivePlaces(k.participants), account) ==
      if exists i :: i in Playing(k.participants) && account == Wallet(k.tenant, k.asset, k.participants[i].user)
      then k.terms.entryAmount else 0
  {
    var places := ActivePlaces(k.participants);
    ActivePlacesFacts(k.participants);
    if i :| i in Playing(k.participants) && account == Wallet(k.tenant, k.asset, k.participants[i].user) {
      assert i in places;
      var n :| 0 <= n < |places| && places[n] == i;
      WalletRefunds(id, k, places, k.participants[i].user);
    } else {
      forall n | 0 <= n < |places| ensures account != Wallet(k.tenant, k.asset, k.participants[places[n]].user) {
        assert places[n] in places && places[n] in Playing(k.participants);
      }
      RefundsElsewhere(id, k, places, account);
    }
  }

  lemma {:induction false} VoidMoves(db: Db, id: nat, k: Contest, env: Env, account: Account)
    requires DbInv(db) && id in db.contests && db.contests[id] == k && CheckTransition(k, Voided, env.actor).None?
    ensures VoidPays(db.journal, VoidedJournal(db.journal, id, k, env.at), id, k, account)
  {
    if account == Escrow(k.tenant, k.asset, id) {
      VoidedEscrow(db, id, k, env.at);
    } else {
      assert ContestInv(db.journal, id, k);
      VoidGoesThrough(db, id, k, env);
      VoidReturns(db.journal, id, k, env.at, account);
    }
  }

  lemma {:induction false} VoidReturns(journal: Journal, id: nat, k: Contest, at: int, account: Account)
    requires Roster(k) && account != Escrow(k.tenant, k.asset, id)
    requires GrownFor(journal, VoidedJournal(journal, id, k, at), id)
    ensures VoidPays(journal, VoidedJournal(journal, id, k, at), id, k, account)
  {
    TaggedGrowth(journal, VoidedJournal(journal, id, k, at), id, account);
    VoidEffect(journal, id, k, ActivePlaces(k.participants), at, account);
    VoidRefunded(k, id, account);
  }

  /**
   * In every reachable state a void under a new key succeeds exactly when the contest is the
   * caller's and open, locked, in progress or awaiting settlement, and the actor may void
   * it there. It then empties the escrow, gives everyone still playing their stake back and
   * touches no other account; otherwise no contest and no balance changes.
   */
  lemma {:induction false} VoidAccepted(run: seq<Action>, cmd: Command, account: Account)
    requires cmd.request.VoidContest? && (cmd.tenant, cmd.key) !in Reached(run).keys
    ensures var db, id := Reached(run), cmd.request.contest; var (after, reply) := Step(db, cmd);
      && (reply.Done? <==> Own(db, cmd, id) && MayVoid(db.contests[id], cmd.env.actor))
      && (if !reply.Done? then after.contests == db.contests && after.journal == db.journal
          else
            && after.contests == db.contests[id := db.contests[id].(state := Voided)]
            && VoidPays(db.journal, after.journal, id, db.contests[id], account))
  {
    ReachedInv(run);
    var db := Reached(run);
    OtherwiseNothing(db, cmd);
    VoidAcceptedIn(db, cmd);
    if Step(db, cmd).1.Done? {
      var k := db.contests[cmd.request.contest];
      VoidAllowed(k, cmd.env.actor);
      VoidMoves(db, cmd.request.contest, k, cmd.env, account);
    }
  }

  // ---- Closing -----------------------------------------------------------------------

  /** A contest that waits is settled by an operator, or by the platform or a tenant where only operators need not. */
  ghost predicate MayClose(k: Contest, actor: ActorKind) {
    k.state == AwaitingSettlement && actor != UserActor && (k.terms.policy == OperatorClose ==> actor == Operator)
  }

  lemma {:induction false} CloseAllowed(k: Contest, actor: ActorKind)
    ensures MayClose(k, actor) <==> CheckTransition(k, Settling, actor) == None
  {
  }

  /** What there is to share: every stake still in, less the rake's basis points rounded down. */
  lemma {:induction false} ReckonedAmounts(k: Contest)
    requires Roster(k) && Reckon(k).Ok?
    ensures var p := Reckon(k).value;
      && p.gross == |Playing(k.participants)| * k.terms.entryAmount
      && p.rake == p.gross * k.terms.rakeBps / 10_000 && p.net == p.gross - p.rake
  {
    ReckonFacts(k);
    PlayingAreActive(k.participants);
    StakesNonNegative(ActiveCount(k.participants), k.terms.entryAmount);
    BasisPointsOf(Reckon(k).value.gross, k.terms.rakeBps);
  }

  lemma {:induction false} BasisPointsOf(gross: nat, bps: nat)
    ensures ApplyBps(gross, bps) == gross * bps / 10_000
  {
  }

  /** A payee named once among the payouts is paid that payout. */
  lemma {:induction false} PaidOnce(payouts: seq<S.Payout>, x: nat)
    requires x < |payouts| && forall i, j | 0 <= i < j < |payouts| :: payouts[i].user != payouts[j].user
    ensures PaidTo(payouts, payouts[x].user) == payouts[x].payout
  {
    var last := |payouts| - 1;
    if x < last {
      PaidOnce(payouts[..last], x);
    } else {
      PaidToNobody(payouts[..last], payouts[last].user);
    }
  }

  lemma {:induction false} PayeesDistinct(k: Contest)
    requires Roster(k) && Reckon(k).Ok?
    ensures var payouts := Reckon(k).value.payouts;
      forall i, j | 0 <= i < j < |payouts| :: payouts[i].user != payouts[j].user
  {
    ReckonFacts(k);
    var p := Reckon(k).value;
    forall i, j | 0 <= i < j < |p.payouts| ensures p.payouts[i].user != p.payouts[j].user {
      T.PayeesApart(p.net, Entrants(p.entries), k.terms.prize, k.terms.tieBreak, i, j);
    }
  }

  /** What a close does to an account: the rake to the platform, each payout to its winner, and the escrow is empty. */
  ghost predicate ClosePays(before: Journal, after: Journal, id: nat, k: Contest, p: Preview, account: Account) {
    if account == Escrow(k.tenant, k.asset, id) then Balance(after, account) == 0
    else if account == PlatformFee(k.tenant, k.asset) then
      Balance(after, account) == Balance(before, account) + p.rake
    else if exists x :: 0 <= x < |p.payouts| && account == Wallet(k.tenant, k.asset, p.payouts[x].user) then
      forall x | 0 <= x < |p.payouts| && account == Wallet(k.tenant, k.asset, p.payouts[x].user) ::
        Balance(after, account) == Balance(before, account) + p.payouts[x].payout
    else Balance(after, account) == Balance(before, account)
  }

  lemma {:induction false} CloseMoves(journal: Journal, id: nat, k: Contest, p: Preview, at: int, account: Account)
    requires Ready(journal, id, k) && Sound(journal) && Reckon(k) == Ok(p) && p.net <= MAX_AMOUNT
    ensures ClosePays(journal, SettledJournal(journal, id, k, p, at), id, k, p, account)
  {
    ReckonFacts(k);
    ReckonPays(k);
    PayeesDistinct(k);
    if account == Escrow(k.tenant, k.asset, id) {
      SettledEscrowEmpty(journal, id, k, p, at);
    } else {
      SettledSound(journal, id, k, p, at);
      CloseReaches(journal, id, k, p, at, account);
    }
  }

  lemma {:induction false} CloseReaches(journal: Journal, id: nat, k: Contest, p: Preview, at: int, account: Account)
    requires account != Escrow(k.tenant, k.asset, id) && GrownFor(journal, SettledJournal(journal, id, k, p, at), id)
    requires p.rake >= 0 && forall i | 0 <= i < |p.payouts| :: p.payouts[i].payout >= 0
    requires forall i, j | 0 <= i < j < |p.payouts| :: p.payouts[i].user != p.payouts[j].user
    ensures ClosePays(journal, SettledJournal(journal, id, k, p, at), id, k, p, account)
  {
    TaggedGrowth(journal, SettledJournal(journal, id, k, p, at), id, account);
    SettledBooks(journal, id, k, p, at, account);
    if account.Wallet? && account.tenant == k.tenant && account.asset == k.asset {
      if x :| 0 <= x < |p.payouts| && account == Wallet(k.tenant, k.asset, p.payouts[x].user) {
        PaidOnce(p.payouts, x);
      } else {
        PaidToNobody(p.payouts, account.user);
      }
    }
  }

  lemma {:induction false} CloseRunsAs(db: Db, cmd: Command)
    requires cmd.request.Close? && (cmd.tenant, cmd.key) !in db.keys
    ensures Step(db, cmd).1.Done? <==> RunClose(db, cmd.tenant, cmd.request, cmd.env).Ok?
    ensures Step(db, cmd).1.Done? ==>
      var (after, record) := RunClose(db, cmd.tenant, cmd.request, cmd.env).value;
      Step(db, cmd) == (Keyed(after, cmd, record), Done(record))
  {
  }

  lemma {:induction false} CloseAcceptedIn(db: Db, cmd: Command)
    requires DbInv(db) && cmd.request.Close? && (cmd.tenant, cmd.key) !in db.keys
    ensures var id := cmd.request.contest; var (after, reply) := Step(db, cmd);
      && (reply.Done? <==>
            && Own(db, cmd, id) && MayClose(db.contests[id], cmd.env.actor)
            && Reckon(db.contests[id]).Ok? && cmd.request.hash == Reckon(db.contests[id]).value.hash
            && Reckon(db.contests[id]).value.net <= MAX_AMOUNT)
      && (reply.Done? ==>
            && after.contests == SettledDb(db, id, db.contests[id], Reckon(db.contests[id]).value, cmd.env.at).contests
            && after.journal == SettledJournal(db.journal, id, db.contests[id], Reckon(db.contests[id]).value,
                 cmd.env.at))
  {
    CloseRunsAs(db, cmd);
    if Own(db, cmd, cmd.request.contest) {
      CloseOutcome(db, cmd.tenant, cmd.request, cmd.env);
      CloseAllowed(db.contests[cmd.request.contest], cmd.env.actor);
    }
  }

  /** The contest a close leaves: settled now, its result rows the previewed payouts, everything else as it was. */
  ghost predicate Closed(k: Contest, after: Contest, p: Preview, at: int) {
    && after == k.(state := Settled, settledAt := Some(at), results := after.results)
    && |after.results| == |p.payouts|
    && forall x | 0 <= x < |p.payouts| ::
        && after.results[x].user == p.payouts[x].user && after.results[x].placement == p.payouts[x].placement
        && after.results[x].payout == p.payouts[x].payout
  }

  /**
   * In every reachable state a close under a new key succeeds exactly when the contest is
   * the caller's and awaits settlement, the actor may settle it, the hash is that of the
   * preview and the net pool fits in one ledger amount. It then records the previewed
   * payouts, pays the rake to the platform and each payout to its winner, empties the
   * escrow and touches no other account; otherwise no contest and no balance changes.
   */
  lemma {:induction false} CloseAccepted(run: seq<Action>, cmd: Command, account: Account)
    requires cmd.request.Close? && (cmd.tenant, cmd.key) !in Reached(run).keys
    ensures var db, id := Reached(run), cmd.request.contest; var (after, reply) := Step(db, cmd);
      var preview := PreviewSettlement(db, cmd.tenant, id);
      && (reply.Done? <==>
            && Own(db, cmd, id) && MayClose(db.contests[id], cmd.env.actor)
            && preview.Ok? && cmd.request.hash == preview.value.hash
            && preview.value.net <= 9_223_372_036_854_775_807)
      && (if !reply.Done? then after.contests == db.contests && after.journal == db.journal
          else
            && id in after.contests && after.contests == db.contests[id := after.contests[id]]
            && Closed(db.contests[id], after.contests[id], preview.value, cmd.env.at)
            && ClosePays(db.journal, after.journal, id, db.contests[id], preview.value, account))
  {
    ReachedInv(run);
    var db, id := Reached(run), cmd.request.contest;
    OtherwiseNothing(db, cmd);
    CloseAcceptedIn(db, cmd);
    if Own(db, cmd, id) && MayClose(db.contests[id], cmd.env.actor) {
      PreviewReckons(db, cmd.tenant, id);
      if Step(db, cmd).1.Done? {
        CloseLeaves(db, cmd, id, Reckon(db.contests[id]).value, account);
      }
    }
  }

  lemma {:induction false} CloseLeaves(db: Db, cmd: Command, id: nat, p: Preview, account: Account)
    requires DbInv(db) && cmd.request.Close? && (cmd.tenant, cmd.key) !in db.keys && cmd.request.contest == id
    requires Step(db, cmd).1.Done? && id in db.contests && db.contests[id].state == AwaitingSettlement
    requires Reckon(db.contests[id]) == Ok(p) && p.net <= MAX_AMOUNT
    ensures var after := Step(db, cmd).0;
      && id in after.contests && after.contests == db.contests[id := after.contests[id]]
      && Closed(db.contests[id], after.contests[id], p, cmd.env.at)
      && ClosePays(db.journal, after.journal, id, db.contests[id], p, account)
  {
    CloseAcceptedIn(db, cmd);
    AwaitingIsReady(db, id);
    CloseMoves(db.journal, id, db.contests[id], p, cmd.env.at, account);
    SettledIsClosed(db.contests[id], p, PayoutEntry(db.journal, id, db.contests[id], p, cmd.env.at), cmd.env.at);
  }

  lemma {:induction false} SettledIsClosed(k: Contest, p: Preview, entry: Option<nat>, at: int)
    ensures Closed(k, SettledContest(k, p, entry, at), p, at)
  {
  }

  /** What a live or settled contest's preview shares: every stake still in, less the rake rounded down. */
  lemma {:induction false} PreviewAmounts(run: seq<Action>, tenant: nat, id: nat)
    requires id in Reached(run).contests && Reached(run).contests[id].tenant == tenant
    requires Reached(run).contests[id].state != Cancelled && Reached(run).contests[id].state != Voided
    ensures PreviewSettlement(Reached(run), tenant, id).Ok?
    ensures var k := Reached(run).contests[id]; var p := PreviewSettlement(Reached(run), tenant, id).value;
      && p.gross == |Playing(k.participants)| * k.terms.entryAmount
      && p.rake == p.gross * k.terms.rakeBps / 10_000 && p.net == p.gross - p.rake
  {
    ReachedInv(run);
    ReachedContest(run, id);
    if Reached(run).contests[id].state == Settled {
      SettledPreview(Reached(run), tenant, id);
    } else {
      PreviewReckons(Reached(run), tenant, id);
    }
    ReckonFacts(Reached(run).contests[id]);
    ReckonedAmounts(Reached(run).contests[id]);
  }
}
