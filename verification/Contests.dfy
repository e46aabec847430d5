/**
 * The contest engine (apps/purse/src/contests) as a state machine over the rows it
 * keeps. Every operation is one transaction: `Step` either commits the rows it describes
 * together with the idempotency record, or leaves the rows as they were.
 *
 * Identifiers are numbers, used only for equality and order. A participant's, score's and
 * journal entry's id is its place in its append-only table; the rows of one contest are
 * kept together.
 */
module Contests {
  import opened Common
  import opened Ledger
  import Eligibility
  import S = Settlement
  import Sorting

  // ---- Rows --------------------------------------------------------------------------

  datatype ContestState =
    | Draft | Open | Locked | InProgress | AwaitingSettlement | Settling | Settled | Cancelled | Voided

  datatype Policy = OperatorClose | Auto

  datatype ActorKind = System | Operator | TenantActor | UserActor

  datatype Terms = Terms(
    entryAmount: int,
    maxParticipants: Option<int>,
    prize: S.PrizeStructure,
    tieBreak: S.TieBreak,
    policy: Policy,
    rakeBps: int,
    opensAt: Option<int>,
    locksAt: Option<int>)

  datatype ParticipantState = Entered | Withdrawn | Disqualified

  datatype Participant = Participant(user: nat, teamRef: Option<nat>, seed: Option<int>, entry: nat,
      state: ParticipantState)

  datatype ScoreRow = ScoreRow(user: nat, score: Option<real>, finished: bool, at: int, supersededBy: Option<nat>)

  datatype ResultRow = ResultRow(user: nat, placement: nat, score: Option<real>, payout: int, entry: Option<nat>)

  datatype Contest = Contest(
    tenant: nat,
    externalId: nat,
    asset: Asset,
    terms: Terms,
    state: ContestState,
    settledAt: Option<int>,
    participants: seq<Participant>,
    scores: seq<ScoreRow>,
    results: seq<ResultRow>)

  datatype DecisionRow = DecisionRow(tenant: nat, contest: nat, user: nat, decision: Eligibility.Decision)

  /** What an idempotency row stores: the request, and the ids a replay reloads its result from. */
  datatype KeyRow = KeyRow(request: Request, record: Record)

  datatype Record =
    | ContestRecord(contest: nat)
    | EntryRecord(contest: nat, participant: nat, entry: nat, decision: nat)
    | WithdrawalRecord(contest: nat, participant: nat, refund: nat)
    | ScoresRecord(contest: nat, rows: seq<nat>, settled: bool)
    | VoidRecord(contest: nat, refunds: seq<nat>)

  datatype Db = Db(
    contests: map<nat, Contest>,
    journal: Journal,
    keys: map<(nat, nat), KeyRow>,
    decisions: seq<DecisionRow>)

  const EMPTY := Db(map[], [], map[], [])

  // ---- Requests ----------------------------------------------------------------------

  /** A field left out of a patch keeps its value. */
  datatype Patch = Patch(
    entryAmount: Option<int>,
    maxParticipants: Option<Option<int>>,
    prize: Option<S.PrizeStructure>,
    tieBreak: Option<S.TieBreak>,
    policy: Option<Policy>,
    rakeBps: Option<int>,
    opensAt: Option<Option<int>>,
    locksAt: Option<Option<int>>)

  datatype Submission = Submission(user: nat, score: Option<real>, finished: bool)

  /** SHA-256 of the canonical payouts, taken to be injective. */
  datatype Digest = Sha256(canonical: seq<S.Payout>)

  /** What the caller chose: two requests are the same request when these are equal. */
  datatype Request =
    | Create(externalId: nat, asset: Asset, terms: Terms)
    | Update(contest: nat, patch: Patch)
    | MoveTo(contest: nat, to: ContestState)
    | Enter(contest: nat, user: nat, teamRef: Option<nat>, seed: Option<int>)
    | Withdraw(contest: nat, user: nat)
    | SubmitScores(contest: nat, batch: seq<Submission>)
    | Close(contest: nat, hash: Digest)
    | VoidContest(contest: nat)

  /** What the platform brings to a request: the actor, the clocks, a minted id, the user's profile, the rules. */
  datatype Env = Env(
    actor: ActorKind,
    now: Eligibility.Instant,
    at: int,
    freshId: nat,
    profile: Eligibility.User,
    ruleset: Eligibility.Ruleset)

  datatype Command = Command(tenant: nat, key: nat, request: Request, env: Env)

  datatype Failure =
    | ContestNotFound | ContestWrongTenant
    | InvalidInput | InvalidPrizeStructure | EntryAmountAboveLimit | DuplicateUser | ExternalIdTaken
        | IdempotencyConflict
    | InvalidTransition | InvalidContestState | OperatorRequired | ActorNotAllowed
    | ContestHasEntries | EscrowNotEmpty | ResultsIncomplete | AlreadySettled | AlreadyVoided
    | ContestNotOpen | ContestFull | NotEligible(decision: Eligibility.Decision) | AlreadyEntered
    | NotAParticipant | ParticipantNotActive
    | ScoresNotAccepted | AttemptAlreadyFinished
    | PreviewHashMismatch
    | LedgerRefused(ledger: LedgerError) | SettlementRefused(settlement: S.SettlementError) | IdCollision

  datatype Reply = Done(record: Record) | Replayed(record: Record) | Failed(failure: Failure)

  // ---- Lifecycle (states.ts, transition.ts) ------------------------------------------

  function Transitions(from: ContestState): set<ContestState> {
    match from
    case Draft => {Open, Cancelled}
    case Open => {Locked, Cancelled, Voided}
    case Locked => {InProgress, Cancelled, Voided}
    case InProgress => {AwaitingSettlement, Cancelled, Voided}
    case AwaitingSettlement => {Settling, Cancelled, Voided}
    case Settling => {Settled}
    case Settled | Cancelled | Voided => {}
  }

  predicate Terminal(state: ContestState) {
    state.Settled? || state.Cancelled? || state.Voided?
  }

  function CheckTransition(k: Contest, to: ContestState, actor: ActorKind): Option<Failure> {
    if actor.UserActor? then Some(ActorNotAllowed)
    else if to !in Transitions(k.state) then Some(InvalidTransition)
    else if k.state.AwaitingSettlement? && k.terms.policy.OperatorClose? && !actor.Operator? then Some(OperatorRequired)
    else None
  }

  predicate Active(p: Participant) {
    !p.state.Withdrawn?
  }

  /** The places of the participants whose stake is in escrow, in joining order. */
  function ActivePlaces(ps: seq<Participant>): (places: seq<nat>)
    ensures forall i | 0 <= i < |places| :: places[i] < |ps| && Active(ps[places[i]])
  {
    if ps == [] then []
    else
      var last := |ps| - 1;
      ActivePlaces(ps[..last]) + if Active(ps[last]) then [last] else []
  }

  function ActiveCount(ps: seq<Participant>): nat {
    |ActivePlaces(ps)|
  }

  function EscrowOf(id: nat, k: Contest): Account {
    Escrow(k.tenant, k.asset, id)
  }

  function WalletOf(k: Contest, user: nat): Account {
    Wallet(k.tenant, k.asset, user)
  }

  function CheckGuard(journal: Journal, id: nat, k: Contest, to: ContestState,
      ruleset: Eligibility.Ruleset): Option<Failure> {
    match to
    case Open =>
      if Eligibility.OverLimit(ruleset.perContest, k.terms.entryAmount) then Some(EntryAmountAboveLimit) else None
    case Cancelled =>
      if ActiveCount(k.participants) > 0 then Some(ContestHasEntries)
      else if Balance(journal, EscrowOf(id, k)) != 0 then Some(EscrowNotEmpty)
      else None
    case Voided =>
      if Balance(journal, EscrowOf(id, k)) != 0 then Some(EscrowNotEmpty) else None
    case Settled =>
      if Balance(journal, EscrowOf(id, k)) != 0 then Some(EscrowNotEmpty)
      else if |k.results| != ActiveCount(k.participants) then Some(ResultsIncomplete)
      else None
    case Draft | Locked | InProgress | AwaitingSettlement | Settling => None
  }

  function Transition(journal: Journal, id: nat, k: Contest, to: ContestState, actor: ActorKind,
      env: Env): Result<Contest, Failure> {
    var refused := CheckTransition(k, to, actor);
    if refused.Some? then Err(refused.value)
    else
      var guarded := CheckGuard(journal, id, k, to, env.ruleset);
      if guarded.Some? then Err(guarded.value)
      else Ok(k.(state := to, settledAt := if to.Settled? then Some(env.at) else k.settledAt))
  }

  // ---- Definition (create.ts) --------------------------------------------------------

  predicate LockAfterOpen(opensAt: Option<int>, locksAt: Option<int>) {
    opensAt.None? || locksAt.None? || locksAt.value > opensAt.value
  }

  predicate ValidMax(max: Option<int>) {
    max.Some? ==> 1 <= max.value <= 1_000_000
  }

  /** The first thing the schema refuses about a contest's terms, in the schema's order. */
  function CheckTerms(t: Terms): Option<Failure> {
    if !(0 < t.entryAmount <= MAX_AMOUNT) || !ValidMax(t.maxParticipants) then Some(InvalidInput)
    else if !S.ValidStructure(t.prize) then Some(InvalidPrizeStructure)
    else if !(0 <= t.rakeBps <= 5000) || !LockAfterOpen(t.opensAt, t.locksAt) then Some(InvalidInput)
    else None
  }

  function CheckPatch(p: Patch): Option<Failure> {
    if (p.entryAmount.Some? && !(0 < p.entryAmount.value <= MAX_AMOUNT))
      || (p.maxParticipants.Some? && !ValidMax(p.maxParticipants.value)) then Some(InvalidInput)
    else if p.prize.Some? && !S.ValidStructure(p.prize.value) then Some(InvalidPrizeStructure)
    else if p.rakeBps.Some? && !(0 <= p.rakeBps.value <= 5000) then Some(InvalidInput)
    else if p == Patch(None, None, None, None, None, None, None, None) then Some(InvalidInput)
    else None
  }

  function Or<T>(patched: Option<T>, before: T): T {
    if patched.Some? then patched.value else before
  }

  function Patched(t: Terms, p: Patch): Terms {
    Terms(
      Or(p.entryAmount, t.entryAmount), Or(p.maxParticipants, t.maxParticipants), Or(p.prize, t.prize),
      Or(p.tieBreak, t.tieBreak), Or(p.policy, t.policy), Or(p.rakeBps, t.rakeBps),
      Or(p.opensAt, t.opensAt), Or(p.locksAt, t.locksAt))
  }

  function RunCreate(db: Db, tenant: nat, r: Request, env: Env): Result<(Db, Record), Failure>
    requires r.Create?
  {
    if exists id ::
        id in db.contests && db.contests[id].tenant == tenant && db.contests[id].externalId == r.externalId then
      Err(ExternalIdTaken)
    else if Eligibility.OverLimit(env.ruleset.perContest, r.terms.entryAmount) then Err(EntryAmountAboveLimit)
    else if env.freshId in db.contests then Err(IdCollision)
    else
      var k := Contest(tenant, r.externalId, r.asset, r.terms, Draft, None, [], [], []);
      Ok((db.(contests := db.contests[env.freshId := k]), ContestRecord(env.freshId)))
  }

  /** The contest a request names, refused when it is another tenant's. */
  function Owned(db: Db, tenant: nat, id: nat): (r: Result<Contest, Failure>)
    ensures r.Ok? ==> id in db.contests && db.contests[id] == r.value && r.value.tenant == tenant
  {
    if id !in db.contests then Err(ContestNotFound)
    else if db.contests[id].tenant != tenant then Err(ContestWrongTenant)
    else Ok(db.contests[id])
  }

  function RunUpdate(db: Db, tenant: nat, r: Request): Result<(Db, Record), Failure>
    requires r.Update?
  {
    var owned := Owned(db, tenant, r.contest);
    if owned.Err? then Err(owned.error)
    else
      var k := owned.value;
      var terms := Patched(k.terms, r.patch);
      if !k.state.Draft? then Err(InvalidContestState)
      else if !LockAfterOpen(terms.opensAt, terms.locksAt) then Err(InvalidInput)
      else Ok((db.(contests := db.contests[r.contest := k.(terms := terms)]), ContestRecord(r.contest)))
  }

  function RunMove(db: Db, tenant: nat, r: Request, env: Env): Result<(Db, Record), Failure>
    requires r.MoveTo?
  {
    var owned := Owned(db, tenant, r.contest);
    if owned.Err? then Err(owned.error)
    else
      var moved := Transition(db.journal, r.contest, owned.value, r.to, env.actor, env);
      if moved.Err? then Err(moved.error)
      else Ok((db.(contests := db.contests[r.contest := moved.value]), ContestRecord(r.contest)))
  }

  // ---- Entries (entries.ts) ----------------------------------------------------------

  function FindParticipant(ps: seq<Participant>, user: nat): (place: Option<nat>)
    ensures place.Some? ==> place.value < |ps| && ps[place.value].user == user
    ensures place.None? ==> forall i | 0 <= i < |ps| :: ps[i].user != user
  {
    if ps == [] then None
    else if ps[|ps| - 1].user == user then Some(|ps| - 1)
    else FindParticipant(ps[..|ps| - 1], user)
  }

  predicate LockTimePassed(terms: Terms, now: int) {
    terms.locksAt.Some? && terms.locksAt.value <= now
  }

  predicate Full(k: Contest) {
    k.terms.maxParticipants.Some? && ActiveCount(k.participants) >= k.terms.maxParticipants.value
  }

  function EntryInput(journal: Journal, k: Contest, user: nat, env: Env): Eligibility.Input {
    var wallet := WalletOf(k, user);
    Eligibility.Input(env.profile, k.asset, k.terms.entryAmount, Balance(journal, wallet),
                      Eligibility.VelocityAt(journal, wallet, env.now.ms), env.ruleset, env.now)
  }

  /** A first entry adds the participant; a re-entry reactivates their row with the new stake, team and seed. */
  function Seated(ps: seq<Participant>, place: Option<nat>, p: Participant): seq<Participant>
    requires place.Some? ==> place.value < |ps|
  {
    if place.Some? then ps[place.value := p] else ps + [p]
  }

  function RunEnter(db: Db, tenant: nat, key: nat, r: Request, env: Env): Result<(Db, Record), Failure>
    requires r.Enter?
  {
    var owned := Owned(db, tenant, r.contest);
    if owned.Err? then Err(owned.error)
    else
      var k := owned.value;
      var place := FindParticipant(k.participants, r.user);
      if !k.state.Open? || LockTimePassed(k.terms, env.now.ms) then Err(ContestNotOpen)
      else if place.Some? && Active(k.participants[place.value]) then Err(AlreadyEntered)
      else if Full(k) then Err(ContestFull)
      else
        var decision := Eligibility.Decide(EntryInput(db.journal, k, r.user, env));
        if decision.Refused? then Err(NotEligible(decision))
        else
          var posted := TryPost(db.journal, EscrowPost(tenant, k.asset, r.contest, r.user, k.terms.entryAmount, key),
            env.at);
          if posted.Err? then Err(LedgerRefused(posted.error))
          else
            var p := Participant(r.user, r.teamRef, r.seed, posted.value.entry, Entered);
            var k' := k.(participants := Seated(k.participants, place, p));
            Ok((Db(db.contests[r.contest := k'], posted.value.journal, db.keys,
                   db.decisions + [DecisionRow(tenant, r.contest, r.user, decision)]),
                EntryRecord(r.contest, Or(place, |k.participants|), posted.value.entry, |db.decisions|)))
  }

  function RunWithdraw(db: Db, tenant: nat, key: nat, r: Request, env: Env): Result<(Db, Record), Failure>
    requires r.Withdraw?
  {
    var owned := Owned(db, tenant, r.contest);
    if owned.Err? then Err(owned.error)
    else
      var k := owned.value;
      var place := FindParticipant(k.participants, r.user);
      if !k.state.Open? || LockTimePassed(k.terms, env.now.ms) then Err(InvalidContestState)
      else if place.None? then Err(NotAParticipant)
      else if !k.participants[place.value].state.Entered? then Err(ParticipantNotActive)
      else
        var posted := TryPost(db.journal, RefundPost(tenant, k.asset, r.contest, r.user, k.terms.entryAmount, key),
          env.at);
        if posted.Err? then Err(LedgerRefused(posted.error))
        else
          var p := k.participants[place.value].(state := Withdrawn);
          var k' := k.(participants := k.participants[place.value := p]);
          Ok((db.(contests := db.contests[r.contest := k'], journal := posted.value.journal),
              WithdrawalRecord(r.contest, place.value, posted.value.entry)))
  }

  // ---- Scores (scores.ts) ------------------------------------------------------------

  /** The counting row of a user: theirs, with no successor. */
  function CurrentRow(rows: seq<ScoreRow>, user: nat): (row: Option<nat>)
    ensures row.Some? ==> row.value < |rows| && rows[row.value].user == user && rows[row.value].supersededBy.None?
    ensures row.None? ==> forall i | 0 <= i < |rows| :: !(rows[i].user == user && rows[i].supersededBy.None?)
  {
    if rows == [] then None
    else
      var last := |rows| - 1;
      if rows[last].user == user && rows[last].supersededBy.None? then Some(last) else CurrentRow(rows[..last], user)
  }

  function SubmissionOf(batch: seq<Submission>, user: nat): (place: Option<nat>)
    ensures place.Some? ==> place.value < |batch| && batch[place.value].user == user
    ensures place.None? ==> forall i | 0 <= i < |batch| :: batch[i].user != user
  {
    if batch == [] then None
    else if batch[|batch| - 1].user == user then Some(|batch| - 1)
    else SubmissionOf(batch[..|batch| - 1], user)
  }

  /** The batch appended, each counting row of a submitted user pointing at the row that replaces it. */
  function WithScores(rows: seq<ScoreRow>, batch: seq<Submission>, at: int): (after: seq<ScoreRow>)
    ensures |after| == |rows| + |batch|
  {
    var linked := seq(|rows|, i requires 0 <= i < |rows| =>
      var successor := SubmissionOf(batch, rows[i].user);
      if rows[i].supersededBy.None? && successor.Some? then rows[i].(supersededBy := Some(|rows| + successor.value))
        else rows[i]);
    linked + seq(|batch|, i requires 0 <= i < |batch| =>
        ScoreRow(batch[i].user, batch[i].score, batch[i].finished, at, None))
  }

  /** The first submitted user who may not be scored decides the refusal. */
  function CheckScored(ps: seq<Participant>, batch: seq<Submission>): Option<Failure> {
    if batch == [] then None
    else
      var place := FindParticipant(ps, batch[0].user);
      if place.None? then Some(NotAParticipant)
      else if !ps[place.value].state.Entered? then Some(ParticipantNotActive)
      else CheckScored(ps, batch[1..])
  }

  predicate FinishedAlready(rows: seq<ScoreRow>, batch: seq<Submission>) {
    exists i :: 0 <= i < |rows| && rows[i].supersededBy.None? && rows[i].finished
      && SubmissionOf(batch, rows[i].user).Some?
  }

  predicate HasFinished(rows: seq<ScoreRow>, user: nat) {
    exists i :: 0 <= i < |rows| && rows[i].user == user && rows[i].supersededBy.None? && rows[i].finished
  }

  predicate AllExpectedResults(k: Contest) {
    forall i | 0 <= i < |k.participants| && k.participants[i].state.Entered? ::
      HasFinished(k.scores, k.participants[i].user)
  }

  predicate DistinctSubmitters(batch: seq<Submission>) {
    forall i, j | 0 <= i < j < |batch| :: batch[i].user != batch[j].user
  }

  function CheckBatch(batch: seq<Submission>): Option<Failure> {
    if |batch| == 0 || |batch| > 1000 then Some(InvalidInput)
    else if !DistinctSubmitters(batch) then Some(DuplicateUser)
    else None
  }

  function RunScores(db: Db, tenant: nat, r: Request, env: Env): Result<(Db, Record), Failure>
    requires r.SubmitScores?
  {
    var owned := Owned(db, tenant, r.contest);
    if owned.Err? then Err(owned.error)
    else
      var k := owned.value;
      var unscorable := CheckScored(k.participants, r.batch);
      if !k.state.InProgress? && !k.state.AwaitingSettlement? then Err(ScoresNotAccepted)
      else if unscorable.Some? then Err(unscorable.value)
      else if FinishedAlready(k.scores, r.batch) then Err(AttemptAlreadyFinished)
      else
        var scored := k.(scores := WithScores(k.scores, r.batch, env.at));
        var rows := seq(|r.batch|, i => |k.scores| + i);
        var advanced := Advance(db.journal, r.contest, scored, env);
        if advanced.Err? then Err(advanced.error)
        else
          var (journal, k') := advanced.value;
          Ok((db.(contests := db.contests[r.contest := k'], journal := journal),
              ScoresRecord(r.contest, rows, k'.state.Settled?)))
  }

  /** Complete results take a contest in progress to `awaiting_settlement`. */
  function Awaits(journal: Journal, id: nat, k: Contest, env: Env): Result<Contest, Failure> {
    if k.state.InProgress? then Transition(journal, id, k, AwaitingSettlement, System, env) else Ok(k)
  }

  /** A contest that waits under `auto` is settled there and then. */
  function SettleIfAuto(journal: Journal, id: nat, k: Contest, env: Env): Result<(Journal, Contest), Failure> {
    if k.state.AwaitingSettlement? && k.terms.policy.Auto? then
      var settled := ExecuteSettlement(journal, id, k, System, None, env);
      if settled.Err? then Err(settled.error) else Ok((settled.value.journal, settled.value.contest))
    else Ok((journal, k))
  }

  /** `maybeAdvance`: complete results move the contest on. */
  function Advance(journal: Journal, id: nat, k: Contest, env: Env): Result<(Journal, Contest), Failure> {
    if !AllExpectedResults(k) then Ok((journal, k))
    else
      var awaiting := Awaits(journal, id, k, env);
      if awaiting.Err? then Err(awaiting.error) else SettleIfAuto(journal, id, awaiting.value, env)
  }

  // ---- Preview and settlement (settlement.ts) ----------------------------------------

  datatype PreviewEntry = PreviewEntry(
    user: nat, score: Option<real>, seed: Option<int>, submittedAt: Option<int>,
    participant: nat, state: ParticipantState, row: Option<nat>, finished: bool)

  datatype Preview = Preview(
    gross: int, rake: int, net: int, entries: seq<PreviewEntry>, payouts: seq<S.Payout>, hash: Digest)

  /** Basis points of an amount, rounded down (treasury/money.ts). */
  function ApplyBps(amount: nat, bps: int): (share: int)
    ensures 0 <= share && (bps <= 10_000 ==> share <= amount)
  {
    if bps <= 0 then 0
    else
      assert bps <= 10_000 ==> amount * bps <= amount * 10_000;
      amount * bps / 10_000
  }

  /** A disqualified participant is unscored whatever was submitted for them. */
  function EntryOf(ps: seq<Participant>, rows: seq<ScoreRow>, place: nat): PreviewEntry
    requires place < |ps|
  {
    var p := ps[place];
    var row := if p.state.Disqualified? then None else CurrentRow(rows, p.user);
    match row
    case None => PreviewEntry(p.user, None, p.seed, None, place, p.state, None, false)
    case Some(i) => PreviewEntry(p.user, rows[i].score, p.seed, Some(rows[i].at), place, p.state, row, rows[i].finished)
  }

  function ToEntries(ps: seq<Participant>, rows: seq<ScoreRow>): (entries: seq<PreviewEntry>)
    ensures |entries| == ActiveCount(ps)
  {
    var places := ActivePlaces(ps);
    seq(|places|, i requires 0 <= i < |places| => EntryOf(ps, rows, places[i]))
  }

  function Entrants(entries: seq<PreviewEntry>): (entrants: seq<S.Entrant>)
    ensures |entrants| == |entries|
  {
    seq(|entries|, i requires 0 <= i < |entries| =>
      S.Entrant(entries[i].user, entries[i].score, entries[i].seed, entries[i].submittedAt))
  }

  function ByPlacement(): (S.Payout, S.Payout) -> bool {
    (a: S.Payout, b: S.Payout) => a.placement < b.placement || (a.placement == b.placement && a.user <= b.user)
  }

  /** The payouts sorted by placement and then user, which is what the hash is taken over. */
  function Canonical(payouts: seq<S.Payout>): seq<S.Payout> {
    Sorting.Sort(ByPlacement(), payouts)
  }

  function PayoutHash(payouts: seq<S.Payout>): Digest {
    Sha256(Canonical(payouts))
  }

  /** What settling would pay out of a pot of `gross`. */
  function ComputeFrom(gross: int, k: Contest): Result<Preview, Failure> {
    var rake := ApplyBps(if gross >= 0 then gross else 0, k.terms.rakeBps);
    var net := gross - rake;
    var entries := ToEntries(k.participants, k.scores);
    match S.Settle(net, Entrants(entries), k.terms.prize, k.terms.tieBreak)
    case Err(e) => Err(SettlementRefused(e))
    case Ok(payouts) => Ok(Preview(gross, rake, net, entries, payouts, PayoutHash(payouts)))
  }

  /** The one computation the preview and the close both run: the pot is what the escrow holds. */
  function Compute(journal: Journal, id: nat, k: Contest): Result<Preview, Failure> {
    ComputeFrom(Balance(journal, EscrowOf(id, k)), k)
  }

  function Paid(payouts: seq<S.Payout>): seq<S.Payout> {
    if payouts == [] then []
    else Paid(payouts[..|payouts| - 1]) + if payouts[|payouts| - 1].payout > 0 then [payouts[|payouts| - 1]] else []
  }

  function PayTotal(payouts: seq<S.Payout>): int {
    if payouts == [] then 0 else PayTotal(payouts[..|payouts| - 1]) + payouts[|payouts| - 1].payout
  }

  function Credits(tenant: nat, asset: Asset, payouts: seq<S.Payout>): (lines: seq<Line>)
    ensures |lines| == |payouts|
  {
    seq(|payouts|, i requires 0 <= i < |payouts| =>
        Line(Wallet(tenant, asset, payouts[i].user), Credit, payouts[i].payout))
  }

  /** One entry: the escrow debited for the total, one credit per payout. */
  function SettlePost(tenant: nat, asset: Asset, id: nat, paid: seq<S.Payout>): Post {
    Post(tenant, SettleEntry, SettleKey(id), Some(id), None,
         [Line(Escrow(tenant, asset, id), Debit, PayTotal(paid))] + Credits(tenant, asset, paid))
  }

  function ScoreOf(entries: seq<PreviewEntry>, user: nat): Option<real> {
    if entries == [] then None
    else if entries[|entries| - 1].user == user then entries[|entries| - 1].score
    else ScoreOf(entries[..|entries| - 1], user)
  }

  function ResultRows(p: Preview, entry: Option<nat>): (rows: seq<ResultRow>)
    ensures |rows| == |p.payouts|
  {
    seq(|p.payouts|, i requires 0 <= i < |p.payouts| =>
      ResultRow(p.payouts[i].user, p.payouts[i].placement, ScoreOf(p.entries, p.payouts[i].user), p.payouts[i].payout,
                if p.payouts[i].payout > 0 then entry else None))
  }

  datatype Outcome = Outcome(journal: Journal, contest: Contest, preview: Preview)

  /** The rake's own entry, when there is one. */
  function PostRake(journal: Journal, id: nat, k: Contest, rake: int, at: int): Result<Journal, Failure> {
    if rake <= 0 then Ok(journal)
    else
      match TryPost(journal, RakePost(k.tenant, k.asset, id, rake), at)
      case Err(e) => Err(LedgerRefused(e))
      case Ok(posted) => Ok(posted.journal)
  }

  /** The settle entry, when anybody is owed anything. */
  function PostPayouts(journal: Journal, id: nat, k: Contest, payouts: seq<S.Payout>,
      at: int): Result<(Journal, Option<nat>), Failure> {
    var paid := Paid(payouts);
    if paid == [] then Ok((journal, None))
    else
      match TryPost(journal, SettlePost(k.tenant, k.asset, id, paid), at)
      case Err(e) => Err(LedgerRefused(e))
      case Ok(posted) => Ok((posted.journal, Some(posted.entry)))
  }

  /** Rake, payouts, results and the last transition, for a contest already `settling`. */
  function PayOut(journal: Journal, id: nat, settling: Contest, p: Preview, actor: ActorKind,
      env: Env): Result<Outcome, Failure> {
    var raked := PostRake(journal, id, settling, p.rake, env.at);
    if raked.Err? then Err(raked.error)
    else
      var paid := PostPayouts(raked.value, id, settling, p.payouts, env.at);
      if paid.Err? then Err(paid.error)
      else
        var placed := settling.(results := ResultRows(p, paid.value.1));
        var settled := Transition(paid.value.0, id, placed, Settled, actor, env);
        if settled.Err? then Err(settled.error)
        else Ok(Outcome(paid.value.0, settled.value, p))
  }

  /** The reckoning, refused when the caller previewed another. */
  function CheckPreview(journal: Journal, id: nat, k: Contest, expected: Option<Digest>): Result<Preview, Failure> {
    var computed := Compute(journal, id, k);
    if computed.Ok? && expected.Some? && expected.value != computed.value.hash then Err(PreviewHashMismatch)
    else computed
  }

  /** Recompute, compare with the hash the caller previewed, if any, and pay out. */
  function SettleBehindHash(journal: Journal, id: nat, settling: Contest, actor: ActorKind, expected: Option<Digest>,
      env: Env): Result<Outcome, Failure> {
    var checked := CheckPreview(journal, id, settling, expected);
    if checked.Err? then Err(checked.error) else PayOut(journal, id, settling, checked.value, actor, env)
  }

  function ExecuteSettlement(journal: Journal, id: nat, k: Contest, actor: ActorKind, expected: Option<Digest>,
      env: Env): Result<Outcome, Failure> {
    var settling := Transition(journal, id, k, Settling, actor, env);
    if settling.Err? then Err(settling.error)
    else SettleBehindHash(journal, id, settling.value, actor, expected, env)
  }

  function RunClose(db: Db, tenant: nat, r: Request, env: Env): Result<(Db, Record), Failure>
    requires r.Close?
  {
    var owned := Owned(db, tenant, r.contest);
    if owned.Err? then Err(owned.error)
    else if owned.value.state.Settled? then Err(AlreadySettled)
    else
      match ExecuteSettlement(db.journal, r.contest, owned.value, env.actor, Some(r.hash), env)
      case Err(e) => Err(e)
      case Ok(o) =>
        Ok((db.(contests := db.contests[r.contest := o.contest], journal := o.journal), ContestRecord(r.contest)))
  }

  // ---- The recorded settlement -------------------------------------------------------

  function ByListing(): (ResultRow, ResultRow) -> bool {
    (a: ResultRow, b: ResultRow) => a.placement < b.placement || (a.placement == b.placement && a.user <= b.user)
  }

  function ListResults(k: Contest): seq<ResultRow> {
    Sorting.Sort(ByListing(), k.results)
  }

  function RecordedPayouts(k: Contest): (payouts: seq<S.Payout>)
    ensures |payouts| == |ListResults(k)|
  {
    var rows := ListResults(k);
    seq(|rows|, i requires 0 <= i < |rows| => S.Payout(rows[i].user, rows[i].placement, rows[i].payout))
  }

  function FeeCredits(lines: seq<Line>): int {
    if lines == [] then 0
    else
      var last := lines[|lines| - 1];
      FeeCredits(lines[..|lines| - 1]) + if last.account.PlatformFee? && last.side == Credit then last.amount else 0
  }

  /** What the journal says was taken from this contest: the `fee` entries posted against it. */
  function RakeTaken(journal: Journal, id: nat): int {
    if journal == [] then 0
    else
      var last := journal[|journal| - 1].post;
      RakeTaken(journal[..|journal| - 1], id)
        + if last.contest == Some(id) && last.kind == FeeEntry then FeeCredits(last.lines) else 0
  }

  /** A settled contest's preview, rebuilt from its result rows and the journal. */
  function Recorded(journal: Journal, id: nat, k: Contest): Preview {
    var payouts := RecordedPayouts(k);
    var net := PayTotal(payouts);
    var rake := RakeTaken(journal, id);
    Preview(net + rake, rake, net, ToEntries(k.participants, k.scores), payouts, PayoutHash(payouts))
  }

  function PreviewSettlement(db: Db, tenant: nat, id: nat): Result<Preview, Failure> {
    match Owned(db, tenant, id)
    case Err(e) => Err(e)
    case Ok(k) => if k.state.Settled? then Ok(Recorded(db.journal, id, k)) else Compute(db.journal, id, k)
  }

  // ---- Void --------------------------------------------------------------------------

  /** Reverse the escrow entry of each participant listed, in order. */
  function VoidEach(journal: Journal, id: nat, k: Contest, places: seq<nat>,
      at: int): Result<(Journal, seq<nat>), Failure>
    requires forall i | 0 <= i < |places| :: places[i] < |k.participants|
  {
    if places == [] then Ok((journal, []))
    else
      var last := |places| - 1;
      match VoidEach(journal, id, k, places[..last], at)
      case Err(e) => Err(e)
      case Ok((before, refunds)) =>
        match TryVoid(before, k.tenant, k.participants[places[last]].entry, VoidKey(id, places[last]), at)
        case Err(e) => Err(LedgerRefused(e))
        case Ok(posted) => Ok((posted.journal, refunds + [posted.entry]))
  }

  function RunVoid(db: Db, tenant: nat, r: Request, env: Env): Result<(Db, Record), Failure>
    requires r.VoidContest?
  {
    var owned := Owned(db, tenant, r.contest);
    if owned.Err? then Err(owned.error)
    else
      var k := owned.value;
      var refused := CheckTransition(k, Voided, env.actor);
      if k.state.Voided? then Err(AlreadyVoided)
      else if refused.Some? then Err(refused.value)
      else
        var refunded := VoidEach(db.journal, r.contest, k, ActivePlaces(k.participants), env.at);
        if refunded.Err? then Err(refunded.error)
        else
          var (journal, refunds) := refunded.value;
          match Transition(journal, r.contest, k, Voided, env.actor, env)
          case Err(e) => Err(e)
          case Ok(k') =>
            Ok((db.(contests := db.contests[r.contest := k'], journal := journal), VoidRecord(r.contest, refunds)))
  }

  // ---- One request (idempotency.ts) --------------------------------------------------

  predicate PlainTarget(to: ContestState) {
    to.Open? || to.Locked? || to.InProgress? || to.AwaitingSettlement? || to.Cancelled?
  }

  /** What is refused about a request before any transaction is opened. */
  function CheckRequest(r: Request): Option<Failure> {
    match r
    case Create(_, _, terms) => CheckTerms(terms)
    case Update(_, patch) => CheckPatch(patch)
    case MoveTo(_, to) => if PlainTarget(to) then None else Some(InvalidInput)
    case Enter(_, _, _, seed) => if seed.Some? && seed.value < 1 then Some(InvalidInput) else None
    case SubmitScores(_, batch) => CheckBatch(batch)
    case Withdraw(_, _) | Close(_, _) | VoidContest(_) => None
  }

  function Run(db: Db, cmd: Command): Result<(Db, Record), Failure> {
    match cmd.request
    case Create(_, _, _) => RunCreate(db, cmd.tenant, cmd.request, cmd.env)
    case Update(_, _) => RunUpdate(db, cmd.tenant, cmd.request)
    case MoveTo(_, _) => RunMove(db, cmd.tenant, cmd.request, cmd.env)
    case Enter(_, _, _, _) => RunEnter(db, cmd.tenant, cmd.key, cmd.request, cmd.env)
    case Withdraw(_, _) => RunWithdraw(db, cmd.tenant, cmd.key, cmd.request, cmd.env)
    case SubmitScores(_, _) => RunScores(db, cmd.tenant, cmd.request, cmd.env)
    case Close(_, _) => RunClose(db, cmd.tenant, cmd.request, cmd.env)
    case VoidContest(_) => RunVoid(db, cmd.tenant, cmd.request, cmd.env)
  }

  /** A refused entry leaves its decision behind, written after the rollback; nothing else survives a failure. */
  function AfterFailure(db: Db, cmd: Command, failure: Failure): Db {
    if failure.NotEligible? && cmd.request.Enter? then
      db.(decisions := db.decisions + [DecisionRow(cmd.tenant, cmd.request.contest, cmd.request.user,
          failure.decision)])
    else db
  }

  function Step(db: Db, cmd: Command): (Db, Reply) {
    var invalid := CheckRequest(cmd.request);
    var name := (cmd.tenant, cmd.key);
    if invalid.Some? then (db, Failed(invalid.value))
    else if name in db.keys then
      if db.keys[name].request == cmd.request then (db, Replayed(db.keys[name].record))
      else (db, Failed(IdempotencyConflict))
    else
      match Run(db, cmd)
      case Err(e) => (AfterFailure(db, cmd, e), Failed(e))
      case Ok((after, record)) => (after.(keys := after.keys[name := KeyRow(cmd.request, record)]), Done(record))
  }

  // ---- Money from outside the contests -----------------------------------------------

  /** Points issued to a wallet, money deposited or withdrawn: the posts other modules make (ledger/flows.ts). */
  datatype OutsideFlow =
    | IssuePoints(tenant: nat, asset: Asset, user: nat, amount: int, id: nat)
    | DepositFunds(tenant: nat, asset: Asset, user: nat, amount: int, id: nat)
    | WithdrawFunds(tenant: nat, asset: Asset, user: nat, amount: int, id: nat)

  function OutsidePost(f: OutsideFlow): Post {
    var wallet := Wallet(f.tenant, f.asset, f.user);
    match f
    case IssuePoints(_, _, _, amount, id) =>
      Post(f.tenant, IssueEntry, OutsideKey(id), None, None, Move(PromoLiability(f.tenant, f.asset), wallet, amount))
    case DepositFunds(_, _, _, amount, id) =>
      Post(f.tenant, DepositEntry, OutsideKey(id), None, None,
          Move(ExternalSettlement(f.tenant, f.asset), wallet, amount))
    case WithdrawFunds(_, _, _, amount, id) =>
      Post(f.tenant, WithdrawalEntry, OutsideKey(id), None, None,
          Move(wallet, ExternalSettlement(f.tenant, f.asset), amount))
  }

  datatype Action = Ask(cmd: Command) | Outside(flow: OutsideFlow, at: int)

  function Act(db: Db, action: Action): Db {
    match action
    case Ask(cmd) => Step(db, cmd).0
    case Outside(flow, at) =>
      match TryPost(db.journal, OutsidePost(flow), at)
      case Err(_) => db
      case Ok(posted) => db.(journal := posted.journal)
  }

  /** The rows after a whole run of requests and outside posts. */
  function After(db: Db, actions: seq<Action>): Db {
    if actions == [] then db else Act(After(db, actions[..|actions| - 1]), actions[|actions| - 1])
  }
}
