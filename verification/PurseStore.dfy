/**
 * The contest service as it runs: a store whose rows are updated in place, one method per
 * operation, each inside a transaction that puts the rows back if it fails. `Handle` is
 * proved to do exactly what `Contests.Step` says.
 */
module PurseStore {
  import opened Common
  import opened Ledger
  import opened Contests
  import Eligibility
  import S = Settlement
  import L = PurseLoops

  class Store {
    var contests: map<nat, Contest>
    var journal: Journal
    var keys: map<(nat, nat), KeyRow>
    var decisions: seq<DecisionRow>

    constructor ()
      ensures State() == EMPTY
    {
      contests, journal, keys, decisions := map[], [], map[], [];
    }

    function State(): Db
      reads this
    {
      Db(contests, journal, keys, decisions)
    }

    // ---- Shared steps ----------------------------------------------------------------

    /** `postEntry`: validate, replay a used key, check the reversal and the balances, append. */
    method PostEntry(post: Post, at: int) returns (r: Result<Posted, LedgerError>)
      modifies this`journal
      ensures r == TryPost(old(journal), post, at)
      ensures journal == if r.Ok? then r.value.journal else old(journal)
    {
      var invalid := ValidateLines(post.lines);
      if invalid.Some? {
        return Err(invalid.value);
      }
      var existing := FindKey(journal, post.tenant, post.key);
      if existing.Some? {
        if journal[existing.value].post != post {
          return Err(KeyConflict);
        }
        return Ok(Posted(journal, existing.value, true));
      }
      var reversal := CheckReversal(journal, post);
      if reversal.Some? {
        return Err(reversal.value);
      }
      if exists i :: 0 <= i < |post.lines| && post.lines[i].account.tenant != post.tenant {
        return Err(AccountWrongTenant);
      }
      if Overdraws(journal, post.lines) {
        return Err(InsufficientFunds);
      }
      journal := journal + [Entry(post, at)];
      return Ok(Posted(journal, |journal| - 1, false));
    }

    /** `transition`: the single writer of a contest's state. */
    method MoveContest(id: nat, to: ContestState, actor: ActorKind, env: Env) returns (r: Result<Contest, Failure>)
      requires id in contests
      modifies this`contests
      ensures r == Transition(journal, id, old(contests)[id], to, actor, env)
      ensures contests == if r.Ok? then old(contests)[id := r.value] else old(contests)
    {
      var before := contests[id];
      var refused := CheckTransition(before, to, actor);
      if refused.Some? {
        return Err(refused.value);
      }
      var guarded := CheckGuard(journal, id, before, to, env.ruleset);
      if guarded.Some? {
        return Err(guarded.value);
      }
      var after := before.(state := to, settledAt := if to.Settled? then Some(env.at) else before.settledAt);
      contests := contests[id := after];
      return Ok(after);
    }

    // ---- Definition ------------------------------------------------------------------

    method CreateContest(tenant: nat, r: Request, env: Env) returns (result: Result<Record, Failure>)
      requires r.Create?
      modifies this`contests
      ensures Ran(old(State()), RunCreate(old(State()), tenant, r, env), result)
    {
      if exists id :: id in contests && contests[id].tenant == tenant && contests[id].externalId == r.externalId {
        return Err(ExternalIdTaken);
      }
      if Eligibility.OverLimit(env.ruleset.perContest, r.terms.entryAmount) {
        return Err(EntryAmountAboveLimit);
      }
      if env.freshId in contests {
        return Err(IdCollision);
      }
      contests := contests[env.freshId := Contest(tenant, r.externalId, r.asset, r.terms, Draft, None, [], [], [])];
      return Ok(ContestRecord(env.freshId));
    }

    /** What an operation did: the rows and record its specification gives, or its failure. */
    ghost predicate Ran(before: Db, expected: Result<(Db, Record), Failure>, result: Result<Record, Failure>)
      reads this
    {
      match expected
      case Ok((after, record)) => result == Ok(record) && State() == after
      case Err(e) => result == Err(e)
    }

    method UpdateContest(tenant: nat, r: Request) returns (result: Result<Record, Failure>)
      requires r.Update?
      modifies this`contests
      ensures Ran(old(State()), RunUpdate(old(State()), tenant, r), result)
    {
      var owned := Owned(State(), tenant, r.contest);
      if owned.Err? {
        return Err(owned.error);
      }
      var k := owned.value;
      if !k.state.Draft? {
        return Err(InvalidContestState);
      }
      var terms := Patched(k.terms, r.patch);
      if !LockAfterOpen(terms.opensAt, terms.locksAt) {
        return Err(InvalidInput);
      }
      contests := contests[r.contest := k.(terms := terms)];
      return Ok(ContestRecord(r.contest));
    }

    method TransitionContest(tenant: nat, r: Request, env: Env) returns (result: Result<Record, Failure>)
      requires r.MoveTo?
      modifies this`contests
      ensures Ran(old(State()), RunMove(old(State()), tenant, r, env), result)
    {
      var owned := Owned(State(), tenant, r.contest);
      if owned.Err? {
        return Err(owned.error);
      }
      var moved := MoveContest(r.contest, r.to, env.actor, env);
      if moved.Err? {
        return Err(moved.error);
      }
      return Ok(ContestRecord(r.contest));
    }

    // ---- Entries ---------------------------------------------------------------------

    /**
     * The stake escrowed and the participant's row inserted or reactivated; a refusal is
     * handed back to be recorded.
     */
    method EnterContest(tenant: nat, key: nat, r: Request, env: Env)
        returns (result: Result<Record, Failure>, refusal: Option<DecisionRow>)
      requires r.Enter?
      modifies this
      ensures Ran(old(State()), RunEnter(old(State()), tenant, key, r, env), result)
      ensures keys == old(keys)
      ensures refusal == if result.Err? && result.error.NotEligible?
        then Some(DecisionRow(tenant, r.contest, r.user, result.error.decision)) else None
    {
      refusal := None;
      var owned := Owned(State(), tenant, r.contest);
      if owned.Err? {
        return Err(owned.error), None;
      }
      var k := owned.value;
      if !k.state.Open? || LockTimePassed(k.terms, env.now.ms) {
        return Err(ContestNotOpen), None;
      }
      var existing := FindParticipant(k.participants, r.user);
      if existing.Some? && Active(k.participants[existing.value]) {
        return Err(AlreadyEntered), None;
      }
      if Full(k) {
        return Err(ContestFull), None;
      }
      var decision := Eligibility.Evaluate(EntryInput(journal, k, r.user, env));
      var toRecord := DecisionRow(tenant, r.contest, r.user, decision);
      if decision.Refused? {
        return Err(NotEligible(decision)), Some(toRecord);
      }
      decisions := decisions + [toRecord];
      var posted := PostEntry(EscrowPost(tenant, k.asset, r.contest, r.user, k.terms.entryAmount, key), env.at);
      if posted.Err? {
        return Err(LedgerRefused(posted.error)), None;
      }
      var p := Participant(r.user, r.teamRef, r.seed, posted.value.entry, Entered);
      var participants := k.participants;
      var place := |participants|;
      if existing.None? {
        participants := participants + [p];
      } else {
        place := existing.value;
        participants := participants[place := p];
      }
      contests := contests[r.contest := k.(participants := participants)];
      return Ok(EntryRecord(r.contest, place, posted.value.entry, |decisions| - 1)), None;
    }

    method WithdrawEntry(tenant: nat, key: nat, r: Request, env: Env) returns (result: Result<Record, Failure>)
      requires r.Withdraw?
      modifies this`contests, this`journal
      ensures Ran(old(State()), RunWithdraw(old(State()), tenant, key, r, env), result)
    {
      var owned := Owned(State(), tenant, r.contest);
      if owned.Err? {
        return Err(owned.error);
      }
      var k := owned.value;
      if !k.state.Open? || LockTimePassed(k.terms, env.now.ms) {
        return Err(InvalidContestState);
      }
      var before := FindParticipant(k.participants, r.user);
      if before.None? {
        return Err(NotAParticipant);
      }
      if !k.participants[before.value].state.Entered? {
        return Err(ParticipantNotActive);
      }
      var refund := PostEntry(RefundPost(tenant, k.asset, r.contest, r.user, k.terms.entryAmount, key), env.at);
      if refund.Err? {
        return Err(LedgerRefused(refund.error));
      }
      var after := k.participants[before.value].(state := Withdrawn);
      contests := contests[r.contest := k.(participants := k.participants[before.value := after])];
      return Ok(WithdrawalRecord(r.contest, before.value, refund.value.entry));
    }

    // ---- Scores ----------------------------------------------------------------------

    method SubmitScores(tenant: nat, r: Request, env: Env) returns (result: Result<Record, Failure>)
      requires r.SubmitScores?
      modifies this`contests, this`journal
      ensures Ran(old(State()), RunScores(old(State()), tenant, r, env), result)
    {
      var owned := Owned(State(), tenant, r.contest);
      if owned.Err? {
        return Err(owned.error);
      }
      var k := owned.value;
      if !k.state.InProgress? && !k.state.AwaitingSettlement? {
        return Err(ScoresNotAccepted);
      }
      var unscorable := L.FirstUnscorable(k.participants, r.batch);
      if unscorable.Some? {
        return Err(unscorable.value);
      }
      if FinishedAlready(k.scores, r.batch) {
        return Err(AttemptAlreadyFinished);
      }
      var scores := L.Supersede(k.scores, r.batch, env.at);
      contests := contests[r.contest := k.(scores := scores)];
      var advanced := MaybeAdvance(r.contest, env);
      if advanced.Err? {
        return Err(advanced.error);
      }
      return Ok(ScoresRecord(r.contest, seq(|r.batch|, i => |k.scores| + i), contests[r.contest].state.Settled?));
    }

    /** `maybeAdvance`: `current` follows the contest as it moves on. */
    method MaybeAdvance(id: nat, env: Env) returns (r: Result<Contest, Failure>)
      requires id in contests
      modifies this`contests, this`journal
      ensures match Advance(old(journal), id, old(contests)[id], env)
              case Ok((after, k)) => r == Ok(k) && journal == after && contests == old(contests)[id := k]
              case Err(e) => r == Err(e)
    {
      if !AllExpectedResults(contests[id]) {
        assert contests == old(contests)[id := contests[id]];
        return Ok(contests[id]);
      }
      r := AwaitSettlement(id, env);
      if r.Ok? {
        ghost var awaited := contests;
        r := SettleIfAuto(id, env);
        if r.Ok? {
          L.SetTwice(old(contests), id, awaited[id], r.value);
        }
      }
    }

    /** Complete results take a contest in progress to `awaiting_settlement`. */
    method AwaitSettlement(id: nat, env: Env) returns (r: Result<Contest, Failure>)
      requires id in contests
      modifies this`contests
      ensures r == Awaits(journal, id, old(contests)[id], env)
      ensures r.Ok? ==> contests == old(contests)[id := r.value]
    {
      if contests[id].state.InProgress? {
        r := MoveContest(id, AwaitingSettlement, System, env);
      } else {
        assert contests == old(contests)[id := contests[id]];
        r := Ok(contests[id]);
      }
    }

    /** The end of `maybeAdvance`: a contest that waits under `auto` is settled there and then. */
    method SettleIfAuto(id: nat, env: Env) returns (r: Result<Contest, Failure>)
      requires id in contests
      modifies this`contests, this`journal
      ensures match Contests.SettleIfAuto(old(journal), id, old(contests)[id], env)
              case Ok((after, k)) => r == Ok(k) && journal == after && contests == old(contests)[id := k]
              case Err(e) => r == Err(e)
    {
      if contests[id].state.AwaitingSettlement? && contests[id].terms.policy.Auto? {
        var settled := ExecuteSettlement(id, System, None, env);
        if settled.Err? {
          return Err(settled.error);
        }
      } else {
        assert contests == old(contests)[id := contests[id]];
      }
      return Ok(contests[id]);
    }

    // ---- Settlement ------------------------------------------------------------------

    /** `executeSettlement`: everything between `awaiting_settlement` and `settled`, in one transaction. */
    method ExecuteSettlement(id: nat, actor: ActorKind, expected: Option<Digest>, env: Env)
        returns (r: Result<Preview, Failure>)
      requires id in contests
      modifies this`contests, this`journal
      ensures match Contests.ExecuteSettlement(old(journal), id, old(contests)[id], actor, expected, env)
              case Ok(o) => r == Ok(o.preview) && journal == o.journal && contests == old(contests)[id := o.contest]
              case Err(e) => r == Err(e)
    {
      var moved := MoveContest(id, Settling, actor, env);
      if moved.Err? {
        return Err(moved.error);
      }
      ghost var settling := contests;
      r := SettleBehindHash(id, actor, expected, env);
      L.SetTwice(old(contests), id, settling[id], contests[id]);
    }

    /** The recomputed preview, unless the caller presented another's hash. */
    method CheckAgainst(id: nat, expected: Option<Digest>) returns (r: Result<Preview, Failure>)
      requires id in contests
      ensures r == CheckPreview(journal, id, contests[id], expected)
    {
      var computed := Compute(journal, id, contests[id]);
      if computed.Err? {
        return Err(computed.error);
      }
      if expected.Some? && expected.value != computed.value.hash {
        return Err(PreviewHashMismatch);
      }
      return computed;
    }

    method SettleBehindHash(id: nat, actor: ActorKind, expected: Option<Digest>, env: Env)
        returns (r: Result<Preview, Failure>)
      requires id in contests
      modifies this`contests, this`journal
      ensures match Contests.SettleBehindHash(old(journal), id, old(contests)[id], actor, expected, env)
              case Ok(o) => r == Ok(o.preview) && journal == o.journal && contests == old(contests)[id := o.contest]
              case Err(e) => r == Err(e)
      ensures id in contests
    {
      r := CheckAgainst(id, expected);
      if r.Ok? {
        ghost var outcome := Contests.PayOut(journal, id, contests[id], r.value, actor, env);
        L.BehindHash(journal, id, contests[id], actor, expected, env, r.value, outcome);
        var paid := PayOut(id, r.value, actor, env);
        if paid.Err? {
          r := Err(paid.error);
        }
      }
    }

    method PayOut(id: nat, preview: Preview, actor: ActorKind, env: Env) returns (r: Result<(), Failure>)
      requires id in contests
      modifies this`contests, this`journal
      ensures match Contests.PayOut(old(journal), id, old(contests)[id], preview, actor, env)
              case Ok(o) => r == Ok(()) && journal == o.journal && contests == old(contests)[id := o.contest]
              case Err(e) => r == Err(e)
      ensures id in contests
    {
      var settling := contests[id];
      var raked := TakeRake(id, settling, preview.rake, env.at);
      if raked.Err? {
        return Err(raked.error);
      }
      var paid := SettleEscrow(id, settling, preview.payouts, env.at);
      if paid.Err? {
        return Err(paid.error);
      }
      var results := L.Results(preview, paid.value);
      contests := contests[id := settling.(results := results)];
      var settled := MoveContest(id, Settled, actor, env);
      if settled.Err? {
        return Err(settled.error);
      }
      return Ok(());
    }

    /** The rake's own entry, posted before the settlement. */
    method TakeRake(id: nat, settling: Contest, rake: int, at: int) returns (r: Result<(), Failure>)
      modifies this`journal
      ensures match PostRake(old(journal), id, settling, rake, at)
              case Ok(after) => r == Ok(()) && journal == after
              case Err(e) => r == Err(e)
    {
      if rake > 0 {
        var posted := PostEntry(RakePost(settling.tenant, settling.asset, id, rake), at);
        if posted.Err? {
          return Err(LedgerRefused(posted.error));
        }
      }
      return Ok(());
    }

    /** One entry paying every winner, or none when nobody is owed anything. */
    method SettleEscrow(id: nat, settling: Contest, payouts: seq<S.Payout>, at: int)
        returns (r: Result<Option<nat>, Failure>)
      modifies this`journal
      ensures match PostPayouts(old(journal), id, settling, payouts, at)
              case Ok((after, entry)) => r == Ok(entry) && journal == after
              case Err(e) => r == Err(e)
    {
      var paid := L.FilterPaid(payouts);
      if |paid| == 0 {
        return Ok(None);
      }
      var lines := L.SettleLines(settling.tenant, settling.asset, id, paid);
      var posted := PostEntry(Post(settling.tenant, SettleEntry, SettleKey(id), Some(id), None, lines), at);
      if posted.Err? {
        return Err(LedgerRefused(posted.error));
      }
      return Ok(Some(posted.value.entry));
    }

    method CloseContest(tenant: nat, r: Request, env: Env) returns (result: Result<Record, Failure>)
      requires r.Close?
      modifies this`contests, this`journal
      ensures Ran(old(State()), RunClose(old(State()), tenant, r, env), result)
    {
      var owned := Owned(State(), tenant, r.contest);
      if owned.Err? {
        return Err(owned.error);
      }
      if owned.value.state.Settled? {
        return Err(AlreadySettled);
      }
      var settled := ExecuteSettlement(r.contest, env.actor, Some(r.hash), env);
      if settled.Err? {
        return Err(settled.error);
      }
      return Ok(ContestRecord(r.contest));
    }

    method VoidContest(tenant: nat, r: Request, env: Env) returns (result: Result<Record, Failure>)
      requires r.VoidContest?
      modifies this`contests, this`journal
      ensures Ran(old(State()), RunVoid(old(State()), tenant, r, env), result)
    {
      var owned := Owned(State(), tenant, r.contest);
      if owned.Err? {
        return Err(owned.error);
      }
      var k := owned.value;
      if k.state.Voided? {
        return Err(AlreadyVoided);
      }
      var refused := CheckTransition(k, Voided, env.actor);
      if refused.Some? {
        return Err(refused.value);
      }
      var refunded := RefundEach(r.contest, k, ActivePlaces(k.participants), env.at);
      if refunded.Err? {
        return Err(refunded.error);
      }
      var moved := MoveContest(r.contest, Voided, env.actor, env);
      if moved.Err? {
        return Err(moved.error);
      }
      return Ok(VoidRecord(r.contest, refunded.value));
    }

    /** One reversal per participant still in, pushed onto the list of refunds. */
    method RefundEach(id: nat, k: Contest, places: seq<nat>, at: int) returns (r: Result<seq<nat>, Failure>)
      requires forall i | 0 <= i < |places| :: places[i] < |k.participants|
      modifies this`journal
      ensures match VoidEach(old(journal), id, k, places, at)
              case Ok((after, refunds)) => r == Ok(refunds) && journal == after
              case Err(e) => r == Err(e)
    {
      var refunds: seq<nat> := [];
      for i := 0 to |places|
        invariant VoidEach(old(journal), id, k, places[..i], at) == Ok((journal, refunds))
      {
        assert places[..i + 1][..i] == places[..i];
        var posted := RefundOne(k.tenant, k.participants[places[i]].entry, VoidKey(id, places[i]), at);
        if posted.Err? {
          L.VoidStops(old(journal), id, k, places, i + 1, at);
          return Err(LedgerRefused(posted.error));
        }
        refunds := refunds + [posted.value.entry];
      }
      assert places[..|places|] == places;
      return Ok(refunds);
    }

    /** `voidEscrow`. */
    method RefundOne(tenant: nat, entry: nat, key: LedgerKey, at: int) returns (r: Result<Posted, LedgerError>)
      modifies this`journal
      ensures r == TryVoid(old(journal), tenant, entry, key, at)
      ensures journal == if r.Ok? then r.value.journal else old(journal)
    {
      if entry >= |journal| {
        return Err(EntryNotFound);
      }
      var original := journal[entry].post;
      if original.tenant != tenant {
        return Err(EntryWrongTenant);
      }
      if original.kind != EscrowEntry {
        return Err(NotReversible);
      }
      r := PostEntry(Post(tenant, VoidEntry, key, original.contest, Some(entry), Mirror(original.lines)), at);
    }

    // ---- One request -----------------------------------------------------------------

    method RunOperation(cmd: Command) returns (result: Result<Record, Failure>, refusal: Option<DecisionRow>)
      modifies this
      ensures Ran(old(State()), Run(old(State()), cmd), result)
      ensures refusal == if result.Err? && result.error.NotEligible? && cmd.request.Enter?
        then Some(DecisionRow(cmd.tenant, cmd.request.contest, cmd.request.user, result.error.decision)) else None
    {
      refusal := None;
      match cmd.request
      case Create(_, _, _) => result := CreateContest(cmd.tenant, cmd.request, cmd.env);
      case Update(_, _) => result := UpdateContest(cmd.tenant, cmd.request);
      case MoveTo(_, _) => result := TransitionContest(cmd.tenant, cmd.request, cmd.env);
      case Enter(_, _, _, _) => result, refusal := EnterContest(cmd.tenant, cmd.key, cmd.request, cmd.env);
      case Withdraw(_, _) => result := WithdrawEntry(cmd.tenant, cmd.key, cmd.request, cmd.env);
      case SubmitScores(_, _) => result := SubmitScores(cmd.tenant, cmd.request, cmd.env);
      case Close(_, _) => result := CloseContest(cmd.tenant, cmd.request, cmd.env);
      case VoidContest(_) => result := VoidContest(cmd.tenant, cmd.request, cmd.env);
    }

    /** A request end to end: checked, looked up by key, run in a transaction, recorded or rolled back. */
    method Handle(cmd: Command) returns (reply: Reply)
      modifies this
      ensures (State(), reply) == Step(old(State()), cmd)
    {
      var invalid := CheckInput(cmd.request);
      if invalid.Some? {
        return Failed(invalid.value);
      }
      var name := (cmd.tenant, cmd.key);
      if name in keys {
        if keys[name].request != cmd.request {
          return Failed(IdempotencyConflict);
        }
        return Replayed(keys[name].record);
      }
      var saved := State();
      var result, refusal := RunOperation(cmd);
      if result.Err? {
        contests, journal, keys, decisions := saved.contests, saved.journal, saved.keys, saved.decisions;
        if refusal.Some? {
          decisions := decisions + [refusal.value];
        }
        return Failed(result.error);
      }
      keys := keys[name := KeyRow(cmd.request, result.value)];
      return Done(result.value);
    }

    method CheckInput(r: Request) returns (refused: Option<Failure>)
      ensures refused == CheckRequest(r)
    {
      if r.SubmitScores? {
        refused := L.ValidateSubmissions(r.batch);
      } else {
        refused := CheckRequest(r);
      }
    }
  }
}
