/** The loops of scores.ts and settlement.ts, each computing what `Contests` defines. */
module PurseLoops {
  import opened Common
  import opened Ledger
  import opened Contests
  import S = Settlement

  /** `validateSubmissions`: a set of the users seen so far finds the first repeat. */
  method ValidateSubmissions(batch: seq<Submission>) returns (refused: Option<Failure>)
    ensures refused == CheckBatch(batch)
  {
    if |batch| == 0 || |batch| > 1000 {
      return Some(InvalidInput);
    }
    var seen: set<nat> := {};
    for i := 0 to |batch|
      invariant seen == set j | 0 <= j < i :: batch[j].user
      invariant DistinctSubmitters(batch[..i])
    {
      if batch[i].user in seen {
        return Some(DuplicateUser);
      }
      seen := seen + {batch[i].user};
    }
    assert batch[..|batch|] == batch;
    return None;
  }

  /** The check over submitted users, in submission order. */
  method FirstUnscorable(ps: seq<Participant>, batch: seq<Submission>) returns (refused: Option<Failure>)
    ensures refused == CheckScored(ps, batch)
  {
    for i := 0 to |batch|
      invariant CheckScored(ps, batch) == CheckScored(ps, batch[i..])
    {
      var place := FindParticipant(ps, batch[i].user);
      if place.None? {
        return Some(NotAParticipant);
      }
      if !ps[place.value].state.Entered? {
        return Some(ParticipantNotActive);
      }
      assert batch[i..][1..] == batch[i + 1..];
    }
    return None;
  }

  /** Insert the batch, then point each earlier counting row of a submitted user at its successor. */
  method Supersede(rows: seq<ScoreRow>, batch: seq<Submission>, at: int) returns (after: seq<ScoreRow>)
    ensures after == WithScores(rows, batch, at)
  {
    after := rows + seq(|batch|, i requires 0 <= i < |batch| =>
        ScoreRow(batch[i].user, batch[i].score, batch[i].finished, at, None));
    for i := 0 to |rows|
      invariant |after| == |rows| + |batch|
      invariant forall j | 0 <= j < i :: after[j] == WithScores(rows, batch, at)[j]
      invariant forall j | i <= j < |rows| :: after[j] == rows[j]
      invariant forall j | |rows| <= j < |after| :: after[j] == WithScores(rows, batch, at)[j]
    {
      if rows[i].supersededBy.None? {
        var successor := SubmissionOf(batch, rows[i].user);
        if successor.Some? {
          after := after[i := rows[i].(supersededBy := Some(|rows| + successor.value))];
        }
      }
    }
  }

  method FilterPaid(payouts: seq<S.Payout>) returns (paid: seq<S.Payout>)
    ensures paid == Paid(payouts)
  {
    paid := [];
    for i := 0 to |payouts|
      invariant paid == Paid(payouts[..i])
    {
      assert payouts[..i + 1][..i] == payouts[..i];
      if payouts[i].payout > 0 {
        paid := paid + [payouts[i]];
      }
    }
    assert payouts[..|payouts|] == payouts;
  }

  /** The settle entry's lines: the wallets' credits pushed one by one, and their total debited. */
  method SettleLines(tenant: nat, asset: Asset, id: nat, paid: seq<S.Payout>) returns (lines: seq<Line>)
    ensures lines == SettlePost(tenant, asset, id, paid).lines
  {
    var credits: seq<Line> := [];
    var total := 0;
    for i := 0 to |paid|
      invariant total == PayTotal(paid[..i])
      invariant |credits| == i && forall j | 0 <= j < i :: credits[j] == Credits(tenant, asset, paid)[j]
    {
      assert paid[..i + 1][..i] == paid[..i];
      credits := credits + [Line(Wallet(tenant, asset, paid[i].user), Credit, paid[i].payout)];
      total := total + paid[i].payout;
    }
    assert paid[..|paid|] == paid;
    lines := [Line(Escrow(tenant, asset, id), Debit, total)] + credits;
    assert credits == Credits(tenant, asset, paid);
  }

  /** One result row per payout; the scores come from a map filled from the preview's entries. */
  method Results(p: Preview, entry: Option<nat>) returns (rows: seq<ResultRow>)
    ensures rows == ResultRows(p, entry)
  {
    var scoreOf := ScoresByUser(p.entries);
    rows := [];
    for i := 0 to |p.payouts|
      invariant |rows| == i && forall j | 0 <= j < i :: rows[j] == ResultRows(p, entry)[j]
    {
      var each := p.payouts[i];
      var score := if each.user in scoreOf then scoreOf[each.user] else None;
      rows := rows + [ResultRow(each.user, each.placement, score, each.payout, if each.payout > 0 then entry
          else None)];
    }
  }

  method ScoresByUser(entries: seq<PreviewEntry>) returns (scoreOf: map<nat, Option<real>>)
    ensures forall u: nat :: ScoreOf(entries, u) == if u in scoreOf then scoreOf[u] else None
  {
    scoreOf := map[];
    for i := 0 to |entries|
      invariant forall u: nat :: ScoreOf(entries[..i], u) == if u in scoreOf then scoreOf[u] else None
    {
      assert entries[..i + 1][..i] == entries[..i];
      scoreOf := scoreOf[entries[i].user := entries[i].score];
    }
    assert entries[..|entries|] == entries;
  }

  /** A refund that fails stops the whole void. */
  lemma {:induction false} VoidStops(journal: Journal, id: nat, k: Contest, places: seq<nat>, n: nat, at: int)
    requires forall i | 0 <= i < |places| :: places[i] < |k.participants|
    requires n <= |places| && VoidEach(journal, id, k, places[..n], at).Err?
    ensures VoidEach(journal, id, k, places, at) == VoidEach(journal, id, k, places[..n], at)
    decreases |places|
  {
    if n < |places| {
      var front := places[..|places| - 1];
      assert front[..n] == places[..n];
      VoidStops(journal, id, k, front, n, at);
    } else {
      assert places[..n] == places;
    }
  }

  /** A row written twice keeps the second. */
  lemma {:induction false} SetTwice(rows: map<nat, Contest>, id: nat, first: Contest, second: Contest)
    ensures rows[id := first][id := second] == rows[id := second]
  {
  }

  /** Behind a preview that was not refused, the settlement is the paying out of it. */
  lemma {:induction false} BehindHash(journal: Journal, id: nat, k: Contest, actor: ActorKind, expected: Option<Digest>,
      env: Env, p: Preview, outcome: Result<Outcome, Failure>)
    requires CheckPreview(journal, id, k, expected) == Ok(p) && outcome == PayOut(journal, id, k, p, actor, env)
    ensures SettleBehindHash(journal, id, k, actor, expected, env) == outcome
    ensures outcome.Ok? ==> outcome.value.preview == p
  {
  }
}
