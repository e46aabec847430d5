/** What a settlement pays, when it goes through, and that it leaves the contest's books right. */
module ContestSettlement {
  import opened Common
  import opened Ledger
  import opened Contests
  import opened ContestInvariant
  import opened ContestSteps
  import S = Settlement
  import T = SettlementTheorems

  // ---- The reckoning -----------------------------------------------------------------

  /** Everyone still in is an entrant once, under their own name. */
  lemma {:induction false} EntrantsDistinct(k: Contest)
    requires Roster(k)
    ensures S.DistinctUsers(Entrants(ToEntries(k.participants, k.scores)))
  {
    var ps, places := k.participants, ActivePlaces(k.participants);
    ActivePlacesFacts(ps);
    forall i, j | 0 <= i < j < |places|
      ensures Entrants(ToEntries(ps, k.scores))[i].user != Entrants(ToEntries(ps, k.scores))[j].user
    {
      assert places[i] < places[j];
      assert ps[places[i]].user != ps[places[j]].user;
    }
  }

  lemma {:induction false} RakeFitsTwice(gross: nat, bps: int)
    requires 0 <= bps <= 5000
    ensures ApplyBps(gross, bps) <= gross - ApplyBps(gross, bps)
  {
    if bps > 0 {
      assert gross * bps <= gross * 5000;
      assert gross * bps / 10_000 <= gross * 5000 / 10_000 by {
        DivMonotone(gross * bps, gross * 5000, 10_000);
      }
    }
  }

  /** A valid contest's stakes always divide: nothing about scores or numbers of entrants can stop the reckoning. */
  lemma {:induction false} ReckonFacts(k: Contest)
    requires Roster(k)
    ensures Reckon(k).Ok?
    ensures var p := Reckon(k).value;
      && p.gross == ActiveCount(k.participants) * k.terms.entryAmount
      && p.rake == ApplyBps(if p.gross >= 0 then p.gross else 0, k.terms.rakeBps) && p.net == p.gross - p.rake
      && 0 <= p.rake <= p.net
      && p.entries == ToEntries(k.participants, k.scores)
      && S.Settle(p.net, Entrants(p.entries), k.terms.prize, k.terms.tieBreak) == Ok(p.payouts)
      && p.hash == PayoutHash(p.payouts)
  {
    StakesNonNegative(ActiveCount(k.participants), k.terms.entryAmount);
    var p := ComputeFromFacts(ActiveCount(k.participants) * k.terms.entryAmount, k);
  }

  lemma {:induction false} StakesNonNegative(n: nat, amount: int)
    requires amount > 0
    ensures n * amount >= 0
    ensures n == 0 ==> n * amount == 0
  {
  }

  lemma {:induction false} ComputeFromFacts(gross: nat, k: Contest) returns (p: Preview)
    requires Roster(k) && (ActiveCount(k.participants) == 0 ==> gross == 0)
    ensures ComputeFrom(gross, k) == Ok(p)
    ensures p.gross == gross && p.rake == ApplyBps(gross, k.terms.rakeBps) && p.net == gross - p.rake
      && 0 <= p.rake <= p.net
    ensures p.entries == ToEntries(k.participants, k.scores)
    ensures S.Settle(p.net, Entrants(p.entries), k.terms.prize, k.terms.tieBreak) == Ok(p.payouts)
    ensures p.hash == PayoutHash(p.payouts)
  {
    RakeFitsTwice(gross, k.terms.rakeBps);
    p := ComputeWith(gross, ApplyBps(gross, k.terms.rakeBps), k);
  }

  lemma {:induction false} ComputeWith(gross: nat, rake: nat, k: Contest) returns (p: Preview)
    requires Roster(k) && (ActiveCount(k.participants) == 0 ==> gross == 0)
    requires rake == ApplyBps(gross, k.terms.rakeBps) && rake <= gross - rake
    ensures ComputeFrom(gross, k) == Ok(p)
    ensures p.gross == gross && p.rake == rake && p.net == gross - rake
    ensures p.entries == ToEntries(k.participants, k.scores)
    ensures S.Settle(p.net, Entrants(p.entries), k.terms.prize, k.terms.tieBreak) == Ok(p.payouts)
    ensures p.hash == PayoutHash(p.payouts)
  {
    var payouts := RosterSettles(gross - rake, k);
    var entries := ToEntries(k.participants, k.scores);
    ComputeFromIs(gross, k, rake, entries, payouts);
    p := Preview(gross, rake, gross - rake, entries, payouts, PayoutHash(payouts));
  }

  lemma {:induction false} ComputeFromIs(gross: nat, k: Contest, rake: int, entries: seq<PreviewEntry>,
      payouts: seq<S.Payout>)
    requires rake == ApplyBps(gross, k.terms.rakeBps) && entries == ToEntries(k.participants, k.scores)
    requires S.Settle(gross - rake, Entrants(entries), k.terms.prize, k.terms.tieBreak) == Ok(payouts)
    ensures ComputeFrom(gross, k) == Ok(Preview(gross, rake, gross - rake, entries, payouts, PayoutHash(payouts)))
  {
  }

  lemma {:induction false} RosterSettles(net: nat, k: Contest) returns (payouts: seq<S.Payout>)
    requires Roster(k) && (ActiveCount(k.participants) == 0 ==> net == 0)
    ensures S.Settle(net, Entrants(ToEntries(k.participants, k.scores)), k.terms.prize, k.terms.tieBreak) == Ok(payouts)
  {
    EntrantsDistinct(k);
    payouts := SettleGoes(net, Entrants(ToEntries(k.participants, k.scores)), k.terms.prize, k.terms.tieBreak);
  }

  lemma {:induction false} SettleGoes(net: nat, entrants: seq<S.Entrant>, prize: S.PrizeStructure, rule: S.TieBreak)
      returns (payouts: seq<S.Payout>)
    requires S.ValidStructure(prize) && S.DistinctUsers(entrants) && (entrants == [] ==> net == 0)
    ensures S.Settle(net, entrants, prize, rule) == Ok(payouts)
  {
    T.SettleTotal(net, entrants, prize, rule);
    payouts := S.Settle(net, entrants, prize, rule).value;
  }

  /** The payouts share out exactly the net pool, one to each participant still in. */
  lemma {:induction false} ReckonPays(k: Contest)
    requires Roster(k) && Reckon(k).Ok?
    ensures var p := Reckon(k).value;
      && PayTotal(p.payouts) == p.net
      && |p.payouts| == ActiveCount(k.participants)
      && (forall i | 0 <= i < |p.payouts| :: p.payouts[i].payout >= 0)
  {
    ReckonFacts(k);
    var p := Reckon(k).value;
    T.Conservation(p.net, Entrants(p.entries), k.terms.prize, k.terms.tieBreak);
    T.OnePayoutPerEntrant(p.net, Entrants(p.entries), k.terms.prize, k.terms.tieBreak);
    PayTotalIsSum(p.payouts);
  }

  lemma {:induction false} PayTotalIsSum(payouts: seq<S.Payout>)
    ensures PayTotal(payouts) == T.TotalPaid(payouts)
  {
    if payouts != [] {
      PayTotalIsSum(payouts[..|payouts| - 1]);
      assert T.Amounts(payouts)[..|payouts| - 1] == T.Amounts(payouts[..|payouts| - 1]);
    }
  }

  // ---- Payouts as journal lines ------------------------------------------------------

  /** What a list of payouts gives one user. */
  function PaidTo(payouts: seq<S.Payout>, user: nat): int {
    if payouts == [] then 0
    else
      var last := payouts[|payouts| - 1];
      PaidTo(payouts[..|payouts| - 1], user) + if last.user == user then last.payout else 0
  }

  lemma {:induction false} PaidToPush(payouts: seq<S.Payout>, p: S.Payout, user: nat)
    ensures PaidTo(payouts + [p], user) == PaidTo(payouts, user) + if p.user == user then p.payout else 0
    ensures PayTotal(payouts + [p]) == PayTotal(payouts) + p.payout
  {
    assert (payouts + [p])[..|payouts|] == payouts;
  }

  lemma {:induction false} PaidFront(payouts: seq<S.Payout>)
    requires payouts != []
    ensures var front, last := payouts[..|payouts| - 1], payouts[|payouts| - 1];
      Paid(payouts) == if last.payout > 0 then Paid(front) + [last] else Paid(front)
  {
  }

  lemma {:induction false} PaidKeepsUser(payouts: seq<S.Payout>, user: nat)
    requires forall i | 0 <= i < |payouts| :: payouts[i].payout >= 0
    ensures PaidTo(Paid(payouts), user) == PaidTo(payouts, user)
  {
    if payouts != [] {
      PaidFront(payouts);
      PaidKeepsUser(payouts[..|payouts| - 1], user);
      PaidToPush(Paid(payouts[..|payouts| - 1]), payouts[|payouts| - 1], user);
    }
  }

  lemma {:induction false} PaidKeepsTotal(payouts: seq<S.Payout>)
    requires forall i | 0 <= i < |payouts| :: payouts[i].payout >= 0
    ensures PayTotal(Paid(payouts)) == PayTotal(payouts) >= 0
  {
    if payouts != [] {
      PaidFront(payouts);
      PaidKeepsTotal(payouts[..|payouts| - 1]);
      PaidToPush(Paid(payouts[..|payouts| - 1]), payouts[|payouts| - 1], 0);
    }
  }

  lemma {:induction false} PaidBounds(payouts: seq<S.Payout>)
    requires forall i | 0 <= i < |payouts| :: payouts[i].payout >= 0
    ensures forall i | 0 <= i < |Paid(payouts)| :: 0 < Paid(payouts)[i].payout <= PayTotal(payouts)
  {
    if payouts != [] {
      var front := payouts[..|payouts| - 1];
      PaidFront(payouts);
      PaidKeepsTotal(front);
      PaidBounds(front);
    }
  }

  /** Leaving out the payouts of nothing changes no total. */
  lemma {:induction false} PaidKeepsTotals(payouts: seq<S.Payout>, user: nat)
    requires forall i | 0 <= i < |payouts| :: payouts[i].payout >= 0
    ensures PaidTo(Paid(payouts), user) == PaidTo(payouts, user)
    ensures PayTotal(Paid(payouts)) == PayTotal(payouts) >= 0
    ensures forall i | 0 <= i < |Paid(payouts)| :: 0 < Paid(payouts)[i].payout <= PayTotal(payouts)
  {
    PaidKeepsUser(payouts, user);
    PaidKeepsTotal(payouts);
    PaidBounds(payouts);
  }

  lemma {:induction false} ResultsPay(p: Preview, entry: Option<nat>, n: nat, user: nat)
    requires n <= |p.payouts|
    ensures PayoutOf(ResultRows(p, entry)[..n], user) == PaidTo(p.payouts[..n], user)
  {
    if n > 0 {
      ResultsPay(p, entry, n - 1, user);
      assert ResultRows(p, entry)[..n][..n - 1] == ResultRows(p, entry)[..n - 1];
      assert p.payouts[..n][..n - 1] == p.payouts[..n - 1];
    }
  }

  lemma {:induction false} ResultsPayAll(p: Preview, entry: Option<nat>, user: nat)
    ensures PayoutOf(ResultRows(p, entry), user) == PaidTo(p.payouts, user)
  {
    ResultsPay(p, entry, |p.payouts|, user);
    assert ResultRows(p, entry)[..|p.payouts|] == ResultRows(p, entry);
    assert p.payouts[..|p.payouts|] == p.payouts;
  }

  lemma {:induction false} CreditsPush(tenant: nat, asset: Asset, payouts: seq<S.Payout>, p: S.Payout)
    ensures Credits(tenant, asset, payouts + [p])
      == Credits(tenant, asset, payouts) + [Line(Wallet(tenant, asset, p.user), Credit, p.payout)]
  {
  }

  /** The settle entry's lines with a payout more. */
  function SettleLines(tenant: nat, asset: Asset, id: nat, total: int, payouts: seq<S.Payout>): seq<Line> {
    [Line(Escrow(tenant, asset, id), Debit, total)] + Credits(tenant, asset, payouts)
  }

  lemma {:induction false} SettleLinesPush(tenant: nat, asset: Asset, id: nat, total: int, payouts: seq<S.Payout>,
      p: S.Payout)
    ensures SettleLines(tenant, asset, id, total, payouts + [p])
         == SettleLines(tenant, asset, id, total, payouts) + [Line(Wallet(tenant, asset, p.user), Credit, p.payout)]
  {
    CreditsPush(tenant, asset, payouts, p);
  }

  /** A settle entry takes its total from the escrow and gives each wallet its user's payouts. */
  lemma {:induction false} SettleDelta(tenant: nat, asset: Asset, id: nat, total: int, payouts: seq<S.Payout>,
      account: Account)
    ensures Delta(SettleLines(tenant, asset, id, total, payouts), account) ==
      if account == Escrow(tenant, asset, id) then -total
      else if account.Wallet? && account.tenant == tenant && account.asset == asset then PaidTo(payouts, account.user)
      else 0
  {
    if payouts == [] {
      assert SettleLines(tenant, asset, id, total, payouts) == [] + [Line(Escrow(tenant, asset, id), Debit, total)];
      DeltaPush([], Line(Escrow(tenant, asset, id), Debit, total), account);
    } else {
      var front, last := payouts[..|payouts| - 1], payouts[|payouts| - 1];
      SettleDelta(tenant, asset, id, total, front, account);
      assert payouts == front + [last];
      SettleLinesPush(tenant, asset, id, total, front, last);
      DeltaPush(SettleLines(tenant, asset, id, total, front),
          Line(Wallet(tenant, asset, last.user), Credit, last.payout), account);
    }
  }

  lemma {:induction false} SettleSides(tenant: nat, asset: Asset, id: nat, total: int, payouts: seq<S.Payout>)
    ensures SideTotal(SettleLines(tenant, asset, id, total, payouts), Debit) == total
    ensures SideTotal(SettleLines(tenant, asset, id, total, payouts), Credit) == PayTotal(payouts)
  {
    if payouts == [] {
      var line := Line(Escrow(tenant, asset, id), Debit, total);
      assert SettleLines(tenant, asset, id, total, payouts) == [] + [line];
      SideTotalPush([], line, Debit);
      SideTotalPush([], line, Credit);
    } else {
      var front, last := payouts[..|payouts| - 1], payouts[|payouts| - 1];
      var line := Line(Wallet(tenant, asset, last.user), Credit, last.payout);
      SettleSides(tenant, asset, id, total, front);
      assert payouts == front + [last];
      SettleLinesPush(tenant, asset, id, total, front, last);
      SideTotalPush(SettleLines(tenant, asset, id, total, front), line, Debit);
      SideTotalPush(SettleLines(tenant, asset, id, total, front), line, Credit);
    }
  }

  /** The settle entry is valid exactly when its total can be held in 64 bits. */
  lemma {:induction false} SettleLinesValid(tenant: nat, asset: Asset, id: nat, payouts: seq<S.Payout>)
    requires payouts != [] && forall i | 0 <= i < |payouts| :: 0 < payouts[i].payout <= PayTotal(payouts)
    ensures ValidateLines(SettleLines(tenant, asset, id, PayTotal(payouts), payouts))
         == if PayTotal(payouts) <= MAX_AMOUNT then None else Some(AmountTooLarge)
  {
    var lines := SettleLines(tenant, asset, id, PayTotal(payouts), payouts);
    SettleSides(tenant, asset, id, PayTotal(payouts), payouts);
    assert lines[0].amount == PayTotal(payouts);
    assert payouts[0].payout > 0;
    assert forall i | 1 <= i < |lines| :: lines[i].amount == payouts[i - 1].payout;
  }

  lemma {:induction false} FeeCreditsOfRake(tenant: nat, asset: Asset, id: nat, amount: int)
    ensures FeeCredits(RakePost(tenant, asset, id, amount).lines) == amount
  {
    var lines := RakePost(tenant, asset, id, amount).lines;
    assert lines[..1] == [lines[0]] && lines[..1][..0] == [];
    assert FeeCredits(lines[..1]) == 0;
  }

  // ---- Who is paid -------------------------------------------------------------------

  lemma {:induction false} PaidToNobody(payouts: seq<S.Payout>, user: nat)
    requires forall i | 0 <= i < |payouts| :: payouts[i].user != user
    ensures PaidTo(payouts, user) == 0
  {
    if payouts != [] {
      PaidToNobody(payouts[..|payouts| - 1], user);
    }
  }

  lemma {:induction false} PaidToNonNegative(payouts: seq<S.Payout>, user: nat)
    requires forall i | 0 <= i < |payouts| :: payouts[i].payout >= 0
    ensures PaidTo(payouts, user) >= 0
  {
    if payouts != [] {
      PaidToNonNegative(payouts[..|payouts| - 1], user);
    }
  }

  /** Every payout's user is a participant still in. */
  lemma {:induction false} PayeeIsActive(k: Contest, i: nat)
    requires Roster(k) && Reckon(k).Ok? && i < |Reckon(k).value.payouts|
    ensures var place := FindParticipant(k.participants, Reckon(k).value.payouts[i].user);
      place.Some? && Active(k.participants[place.value])
  {
    ReckonFacts(k);
    var p := Reckon(k).value;
    var entrants := Entrants(p.entries);
    PayeeEntered(p.net, entrants, k.terms.prize, k.terms.tieBreak, i);
    var j :| 0 <= j < |entrants| && entrants[j].user == p.payouts[i].user;
    var place := ActivePlaces(k.participants)[j];
    assert entrants[j].user == k.participants[place].user;
    FindIs(k.participants, place);
  }

  lemma {:induction false} PayeeEntered(net: int, entrants: seq<S.Entrant>, prize: S.PrizeStructure, rule: S.TieBreak,
      i: nat)
    requires S.Settle(net, entrants, prize, rule).Ok? && i < |S.Settle(net, entrants, prize, rule).value|
    ensures exists j :: 0 <= j < |entrants| && entrants[j].user == S.Settle(net, entrants, prize, rule).value[i].user
  {
    T.OnePayoutPerEntrant(net, entrants, prize, rule);
    var ordered := S.Ordered(entrants, rule);
    assert ordered[i] in multiset(ordered);
    assert ordered[i] in entrants;
  }

  /** Whoever is not in is paid nothing. */
  lemma {:induction false} OnlyEntrantsPaid(k: Contest, user: nat)
    requires Roster(k) && Reckon(k).Ok?
    requires var place := FindParticipant(k.participants, user); place.None? || !Active(k.participants[place.value])
    ensures PaidTo(Reckon(k).value.payouts, user) == 0
  {
    var payouts := Reckon(k).value.payouts;
    forall i | 0 <= i < |payouts| ensures payouts[i].user != user {
      PayeeIsActive(k, i);
    }
    PaidToNobody(payouts, user);
  }

  // ---- The settlement's entries ------------------------------------------------------

  ghost predicate KeyFree(journal: Journal, tenant: nat, key: LedgerKey) {
    forall i | 0 <= i < |journal| :: !(journal[i].post.tenant == tenant && journal[i].post.key == key)
  }

  /** A contest whose stakes can be settled: nothing paid, nothing recorded, its own ledger keys unused. */
  ghost predicate Ready(journal: Journal, id: nat, k: Contest) {
    && Roster(k) && k.state.AwaitingSettlement?
    && Accounted(journal, id, k) && StakesHeld(journal, id, k)
    && ScoreHistory(k.scores)
    && k.results == [] && RakeTaken(journal, id) == 0
    && EscrowsTagged(journal)
    && KeyFree(journal, k.tenant, RakeKey(id)) && KeyFree(journal, k.tenant, SettleKey(id))
  }

  function RakeEntries(id: nat, k: Contest, rake: int, at: int): seq<Entry> {
    if rake > 0 then [Entry(RakePost(k.tenant, k.asset, id, rake), at)] else []
  }

  function SettleEntries(id: nat, k: Contest, payouts: seq<S.Payout>, at: int): seq<Entry> {
    if Paid(payouts) == [] then [] else [Entry(SettlePost(k.tenant, k.asset, id, Paid(payouts)), at)]
  }

  /** Before it settles, a contest's escrow holds exactly its stakes, so preview and close reckon alike. */
  lemma {:induction false} ComputesReckoning(journal: Journal, id: nat, k: Contest)
    requires Accounted(journal, id, k) && EscrowsTagged(journal) && !Terminal(k.state)
    ensures Balance(journal, EscrowOf(id, k)) == ActiveCount(k.participants) * k.terms.entryAmount
    ensures Compute(journal, id, k) == Reckon(k)
  {
    EscrowIsOwn(journal, k.tenant, k.asset, id);
  }

  lemma {:induction false} RakePosted(journal: Journal, id: nat, k: Contest, rake: int, at: int)
    requires rake <= Balance(journal, EscrowOf(id, k)) && KeyFree(journal, k.tenant, RakeKey(id))
    ensures PostRake(journal, id, k, rake, at)
         == if rake <= MAX_AMOUNT then Ok(journal + RakeEntries(id, k, rake, at))
             else Err(LedgerRefused(AmountTooLarge))
  {
    var from, to := EscrowOf(id, k), PlatformFee(k.tenant, k.asset);
    var post := RakePost(k.tenant, k.asset, id, rake);
    if rake <= 0 {
      assert journal + [] == journal;
    } else if rake <= MAX_AMOUNT {
      MoveValid(from, to, rake);
      MoveCovered(journal, from, to, rake);
      assert forall i | 0 <= i < |post.lines| :: post.lines[i].account.tenant == post.tenant;
      PostSucceeds(journal, post, at);
    } else {
      assert post.lines[0].amount > MAX_AMOUNT;
      assert ValidateLines(post.lines) == Some(AmountTooLarge);
    }
  }

  lemma {:induction false} SettleCovered(journal: Journal, tenant: nat, asset: Asset, id: nat, paid: seq<S.Payout>)
    requires PayTotal(paid) <= Balance(journal, Escrow(tenant, asset, id))
    requires forall i | 0 <= i < |paid| :: paid[i].payout >= 0
    ensures !Overdraws(journal, SettleLines(tenant, asset, id, PayTotal(paid), paid))
  {
    var lines := SettleLines(tenant, asset, id, PayTotal(paid), paid);
    forall i | 0 <= i < |lines| && Delta(lines, lines[i].account) < 0
      ensures Balance(journal, lines[i].account) + Delta(lines, lines[i].account) >= 0
    {
      SettleDelta(tenant, asset, id, PayTotal(paid), paid, lines[i].account);
      if lines[i].account.Wallet? {
        PaidToNonNegative(paid, lines[i].account.user);
      }
    }
  }

  lemma {:induction false} PayoutsPosted(journal: Journal, id: nat, k: Contest, payouts: seq<S.Payout>, at: int)
    requires PayTotal(payouts) == Balance(journal, EscrowOf(id, k)) && KeyFree(journal, k.tenant, SettleKey(id))
    requires forall i | 0 <= i < |payouts| :: payouts[i].payout >= 0
    ensures PostPayouts(journal, id, k, payouts, at) ==
      if PayTotal(payouts) > MAX_AMOUNT then Err(LedgerRefused(AmountTooLarge))
      else Ok((journal + SettleEntries(id, k, payouts, at), if Paid(payouts) == [] then None else Some(|journal|)))
  {
    var paid := Paid(payouts);
    PaidKeepsTotals(payouts, 0);
    if paid == [] {
      assert journal + [] == journal;
    } else {
      var post := SettlePost(k.tenant, k.asset, id, paid);
      assert post.lines == SettleLines(k.tenant, k.asset, id, PayTotal(paid), paid);
      SettleLinesValid(k.tenant, k.asset, id, paid);
      if PayTotal(paid) <= MAX_AMOUNT {
        SettleCovered(journal, k.tenant, k.asset, id, paid);
        assert forall i | 0 <= i < |post.lines| :: post.lines[i].account.tenant == post.tenant;
        PostSucceeds(journal, post, at);
      }
    }
  }

  // ---- What the entries do to the books ----------------------------------------------

  lemma {:induction false} RakeEffect(journal: Journal, id: nat, k: Contest, rake: int, at: int, account: Account)
    requires rake >= 0
    ensures var after := journal + RakeEntries(id, k, rake, at);
      ContestDelta(after, id, account) == ContestDelta(journal, id, account)
        + if account == EscrowOf(id, k) then -rake else if account == PlatformFee(k.tenant, k.asset) then rake else 0
  {
    if rake > 0 {
      ContestDeltaPush(journal, Entry(RakePost(k.tenant, k.asset, id, rake), at), id, account);
      MoveDelta(EscrowOf(id, k), PlatformFee(k.tenant, k.asset), rake, account);
    } else {
      assert journal + [] == journal;
    }
  }

  lemma {:induction false} RakeRecorded(journal: Journal, id: nat, k: Contest, rake: nat, at: int)
    ensures RakeTaken(journal + RakeEntries(id, k, rake, at), id) == RakeTaken(journal, id) + rake
  {
    if rake > 0 {
      RakeTakenPush(journal, Entry(RakePost(k.tenant, k.asset, id, rake), at), id);
      FeeCreditsOfRake(k.tenant, k.asset, id, rake);
    } else {
      assert journal + [] == journal;
    }
  }

  lemma {:induction false} SettleEffect(journal: Journal, id: nat, k: Contest, payouts: seq<S.Payout>, at: int,
      account: Account)
    requires forall i | 0 <= i < |payouts| :: payouts[i].payout >= 0
    ensures var after := journal + SettleEntries(id, k, payouts, at);
      ContestDelta(after, id, account) == ContestDelta(journal, id, account)
        + if account == EscrowOf(id, k) then -PayTotal(payouts)
          else if account.Wallet? && account.tenant == k.tenant
            && account.asset == k.asset then PaidTo(payouts, account.user)
          else 0
  {
    var paid := Paid(payouts);
    PaidKeepsTotals(payouts, if account.Wallet? then account.user else 0);
    if paid == [] {
      assert journal + [] == journal;
    } else {
      ContestDeltaPush(journal, Entry(SettlePost(k.tenant, k.asset, id, paid), at), id, account);
      SettleDelta(k.tenant, k.asset, id, PayTotal(paid), paid, account);
      assert SettlePost(k.tenant, k.asset, id, paid).lines == SettleLines(k.tenant, k.asset, id, PayTotal(paid), paid);
    }
  }

  lemma {:induction false} SettleTakesNoRake(journal: Journal, id: nat, k: Contest, payouts: seq<S.Payout>, at: int)
    ensures RakeTaken(journal + SettleEntries(id, k, payouts, at), id) == RakeTaken(journal, id)
  {
    if Paid(payouts) == [] {
      assert journal + [] == journal;
    } else {
      RakeTakenPush(journal, Entry(SettlePost(k.tenant, k.asset, id, Paid(payouts)), at), id);
    }
  }

  lemma {:induction false} RakeTagged(journal: Journal, id: nat, k: Contest, rake: int, at: int)
    requires EscrowsTagged(journal)
    ensures EscrowsTagged(journal + RakeEntries(id, k, rake, at))
  {
  }

  lemma {:induction false} SettleTagged(journal: Journal, id: nat, k: Contest, payouts: seq<S.Payout>, at: int)
    requires EscrowsTagged(journal)
    ensures EscrowsTagged(journal + SettleEntries(id, k, payouts, at))
  {
  }

  // ---- The settlement as a whole -----------------------------------------------------

  function RakedJournal(journal: Journal, id: nat, k: Contest, p: Preview, at: int): Journal {
    journal + RakeEntries(id, k, p.rake, at)
  }

  function SettledJournal(journal: Journal, id: nat, k: Contest, p: Preview, at: int): Journal {
    RakedJournal(journal, id, k, p, at) + SettleEntries(id, k, p.payouts, at)
  }

  function PayoutEntry(journal: Journal, id: nat, k: Contest, p: Preview, at: int): Option<nat> {
    if Paid(p.payouts) == [] then None else Some(|RakedJournal(journal, id, k, p, at)|)
  }

  function SettledContest(k: Contest, p: Preview, entry: Option<nat>, at: int): Contest {
    k.(state := Settled, settledAt := Some(at), results := ResultRows(p, entry))
  }

  /** What the settled contest's own accounts have come to: every payee paid, the escrow empty. */
  lemma {:induction false} SettledBooks(journal: Journal, id: nat, k: Contest, p: Preview, at: int, account: Account)
    requires p.rake >= 0 && forall i | 0 <= i < |p.payouts| :: p.payouts[i].payout >= 0
    ensures ContestDelta(SettledJournal(journal, id, k, p, at), id, account) == ContestDelta(journal, id, account)
      + if account == EscrowOf(id, k) then -p.rake - PayTotal(p.payouts)
        else if account.Wallet? && account.tenant == k.tenant
          && account.asset == k.asset then PaidTo(p.payouts, account.user)
        else if account == PlatformFee(k.tenant, k.asset) then p.rake
        else 0
  {
    RakeEffect(journal, id, k, p.rake, at, account);
    SettleEffect(RakedJournal(journal, id, k, p, at), id, k, p.payouts, at, account);
  }

  /**
   * From `awaiting_settlement` a settlement goes through exactly when the actor may settle,
   * the presented hash is the reckoning's, and the net pool can be held in 64 bits; it then
   * posts the reckoned rake and payouts and records the reckoned results.
   */
  lemma {:induction false} SettlementOutcome(journal: Journal, id: nat, k: Contest, actor: ActorKind,
      expected: Option<Digest>, env: Env)
    requires Ready(journal, id, k)
    ensures Reckon(k).Ok?
    ensures var p := Reckon(k).value; var refused := CheckTransition(k, Settling, actor);
      ExecuteSettlement(journal, id, k, actor, expected, env) ==
        if refused.Some? then Err(refused.value)
        else if expected.Some? && expected.value != p.hash then Err(PreviewHashMismatch)
        else if p.net > MAX_AMOUNT then Err(LedgerRefused(AmountTooLarge))
        else Ok(Outcome(SettledJournal(journal, id, k, p, env.at),
                        SettledContest(k, p, PayoutEntry(journal, id, k, p, env.at), env.at), p))
  {
    ReckonFacts(k);
    ReckonPays(k);
    var p := Reckon(k).value;
    ComputesReckoning(journal, id, k);
    ComputeIgnoresState(journal, id, k, Settling);
    if CheckTransition(k, Settling, actor).None? {
      ExecutionStarts(journal, id, k, actor, expected, env, p);
      PaysOut(journal, id, k, p, actor, env);
    }
  }

  lemma {:induction false} ExecutionStarts(journal: Journal, id: nat, k: Contest, actor: ActorKind,
      expected: Option<Digest>, env: Env, p: Preview)
    requires CheckTransition(k, Settling, actor).None? && Compute(journal, id, k.(state := Settling)) == Ok(p)
    ensures ExecuteSettlement(journal, id, k, actor, expected, env) ==
      if expected.Some? && expected.value != p.hash then Err(PreviewHashMismatch)
      else PayOut(journal, id, k.(state := Settling), p, actor, env)
  {
  }

  lemma {:induction false} PaysOut(journal: Journal, id: nat, k: Contest, p: Preview, actor: ActorKind, env: Env)
    requires Ready(journal, id, k) && Reckon(k) == Ok(p) && CheckTransition(k, Settling, actor).None?
    requires 0 <= p.rake <= p.net && p.gross == ActiveCount(k.participants) * k.terms.entryAmount
      && p.net == p.gross - p.rake
    requires PayTotal(p.payouts) == p.net && |p.payouts| == ActiveCount(k.participants)
    requires forall i | 0 <= i < |p.payouts| :: p.payouts[i].payout >= 0
    ensures PayOut(journal, id, k.(state := Settling), p, actor, env) ==
      if p.net > MAX_AMOUNT then Err(LedgerRefused(AmountTooLarge))
      else Ok(Outcome(SettledJournal(journal, id, k, p, env.at),
                      SettledContest(k, p, PayoutEntry(journal, id, k, p, env.at), env.at), p))
  {
    var settling := k.(state := Settling);
    ComputesReckoning(journal, id, k);
    RakePosted(journal, id, settling, p.rake, env.at);
    assert RakeEntries(id, settling, p.rake, env.at) == RakeEntries(id, k, p.rake, env.at);
    if p.rake <= MAX_AMOUNT {
      RakedReady(journal, id, k, p, env.at);
      var raked := RakedJournal(journal, id, k, p, env.at);
      PayoutsPosted(raked, id, settling, p.payouts, env.at);
      assert SettleEntries(id, settling, p.payouts, env.at) == SettleEntries(id, k, p.payouts, env.at);
      SettledGuard(journal, id, k, p, actor, env, PayoutEntry(journal, id, k, p, env.at));
    }
  }

  lemma {:induction false} ComputeIgnoresState(journal: Journal, id: nat, k: Contest, state: ContestState)
    ensures Compute(journal, id, k.(state := state)) == Compute(journal, id, k)
  {
  }

  lemma {:induction false} RakedReady(journal: Journal, id: nat, k: Contest, p: Preview, at: int)
    requires Ready(journal, id, k) && Reckon(k) == Ok(p) && 0 <= p.rake && p.net == p.gross - p.rake
    requires p.gross == ActiveCount(k.participants) * k.terms.entryAmount
    ensures Balance(RakedJournal(journal, id, k, p, at), EscrowOf(id, k)) == p.net
    ensures KeyFree(RakedJournal(journal, id, k, p, at), k.tenant, SettleKey(id))
  {
    RakeTagged(journal, id, k, p.rake, at);
    RakeEffect(journal, id, k, p.rake, at, EscrowOf(id, k));
    EscrowIsOwn(RakedJournal(journal, id, k, p, at), k.tenant, k.asset, id);
  }

  lemma {:induction false} SettledGuard(journal: Journal, id: nat, k: Contest, p: Preview, actor: ActorKind, env: Env,
      entry: Option<nat>)
    requires Ready(journal, id, k) && !actor.UserActor?
    requires 0 <= p.rake && p.gross == ActiveCount(k.participants) * k.terms.entryAmount && p.net == p.gross - p.rake
    requires PayTotal(p.payouts) == p.net && |p.payouts| == ActiveCount(k.participants)
    requires forall i | 0 <= i < |p.payouts| :: p.payouts[i].payout >= 0
    ensures Transition(SettledJournal(journal, id, k, p, env.at), id,
      k.(state := Settling, results := ResultRows(p, entry)), Settled, actor, env)
         == Ok(SettledContest(k, p, entry, env.at))
  {
    SettledEscrowEmpty(journal, id, k, p, env.at);
    LastTransition(SettledJournal(journal, id, k, p, env.at), id,
        k.(state := Settling, results := ResultRows(p, entry)), actor, env);
  }

  lemma {:induction false} LastTransition(journal: Journal, id: nat, k: Contest, actor: ActorKind, env: Env)
    requires k.state.Settling? && !actor.UserActor? && Balance(journal, EscrowOf(id, k)) == 0
    requires |k.results| == ActiveCount(k.participants)
    ensures Transition(journal, id, k, Settled, actor, env) == Ok(k.(state := Settled, settledAt := Some(env.at)))
  {
  }

  lemma {:induction false} SettledEscrowEmpty(journal: Journal, id: nat, k: Contest, p: Preview, at: int)
    requires Ready(journal, id, k) && p.rake >= 0 && p.gross == ActiveCount(k.participants) * k.terms.entryAmount
    requires p.net == p.gross - p.rake && PayTotal(p.payouts) == p.net
    requires forall i | 0 <= i < |p.payouts| :: p.payouts[i].payout >= 0
    ensures EscrowsTagged(SettledJournal(journal, id, k, p, at))
    ensures Balance(SettledJournal(journal, id, k, p, at), EscrowOf(id, k)) == 0
  {
    RakeTagged(journal, id, k, p.rake, at);
    SettleTagged(RakedJournal(journal, id, k, p, at), id, k, p.payouts, at);
    SettledBooks(journal, id, k, p, at, EscrowOf(id, k));
    EscrowIsOwn(SettledJournal(journal, id, k, p, at), k.tenant, k.asset, id);
  }

  // ---- The settled contest keeps the invariant ---------------------------------------

  lemma {:induction false} GrownTwice(a: Journal, b: Journal, c: Journal, id: nat)
    requires GrownFor(a, b, id) && GrownFor(b, c, id)
    ensures GrownFor(a, c, id)
  {
    forall i | |a| <= i < |c| ensures c[i].post.contest == Some(id) && ReversesOwn(c[..i], c[i].post) {
      if i < |b| {
        assert c[i] == b[i] && c[..i] == b[..i];
      }
    }
  }

  lemma {:induction false} PostedSound(journal: Journal, post: Post, at: int)
    requires Sound(journal) && TryPost(journal, post, at) == Ok(Posted(journal + [Entry(post, at)], |journal|, false))
    requires post.reverses.None?
    requires forall l | 0 <= l < |post.lines| && post.lines[l].account.Escrow? ::
      post.contest == Some(post.lines[l].account.contest)
    ensures Sound(journal + [Entry(post, at)])
  {
    PostKeeps(journal, post, at);
    EscrowsTaggedPush(journal, Entry(post, at));
  }

  lemma {:induction false} RakeSound(journal: Journal, id: nat, k: Contest, rake: int, at: int)
    requires Sound(journal) && PostRake(journal, id, k, rake, at) == Ok(journal + RakeEntries(id, k, rake, at))
    ensures Sound(journal + RakeEntries(id, k, rake, at))
      && GrownFor(journal, journal + RakeEntries(id, k, rake, at), id)
  {
    if rake <= 0 {
      assert journal + [] == journal;
    } else {
      var post := RakePost(k.tenant, k.asset, id, rake);
      PostShape(journal, post, at);
      PostedSound(journal, post, at);
      OneEntryGrown(journal, Entry(post, at), id);
    }
  }

  lemma {:induction false} SettleSound(journal: Journal, id: nat, k: Contest, payouts: seq<S.Payout>, at: int)
    requires Sound(journal) && PostPayouts(journal, id, k, payouts, at).Ok?
    requires PostPayouts(journal, id, k, payouts, at).value.0 == journal + SettleEntries(id, k, payouts, at)
    ensures Sound(journal + SettleEntries(id, k, payouts, at))
      && GrownFor(journal, journal + SettleEntries(id, k, payouts, at), id)
  {
    if Paid(payouts) == [] {
      assert journal + [] == journal;
    } else {
      var post := SettlePost(k.tenant, k.asset, id, Paid(payouts));
      PostShape(journal, post, at);
      PostedSound(journal, post, at);
      OneEntryGrown(journal, Entry(post, at), id);
    }
  }

  /** The journal after a settlement is sound, and has grown by this contest's own entries. */
  lemma {:induction false} SettledSound(journal: Journal, id: nat, k: Contest, p: Preview, at: int)
    requires Sound(journal) && Ready(journal, id, k) && Reckon(k) == Ok(p) && p.net <= MAX_AMOUNT
    ensures Sound(SettledJournal(journal, id, k, p, at)) && GrownFor(journal, SettledJournal(journal, id, k, p, at), id)
  {
    ReckonFacts(k);
    ReckonPays(k);
    var raked := RakedJournal(journal, id, k, p, at);
    ComputesReckoning(journal, id, k);
    RakePosted(journal, id, k, p.rake, at);
    RakeSound(journal, id, k, p.rake, at);
    RakedReady(journal, id, k, p, at);
    PayoutsPosted(raked, id, k, p.payouts, at);
    SettleSound(raked, id, k, p.payouts, at);
    GrownTwice(journal, raked, SettledJournal(journal, id, k, p, at), id);
  }

  lemma {:induction false} StakesKeptBy(journal: Journal, entries: seq<Entry>, id: nat, k: Contest)
    requires StakesHeld(journal, id, k) && |entries| <= 1 && forall e | e in entries :: e.post.reverses.None?
    ensures StakesHeld(journal + entries, id, k)
  {
    if entries == [] {
      assert journal + entries == journal;
    } else if !k.state.Voided? {
      assert entries == [entries[0]];
      forall i | 0 <= i < |k.participants| && Active(k.participants[i])
        ensures HoldsStake(journal + entries, id, k, k.participants[i])
      {
        StakeKept(journal, entries[0], id, k, k.participants[i]);
      }
    }
  }

  lemma {:induction false} SettledStakes(journal: Journal, id: nat, k: Contest, p: Preview, entry: Option<nat>, at: int)
    requires StakesHeld(journal, id, k) && !k.state.Voided?
    ensures StakesHeld(SettledJournal(journal, id, k, p, at), id, SettledContest(k, p, entry, at))
  {
    StakesKeptBy(journal, RakeEntries(id, k, p.rake, at), id, k);
    var raked := RakedJournal(journal, id, k, p, at);
    StakesKeptBy(raked, SettleEntries(id, k, p.payouts, at), id, k);
    var after, k' := SettledJournal(journal, id, k, p, at), SettledContest(k, p, entry, at);
    forall i | 0 <= i < |k'.participants| && Active(k'.participants[i])
      ensures HoldsStake(after, id, k', k'.participants[i])
    {
      assert HoldsStake(after, id, k, k.participants[i]);
    }
  }

  lemma {:induction false} SettledAccounts(journal: Journal, id: nat, k: Contest, p: Preview, entry: Option<nat>,
      at: int)
    requires Roster(k) && Accounted(journal, id, k) && k.state.AwaitingSettlement? && Reckon(k) == Ok(p)
    ensures Accounted(SettledJournal(journal, id, k, p, at), id, SettledContest(k, p, entry, at))
  {
    ReckonFacts(k);
    ReckonPays(k);
    var after, k' := SettledJournal(journal, id, k, p, at), SettledContest(k, p, entry, at);
    forall u: nat ensures ContestDelta(after, id, WalletOf(k', u)) == Owed(k', u) {
      SettledBooks(journal, id, k, p, at, WalletOf(k, u));
      assert ContestDelta(journal, id, WalletOf(k, u)) == Owed(k, u);
      SettledOwed(k, p, entry, at, u);
    }
    SettledBooks(journal, id, k, p, at, EscrowOf(id, k));
  }

  /** Settling changes what a user is owed by exactly their payout. */
  lemma {:induction false} SettledOwed(k: Contest, p: Preview, entry: Option<nat>, at: int, user: nat)
    requires Roster(k) && k.state.AwaitingSettlement? && Reckon(k) == Ok(p)
    ensures Owed(SettledContest(k, p, entry, at), user) == Owed(k, user) + PaidTo(p.payouts, user)
  {
    ResultsPayAll(p, entry, user);
    var place := FindParticipant(k.participants, user);
    if place.None? || !Active(k.participants[place.value]) {
      OnlyEntrantsPaid(k, user);
    }
  }

  lemma {:induction false} SettledResults(journal: Journal, id: nat, k: Contest, p: Preview, entry: Option<nat>,
      at: int)
    requires Roster(k) && Reckon(k) == Ok(p) && RakeTaken(journal, id) == 0
    ensures ResultsRecorded(SettledJournal(journal, id, k, p, at), id, SettledContest(k, p, entry, at))
  {
    ReckonFacts(k);
    RakeRecorded(journal, id, k, p.rake, at);
    SettleTakesNoRake(RakedJournal(journal, id, k, p, at), id, k, p.payouts, at);
    SettledReckoning(k, p, entry, at);
  }

  /** A settlement reckons the same once it is recorded as it did before. */
  lemma {:induction false} SettledReckoning(k: Contest, p: Preview, entry: Option<nat>, at: int)
    requires Reckon(k) == Ok(p)
    ensures Reckon(SettledContest(k, p, entry, at)) == Ok(p)
  {
  }

  lemma {:induction false} SettledInv(journal: Journal, id: nat, k: Contest, p: Preview, entry: Option<nat>, at: int)
    requires Ready(journal, id, k) && Reckon(k) == Ok(p)
    ensures ContestInv(SettledJournal(journal, id, k, p, at), id, SettledContest(k, p, entry, at))
  {
    SettledStakes(journal, id, k, p, entry, at);
    SettledAccounts(journal, id, k, p, entry, at);
    SettledResults(journal, id, k, p, entry, at);
    SettledRoster(k, p, entry, at);
  }

  lemma {:induction false} SettledRoster(k: Contest, p: Preview, entry: Option<nat>, at: int)
    requires Roster(k) && k.state.AwaitingSettlement?
    ensures Roster(SettledContest(k, p, entry, at)) && Advanced(SettledContest(k, p, entry, at))
  {
  }
}
