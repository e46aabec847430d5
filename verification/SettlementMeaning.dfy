/**
 * What a settlement means for the people in it, in their own scores, seeds and times: who
 * is placed ahead of whom, and how much each place is paid under each prize structure.
 */
module SettlementMeaning {
  import opened Common
  import opened Settlement
  import opened SettlementTheorems
  import Sorting

  // ---- Who beats whom ----------------------------------------------------------------

  lemma {:induction false} CountSame<T>(p: T -> bool, q: T -> bool, s: seq<T>)
    requires forall x | x in s :: p(x) <==> q(x)
    ensures Sorting.Count(p, s) == Sorting.Count(q, s)
  {
    if s != [] {
      CountSame(p, q, s[1..]);
    }
  }

  lemma {:induction false} CountMore<T>(p: T -> bool, q: T -> bool, s: seq<T>, x: T)
    requires (forall y | y in s :: p(y) ==> q(y)) && x in s && q(x) && !p(x)
    ensures Sorting.Count(p, s) < Sorting.Count(q, s)
  {
    if x == s[0] {
      CountNoFewer(p, q, s[1..]);
    } else {
      CountMore(p, q, s[1..], x);
    }
  }

  lemma {:induction false} CountNoFewer<T>(p: T -> bool, q: T -> bool, s: seq<T>)
    requires forall y | y in s :: p(y) ==> q(y)
    ensures Sorting.Count(p, s) <= Sorting.Count(q, s)
  {
    if s != [] {
      CountNoFewer(p, q, s[1..]);
    }
  }

  /** A payout under an entrant's name is that entrant's. */
  lemma {:induction false} PayoutIsOf(pool: int, entries: seq<Entrant>, structure: PrizeStructure, rule: TieBreak,
      payouts: seq<Payout>, a: Entrant, i: nat)
    requires Settle(pool, entries, structure, rule) == Ok(payouts) && a in entries
    requires i < |payouts| && payouts[i].user == a.user
    ensures i < |Ordered(entries, rule)| == |entries| && Ordered(entries, rule)[i] == a
  {
    OnePayoutPerEntrant(pool, entries, structure, rule);
    OrderedIs(entries, rule, a, i);
  }

  lemma {:induction false} OrderedIs(entries: seq<Entrant>, rule: TieBreak, a: Entrant, i: nat)
    requires DistinctUsers(entries) && a in entries && multiset(Ordered(entries, rule)) == multiset(entries)
    requires i < |Ordered(entries, rule)| && Ordered(entries, rule)[i].user == a.user
    ensures Ordered(entries, rule)[i] == a
  {
    var b := Ordered(entries, rule)[i];
    assert b in multiset(entries);
    var m :| 0 <= m < |entries| && entries[m] == b;
    var n :| 0 <= n < |entries| && entries[n] == a;
  }

  /** Better ranked is better placed, and the other way round. */
  lemma {:induction false} RankPlaces(entries: seq<Entrant>, rule: TieBreak, a: Entrant, b: Entrant)
    requires a in entries && b in entries
    ensures CompareRank(a, b, rule) < 0 <==>
      Sorting.Count(PlacesBetter(a, rule), entries) < Sorting.Count(PlacesBetter(b, rule), entries)
  {
    RankTransitive(a, b, a, rule);
    if CompareRank(a, b, rule) < 0 {
      AheadOfFewer(entries, rule, a, b);
    } else if CompareRank(a, b, rule) > 0 {
      AheadOfFewer(entries, rule, b, a);
    } else {
      forall x | x in entries ensures PlacesBetter(a, rule)(x) <==> PlacesBetter(b, rule)(x) {
        RankTransitive(x, a, b, rule);
        RankTransitive(x, b, a, rule);
        BeatsIsRank(x, a, rule);
        BeatsIsRank(x, b, rule);
      }
      CountSame(PlacesBetter(a, rule), PlacesBetter(b, rule), entries);
    }
  }

  lemma {:induction false} AheadOfFewer(entries: seq<Entrant>, rule: TieBreak, a: Entrant, b: Entrant)
    requires a in entries && CompareRank(a, b, rule) < 0
    ensures Sorting.Count(PlacesBetter(a, rule), entries) < Sorting.Count(PlacesBetter(b, rule), entries)
  {
    forall x | x in entries && PlacesBetter(a, rule)(x) ensures PlacesBetter(b, rule)(x) {
      BeatsIsRank(x, a, rule);
      RankTransitive(x, a, b, rule);
      BeatsIsRank(x, b, rule);
    }
    BeatsIsRank(a, b, rule);
    CountMore(PlacesBetter(a, rule), PlacesBetter(b, rule), entries, a);
  }

  lemma {:induction false} PlacedByRank(pool: int, entries: seq<Entrant>, structure: PrizeStructure, rule: TieBreak,
      payouts: seq<Payout>, a: Entrant, b: Entrant, i: nat, j: nat)
    requires Settle(pool, entries, structure, rule) == Ok(payouts) && a in entries && b in entries
    requires i < |payouts| && payouts[i].user == a.user && j < |payouts| && payouts[j].user == b.user
    ensures payouts[i].placement < payouts[j].placement <==> CompareRank(a, b, rule) < 0
  {
    PayoutIsOf(pool, entries, structure, rule, payouts, a, i);
    PayoutIsOf(pool, entries, structure, rule, payouts, b, j);
    PlacementMeaning(pool, entries, structure, rule, i);
    PlacementMeaning(pool, entries, structure, rule, j);
    RankPlaces(entries, rule, a, b);
  }

  /**
   * One entrant is placed ahead of another exactly when they have the higher score, a score
   * where the other has none, or, at equal scores, the lower seed or the earlier submission
   * under the rule that looks at it; and whoever is placed ahead is paid no less.
   */
  lemma {:induction false} PlacedAhead(pool: int, entries: seq<Entrant>, structure: PrizeStructure, rule: TieBreak,
      payouts: seq<Payout>, a: Entrant, b: Entrant, i: nat, j: nat)
    requires Settle(pool, entries, structure, rule) == Ok(payouts) && a in entries && b in entries
    requires i < |payouts| && payouts[i].user == a.user && j < |payouts| && payouts[j].user == b.user
    ensures payouts[i].placement < payouts[j].placement <==>
      && a.score.Some?
      && (|| b.score.None?
          || a.score.value > b.score.value
          || (a.score.value == b.score.value
              && match rule
                 case SplitEvenly => false
                 case HigherSeedWins => a.seed.Some? && (b.seed.None? || a.seed.value < b.seed.value)
                 case EarliestSubmissionWins =>
                   a.submittedAt.Some? && (b.submittedAt.None? || a.submittedAt.value < b.submittedAt.value)))
    ensures payouts[i].placement < payouts[j].placement ==> payouts[i].payout >= payouts[j].payout
  {
    PlacedByRank(pool, entries, structure, rule, payouts, a, b, i, j);
    BeatsIsRank(a, b, rule);
    if payouts[i].placement < payouts[j].placement {
      PaidInOrder(pool, entries, structure, rule, payouts, i, j);
    }
  }

  lemma {:induction false} PaidInOrder(pool: int, entries: seq<Entrant>, structure: PrizeStructure, rule: TieBreak,
      payouts: seq<Payout>, i: nat, j: nat)
    requires Settle(pool, entries, structure, rule) == Ok(payouts) && i < |payouts| && j < |payouts|
    requires payouts[i].placement < payouts[j].placement
    ensures payouts[i].payout >= payouts[j].payout
  {
    if j < i {
      PlacementsOrdered(pool, entries, structure, rule, j, i);
    } else {
      PayoutsOrdered(pool, entries, structure, rule, i, j);
    }
  }

  // ---- What each place is paid -------------------------------------------------------

  /** The `n`th of `c` even shares of the prizes of the slots from `first` on, odd units going to the first. */
  function SlotShare(prizes: seq<int>, first: nat, c: nat, n: nat): int
    requires 0 < c && first + c <= |prizes|
  {
    var pot := Sum(prizes[first..first + c]);
    pot / c + if n < pot % c then 1 else 0
  }

  /** Everyone placed with `i` stands together from `first` on, and `i` has a share of exactly those slots. */
  ghost predicate SharesSlots(payouts: seq<Payout>, prizes: seq<int>, floors: seq<int>, i: nat, first: nat, c: nat)
    requires |payouts| == |prizes| == |floors|
  {
    && first <= i < first + c <= |payouts|
    && payouts[i].placement == first + 1
    && (forall m | 0 <= m < |payouts| :: payouts[m].placement == payouts[i].placement <==> first <= m < first + c)
    && payouts[i].payout == floors[i] + SlotShare(prizes, first, c, i - first)
  }

  /**
   * Everyone placed at `p` stands together from index `p - 1` on; they share the prizes of
   * exactly those slots evenly, odd units to the first of them, on top of their floors.
   */
  lemma {:induction false} PayoutExact(pool: int, entries: seq<Entrant>, structure: PrizeStructure, rule: TieBreak,
      payouts: seq<Payout>, i: nat) returns (first: nat, c: nat)
    requires Settle(pool, entries, structure, rule) == Ok(payouts) && i < |payouts|
    ensures pool >= 0
    ensures |Prizes(entries, structure, pool)| == |Floors(entries, structure, pool)| == |payouts| == |entries|
    ensures SharesSlots(payouts, Prizes(entries, structure, pool), Floors(entries, structure, pool), i, first, c)
  {
    var groups, ordered, prizes, floors := SettledFrom(pool, entries, structure, rule);
    first, c := PlacedTogether(groups, ordered, rule, prizes, floors, i);
  }

  lemma {:induction false} PlacedTogether(groups: seq<Group>, ordered: seq<Entrant>, rule: TieBreak, vector: seq<nat>,
      floors: seq<int>, i: nat) returns (first: nat, c: nat)
    requires Ranked(groups, ordered, rule) && Payable(groups, vector, floors) && i < |ordered|
    ensures SharesSlots(PayGroups(groups, vector, floors), vector, floors, i, first, c)
  {
    var payouts := PayGroups(groups, vector, floors);
    var k := PaidAt(groups, ordered, rule, vector, floors, i);
    first, c := Start(groups, k), |groups[k].members|;
    GroupPays(groups[k], first, vector, floors, i, payouts[i]);
    forall m | 0 <= m < |payouts|
      ensures payouts[m].placement == payouts[i].placement <==> first <= m < first + c
    {
      SharesPlace(groups, ordered, rule, vector, floors, k, m);
    }
  }

  lemma {:induction false} GroupPays(group: Group, start: nat, vector: seq<nat>, floors: seq<int>, i: nat,
      paid: Payout)
    requires start <= i < start + |group.members| <= |vector| == |floors|
    requires paid == PayGroup(group, start, vector, floors)[i - start]
    ensures paid.payout == floors[i] + SlotShare(vector, start, |group.members|, i - start)
  {
    SumNonNegative(vector[start..start + |group.members|]);
  }

  /** Who is placed where a group starts is in the group. */
  lemma {:induction false} SharesPlace(groups: seq<Group>, ordered: seq<Entrant>, rule: TieBreak, vector: seq<nat>,
      floors: seq<int>, k: nat, m: nat)
    requires Ranked(groups, ordered, rule) && Payable(groups, vector, floors) && m < |ordered| && k < |groups|
    requires Start(groups, k + 1) == Start(groups, k) + |groups[k].members| && groups[k].members != []
    ensures PayGroups(groups, vector, floors)[m].placement == Start(groups, k) + 1 <==>
      Start(groups, k) <= m < Start(groups, k + 1)
  {
    var km := PaidAt(groups, ordered, rule, vector, floors, m);
    if Start(groups, km) == Start(groups, k) {
      SameStart(groups, km, k);
    } else if Start(groups, k) <= m < Start(groups, k + 1) {
      SameGroup(groups, k, km, m);
    }
  }

  // ---- The prizes of each structure --------------------------------------------------

  /** How many slots the prizes are cut for: the scored entrants, or everyone when nobody scored. */
  lemma {:induction false} SlotsMean(entries: seq<Entrant>)
    ensures (forall e | e in entries :: e.score.None?) ==> PaidSlots(entries) == |entries|
    ensures (exists e :: e in entries && e.score.Some?) ==>
      PaidSlots(entries) == |entries| - Sorting.Count((e: Entrant) => e.score.None?, entries) > 0
  {
    ScoredOrNot(entries);
    if forall e | e in entries :: e.score.None? {
      CountSame((e: Entrant) => e.score.None?, (e: Entrant) => true, entries);
      CountAll(entries);
    } else {
      var e :| e in entries && e.score.Some?;
      CountMore((e: Entrant) => e.score.None?, (e: Entrant) => true, entries, e);
      CountAll(entries);
    }
  }

  lemma {:induction false} CountAll(entries: seq<Entrant>)
    ensures Sorting.Count((e: Entrant) => true, entries) == |entries|
  {
    if entries != [] {
      CountAll(entries[1..]);
    }
  }

  lemma {:induction false} ScoredOrNot(entries: seq<Entrant>)
    ensures ScoredCount(entries) + Sorting.Count((e: Entrant) => e.score.None?, entries) == |entries|
  {
    if entries != [] {
      ScoredOrNot(entries[1..]);
    }
  }

  /** Equal weights on the first `m` slots, shared as evenly as whole units allow. */
  lemma {:induction false} EqualShares(pool: nat, weights: seq<nat>, m: nat)
    requires 0 < m <= |weights|
    requires forall i | 0 <= i < |weights| :: weights[i] == if i < m then 1 else 0
    ensures forall i | 0 <= i < |weights| ::
      Proportional(pool, weights)[i] == if i < m then pool / m + (if i < pool % m then 1 else 0) else 0
  {
    ZeroWeightsTail(weights, m);
    SumConstant(weights[..m], 1);
    EqualFloors(pool, weights, m);
    DivideRest(pool, m);
  }

  lemma {:induction false} EqualFloors(pool: nat, weights: seq<nat>, m: nat)
    requires 0 < m <= |weights|
    requires forall i | 0 <= i < |weights| :: weights[i] == if i < m then 1 else 0
    ensures var floors := FloorShares(pool, weights, m);
      && (forall i | 0 <= i < |weights| :: floors[i] == if i < m then pool / m else 0)
      && Sum(floors) == pool / m * m
  {
    var floors := FloorShares(pool, weights, m);
    forall i | 0 <= i < |weights| ensures floors[i] == if i < m then pool / m else 0 {
      if i >= m {
        ZeroShare(pool, weights, m, i);
      }
    }
    SumSplit(floors, m);
    SumConstant(floors[..m], pool / m);
    SumConstant(floors[m..], 0);
  }

  lemma {:induction false} DivideRest(a: nat, b: nat)
    requires b > 0
    ensures a - a / b * b == a % b
  {
  }

  /** What is shared out by placement: the pool less the floors it can pay. */
  function Shared(pool: nat, structure: PrizeStructure, entrants: nat): nat {
    match structure.participationFloor
    case None => pool
    case Some(floor) => if floor * entrants <= pool then pool - floor * entrants else 0
  }

  lemma {:induction false} SharedIs(pool: nat, structure: PrizeStructure, entrants: nat)
    ensures Shared(pool, structure, entrants) == pool - FloorTotal(structure, pool, entrants)
  {
  }

  /** The best place takes the pot under winner-take-all; the best `n` take it evenly under top-n-equal. */
  lemma {:induction false} EqualPrizes(entries: seq<Entrant>, structure: PrizeStructure, pool: nat, i: nat)
    requires ValidStructure(structure) && i < |entries|
    requires structure.shape.WinnerTakeAll? || structure.shape.TopNEqual?
    ensures i < |Prizes(entries, structure, pool)|
    ensures var pot := Shared(pool, structure, |entries|);
      var m := if structure.shape.WinnerTakeAll? then 1 else Min(structure.shape.n, PaidSlots(entries));
      Prizes(entries, structure, pool)[i] == if i < m then pot / m + (if i < pot % m then 1 else 0) else 0
  {
    var pot := Shared(pool, structure, |entries|);
    SharedIs(pool, structure, |entries|);
    PaidSlotsBound(entries);
    var weights := Fit(Weights(structure.shape), PaidSlots(entries));
    EqualShares(pot, weights,
                if structure.shape.WinnerTakeAll? then 1 else Min(structure.shape.n, PaidSlots(entries)));
  }

  /** Everyone's floor when the pool covers it for all, and otherwise an even share of the pool. */
  lemma {:induction false} FloorsMean(entries: seq<Entrant>, structure: PrizeStructure, pool: nat, i: nat)
    requires ValidStructure(structure) && i < |entries|
    ensures Floors(entries, structure, pool)[i] ==
      match structure.participationFloor
      case None => 0
      case Some(floor) =>
        if floor * |entries| <= pool then floor
        else pool / |entries| + if i < pool % |entries| then 1 else 0
  {
    FloorsOrNothing(entries, structure, pool);
  }

  /** The first `n` of the rows, and zero past them. */
  ghost predicate CutTo(rows: seq<nat>, n: nat, cut: seq<nat>) {
    |cut| == n && forall i | 0 <= i < n :: cut[i] == if i < |rows| then rows[i] else 0
  }

  /** Each slot's share of the pot by its weight, rounded down. */
  function ExactShares(pot: nat, cut: seq<nat>): (shares: seq<int>)
    requires Sum(cut) > 0
    ensures |shares| == |cut|
  {
    seq(|cut|, i requires 0 <= i < |cut| => pot * cut[i] / Sum(cut))
  }

  /** That share, and one of the units left over for the first slots. */
  function WeightedShare(pot: nat, cut: seq<nat>, i: nat): int
    requires Sum(cut) > 0 && i < |cut|
  {
    ExactShares(pot, cut)[i] + if i < pot - Sum(ExactShares(pot, cut)) then 1 else 0
  }

  /** The prizes are cut for the slots that are paid and are nothing past them. */
  lemma {:induction false} PaddedPrize(entries: seq<Entrant>, structure: PrizeStructure, pool: nat, i: nat)
    requires i < |entries|
    ensures PaidSlots(entries) <= |entries| == |Prizes(entries, structure, pool)|
    ensures Prizes(entries, structure, pool)[i] ==
      if i < PaidSlots(entries)
      then PrizeVector(structure.shape, Shared(pool, structure, |entries|), PaidSlots(entries))[i] else 0
  {
    SharedIs(pool, structure, |entries|);
    PaidSlotsBound(entries);
  }

  /**
   * A table's rows are weights over the slots: each slot is paid its exact share of the pot
   * rounded down, and the units that leaves over go one each to the first slots. When the
   * pot is the rows' total, each slot is paid exactly its row.
   */
  lemma {:induction false} TablePrizes(entries: seq<Entrant>, structure: PrizeStructure, pool: nat, rows: seq<nat>,
      cut: seq<nat>, i: nat)
    requires ValidStructure(structure) && i < |entries|
    requires (structure.shape.PercentageSplit? && rows == structure.shape.percentages)
      || (structure.shape.PlacementTable? && rows == structure.shape.rows)
    requires CutTo(rows, PaidSlots(entries), cut)
    ensures Sum(cut) > 0 && i < |Prizes(entries, structure, pool)|
    ensures var pot := Shared(pool, structure, |entries|);
      && Prizes(entries, structure, pool)[i] == (if i < |cut| then WeightedShare(pot, cut, i) else 0)
      && (pot == Sum(cut) ==> Prizes(entries, structure, pool)[i] == if i < |cut| then cut[i] else 0)
  {
    var pot := Shared(pool, structure, |entries|);
    PaddedPrize(entries, structure, pool, i);
    SlotsWeigh(entries, structure.shape, cut);
    assert Fit(rows, PaidSlots(entries)) == cut;
    if i < |cut| {
      WeightedShares(pot, cut, i);
    }
  }

  lemma {:induction false} WeightedShares(pot: nat, cut: seq<nat>, i: nat)
    requires Sum(cut) > 0 && i < |cut|
    ensures Proportional(pot, cut)[i] == WeightedShare(pot, cut, i)
    ensures pot == Sum(cut) ==> WeightedShare(pot, cut, i) == cut[i]
  {
    assert FloorShares(pot, cut, Sum(cut)) == ExactShares(pot, cut);
    if pot == Sum(cut) {
      PaidInFull(pot, cut);
    }
  }

  lemma {:induction false} PaidInFull(pot: nat, cut: seq<nat>)
    requires pot == Sum(cut) > 0
    ensures ExactShares(pot, cut) == cut
  {
    forall j | 0 <= j < |cut| ensures ExactShares(pot, cut)[j] == cut[j] {
      ExactDivision(cut[j], pot);
    }
  }

  /** A pot that cannot cover the minimums pays them best place first until it is spent. */
  lemma {:induction false} MinimumsUncovered(entries: seq<Entrant>, structure: PrizeStructure, pool: nat,
      minimums: seq<nat>, k: nat)
    requires ValidStructure(structure) && structure.shape.GuaranteedMinimum?
    requires CutTo(structure.shape.minimums, PaidSlots(entries), minimums) && k <= |minimums| <= |entries|
    requires Shared(pool, structure, |entries|) < Sum(minimums)
    ensures k <= |Prizes(entries, structure, pool)|
    ensures Sum(Prizes(entries, structure, pool)[..k]) == Min(Shared(pool, structure, |entries|), Sum(minimums[..k]))
  {
    var pot := Shared(pool, structure, |entries|);
    SharedIs(pool, structure, |entries|);
    assert Fit(structure.shape.minimums, PaidSlots(entries)) == minimums;
    assert Prizes(entries, structure, pool)[..k] == UntilSpent(pot, minimums)[..k];
    UntilSpentSum(pot, minimums, k);
  }

  /** A pot that covers them pays each slot its minimum and shares the rest by the percentages. */
  lemma {:induction false} MinimumsCovered(entries: seq<Entrant>, structure: PrizeStructure, pool: nat,
      minimums: seq<nat>, cut: seq<nat>, rest: nat, i: nat)
    requires ValidStructure(structure) && structure.shape.GuaranteedMinimum? && i < |entries|
    requires CutTo(structure.shape.minimums, PaidSlots(entries), minimums)
      && CutTo(structure.shape.rest, PaidSlots(entries), cut)
    requires Shared(pool, structure, |entries|) == Sum(minimums) + rest
    ensures Sum(cut) > 0 && i < |Prizes(entries, structure, pool)|
    ensures Prizes(entries, structure, pool)[i] ==
      if i < |cut| then minimums[i] + WeightedShare(rest, cut, i) else 0
  {
    PaddedPrize(entries, structure, pool, i);
    SlotsWeigh(entries, structure.shape, cut);
    if i < |cut| {
      GuaranteedVector(structure.shape, Shared(pool, structure, |entries|), |cut|, minimums, cut, rest, i);
    }
  }

  lemma {:induction false} GuaranteedVector(shape: Shape, pot: nat, slots: nat, minimums: seq<nat>, cut: seq<nat>,
      rest: nat, i: nat)
    requires shape.GuaranteedMinimum? && CutTo(shape.minimums, slots, minimums) && CutTo(shape.rest, slots, cut)
    requires pot == Sum(minimums) + rest && i < slots && Sum(cut) > 0
    ensures PrizeVector(shape, pot, slots)[i] == minimums[i] + WeightedShare(rest, cut, i)
  {
    WeightedShares(rest, cut, i);
    GuaranteedSum(shape, pot, slots, minimums, cut, rest, Proportional(rest, cut));
  }

  lemma {:induction false} GuaranteedSum(shape: Shape, pot: nat, slots: nat, minimums: seq<nat>, cut: seq<nat>,
      rest: nat, shares: seq<int>)
    requires shape.GuaranteedMinimum? && CutTo(shape.minimums, slots, minimums) && CutTo(shape.rest, slots, cut)
    requires pot == Sum(minimums) + rest && shares == Proportional(rest, cut)
    ensures forall i | 0 <= i < slots :: PrizeVector(shape, pot, slots)[i] == minimums[i] + shares[i]
  {
    assert Fit(shape.minimums, slots) == minimums && Fit(shape.rest, slots) == cut;
  }

  /** The rows of a valid structure always leave some weight on the slots. */
  lemma {:induction false} SlotsWeigh(entries: seq<Entrant>, shape: Shape, cut: seq<nat>)
    requires ValidShape(shape) && entries != []
    requires match shape
      case PlacementTable(rows, _) => CutTo(rows, PaidSlots(entries), cut)
      case PercentageSplit(percentages) => CutTo(percentages, PaidSlots(entries), cut)
      case GuaranteedMinimum(_, rest) => CutTo(rest, PaidSlots(entries), cut)
      case _ => false
    ensures Sum(cut) > 0
  {
    PaidSlotsBound(entries);
    SumNonNegative(cut);
    match shape
    case PlacementTable(rows, _) =>
    case PercentageSplit(percentages) => PercentagesPositive(percentages);
    case GuaranteedMinimum(_, rest) => PercentagesPositive(rest);
  }

  /** Under winner-take-all with no floor, whoever outscores everyone else takes the whole pool. */
  lemma {:induction false} WinnerTakesAll(pool: int, entries: seq<Entrant>, rule: TieBreak, payouts: seq<Payout>,
      a: Entrant, i: nat)
    requires Settle(pool, entries, PrizeStructure(WinnerTakeAll, None), rule) == Ok(payouts) && a in entries
    requires i < |payouts| && payouts[i].user == a.user && a.score.Some?
    requires forall b | b in entries && b != a :: b.score.None? || a.score.value > b.score.value
    ensures payouts[i].placement == 1 && payouts[i].payout == pool
    ensures forall j | 0 <= j < |payouts| && j != i :: payouts[j].payout == 0
  {
    var structure := PrizeStructure(WinnerTakeAll, None);
    forall j | 0 <= j < |payouts| && j != i ensures payouts[i].placement < payouts[j].placement {
      BeatsAnother(pool, entries, structure, rule, payouts, a, i, j);
    }
    if i > 0 {
      PlacementsOrdered(pool, entries, structure, rule, 0, i);
    }
    var first, c := PayoutExact(pool, entries, structure, rule, payouts, i);
    assert payouts[first + c - 1].placement == payouts[0].placement;
    EqualPrizes(entries, structure, pool, 0);
    FloorsMean(entries, structure, pool, 0);
    OneSlot(Prizes(entries, structure, pool));
    Conservation(pool, entries, structure, rule);
    OnePayoutPerEntrant(pool, entries, structure, rule);
    NothingLeft(payouts);
  }

  lemma {:induction false} BeatsAnother(pool: int, entries: seq<Entrant>, structure: PrizeStructure, rule: TieBreak,
      payouts: seq<Payout>, a: Entrant, i: nat, j: nat)
    requires Settle(pool, entries, structure, rule) == Ok(payouts) && a in entries && a.score.Some?
    requires i < |payouts| && j < |payouts| && i != j && payouts[i].user == a.user
    requires forall b | b in entries && b != a :: b.score.None? || a.score.value > b.score.value
    ensures payouts[i].placement < payouts[j].placement
  {
    var b := PaidEntrant(pool, entries, structure, rule, payouts, i, j);
    PlacedAhead(pool, entries, structure, rule, payouts, a, b, i, j);
  }

  /** Every payout is some entrant's, and no two are one entrant's. */
  lemma {:induction false} PaidEntrant(pool: int, entries: seq<Entrant>, structure: PrizeStructure, rule: TieBreak,
      payouts: seq<Payout>, i: nat, j: nat) returns (b: Entrant)
    requires Settle(pool, entries, structure, rule) == Ok(payouts) && i < |payouts| && j < |payouts| && i != j
    ensures b in entries && b.user == payouts[j].user && b.user != payouts[i].user
  {
    OnePayoutPerEntrant(pool, entries, structure, rule);
    var ordered := Ordered(entries, rule);
    DistinctByMultiset(entries, ordered);
    b := ordered[j];
    assert b in multiset(entries);
  }

  lemma {:induction false} OneSlot(prizes: seq<int>)
    requires prizes != []
    ensures SlotShare(prizes, 0, 1, 0) == prizes[0]
  {
    assert prizes[0..1] == [] + [prizes[0]];
    SumPush([], prizes[0]);
  }

  lemma {:induction false} NothingLeft(payouts: seq<Payout>)
    requires payouts != [] && TotalPaid(payouts) == payouts[0].payout
    requires forall i | 0 <= i < |payouts| :: payouts[i].payout >= 0
    ensures forall j | 0 < j < |payouts| :: payouts[j].payout == 0
  {
    var amounts := Amounts(payouts);
    assert amounts[..1] == [] + [amounts[0]];
    SumPush([], amounts[0]);
    SumSplit(amounts, 1);
    SumNonNegative(amounts[1..]);
    forall j | 0 < j < |payouts| ensures payouts[j].payout == 0 {
      assert amounts[1..][j - 1] == payouts[j].payout;
    }
  }
}
