/**
 * The settlement engine (apps/purse/src/settlement/settle.ts): a pool, the entrants'
 * scores, a prize structure and a tie-break rule become one payout per entrant.
 *
 * Functions say what each share is; the methods are the loops that compute them. User ids
 * are numbers here: the engine only compares them for equality and order.
 */
module Settlement {
  import opened Common
  import Sorting

  datatype TieBreak = SplitEvenly | HigherSeedWins | EarliestSubmissionWins

  datatype Entrant = Entrant(user: nat, score: Option<real>, seed: Option<int>, submittedAt: Option<int>)

  datatype Shape =
    | WinnerTakeAll
    | PlacementTable(rows: seq<nat>, percentages?: bool)
    | PercentageSplit(percentages: seq<nat>)
    | TopNEqual(n: nat)
    | GuaranteedMinimum(minimums: seq<nat>, rest: seq<nat>)

  datatype PrizeStructure = PrizeStructure(shape: Shape, participationFloor: Option<nat>)

  datatype Payout = Payout(user: nat, placement: nat, payout: int)

  datatype SettlementError = InvalidStructure | NegativeEscrow | DuplicateEntrant | NoRecipients

  // ---- The prize structure's schema (settlement/types.ts) ----------------------------

  predicate NonIncreasing(s: seq<int>) {
    forall i, j | 0 <= i < j < |s| :: s[i] >= s[j]
  }

  predicate Percentages(s: seq<nat>) {
    1 <= |s| <= 1000 && (forall p | p in s :: p <= 100) && Sum(s) == 100 && NonIncreasing(s)
  }

  predicate ValidShape(shape: Shape) {
    match shape
    case WinnerTakeAll => true
    case PlacementTable(rows, percentages) =>
      && 1 <= |rows| <= 1000 && NonIncreasing(rows) && rows[0] > 0
      && (forall r | r in rows :: r <= if percentages then 100 else MAX_AMOUNT)
      && (percentages ==> Sum(rows) == 100)
    case PercentageSplit(percentages) => Percentages(percentages)
    case TopNEqual(n) => 1 <= n <= 1000
    case GuaranteedMinimum(minimums, rest) =>
      && 1 <= |minimums| <= 1000 && NonIncreasing(minimums)
      && (forall m | m in minimums :: m <= MAX_AMOUNT)
      && Percentages(rest)
  }

  predicate ValidStructure(p: PrizeStructure) {
    ValidShape(p.shape) && (p.participationFloor.Some? ==> p.participationFloor.value <= MAX_AMOUNT)
  }

  // ---- Ranking -----------------------------------------------------------------------

  function Compare(a: int, b: int): int {
    if a < b then -1 else if a > b then 1 else 0
  }

  function CompareScore(a: Entrant, b: Entrant): int {
    if a.score.None? then (if b.score.None? then 0 else 1)
    else if b.score.None? then -1
    else if a.score.value > b.score.value then -1
    else if a.score.value < b.score.value then 1
    else 0
  }

  function CompareNullsLast(a: Option<int>, b: Option<int>): int {
    if a.None? then (if b.None? then 0 else 1)
    else if b.None? then -1
    else Compare(a.value, b.value)
  }

  function CompareTieKey(a: Entrant, b: Entrant, rule: TieBreak): int {
    match rule
    case SplitEvenly => 0
    case HigherSeedWins => CompareNullsLast(a.seed, b.seed)
    case EarliestSubmissionWins => CompareNullsLast(a.submittedAt, b.submittedAt)
  }

  /** Score descending with unscored last, then the tie-break key: negative when `a` places better. */
  function CompareRank(a: Entrant, b: Entrant, rule: TieBreak): int {
    var byScore := CompareScore(a, b);
    if byScore != 0 || a.score.None? then byScore else CompareTieKey(a, b, rule)
  }

  function CompareEntries(a: Entrant, b: Entrant, rule: TieBreak): int {
    var byRank := CompareRank(a, b, rule);
    if byRank != 0 then byRank else Compare(a.user, b.user)
  }

  predicate Tied(a: Entrant, b: Entrant, rule: TieBreak) {
    if a.score.None? || b.score.None? then a.score.None? && b.score.None?
    else CompareScore(a, b) == 0 && CompareTieKey(a, b, rule) == 0
  }

  function Before(rule: TieBreak): (Entrant, Entrant) -> bool {
    (a, b) => CompareEntries(a, b, rule) <= 0
  }

  function Ordered(entries: seq<Entrant>, rule: TieBreak): seq<Entrant> {
    Sorting.Sort(Before(rule), entries)
  }

  datatype Group = Group(placement: nat, members: seq<Entrant>)

  /** Consecutive tied entrants share a group, whose placement is one more than the entrants ahead of it. */
  function Groups(ordered: seq<Entrant>, rule: TieBreak): (groups: seq<Group>)
    ensures forall g | g in groups :: g.members != []
    ensures ordered != [] ==> groups != []
  {
    if ordered == [] then []
    else
      var ahead := Groups(ordered[..|ordered| - 1], rule);
      var entrant := ordered[|ordered| - 1];
      if ahead != [] && Tied(ahead[|ahead| - 1].members[0], entrant, rule) then
        var last := ahead[|ahead| - 1];
        ahead[..|ahead| - 1] + [Group(last.placement, last.members + [entrant])]
      else
        ahead + [Group(|ordered|, [entrant])]
  }

  function Members(groups: seq<Group>): seq<Entrant> {
    if groups == [] then [] else Members(groups[..|groups| - 1]) + groups[|groups| - 1].members
  }

  // ---- Amounts -----------------------------------------------------------------------

  /** `count` shares of `total`, as equal as whole units allow, the larger ones first. */
  function EvenSplit(total: nat, count: nat): (shares: seq<int>)
    ensures |shares| == count
    ensures forall i | 0 <= i < count :: shares[i] >= 0
  {
    if count == 0 then []
    else seq(count, i => total / count + if i < total % count then 1 else 0)
  }

  /** Truncated or padded with zeros to `length`. */
  function Fit(values: seq<int>, length: nat): (fitted: seq<int>)
    ensures |fitted| == length
  {
    seq(length, i => if 0 <= i < |values| then values[i] else 0)
  }

  function FloorShares(pool: nat, weights: seq<nat>, total: nat): (shares: seq<int>)
    requires total > 0
    ensures |shares| == |weights|
  {
    seq(|weights|, i requires 0 <= i < |weights| => pool * weights[i] / total)
  }

  /** Floor shares in proportion to the weights, the leftover units going to the first slots. */
  function Proportional(pool: nat, weights: seq<nat>): (shares: seq<int>)
    ensures |shares| == |weights|
  {
    var total := Sum(weights);
    if total <= 0 then
      seq(|weights|, i => if i == 0 then pool else 0)
    else
      var floors := FloorShares(pool, weights, total);
      var leftover := pool - Sum(floors);
      seq(|weights|, i requires 0 <= i < |weights| => floors[i] + if i < leftover then 1 else 0)
  }

  /** Each minimum in turn, until the pool runs out. */
  function UntilSpent(pool: nat, minimums: seq<nat>): (paid: seq<int>)
    ensures |paid| == |minimums|
  {
    seq(|minimums|, i requires 0 <= i < |minimums| =>
      var left := pool - Sum(minimums[..i]);
      if left <= 0 then 0 else Min(minimums[i], left))
  }

  function Weights(shape: Shape): seq<nat>
    requires !shape.GuaranteedMinimum?
  {
    match shape
    case WinnerTakeAll => [1]
    case PlacementTable(rows, _) => rows
    case PercentageSplit(percentages) => percentages
    case TopNEqual(n) => seq(n, _ => 1)
  }

  /** One amount per placement slot, best first. */
  function PrizeVector(shape: Shape, pool: nat, slots: nat): (vector: seq<int>)
    ensures |vector| == slots
  {
    if shape.GuaranteedMinimum? then
      var minimums := Fit(shape.minimums, slots);
      var guaranteed := Sum(minimums);
      if pool >= guaranteed then
        SumNonNegative(minimums);
        var rest := Proportional(pool - guaranteed, Fit(shape.rest, slots));
        seq(slots, i requires 0 <= i < slots => minimums[i] + rest[i])
      else UntilSpent(pool, minimums)
    else Proportional(pool, Fit(Weights(shape), slots))
  }

  /** A tie group takes the sum of its slots and shares it evenly, on top of the floors. */
  function PayGroup(group: Group, position: nat, vector: seq<nat>, floors: seq<int>): (payouts: seq<Payout>)
    requires position + |group.members| <= |vector| == |floors|
    ensures |payouts| == |group.members|
  {
    var count := |group.members|;
    var slots := vector[position..position + count];
    SumNonNegative(slots);
    var shares := EvenSplit(Sum(slots), count);
    seq(count, i requires 0 <= i < count =>
      Payout(group.members[i].user, group.placement, floors[position + i] + shares[i]))
  }

  function PayGroups(groups: seq<Group>, vector: seq<nat>, floors: seq<int>): (payouts: seq<Payout>)
    requires |Members(groups)| <= |vector| == |floors|
    ensures |payouts| == |Members(groups)|
  {
    if groups == [] then []
    else
      var front := groups[..|groups| - 1];
      PayGroups(front, vector, floors) + PayGroup(groups[|groups| - 1], |Members(front)|, vector, floors)
  }

  // ---- The engine --------------------------------------------------------------------

  predicate DistinctUsers(entries: seq<Entrant>) {
    forall i, j | 0 <= i < j < |entries| :: entries[i].user != entries[j].user
  }

  function ScoredCount(entries: seq<Entrant>): nat {
    Sorting.Count((e: Entrant) => e.score.Some?, entries)
  }

  function FloorTotal(structure: PrizeStructure, pool: nat, entrants: nat): nat {
    match structure.participationFloor
    case None => 0
    case Some(floor) => Min(pool, floor * entrants)
  }

  function PaidSlots(entries: seq<Entrant>): nat {
    if ScoredCount(entries) > 0 then ScoredCount(entries) else |entries|
  }

  /** Every slot's amount over all the entrants, the slots past the scored ones worth nothing. */
  function Prizes(entries: seq<Entrant>, structure: PrizeStructure, pool: nat): seq<int> {
    Fit(PrizeVector(structure.shape, pool - FloorTotal(structure, pool, |entries|), PaidSlots(entries)), |entries|)
  }

  function Settle(pool: int, entries: seq<Entrant>, structure: PrizeStructure,
      rule: TieBreak): Result<seq<Payout>, SettlementError> {
    if !ValidStructure(structure) then Err(InvalidStructure)
    else if pool < 0 then Err(NegativeEscrow)
    else if !DistinctUsers(entries) then Err(DuplicateEntrant)
    else if entries == [] then (if pool != 0 then Err(NoRecipients) else Ok([]))
    else
      var ordered := Ordered(entries, rule);
      var groups := Groups(ordered, rule);
      var floors := EvenSplit(FloorTotal(structure, pool, |entries|), |entries|);
      OrderedFacts(entries, rule);
      GroupsPartition(ordered, rule);
      PrizesNonNegative(entries, structure, pool);
      Ok(PayGroups(groups, Prizes(entries, structure, pool), floors))
  }

  // ---- What the definitions above need -----------------------------------------------

  lemma {:induction false} BeforeIsTotal(rule: TieBreak)
    ensures Sorting.TotalPreorder(Before(rule))
  {
    var leq := Before(rule);
    forall a, b ensures leq(a, b) || leq(b, a) {
      assert CompareEntries(a, b, rule) <= 0 || CompareEntries(b, a, rule) <= 0;
    }
    forall a, b, c | leq(a, b) && leq(b, c) ensures leq(a, c) {
      assert CompareEntries(a, b, rule) <= 0 && CompareEntries(b, c, rule) <= 0;
      assert CompareEntries(a, c, rule) <= 0;
    }
  }

  lemma {:induction false} OrderedFacts(entries: seq<Entrant>, rule: TieBreak)
    ensures var ordered := Ordered(entries, rule);
      && |ordered| == |entries| && multiset(ordered) == multiset(entries)
      && Sorting.Sorted(Before(rule), ordered)
  {
    BeforeIsTotal(rule);
    Sorting.SortPermutes(Before(rule), entries);
    Sorting.SortSorts(Before(rule), entries);
  }

  lemma {:induction false} MembersPush(groups: seq<Group>, g: Group)
    ensures Members(groups + [g]) == Members(groups) + g.members
  {
    assert (groups + [g])[..|groups|] == groups;
  }

  lemma {:induction false} GroupsPush(ordered: seq<Entrant>, entrant: Entrant, rule: TieBreak)
    ensures var ahead := Groups(ordered, rule);
      Groups(ordered + [entrant], rule) ==
        if ahead != [] && Tied(ahead[|ahead| - 1].members[0], entrant, rule) then
          ahead[..|ahead| - 1] + [Group(ahead[|ahead| - 1].placement, ahead[|ahead| - 1].members + [entrant])]
        else ahead + [Group(|ordered| + 1, [entrant])]
  {
    assert (ordered + [entrant])[..|ordered|] == ordered;
  }

  lemma {:induction false} GroupsPartition(ordered: seq<Entrant>, rule: TieBreak)
    ensures Members(Groups(ordered, rule)) == ordered
  {
    if ordered != [] {
      var front := ordered[..|ordered| - 1];
      var entrant := ordered[|ordered| - 1];
      GroupsPartition(front, rule);
      var ahead := Groups(front, rule);
      assert ordered == front + [entrant];
      if ahead != [] && Tied(ahead[|ahead| - 1].members[0], entrant, rule) {
        var init := ahead[..|ahead| - 1];
        var last := ahead[|ahead| - 1];
        assert ahead == init + [last];
        MembersPush(init, last);
        MembersPush(init, Group(last.placement, last.members + [entrant]));
        assert Members(init) + (last.members + [entrant]) == (Members(init) + last.members) + [entrant];
      } else {
        MembersPush(ahead, Group(|ordered|, [entrant]));
      }
    }
  }

  lemma {:induction false} PrizesNonNegative(entries: seq<Entrant>, structure: PrizeStructure, pool: nat)
    ensures |Prizes(entries, structure, pool)| == |entries|
    ensures forall i | 0 <= i < |entries| :: Prizes(entries, structure, pool)[i] >= 0
  {
    var rest := pool - FloorTotal(structure, pool, |entries|);
    VectorNonNegative(structure.shape, rest, PaidSlots(entries));
  }

  lemma {:induction false} VectorNonNegative(shape: Shape, pool: nat, slots: nat)
    ensures forall i | 0 <= i < slots :: PrizeVector(shape, pool, slots)[i] >= 0
  {
    if shape.GuaranteedMinimum? {
      var minimums := Fit(shape.minimums, slots);
      if pool >= Sum(minimums) {
        SumNonNegative(minimums);
        ProportionalNonNegative(pool - Sum(minimums), Fit(shape.rest, slots));
      }
    } else {
      ProportionalNonNegative(pool, Fit(Weights(shape), slots));
    }
  }

  lemma {:induction false} ProportionalNonNegative(pool: nat, weights: seq<nat>)
    ensures forall i | 0 <= i < |weights| :: Proportional(pool, weights)[i] >= 0
  {
    var total := Sum(weights);
    if total > 0 {
      forall i | 0 <= i < |weights| ensures FloorShares(pool, weights, total)[i] >= 0 {
        assert pool * weights[i] >= 0;
      }
    }
  }
}
