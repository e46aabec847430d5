/**
 * The loops of the settlement engine (settle.ts), each computing what `Settlement` defines:
 * the leftover units handed out one at a time, the minimums paid until the pool runs out,
 * the tie groups built entrant by entrant, the payouts pushed group by group.
 */
module SettlementEngine {
  import opened Common
  import opened Settlement
  import opened SettlementTheorems

  method ShareProportionally(pool: nat, weights: seq<nat>) returns (shares: seq<int>)
    ensures shares == Proportional(pool, weights)
  {
    var total := 0;
    for i := 0 to |weights|
      invariant total == Sum(weights[..i])
    {
      total := total + weights[i];
      SumPush(weights[..i], weights[i]);
      assert weights[..i + 1] == weights[..i] + [weights[i]];
    }
    assert weights[..|weights|] == weights;
    SumNonNegative(weights);
    if total == 0 {
      return seq(|weights|, i => if i == 0 then pool else 0);
    }
    shares := FloorShares(pool, weights, total);
    ghost var floors := shares;
    LeftoverBound(pool, weights, total);
    var remainder := pool - Sum(shares);
    ghost var leftover := remainder;
    var index := 0;
    while remainder > 0 && index < |shares|
      invariant 0 <= index <= |shares| == |weights|
      invariant 0 <= remainder == leftover - index
      invariant forall i | 0 <= i < |shares| :: shares[i] == floors[i] + if i < index then 1 else 0
    {
      shares := shares[index := shares[index] + 1];
      remainder := remainder - 1;
      index := index + 1;
    }
    assert index == leftover;
  }

  method PayUntilSpent(pool: nat, minimums: seq<nat>) returns (paid: seq<int>)
    ensures paid == UntilSpent(pool, minimums)
  {
    paid := [];
    var remaining := pool;
    for i := 0 to |minimums|
      invariant |paid| == i
      invariant remaining == if pool >= Sum(minimums[..i]) then pool - Sum(minimums[..i]) else 0
      invariant forall k | 0 <= k < i :: paid[k] == UntilSpent(pool, minimums)[k]
    {
      var amount := Min(minimums[i], remaining);
      assert minimums[..i + 1] == minimums[..i] + [minimums[i]];
      SumPush(minimums[..i], minimums[i]);
      paid := paid + [amount];
      remaining := remaining - amount;
    }
  }

  method PrizeVectorOf(shape: Shape, pool: nat, slots: nat) returns (vector: seq<int>)
    ensures vector == PrizeVector(shape, pool, slots)
  {
    if shape.GuaranteedMinimum? {
      var minimums := Fit(shape.minimums, slots);
      SumNonNegative(minimums);
      var guaranteed := Sum(minimums);
      if pool >= guaranteed {
        var rest := ShareProportionally(pool - guaranteed, Fit(shape.rest, slots));
        vector := seq(slots, i requires 0 <= i < slots => minimums[i] + rest[i]);
      } else {
        vector := PayUntilSpent(pool, minimums);
      }
    } else {
      vector := ShareProportionally(pool, Fit(Weights(shape), slots));
    }
  }

  /** `rank`: each sorted entrant joins the last group when tied with its head, and opens a group otherwise. */
  method Rank(entries: seq<Entrant>, rule: TieBreak) returns (groups: seq<Group>)
    ensures groups == Groups(Ordered(entries, rule), rule)
  {
    groups := GroupInOrder(Ordered(entries, rule), rule);
  }

  method GroupInOrder(sorted: seq<Entrant>, rule: TieBreak) returns (groups: seq<Group>)
    ensures groups == Groups(sorted, rule)
  {
    groups := [];
    for i := 0 to |sorted|
      invariant groups == Groups(sorted[..i], rule)
    {
      NextGroups(sorted, i, rule);
      groups := Place(groups, sorted[i], rule);
    }
    assert sorted[..|sorted|] == sorted;
  }

  /** Where the next entrant goes: into the last group when tied with its head, or into a new one. */
  function Placed(groups: seq<Group>, entrant: Entrant, rule: TieBreak): seq<Group>
    requires forall g | g in groups :: g.members != []
  {
    if groups != [] && Tied(groups[|groups| - 1].members[0], entrant, rule) then
      groups[..|groups| - 1] + [Group(groups[|groups| - 1].placement, groups[|groups| - 1].members + [entrant])]
    else groups + [Group(|Members(groups)| + 1, [entrant])]
  }

  lemma {:induction false} NextGroups(sorted: seq<Entrant>, i: nat, rule: TieBreak)
    requires i < |sorted|
    ensures Groups(sorted[..i + 1], rule) == Placed(Groups(sorted[..i], rule), sorted[i], rule)
  {
    assert sorted[..i + 1] == sorted[..i] + [sorted[i]];
    GroupsPush(sorted[..i], sorted[i], rule);
    GroupsPartition(sorted[..i], rule);
  }

  method Place(groups: seq<Group>, entrant: Entrant, rule: TieBreak) returns (after: seq<Group>)
    requires forall g | g in groups :: g.members != []
    ensures after == Placed(groups, entrant, rule)
  {
    if groups != [] && Tied(groups[|groups| - 1].members[0], entrant, rule) {
      var last := groups[|groups| - 1];
      return groups[..|groups| - 1] + [last.(members := last.members + [entrant])];
    }
    var ahead := CountMembers(groups);
    return groups + [Group(ahead + 1, [entrant])];
  }

  method CountMembers(groups: seq<Group>) returns (total: nat)
    ensures total == |Members(groups)|
  {
    total := 0;
    for i := 0 to |groups|
      invariant total == |Members(groups[..i])|
    {
      assert groups[..i + 1] == groups[..i] + [groups[i]];
      MembersPush(groups[..i], groups[i]);
      total := total + |groups[i].members|;
    }
    assert groups[..|groups|] == groups;
  }

  method AllDistinct(entries: seq<Entrant>) returns (distinct: bool)
    ensures distinct == DistinctUsers(entries)
  {
    var seen: set<nat> := {};
    for i := 0 to |entries|
      invariant forall u :: u in seen <==> exists k :: 0 <= k < i && entries[k].user == u
      invariant forall k, m | 0 <= k < m < i :: entries[k].user != entries[m].user
    {
      if entries[i].user in seen {
        return false;
      }
      seen := seen + {entries[i].user};
    }
    return true;
  }

  method PayAll(groups: seq<Group>, vector: seq<nat>, floors: seq<int>) returns (payouts: seq<Payout>)
    requires |Members(groups)| == |vector| == |floors|
    ensures payouts == PayGroups(groups, vector, floors)
  {
    payouts := [];
    var position := 0;
    assert groups[..|groups|] == groups;
    for g := 0 to |groups|
      invariant position == |Members(groups[..g])| <= |vector|
      invariant payouts == PayGroups(groups[..g], vector, floors)
    {
      StartNext(groups, g);
      StartMonotone(groups, g + 1, |groups|);
      assert groups[..g + 1] == groups[..g] + [groups[g]];
      PayGroupsPush(groups[..g], groups[g], vector, floors);
      var paid := PayOne(groups[g], position, vector, floors);
      payouts := payouts + paid;
      position := position + |groups[g].members|;
    }
  }

  method PayOne(group: Group, position: nat, vector: seq<nat>, floors: seq<int>) returns (paid: seq<Payout>)
    requires position + |group.members| <= |vector| == |floors|
    ensures paid == PayGroup(group, position, vector, floors)
  {
    var combined := 0;
    for slot := position to position + |group.members|
      invariant combined == Sum(vector[position..slot]) && combined >= 0
    {
      assert vector[position..slot + 1] == vector[position..slot] + [vector[slot]];
      SumPush(vector[position..slot], vector[slot]);
      combined := combined + vector[slot];
    }
    var shares := EvenSplit(combined, |group.members|);
    paid := seq(|group.members|, i requires 0 <= i < |group.members| =>
      Payout(group.members[i].user, group.placement, floors[position + i] + shares[i]));
  }

  method RunSettle(pool: int, entries: seq<Entrant>, structure: PrizeStructure, rule: TieBreak)
      returns (result: Result<seq<Payout>, SettlementError>)
    ensures result == Settle(pool, entries, structure, rule)
  {
    if !ValidStructure(structure) {
      return Err(InvalidStructure);
    }
    if pool < 0 {
      return Err(NegativeEscrow);
    }
    var distinct := AllDistinct(entries);
    if !distinct {
      return Err(DuplicateEntrant);
    }
    if entries == [] {
      if pool != 0 {
        return Err(NoRecipients);
      }
      return Ok([]);
    }
    var groups := Rank(entries, rule);
    var count := |entries|;
    var floorTotal := FloorTotal(structure, pool, count);
    var floors := EvenSplit(floorTotal, count);
    var slots := PaidSlots(entries);
    var vector := PrizeVectorOf(structure.shape, pool - floorTotal, slots);
    OrderedFacts(entries, rule);
    GroupsPartition(Ordered(entries, rule), rule);
    PrizesNonNegative(entries, structure, pool);
    var payouts := PayAll(groups, Fit(vector, count), floors);
    return Ok(payouts);
  }
}
