/** What the settlement engine promises (settle.ts, lines 3-36; settlement/README.md). */
module SettlementTheorems {
  import opened Common
  import opened Settlement
  import Sorting

  function Amounts(payouts: seq<Payout>): (amounts: seq<int>)
    ensures |amounts| == |payouts|
  {
    seq(|payouts|, i requires 0 <= i < |payouts| => payouts[i].payout)
  }

  function TotalPaid(payouts: seq<Payout>): int {
    Sum(Amounts(payouts))
  }

  // ---- Shares ------------------------------------------------------------------------

  function Stair(base: int, leftover: nat, count: nat): (s: seq<int>)
    ensures |s| == count
  {
    seq(count, i => base + if i < leftover then 1 else 0)
  }

  lemma {:induction false} StairSum(base: int, leftover: nat, count: nat)
    ensures Sum(Stair(base, leftover, count)) == base * count + Min(leftover, count)
  {
    if count > 0 {
      StairSum(base, leftover, count - 1);
      assert Stair(base, leftover, count)[..count - 1] == Stair(base, leftover, count - 1);
    }
  }

  /** Nothing is lost or invented by an even split, and no two shares differ by more than a unit. */
  lemma {:induction false} EvenSplitExact(total: nat, count: nat)
    requires count > 0
    ensures Sum(EvenSplit(total, count)) == total
    ensures NonIncreasing(EvenSplit(total, count))
    ensures EvenSplit(total, count)[0] - EvenSplit(total, count)[count - 1] <= 1
  {
    assert EvenSplit(total, count) == Stair(total / count, total % count, count);
    StairSum(total / count, total % count, count);
  }

  lemma {:induction false} EvenSplitBetween(total: nat, count: nat, lo: int, hi: int)
    requires count > 0 && lo * count <= total <= hi * count
    ensures forall i | 0 <= i < count :: lo <= EvenSplit(total, count)[i] <= hi
  {
    var q, r := total / count, total % count;
    assert total == count * q + r && 0 <= r < count;
    assert count * lo <= total <= count * hi;
    assert total < count * (q + 1) && count * q <= total;
    ScaleOrder(count, lo, q + 1);
    ScaleOrder(count, hi, q);
    assert lo <= q <= hi;
    if r > 0 {
      ScaleOrder(count, q, hi);
    }
    forall i | 0 <= i < count ensures lo <= EvenSplit(total, count)[i] <= hi {
    }
  }

  lemma {:induction false} FloorStep(total: nat, f: int, share: int, pool: nat, s: int, w: nat, n: nat)
    requires total > 0 && share == pool * w / total
    requires total * f <= pool * s <= total * (f + n)
    ensures total * (f + share) <= pool * (s + w) <= total * (f + share + (n + 1))
  {
    var x := pool * w;
    assert pool * (s + w) == pool * s + x;
    assert x == total * share + x % total;
    assert total * (f + share) == total * f + total * share;
    assert total * (f + share + (n + 1)) == total * (f + n) + total * share + total;
  }

  /** The floors lose less than a unit per slot. */
  lemma {:induction false} FloorSharesSum(pool: nat, weights: seq<nat>, total: nat)
    requires total > 0
    ensures total * Sum(FloorShares(pool, weights, total)) <= pool * Sum(weights)
    ensures pool * Sum(weights) <= total * (Sum(FloorShares(pool, weights, total)) + |weights|)
  {
    if weights != [] {
      var n := |weights| - 1;
      var front, w := weights[..n], weights[n];
      FloorSharesSum(pool, front, total);
      var shares := FloorShares(pool, weights, total);
      assert shares[..n] == FloorShares(pool, front, total);
      assert Sum(shares) == Sum(shares[..n]) + shares[n];
      FloorStep(total, Sum(shares[..n]), shares[n], pool, Sum(front), w, n);
    }
  }

  lemma {:induction false} CancelTotal(total: nat, floors: int, pool: int, slack: int)
    requires total > 0 && total * floors <= pool * total <= total * (floors + slack)
    ensures floors <= pool <= floors + slack
  {
    assert pool * total == total * pool;
    ScaleOrder(total, pool, floors);
    ScaleOrder(total, floors + slack, pool);
  }

  lemma {:induction false} LeftoverBound(pool: nat, weights: seq<nat>, total: nat)
    requires total == Sum(weights) > 0
    ensures 0 <= pool - Sum(FloorShares(pool, weights, total)) <= |weights|
  {
    FloorSharesSum(pool, weights, total);
    CancelTotal(total, Sum(FloorShares(pool, weights, total)), pool, |weights|);
  }

  lemma {:induction false} ProportionalExact(pool: nat, weights: seq<nat>)
    requires weights != []
    ensures Sum(Proportional(pool, weights)) == pool
  {
    var total := Sum(weights);
    if total <= 0 {
      var shares := Proportional(pool, weights);
      SumConstant(shares[1..], 0);
      SumSplit(shares, 1);
      assert shares[..1] == [pool];
      SumPush([], pool);
      assert [] + [pool] == [pool];
    } else {
      LeftoverBound(pool, weights, total);
      var floors := FloorShares(pool, weights, total);
      var leftover := pool - Sum(floors);
      StairSum(0, leftover, |weights|);
      SumAdd(floors, Stair(0, leftover, |weights|), Proportional(pool, weights));
    }
  }

  lemma {:induction false} ZeroWeightsTail(weights: seq<nat>, k: nat)
    requires k <= |weights| && forall i | k <= i < |weights| :: weights[i] == 0
    ensures Sum(weights) == Sum(weights[..k])
  {
    SumSplit(weights, k);
    SumConstant(weights[k..], 0);
  }

  /**
   * With non-increasing weights the leftover units are fewer than the positive weights, so
   * they never reach a slot of zero weight and the shares are non-increasing too.
   */
  lemma {:induction false} ProportionalOrdered(pool: nat, weights: seq<nat>)
    requires NonIncreasing(weights)
    ensures NonIncreasing(Proportional(pool, weights))
    ensures Sum(weights) > 0 ==> forall i | 0 <= i < |weights| && weights[i] == 0 :: Proportional(pool, weights)[i] == 0
  {
    var total := Sum(weights);
    if total > 0 {
      forall i, j | 0 <= i < j < |weights| ensures Proportional(pool, weights)[i] >= Proportional(pool, weights)[j] {
        ShareMonotone(pool, weights, i, j);
      }
      forall i | 0 <= i < |weights| && weights[i] == 0 ensures Proportional(pool, weights)[i] == 0 {
        LeftoverStopsAt(pool, weights, i);
        ZeroShare(pool, weights, total, i);
      }
    }
  }

  lemma {:induction false} ShareMonotone(pool: nat, weights: seq<nat>, i: nat, j: nat)
    requires Sum(weights) > 0 && i < j < |weights| && weights[i] >= weights[j]
    ensures FloorShares(pool, weights, Sum(weights))[i] >= FloorShares(pool, weights, Sum(weights))[j]
  {
    assert pool * weights[i] - pool * weights[j] == pool * (weights[i] - weights[j]) >= 0;
    DivMonotone(pool * weights[j], pool * weights[i], Sum(weights));
  }

  lemma {:induction false} ZeroShare(pool: nat, weights: seq<nat>, total: nat, i: nat)
    requires total > 0 && i < |weights| && weights[i] == 0
    ensures FloorShares(pool, weights, total)[i] == 0
  {
    assert pool * weights[i] == 0;
  }

  lemma {:induction false} LeftoverStopsAt(pool: nat, weights: seq<nat>, k: nat)
    requires NonIncreasing(weights) && Sum(weights) > 0 && k < |weights| && weights[k] == 0
    ensures pool - Sum(FloorShares(pool, weights, Sum(weights))) <= k
  {
    var total := Sum(weights);
    forall i | k <= i < |weights| ensures weights[i] == 0 {
      assert i == k || weights[k] >= weights[i];
    }
    ZeroWeightsTail(weights, k);
    var front := weights[..k];
    FloorSharesSum(pool, front, total);
    var floors := FloorShares(pool, weights, total);
    assert floors[..k] == FloorShares(pool, front, total);
    SumSplit(floors, k);
    forall i | 0 <= i < |floors[k..]| ensures floors[k..][i] == 0 {
      assert weights[k + i] == 0 by {
        assert weights[k] >= weights[k + i] || i == 0;
      }
      ZeroShare(pool, weights, total, k + i);
    }
    SumConstant(floors[k..], 0);
    var f := Sum(floors);
    CancelTotal(total, f, pool, k);
  }

  /** Paying each minimum until the pool runs out pays out the pool. */
  lemma {:induction false} UntilSpentSum(pool: nat, minimums: seq<nat>, k: nat)
    requires k <= |minimums|
    ensures Sum(UntilSpent(pool, minimums)[..k]) == Min(pool, Sum(minimums[..k]))
  {
    var paid := UntilSpent(pool, minimums);
    if k > 0 {
      UntilSpentSum(pool, minimums, k - 1);
      assert paid[..k][..k - 1] == paid[..k - 1];
      assert minimums[..k][..k - 1] == minimums[..k - 1];
      SumNonNegative(minimums[..k - 1]);
    }
  }

  lemma {:induction false} UntilSpentOrdered(pool: nat, minimums: seq<nat>)
    requires NonIncreasing(minimums)
    ensures NonIncreasing(UntilSpent(pool, minimums))
  {
    var paid := UntilSpent(pool, minimums);
    forall i, j | 0 <= i < j < |minimums| ensures paid[i] >= paid[j] {
      SpentBefore(minimums, i, j);
    }
  }

  lemma {:induction false} SpentBefore(minimums: seq<nat>, i: nat, j: nat)
    requires i < j < |minimums|
    ensures Sum(minimums[..i]) + minimums[i] <= Sum(minimums[..j])
  {
    SumSplit(minimums[..j], i + 1);
    assert minimums[..j][..i + 1] == minimums[..i] + [minimums[i]];
    SumPush(minimums[..i], minimums[i]);
    SumNonNegative(minimums[..j][i + 1..]);
  }

  // ---- The prize vector --------------------------------------------------------------

  lemma {:induction false} FitFacts(values: seq<nat>, n: nat)
    requires NonIncreasing(values)
    ensures NonIncreasing(Fit(values, n))
    ensures |values| > 0 && values[0] > 0 && n > 0 ==> Sum(Fit(values, n)) > 0
  {
    if |values| > 0 && values[0] > 0 && n > 0 {
      SumNonNegative(Fit(values, n));
      assert Fit(values, n)[0] > 0;
    }
  }

  lemma {:induction false} PercentagesPositive(s: seq<nat>)
    requires Percentages(s)
    ensures s[0] > 0
  {
    if s[0] == 0 {
      forall i | 0 <= i < |s| ensures s[i] == 0 {
        assert i == 0 || s[0] >= s[i];
      }
      SumConstant(s, 0);
    }
  }

  /** The weights the vector is shared by: non-increasing, the first one positive. */
  lemma {:induction false} WeightsFacts(shape: Shape)
    requires ValidShape(shape) && !shape.GuaranteedMinimum?
    ensures NonIncreasing(Weights(shape)) && |Weights(shape)| > 0 && Weights(shape)[0] > 0
  {
    if shape.PercentageSplit? {
      PercentagesPositive(shape.percentages);
    }
  }

  /** The vector divides the pool exactly, a better slot never getting less. */
  lemma {:induction false} VectorFacts(shape: Shape, pool: nat, slots: nat)
    requires ValidShape(shape) && slots > 0
    ensures Sum(PrizeVector(shape, pool, slots)) == pool
    ensures NonIncreasing(PrizeVector(shape, pool, slots))
  {
    if shape.GuaranteedMinimum? {
      GuaranteedFacts(shape, pool, slots);
    } else {
      WeightsFacts(shape);
      var weights := Fit(Weights(shape), slots);
      FitFacts(Weights(shape), slots);
      ProportionalExact(pool, weights);
      ProportionalOrdered(pool, weights);
    }
  }

  lemma {:induction false} GuaranteedFacts(shape: Shape, pool: nat, slots: nat)
    requires ValidShape(shape) && slots > 0 && shape.GuaranteedMinimum?
    ensures Sum(PrizeVector(shape, pool, slots)) == pool
    ensures NonIncreasing(PrizeVector(shape, pool, slots))
  {
    var minimums := Fit(shape.minimums, slots);
    FitFacts(shape.minimums, slots);
    SumNonNegative(minimums);
    if pool >= Sum(minimums) {
      var left := pool - Sum(minimums);
      var weights := Fit(shape.rest, slots);
      FitFacts(shape.rest, slots);
      ProportionalExact(left, weights);
      ProportionalOrdered(left, weights);
      SumAdd(minimums, Proportional(left, weights), PrizeVector(shape, pool, slots));
    } else {
      UntilSpentSum(pool, minimums, slots);
      assert UntilSpent(pool, minimums)[..slots] == UntilSpent(pool, minimums);
      assert minimums[..slots] == minimums;
      UntilSpentOrdered(pool, minimums);
    }
  }

  lemma {:induction false} PaidSlotsBound(entries: seq<Entrant>)
    ensures PaidSlots(entries) <= |entries|
    ensures entries != [] ==> PaidSlots(entries) > 0
  {
    Sorting.CountBound((e: Entrant) => e.score.Some?, entries);
  }

  lemma {:induction false} PaddedFacts(vector: seq<nat>, n: nat)
    requires |vector| <= n && NonIncreasing(vector)
    ensures Sum(Fit(vector, n)) == Sum(vector) && NonIncreasing(Fit(vector, n))
    ensures forall i | 0 <= i < n :: Fit(vector, n)[i] >= 0
    ensures forall i | |vector| <= i < n :: Fit(vector, n)[i] == 0
  {
    var padded := Fit(vector, n);
    assert padded[..|vector|] == vector;
    SumSplit(padded, |vector|);
    SumConstant(padded[|vector|..], 0);
  }

  lemma {:induction false} VectorPadded(shape: Shape, pool: nat, slots: nat, n: nat)
    requires ValidShape(shape) && 0 < slots <= n
    ensures var prizes := Fit(PrizeVector(shape, pool, slots), n);
      && Sum(prizes) == pool && NonIncreasing(prizes)
      && (forall i | 0 <= i < n :: prizes[i] >= 0) && (forall i | slots <= i < n :: prizes[i] == 0)
  {
    VectorFacts(shape, pool, slots);
    VectorNonNegative(shape, pool, slots);
    PaddedFacts(PrizeVector(shape, pool, slots), n);
  }

  lemma {:induction false} PrizesFacts(entries: seq<Entrant>, structure: PrizeStructure, pool: nat)
    requires ValidStructure(structure) && entries != []
    ensures Sum(Prizes(entries, structure, pool)) == pool - FloorTotal(structure, pool, |entries|)
    ensures NonIncreasing(Prizes(entries, structure, pool))
    ensures forall i | 0 <= i < |entries| :: Prizes(entries, structure, pool)[i] >= 0
    ensures forall i | PaidSlots(entries) <= i < |entries| :: Prizes(entries, structure, pool)[i] == 0
  {
    PaidSlotsBound(entries);
    VectorPadded(structure.shape, pool - FloorTotal(structure, pool, |entries|), PaidSlots(entries), |entries|);
  }

  // ---- Groups ------------------------------------------------------------------------

  /** Where group `k` starts among the ordered entrants. */
  function Start(groups: seq<Group>, k: nat): nat
    requires k <= |groups|
  {
    |Members(groups[..k])|
  }

  lemma {:induction false} StartNext(groups: seq<Group>, k: nat)
    requires k < |groups|
    ensures Start(groups, k + 1) == Start(groups, k) + |groups[k].members|
  {
    assert groups[..k + 1] == groups[..k] + [groups[k]];
    MembersPush(groups[..k], groups[k]);
  }

  lemma {:induction false} StartMonotone(groups: seq<Group>, j: nat, k: nat)
    requires j <= k <= |groups|
    ensures Start(groups, j) <= Start(groups, k)
  {
    if j < k {
      StartMonotone(groups, j, k - 1);
      StartNext(groups, k - 1);
    }
  }

  /** Group `k`'s members and payouts, where they stand among everybody's. */
  ghost predicate PaidFrom(groups: seq<Group>, vector: seq<nat>, floors: seq<int>, k: nat)
    requires |Members(groups)| <= |vector| == |floors| && k < |groups|
  {
    var start, end := Start(groups, k), Start(groups, k + 1);
    && start + |groups[k].members| == end <= |Members(groups)|
    && Members(groups)[start..end] == groups[k].members
    && PayGroups(groups, vector, floors)[start..end] == PayGroup(groups[k], start, vector, floors)
  }

  lemma {:induction false} GroupsPaid(groups: seq<Group>, vector: seq<nat>, floors: seq<int>, k: nat)
    requires |Members(groups)| <= |vector| == |floors| && k < |groups|
    ensures PaidFrom(groups, vector, floors, k)
  {
    PayGroupsLast(groups, vector, floors);
    if k < |groups| - 1 {
      GroupsPaid(groups[..|groups| - 1], vector, floors, k);
      EarlierPaid(groups, vector, floors, k);
    } else {
      var front, last := groups[..|groups| - 1], groups[|groups| - 1];
      SliceBack(Members(front), last.members);
      SliceBack(PayGroups(front, vector, floors), PayGroup(last, |Members(front)|, vector, floors));
    }
  }

  lemma {:induction false} EarlierPaid(groups: seq<Group>, vector: seq<nat>, floors: seq<int>, k: nat)
    requires k < |groups| - 1 && |Members(groups[..|groups| - 1])| <= |Members(groups)| <= |vector| == |floors|
    requires PaidFrom(groups[..|groups| - 1], vector, floors, k)
    ensures PaidFrom(groups, vector, floors, k)
  {
    var front, last := groups[..|groups| - 1], groups[|groups| - 1];
    PayGroupsLast(groups, vector, floors);
    StartsInFront(groups, k);
    StartsInFront(groups, k + 1);
    SliceFront(Members(front), last.members, Start(front, k), Start(front, k + 1));
    SliceFront(PayGroups(front, vector, floors), PayGroup(last, |Members(front)|, vector, floors),
               Start(front, k), Start(front, k + 1));
  }

  lemma {:induction false} SliceFront<T>(a: seq<T>, b: seq<T>, from: nat, to: nat)
    requires from <= to <= |a|
    ensures (a + b)[from..to] == a[from..to]
  {
  }

  lemma {:induction false} SliceBack<T>(a: seq<T>, b: seq<T>)
    ensures (a + b)[|a|..|a| + |b|] == b
  {
  }

  lemma {:induction false} SliceAt<T>(whole: seq<T>, from: nat, to: nat, part: seq<T>, i: nat)
    requires from <= i < to <= |whole| && whole[from..to] == part
    ensures i - from < |part| && whole[i] == part[i - from]
  {
  }

  /** The group entrant `i` is paid in, and how. */
  lemma {:induction false} GroupAt(groups: seq<Group>, vector: seq<nat>, floors: seq<int>, i: nat) returns (k: nat)
    requires |Members(groups)| <= |vector| == |floors| && i < |Members(groups)|
    ensures k < |groups| && Start(groups, k) <= i < Start(groups, k + 1) <= |Members(groups)|
    ensures Start(groups, k + 1) == Start(groups, k) + |groups[k].members|
    ensures Members(groups)[i] == groups[k].members[i - Start(groups, k)]
    ensures PayGroups(groups, vector, floors)[i]
      == PayGroup(groups[k], Start(groups, k), vector, floors)[i - Start(groups, k)]
  {
    k := GroupOver(groups, i);
    var start, end := Start(groups, k), Start(groups, k + 1);
    GroupsPaid(groups, vector, floors, k);
    SliceAt(Members(groups), start, end, groups[k].members, i);
    SliceAt(PayGroups(groups, vector, floors), start, end, PayGroup(groups[k], start, vector, floors), i);
  }

  lemma {:induction false} GroupOver(groups: seq<Group>, i: nat) returns (k: nat)
    requires i < |Members(groups)|
    ensures k < |groups| && Start(groups, k) <= i < Start(groups, k + 1)
  {
    var front := groups[..|groups| - 1];
    if i < |Members(front)| {
      k := GroupOver(front, i);
      StartsInFront(groups, k);
      StartsInFront(groups, k + 1);
    } else {
      k := |groups| - 1;
      assert groups[..|groups|] == groups;
    }
  }

  lemma {:induction false} StartsInFront(groups: seq<Group>, k: nat)
    requires k < |groups|
    ensures Start(groups[..|groups| - 1], k) == Start(groups, k)
  {
    assert groups[..|groups| - 1][..k] == groups[..k];
  }

  /** What the last group adds to the members and to the payouts. */
  lemma {:induction false} PayGroupsLast(groups: seq<Group>, vector: seq<nat>, floors: seq<int>)
    requires groups != [] && |Members(groups)| <= |vector| == |floors|
    ensures var front, last := groups[..|groups| - 1], groups[|groups| - 1];
      && Start(groups, |groups| - 1) == |Members(front)| && Start(groups, |groups|) == |Members(groups)|
      && |Members(front)| + |last.members| == |Members(groups)|
      && Members(groups) == Members(front) + last.members
      && PayGroups(groups, vector, floors) == PayGroups(front, vector, floors)
        + PayGroup(last, |Members(front)|, vector, floors)
  {
    var front, last := groups[..|groups| - 1], groups[|groups| - 1];
    assert groups == front + [last] && groups[..|groups|] == groups;
    MembersPush(front, last);
    PayGroupsPush(front, last, vector, floors);
  }

  lemma {:induction false} TiedIsRankZero(a: Entrant, b: Entrant, rule: TieBreak)
    ensures Tied(a, b, rule) <==> CompareRank(a, b, rule) == 0
  {
  }

  lemma {:induction false} RankTransitive(a: Entrant, b: Entrant, c: Entrant, rule: TieBreak)
    ensures CompareRank(a, b, rule) <= 0 && CompareRank(b, c, rule) < 0 ==> CompareRank(a, c, rule) < 0
    ensures CompareRank(a, b, rule) < 0 && CompareRank(b, c, rule) <= 0 ==> CompareRank(a, c, rule) < 0
    ensures CompareRank(a, b, rule) == 0 && CompareRank(b, c, rule) == 0 ==> CompareRank(a, c, rule) == 0
    ensures CompareRank(a, b, rule) == -CompareRank(b, a, rule)
  {
  }

  ghost predicate GroupRanked(groups: seq<Group>, k: nat, ordered: seq<Entrant>, rule: TieBreak)
    requires k < |groups| && Start(groups, k) <= |ordered|
  {
    var head := groups[k].members;
    && head != []
    && groups[k].placement == Start(groups, k) + 1
    && (forall m | 0 <= m < |head| :: CompareRank(head[m], head[0], rule) == 0)
    && (forall j | 0 <= j < Start(groups, k) :: CompareRank(ordered[j], head[0], rule) < 0)
  }

  lemma {:induction false} GroupStarts(ordered: seq<Entrant>, rule: TieBreak, k: nat)
    requires k < |Groups(ordered, rule)|
    ensures Start(Groups(ordered, rule), k) + |Groups(ordered, rule)[k].members| <= |ordered|
  {
    var groups := Groups(ordered, rule);
    GroupsPartition(ordered, rule);
    StartNext(groups, k);
    StartMonotone(groups, k + 1, |groups|);
    assert groups[..|groups|] == groups;
  }

  lemma {:induction false} GroupsRanked(ordered: seq<Entrant>, rule: TieBreak, k: nat)
    requires Sorting.Sorted(Before(rule), ordered) && k < |Groups(ordered, rule)|
    ensures Start(Groups(ordered, rule), k) <= |ordered|
    ensures GroupRanked(Groups(ordered, rule), k, ordered, rule)
  {
    var n := |ordered| - 1;
    var ahead := Groups(ordered[..n], rule);
    if k < |ahead| - 1 {
      GroupsRanked(ordered[..n], rule, k);
      EarlierRanked(ordered[..n], ordered[n], ordered, rule, k);
    } else if ahead == [] {
      OnlyRanked(ordered, rule, k);
    } else {
      GroupsRanked(ordered[..n], rule, |ahead| - 1);
      LastRanked(ordered, rule, k);
    }
  }

  /** An entrant with nobody ahead is a group of their own. */
  lemma {:induction false} OnlyRanked(ordered: seq<Entrant>, rule: TieBreak, k: nat)
    requires ordered != [] && Groups(ordered[..|ordered| - 1], rule) == [] && k < |Groups(ordered, rule)|
    ensures Start(Groups(ordered, rule), k) <= |ordered|
    ensures GroupRanked(Groups(ordered, rule), k, ordered, rule)
  {
    var entrant := ordered[|ordered| - 1];
    GroupStarts(ordered, rule, k);
    RankTransitive(entrant, entrant, entrant, rule);
  }

  /** A group before the last is left as it was by the next entrant. */
  lemma {:induction false} EarlierRanked(front: seq<Entrant>, entrant: Entrant, ordered: seq<Entrant>, rule: TieBreak,
      k: nat)
    requires ordered == front + [entrant] && k < |Groups(front, rule)| - 1
    requires Start(Groups(front, rule), k) <= |front| && GroupRanked(Groups(front, rule), k, front, rule)
    ensures k < |Groups(ordered, rule)| && Start(Groups(ordered, rule), k) <= |ordered|
    ensures GroupRanked(Groups(ordered, rule), k, ordered, rule)
  {
    LastGroupAfter(front, entrant, rule);
    SamePrefix(Groups(front, rule), Groups(ordered, rule), |Groups(front, rule)| - 1, k);
    StaysRanked(Groups(front, rule), Groups(ordered, rule), k, front, ordered, rule);
  }

  lemma {:induction false} SamePrefix<T>(a: seq<T>, b: seq<T>, n: nat, k: nat)
    requires k < n <= |a| && n <= |b| && a[..n] == b[..n]
    ensures a[k] == b[k] && a[..k] == b[..k]
  {
    assert a[..n][k] == b[..n][k] && a[..n][..k] == a[..k] && b[..n][..k] == b[..k];
  }

  /** The newest entrant either joins the last group or, ranked behind it, opens a new one. */
  lemma {:induction false} LastRanked(ordered: seq<Entrant>, rule: TieBreak, k: nat)
    requires Sorting.Sorted(Before(rule), ordered) && |ordered| > 1
    requires var ahead := Groups(ordered[..|ordered| - 1], rule);
      && |ahead| - 1 <= k < |Groups(ordered, rule)|
      && Start(ahead, |ahead| - 1) <= |ordered| - 1
      && GroupRanked(ahead, |ahead| - 1, ordered[..|ordered| - 1], rule)
    ensures Start(Groups(ordered, rule), k) <= |ordered|
    ensures GroupRanked(Groups(ordered, rule), k, ordered, rule)
  {
    var front, entrant := ordered[..|ordered| - 1], ordered[|ordered| - 1];
    GroupStarts(ordered, rule, k);
    assert ordered == front + [entrant];
    if k == |Groups(front, rule)| - 1 {
      JoinedRanked(front, entrant, ordered, rule);
    } else {
      OpenedRanked(front, entrant, ordered, rule);
    }
  }

  lemma {:induction false} JoinedRanked(front: seq<Entrant>, entrant: Entrant, ordered: seq<Entrant>, rule: TieBreak)
    requires front != [] && ordered == front + [entrant]
    requires var ahead := Groups(front, rule); var last := |ahead| - 1;
      Start(ahead, last) <= |front| && GroupRanked(ahead, last, front, rule)
    ensures var last := |Groups(front, rule)| - 1; var groups := Groups(ordered, rule);
      && last < |groups| && Start(groups, last) <= |ordered| && GroupRanked(groups, last, ordered, rule)
  {
    LastGroupKeepsRank(front, entrant, ordered, rule);
    StaysRanked(Groups(front, rule), Groups(ordered, rule), |Groups(front, rule)| - 1, front, ordered, rule);
  }

  /** A group that starts where it did, under the same head, is ranked as it was. */
  lemma {:induction false} StaysRanked(ahead: seq<Group>, groups: seq<Group>, k: nat, front: seq<Entrant>,
      ordered: seq<Entrant>, rule: TieBreak)
    requires k < |ahead| && k < |groups| && ahead[..k] == groups[..k] && front <= ordered
    requires Start(ahead, k) <= |front| && GroupRanked(ahead, k, front, rule)
    requires groups[k].placement == ahead[k].placement
    requires groups[k].members != [] && groups[k].members[0] == ahead[k].members[0]
    requires forall m | 0 <= m < |groups[k].members| ::
      CompareRank(groups[k].members[m], groups[k].members[0], rule) == 0
    ensures Start(groups, k) <= |ordered| && GroupRanked(groups, k, ordered, rule)
  {
    assert forall j | 0 <= j < Start(ahead, k) :: ordered[j] == front[j];
  }

  lemma {:induction false} OpenedRanked(front: seq<Entrant>, entrant: Entrant, ordered: seq<Entrant>, rule: TieBreak)
    requires front != [] && ordered == front + [entrant] && Sorting.Sorted(Before(rule), ordered)
    requires var ahead := Groups(front, rule);
      && |Groups(ordered, rule)| == |ahead| + 1
      && Start(ahead, |ahead| - 1) <= |front| && GroupRanked(ahead, |ahead| - 1, front, rule)
    ensures var k := |Groups(ordered, rule)| - 1; var groups := Groups(ordered, rule);
      Start(groups, k) <= |ordered| && GroupRanked(groups, k, ordered, rule)
  {
    GroupsPush(front, entrant, rule);
    OpensGroup(front, entrant, ordered, rule);
    StandsAlone(Groups(front, rule), entrant, ordered, rule);
  }

  /** A group of one, opened behind everybody else. */
  lemma {:induction false} StandsAlone(ahead: seq<Group>, entrant: Entrant, ordered: seq<Entrant>, rule: TieBreak)
    requires ordered != [] && |Members(ahead)| == |ordered| - 1 && CompareRank(entrant, entrant, rule) == 0
    requires forall j | 0 <= j < |ordered| - 1 :: CompareRank(ordered[j], entrant, rule) < 0
    ensures var groups := ahead + [Group(|ordered|, [entrant])];
      Start(groups, |ahead|) <= |ordered| && GroupRanked(groups, |ahead|, ordered, rule)
  {
    var groups := ahead + [Group(|ordered|, [entrant])];
    assert groups[..|ahead|] == ahead;
  }

  lemma {:induction false} OpensGroup(front: seq<Entrant>, entrant: Entrant, ordered: seq<Entrant>, rule: TieBreak)
    requires front != [] && ordered == front + [entrant] && Sorting.Sorted(Before(rule), ordered)
    requires var groups := Groups(front, rule); var k := |groups| - 1;
      && Start(groups, k) <= |front| && GroupRanked(groups, k, front, rule)
      && !Tied(groups[k].members[0], entrant, rule)
    ensures |Members(Groups(front, rule))| == |front|
    ensures CompareRank(entrant, entrant, rule) == 0
    ensures forall j | 0 <= j < |front| :: CompareRank(ordered[j], entrant, rule) < 0
  {
    GroupsPartition(front, rule);
    RankTransitive(entrant, entrant, entrant, rule);
    forall j | 0 <= j < |front| ensures CompareRank(ordered[j], entrant, rule) < 0 {
      BehindTheHead(front, rule, entrant, ordered, j);
    }
  }

  lemma {:induction false} LastGroupKeepsRank(front: seq<Entrant>, entrant: Entrant, ordered: seq<Entrant>,
      rule: TieBreak)
    requires front != [] && ordered == front + [entrant]
    requires var ahead := Groups(front, rule); var last := |ahead| - 1;
      && Start(ahead, last) <= |front| && GroupRanked(ahead, last, front, rule)
    ensures var ahead, groups := Groups(front, rule), Groups(ordered, rule); var last := |ahead| - 1;
      && last < |groups| && groups[..last] == ahead[..last]
      && groups[last].placement == ahead[last].placement
      && groups[last].members != [] && groups[last].members[0] == ahead[last].members[0]
      && forall m | 0 <= m < |groups[last].members| ::
          CompareRank(groups[last].members[m], groups[last].members[0], rule) == 0
  {
    var ahead := Groups(front, rule);
    var head := ahead[|ahead| - 1].members[0];
    LastGroupAfter(front, entrant, rule);
    if Tied(head, entrant, rule) {
      TiedIsRankZero(head, entrant, rule);
      RankTransitive(head, entrant, head, rule);
    }
  }

  /** The last group takes the next entrant in when tied with its head, and is left as it was otherwise. */
  lemma {:induction false} LastGroupAfter(front: seq<Entrant>, entrant: Entrant, rule: TieBreak)
    requires front != []
    ensures var ahead, groups := Groups(front, rule), Groups(front + [entrant], rule); var last := |ahead| - 1;
      && last < |groups| && groups[..last] == ahead[..last]
      && groups[last] == if Tied(ahead[last].members[0], entrant, rule)
           then Group(ahead[last].placement, ahead[last].members + [entrant]) else ahead[last]
  {
    GroupsPush(front, entrant, rule);
    var ahead := Groups(front, rule);
    LastReplaced(ahead, Group(ahead[|ahead| - 1].placement, ahead[|ahead| - 1].members + [entrant]),
        Group(|front| + 1, [entrant]));
  }

  lemma {:induction false} LastReplaced(groups: seq<Group>, joined: Group, alone: Group)
    requires groups != []
    ensures var last := |groups| - 1;
      && (groups[..last] + [joined])[..last] == groups[..last] && (groups[..last] + [joined])[last] == joined
      && (groups + [alone])[..last] == groups[..last] && (groups + [alone])[last] == groups[last]
  {
  }

  lemma {:induction false} LastGroupEnds(front: seq<Entrant>, rule: TieBreak)
    requires front != []
    ensures var groups := Groups(front, rule);
      Start(groups, |groups| - 1) + |groups[|groups| - 1].members| == |front|
  {
    var groups := Groups(front, rule);
    GroupsPartition(front, rule);
    StartNext(groups, |groups| - 1);
    assert groups[..|groups|] == groups;
  }

  /** An entrant not tied with the last group's head is behind everyone in front of it. */
  lemma {:induction false} BehindTheHead(front: seq<Entrant>, rule: TieBreak, entrant: Entrant, ordered: seq<Entrant>,
      j: nat)
    requires front != [] && ordered == front + [entrant] && j < |front|
    requires Sorting.Sorted(Before(rule), ordered)
    requires var groups := Groups(front, rule); var k := |groups| - 1;
      && Start(groups, k) <= |front| && GroupRanked(groups, k, front, rule)
      && !Tied(groups[k].members[0], entrant, rule)
    ensures CompareRank(ordered[j], entrant, rule) < 0
  {
    var groups := Groups(front, rule);
    var k := |groups| - 1;
    var start, head := Start(groups, k), groups[k].members[0];
    LastGroupEnds(front, rule);
    GroupsPartition(front, rule);
    assert groups == groups[..k] + [groups[k]];
    MembersPush(groups[..k], groups[k]);
    assert front[start] == head;
    TiedIsRankZero(head, entrant, rule);
    assert Before(rule)(ordered[start], ordered[|front|]);
    assert CompareEntries(head, entrant, rule) <= 0;
    assert CompareRank(head, entrant, rule) < 0;
    if j >= start {
      assert front[j] == groups[k].members[j - start];
    }
    RankTransitive(ordered[j], head, entrant, rule);
  }

  // ---- Payouts -----------------------------------------------------------------------

  lemma {:induction false} PayGroupSum(group: Group, position: nat, vector: seq<nat>, floors: seq<int>)
    requires position + |group.members| <= |vector| == |floors| && group.members != []
    ensures var next := position + |group.members|;
      Sum(Amounts(PayGroup(group, position, vector, floors)))
          == Sum(vector[position..next]) + Sum(floors[position..next])
  {
    var count := |group.members|;
    var slots, base := vector[position..position + count], floors[position..position + count];
    SumNonNegative(slots);
    EvenSplitExact(Sum(slots), count);
    SharesAndFloors(group, position, vector, floors, EvenSplit(Sum(slots), count), base);
    SumAdd(EvenSplit(Sum(slots), count), base, Amounts(PayGroup(group, position, vector, floors)));
  }

  /** Each member is paid a share of the group's slots on top of their floor. */
  lemma {:induction false} SharesAndFloors(group: Group, position: nat, vector: seq<nat>, floors: seq<int>,
      shares: seq<int>, base: seq<int>)
    requires var count := |group.members|;
      && count > 0 && position + count <= |vector| == |floors| && base == floors[position..position + count]
      && Sum(vector[position..position + count]) >= 0
      && shares == EvenSplit(Sum(vector[position..position + count]), count)
    ensures var amounts := Amounts(PayGroup(group, position, vector, floors));
      && |amounts| == |shares| == |base| && forall i | 0 <= i < |shares| :: amounts[i] == shares[i] + base[i]
  {
  }

  lemma {:induction false} AmountsConcat(a: seq<Payout>, b: seq<Payout>)
    ensures Amounts(a + b) == Amounts(a) + Amounts(b)
  {
  }

  lemma {:induction false} PayGroupsPush(front: seq<Group>, last: Group, vector: seq<nat>, floors: seq<int>)
    requires |Members(front + [last])| <= |vector| == |floors|
    ensures |Members(front)| <= |Members(front + [last])| == |Members(front)| + |last.members|
    ensures PayGroups(front + [last], vector, floors)
         == PayGroups(front, vector, floors) + PayGroup(last, |Members(front)|, vector, floors)
  {
    MembersPush(front, last);
    assert (front + [last])[..|front|] == front;
  }

  lemma {:induction false} PayGroupsSum(groups: seq<Group>, vector: seq<nat>, floors: seq<int>, n: nat)
    requires n == |Members(groups)| <= |vector| == |floors|
    requires forall g | g in groups :: g.members != []
    ensures TotalPaid(PayGroups(groups, vector, floors)) == Sum(vector[..n]) + Sum(floors[..n])
  {
    if groups == [] {
      assert Amounts([]) == [];
    } else {
      var front, last := groups[..|groups| - 1], groups[|groups| - 1];
      assert groups == front + [last];
      PayGroupsPush(front, last, vector, floors);
      var m := |Members(front)|;
      var paid, more := PayGroups(front, vector, floors), PayGroup(last, m, vector, floors);
      PayGroupsSum(front, vector, floors, m);
      PayGroupSum(last, m, vector, floors);
      AmountsConcat(paid, more);
      SumConcat(Amounts(paid), Amounts(more));
      SumSlice(vector, m, n);
      SumSlice(floors, m, n);
    }
  }

  lemma {:induction false} SumSlice(s: seq<int>, m: nat, n: nat)
    requires m <= n <= |s|
    ensures Sum(s[..n]) == Sum(s[..m]) + Sum(s[m..n])
  {
    SumSplit(s[..n], m);
    assert s[..n][..m] == s[..m] && s[..n][m..] == s[m..n];
  }

  // ---- Payouts over a ranked grouping ------------------------------------------------

  /** Ordered entrants cut into tie groups, as the engine cuts them. */
  ghost predicate Ranked(groups: seq<Group>, ordered: seq<Entrant>, rule: TieBreak) {
    && Members(groups) == ordered
    && (forall k | 0 <= k < |groups| :: Start(groups, k) <= |ordered| && GroupRanked(groups, k, ordered, rule))
    && (forall i, j | 0 <= i < j < |ordered| :: CompareEntries(ordered[i], ordered[j], rule) <= 0)
    && DistinctUsers(ordered)
  }

  ghost predicate Payable(groups: seq<Group>, vector: seq<nat>, floors: seq<int>) {
    && |Members(groups)| == |vector| == |floors|
    && NonIncreasing(vector) && NonIncreasing(floors)
  }

  lemma {:induction false} SameGroup(groups: seq<Group>, a: nat, b: nat, i: nat)
    requires a < |groups| && b < |groups|
    requires Start(groups, a) <= i < Start(groups, a + 1) && Start(groups, b) <= i < Start(groups, b + 1)
    ensures a == b
  {
    if a < b {
      StartMonotone(groups, a + 1, b);
    } else if b < a {
      StartMonotone(groups, b + 1, a);
    }
  }

  lemma {:induction false} SameStart(groups: seq<Group>, a: nat, b: nat)
    requires a < |groups| && b < |groups| && Start(groups, a) == Start(groups, b)
    requires Start(groups, a) < Start(groups, a + 1) && Start(groups, b) < Start(groups, b + 1)
    ensures a == b
  {
    SameGroup(groups, a, b, Start(groups, a));
  }

  /** Who is paid at place `i`, in which group, with the group's head at its start. */
  lemma {:induction false} PaidAt(groups: seq<Group>, ordered: seq<Entrant>, rule: TieBreak, vector: seq<nat>,
      floors: seq<int>, i: nat) returns (k: nat)
    requires Ranked(groups, ordered, rule) && Payable(groups, vector, floors) && i < |ordered|
    ensures k < |groups| && Start(groups, k) <= i < Start(groups, k + 1) <= |ordered|
    ensures Start(groups, k + 1) == Start(groups, k) + |groups[k].members|
    ensures ordered[i] == groups[k].members[i - Start(groups, k)] && ordered[Start(groups, k)] == groups[k].members[0]
    ensures PayGroups(groups, vector, floors)[i]
      == PayGroup(groups[k], Start(groups, k), vector, floors)[i - Start(groups, k)]
    ensures CompareRank(ordered[i], ordered[Start(groups, k)], rule) == 0
    ensures PayGroups(groups, vector, floors)[i].placement == Start(groups, k) + 1
    ensures PayGroups(groups, vector, floors)[i].user == ordered[i].user
  {
    k := GroupAt(groups, vector, floors, i);
    HeadAt(groups, vector, floors, k);
    TiedWithHead(groups, ordered, rule, k, i);
    PaidByGroup(groups[k], Start(groups, k), vector, floors, i - Start(groups, k));
  }

  lemma {:induction false} HeadAt(groups: seq<Group>, vector: seq<nat>, floors: seq<int>, k: nat)
    requires k < |groups| && |Members(groups)| <= |vector| == |floors|
    requires Start(groups, k) < Start(groups, k + 1) <= |Members(groups)|
    ensures groups[k].members != [] && Members(groups)[Start(groups, k)] == groups[k].members[0]
  {
    var start := Start(groups, k);
    var k' := GroupAt(groups, vector, floors, start);
    SameGroup(groups, k, k', start);
  }

  /** Everybody in a group ranks with its head, and is placed where the group starts. */
  lemma {:induction false} TiedWithHead(groups: seq<Group>, ordered: seq<Entrant>, rule: TieBreak, k: nat, i: nat)
    requires Ranked(groups, ordered, rule) && k < |groups|
    requires Start(groups, k) <= i < Start(groups, k) + |groups[k].members| <= |ordered|
    requires ordered[i] == groups[k].members[i - Start(groups, k)]
    requires ordered[Start(groups, k)] == groups[k].members[0]
    ensures CompareRank(ordered[i], ordered[Start(groups, k)], rule) == 0
    ensures groups[k].placement == Start(groups, k) + 1
  {
    assert GroupRanked(groups, k, ordered, rule);
  }

  lemma {:induction false} PaidByGroup(group: Group, start: nat, vector: seq<nat>, floors: seq<int>, m: nat)
    requires m < |group.members| && start + |group.members| <= |vector| == |floors|
    ensures var paid := PayGroup(group, start, vector, floors)[m];
      paid.user == group.members[m].user && paid.placement == group.placement
  {
  }

  /**
   * One entrant beats another: a score where the other has none, a higher one, or at equal
   * scores what the tie-break rule looks at, a lower seed or an earlier submission.
   */
  predicate Beats(a: Entrant, b: Entrant, rule: TieBreak) {
    && a.score.Some?
    && (|| b.score.None?
        || a.score.value > b.score.value
        || (a.score.value == b.score.value
            && match rule
               case SplitEvenly => false
               case HigherSeedWins => a.seed.Some? && (b.seed.None? || a.seed.value < b.seed.value)
               case EarliestSubmissionWins =>
                 a.submittedAt.Some? && (b.submittedAt.None? || a.submittedAt.value < b.submittedAt.value)))
  }

  /** The order of `compareRank`, in the entrants' own fields. */
  lemma {:induction false} BeatsIsRank(a: Entrant, b: Entrant, rule: TieBreak)
    ensures CompareRank(a, b, rule) < 0 <==> Beats(a, b, rule)
  {
  }

  /** Whether an entrant places strictly better than `b`: by score, then by the tie-break key, never by user id. */
  function PlacesBetter(b: Entrant, rule: TieBreak): Entrant -> bool {
    (a: Entrant) => Beats(a, b, rule)
  }

  lemma {:induction false} RankedPlacement(groups: seq<Group>, ordered: seq<Entrant>, rule: TieBreak,
      vector: seq<nat>, floors: seq<int>, i: nat)
    requires Ranked(groups, ordered, rule) && Payable(groups, vector, floors) && i < |ordered|
    ensures PayGroups(groups, vector, floors)[i].placement == 1 + Sorting.Count(PlacesBetter(ordered[i], rule), ordered)
  {
    var k := PaidAt(groups, ordered, rule, vector, floors, i);
    var start := Start(groups, k);
    var head := ordered[start];
    var better := PlacesBetter(ordered[i], rule);
    assert GroupRanked(groups, k, ordered, rule);
    forall j | 0 <= j < |ordered| ensures better(ordered[j]) <==> j < start {
      RankTransitive(ordered[j], head, ordered[i], rule);
      RankTransitive(ordered[i], head, ordered[j], rule);
      RankTransitive(head, ordered[i], head, rule);
      RankTransitive(head, ordered[j], ordered[i], rule);
      RankTransitive(ordered[j], ordered[i], head, rule);
      BeatsIsRank(ordered[j], ordered[i], rule);
      if j > start {
        assert CompareEntries(head, ordered[j], rule) <= 0;
      }
    }
    Sorting.CountPrefix(better, ordered, start);
  }

  lemma {:induction false} RankedOrder(groups: seq<Group>, ordered: seq<Entrant>, rule: TieBreak, vector: seq<nat>,
      floors: seq<int>, i: nat, j: nat)
    requires Ranked(groups, ordered, rule) && Payable(groups, vector, floors) && i < j < |ordered|
    ensures var payouts := PayGroups(groups, vector, floors);
      || payouts[i].placement < payouts[j].placement
      || (payouts[i].placement == payouts[j].placement && payouts[i].user < payouts[j].user)
  {
    var a := PaidAt(groups, ordered, rule, vector, floors, i);
    var b := PaidAt(groups, ordered, rule, vector, floors, j);
    if a == b {
      var head := ordered[Start(groups, a)];
      RankTransitive(head, ordered[j], head, rule);
      RankTransitive(ordered[i], head, ordered[j], rule);
      assert CompareEntries(ordered[i], ordered[j], rule) <= 0;
    } else if a < b {
      StartMonotone(groups, a + 1, b);
    } else {
      StartMonotone(groups, b + 1, a);
    }
  }

  /** What an entrant gets on top of the participation floor lies between the slots of their group. */
  lemma {:induction false} ShareBetween(group: Group, start: nat, vector: seq<nat>, floors: seq<int>, i: nat)
    requires start <= i < start + |group.members| <= |vector| == |floors| && NonIncreasing(vector)
    ensures var share := PayGroup(group, start, vector, floors)[i - start].payout - floors[i];
      vector[start + |group.members| - 1] <= share <= vector[start]
  {
    var count := |group.members|;
    var slots := vector[start..start + count];
    SumNonNegative(slots);
    forall m | 0 <= m < |slots| ensures vector[start + count - 1] <= slots[m] <= vector[start] {
      assert m == 0 || vector[start] >= vector[start + m];
      assert m == count - 1 || vector[start + m] >= vector[start + count - 1];
    }
    SumBounds(slots, vector[start + count - 1], vector[start]);
    EvenSplitBetween(Sum(slots), count, vector[start + count - 1], vector[start]);
  }

  lemma {:induction false} EvenSplitSteps(total: nat, count: nat, i: nat, j: nat)
    requires i <= j < count
    ensures 0 <= EvenSplit(total, count)[i] - EvenSplit(total, count)[j] <= 1
    ensures total == 0 ==> EvenSplit(total, count)[i] == 0
  {
  }

  lemma {:induction false} GroupShares(group: Group, start: nat, vector: seq<nat>, floors: seq<int>, i: nat, j: nat)
    requires start <= i < j < start + |group.members| <= |vector| == |floors|
    ensures var paid := PayGroup(group, start, vector, floors);
      0 <= (paid[i - start].payout - floors[i]) - (paid[j - start].payout - floors[j]) <= 1
  {
    var slots := vector[start..start + |group.members|];
    SumNonNegative(slots);
    EvenSplitSteps(Sum(slots), |group.members|, i - start, j - start);
  }

  lemma {:induction false} NoShares(group: Group, start: nat, vector: seq<nat>, floors: seq<int>, i: nat)
    requires start <= i < start + |group.members| <= |vector| == |floors|
    requires forall m | start <= m < |vector| :: vector[m] == 0
    ensures PayGroup(group, start, vector, floors)[i - start].payout == floors[i]
  {
    var slots := vector[start..start + |group.members|];
    SumConstant(slots, 0);
    EvenSplitSteps(0, |group.members|, i - start, i - start);
  }

  lemma {:induction false} RankedPay(groups: seq<Group>, ordered: seq<Entrant>, rule: TieBreak, vector: seq<nat>,
      floors: seq<int>, i: nat, j: nat)
    requires Ranked(groups, ordered, rule) && Payable(groups, vector, floors) && i < j < |ordered|
    ensures PayGroups(groups, vector, floors)[i].payout >= PayGroups(groups, vector, floors)[j].payout
  {
    var a := PaidAt(groups, ordered, rule, vector, floors, i);
    var b := PaidAt(groups, ordered, rule, vector, floors, j);
    if a == b {
      GroupShares(groups[a], Start(groups, a), vector, floors, i, j);
    } else {
      LaterGroup(groups, a, b, i, j);
      ShareBetween(groups[a], Start(groups, a), vector, floors, i);
      ShareBetween(groups[b], Start(groups, b), vector, floors, j);
    }
  }

  lemma {:induction false} LaterGroup(groups: seq<Group>, a: nat, b: nat, i: nat, j: nat)
    requires a != b && a < |groups| && b < |groups| && i < j
    requires Start(groups, a) <= i < Start(groups, a + 1) && Start(groups, b) <= j < Start(groups, b + 1)
    ensures a < b && Start(groups, a + 1) <= Start(groups, b)
  {
    if b < a {
      StartMonotone(groups, b + 1, a);
    } else {
      StartMonotone(groups, a + 1, b);
    }
  }

  lemma {:induction false} RankedTies(groups: seq<Group>, ordered: seq<Entrant>, rule: TieBreak, vector: seq<nat>,
      floors: seq<int>, i: nat, j: nat)
    requires Ranked(groups, ordered, rule) && Payable(groups, vector, floors) && i < j < |ordered|
    requires PayGroups(groups, vector, floors)[i].placement == PayGroups(groups, vector, floors)[j].placement
    requires 0 <= floors[i] - floors[j] <= 1
    requires floors[i] == floors[j] || forall m | 0 <= m < |vector| :: vector[m] == 0
    ensures 0 <= PayGroups(groups, vector, floors)[i].payout - PayGroups(groups, vector, floors)[j].payout <= 1
  {
    var k := TiedAt(groups, ordered, rule, vector, floors, i, j);
    var payouts := PayGroups(groups, vector, floors);
    TiedPay(groups[k], Start(groups, k), vector, floors, i, j, payouts[i], payouts[j]);
  }

  lemma {:induction false} TiedAt(groups: seq<Group>, ordered: seq<Entrant>, rule: TieBreak, vector: seq<nat>,
      floors: seq<int>, i: nat, j: nat) returns (k: nat)
    requires Ranked(groups, ordered, rule) && Payable(groups, vector, floors) && i < j < |ordered|
    requires PayGroups(groups, vector, floors)[i].placement == PayGroups(groups, vector, floors)[j].placement
    ensures k < |groups| && Start(groups, k) <= i < j < Start(groups, k) + |groups[k].members| <= |vector|
    ensures PayGroups(groups, vector, floors)[i]
      == PayGroup(groups[k], Start(groups, k), vector, floors)[i - Start(groups, k)]
    ensures PayGroups(groups, vector, floors)[j]
      == PayGroup(groups[k], Start(groups, k), vector, floors)[j - Start(groups, k)]
  {
    k := GroupAt(groups, vector, floors, i);
    var b := GroupAt(groups, vector, floors, j);
    assert GroupRanked(groups, k, ordered, rule) && GroupRanked(groups, b, ordered, rule);
    SameStart(groups, k, b);
    GroupOf(groups, vector, floors, j, b, k);
  }

  lemma {:induction false} GroupOf(groups: seq<Group>, vector: seq<nat>, floors: seq<int>, j: nat, b: nat, k: nat)
    requires b == k < |groups| && Start(groups, b) <= j < Start(groups, b) + |groups[b].members| <= |vector| == |floors|
    requires j < |Members(groups)| <= |vector|
    requires PayGroups(groups, vector, floors)[j]
      == PayGroup(groups[b], Start(groups, b), vector, floors)[j - Start(groups, b)]
    ensures PayGroups(groups, vector, floors)[j]
      == PayGroup(groups[k], Start(groups, k), vector, floors)[j - Start(groups, k)]
  {
  }

  lemma {:induction false} TiedPay(group: Group, start: nat, vector: seq<nat>, floors: seq<int>, i: nat, j: nat,
      first: Payout, second: Payout)
    requires start <= i < j < start + |group.members| <= |vector| == |floors|
    requires 0 <= floors[i] - floors[j] <= 1
    requires floors[i] == floors[j] || forall m | 0 <= m < |vector| :: vector[m] == 0
    requires first == PayGroup(group, start, vector, floors)[i - start]
    requires second == PayGroup(group, start, vector, floors)[j - start]
    ensures 0 <= first.payout - second.payout <= 1
  {
    if floors[i] == floors[j] {
      GroupShares(group, start, vector, floors, i, j);
    } else {
      NoShares(group, start, vector, floors, i);
      NoShares(group, start, vector, floors, j);
    }
  }

  lemma {:induction false} RankedUnscored(groups: seq<Group>, ordered: seq<Entrant>, rule: TieBreak, vector: seq<nat>,
      floors: seq<int>, i: nat)
    requires Ranked(groups, ordered, rule) && Payable(groups, vector, floors) && i < |ordered|
    requires ordered[i].score.None?
    requires forall m | Sorting.Count((e: Entrant) => e.score.Some?, ordered) <= m < |vector| :: vector[m] == 0
    ensures PayGroups(groups, vector, floors)[i].payout == floors[i]
  {
    var k := PaidAt(groups, ordered, rule, vector, floors, i);
    TiedScores(ordered[i], ordered[Start(groups, k)], rule);
    ScoredFirst(groups, ordered, rule, k);
    NoShares(groups[k], Start(groups, k), vector, floors, i);
  }

  lemma {:induction false} TiedScores(a: Entrant, b: Entrant, rule: TieBreak)
    requires CompareRank(a, b, rule) == 0
    ensures a.score.None? <==> b.score.None?
  {
  }

  lemma {:induction false} ScoredFirst(groups: seq<Group>, ordered: seq<Entrant>, rule: TieBreak, k: nat)
    requires Ranked(groups, ordered, rule) && k < |groups|
    requires Start(groups, k) < |ordered| && ordered[Start(groups, k)] == groups[k].members[0]
    requires ordered[Start(groups, k)].score.None?
    ensures Sorting.Count((e: Entrant) => e.score.Some?, ordered) == Start(groups, k)
  {
    var start := Start(groups, k);
    var scored := (e: Entrant) => e.score.Some?;
    assert GroupRanked(groups, k, ordered, rule);
    forall j | 0 <= j < |ordered| ensures scored(ordered[j]) <==> j < start {
      if j > start {
        assert CompareEntries(ordered[start], ordered[j], rule) <= 0;
      }
    }
    Sorting.CountPrefix(scored, ordered, start);
  }

  lemma {:induction false} RankedTotal(groups: seq<Group>, ordered: seq<Entrant>, rule: TieBreak, vector: seq<nat>,
      floors: seq<int>)
    requires Ranked(groups, ordered, rule) && Payable(groups, vector, floors)
    ensures TotalPaid(PayGroups(groups, vector, floors)) == Sum(vector) + Sum(floors)
  {
    forall g | g in groups ensures g.members != [] {
      var k :| 0 <= k < |groups| && groups[k] == g;
      assert GroupRanked(groups, k, ordered, rule);
    }
    PayGroupsSum(groups, vector, floors, |ordered|);
    assert vector[..|vector|] == vector && floors[..|floors|] == floors;
  }

  lemma {:induction false} RankedAtLeast(groups: seq<Group>, ordered: seq<Entrant>, rule: TieBreak, vector: seq<nat>,
      floors: seq<int>, i: nat)
    requires Ranked(groups, ordered, rule) && Payable(groups, vector, floors) && i < |ordered|
    ensures PayGroups(groups, vector, floors)[i].user == ordered[i].user
    ensures PayGroups(groups, vector, floors)[i].payout >= floors[i]
  {
    var k := PaidAt(groups, ordered, rule, vector, floors, i);
    ShareBetween(groups[k], Start(groups, k), vector, floors, i);
  }

  lemma {:induction false} RankedUsers(groups: seq<Group>, ordered: seq<Entrant>, rule: TieBreak, vector: seq<nat>,
      floors: seq<int>)
    requires Ranked(groups, ordered, rule) && Payable(groups, vector, floors)
    requires forall i | 0 <= i < |floors| :: floors[i] >= 0
    ensures forall i | 0 <= i < |ordered| ::
      PayGroups(groups, vector, floors)[i].user == ordered[i].user && PayGroups(groups, vector, floors)[i].payout >= 0
  {
    forall i | 0 <= i < |ordered|
      ensures PayGroups(groups, vector, floors)[i].user == ordered[i].user
        && PayGroups(groups, vector, floors)[i].payout >= 0
    {
      RankedAtLeast(groups, ordered, rule, vector, floors, i);
    }
  }

  // ---- The engine's promises ---------------------------------------------------------

  function Floors(entries: seq<Entrant>, structure: PrizeStructure, pool: nat): (floors: seq<int>)
    ensures |floors| == |entries|
  {
    EvenSplit(FloorTotal(structure, pool, |entries|), |entries|)
  }

  /** The pieces a successful settlement of a non-empty contest is made of. */
  lemma {:induction false} SettledFrom(pool: int, entries: seq<Entrant>, structure: PrizeStructure, rule: TieBreak)
      returns (groups: seq<Group>, ordered: seq<Entrant>, prizes: seq<nat>, floors: seq<int>)
    requires Settle(pool, entries, structure, rule).Ok? && entries != []
    ensures pool >= 0 && ValidStructure(structure) && DistinctUsers(entries)
    ensures ordered == Ordered(entries, rule) && multiset(ordered) == multiset(entries) && |ordered| == |entries|
    ensures Ranked(groups, ordered, rule) && Payable(groups, prizes, floors)
    ensures prizes == Prizes(entries, structure, pool) && floors == Floors(entries, structure, pool)
    ensures Settle(pool, entries, structure, rule).value == PayGroups(groups, prizes, floors)
  {
    ordered := Ordered(entries, rule);
    groups := Groups(ordered, rule);
    OrderedFacts(entries, rule);
    GroupsPartition(ordered, rule);
    PrizesFacts(entries, structure, pool);
    prizes, floors := Prizes(entries, structure, pool), Floors(entries, structure, pool);
    EvenSplitExact(FloorTotal(structure, pool, |entries|), |entries|);
    SortedRanks(ordered, rule);
    DistinctByMultiset(entries, ordered);
  }

  lemma {:induction false} SortedRanks(ordered: seq<Entrant>, rule: TieBreak)
    requires Sorting.Sorted(Before(rule), ordered)
    ensures forall i, j | 0 <= i < j < |ordered| :: CompareEntries(ordered[i], ordered[j], rule) <= 0
    ensures var groups := Groups(ordered, rule);
      forall k | 0 <= k < |groups| :: Start(groups, k) <= |ordered| && GroupRanked(groups, k, ordered, rule)
  {
    forall i, j | 0 <= i < j < |ordered| ensures CompareEntries(ordered[i], ordered[j], rule) <= 0 {
      assert Before(rule)(ordered[i], ordered[j]);
    }
    forall k | 0 <= k < |Groups(ordered, rule)|
      ensures Start(Groups(ordered, rule), k) <= |ordered| && GroupRanked(Groups(ordered, rule), k, ordered, rule)
    {
      GroupsRanked(ordered, rule, k);
    }
  }

  /** Settlement is refused exactly for a bad structure, a negative or ownerless pool, or a repeated entrant. */
  lemma {:induction false} SettleTotal(pool: int, entries: seq<Entrant>, structure: PrizeStructure, rule: TieBreak)
    ensures Settle(pool, entries, structure, rule).Ok? <==>
      ValidStructure(structure) && pool >= 0 && DistinctUsers(entries) && (entries == [] ==> pool == 0)
  {
  }

  /** Conservation: the payouts sum to exactly the pool. */
  lemma {:induction false} Conservation(pool: int, entries: seq<Entrant>, structure: PrizeStructure, rule: TieBreak)
    requires Settle(pool, entries, structure, rule).Ok?
    ensures TotalPaid(Settle(pool, entries, structure, rule).value) == pool
  {
    if entries == [] {
      assert Amounts([]) == [];
    } else {
      var groups, ordered, prizes, floors := SettledFrom(pool, entries, structure, rule);
      RankedTotal(groups, ordered, rule, prizes, floors);
      PrizesFacts(entries, structure, pool);
      EvenSplitExact(FloorTotal(structure, pool, |entries|), |entries|);
    }
  }

  /** Every entrant is paid once, in ranked order, and never a negative amount. */
  lemma {:induction false} OnePayoutPerEntrant(pool: int, entries: seq<Entrant>, structure: PrizeStructure,
      rule: TieBreak)
    requires Settle(pool, entries, structure, rule).Ok?
    ensures var payouts := Settle(pool, entries, structure, rule).value;
      var ordered := Ordered(entries, rule);
      && |payouts| == |ordered| == |entries|
      && multiset(ordered) == multiset(entries)
      && forall i | 0 <= i < |payouts| :: payouts[i].user == ordered[i].user && payouts[i].payout >= 0
  {
    OrderedFacts(entries, rule);
    if entries != [] {
      var groups, ordered, prizes, floors := SettledFrom(pool, entries, structure, rule);
      RankedUsers(groups, ordered, rule, prizes, floors);
    }
  }

  /** Competition ranking: a placement is one more than the number of entrants who did strictly better. */
  lemma {:induction false} PlacementMeaning(pool: int, entries: seq<Entrant>, structure: PrizeStructure,
      rule: TieBreak, i: nat)
    requires Settle(pool, entries, structure, rule).Ok? && i < |entries|
    ensures var payouts, ordered := Settle(pool, entries, structure, rule).value, Ordered(entries, rule);
      && i < |payouts| == |ordered|
      && payouts[i].placement == 1 + Sorting.Count(PlacesBetter(ordered[i], rule), entries)
  {
    var groups, ordered, prizes, floors := SettledFrom(pool, entries, structure, rule);
    RankedPlacement(groups, ordered, rule, prizes, floors, i);
    Sorting.SortCounts(PlacesBetter(ordered[i], rule), Before(rule), entries);
  }

  /** Payouts come out by placement and, within a tie, by ascending user id. */
  lemma {:induction false} PlacementsOrdered(pool: int, entries: seq<Entrant>, structure: PrizeStructure,
      rule: TieBreak, i: nat, j: nat)
    requires Settle(pool, entries, structure, rule).Ok? && i < j < |Settle(pool, entries, structure, rule).value|
    ensures var payouts := Settle(pool, entries, structure, rule).value;
      || payouts[i].placement < payouts[j].placement
      || (payouts[i].placement == payouts[j].placement && payouts[i].user < payouts[j].user)
  {
    var groups, ordered, prizes, floors := SettledFrom(pool, entries, structure, rule);
    RankedOrder(groups, ordered, rule, prizes, floors, i, j);
  }

  /** Placement monotonicity: nobody is paid less than an entrant ranked below them. */
  lemma {:induction false} PayoutsOrdered(pool: int, entries: seq<Entrant>, structure: PrizeStructure, rule: TieBreak,
      i: nat, j: nat)
    requires Settle(pool, entries, structure, rule).Ok? && i < j < |Settle(pool, entries, structure, rule).value|
    ensures var payouts := Settle(pool, entries, structure, rule).value;
      payouts[i].payout >= payouts[j].payout
  {
    var groups, ordered, prizes, floors := SettledFrom(pool, entries, structure, rule);
    RankedPay(groups, ordered, rule, prizes, floors, i, j);
  }

  /** Tied entrants are paid within one unit of each other, the larger share to the lower user id. */
  lemma {:induction false} TiesShareEvenly(pool: int, entries: seq<Entrant>, structure: PrizeStructure,
      rule: TieBreak, i: nat, j: nat)
    requires Settle(pool, entries, structure, rule).Ok? && i < j < |Settle(pool, entries, structure, rule).value|
    requires Settle(pool, entries, structure, rule).value[i].placement
      == Settle(pool, entries, structure, rule).value[j].placement
    ensures var payouts := Settle(pool, entries, structure, rule).value;
      && payouts[i].user < payouts[j].user
      && 0 <= payouts[i].payout - payouts[j].payout <= 1
  {
    var groups, ordered, prizes, floors := SettledFrom(pool, entries, structure, rule);
    RankedOrder(groups, ordered, rule, prizes, floors, i, j);
    EvenSplitSteps(FloorTotal(structure, pool, |entries|), |entries|, i, j);
    FloorsOrNothing(entries, structure, pool);
    RankedTies(groups, ordered, rule, prizes, floors, i, j);
  }

  function FloorOf(structure: PrizeStructure): nat {
    if structure.participationFloor.Some? then structure.participationFloor.value else 0
  }

  /** Either the pool covers the floor, the same for everyone, or nothing is left for the slots. */
  lemma {:induction false} FloorsOrNothing(entries: seq<Entrant>, structure: PrizeStructure, pool: nat)
    requires ValidStructure(structure) && entries != []
    ensures FloorOf(structure) * |entries| <= pool ==>
      forall i | 0 <= i < |entries| :: Floors(entries, structure, pool)[i] == FloorOf(structure)
    ensures pool < FloorOf(structure) * |entries| ==>
      forall i | 0 <= i < |entries| :: Prizes(entries, structure, pool)[i] == 0
  {
    if FloorOf(structure) * |entries| <= pool {
      ExactDivision(FloorOf(structure), |entries|);
    } else {
      PrizesFacts(entries, structure, pool);
      SumNonNegative(Prizes(entries, structure, pool));
    }
  }

  lemma {:induction false} ExactDivision(q: nat, n: nat)
    requires n > 0
    ensures (q * n) / n == q && (q * n) % n == 0
  {
    var a := q * n;
    assert a == n * (a / n) + a % n;
    assert n * (a / n + 1) == n * (a / n) + n && n * (q + 1) == a + n;
    ScaleOrder(n, a / n, q + 1);
    ScaleOrder(n, q, a / n + 1);
  }

  /** Every entrant has a payout. */
  lemma {:induction false} PayoutFor(pool: int, entries: seq<Entrant>, structure: PrizeStructure, rule: TieBreak,
      i: nat) returns (x: nat)
    requires Settle(pool, entries, structure, rule).Ok? && i < |entries|
    ensures var payouts := Settle(pool, entries, structure, rule).value;
      x < |payouts| && payouts[x].user == entries[i].user
  {
    OnePayoutPerEntrant(pool, entries, structure, rule);
    assert entries[i] in multiset(Ordered(entries, rule));
    x :| 0 <= x < |Ordered(entries, rule)| && Ordered(entries, rule)[x] == entries[i];
  }

  /** No two payouts are one user's. */
  lemma {:induction false} PayeesApart(pool: int, entries: seq<Entrant>, structure: PrizeStructure, rule: TieBreak,
      i: nat, j: nat)
    requires Settle(pool, entries, structure, rule).Ok? && i < j < |Settle(pool, entries, structure, rule).value|
    ensures var payouts := Settle(pool, entries, structure, rule).value; payouts[i].user != payouts[j].user
  {
    OnePayoutPerEntrant(pool, entries, structure, rule);
    DistinctByMultiset(entries, Ordered(entries, rule));
  }

  /** When the pool covers it, everyone receives at least the participation floor, scored or not. */
  lemma {:induction false} FloorGuaranteed(pool: int, entries: seq<Entrant>, structure: PrizeStructure,
      rule: TieBreak, i: nat)
    requires Settle(pool, entries, structure, rule).Ok? && i < |Settle(pool, entries, structure, rule).value|
    requires FloorOf(structure) * |entries| <= pool
    ensures Settle(pool, entries, structure, rule).value[i].payout >= FloorOf(structure)
  {
    var groups, ordered, prizes, floors := SettledFrom(pool, entries, structure, rule);
    RankedAtLeast(groups, ordered, rule, prizes, floors, i);
    FloorsOrNothing(entries, structure, pool);
  }

  /** Once anybody has scored, an unscored entrant receives their floor share and nothing else. */
  lemma {:induction false} UnscoredTakeNothing(pool: int, entries: seq<Entrant>, structure: PrizeStructure,
      rule: TieBreak, i: nat)
    requires Settle(pool, entries, structure, rule).Ok?
      && i < |Settle(pool, entries, structure, rule).value| <= |Ordered(entries, rule)|
    requires Ordered(entries, rule)[i].score.None? && ScoredCount(entries) > 0
    ensures |Settle(pool, entries, structure, rule).value| == |entries|
    ensures Settle(pool, entries, structure, rule).value[i].payout == Floors(entries, structure, pool)[i]
  {
    var groups, ordered, prizes, floors := SettledFrom(pool, entries, structure, rule);
    Sorting.SortCounts((e: Entrant) => e.score.Some?, Before(rule), entries);
    PrizesFacts(entries, structure, pool);
    RankedUnscored(groups, ordered, rule, prizes, floors, i);
  }

  /** Same entrants, same payouts, whatever order they arrive in. */
  lemma {:induction false} OrderIndependence(pool: int, a: seq<Entrant>, b: seq<Entrant>, structure: PrizeStructure,
      rule: TieBreak)
    requires multiset(a) == multiset(b) && DistinctUsers(a)
    ensures Settle(pool, a, structure, rule) == Settle(pool, b, structure, rule)
  {
    Sorting.SameMembers(a, b);
    SameOrdered(a, b, rule);
    Sorting.CountPermutes((e: Entrant) => e.score.Some?, a, b);
    DistinctByMultiset(a, b);
    SettleDependsOn(pool, a, b, structure, rule);
  }

  /** All that settlement reads of its entrants: how many, how many scored, and their order. */
  lemma {:induction false} SettleDependsOn(pool: int, a: seq<Entrant>, b: seq<Entrant>, structure: PrizeStructure,
      rule: TieBreak)
    requires |a| == |b| && Ordered(a, rule) == Ordered(b, rule) && DistinctUsers(a) && DistinctUsers(b)
    requires Sorting.Count((e: Entrant) => e.score.Some?, a) == Sorting.Count((e: Entrant) => e.score.Some?, b)
    ensures Settle(pool, a, structure, rule) == Settle(pool, b, structure, rule)
  {
    assert ScoredCount(a) == ScoredCount(b);
    if pool >= 0 {
      assert Prizes(a, structure, pool) == Prizes(b, structure, pool);
    }
  }

  lemma {:induction false} SameOrdered(a: seq<Entrant>, b: seq<Entrant>, rule: TieBreak)
    requires multiset(a) == multiset(b) && DistinctUsers(a)
    ensures Ordered(a, rule) == Ordered(b, rule)
  {
    BeforeIsTotal(rule);
    forall x, y | x in a && y in a && Before(rule)(x, y) && Before(rule)(y, x) ensures x == y {
      RankTransitive(x, y, x, rule);
      assert x.user == y.user;
    }
    Sorting.SortIgnoresOrder(Before(rule), a, b);
  }

  lemma {:induction false} UsersByCount(s: seq<Entrant>)
    ensures DistinctUsers(s) <==> forall u: nat :: Sorting.Count(Named(u), s) <= 1
  {
    if s != [] {
      UsersByCount(s[1..]);
      var head := s[0].user;
      if DistinctUsers(s) {
        Absent(s[1..], head);
        forall u: nat ensures Sorting.Count(Named(u), s) <= 1 {
        }
      } else if DistinctUsers(s[1..]) {
        var i :| 0 < i < |s| && s[i].user == head;
        Present(s[1..], i - 1);
        assert Sorting.Count(Named(head), s) >= 2;
      } else {
        var u: nat :| Sorting.Count(Named(u), s[1..]) > 1;
        assert Sorting.Count(Named(u), s) > 1;
      }
    }
  }

  function Named(user: nat): Entrant -> bool {
    (e: Entrant) => e.user == user
  }

  lemma {:induction false} Absent(s: seq<Entrant>, user: nat)
    requires forall e | e in s :: e.user != user
    ensures Sorting.Count(Named(user), s) == 0
  {
    if s != [] {
      Absent(s[1..], user);
    }
  }

  lemma {:induction false} Present(s: seq<Entrant>, i: nat)
    requires i < |s|
    ensures Sorting.Count(Named(s[i].user), s) >= 1
  {
    if i > 0 {
      Present(s[1..], i - 1);
      assert s[1..][i - 1] == s[i];
    }
  }

  lemma {:induction false} DistinctByMultiset(a: seq<Entrant>, b: seq<Entrant>)
    requires multiset(a) == multiset(b) && DistinctUsers(a)
    ensures DistinctUsers(b)
  {
    UsersByCount(a);
    UsersByCount(b);
    forall u: nat ensures Sorting.Count(Named(u), b) <= 1 {
      Sorting.CountPermutes(Named(u), a, b);
    }
  }
}
