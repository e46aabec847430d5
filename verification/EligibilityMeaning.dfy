/**
 * What the evaluator's decisions mean, written out in the user's own fields: who may stake
 * how much, which reason each refusal gives, in what order, and what it asks them to do.
 */
module EligibilityMeaning {
  import opened Common
  import opened Ledger
  import opened Eligibility

  // ---- The rules, field by field -----------------------------------------------------

  /** Born early enough to have had this birthday by today; dates compare by year, month and day. */
  predicate HasTurned(born: Date, years: int, today: Date) {
    || born.year + years < today.year
    || (born.year + years == today.year && (born.month < today.month
        || (born.month == today.month && born.day <= today.day)))
  }

  lemma {:induction false} AgeMeans(born: Date, years: int, today: Date)
    ensures AgeOn(born, today) >= years <==> HasTurned(born, years, today)
  {
  }

  /** The age a region asks for is its own entry's, else its country's, else the default. */
  ghost predicate AgeAsked(rules: Ruleset, region: Option<Region>, years: nat) {
    match region
    case None => years == rules.defaultAge
    case Some(r) =>
      if r in rules.ageByRegion then years == rules.ageByRegion[r]
      else if Region(r.country, None) in rules.ageByRegion then years == rules.ageByRegion[Region(r.country, None)]
      else years == rules.defaultAge
  }

  ghost predicate TooYoung(i: Input) {
    i.user.dateOfBirth.Some? && exists years: nat ::
      AgeAsked(i.ruleset, i.user.region, years) && !HasTurned(i.user.dateOfBirth.value, years, i.asOf.date)
  }

  /** A restriction of this kind has begun, has not ended and was not lifted. */
  ghost predicate InForce(i: Input, kind: RestrictionKind) {
    exists k :: 0 <= k < |i.user.restrictions| && i.user.restrictions[k].kind == kind
      && i.user.restrictions[k].liftedAt.None? && i.user.restrictions[k].startsAt <= i.asOf.ms
      && (i.user.restrictions[k].endsAt.None? || i.asOf.ms < i.user.restrictions[k].endsAt.value)
  }

  /** A list of regions admits a region it names, or whose country it names. */
  ghost predicate Elsewhere(i: Input) {
    var permitted := if i.asset == POINTS then i.ruleset.points.permitted else i.ruleset.credit.permitted;
    && i.user.region.Some? && permitted.Listed?
    && i.user.region.value !in permitted.regions
    && Region(i.user.region.value.country, None) !in permitted.regions
  }

  ghost predicate Nowhere(i: Input) {
    var rules := if i.asset == POINTS then i.ruleset.points else i.ruleset.credit;
    i.user.region.None? && (rules.knownRegion || rules.permitted.Listed?)
  }

  /** The amount is above what may be staked unverified. */
  ghost predicate MustVerify(i: Input) {
    var threshold := if i.asset == POINTS then i.ruleset.points.verifyAbove else i.ruleset.credit.verifyAbove;
    threshold.Some? && threshold.value < i.entryAmount
  }

  /** Verified, and not due to verify again. */
  ghost predicate StandsVerified(i: Input) {
    i.user.verification == Verified && (i.user.reverifyAfter.None? || i.asOf.ms < i.user.reverifyAfter.value)
  }

  ghost predicate OverWindows(i: Input) {
    || (i.ruleset.per24h.Some? && i.ruleset.per24h.value < i.velocity.last24h + i.entryAmount)
    || (i.ruleset.per7d.Some? && i.ruleset.per7d.value < i.velocity.last7d + i.entryAmount)
  }

  /** When each reason is given. */
  ghost predicate Means(i: Input, reason: Reason) {
    match reason
    case PlatformBlocked => InForce(i, PlatformBlock)
    case SelfExcluded => InForce(i, SelfExclusion)
    case CoolingOff => InForce(i, CoolOff)
    case IdentityRejected => MustVerify(i) && i.user.verification == Rejected
    case UnderMinimumAge => TooYoung(i)
    case RegionNotPermitted => Elsewhere(i)
    case RegionUnknown => Nowhere(i)
    case IdentityUnverified => MustVerify(i) && i.user.verification != Rejected && !StandsVerified(i)
    case StakeLimitExceeded => i.ruleset.perContest.Some? && i.ruleset.perContest.value < i.entryAmount
    case VelocityLimitExceeded => InForce(i, VelocityLock) || OverWindows(i)
    case InsufficientBalance => i.balance < i.entryAmount
    case ContestNotOpen | ContestFull => false
  }

  lemma {:induction false} RestrictionMeans(i: Input, kind: RestrictionKind)
    ensures InForce(i, kind) <==> Restricted(i, RestrictionReason(kind))
  {
    if InForce(i, kind) {
      var k :| 0 <= k < |i.user.restrictions| && i.user.restrictions[k].kind == kind
        && i.user.restrictions[k].liftedAt.None? && i.user.restrictions[k].startsAt <= i.asOf.ms
        && (i.user.restrictions[k].endsAt.None? || i.asOf.ms < i.user.restrictions[k].endsAt.value);
      assert IsActive(i.user.restrictions[k], i.asOf.ms);
    }
    if Restricted(i, RestrictionReason(kind)) {
      var k :| 0 <= k < |i.user.restrictions| && IsActive(i.user.restrictions[k], i.asOf.ms)
        && RestrictionReason(i.user.restrictions[k].kind) == RestrictionReason(kind);
      assert i.user.restrictions[k].kind == kind;
    }
  }

  lemma {:induction false} TooYoungMeans(i: Input)
    ensures TooYoung(i) <==> Applies(i, UnderMinimumAge)
  {
    var years := MinimumAge(i.ruleset, i.user.region);
    assert forall n: nat :: AgeAsked(i.ruleset, i.user.region, n) <==> n == years;
    if i.user.dateOfBirth.Some? {
      AgeMeans(i.user.dateOfBirth.value, years, i.asOf.date);
    }
  }

  lemma {:induction false} ReasonMeans(i: Input, reason: Reason)
    ensures Applies(i, reason) <==> Means(i, reason)
  {
    match reason
    case PlatformBlocked => RestrictionMeans(i, PlatformBlock);
    case SelfExcluded => RestrictionMeans(i, SelfExclusion);
    case CoolingOff => RestrictionMeans(i, CoolOff);
    case VelocityLimitExceeded => RestrictionMeans(i, VelocityLock);
    case UnderMinimumAge => TooYoungMeans(i);
    case _ =>
  }

  // ---- The decision ------------------------------------------------------------------

  /** Where each reason stands in what a refusal reports. */
  function Rank(reason: Reason): nat {
    match reason
    case PlatformBlocked => 0
    case SelfExcluded => 1
    case CoolingOff => 2
    case IdentityRejected => 3
    case UnderMinimumAge => 4
    case RegionNotPermitted => 5
    case RegionUnknown => 6
    case IdentityUnverified => 7
    case StakeLimitExceeded => 8
    case VelocityLimitExceeded => 9
    case InsufficientBalance => 10
    case ContestNotOpen => 11
    case ContestFull => 12
  }

  /** Each reason once, in the order they are ranked. */
  ghost predicate InOrder(reasons: seq<Reason>) {
    forall j, k | 0 <= j < k < |reasons| :: Rank(reasons[j]) < Rank(reasons[k])
  }

  lemma {:induction false} KeepsOrder(reasons: seq<Reason>, found: set<Reason>)
    requires InOrder(reasons)
    ensures InOrder(Keep(reasons, found))
  {
    if reasons != [] {
      KeepsOrder(reasons[1..], found);
      var rest := Keep(reasons[1..], found);
      forall k | 0 <= k < |rest| ensures Rank(reasons[0]) < Rank(rest[k]) {
        assert rest[k] in rest;
      }
      assert Keep(reasons, found) == if reasons[0] in found then [reasons[0]] + rest else [] + rest;
    }
  }

  /** A stake is allowed exactly when no reason holds against it, and a refusal gives exactly the reasons that do. */
  lemma {:induction false} DecisionMeans(i: Input)
    ensures Decide(i).Allowed? <==> forall r :: !Means(i, r)
    ensures Decide(i).Refused? ==> forall r :: r in Decide(i).reasons <==> Means(i, r)
  {
    AllowedIff(i);
    forall r ensures Applies(i, r) <==> Means(i, r) {
      ReasonMeans(i, r);
    }
  }

  /** What a refusal asks the user to do about its first reason. */
  function Asks(user: User, first: Reason): Option<RequiredAction> {
    if first == RegionUnknown then Some(ConfirmLocation)
    else if first == IdentityUnverified then
      Some(if user.dateOfBirth.None? then ProvideDemographics else CompleteIdentity)
    else if first == InsufficientBalance then Some(AddFunds)
    else None
  }

  /** A refusal gives each of its reasons once, in a fixed order, and asks for what the first of them needs. */
  lemma {:induction false} RefusalInOrder(i: Input)
    requires Decide(i).Refused?
    ensures Decide(i).reasons != [] && InOrder(Decide(i).reasons)
    ensures Decide(i).requiredAction == Asks(i.user, Decide(i).reasons[0])
  {
    PriorityRanked();
    KeepsOrder(REASON_PRIORITY, Found(i));
  }

  lemma {:induction false} PriorityRanked()
    ensures InOrder(REASON_PRIORITY)
  {
    forall j | 0 <= j < |REASON_PRIORITY| ensures Rank(REASON_PRIORITY[j]) == j {
      PriorityAt(j);
    }
  }

  lemma {:induction false} PriorityAt(j: nat)
    requires j < |REASON_PRIORITY|
    ensures Rank(REASON_PRIORITY[j]) == j
  {
  }

  // ---- What was staked ---------------------------------------------------------------

  /** Only an escrow entry stakes, what it debits the wallet; what is staked since a time was posted after it. */
  lemma {:induction false} StakesMean(journal: Journal, entry: Entry, wallet: Account, since: int)
    ensures entry.post.kind != EscrowEntry ==> Staked(entry, wallet) == 0
    ensures forall from: Account, to: Account, amount: int ::
      entry.post.kind == EscrowEntry && entry.post.lines == [Line(from, Debit, amount), Line(to, Credit, amount)] ==>
        Staked(entry, wallet) == if from == wallet then amount else 0
    ensures StakedSince([], wallet, since) == 0
    ensures StakedSince(journal + [entry], wallet, since) ==
      StakedSince(journal, wallet, since) + if entry.postedAt > since then Staked(entry, wallet) else 0
  {
    assert (journal + [entry])[..|journal|] == journal;
    forall from: Account, to: Account, amount: int |
        entry.post.kind == EscrowEntry && entry.post.lines == [Line(from, Debit, amount), Line(to, Credit, amount)]
      ensures Staked(entry, wallet) == if from == wallet then amount else 0
    {
      DebitsOfTwo(Line(from, Debit, amount), Line(to, Credit, amount), wallet);
    }
  }

  lemma {:induction false} DebitsOfTwo(first: Line, second: Line, wallet: Account)
    requires first.side == Debit && second.side == Credit
    ensures DebitOf([first, second], wallet) == if first.account == wallet then first.amount else 0
  {
    var lines := [first, second];
    assert lines[..1] == [first] && [first][..0] == [] && lines[1] == second;
    assert DebitOf(lines, wallet) == DebitOf(lines[..1], wallet);
    assert DebitOf([first], wallet) == DebitOf([], wallet) + if first.account == wallet then first.amount else 0;
  }
}
