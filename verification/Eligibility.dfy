/**
 * The eligibility evaluator (apps/purse/src/eligibility/evaluate.ts) and the rolling
 * totals it is given (velocity.ts). Regions are a country and an optional subdivision,
 * instants are milliseconds with their UTC calendar date alongside.
 */
module Eligibility {
  import opened Common
  import opened Ledger

  datatype Reason =
    | PlatformBlocked | SelfExcluded | CoolingOff | IdentityRejected | UnderMinimumAge
    | RegionNotPermitted | RegionUnknown | IdentityUnverified
    | StakeLimitExceeded | VelocityLimitExceeded | InsufficientBalance
    | ContestNotOpen | ContestFull

  datatype RequiredAction = CompleteIdentity | ProvideDemographics | AddFunds | ConfirmLocation

  datatype Decision =
    | Allowed
    | Refused(reasons: seq<Reason>, requiredAction: Option<RequiredAction>)

  /** Reasons in the order they are reported. */
  const REASON_PRIORITY: seq<Reason> := [
    PlatformBlocked, SelfExcluded, CoolingOff, IdentityRejected, UnderMinimumAge,
    RegionNotPermitted, RegionUnknown, IdentityUnverified,
    StakeLimitExceeded, VelocityLimitExceeded, InsufficientBalance,
    ContestNotOpen, ContestFull]

  datatype RestrictionKind = SelfExclusion | CoolOff | PlatformBlock | VelocityLock

  datatype Restriction = Restriction(kind: RestrictionKind, startsAt: int, endsAt: Option<int>, liftedAt: Option<int>)

  datatype Verification = Unstarted | Pending | Verified | Rejected

  datatype Region = Region(country: nat, subdivision: Option<nat>)

  datatype Date = Date(year: int, month: int, day: int)

  datatype Instant = Instant(ms: int, date: Date)

  datatype PermittedRegions = All | Listed(regions: seq<Region>)

  datatype AssetRules = AssetRules(permitted: PermittedRegions, verifyAbove: Option<nat>, knownRegion: bool)

  datatype Ruleset = Ruleset(
    defaultAge: nat,
    ageByRegion: map<Region, nat>,
    points: AssetRules,
    credit: AssetRules,
    perContest: Option<nat>,
    per24h: Option<nat>,
    per7d: Option<nat>)

  datatype User = User(
    dateOfBirth: Option<Date>,
    verification: Verification,
    reverifyAfter: Option<int>,
    restrictions: seq<Restriction>,
    region: Option<Region>)

  datatype Velocity = Velocity(last24h: int, last7d: int)

  datatype Input = Input(
    user: User, asset: Asset, entryAmount: int, balance: int, velocity: Velocity, ruleset: Ruleset, asOf: Instant)

  function RulesFor(ruleset: Ruleset, asset: Asset): AssetRules {
    if asset.POINTS? then ruleset.points else ruleset.credit
  }

  predicate IsActive(restriction: Restriction, asOf: int) {
    && restriction.liftedAt.None?
    && restriction.startsAt <= asOf
    && (restriction.endsAt.Some? ==> restriction.endsAt.value > asOf)
  }

  function RestrictionReason(kind: RestrictionKind): Reason {
    match kind
    case PlatformBlock => PlatformBlocked
    case SelfExclusion => SelfExcluded
    case CoolOff => CoolingOff
    case VelocityLock => VelocityLimitExceeded
  }

  function CountryOf(region: Region): Region {
    Region(region.country, None)
  }

  function MinimumAge(ruleset: Ruleset, region: Option<Region>): nat {
    if region.Some? && region.value in ruleset.ageByRegion then ruleset.ageByRegion[region.value]
    else if region.Some? && CountryOf(region.value) in ruleset.ageByRegion
      then ruleset.ageByRegion[CountryOf(region.value)]
    else ruleset.defaultAge
  }

  predicate RegionPermitted(region: Region, permitted: seq<Region>) {
    region in permitted || CountryOf(region) in permitted
  }

  function AgeOn(born: Date, today: Date): int {
    var birthdayPassed := today.month > born.month || (today.month == born.month && today.day >= born.day);
    today.year - born.year - if birthdayPassed then 0 else 1
  }

  predicate ReverifyDue(user: User, asOf: int) {
    user.reverifyAfter.Some? && user.reverifyAfter.value <= asOf
  }

  predicate IdentityRequired(i: Input) {
    var threshold := RulesFor(i.ruleset, i.asset).verifyAbove;
    threshold.Some? && i.entryAmount > threshold.value
  }

  predicate OverLimit(limit: Option<nat>, amount: int) {
    limit.Some? && amount > limit.value
  }

  predicate Restricted(i: Input, reason: Reason) {
    exists k :: 0 <= k < |i.user.restrictions|
      && IsActive(i.user.restrictions[k], i.asOf.ms) && RestrictionReason(i.user.restrictions[k].kind) == reason
  }

  /** When each reason applies, one line per reason. */
  predicate Applies(i: Input, reason: Reason) {
    var rules := RulesFor(i.ruleset, i.asset);
    match reason
    case PlatformBlocked | SelfExcluded | CoolingOff => Restricted(i, reason)
    case IdentityRejected => IdentityRequired(i) && i.user.verification.Rejected?
    case UnderMinimumAge =>
      i.user.dateOfBirth.Some? && AgeOn(i.user.dateOfBirth.value, i.asOf.date) < MinimumAge(i.ruleset, i.user.region)
    case RegionNotPermitted =>
      i.user.region.Some? && rules.permitted.Listed? && !RegionPermitted(i.user.region.value, rules.permitted.regions)
    case RegionUnknown => i.user.region.None? && (rules.knownRegion || rules.permitted.Listed?)
    case IdentityUnverified =>
      IdentityRequired(i) && !i.user.verification.Rejected?
      && (!i.user.verification.Verified? || ReverifyDue(i.user, i.asOf.ms))
    case StakeLimitExceeded => OverLimit(i.ruleset.perContest, i.entryAmount)
    case VelocityLimitExceeded =>
      || Restricted(i, reason)
      || OverLimit(i.ruleset.per24h, i.velocity.last24h + i.entryAmount)
      || OverLimit(i.ruleset.per7d, i.velocity.last7d + i.entryAmount)
    case InsufficientBalance => i.balance < i.entryAmount
    case ContestNotOpen | ContestFull => false
  }

  function Keep(reasons: seq<Reason>, found: set<Reason>): (kept: seq<Reason>)
    ensures forall r :: r in kept <==> r in reasons && r in found
  {
    if reasons == [] then []
    else (if reasons[0] in found then [reasons[0]] else []) + Keep(reasons[1..], found)
  }

  function Found(i: Input): set<Reason> {
    set r | r in REASON_PRIORITY && Applies(i, r)
  }

  function UnverifiedAction(user: User): RequiredAction {
    if user.dateOfBirth.None? then ProvideDemographics else CompleteIdentity
  }

  /** Every applicable reason in priority order; the required action is the first reason's, if it has one. */
  function Decide(i: Input): Decision {
    var reasons := Keep(REASON_PRIORITY, Found(i));
    if reasons == [] then Allowed
    else Refused(reasons,
      match reasons[0]
      case RegionUnknown => Some(ConfirmLocation)
      case IdentityUnverified => Some(UnverifiedAction(i.user))
      case InsufficientBalance => Some(AddFunds)
      case _ => None)
  }

  /** `evaluate`: the reasons found step by step, then reported in priority order. */
  method Evaluate(i: Input) returns (decision: Decision)
    ensures decision == Decide(i)
  {
    var user, rules := i.user, RulesFor(i.ruleset, i.asset);
    var unverifiedAction := CompleteIdentity;
    var found := FindRestrictions(user, i.asOf.ms);
    ghost var restricted := found;
    if user.region.None? {
      if rules.knownRegion || rules.permitted.Listed? {
        found := found + {RegionUnknown};
      }
    } else if rules.permitted.Listed? && !RegionPermitted(user.region.value, rules.permitted.regions) {
      found := found + {RegionNotPermitted};
    }
    if user.dateOfBirth.Some? && AgeOn(user.dateOfBirth.value, i.asOf.date) < MinimumAge(i.ruleset, user.region) {
      found := found + {UnderMinimumAge};
    }
    if IdentityRequired(i) {
      if user.verification.Rejected? {
        found := found + {IdentityRejected};
      } else if !user.verification.Verified? || ReverifyDue(user, i.asOf.ms) {
        found := found + {IdentityUnverified};
        if user.dateOfBirth.None? {
          unverifiedAction := ProvideDemographics;
        }
      }
    }
    var limits := FindLimits(i);
    FoundInSteps(i, restricted, found, limits);
    found := found + limits;
    var reasons := Keep(REASON_PRIORITY, found);
    if reasons == [] {
      return Allowed;
    }
    assert reasons[0] in reasons;
    var requiredAction := match reasons[0]
      case RegionUnknown => Some(ConfirmLocation)
      case IdentityUnverified => Some(unverifiedAction)
      case InsufficientBalance => Some(AddFunds)
      case _ => None;
    return Refused(reasons, requiredAction);
  }

  method FindRestrictions(user: User, asOf: int) returns (found: set<Reason>)
    ensures forall r :: r in found <==> exists k ::
      0 <= k < |user.restrictions| && IsActive(user.restrictions[k], asOf)
          && RestrictionReason(user.restrictions[k].kind) == r
  {
    found := {};
    for k := 0 to |user.restrictions|
      invariant forall r :: r in found <==> exists m ::
        0 <= m < k && IsActive(user.restrictions[m], asOf) && RestrictionReason(user.restrictions[m].kind) == r
    {
      if IsActive(user.restrictions[k], asOf) {
        found := found + {RestrictionReason(user.restrictions[k].kind)};
      }
    }
  }

  method FindLimits(i: Input) returns (found: set<Reason>)
    ensures forall r :: r in found <==> LimitReason(i, r)
  {
    found := {};
    if i.balance < i.entryAmount {
      found := found + {InsufficientBalance};
    }
    if OverLimit(i.ruleset.perContest, i.entryAmount) {
      found := found + {StakeLimitExceeded};
    }
    if OverLimit(i.ruleset.per24h, i.velocity.last24h + i.entryAmount)
      || OverLimit(i.ruleset.per7d, i.velocity.last7d + i.entryAmount) {
      found := found + {VelocityLimitExceeded};
    }
  }

  /** The reasons that come from funds and limits. */
  predicate LimitReason(i: Input, r: Reason) {
    || (r.InsufficientBalance? && Applies(i, r))
    || (r.StakeLimitExceeded? && Applies(i, r))
    || (r.VelocityLimitExceeded?
        && (OverLimit(i.ruleset.per24h, i.velocity.last24h + i.entryAmount)
            || OverLimit(i.ruleset.per7d, i.velocity.last7d + i.entryAmount)))
  }

  /** The reasons that come from who and where the user is. */
  predicate PersonReason(i: Input, r: Reason) {
    (r.IdentityRejected? || r.UnderMinimumAge? || r.RegionNotPermitted? || r.RegionUnknown? || r.IdentityUnverified?)
    && Applies(i, r)
  }

  lemma {:induction false} FoundInSteps(i: Input, restricted: set<Reason>, person: set<Reason>, limits: set<Reason>)
    requires forall r :: r in restricted <==> Restricted(i, r)
    requires forall r :: r in person <==> r in restricted || PersonReason(i, r)
    requires forall r :: r in limits <==> LimitReason(i, r)
    ensures person + limits == Found(i)
  {
    forall r ensures r in person + limits <==> r in Found(i) {
      PriorityListsAll(r);
      RestrictionsAreNamed(i, r);
    }
  }

  lemma {:induction false} PriorityListsAll(r: Reason)
    ensures r in REASON_PRIORITY
  {
    match r
    case PlatformBlocked => assert REASON_PRIORITY[0] == r;
    case SelfExcluded => assert REASON_PRIORITY[1] == r;
    case CoolingOff => assert REASON_PRIORITY[2] == r;
    case IdentityRejected => assert REASON_PRIORITY[3] == r;
    case UnderMinimumAge => assert REASON_PRIORITY[4] == r;
    case RegionNotPermitted => assert REASON_PRIORITY[5] == r;
    case RegionUnknown => assert REASON_PRIORITY[6] == r;
    case IdentityUnverified => assert REASON_PRIORITY[7] == r;
    case StakeLimitExceeded => assert REASON_PRIORITY[8] == r;
    case VelocityLimitExceeded => assert REASON_PRIORITY[9] == r;
    case InsufficientBalance => assert REASON_PRIORITY[10] == r;
    case ContestNotOpen => assert REASON_PRIORITY[11] == r;
    case ContestFull => assert REASON_PRIORITY[12] == r;
  }

  lemma {:induction false} RestrictionsAreNamed(i: Input, r: Reason)
    ensures Restricted(i, r) ==> r in {PlatformBlocked, SelfExcluded, CoolingOff, VelocityLimitExceeded}
  {
  }

  /** An entry is allowed exactly when no reason applies. */
  lemma {:induction false} AllowedIff(i: Input)
    ensures Decide(i).Allowed? <==> forall r :: !Applies(i, r)
    ensures Decide(i).Refused? ==> forall r :: r in Decide(i).reasons <==> Applies(i, r)
  {
    forall r ensures r in Keep(REASON_PRIORITY, Found(i)) <==> Applies(i, r) {
      PriorityListsAll(r);
    }
    if forall r :: !Applies(i, r) {
      var kept := Keep(REASON_PRIORITY, Found(i));
      assert kept == [] || kept[0] in kept;
    }
  }

  /**
   * Nobody is told to add funds while anything else stands in the way: the shortfall ranks
   * below every other reason the evaluator can find.
   */
  lemma {:induction false} AddFundsOnlyForFunds(i: Input)
    requires Decide(i).Refused?
    ensures Decide(i).requiredAction == Some(AddFunds) <==> Decide(i).reasons == [InsufficientBalance]
  {
    var k := FirstKept(REASON_PRIORITY, Found(i));
    ShortfallIsTenth(k);
    if k == 10 {
      NothingBehindTheShortfall(i);
    }
  }

  lemma {:induction false} ShortfallIsTenth(k: nat)
    requires k < |REASON_PRIORITY|
    ensures REASON_PRIORITY[k] == InsufficientBalance <==> k == 10
  {
  }

  lemma {:induction false} NothingBehindTheShortfall(i: Input)
    ensures Keep(REASON_PRIORITY[11..], Found(i)) == []
  {
    assert REASON_PRIORITY[11..] == [ContestNotOpen, ContestFull];
    NoneKept(REASON_PRIORITY[11..], Found(i));
  }

  /** The first reason reported: everything ranked above it was not found. */
  lemma {:induction false} FirstKept(reasons: seq<Reason>, found: set<Reason>) returns (k: nat)
    requires Keep(reasons, found) != []
    ensures k < |reasons| && Keep(reasons, found) == [reasons[k]] + Keep(reasons[k + 1..], found)
    ensures forall j | 0 <= j < k :: reasons[j] !in found
  {
    if reasons[0] in found {
      k := 0;
    } else {
      k := FirstKept(reasons[1..], found);
      assert reasons[1..][k + 1..] == reasons[k + 2..];
      k := k + 1;
    }
  }

  lemma {:induction false} NoneKept(reasons: seq<Reason>, found: set<Reason>)
    requires forall r | r in reasons :: r !in found
    ensures Keep(reasons, found) == []
  {
    if reasons != [] {
      NoneKept(reasons[1..], found);
    }
  }

  // ---- Rolling totals (velocity.ts) --------------------------------------------------

  const LAST_24H: int := 24 * 3_600_000
  const LAST_7D: int := 7 * 24 * 3_600_000

  /** What an entry stakes from this wallet: every debit of an `escrow` entry, gross. */
  function Staked(entry: Entry, wallet: Account): int {
    if entry.post.kind == EscrowEntry then DebitOf(entry.post.lines, wallet) else 0
  }

  function DebitOf(lines: seq<Line>, wallet: Account): int {
    if lines == [] then 0
    else
      var last := lines[|lines| - 1];
      DebitOf(lines[..|lines| - 1], wallet) + if last.account == wallet && last.side == Debit then last.amount else 0
  }

  /** Everything staked by entries posted strictly after `since`. */
  function StakedSince(journal: Journal, wallet: Account, since: int): int {
    if journal == [] then 0
    else
      var last := journal[|journal| - 1];
      StakedSince(journal[..|journal| - 1], wallet, since) + if last.postedAt > since then Staked(last, wallet) else 0
  }

  function VelocityAt(journal: Journal, wallet: Account, now: int): Velocity {
    Velocity(StakedSince(journal, wallet, now - LAST_24H), StakedSince(journal, wallet, now - LAST_7D))
  }
}
