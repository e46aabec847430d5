/** What is true of the rows after any run, and the facts its preservation rests on. */
module ContestInvariant {
  import opened Common
  import opened Ledger
  import opened Contests

  // ---- The journal and the contests together -----------------------------------------

  /** An entry's part in a contest: what it moves in and out of an account on the contest's behalf. */
  function ContestDelta(journal: Journal, id: nat, account: Account): int {
    if journal == [] then 0
    else
      var last := journal[|journal| - 1].post;
      ContestDelta(journal[..|journal| - 1], id, account) + if last.contest == Some(id)
          then Delta(last.lines, account) else 0
  }

  /** Only entries made for a contest touch its escrow. */
  ghost predicate EscrowsTagged(journal: Journal) {
    forall i, l | 0 <= i < |journal| && 0 <= l < |journal[i].post.lines| ::
      journal[i].post.lines[l].account.Escrow? ==>
          journal[i].post.contest == Some(journal[i].post.lines[l].account.contest)
  }

  /**
   * Entries made for a contest are its tenant's, move money between wallets, escrows and
   * fees only, and say by their key what became of the contest.
   */
  ghost predicate EntryKnown(db: Db, post: Post) {
    && (post.contest.Some? ==>
          && post.contest.value in db.contests && post.tenant == db.contests[post.contest.value].tenant
          && forall l | 0 <= l < |post.lines| :: Custody(post.lines[l].account))
    && (post.kind == FeeEntry ==> post.key.RakeKey?)
    && (post.kind == SettleEntry ==> post.key.SettleKey?)
    && match post.key
       case EntryKey(key) => (post.tenant, key) in db.keys
       case WithdrawKey(key) => (post.tenant, key) in db.keys
       case RakeKey(id) => post.contest == Some(id) && id in db.contests && db.contests[id].state.Settled?
       case SettleKey(id) => post.contest == Some(id) && id in db.contests && db.contests[id].state.Settled?
       case VoidKey(id, _) => post.contest == Some(id) && id in db.contests && db.contests[id].state.Voided?
       case OutsideKey(_) => true
  }

  /** A reversal names an entry posted before it. */
  ghost predicate ReversalsLookBack(journal: Journal) {
    forall i | 0 <= i < |journal| && journal[i].post.reverses.Some? :: journal[i].post.reverses.value < i
  }

  ghost predicate Sound(journal: Journal) {
    && Solvent(journal) && WellPosted(journal) && KeysOnce(journal)
    && EscrowsTagged(journal) && ReversalsLookBack(journal)
  }

  ghost predicate JournalInv(db: Db) {
    Sound(db.journal) && forall i | 0 <= i < |db.journal| :: EntryKnown(db, db.journal[i].post)
  }

  // ---- One contest -------------------------------------------------------------------

  ghost predicate Roster(k: Contest) {
    && (forall i, j | 0 <= i < j < |k.participants| :: k.participants[i].user != k.participants[j].user)
    && (k.state.Draft? ==> k.participants == [])
    && (k.state.Cancelled? ==> ActiveCount(k.participants) == 0)
    && (k.terms.maxParticipants.Some? ==> ActiveCount(k.participants) <= k.terms.maxParticipants.value)
    && CheckTerms(k.terms) == None
    && !k.state.Settling?
    && (k.settledAt.Some? <==> k.state.Settled?)
  }

  /** The participant's row points at an escrow entry of exactly their stake, not yet reversed. */
  ghost predicate HoldsStake(journal: Journal, id: nat, k: Contest, p: Participant) {
    && p.entry < |journal|
    && journal[p.entry].post.tenant == k.tenant
    && journal[p.entry].post.kind == EscrowEntry
    && journal[p.entry].post.contest == Some(id)
    && journal[p.entry].post.lines == Move(WalletOf(k, p.user), EscrowOf(id, k), k.terms.entryAmount)
    && !Reversed(journal, p.entry)
  }

  ghost predicate StakesHeld(journal: Journal, id: nat, k: Contest) {
    !k.state.Voided? ==>
      forall i | 0 <= i < |k.participants| && Active(k.participants[i]) :: HoldsStake(journal, id, k, k.participants[i])
  }

  function PayoutOf(rows: seq<ResultRow>, user: nat): int {
    if rows == [] then 0
    else PayoutOf(rows[..|rows| - 1], user) + if rows[|rows| - 1].user == user then rows[|rows| - 1].payout else 0
  }

  /** What this contest has done to a user's wallet so far. */
  function Owed(k: Contest, user: nat): int {
    var place := FindParticipant(k.participants, user);
    if place.None? || !Active(k.participants[place.value]) || k.state.Voided? then 0
    else if k.state.Settled? then PayoutOf(k.results, user) - k.terms.entryAmount
    else -k.terms.entryAmount
  }

  /** The stakes a contest is holding. */
  function Held(k: Contest): int {
    if Terminal(k.state) then 0 else ActiveCount(k.participants) * k.terms.entryAmount
  }

  ghost predicate Accounted(journal: Journal, id: nat, k: Contest) {
    && (forall u: nat :: ContestDelta(journal, id, WalletOf(k, u)) == Owed(k, u))
    && ContestDelta(journal, id, EscrowOf(id, k)) == Held(k)
  }

  /**
   * The score rows of each user form one chain in submission order: a superseded row points
   * at the user's next row and was not finished, and only the user's last row counts.
   */
  ghost predicate ScoreHistory(rows: seq<ScoreRow>) {
    forall i | 0 <= i < |rows| :: Linked(rows, i)
  }

  ghost predicate Linked(rows: seq<ScoreRow>, i: nat)
    requires i < |rows|
  {
    match rows[i].supersededBy
    case None => forall j | i < j < |rows| :: rows[j].user != rows[i].user
    case Some(next) =>
      && i < next < |rows| && rows[next].user == rows[i].user && !rows[i].finished
      && forall j | i < j < next :: rows[j].user != rows[i].user
  }

  ghost predicate SomeEntered(k: Contest) {
    exists i :: 0 <= i < |k.participants| && k.participants[i].state.Entered?
  }

  /**
   * With everyone's result in, an `auto` contest has settled and an `operator_close` one
   * is waiting, settled or voided.
   */
  ghost predicate Advanced(k: Contest) {
    && (k.state.Draft? || k.state.Open? || k.state.Locked? ==> k.scores == [])
    && (SomeEntered(k) && AllExpectedResults(k) ==>
          match k.terms.policy
          case Auto => k.state.Settled?
          case OperatorClose => k.state.AwaitingSettlement? || k.state.Settled? || k.state.Voided?)
  }

  /** What settling pays, reckoned from the contest's own rows alone: the stakes of everyone still in. */
  function Reckon(k: Contest): Result<Preview, Failure> {
    ComputeFrom(ActiveCount(k.participants) * k.terms.entryAmount, k)
  }

  /** A settled contest's result rows are its reckoning, and the journal holds the reckoned rake. */
  ghost predicate ResultsRecorded(journal: Journal, id: nat, k: Contest) {
    if k.state.Settled? then
      && Reckon(k).Ok?
      && (exists entry: Option<nat> :: k.results == ResultRows(Reckon(k).value, entry))
      && RakeTaken(journal, id) == Reckon(k).value.rake
    else k.results == [] && RakeTaken(journal, id) == 0
  }

  ghost predicate ContestInv(journal: Journal, id: nat, k: Contest) {
    && Roster(k)
    && StakesHeld(journal, id, k)
    && Accounted(journal, id, k)
    && ScoreHistory(k.scores)
    && Advanced(k)
    && ResultsRecorded(journal, id, k)
  }

  ghost predicate DbInv(db: Db) {
    && JournalInv(db)
    && forall id | id in db.contests :: ContestInv(db.journal, id, db.contests[id])
  }

  lemma {:induction false} EmptyInv()
    ensures DbInv(EMPTY)
  {
  }

  // ---- Journal facts -----------------------------------------------------------------

  lemma {:induction false} ContestDeltaPush(journal: Journal, entry: Entry, id: nat, account: Account)
    ensures ContestDelta(journal + [entry], id, account)
         == ContestDelta(journal, id, account) + if entry.post.contest == Some(id)
             then Delta(entry.post.lines, account) else 0
  {
    assert (journal + [entry])[..|journal|] == journal;
  }

  lemma {:induction false} RakeTakenPush(journal: Journal, entry: Entry, id: nat)
    ensures RakeTaken(journal + [entry], id) == RakeTaken(journal, id)
      + if entry.post.contest == Some(id) && entry.post.kind == FeeEntry then FeeCredits(entry.post.lines) else 0
  {
    assert (journal + [entry])[..|journal|] == journal;
  }

  /** The escrow's balance is what the contest's own entries put in and took out. */
  lemma {:induction false} EscrowIsOwn(journal: Journal, tenant: nat, asset: Asset, id: nat)
    requires EscrowsTagged(journal)
    ensures Balance(journal, Escrow(tenant, asset, id)) == ContestDelta(journal, id, Escrow(tenant, asset, id))
  {
    if journal != [] {
      var front, last := journal[..|journal| - 1], journal[|journal| - 1].post;
      assert EscrowsTagged(front) by {
        forall i, l | 0 <= i < |front| && 0 <= l < |front[i].post.lines| && front[i].post.lines[l].account.Escrow?
          ensures front[i].post.contest == Some(front[i].post.lines[l].account.contest)
        {
          assert front[i] == journal[i];
        }
      }
      EscrowIsOwn(front, tenant, asset, id);
      if last.contest != Some(id) {
        DeltaUntouched(last.lines, Escrow(tenant, asset, id));
      }
    }
  }

  lemma {:induction false} UntaggedDelta(journal: Journal, id: nat, account: Account)
    requires forall i | 0 <= i < |journal| :: journal[i].post.contest != Some(id)
    ensures ContestDelta(journal, id, account) == 0 && RakeTaken(journal, id) == 0
  {
    if journal != [] {
      UntaggedDelta(journal[..|journal| - 1], id, account);
    }
  }

  // ---- Rosters -----------------------------------------------------------------------

  lemma {:induction false} ActivePlacesFacts(ps: seq<Participant>)
    ensures var places := ActivePlaces(ps);
      && |places| <= |ps|
      && (forall i, j | 0 <= i < j < |places| :: places[i] < places[j])
      && (forall i | 0 <= i < |ps| :: Active(ps[i]) <==> i in places)
  {
    if ps != [] {
      ActivePlacesFacts(ps[..|ps| - 1]);
    }
  }

  lemma {:induction false} ActiveCountUpdate(ps: seq<Participant>, i: nat, p: Participant)
    requires i < |ps|
    ensures ActiveCount(ps[i := p]) == ActiveCount(ps) + (if Active(p) then 1 else 0) - (if Active(ps[i]) then 1 else 0)
  {
    var last := |ps| - 1;
    if i == last {
      assert ps[i := p][..last] == ps[..last];
    } else {
      ActiveCountUpdate(ps[..last], i, p);
      assert ps[i := p][..last] == ps[..last][i := p];
    }
  }

  lemma {:induction false} ActiveCountPush(ps: seq<Participant>, p: Participant)
    ensures ActiveCount(ps + [p]) == ActiveCount(ps) + if Active(p) then 1 else 0
  {
    assert (ps + [p])[..|ps|] == ps;
  }

  /** With distinct users a participant is found at their own place. */
  lemma {:induction false} FindIs(ps: seq<Participant>, i: nat)
    requires i < |ps|
    requires forall a, b | 0 <= a < b < |ps| :: ps[a].user != ps[b].user
    ensures FindParticipant(ps, ps[i].user) == Some(i)
  {
    if i < |ps| - 1 {
      FindIs(ps[..|ps| - 1], i);
    }
  }

  /** Seating one user leaves every other user's row where it was. */
  lemma {:induction false} FindOther(ps: seq<Participant>, place: Option<nat>, p: Participant, user: nat)
    requires forall a, b | 0 <= a < b < |ps| :: ps[a].user != ps[b].user
    requires place == FindParticipant(ps, p.user) && user != p.user
    ensures FindParticipant(Seated(ps, place, p), user) == FindParticipant(ps, user)
    ensures var found := FindParticipant(ps, user);
      found.Some? ==> found.value < |Seated(ps, place, p)| && Seated(ps, place, p)[found.value] == ps[found.value]
  {
    var after := Seated(ps, place, p);
    assert forall a, b | 0 <= a < b < |after| :: after[a].user != after[b].user;
    var found := FindParticipant(ps, user);
    if found.Some? {
      assert after[found.value] == ps[found.value];
      FindIs(after, found.value);
    }
  }

  lemma {:induction false} FindSeated(ps: seq<Participant>, place: Option<nat>, p: Participant)
    requires forall a, b | 0 <= a < b < |ps| :: ps[a].user != ps[b].user
    requires place == FindParticipant(ps, p.user)
    ensures var after := Seated(ps, place, p); var at := Or(place, |ps|);
      && (forall a, b | 0 <= a < b < |after| :: after[a].user != after[b].user)
      && at < |after| && after[at] == p && FindParticipant(after, p.user) == Some(at)
  {
    var after := Seated(ps, place, p);
    FindIs(after, Or(place, |ps|));
  }

  // ---- What the rest of the journal does not change ----------------------------------

  /** Entries that reverse only entries of their own contest. */
  ghost predicate ReversesOwn(journal: Journal, post: Post) {
    post.reverses.Some? ==>
      post.reverses.value < |journal| && journal[post.reverses.value].post.contest == post.contest
  }

  lemma {:induction false} PostReversesOwn(journal: Journal, post: Post, at: int)
    requires TryPost(journal, post, at).Ok? && !TryPost(journal, post, at).value.replayed
    ensures ReversesOwn(journal, post)
  {
  }

  /** An entry made for one contest changes nothing another contest's invariant speaks of. */
  lemma {:induction false} OtherContestKept(journal: Journal, entry: Entry, id: nat, k: Contest)
    requires ContestInv(journal, id, k)
    requires entry.post.contest != Some(id) && ReversesOwn(journal, entry.post)
    ensures ContestInv(journal + [entry], id, k)
  {
    var after := journal + [entry];
    RakeTakenPush(journal, entry, id);
    forall u: nat ensures ContestDelta(after, id, WalletOf(k, u)) == Owed(k, u) {
      ContestDeltaPush(journal, entry, id, WalletOf(k, u));
    }
    ContestDeltaPush(journal, entry, id, EscrowOf(id, k));
    if !k.state.Voided? {
      forall i | 0 <= i < |k.participants| && Active(k.participants[i])
        ensures HoldsStake(after, id, k, k.participants[i])
      {
        StakeKept(journal, entry, id, k, k.participants[i]);
      }
    }
  }

  lemma {:induction false} StakeKept(journal: Journal, entry: Entry, id: nat, k: Contest, p: Participant)
    requires HoldsStake(journal, id, k, p)
    requires entry.post.reverses != Some(p.entry)
      || (entry.post.contest != Some(id) && ReversesOwn(journal, entry.post))
    ensures HoldsStake(journal + [entry], id, k, p)
  {
    var after := journal + [entry];
    assert forall i | 0 <= i < |journal| :: after[i] == journal[i];
  }

  lemma {:induction false} EscrowsTaggedPush(journal: Journal, entry: Entry)
    requires EscrowsTagged(journal)
    requires forall l | 0 <= l < |entry.post.lines| && entry.post.lines[l].account.Escrow? ::
      entry.post.contest == Some(entry.post.lines[l].account.contest)
    ensures EscrowsTagged(journal + [entry])
  {
  }
}
