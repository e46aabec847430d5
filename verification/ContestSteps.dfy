/** Every operation of the contest engine keeps the invariant. */
module ContestSteps {
  import opened Common
  import opened Ledger
  import opened Contests
  import opened ContestInvariant

  // ---- How rows may change -----------------------------------------------------------

  /** A score row only ever gains a successor, and only while it is unfinished and has none. */
  ghost predicate ScoresEvolve(a: seq<ScoreRow>, b: seq<ScoreRow>) {
    |a| <= |b| && forall i | 0 <= i < |a| :: RowEvolves(a[i], b[i])
  }

  predicate RowEvolves(a: ScoreRow, b: ScoreRow) {
    a == b || (a.supersededBy.None? && !a.finished && b == a.(supersededBy := b.supersededBy))
  }

  /**
   * What no operation undoes: a terminal contest's rows are frozen, terms are frozen past
   * draft, the roster past open, and score rows are never rewritten.
   */
  ghost predicate Evolves(a: Contest, b: Contest) {
    && a.tenant == b.tenant && a.asset == b.asset && a.externalId == b.externalId
    && (Terminal(a.state) ==> a == b)
    && (!a.state.Draft? ==> !b.state.Draft? && a.terms == b.terms)
    && (!a.state.Draft? && !a.state.Open? ==> !b.state.Open? && a.participants == b.participants)
    && ScoresEvolve(a.scores, b.scores)
  }

  lemma {:induction false} EvolvesTwice(a: Contest, b: Contest, c: Contest)
    requires Evolves(a, b) && Evolves(b, c)
    ensures Evolves(a, c)
  {
    forall i | 0 <= i < |a.scores| ensures RowEvolves(a.scores[i], c.scores[i]) {
      assert RowEvolves(a.scores[i], b.scores[i]) && RowEvolves(b.scores[i], c.scores[i]);
    }
  }

  lemma {:induction false} RosterEvolves(k: Contest, participants: seq<Participant>)
    requires k.state.Open?
    ensures Evolves(k, k.(participants := participants))
  {
  }

  lemma {:induction false} StateEvolves(k: Contest, to: ContestState)
    requires to in Transitions(k.state) && !to.Settled?
    ensures Evolves(k, k.(state := to))
  {
  }

  /** Rows after a request: the journal grown by entries made for contests, every contest evolved. */
  ghost predicate Grows(db: Db, after: Db) {
    && db.journal <= after.journal
    && (forall i | |db.journal| <= i < |after.journal| :: after.journal[i].post.contest.Some?)
    && (forall id | id in db.contests :: id in after.contests && Evolves(db.contests[id], after.contests[id]))
  }

  // ---- Committing one contest's change -----------------------------------------------

  /** The journal grown by entries made for one contest. */
  ghost predicate GrownFor(journal: Journal, after: Journal, id: nat) {
    && journal <= after
    && forall i | |journal| <= i < |after| ::
        after[i].post.contest == Some(id) && ReversesOwn(after[..i], after[i].post)
  }

  lemma {:induction false} OthersKept(journal: Journal, after: Journal, id: nat, other: nat, k: Contest)
    requires GrownFor(journal, after, id) && other != id && ContestInv(journal, other, k)
    ensures ContestInv(after, other, k)
    decreases |after|
  {
    if |after| == |journal| {
      assert after == journal;
    } else {
      var front, last := after[..|after| - 1], after[|after| - 1];
      GrownFront(journal, after, id);
      OthersKept(journal, front, id, other, k);
      OtherContestKept(front, last, other, k);
      assert after == front + [last];
    }
  }

  lemma {:induction false} GrownFront(journal: Journal, after: Journal, id: nat)
    requires GrownFor(journal, after, id) && |after| > |journal|
    ensures var front, last := after[..|after| - 1], after[|after| - 1];
      GrownFor(journal, front, id) && last.post.contest == Some(id) && ReversesOwn(front, last.post)
  {
    var front := after[..|after| - 1];
    forall i | |journal| <= i < |front|
      ensures front[i].post.contest == Some(id) && ReversesOwn(front[..i], front[i].post)
    {
      assert front[i] == after[i] && front[..i] == after[..i];
    }
  }

  lemma {:induction false} CommitKeeps(db: Db, id: nat, k: Contest, after: Db)
    requires DbInv(db)
    requires after.contests == db.contests[id := k] && db.keys.Keys <= after.keys.Keys
    requires GrownFor(db.journal, after.journal, id)
    requires Sound(after.journal)
    requires id in db.contests ==> Evolves(db.contests[id], k)
    requires forall i | |db.journal| <= i < |after.journal| :: EntryKnown(after, after.journal[i].post)
    requires ContestInv(after.journal, id, k)
    ensures DbInv(after) && Grows(db, after)
  {
    CommitKnown(db, id, k, after);
    CommitContests(db, id, k, after);
    CommitGrows(db, id, k, after);
  }

  lemma {:induction false} CommitContests(db: Db, id: nat, k: Contest, after: Db)
    requires forall other | other in db.contests :: ContestInv(db.journal, other, db.contests[other])
    requires after.contests == db.contests[id := k] && GrownFor(db.journal, after.journal, id)
    requires ContestInv(after.journal, id, k)
    ensures forall other | other in after.contests :: ContestInv(after.journal, other, after.contests[other])
  {
    forall other | other in after.contests ensures ContestInv(after.journal, other, after.contests[other]) {
      if other != id {
        OthersKept(db.journal, after.journal, id, other, db.contests[other]);
      }
    }
  }

  lemma {:induction false} CommitGrows(db: Db, id: nat, k: Contest, after: Db)
    requires after.contests == db.contests[id := k] && GrownFor(db.journal, after.journal, id)
    requires id in db.contests ==> Evolves(db.contests[id], k)
    ensures Grows(db, after)
  {
  }

  /** What entries said of their contests stays true as contests evolve. */
  lemma {:induction false} CommitKnown(db: Db, id: nat, k: Contest, after: Db)
    requires JournalInv(db) && db.journal <= after.journal
    requires after.contests == db.contests[id := k] && db.keys.Keys <= after.keys.Keys
    requires id in db.contests ==> Evolves(db.contests[id], k)
    requires forall i | |db.journal| <= i < |after.journal| :: EntryKnown(after, after.journal[i].post)
    ensures forall i | 0 <= i < |after.journal| :: EntryKnown(after, after.journal[i].post)
  {
    forall i | 0 <= i < |after.journal| ensures EntryKnown(after, after.journal[i].post) {
      if i < |db.journal| {
        assert after.journal[i] == db.journal[i];
        assert EntryKnown(db, db.journal[i].post);
      }
    }
  }

  /** A change made by one entry that takes or returns a stake. */
  lemma {:induction false} StakeCommitKeeps(db: Db, id: nat, k: Contest, entry: Entry, key: nat, after: Db)
    requires DbInv(db) && id in db.contests && Evolves(db.contests[id], k)
    requires after.contests == db.contests[id := k] && after.keys.Keys == db.keys.Keys + {(k.tenant, key)}
    requires after.journal == db.journal + [entry] && Sound(after.journal) && ReversesOwn(db.journal, entry.post)
    requires entry.post.contest == Some(id) && entry.post.tenant == k.tenant
    requires forall l | 0 <= l < |entry.post.lines| :: Custody(entry.post.lines[l].account)
    requires entry.post.kind.EscrowEntry? || entry.post.kind.RefundEntry?
    requires entry.post.key == EntryKey(key) || entry.post.key == WithdrawKey(key)
    requires ContestInv(after.journal, id, k)
    ensures DbInv(after) && Grows(db, after)
  {
    OneEntryGrown(db.journal, entry, id);
    CommitKeeps(db, id, k, after);
  }

  /** A change that posts nothing. */
  lemma {:induction false} QuietCommitKeeps(db: Db, id: nat, k: Contest, after: Db)
    requires DbInv(db)
    requires after.contests == db.contests[id := k] && db.keys.Keys <= after.keys.Keys && after.journal == db.journal
    requires id in db.contests ==> Evolves(db.contests[id], k)
    requires ContestInv(db.journal, id, k)
    ensures DbInv(after) && Grows(db, after)
  {
    CommitKeeps(db, id, k, after);
  }

  // ---- Create, update, move ----------------------------------------------------------

  lemma {:induction false} NewContestInv(db: Db, id: nat, k: Contest)
    requires DbInv(db) && id !in db.contests
    requires k.state.Draft? && k.settledAt.None? && k.participants == [] && k.scores == [] && k.results == []
    requires CheckTerms(k.terms) == None
    ensures ContestInv(db.journal, id, k)
  {
    forall i | 0 <= i < |db.journal| ensures db.journal[i].post.contest != Some(id) {
      assert EntryKnown(db, db.journal[i].post);
    }
    forall u: nat ensures ContestDelta(db.journal, id, WalletOf(k, u)) == Owed(k, u) {
      UntaggedDelta(db.journal, id, WalletOf(k, u));
    }
    UntaggedDelta(db.journal, id, EscrowOf(id, k));
  }

  lemma {:induction false} PatchedTermsValid(t: Terms, p: Patch)
    requires CheckTerms(t) == None && CheckPatch(p) == None
    requires LockAfterOpen(Patched(t, p).opensAt, Patched(t, p).locksAt)
    ensures CheckTerms(Patched(t, p)) == None
  {
  }

  /** A draft holds nothing, so its terms may change. */
  lemma {:induction false} DraftTermsKeep(journal: Journal, id: nat, k: Contest, terms: Terms)
    requires ContestInv(journal, id, k) && k.state.Draft? && CheckTerms(terms) == None
    ensures ContestInv(journal, id, k.(terms := terms))
  {
    var k' := k.(terms := terms);
    forall u: nat ensures ContestDelta(journal, id, WalletOf(k', u)) == Owed(k', u) {
      assert ContestDelta(journal, id, WalletOf(k, u)) == Owed(k, u);
    }
  }

  lemma {:induction false} TransitionShape(journal: Journal, id: nat, k: Contest, to: ContestState, actor: ActorKind,
      env: Env)
    requires Transition(journal, id, k, to, actor, env).Ok?
    ensures to in Transitions(k.state) && !Terminal(k.state)
    ensures CheckTransition(k, to, actor) == None && CheckGuard(journal, id, k, to, env.ruleset) == None
    ensures Transition(journal, id, k, to, actor, env).value
         == k.(state := to, settledAt := if to.Settled? then Some(env.at) else k.settledAt)
  {
  }

  /** A plain transition moves no money; what a contest holds and owes does not depend on where it stands. */
  lemma {:induction false} PlainMoveKeeps(journal: Journal, id: nat, k: Contest, to: ContestState)
    requires ContestInv(journal, id, k) && PlainTarget(to) && to in Transitions(k.state)
    requires to.Cancelled? ==> ActiveCount(k.participants) == 0
    requires SomeEntered(k) && AllExpectedResults(k) ==> to.AwaitingSettlement? && k.terms.policy.OperatorClose?
    ensures ContestInv(journal, id, k.(state := to))
  {
    if to.Cancelled? {
      CancelledAccounts(journal, id, k);
    } else {
      MovedAccounts(journal, id, k, to);
    }
    MovedStakes(journal, id, k, to);
    assert Advanced(k.(state := to)) by {
      assert SomeEntered(k.(state := to)) == SomeEntered(k);
      assert AllExpectedResults(k.(state := to)) == AllExpectedResults(k);
    }
  }

  lemma {:induction false} MovedStakes(journal: Journal, id: nat, k: Contest, to: ContestState)
    requires StakesHeld(journal, id, k) && !k.state.Voided?
    ensures StakesHeld(journal, id, k.(state := to))
  {
    forall i | 0 <= i < |k.participants| && Active(k.participants[i])
      ensures HoldsStake(journal, id, k.(state := to), k.participants[i])
    {
      assert HoldsStake(journal, id, k, k.participants[i]);
    }
  }

  lemma {:induction false} MovedAccounts(journal: Journal, id: nat, k: Contest, to: ContestState)
    requires Accounted(journal, id, k) && !Terminal(k.state) && !Terminal(to)
    ensures Accounted(journal, id, k.(state := to))
  {
    forall u: nat ensures ContestDelta(journal, id, WalletOf(k.(state := to), u)) == Owed(k.(state := to), u) {
      assert ContestDelta(journal, id, WalletOf(k, u)) == Owed(k, u);
    }
  }

  lemma {:induction false} CancelledAccounts(journal: Journal, id: nat, k: Contest)
    requires Accounted(journal, id, k) && !Terminal(k.state) && ActiveCount(k.participants) == 0
    ensures Accounted(journal, id, k.(state := Cancelled))
  {
    var k' := k.(state := Cancelled);
    forall u: nat ensures ContestDelta(journal, id, WalletOf(k', u)) == Owed(k', u) {
      assert ContestDelta(journal, id, WalletOf(k, u)) == Owed(k, u);
      NobodyActive(k, u);
      NobodyActive(k', u);
    }
  }

  lemma {:induction false} NobodyActive(k: Contest, user: nat)
    requires ActiveCount(k.participants) == 0
    ensures Owed(k, user) == 0
  {
    ActivePlacesFacts(k.participants);
  }

  // ---- Entering and withdrawing ------------------------------------------------------

  lemma {:induction false} PostedFresh(db: Db, post: Post, at: int)
    requires DbInv(db) && TryPost(db.journal, post, at).Ok?
    requires forall i | 0 <= i < |db.journal| ::
      !(db.journal[i].post.tenant == post.tenant && db.journal[i].post.key == post.key)
    ensures var posted := TryPost(db.journal, post, at).value;
      && !posted.replayed && posted.entry == |db.journal| && posted.journal == db.journal + [Entry(post, at)]
      && Solvent(posted.journal) && WellPosted(posted.journal) && KeysOnce(posted.journal)
      && ReversalsLookBack(posted.journal) && ReversesOwn(db.journal, post)
  {
    PostShape(db.journal, post, at);
    PostKeeps(db.journal, post, at);
    PostReversesOwn(db.journal, post, at);
  }

  lemma {:induction false} KeyUnused(db: Db, tenant: nat, key: nat)
    requires DbInv(db) && (tenant, key) !in db.keys
    ensures forall i | 0 <= i < |db.journal| ::
      !(db.journal[i].post.tenant == tenant && db.journal[i].post.key == EntryKey(key))
    ensures forall i | 0 <= i < |db.journal| ::
      !(db.journal[i].post.tenant == tenant && db.journal[i].post.key == WithdrawKey(key))
  {
    forall i | 0 <= i < |db.journal|
      ensures !(db.journal[i].post.tenant == tenant && db.journal[i].post.key == EntryKey(key))
      ensures !(db.journal[i].post.tenant == tenant && db.journal[i].post.key == WithdrawKey(key))
    {
      assert EntryKnown(db, db.journal[i].post);
    }
  }

  /** A stake posted under a request's own key is a new entry. */
  lemma {:induction false} StakePosted(db: Db, post: Post, at: int, key: nat)
    requires DbInv(db) && (post.tenant, key) !in db.keys && (post.key == EntryKey(key) || post.key == WithdrawKey(key))
    requires TryPost(db.journal, post, at).Ok? && post.reverses.None?
    requires forall l | 0 <= l < |post.lines| && post.lines[l].account.Escrow? ::
      post.contest == Some(post.lines[l].account.contest)
    ensures TryPost(db.journal, post, at) == Ok(Posted(db.journal + [Entry(post, at)], |db.journal|, false))
    ensures Sound(db.journal + [Entry(post, at)])
  {
    KeyUnused(db, post.tenant, key);
    PostedFresh(db, post, at);
    EscrowsTaggedPush(db.journal, Entry(post, at));
  }

  lemma {:induction false} OneEntryGrown(journal: Journal, entry: Entry, id: nat)
    requires entry.post.contest == Some(id) && ReversesOwn(journal, entry.post)
    ensures GrownFor(journal, journal + [entry], id)
  {
    assert (journal + [entry])[..|journal|] == journal;
  }

  /** A stake moves from the wallet to the escrow, and the participant's row points at the entry that moved it. */
  lemma {:induction false} SeatedInv(journal: Journal, id: nat, k: Contest, entry: Entry, p: Participant, key: nat)
    requires ContestInv(journal, id, k) && ReversalsLookBack(journal) && k.state.Open? && !Full(k)
    requires var place := FindParticipant(k.participants, p.user); place.Some? ==> !Active(k.participants[place.value])
    requires p.state.Entered? && p.entry == |journal|
    requires entry.post == EscrowPost(k.tenant, k.asset, id, p.user, k.terms.entryAmount, key)
    ensures var place := FindParticipant(k.participants, p.user);
      ContestInv(journal + [entry], id, k.(participants := Seated(k.participants, place, p)))
  {
    var place := FindParticipant(k.participants, p.user);
    var after := journal + [entry];
    var k' := k.(participants := Seated(k.participants, place, p));
    FindSeated(k.participants, place, p);
    SeatedCount(k.participants, place, p);
    SeatedStakes(journal, id, k, entry, p, key);
    SeatedAccounts(journal, id, k, entry, p, key);
    RakeTakenPush(journal, entry, id);
    assert k'.scores == [];
    assert Advanced(k') by {
      var i := Or(place, |k.participants|);
      assert k'.participants[i].state.Entered? && !HasFinished(k'.scores, k'.participants[i].user);
    }
  }

  lemma {:induction false} SeatedCount(ps: seq<Participant>, place: Option<nat>, p: Participant)
    requires place.Some? ==> place.value < |ps| && !Active(ps[place.value])
    requires Active(p)
    ensures ActiveCount(Seated(ps, place, p)) == ActiveCount(ps) + 1
  {
    if place.Some? {
      ActiveCountUpdate(ps, place.value, p);
    } else {
      ActiveCountPush(ps, p);
    }
  }

  lemma {:induction false} SeatedStakes(journal: Journal, id: nat, k: Contest, entry: Entry, p: Participant, key: nat)
    requires StakesHeld(journal, id, k) && ReversalsLookBack(journal) && !k.state.Voided?
    requires p.entry == |journal|
    requires entry.post == EscrowPost(k.tenant, k.asset, id, p.user, k.terms.entryAmount, key)
    ensures var place := FindParticipant(k.participants, p.user);
      StakesHeld(journal + [entry], id, k.(participants := Seated(k.participants, place, p)))
  {
    var place := FindParticipant(k.participants, p.user);
    var after := journal + [entry];
    var k' := k.(participants := Seated(k.participants, place, p));
    forall i | 0 <= i < |k'.participants| && Active(k'.participants[i])
      ensures HoldsStake(after, id, k', k'.participants[i])
    {
      if k'.participants[i] == p {
        assert forall j | 0 <= j < |journal| :: after[j] == journal[j];
      } else {
        assert HoldsStake(journal, id, k, k.participants[i]);
        StakeKept(journal, entry, id, k, k.participants[i]);
      }
    }
  }

  /** Taking a seat costs its user the stake, and nobody else anything. */
  lemma {:induction false} SeatedOwed(k: Contest, p: Participant, user: nat)
    requires Roster(k) && k.state.Open? && Active(p)
    requires var place := FindParticipant(k.participants, p.user); place.Some? ==> !Active(k.participants[place.value])
    ensures var place := FindParticipant(k.participants, p.user);
      Owed(k.(participants := Seated(k.participants, place, p)), user)
        == Owed(k, user) - if user == p.user then k.terms.entryAmount else 0
  {
    var place := FindParticipant(k.participants, p.user);
    FindSeated(k.participants, place, p);
    if user != p.user {
      FindOther(k.participants, place, p, user);
    }
  }

  lemma {:induction false} SeatedAccounts(journal: Journal, id: nat, k: Contest, entry: Entry, p: Participant, key: nat)
    requires Roster(k) && Accounted(journal, id, k) && k.state.Open? && Active(p)
    requires var place := FindParticipant(k.participants, p.user); place.Some? ==> !Active(k.participants[place.value])
    requires entry.post == EscrowPost(k.tenant, k.asset, id, p.user, k.terms.entryAmount, key)
    ensures var place := FindParticipant(k.participants, p.user);
      Accounted(journal + [entry], id, k.(participants := Seated(k.participants, place, p)))
  {
    var place := FindParticipant(k.participants, p.user);
    var after := journal + [entry];
    var k' := k.(participants := Seated(k.participants, place, p));
    var from, to := WalletOf(k, p.user), EscrowOf(id, k);
    SeatedCount(k.participants, place, p);
    forall u: nat ensures ContestDelta(after, id, WalletOf(k', u)) == Owed(k', u) {
      ContestDeltaPush(journal, entry, id, WalletOf(k, u));
      MoveDelta(from, to, k.terms.entryAmount, WalletOf(k, u));
      assert ContestDelta(journal, id, WalletOf(k, u)) == Owed(k, u);
      SeatedOwed(k, p, u);
    }
    ContestDeltaPush(journal, entry, id, to);
    MoveDelta(from, to, k.terms.entryAmount, to);
    assert (ActiveCount(k.participants) + 1) * k.terms.entryAmount
      == ActiveCount(k.participants) * k.terms.entryAmount + k.terms.entryAmount;
  }

  /** A refund moves the stake back, and the participant's row says so. */
  lemma {:induction false} WithdrawnInv(journal: Journal, id: nat, k: Contest, entry: Entry, place: nat, key: nat)
    requires ContestInv(journal, id, k) && k.state.Open?
    requires place < |k.participants| && k.participants[place].state.Entered?
    requires entry.post == RefundPost(k.tenant, k.asset, id, k.participants[place].user, k.terms.entryAmount, key)
    ensures ContestInv(journal + [entry], id, WithdrawnAt(k, place))
  {
    WithdrawnRoster(k, place);
    WithdrawnStakes(journal, id, k, entry, place);
    WithdrawnAccounts(journal, id, k, entry, place, key);
    RakeTakenPush(journal, entry, id);
    NobodyFinished(WithdrawnAt(k, place));
  }

  function WithdrawnAt(k: Contest, place: nat): Contest
    requires place < |k.participants|
  {
    k.(participants := k.participants[place := k.participants[place].(state := Withdrawn)])
  }

  lemma {:induction false} NobodyFinished(k: Contest)
    requires k.scores == []
    ensures SomeEntered(k) ==> !AllExpectedResults(k)
  {
    if SomeEntered(k) {
      var i :| 0 <= i < |k.participants| && k.participants[i].state.Entered?;
      assert !HasFinished(k.scores, k.participants[i].user);
    }
  }

  lemma {:induction false} WithdrawnRoster(k: Contest, place: nat)
    requires Roster(k) && k.state.Open? && place < |k.participants| && k.participants[place].state.Entered?
    ensures Roster(WithdrawnAt(k, place))
    ensures ActiveCount(WithdrawnAt(k, place).participants) == ActiveCount(k.participants) - 1
  {
    ActiveCountUpdate(k.participants, place, WithdrawnAt(k, place).participants[place]);
  }

  lemma {:induction false} WithdrawnStakes(journal: Journal, id: nat, k: Contest, entry: Entry, place: nat)
    requires StakesHeld(journal, id, k) && !k.state.Voided? && place < |k.participants|
    requires entry.post.reverses.None?
    ensures StakesHeld(journal + [entry], id, WithdrawnAt(k, place))
  {
    var k' := WithdrawnAt(k, place);
    forall i | 0 <= i < |k'.participants| && Active(k'.participants[i])
      ensures HoldsStake(journal + [entry], id, k', k'.participants[i])
    {
      assert HoldsStake(journal, id, k, k.participants[i]);
      StakeKept(journal, entry, id, k, k.participants[i]);
    }
  }

  lemma {:induction false} WithdrawnAccounts(journal: Journal, id: nat, k: Contest, entry: Entry, place: nat, key: nat)
    requires Roster(k) && Accounted(journal, id, k) && k.state.Open?
    requires place < |k.participants| && k.participants[place].state.Entered?
    requires entry.post == RefundPost(k.tenant, k.asset, id, k.participants[place].user, k.terms.entryAmount, key)
    ensures Accounted(journal + [entry], id, WithdrawnAt(k, place))
  {
    var k' := WithdrawnAt(k, place);
    var user, amount := k.participants[place].user, k.terms.entryAmount;
    var from, to := EscrowOf(id, k), WalletOf(k, user);
    WithdrawnRoster(k, place);
    WithdrawnOwed(k, place);
    forall u: nat ensures ContestDelta(journal + [entry], id, WalletOf(k', u)) == Owed(k', u) {
      ContestDeltaPush(journal, entry, id, WalletOf(k, u));
      MoveDelta(from, to, amount, WalletOf(k, u));
      assert ContestDelta(journal, id, WalletOf(k, u)) == Owed(k, u);
    }
    ContestDeltaPush(journal, entry, id, from);
    MoveDelta(from, to, amount, from);
    assert (ActiveCount(k.participants) - 1) * amount == ActiveCount(k.participants) * amount - amount;
  }

  lemma {:induction false} WithdrawnOwed(k: Contest, place: nat)
    requires Roster(k) && k.state.Open? && place < |k.participants| && k.participants[place].state.Entered?
    ensures var user := k.participants[place].user;
      forall u: nat :: Owed(WithdrawnAt(k, place), u) == Owed(k, u) + if u == user then k.terms.entryAmount else 0
  {
    var k' := WithdrawnAt(k, place);
    var p := k'.participants[place];
    FindIs(k.participants, place);
    assert k'.participants == Seated(k.participants, Some(place), p);
    FindSeated(k.participants, Some(place), p);
    forall u: nat ensures Owed(k', u) == Owed(k, u) + if u == p.user then k.terms.entryAmount else 0 {
      if u != p.user {
        FindOther(k.participants, Some(place), p, u);
      }
    }
  }

  // ---- Scores ------------------------------------------------------------------------

  /** Appending a batch extends each user's chain by at most one row. */
  lemma {:induction false} ScoresLinked(rows: seq<ScoreRow>, batch: seq<Submission>, at: int)
    requires ScoreHistory(rows) && DistinctSubmitters(batch) && !FinishedAlready(rows, batch)
    ensures ScoreHistory(WithScores(rows, batch, at))
  {
    var after := WithScores(rows, batch, at);
    forall i | 0 <= i < |after| ensures Linked(after, i) {
      if i >= |rows| {
        assert after[i].user == batch[i - |rows|].user;
        assert forall j | i < j < |after| :: after[j].user == batch[j - |rows|].user;
      } else {
        assert Linked(rows, i);
        OldRowLinked(rows, batch, at, i);
      }
    }
  }

  lemma {:induction false} OldRowLinked(rows: seq<ScoreRow>, batch: seq<Submission>, at: int, i: nat)
    requires i < |rows| && Linked(rows, i) && DistinctSubmitters(batch) && !FinishedAlready(rows, batch)
    ensures i < |WithScores(rows, batch, at)| && Linked(WithScores(rows, batch, at), i)
  {
    var after := WithScores(rows, batch, at);
    var successor := SubmissionOf(batch, rows[i].user);
    assert forall j | 0 <= j < |rows| :: after[j].user == rows[j].user;
    assert forall j | |rows| <= j < |after| :: after[j].user == batch[j - |rows|].user;
    if rows[i].supersededBy.None? && successor.Some? {
      assert !rows[i].finished;
    }
  }
}
