/** Voiding a contest: every stake still in is refunded, always, and the books come out even. */
module ContestVoid {
  import opened Common
  import opened Ledger
  import opened Contests
  import opened ContestInvariant
  import opened ContestSteps
  import opened ContestSettlement

  /** The reversal of one participant's escrow entry. */
  function VoidPost(id: nat, k: Contest, place: nat): Post
    requires place < |k.participants|
  {
    var p := k.participants[place];
    Post(k.tenant, VoidEntry, VoidKey(id, place), Some(id), Some(p.entry),
         Mirror(Move(WalletOf(k, p.user), EscrowOf(id, k), k.terms.entryAmount)))
  }

  function VoidEntries(id: nat, k: Contest, places: seq<nat>, at: int): (entries: seq<Entry>)
    requires forall i | 0 <= i < |places| :: places[i] < |k.participants|
    ensures |entries| == |places|
  {
    seq(|places|, i requires 0 <= i < |places| => Entry(VoidPost(id, k, places[i]), at))
  }

  /** The participants a void refunds: distinct, and still holding their stakes. */
  ghost predicate Refundable(journal: Journal, id: nat, k: Contest, places: seq<nat>) {
    && Roster(k) && Sound(journal)
    && (forall i, j | 0 <= i < j < |places| :: places[i] < places[j])
    && (forall i | 0 <= i < |places| ::
      places[i] < |k.participants| && HoldsStake(journal, id, k, k.participants[places[i]]))
    && (forall i | 0 <= i < |places| :: KeyFree(journal, k.tenant, VoidKey(id, places[i])))
    && Balance(journal, EscrowOf(id, k)) >= |places| * k.terms.entryAmount
  }

  /** Two participants' stakes are two entries: each names its own wallet. */
  lemma {:induction false} DistinctStakes(journal: Journal, id: nat, k: Contest, a: nat, b: nat)
    requires Roster(k) && a < |k.participants| && b < |k.participants| && a != b
    requires HoldsStake(journal, id, k, k.participants[a]) && HoldsStake(journal, id, k, k.participants[b])
    ensures k.participants[a].entry != k.participants[b].entry
  {
    assert journal[k.participants[a].entry].post.lines[0].account == WalletOf(k, k.participants[a].user);
    assert journal[k.participants[b].entry].post.lines[0].account == WalletOf(k, k.participants[b].user);
    assert k.participants[a].user != k.participants[b].user;
  }

  /** Refunding some participants leaves the others' stakes unreversed. */
  lemma {:induction false} StillHeld(journal: Journal, id: nat, k: Contest, done: seq<nat>, place: nat, at: int)
    requires Roster(k) && place < |k.participants| && HoldsStake(journal, id, k, k.participants[place])
    requires forall i | 0 <= i < |done| ::
      done[i] < |k.participants| && done[i] != place && HoldsStake(journal, id, k, k.participants[done[i]])
    ensures HoldsStake(journal + VoidEntries(id, k, done, at), id, k, k.participants[place])
  {
    var after := journal + VoidEntries(id, k, done, at);
    var entry := k.participants[place].entry;
    forall i | 0 <= i < |after| ensures after[i].post.reverses != Some(entry) {
      if i >= |journal| {
        DistinctStakes(journal, id, k, done[i - |journal|], place);
      } else {
        assert after[i] == journal[i];
      }
    }
  }

  lemma {:induction false} VoidKeyFree(journal: Journal, id: nat, k: Contest, done: seq<nat>, place: nat, at: int)
    requires KeyFree(journal, k.tenant, VoidKey(id, place))
    requires forall i | 0 <= i < |done| :: done[i] < |k.participants| && done[i] != place
    ensures KeyFree(journal + VoidEntries(id, k, done, at), k.tenant, VoidKey(id, place))
  {
  }

  /** One refund goes through while the stake is held and the escrow covers it. */
  lemma {:induction false} OneVoided(journal: Journal, id: nat, k: Contest, place: nat, at: int)
    requires Roster(k) && place < |k.participants| && HoldsStake(journal, id, k, k.participants[place])
    requires KeyFree(journal, k.tenant, VoidKey(id, place)) && Balance(journal, EscrowOf(id, k)) >= k.terms.entryAmount
    ensures TryVoid(journal, k.tenant, k.participants[place].entry, VoidKey(id, place), at)
         == Ok(Posted(journal + [Entry(VoidPost(id, k, place), at)], |journal|, false))
    ensures ReversesOwn(journal, VoidPost(id, k, place))
  {
    var p := k.participants[place];
    var from, to := WalletOf(k, p.user), EscrowOf(id, k);
    var post := VoidPost(id, k, place);
    MoveValid(from, to, k.terms.entryAmount);
    MirrorCovered(journal, from, to, k.terms.entryAmount);
    assert forall i | 0 <= i < |post.lines| :: post.lines[i].account.tenant == post.tenant;
    PostSucceeds(journal, post, at);
  }

  lemma {:induction false} VoidDelta(id: nat, k: Contest, place: nat, account: Account)
    requires place < |k.participants|
    ensures Delta(VoidPost(id, k, place).lines, account) ==
      if account == EscrowOf(id, k) then -k.terms.entryAmount
      else if account == WalletOf(k, k.participants[place].user) then k.terms.entryAmount
      else 0
  {
    var from, to := WalletOf(k, k.participants[place].user), EscrowOf(id, k);
    MirrorDelta(Move(from, to, k.terms.entryAmount), account);
    MoveDelta(from, to, k.terms.entryAmount, account);
  }

  lemma {:induction false} VoidEntriesPush(id: nat, k: Contest, places: seq<nat>, at: int)
    requires places != [] && forall i | 0 <= i < |places| :: places[i] < |k.participants|
    ensures var last := |places| - 1;
      VoidEntries(id, k, places, at) == VoidEntries(id, k, places[..last], at)
          + [Entry(VoidPost(id, k, places[last]), at)]
  {
  }

  /** What a run of refunds does to an account: its stake back to each refunded wallet, all of it out of the escrow. */
  lemma {:induction false} VoidEffect(journal: Journal, id: nat, k: Contest, places: seq<nat>, at: int,
      account: Account)
    requires forall i | 0 <= i < |places| :: places[i] < |k.participants|
    ensures var after := journal + VoidEntries(id, k, places, at);
      ContestDelta(after, id, account) == ContestDelta(journal, id, account) + Refunds(id, k, places, account)
    ensures RakeTaken(journal + VoidEntries(id, k, places, at), id) == RakeTaken(journal, id)
  {
    if places == [] {
      assert journal + VoidEntries(id, k, places, at) == journal;
    } else {
      var last := |places| - 1;
      var front := journal + VoidEntries(id, k, places[..last], at);
      var entry := Entry(VoidPost(id, k, places[last]), at);
      VoidEffect(journal, id, k, places[..last], at, account);
      VoidEntriesPush(id, k, places, at);
      assert journal + VoidEntries(id, k, places, at) == front + [entry];
      ContestDeltaPush(front, entry, id, account);
      RakeTakenPush(front, entry, id);
      VoidDelta(id, k, places[last], account);
    }
  }

  function Refunds(id: nat, k: Contest, places: seq<nat>, account: Account): int
    requires forall i | 0 <= i < |places| :: places[i] < |k.participants|
  {
    if places == [] then 0
    else
      var last := |places| - 1;
      Refunds(id, k, places[..last], account) +
        if account == EscrowOf(id, k) then -k.terms.entryAmount
        else if account == WalletOf(k, k.participants[places[last]].user) then k.terms.entryAmount
        else 0
  }

  lemma {:induction false} EscrowRefunds(id: nat, k: Contest, places: seq<nat>)
    requires forall i | 0 <= i < |places| :: places[i] < |k.participants|
    ensures Refunds(id, k, places, EscrowOf(id, k)) == -(|places| * k.terms.entryAmount)
  {
    if places != [] {
      var last := |places| - 1;
      EscrowRefunds(id, k, places[..last]);
      assert |places| * k.terms.entryAmount == last * k.terms.entryAmount + k.terms.entryAmount;
    }
  }

  /** A participant listed once gets their stake back once; anybody else gets nothing. */
  lemma {:induction false} WalletRefunds(id: nat, k: Contest, places: seq<nat>, user: nat)
    requires Roster(k)
    requires forall i | 0 <= i < |places| :: places[i] < |k.participants|
    requires forall i, j | 0 <= i < j < |places| :: places[i] < places[j]
    ensures Refunds(id, k, places, WalletOf(k, user)) ==
      if exists i :: 0 <= i < |places| && k.participants[places[i]].user == user then k.terms.entryAmount else 0
  {
    if places != [] {
      var last := |places| - 1;
      WalletRefunds(id, k, places[..last], user);
      if k.participants[places[last]].user == user {
        forall i | 0 <= i < last ensures k.participants[places[..last][i]].user != user {
          assert places[i] < places[last];
        }
      } else if exists i :: 0 <= i < |places| && k.participants[places[i]].user == user {
        var i :| 0 <= i < |places| && k.participants[places[i]].user == user;
        assert k.participants[places[..last][i]].user == user;
      }
    }
  }

  function RefundIds(start: nat, count: nat): (ids: seq<nat>)
    ensures |ids| == count
  {
    seq(count, i => start + i)
  }

  lemma {:induction false} VoidEntriesTagged(journal: Journal, id: nat, k: Contest, places: seq<nat>, at: int)
    requires EscrowsTagged(journal) && forall i | 0 <= i < |places| :: places[i] < |k.participants|
    ensures EscrowsTagged(journal + VoidEntries(id, k, places, at))
  {
  }

  lemma {:induction false} RefundableFront(journal: Journal, id: nat, k: Contest, places: seq<nat>)
    requires Refundable(journal, id, k, places) && places != []
    ensures Refundable(journal, id, k, places[..|places| - 1])
    ensures Balance(journal, EscrowOf(id, k)) - |places[..|places| - 1]| * k.terms.entryAmount >= k.terms.entryAmount
  {
    assert |places| * k.terms.entryAmount == (|places| - 1) * k.terms.entryAmount + k.terms.entryAmount;
  }

  /** Every refund in the list goes through, in order, and the journal stays sound. */
  lemma {:induction false} VoidsEach(journal: Journal, id: nat, k: Contest, places: seq<nat>, at: int)
    requires Refundable(journal, id, k, places)
    ensures VoidEach(journal, id, k, places, at)
         == Ok((journal + VoidEntries(id, k, places, at), RefundIds(|journal|, |places|)))
    ensures Sound(journal + VoidEntries(id, k, places, at))
    ensures GrownFor(journal, journal + VoidEntries(id, k, places, at), id)
  {
    VoidsInOrder(journal, id, k, places, at);
    VoidsGrow(journal, id, k, places, at);
  }

  lemma {:induction false} VoidsInOrder(journal: Journal, id: nat, k: Contest, places: seq<nat>, at: int)
    requires Refundable(journal, id, k, places)
    ensures VoidEach(journal, id, k, places, at)
         == Ok((journal + VoidEntries(id, k, places, at), RefundIds(|journal|, |places|)))
    ensures Sound(journal + VoidEntries(id, k, places, at))
  {
    if places == [] {
      assert journal + VoidEntries(id, k, places, at) == journal;
    } else {
      var last := |places| - 1;
      RefundableFront(journal, id, k, places);
      VoidsInOrder(journal, id, k, places[..last], at);
      var before := journal + VoidEntries(id, k, places[..last], at);
      var entry := Entry(VoidPost(id, k, places[last]), at);
      NextVoided(journal, id, k, places, before, at);
      VoidOneMore(journal, id, k, places, before, entry, at);
      VoidEachUnfolds(journal, id, k, places, at, before, RefundIds(|journal|, last),
          Posted(before + [entry], |before|, false));
    }
  }

  /** Each reversal names a stake that was there before the first of them. */
  lemma {:induction false} VoidsGrow(journal: Journal, id: nat, k: Contest, places: seq<nat>, at: int)
    requires Refundable(journal, id, k, places)
    ensures GrownFor(journal, journal + VoidEntries(id, k, places, at), id)
  {
    var after := journal + VoidEntries(id, k, places, at);
    forall i | |journal| <= i < |after|
      ensures after[i].post.contest == Some(id) && ReversesOwn(after[..i], after[i].post)
    {
      var place := places[i - |journal|];
      assert HoldsStake(journal, id, k, k.participants[place]);
      assert after[i] == Entry(VoidPost(id, k, place), at);
      assert after[..i][k.participants[place].entry] == journal[k.participants[place].entry];
    }
  }

  /** One refund more, in the journal and in the list of refunds. */
  lemma {:induction false} VoidOneMore(journal: Journal, id: nat, k: Contest, places: seq<nat>, before: Journal,
      entry: Entry, at: int)
    requires places != [] && forall i | 0 <= i < |places| :: places[i] < |k.participants|
    requires entry == Entry(VoidPost(id, k, places[|places| - 1]), at)
    requires before == journal + VoidEntries(id, k, places[..|places| - 1], at)
    ensures journal + VoidEntries(id, k, places, at) == before + [entry]
    ensures RefundIds(|journal|, |places|) == RefundIds(|journal|, |places| - 1) + [|before|]
  {
    VoidJournalPush(journal, id, k, places, at);
    RefundIdsPush(|journal|, |places| - 1);
  }

  lemma {:induction false} VoidJournalPush(journal: Journal, id: nat, k: Contest, places: seq<nat>, at: int)
    requires places != [] && forall i | 0 <= i < |places| :: places[i] < |k.participants|
    ensures var last := |places| - 1;
      journal + VoidEntries(id, k, places, at)
      == journal + VoidEntries(id, k, places[..last], at) + [Entry(VoidPost(id, k, places[last]), at)]
  {
    VoidEntriesPush(id, k, places, at);
  }

  lemma {:induction false} RefundIdsPush(start: nat, count: nat)
    ensures RefundIds(start, count + 1) == RefundIds(start, count) + [start + count]
  {
  }

  lemma {:induction false} VoidEachUnfolds(journal: Journal, id: nat, k: Contest, places: seq<nat>, at: int,
      before: Journal, refunds: seq<nat>, posted: Posted)
    requires places != [] && forall i | 0 <= i < |places| :: places[i] < |k.participants|
    requires var last := |places| - 1;
      && VoidEach(journal, id, k, places[..last], at) == Ok((before, refunds))
      && TryVoid(before, k.tenant, k.participants[places[last]].entry, VoidKey(id, places[last]), at) == Ok(posted)
    ensures VoidEach(journal, id, k, places, at) == Ok((posted.journal, refunds + [posted.entry]))
  {
  }

  lemma {:induction false} NextVoided(journal: Journal, id: nat, k: Contest, places: seq<nat>, before: Journal, at: int)
    requires Refundable(journal, id, k, places) && places != []
    requires before == journal + VoidEntries(id, k, places[..|places| - 1], at) && Sound(before)
    ensures var place := places[|places| - 1]; var entry := Entry(VoidPost(id, k, place), at);
      && TryVoid(before, k.tenant, k.participants[place].entry, VoidKey(id, place), at)
        == Ok(Posted(before + [entry], |before|, false))
      && ReversesOwn(before, entry.post)
      && Sound(before + [entry])
  {
    var done, place := places[..|places| - 1], places[|places| - 1];
    StillHeld(journal, id, k, done, place, at);
    VoidKeyFree(journal, id, k, done, place, at);
    EscrowCovers(journal, id, k, places, at);
    OneVoided(before, id, k, place, at);
    VoidSound(before, id, k, place, at);
  }

  lemma {:induction false} VoidSound(journal: Journal, id: nat, k: Contest, place: nat, at: int)
    requires Sound(journal) && place < |k.participants| && HoldsStake(journal, id, k, k.participants[place])
    requires TryVoid(journal, k.tenant, k.participants[place].entry, VoidKey(id, place), at)
          == Ok(Posted(journal + [Entry(VoidPost(id, k, place), at)], |journal|, false))
    ensures Sound(journal + [Entry(VoidPost(id, k, place), at)])
  {
    PostKeeps(journal, VoidPost(id, k, place), at);
    EscrowsTaggedPush(journal, Entry(VoidPost(id, k, place), at));
  }

  lemma {:induction false} EscrowCovers(journal: Journal, id: nat, k: Contest, places: seq<nat>, at: int)
    requires Refundable(journal, id, k, places) && places != []
    ensures Balance(journal + VoidEntries(id, k, places[..|places| - 1], at), EscrowOf(id, k)) >= k.terms.entryAmount
  {
    var done := places[..|places| - 1];
    RefundableFront(journal, id, k, places);
    EscrowIsOwn(journal, k.tenant, k.asset, id);
    VoidEntriesTagged(journal, id, k, done, at);
    EscrowIsOwn(journal + VoidEntries(id, k, done, at), k.tenant, k.asset, id);
    VoidEffect(journal, id, k, done, at, EscrowOf(id, k));
    EscrowRefunds(id, k, done);
  }

  // ---- The voided contest ------------------------------------------------------------

  lemma {:induction false} AllRefundable(db: Db, id: nat, k: Contest)
    requires DbInv(db) && id in db.contests && db.contests[id] == k && !Terminal(k.state)
    ensures Refundable(db.journal, id, k, ActivePlaces(k.participants))
  {
    var places := ActivePlaces(k.participants);
    ActivePlacesFacts(k.participants);
    ComputesReckoning(db.journal, id, k);
    forall place: nat ensures KeyFree(db.journal, k.tenant, VoidKey(id, place)) {
      forall i | 0 <= i < |db.journal|
        ensures !(db.journal[i].post.tenant == k.tenant && db.journal[i].post.key == VoidKey(id, place))
      {
        assert EntryKnown(db, db.journal[i].post);
      }
    }
  }

  function VoidedJournal(journal: Journal, id: nat, k: Contest, at: int): Journal {
    journal + VoidEntries(id, k, ActivePlaces(k.participants), at)
  }

  /**
   * A void allowed by the transition table always goes through: every refund posts and the
   * guard finds the escrow empty.
   */
  lemma {:induction false} VoidOutcome(db: Db, tenant: nat, r: Request, env: Env)
    requires DbInv(db) && r.VoidContest? && Owned(db, tenant, r.contest).Ok?
    ensures var k := db.contests[r.contest]; var refused := CheckTransition(k, Voided, env.actor);
      RunVoid(db, tenant, r, env) ==
        if k.state.Voided? then Err(AlreadyVoided)
        else if refused.Some? then Err(refused.value)
        else Ok((db.(contests := db.contests[r.contest := k.(state := Voided)],
                     journal := VoidedJournal(db.journal, r.contest, k, env.at)),
                 VoidRecord(r.contest, RefundIds(|db.journal|, ActiveCount(k.participants)))))
  {
    var k := db.contests[r.contest];
    if !k.state.Voided? && CheckTransition(k, Voided, env.actor).None? {
      VoidGoesThrough(db, r.contest, k, env);
    }
  }

  lemma {:induction false} VoidGoesThrough(db: Db, id: nat, k: Contest, env: Env)
    requires DbInv(db) && id in db.contests && db.contests[id] == k && CheckTransition(k, Voided, env.actor).None?
    ensures var places, after := ActivePlaces(k.participants), VoidedJournal(db.journal, id, k, env.at);
      && VoidEach(db.journal, id, k, places, env.at) == Ok((after, RefundIds(|db.journal|, |places|)))
      && Transition(after, id, k, Voided, env.actor, env) == Ok(k.(state := Voided))
      && Sound(after) && GrownFor(db.journal, after, id)
  {
    AllRefundable(db, id, k);
    VoidsEach(db.journal, id, k, ActivePlaces(k.participants), env.at);
    VoidedEscrow(db, id, k, env.at);
    VoidGuard(VoidedJournal(db.journal, id, k, env.at), id, k, env.actor, env);
  }

  lemma {:induction false} VoidGuard(journal: Journal, id: nat, k: Contest, actor: ActorKind, env: Env)
    requires CheckTransition(k, Voided, actor).None? && Balance(journal, EscrowOf(id, k)) == 0
    ensures Transition(journal, id, k, Voided, actor, env) == Ok(k.(state := Voided))
  {
  }

  lemma {:induction false} VoidedEscrow(db: Db, id: nat, k: Contest, at: int)
    requires DbInv(db) && id in db.contests && db.contests[id] == k && !Terminal(k.state)
    ensures Balance(VoidedJournal(db.journal, id, k, at), EscrowOf(id, k)) == 0
  {
    var places := ActivePlaces(k.participants);
    ComputesReckoning(db.journal, id, k);
    VoidEntriesTagged(db.journal, id, k, places, at);
    EscrowIsOwn(db.journal, k.tenant, k.asset, id);
    EscrowIsOwn(VoidedJournal(db.journal, id, k, at), k.tenant, k.asset, id);
    VoidEffect(db.journal, id, k, places, at, EscrowOf(id, k));
    EscrowRefunds(id, k, places);
  }

  lemma {:induction false} VoidedAccounts(journal: Journal, id: nat, k: Contest, at: int)
    requires Roster(k) && Accounted(journal, id, k) && !Terminal(k.state)
    ensures Accounted(VoidedJournal(journal, id, k, at), id, k.(state := Voided))
  {
    var places := ActivePlaces(k.participants);
    var after, k' := VoidedJournal(journal, id, k, at), k.(state := Voided);
    ActivePlacesFacts(k.participants);
    forall u: nat ensures ContestDelta(after, id, WalletOf(k', u)) == Owed(k', u) {
      VoidEffect(journal, id, k, places, at, WalletOf(k, u));
      WalletRefunds(id, k, places, u);
      assert ContestDelta(journal, id, WalletOf(k, u)) == Owed(k, u);
      ActiveIsRefunded(k, u);
    }
    VoidEffect(journal, id, k, places, at, EscrowOf(id, k));
    EscrowRefunds(id, k, places);
  }

  lemma {:induction false} ActiveIsRefunded(k: Contest, user: nat)
    requires Roster(k)
    ensures var places := ActivePlaces(k.participants); var place := FindParticipant(k.participants, user);
      (exists i :: 0 <= i < |places| && k.participants[places[i]].user == user)
        <==> (place.Some? && Active(k.participants[place.value]))
  {
    var places := ActivePlaces(k.participants);
    var place := FindParticipant(k.participants, user);
    ActivePlacesFacts(k.participants);
    if place.Some? && Active(k.participants[place.value]) {
      assert place.value in places;
    }
    if i :| 0 <= i < |places| && k.participants[places[i]].user == user {
      FindIs(k.participants, places[i]);
    }
  }

  lemma {:induction false} VoidedInv(journal: Journal, id: nat, k: Contest, at: int)
    requires ContestInv(journal, id, k) && Voided in Transitions(k.state)
    ensures ContestInv(VoidedJournal(journal, id, k, at), id, k.(state := Voided))
  {
    VoidedAccounts(journal, id, k, at);
    VoidEffect(journal, id, k, ActivePlaces(k.participants), at, EscrowOf(id, k));
    assert Advanced(k.(state := Voided)) by {
      assert SomeEntered(k.(state := Voided)) == SomeEntered(k);
      assert AllExpectedResults(k.(state := Voided)) == AllExpectedResults(k);
    }
  }
}
