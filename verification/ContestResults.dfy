/** What a settled contest's result rows say, in the scores its users submitted. */
module ContestResults {
  import opened Common
  import opened Ledger
  import opened Contests
  import opened ContestInvariant
  import opened ContestSteps
  import opened ContestSettlement
  import opened ContestTheorems
  import opened ContestMoney
  import opened ContestOutcomes
  import opened ContestRuns
  import opened ContestScores
  import M = SettlementMeaning
  import S = Settlement
  import T = SettlementTheorems

  /** The row of a user that counts, if they have one: theirs, and superseded by none. */
  ghost predicate Counting(k: Contest, user: nat, row: Option<nat>) {
    match row
    case Some(i) => i < |k.scores| && k.scores[i].user == user && k.scores[i].supersededBy.None?
    case None => forall i | 0 <= i < |k.scores| :: !(k.scores[i].user == user && k.scores[i].supersededBy.None?)
  }

  /** A user has one counting row at most, and the preview finds it. */
  lemma {:induction false} CountingIsCurrent(k: Contest, user: nat, row: Option<nat>)
    requires ScoreHistory(k.scores) && Counting(k, user, row)
    ensures CurrentRow(k.scores, user) == row
  {
    var found := CurrentRow(k.scores, user);
    if row.Some? && found.Some? {
      assert Linked(k.scores, row.value) && Linked(k.scores, found.value);
    }
  }

  /** The score that counts for a user, and when it was submitted. */
  function CountingScore(k: Contest, row: Option<nat>): Option<real> {
    if row.Some? && row.value < |k.scores| then k.scores[row.value].score else None
  }

  function CountingTime(k: Contest, row: Option<nat>): Option<int> {
    if row.Some? && row.value < |k.scores| then Some(k.scores[row.value].at) else None
  }

  /** What the engine is told of an entered participant. */
  lemma {:induction false} EntrantOf(k: Contest, place: nat, row: Option<nat>) returns (i: nat)
    requires ScoreHistory(k.scores) && place < |k.participants| && k.participants[place].state.Entered?
    requires Counting(k, k.participants[place].user, row)
    ensures var entries := ToEntries(k.participants, k.scores); var p := k.participants[place];
      && i < |entries| == |Entrants(entries)|
      && Entrants(entries)[i] == S.Entrant(p.user, CountingScore(k, row), p.seed, CountingTime(k, row))
      && entries[i].user == p.user && entries[i].score == CountingScore(k, row)
  {
    ActivePlacesFacts(k.participants);
    i :| 0 <= i < |ActivePlaces(k.participants)| && ActivePlaces(k.participants)[i] == place;
    CountingIsCurrent(k, k.participants[place].user, row);
  }

  lemma {:induction false} ScoreFound(entries: seq<PreviewEntry>, i: nat)
    requires i < |entries| && forall m, n | 0 <= m < n < |entries| :: entries[m].user != entries[n].user
    ensures ScoreOf(entries, entries[i].user) == entries[i].score
  {
    if i < |entries| - 1 {
      ScoreFound(entries[..|entries| - 1], i);
    }
  }

  /** A settled contest's rows are its payouts, under the score each was paid for. */
  lemma {:induction false} ResultIs(k: Contest, p: Preview, entry: Option<nat>, x: nat)
    requires k.results == ResultRows(p, entry) && x < |k.results|
    ensures |p.payouts| == |k.results|
    ensures k.results[x].user == p.payouts[x].user && k.results[x].placement == p.payouts[x].placement
      && k.results[x].payout == p.payouts[x].payout && k.results[x].score == ScoreOf(p.entries, p.payouts[x].user)
  {
  }

  /** One participant's result stands ahead of another's exactly when their counting score, seed and time say so. */
  ghost predicate Ahead(rule: S.TieBreak, a: Participant, scoreA: Option<real>, timeA: Option<int>,
      b: Participant, scoreB: Option<real>, timeB: Option<int>) {
    && scoreA.Some?
    && (|| scoreB.None?
        || scoreA.value > scoreB.value
        || (scoreA.value == scoreB.value
            && match rule
               case SplitEvenly => false
               case HigherSeedWins => a.seed.Some? && (b.seed.None? || a.seed.value < b.seed.value)
               case EarliestSubmissionWins => timeA.Some? && (timeB.None? || timeA.value < timeB.value)))
  }

  lemma {:induction false} ResultsRanked(k: Contest, p: Preview, x: nat, y: nat, a: nat, b: nat, rowA: Option<nat>,
      rowB: Option<nat>)
    requires Roster(k) && ScoreHistory(k.scores) && Reckon(k) == Ok(p)
    requires x < |p.payouts| && y < |p.payouts| && a < |k.participants| && b < |k.participants|
    requires k.participants[a].state.Entered? && k.participants[b].state.Entered?
    requires p.payouts[x].user == k.participants[a].user && p.payouts[y].user == k.participants[b].user
    requires Counting(k, k.participants[a].user, rowA) && Counting(k, k.participants[b].user, rowB)
    ensures p.payouts[x].placement < p.payouts[y].placement <==>
      Ahead(k.terms.tieBreak, k.participants[a], CountingScore(k, rowA), CountingTime(k, rowA),
            k.participants[b], CountingScore(k, rowB), CountingTime(k, rowB))
    ensures p.payouts[x].placement < p.payouts[y].placement ==> p.payouts[x].payout >= p.payouts[y].payout
  {
    ReckonFacts(k);
    var i := EntrantOf(k, a, rowA);
    var j := EntrantOf(k, b, rowB);
    var entrants := Entrants(p.entries);
    M.PlacedAhead(p.net, entrants, k.terms.prize, k.terms.tieBreak, p.payouts, entrants[i], entrants[j], x, y);
  }

  lemma {:induction false} ResultScored(k: Contest, p: Preview, x: nat, a: nat, rowA: Option<nat>)
    requires Roster(k) && ScoreHistory(k.scores) && Reckon(k) == Ok(p)
    requires x < |p.payouts| && a < |k.participants| && k.participants[a].state.Entered?
    requires p.payouts[x].user == k.participants[a].user && Counting(k, k.participants[a].user, rowA)
    ensures ScoreOf(p.entries, p.payouts[x].user) == CountingScore(k, rowA)
  {
    ReckonFacts(k);
    var i := EntrantOf(k, a, rowA);
    EntrantsDistinct(k);
    forall m, n | 0 <= m < n < |p.entries| ensures p.entries[m].user != p.entries[n].user {
      assert Entrants(p.entries)[m].user != Entrants(p.entries)[n].user;
    }
    ScoreFound(p.entries, i);
  }

  /**
   * In every settled contest the result rows are ordered by the scores users submitted: a
   * participant is placed ahead of another exactly when their counting row holds the higher
   * score, or a score where the other's does not, or at equal scores wins the tie-break;
   * whoever is placed ahead is paid no less; and each row shows the score that counted.
   */
  lemma {:induction false} HigherScoreWins(run: seq<Action>, id: nat, x: nat, y: nat, a: nat, b: nat,
      rowA: Option<nat>, rowB: Option<nat>)
    requires id in Reached(run).contests && Reached(run).contests[id].state.Settled?
    requires var k := Reached(run).contests[id];
      && x < |k.results| && y < |k.results| && a < |k.participants| && b < |k.participants|
      && k.participants[a].state.Entered? && k.participants[b].state.Entered?
      && k.results[x].user == k.participants[a].user && k.results[y].user == k.participants[b].user
      && Counting(k, k.participants[a].user, rowA) && Counting(k, k.participants[b].user, rowB)
    ensures var k := Reached(run).contests[id];
      var (scoreA, scoreB) := (CountingScore(k, rowA), CountingScore(k, rowB));
      var (timeA, timeB) := (CountingTime(k, rowA), CountingTime(k, rowB));
      var (seedA, seedB) := (k.participants[a].seed, k.participants[b].seed);
      && k.results[x].score == scoreA && k.results[y].score == scoreB
      && (k.results[x].placement < k.results[y].placement <==>
            scoreA.Some?
            && (|| scoreB.None?
                || scoreA.value > scoreB.value
                || (scoreA.value == scoreB.value
                    && match k.terms.tieBreak
                       case SplitEvenly => false
                       case HigherSeedWins => seedA.Some? && (seedB.None? || seedA.value < seedB.value)
                       case EarliestSubmissionWins => timeA.Some? && (timeB.None? || timeA.value < timeB.value))))
      && (k.results[x].placement < k.results[y].placement ==> k.results[x].payout >= k.results[y].payout)
  {
    ReachedContest(run, id);
    var k := Reached(run).contests[id];
    var p := Reckon(k).value;
    var entry: Option<nat> :| k.results == ResultRows(p, entry);
    ResultIs(k, p, entry, x);
    ResultIs(k, p, entry, y);
    ResultsRanked(k, p, x, y, a, b, rowA, rowB);
    ResultScored(k, p, x, a, rowA);
    ResultScored(k, p, y, b, rowB);
  }

  // ---- Who has a result --------------------------------------------------------------

  /** Everyone entered in a settled contest has a result, and there is one for each who plays. */
  lemma {:induction false} EveryoneHasResult(run: seq<Action>, id: nat, a: nat) returns (x: nat)
    requires id in Reached(run).contests && Reached(run).contests[id].state.Settled?
    requires a < |Reached(run).contests[id].participants|
      && Reached(run).contests[id].participants[a].state.Entered?
    ensures var k := Reached(run).contests[id]; x < |k.results| && k.results[x].user == k.participants[a].user
    ensures var k := Reached(run).contests[id];
      forall y, z | 0 <= y < z < |k.results| :: k.results[y].user != k.results[z].user
  {
    ReachedContest(run, id);
    var k := Reached(run).contests[id];
    var p := Reckon(k).value;
    var entry: Option<nat> :| k.results == ResultRows(p, entry);
    x := PaidSomewhere(k, p, a);
    PayeesDistinct(k);
    ResultsMatch(k, p, entry);
  }

  lemma {:induction false} ResultsMatch(k: Contest, p: Preview, entry: Option<nat>)
    requires k.results == ResultRows(p, entry)
    ensures |k.results| == |p.payouts| && forall x | 0 <= x < |p.payouts| :: k.results[x].user == p.payouts[x].user
  {
  }

  lemma {:induction false} PaidSomewhere(k: Contest, p: Preview, a: nat) returns (x: nat)
    requires Roster(k) && ScoreHistory(k.scores) && Reckon(k) == Ok(p)
    requires a < |k.participants| && k.participants[a].state.Entered?
    ensures x < |p.payouts| && p.payouts[x].user == k.participants[a].user
  {
    ReckonFacts(k);
    var i := EntrantOf(k, a, CurrentRow(k.scores, k.participants[a].user));
    x := T.PayoutFor(p.net, Entrants(p.entries), k.terms.prize, k.terms.tieBreak, i);
  }

  /** The winners' rows name the journal entry that paid them; the others name none. */
  lemma {:induction false} ResultsNameEntry(journal: Journal, id: nat, k: Contest, p: Preview, at: int, x: nat)
    requires x < |p.payouts| && forall i | 0 <= i < |p.payouts| :: p.payouts[i].payout >= 0
    ensures var settled := SettledContest(k, p, PayoutEntry(journal, id, k, p, at), at);
      var after := SettledJournal(journal, id, k, p, at);
      && x < |settled.results|
      && (if p.payouts[x].payout == 0 then settled.results[x].entry == None
          else
            && settled.results[x].entry.Some? && settled.results[x].entry.value < |after|
            && after[settled.results[x].entry.value].post.kind == SettleEntry
            && after[settled.results[x].entry.value].post.contest == Some(id))
  {
    if p.payouts[x].payout > 0 {
      SomebodyPaid(p.payouts, x);
    }
  }

  lemma {:induction false} SomebodyPaid(payouts: seq<S.Payout>, x: nat)
    requires x < |payouts| && payouts[x].payout > 0
    ensures Paid(payouts) != []
  {
    if x < |payouts| - 1 {
      SomebodyPaid(payouts[..|payouts| - 1], x);
    }
  }

  /** After a close, the winners' rows name the entry that paid them. */
  lemma {:induction false} CloseNamesEntry(run: seq<Action>, cmd: Command, x: nat)
    requires cmd.request.Close? && Step(Reached(run), cmd).1.Done?
    requires cmd.request.contest in Step(Reached(run), cmd).0.contests
    requires x < |Step(Reached(run), cmd).0.contests[cmd.request.contest].results|
    ensures var after := Step(Reached(run), cmd).0; var row := after.contests[cmd.request.contest].results[x];
      if row.payout == 0 then row.entry == None
      else
        && row.entry.Some? && row.entry.value < |after.journal|
        && after.journal[row.entry.value].post.kind == SettleEntry
        && after.journal[row.entry.value].post.contest == Some(cmd.request.contest)
  {
    ReachedInv(run);
    var db, id := Reached(run), cmd.request.contest;
    StepCases(db, cmd);
    CloseAcceptedIn(db, cmd);
    assert Roster(db.contests[id]) by {
      assert ContestInv(db.journal, id, db.contests[id]);
    }
    var p := Reckon(db.contests[id]).value;
    ReckonPays(db.contests[id]);
    ResultsNameEntry(db.journal, id, db.contests[id], p, cmd.env.at, x);
  }

  // ---- Disqualification --------------------------------------------------------------

  /** Nobody here is anything but entered or withdrawn. */
  predicate NoneDisqualified(ps: seq<Participant>) {
    forall i | 0 <= i < |ps| :: ps[i].state != Disqualified
  }

  /** No operation disqualifies anybody, so in every reachable state whoever has not withdrawn is entered. */
  lemma {:induction false} NobodyDisqualified(run: seq<Action>, id: nat)
    requires id in Reached(run).contests
    ensures NoneDisqualified(Reached(run).contests[id].participants)
  {
    if run != [] {
      var front, last := run[..|run| - 1], run[|run| - 1];
      forall other | other in Reached(front).contests
        ensures NoneDisqualified(Reached(front).contests[other].participants)
      {
        NobodyDisqualified(front, other);
      }
      match last
      case Ask(cmd) =>
        if Step(Reached(front), cmd).1.Done? {
          RosterAfter(front, cmd, id);
        } else {
          OtherwiseNothing(Reached(front), cmd);
        }
      case Outside(flow, at) =>
        assert Act(Reached(front), Outside(flow, at)).contests == Reached(front).contests;
    }
  }

  lemma {:induction false} RosterAfter(run: seq<Action>, cmd: Command, id: nat)
    requires Step(Reached(run), cmd).1.Done? && id in Step(Reached(run), cmd).0.contests
    requires forall other | other in Reached(run).contests ::
      NoneDisqualified(Reached(run).contests[other].participants)
    ensures NoneDisqualified(Step(Reached(run), cmd).0.contests[id].participants)
  {
    var db := Reached(run);
    ReachedInv(run);
    StepCases(db, cmd);
    match cmd.request
    case Create(_, _, _) => CreatedRoster(db, cmd, id);
    case Update(_, _) => UpdatedRoster(db, cmd, id);
    case MoveTo(_, _) => MovedRoster(run, cmd, id);
    case Enter(_, user, _, _) => EnteredRoster(run, cmd, id);
    case Withdraw(_, user) => WithdrawnRoster(run, cmd, id);
    case SubmitScores(_, _) => ScoredRoster(db, cmd, id);
    case Close(_, _) => EndedRoster(db, cmd, id);
    case VoidContest(_) => EndedRoster(db, cmd, id);
  }

  lemma {:induction false} MovedRoster(run: seq<Action>, cmd: Command, id: nat)
    requires cmd.request.MoveTo? && Step(Reached(run), cmd).1.Done? && id in Step(Reached(run), cmd).0.contests
    requires forall other | other in Reached(run).contests ::
      NoneDisqualified(Reached(run).contests[other].participants)
    ensures NoneDisqualified(Step(Reached(run), cmd).0.contests[id].participants)
  {
    StepCases(Reached(run), cmd);
    MoveAccepted(run, cmd);
  }

  lemma {:induction false} EndedRoster(db: Db, cmd: Command, id: nat)
    requires DbInv(db) && (cmd.request.Close? || cmd.request.VoidContest?) && Step(db, cmd).1.Done?
    requires id in Step(db, cmd).0.contests
    requires forall other | other in db.contests :: NoneDisqualified(db.contests[other].participants)
    ensures NoneDisqualified(Step(db, cmd).0.contests[id].participants)
  {
    StepCases(db, cmd);
    if cmd.request.Close? {
      CloseAcceptedIn(db, cmd);
    } else {
      VoidAcceptedIn(db, cmd);
    }
  }

  lemma {:induction false} CreatedRoster(db: Db, cmd: Command, id: nat)
    requires cmd.request.Create? && Succeeds(db, cmd) && id in Committed(db, cmd).contests
    requires forall other | other in db.contests :: NoneDisqualified(db.contests[other].participants)
    ensures NoneDisqualified(Committed(db, cmd).contests[id].participants)
  {
  }

  lemma {:induction false} UpdatedRoster(db: Db, cmd: Command, id: nat)
    requires cmd.request.Update? && Succeeds(db, cmd) && id in Committed(db, cmd).contests
    requires forall other | other in db.contests :: NoneDisqualified(db.contests[other].participants)
    ensures NoneDisqualified(Committed(db, cmd).contests[id].participants)
  {
  }

  lemma {:induction false} EnteredRoster(run: seq<Action>, cmd: Command, id: nat)
    requires cmd.request.Enter? && Step(Reached(run), cmd).1.Done? && id in Step(Reached(run), cmd).0.contests
    requires forall other | other in Reached(run).contests ::
      NoneDisqualified(Reached(run).contests[other].participants)
    ensures NoneDisqualified(Step(Reached(run), cmd).0.contests[id].participants)
  {
    StepCases(Reached(run), cmd);
    EntryAccepted(run, cmd);
    var place := HasPlace(run, cmd.request.contest, cmd.request.user);
    EntryLeaves(run, cmd, place);
  }

  lemma {:induction false} WithdrawnRoster(run: seq<Action>, cmd: Command, id: nat)
    requires cmd.request.Withdraw? && Step(Reached(run), cmd).1.Done? && id in Step(Reached(run), cmd).0.contests
    requires forall other | other in Reached(run).contests ::
      NoneDisqualified(Reached(run).contests[other].participants)
    ensures NoneDisqualified(Step(Reached(run), cmd).0.contests[id].participants)
  {
    StepCases(Reached(run), cmd);
    WithdrawalRuns(Reached(run), cmd);
    var place := HasPlace(run, cmd.request.contest, cmd.request.user);
    WithdrawalAccepted(run, cmd, place);
  }

  lemma {:induction false} ScoredRoster(db: Db, cmd: Command, id: nat)
    requires cmd.request.SubmitScores? && Succeeds(db, cmd) && id in Committed(db, cmd).contests
    requires forall other | other in db.contests :: NoneDisqualified(db.contests[other].participants)
    ensures NoneDisqualified(Committed(db, cmd).contests[id].participants)
  {
    ScoresShape(db, cmd);
    var k := db.contests[cmd.request.contest];
    AdvanceKeepsRows(db.journal, cmd.request.contest, Scored(k, cmd.request.batch, cmd.env.at), cmd.env);
  }
}
