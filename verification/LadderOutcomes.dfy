/**
 * When each request about a match goes through in a season some run reaches, what it then
 * writes, and what every confirmed match has behind it, in the rows' own fields.
 */
module LadderOutcomes {
  import opened Common
  import opened Ladder
  import opened LadderTheorems
  import opened LadderMatches

  // ---- Rows and the ladder -----------------------------------------------------------

  /** Players who have a row have exactly one, and the ladder shows it. */
  lemma {:induction false} RowOnLadder(s: Season, i: nat)
    requires Inv(s) && i < |s.rows|
    ensures DistinctPlayers(s.rows)
    ensures var place := Find(LadderOf(s), s.rows[i].player); place.Some? && LadderOf(s)[place.value] == s.rows[i]
  {
    RowsDistinct(s.rows, LadderOf(s));
    assert s.rows[i] in multiset(LadderOf(s));
    var k :| 0 <= k < |LadderOf(s)| && LadderOf(s)[k] == s.rows[i];
    FindIs(LadderOf(s), k);
  }

  lemma {:induction false} LadderHasRow(s: Season, player: nat)
    requires Inv(s)
    ensures Find(LadderOf(s), player).Some? <==> exists i :: 0 <= i < |s.rows| && s.rows[i].player == player
  {
    SamePlayers(s.rows, LadderOf(s), player);
  }

  /** A player has a match that is issued or reported. */
  ghost predicate HasOpen(matches: seq<Match>, player: nat) {
    exists i :: 0 <= i < |matches| && OpenFor(matches[i], player)
  }

  predicate OpenFor(m: Match, player: nat) {
    (m.status == Issued || m.status == Reported) && (m.challenger == player || m.defender == player)
  }

  ghost predicate PairedIn(pairs: seq<Pairing>, player: nat) {
    exists i :: 0 <= i < |pairs| && PlaysIn(pairs[i], player)
  }

  lemma {:induction false} OpenPairsMean(matches: seq<Match>, player: nat)
    ensures PairedIn(OpenPairs(matches), player) <==> HasOpen(matches, player)
  {
    if matches != [] {
      var front, pairs := matches[..|matches| - 1], OpenPairs(matches);
      OpenPairsMean(front, player);
      if PairedIn(pairs, player) {
        var i :| 0 <= i < |pairs| && PlaysIn(pairs[i], player);
        if i < |OpenPairs(front)| {
          assert PlaysIn(OpenPairs(front)[i], player);
        } else {
          assert OpenFor(matches[|matches| - 1], player);
        }
      }
      if HasOpen(matches, player) {
        var i :| 0 <= i < |matches| && OpenFor(matches[i], player);
        if i < |front| {
          assert OpenFor(front[i], player);
          var k :| 0 <= k < |OpenPairs(front)| && PlaysIn(OpenPairs(front)[k], player);
          assert PlaysIn(pairs[k], player);
        } else {
          assert PlaysIn(pairs[|pairs| - 1], player);
        }
      }
    }
  }

  // ---- Challenging -------------------------------------------------------------------

  /** One player stands one to three places above another. */
  ghost predicate WithinReach(s: Season, challenger: nat, defender: nat) {
    exists i, j ::
      0 <= i < |s.rows| && 0 <= j < |s.rows|
        && s.rows[i].player == challenger && s.rows[j].player == defender
        && 1 <= s.rows[i].rank - s.rows[j].rank <= 3
  }

  lemma {:induction false} ReachMeans(s: Season, challenger: nat, defender: nat)
    requires Inv(s)
    ensures var c, d := Find(LadderOf(s), challenger), Find(LadderOf(s), defender);
      WithinReach(s, challenger, defender) <==>
        c.Some? && d.Some? && 1 <= LadderOf(s)[c.value].rank - LadderOf(s)[d.value].rank <= 3
  {
    LadderHasRow(s, challenger);
    LadderHasRow(s, defender);
    forall i | 0 <= i < |s.rows|
      ensures var place := Find(LadderOf(s), s.rows[i].player); place.Some? && LadderOf(s)[place.value] == s.rows[i]
    {
      RowOnLadder(s, i);
    }
  }

  lemma {:induction false} JudgeMeans(ladder: seq<Entry>, challenger: nat, defender: nat, open: seq<Pairing>)
    ensures var c, d := Find(ladder, challenger), Find(ladder, defender);
      JudgeChallenge(ladder, challenger, defender, open) == None <==>
        && c.Some? && d.Some? && 1 <= ladder[c.value].rank - ladder[d.value].rank <= 3
        && !PairedIn(open, challenger) && !PairedIn(open, defender)
  {
  }

  lemma {:induction false} JudgedMeans(s: Season, challenger: nat, defender: nat)
    requires Inv(s)
    ensures JudgeChallenge(LadderOf(s), challenger, defender, OpenPairs(s.matches)) == None <==>
      WithinReach(s, challenger, defender) && !HasOpen(s.matches, challenger) && !HasOpen(s.matches, defender)
  {
    JudgeMeans(LadderOf(s), challenger, defender, OpenPairs(s.matches));
    ReachMeans(s, challenger, defender);
    OpenPairsMean(s.matches, challenger);
    OpenPairsMean(s.matches, defender);
  }

  /**
   * In every reachable season a challenge goes through exactly while the season is playing,
   * from a player to one standing one to three places above them, when neither has an open
   * match; and it adds that match, issued, and nothing else.
   */
  lemma {:induction false} ChallengeAccepted(commissioner: nat, run: seq<Request>, challenger: nat, defender: nat)
    ensures var s := After(commissioner, run); var result := Handle(s, Challenge(challenger, defender));
      && (result.Ok? <==>
            && s.status == Playing && WithinReach(s, challenger, defender)
            && !HasOpen(s.matches, challenger) && !HasOpen(s.matches, defender))
      && (result.Ok? ==> result.value == s.(matches := s.matches
            + [Match(challenger, defender, Issued, None, None, None, None, None, false)]))
  {
    AfterInv(commissioner, run);
    JudgedMeans(After(commissioner, run), challenger, defender);
  }

  // ---- Reporting, declining, rejecting -----------------------------------------------

  /** Whole scores of at most 99, one of them 11 and two clear, or past 11 exactly two clear. */
  predicate GoodScore(c: real, d: real) {
    && c.Floor as real == c && d.Floor as real == d && 0.0 <= c <= 99.0 && 0.0 <= d <= 99.0
    && (|| (c == 11.0 && d <= 9.0) || (d == 11.0 && c <= 9.0)
        || (c > 11.0 && c == d + 2.0) || (d > 11.0 && d == c + 2.0))
  }

  lemma {:induction false} ScoreMeans(c: real, d: real)
    ensures JudgeScoreline(c, d).Ok? <==> GoodScore(c, d)
    ensures JudgeScoreline(c, d).Ok? ==> JudgeScoreline(c, d).value == if c > d then Challenger else Defender
  {
  }

  /**
   * A result is reported exactly while the season is playing, by one of the two players, of
   * a match still open, with a score a game can end at; reporting again replaces it.
   */
  lemma {:induction false} ReportAccepted(s: Season, id: nat, actor: nat, c: real, d: real)
    ensures var result := Handle(s, Report(id, actor, c, d));
      && (result.Ok? <==>
            && s.status == Playing && GoodScore(c, d) && id < |s.matches|
            && (actor == s.matches[id].challenger || actor == s.matches[id].defender)
            && (s.matches[id].status == Issued || s.matches[id].status == Reported))
      && (result.Ok? ==> result.value == s.(matches := s.matches[id := s.matches[id].(
            status := Reported, challengerScore := Some(c), defenderScore := Some(d), reportedBy := Some(actor))]))
  {
    ScoreMeans(c, d);
  }

  /** A challenge is declined by the challenged player alone, before anything is reported. */
  lemma {:induction false} DeclineAccepted(s: Season, id: nat, actor: nat)
    ensures var result := Handle(s, Decline(id, actor));
      && (result.Ok? <==> id < |s.matches| && actor == s.matches[id].defender && s.matches[id].status == Issued)
      && (result.Ok? ==> result.value == s.(matches := s.matches[id := s.matches[id].(status := Declined)]))
  {
  }

  /** The other player of a match, from whoever reported it. */
  predicate OtherSide(m: Match, actor: nat) {
    (actor == m.challenger || actor == m.defender) && m.reportedBy != Some(actor)
  }

  /** A reported result is rejected by the other player alone, and the match is open to be reported again. */
  lemma {:induction false} RejectAccepted(s: Season, id: nat, actor: nat)
    ensures var result := Handle(s, Reject(id, actor));
      && (result.Ok? <==> id < |s.matches| && s.matches[id].status == Reported && OtherSide(s.matches[id], actor))
      && (result.Ok? ==> result.value == s.(matches := s.matches[id := s.matches[id].(
            status := Issued, challengerScore := None, defenderScore := None, reportedBy := None)]))
  {
  }

  // ---- Confirming --------------------------------------------------------------------

  /** What a confirmed result does to each row: the climber takes the defender's rank, those passed move down one. */
  ghost predicate Reranked(rows: seq<Entry>, after: seq<Entry>, m: Match, climbs: bool) {
    |after| == |rows| && forall i, c, d |
        0 <= i < |rows| && 0 <= c < |rows| && 0 <= d < |rows|
        && rows[c].player == m.challenger && rows[d].player == m.defender ::
      && after[i].player == rows[i].player
      && after[i].rank ==
           (if !climbs then rows[i].rank
            else if i == c then rows[d].rank
            else if rows[d].rank <= rows[i].rank < rows[c].rank then rows[i].rank + 1
            else rows[i].rank)
      && after[i].wins == rows[i].wins + (if i == (if climbs then c else d) then 1 else 0)
      && after[i].losses == rows[i].losses + (if i == (if climbs then d else c) then 1 else 0)
  }

  lemma {:induction false} AppliedReranks(rows: seq<Entry>, c: nat, d: nat, m: Match, climbs: bool)
    requires DistinctPlayers(rows) && c < |rows| && d < |rows|
    requires rows[c].player == m.challenger && rows[d].player == m.defender
    ensures Reranked(rows, ApplyAll(rows, rows[c], rows[d], climbs), m, climbs)
  {
  }

  lemma {:induction false} ConfirmWrites(s: Season, id: nat, winner: Winner)
    requires Inv(s) && id < |s.matches| && Open(s.matches[id])
    ensures var applied := ApplyResult(LadderOf(s), PairOf(s.matches[id]), winner);
      && applied.Ok? && applied.value.moved == winner.Challenger?
      && applied.value.winner == (if winner.Challenger? then s.matches[id].challenger else s.matches[id].defender)
      && Reranked(s.rows, Rewritten(s.rows, applied.value.ladder), s.matches[id], winner.Challenger?)
  {
    ConfirmApplies(s, id, winner);
    var c, d := ConfirmRows(s, id, winner);
    AppliedReranks(s.rows, c, d, s.matches[id], winner.Challenger?);
  }

  /** Where the two players' rows are, and that the others follow theirs. */
  lemma {:induction false} ConfirmRows(s: Season, id: nat, winner: Winner) returns (c: nat, d: nat)
    requires Inv(s) && id < |s.matches| && Open(s.matches[id])
    ensures DistinctPlayers(s.rows) && c < |s.rows| && d < |s.rows|
    ensures s.rows[c].player == s.matches[id].challenger && s.rows[d].player == s.matches[id].defender
    ensures var applied := ApplyResult(LadderOf(s), PairOf(s.matches[id]), winner);
      applied.Ok? && Rewritten(s.rows, applied.value.ladder)
        == ApplyAll(s.rows, s.rows[c], s.rows[d], winner.Challenger?)
  {
    var m, ladder := s.matches[id], LadderOf(s);
    UprightPlaces(ladder, PairOf(m));
    c := RowOf(s, m.challenger);
    d := RowOf(s, m.defender);
    RowsApplied(s.rows, ladder, Find(ladder, m.defender).value, Find(ladder, m.challenger).value, winner);
  }

  lemma {:induction false} RowOf(s: Season, player: nat) returns (i: nat)
    requires Inv(s) && Find(LadderOf(s), player).Some?
    ensures DistinctPlayers(s.rows) && i < |s.rows| && s.rows[i].player == player
    ensures s.rows[i] == LadderOf(s)[Find(LadderOf(s), player).value]
  {
    LadderHasRow(s, player);
    i :| 0 <= i < |s.rows| && s.rows[i].player == player;
    RowOnLadder(s, i);
  }

  /** Writing the new ladder back changes each row as the result changes its entry. */
  lemma {:induction false} RowsApplied(rows: seq<Entry>, ladder: seq<Entry>, d: nat, c: nat, winner: Winner)
    requires Standing(ladder) && multiset(rows) == multiset(ladder) && d < c < |ladder|
    ensures var applied := ApplyResult(ladder, Pairing(ladder[c].player, ladder[d].player), winner);
      applied.Ok? && Rewritten(rows, applied.value.ladder) == ApplyAll(rows, ladder[c], ladder[d], winner.Challenger?)
  {
    ResultReorders(ladder, d, c, winner);
    var after := ApplyResult(ladder, Pairing(ladder[c].player, ladder[d].player), winner).value.ladder;
    var next := ApplyAll(ladder, ladder[c], ladder[d], winner.Challenger?);
    if winner.Challenger? {
      ClimbPermutes(next, d, c);
    }
    RewrittenIsApplied(rows, ladder, ladder[c], ladder[d], winner.Challenger?, after);
  }

  /**
   * In every reachable season a result is confirmed exactly while the season is playing, by
   * the other player of a reported match. The match then holds its confirmer and the player
   * with the higher score as its winner, and every row is reranked and its record kept.
   */
  lemma {:induction false} ConfirmAccepted(commissioner: nat, run: seq<Request>, id: nat, actor: nat)
    ensures var s := After(commissioner, run); var result := Handle(s, Confirm(id, actor));
      && (result.Ok? <==>
            && s.status == Playing && id < |s.matches| && s.matches[id].status == Reported
            && OtherSide(s.matches[id], actor))
      && (result.Ok? ==>
            var m, after := s.matches[id], result.value;
            && m.challengerScore.Some? && m.defenderScore.Some?
            && var climbs := m.challengerScore.value > m.defenderScore.value;
            && after == s.(rows := after.rows, matches := s.matches[id := m.(
                 status := Confirmed, confirmedBy := Some(actor), moved := climbs,
                 winner := Some(if climbs then m.challenger else m.defender))])
            && Reranked(s.rows, after.rows, m, climbs))
  {
    AfterInv(commissioner, run);
    ConfirmAcceptedIn(After(commissioner, run), id, actor);
  }

  lemma {:induction false} ConfirmAcceptedIn(s: Season, id: nat, actor: nat)
    requires Inv(s)
    ensures var result := HandleConfirm(s, id, actor);
      && (result.Ok? <==>
            && s.status == Playing && id < |s.matches| && s.matches[id].status == Reported
            && OtherSide(s.matches[id], actor))
      && (result.Ok? ==>
            var m, after := s.matches[id], result.value;
            && m.challengerScore.Some? && m.defenderScore.Some?
            && var climbs := m.challengerScore.value > m.defenderScore.value;
            && after == s.(rows := after.rows, matches := s.matches[id := m.(
                 status := Confirmed, confirmedBy := Some(actor), moved := climbs,
                 winner := Some(if climbs then m.challenger else m.defender))])
            && Reranked(s.rows, after.rows, m, climbs))
  {
    if id < |s.matches| && s.matches[id].status == Reported {
      var m := s.matches[id];
      assert WellReported(m);
      ScoreMeans(m.challengerScore.value, m.defenderScore.value);
      ConfirmWrites(s, id, JudgeScoreline(m.challengerScore.value, m.defenderScore.value).value);
    }
  }

  // ---- What a match has behind it ----------------------------------------------------

  /** A result stands on a score a game can end at, reported by one player and confirmed, if it is, by the other. */
  ghost predicate Founded(m: Match) {
    && m.challenger != m.defender
    && (m.status == Issued || m.status == Declined ==>
          m.challengerScore == None && m.defenderScore == None && m.reportedBy == None)
    && (m.status == Reported || m.status == Confirmed ==>
          && m.challengerScore.Some? && m.defenderScore.Some?
          && GoodScore(m.challengerScore.value, m.defenderScore.value)
          && (m.reportedBy == Some(m.challenger) || m.reportedBy == Some(m.defender)))
    && (if m.status == Confirmed then
          && m.confirmedBy == Some(if m.reportedBy == Some(m.challenger) then m.defender else m.challenger)
          && m.moved == (m.challengerScore.value > m.defenderScore.value)
          && m.winner == Some(if m.moved then m.challenger else m.defender)
        else m.confirmedBy == None && m.winner == None && !m.moved)
  }

  lemma {:induction false} RequestFounds(s: Season, r: Request, i: nat)
    requires Inv(s) && Handle(s, r).Ok? && i < |Handle(s, r).value.matches|
    requires forall j | 0 <= j < |s.matches| :: Founded(s.matches[j])
    ensures Founded(Handle(s, r).value.matches[i])
  {
    match r
    case Challenge(c, d) =>
    case Decline(id, actor) => DeclineAccepted(s, id, actor);
    case Report(id, actor, c, d) => ReportAccepted(s, id, actor, c, d);
    case Confirm(id, actor) => ConfirmAcceptedIn(s, id, actor);
    case Reject(id, actor) => RejectAccepted(s, id, actor);
    case _ =>
  }

  /**
   * In every reachable season every match is between two players; a reported one has a
   * score a game can end at, from one of them; and a confirmed one was confirmed by the
   * other and was won by whoever scored more.
   */
  lemma {:induction false} ConfirmedByBoth(commissioner: nat, run: seq<Request>, i: nat)
    requires i < |After(commissioner, run).matches|
    ensures Founded(After(commissioner, run).matches[i])
  {
    if run != [] {
      var front := run[..|run| - 1];
      var s, r := After(commissioner, front), run[|run| - 1];
      forall j | 0 <= j < |s.matches| ensures Founded(s.matches[j]) {
        ConfirmedByBoth(commissioner, front, j);
      }
      if Handle(s, r).Ok? {
        AfterInv(commissioner, front);
        RequestFounds(s, r, i);
      }
    }
  }

  /** A match keeps its players, and once declined or confirmed it never changes. */
  lemma {:induction false} ResultsAreFinal(commissioner: nat, run: seq<Request>, later: seq<Request>, i: nat)
    requires i < |After(commissioner, run).matches|
    ensures i < |After(commissioner, run + later).matches|
    ensures var m, n := After(commissioner, run).matches[i], After(commissioner, run + later).matches[i];
      && n.challenger == m.challenger && n.defender == m.defender
      && (m.status == Declined || m.status == Confirmed ==> n == m)
  {
    if later == [] {
      assert run + later == run;
    } else {
      var front := later[..|later| - 1];
      ResultsAreFinal(commissioner, run, front, i);
      assert (run + later)[..|run + later| - 1] == run + front;
      RequestKeeps(After(commissioner, run + front), later[|later| - 1], i);
    }
  }

  lemma {:induction false} RequestKeeps(s: Season, r: Request, i: nat)
    requires i < |s.matches|
    ensures i < |Next(s, r).matches|
    ensures var m, n := s.matches[i], Next(s, r).matches[i];
      && n.challenger == m.challenger && n.defender == m.defender
      && (m.status == Declined || m.status == Confirmed ==> n == m)
  {
  }

  // ---- The season --------------------------------------------------------------------

  /**
   * Only the commissioner moves a season on: to playing with two players or more, to
   * closing when no match is open, and then to closed; moving it where it is already going
   * changes nothing.
   */
  lemma {:induction false} SeasonMoves(s: Season, actor: nat)
    ensures (Handle(s, Start(actor)).Ok? <==> actor == s.commissioner && s.status == Enrolling && |s.rows| >= 2)
    ensures Handle(s, Start(actor)).Ok? ==> Handle(s, Start(actor)).value == s.(status := Playing)
    ensures Handle(s, BeginClose(actor)).Ok? <==>
      && actor == s.commissioner && (s.status == Playing || s.status == Closing)
      && forall i | 0 <= i < |s.matches| :: s.matches[i].status != Issued && s.matches[i].status != Reported
    ensures Handle(s, BeginClose(actor)).Ok? ==> Handle(s, BeginClose(actor)).value == s.(status := Closing)
    ensures Handle(s, Close(actor)).Ok? <==>
      actor == s.commissioner && (s.status == Closing || s.status == Closed)
    ensures Handle(s, Close(actor)).Ok? ==> Handle(s, Close(actor)).value == s.(status := Closed)
  {
    NoneOpen(s.matches);
  }

  lemma {:induction false} NoneOpen(matches: seq<Match>)
    ensures OpenPairs(matches) == [] <==>
      forall i | 0 <= i < |matches| :: matches[i].status != Issued && matches[i].status != Reported
  {
    if matches != [] {
      NoneOpen(matches[..|matches| - 1]);
    }
  }

  /** Each newcomer once, in order, at the next rank down with an empty record; the rows before stay as they are. */
  ghost predicate JoinedBelow(rows: seq<Entry>, players: seq<nat>, after: seq<Entry>) {
    && rows <= after
    && (forall i | |rows| <= i < |after| ::
          after[i].rank == i + 1 && after[i].wins == 0 && after[i].losses == 0 && after[i].player in players)
    && (forall player | player in players :: exists i :: 0 <= i < |after| && after[i].player == player)
    && DistinctPlayers(after)
  }

  lemma {:induction false} JoinsBelow(rows: seq<Entry>, ladder: seq<Entry>, players: seq<nat>)
    requires Standing(ladder) && multiset(rows) == multiset(ladder)
    ensures JoinedBelow(rows, players, Joined(rows, players))
  {
    RowsDistinct(rows, ladder);
    if players != [] {
      var front, player := players[..|players| - 1], players[|players| - 1];
      JoinsBelow(rows, ladder, front);
      JoinedAtTheBottom(rows, ladder, front);
      MaxRankIsSize(Joined(rows, front), AtTheBottom(ladder, front));
      OneMore(rows, front, player);
      assert front + [player] == players;
    }
  }

  lemma {:induction false} OneMore(rows: seq<Entry>, front: seq<nat>, player: nat)
    requires JoinedBelow(rows, front, Joined(rows, front)) && MaxRank(Joined(rows, front)) == |Joined(rows, front)|
    ensures JoinedBelow(rows, front + [player], Joined(rows, front + [player]))
  {
    assert (front + [player])[..|front|] == front;
    var before, after := Joined(rows, front), Joined(rows, front + [player]);
    forall p | p in front + [player] ensures exists i :: 0 <= i < |after| && after[i].player == p {
      if p in front {
        var i :| 0 <= i < |before| && before[i].player == p;
        assert after[i].player == p;
      } else {
        assert Find(before, player).Some? || after[|before|].player == player;
      }
    }
  }

  /** In every reachable season, joining puts each newcomer once at the bottom of the ladder and moves nobody else. */
  lemma {:induction false} EntriesRecorded(commissioner: nat, run: seq<Request>, players: seq<nat>)
    ensures var s := After(commissioner, run); var result := Handle(s, RecordEntries(players));
      result.Ok? && result.value == s.(rows := result.value.rows) && JoinedBelow(s.rows, players, result.value.rows)
  {
    AfterInv(commissioner, run);
    JoinsBelow(After(commissioner, run).rows, LadderOf(After(commissioner, run)), players);
  }
}
