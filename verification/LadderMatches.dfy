/**
 * Matches on a season's ladder (apps/pingpong/src/server/matches.ts): issued, declined,
 * reported, confirmed and rejected under the season's lock, with any number open at once;
 * and players joining at the bottom (server/purse/contests.ts).
 */
module LadderMatches {
  import opened Common
  import opened Ladder
  import opened LadderTheorems
  import Sorting

  datatype SeasonStatus = Enrolling | Playing | Closing | Closed

  datatype MatchStatus = Issued | Reported | Confirmed | Declined

  datatype Match = Match(
    challenger: nat,
    defender: nat,
    status: MatchStatus,
    challengerScore: Option<real>,
    defenderScore: Option<real>,
    reportedBy: Option<nat>,
    confirmedBy: Option<nat>,
    winner: Option<nat>,
    moved: bool)

  /** One season's rows: the entries in the order they were inserted, the matches by id. */
  datatype Season = Season(status: SeasonStatus, commissioner: nat, rows: seq<Entry>, matches: seq<Match>)

  datatype Request =
    | RecordEntries(players: seq<nat>)
    | Start(actor: nat)
    | BeginClose(actor: nat)
    | Close(actor: nat)
    | Challenge(challenger: nat, defender: nat)
    | Decline(id: nat, actor: nat)
    | Report(id: nat, actor: nat, challengerScore: real, defenderScore: real)
    | Confirm(id: nat, actor: nat)
    | Reject(id: nat, actor: nat)

  datatype Failure =
    | CommissionerOnly | NotEnrolling | NotEnoughPlayers | NotClosable | MatchesOpen | NotClosing
    | SeasonNotPlaying | ChallengeRefused(reason: ChallengeRefusal)
    | MatchNotFound | DefenderOnly | ParticipantOnly | MatchNotOpen | MatchNotReported
    | ConfirmOtherSide | RejectOtherSide | ScorelineInvalid(scoreline: ScorelineFault)
    | Thrown(range: RangeFault)

  function LadderOf(s: Season): seq<Entry> {
    SortLadder(s.rows)
  }

  function PairOf(m: Match): Pairing {
    Pairing(m.challenger, m.defender)
  }

  predicate Open(m: Match) {
    m.status.Issued? || m.status.Reported?
  }

  function OpenPairs(matches: seq<Match>): seq<Pairing> {
    if matches == [] then []
    else
      var last := matches[|matches| - 1];
      OpenPairs(matches[..|matches| - 1]) + if Open(last) then [Pairing(last.challenger, last.defender)] else []
  }

  // ---- Joining -----------------------------------------------------------------------

  function MaxRank(rows: seq<Entry>): nat {
    if rows == [] then 0
    else
      var rest := MaxRank(rows[..|rows| - 1]);
      if rows[|rows| - 1].rank > rest then rows[|rows| - 1].rank else rest
  }

  /** Each player not on the ladder yet takes the next rank at the bottom. */
  function Joined(rows: seq<Entry>, players: seq<nat>): seq<Entry> {
    if players == [] then rows
    else
      var before := Joined(rows, players[..|players| - 1]);
      var player := players[|players| - 1];
      if Find(before, player).Some? then before else before + [Entry(player, MaxRank(before) + 1, 0, 0)]
  }

  // ---- Results -----------------------------------------------------------------------

  /** The rows with each player's rank and record taken from the ladder. */
  function Rewritten(rows: seq<Entry>, ladder: seq<Entry>): (after: seq<Entry>)
    ensures |after| == |rows|
  {
    seq(|rows|, i requires 0 <= i < |rows| =>
      var place := Find(ladder, rows[i].player);
      if place.Some? then Entry(rows[i].player, ladder[place.value].rank, ladder[place.value].wins,
        ladder[place.value].losses)
      else rows[i])
  }

  function Handle(s: Season, r: Request): Result<Season, Failure> {
    match r
    case RecordEntries(players) => Ok(s.(rows := Joined(s.rows, players)))
    case Start(actor) =>
      if actor != s.commissioner then Err(CommissionerOnly)
      else if !s.status.Enrolling? then Err(NotEnrolling)
      else if |s.rows| < 2 then Err(NotEnoughPlayers)
      else Ok(s.(status := Playing))
    case BeginClose(actor) =>
      if actor != s.commissioner then Err(CommissionerOnly)
      else if !s.status.Playing? && !s.status.Closing? then Err(NotClosable)
      else if OpenPairs(s.matches) != [] then Err(MatchesOpen)
      else Ok(s.(status := Closing))
    case Close(actor) =>
      if actor != s.commissioner then Err(CommissionerOnly)
      else if !s.status.Closing? && !s.status.Closed? then Err(NotClosing)
      else Ok(s.(status := Closed))
    case Challenge(challenger, defender) =>
      var refused := JudgeChallenge(LadderOf(s), challenger, defender, OpenPairs(s.matches));
      if !s.status.Playing? then Err(SeasonNotPlaying)
      else if refused.Some? then Err(ChallengeRefused(refused.value))
      else Ok(s.(matches := s.matches + [Match(challenger, defender, Issued, None, None, None, None, None, false)]))
    case Decline(id, actor) =>
      if id >= |s.matches| then Err(MatchNotFound)
      else if s.matches[id].defender != actor then Err(DefenderOnly)
      else if !s.matches[id].status.Issued? then Err(MatchNotOpen)
      else Ok(s.(matches := s.matches[id := s.matches[id].(status := Declined)]))
    case Report(id, actor, c, d) => HandleReport(s, id, actor, c, d)
    case Confirm(id, actor) => HandleConfirm(s, id, actor)
    case Reject(id, actor) =>
      if id >= |s.matches| then Err(MatchNotFound)
      else
        var m := s.matches[id];
        if !m.status.Reported? then Err(MatchNotReported)
        else if m.challenger != actor && m.defender != actor then Err(ParticipantOnly)
        else if m.reportedBy == Some(actor) then Err(RejectOtherSide)
        else Ok(s.(matches := s.matches[id :=
          m.(status := Issued, challengerScore := None, defenderScore := None, reportedBy := None)]))
  }

  function HandleReport(s: Season, id: nat, actor: nat, c: real, d: real): Result<Season, Failure> {
    var judged := JudgeScoreline(c, d);
    if judged.Err? then Err(ScorelineInvalid(judged.error))
    else if id >= |s.matches| then Err(MatchNotFound)
    else if !s.status.Playing? then Err(SeasonNotPlaying)
    else
      var m := s.matches[id];
      if m.challenger != actor && m.defender != actor then Err(ParticipantOnly)
      else if !Open(m) then Err(MatchNotOpen)
      else Ok(s.(matches := s.matches[id :=
        m.(status := Reported, challengerScore := Some(c), defenderScore := Some(d), reportedBy := Some(actor))]))
  }

  /** Everything a confirmation checks before it touches the ladder, and the winner it is about to record. */
  function CheckConfirm(s: Season, id: nat, actor: nat): (r: Result<Winner, Failure>)
    ensures r.Ok? ==> id < |s.matches|
  {
    if id >= |s.matches| then Err(MatchNotFound)
    else if !s.status.Playing? then Err(SeasonNotPlaying)
    else
      var m := s.matches[id];
      if !m.status.Reported? || m.challengerScore.None? || m.defenderScore.None? then Err(MatchNotReported)
      else if m.challenger != actor && m.defender != actor then Err(ParticipantOnly)
      else if m.reportedBy == Some(actor) then Err(ConfirmOtherSide)
      else
        match JudgeScoreline(m.challengerScore.value, m.defenderScore.value)
        case Err(fault) => Err(ScorelineInvalid(fault))
        case Ok(winner) => Ok(winner)
  }

  function HandleConfirm(s: Season, id: nat, actor: nat): Result<Season, Failure> {
    var checked := CheckConfirm(s, id, actor);
    if checked.Err? then Err(checked.error)
    else
      var m := s.matches[id];
      match ApplyResult(LadderOf(s), PairOf(m), checked.value)
      case Err(fault) => Err(Thrown(fault))
      case Ok(applied) => Ok(s.(
        rows := Rewritten(s.rows, applied.ladder),
        matches := s.matches[id := m.(status := Confirmed, confirmedBy := Some(actor), winner := Some(applied.winner),
            moved := applied.moved)]))
  }

  /** A refused request changes nothing. */
  function Next(s: Season, r: Request): Season {
    match Handle(s, r)
    case Ok(after) => after
    case Err(_) => s
  }

  function Opened(commissioner: nat): Season {
    Season(Enrolling, commissioner, [], [])
  }

  /** The season after a run of requests. */
  function After(commissioner: nat, run: seq<Request>): Season {
    if run == [] then Opened(commissioner)
    else Next(After(commissioner, run[..|run| - 1]), run[|run| - 1])
  }

  // ---- The invariant -----------------------------------------------------------------

  predicate Disjoint(a: Pairing, b: Pairing) {
    !PlaysIn(a, b.challenger) && !PlaysIn(a, b.defender)
  }

  /** The defender still ranks above the challenger. */
  predicate Upright(ladder: seq<Entry>, m: Pairing) {
    var c, d := Find(ladder, m.challenger), Find(ladder, m.defender);
    c.Some? && d.Some? && ladder[d.value].rank < ladder[c.value].rank
  }

  /** A match's stored scoreline, once reported, is one the judge accepts, reported by one of its players. */
  predicate WellReported(m: Match) {
    m.status.Reported? ==>
      && m.challengerScore.Some? && m.defenderScore.Some?
      && JudgeScoreline(m.challengerScore.value, m.defenderScore.value).Ok?
      && (m.reportedBy == Some(m.challenger) || m.reportedBy == Some(m.defender))
  }

  ghost predicate Inv(s: Season) {
    && Standing(LadderOf(s)) && multiset(LadderOf(s)) == multiset(s.rows)
    && (forall i, j | 0 <= i < j < |s.matches| && Open(s.matches[i]) && Open(s.matches[j]) ::
          Disjoint(PairOf(s.matches[i]), PairOf(s.matches[j])))
    && (forall i | 0 <= i < |s.matches| && Open(s.matches[i]) :: Upright(LadderOf(s), PairOf(s.matches[i])))
    && (forall i | 0 <= i < |s.matches| :: WellReported(s.matches[i]))
  }

  lemma {:induction false} OpenPairsAre(matches: seq<Match>)
    ensures forall i | 0 <= i < |matches| && Open(matches[i]) :: PairOf(matches[i]) in OpenPairs(matches)
  {
    if matches != [] {
      OpenPairsAre(matches[..|matches| - 1]);
      forall i | 0 <= i < |matches| && Open(matches[i]) ensures PairOf(matches[i]) in OpenPairs(matches) {
        if i < |matches| - 1 {
          assert matches[..|matches| - 1][i] == matches[i];
        }
      }
    }
  }

  // ---- What an operation does to the ladder ------------------------------------------

  lemma {:induction false} UprightPlaces(ladder: seq<Entry>, m: Pairing)
    requires Standing(ladder) && Upright(ladder, m)
    ensures Find(ladder, m.defender).value < Find(ladder, m.challenger).value
  {
  }

  /** Other people's results cannot invert a match: whoever does not climb keeps their order. */
  lemma {:induction false} StaysUpright(ladder: seq<Entry>, played: Pairing, winner: Winner, m: Pairing)
    requires Standing(ladder) && Upright(ladder, played) && Upright(ladder, m) && Disjoint(played, m)
    ensures ApplyResult(ladder, played, winner).Ok?
    ensures Upright(ApplyResult(ladder, played, winner).value.ladder, m)
  {
    var c, d := Find(ladder, played.challenger).value, Find(ladder, played.defender).value;
    var i, j := Find(ladder, m.defender).value, Find(ladder, m.challenger).value;
    ResultReorders(ladder, d, c, winner);
    var after := ApplyResult(ladder, played, winner).value.ladder;
    if winner.Challenger? {
      var next := ApplyAll(ladder, ladder[c], ladder[d], true);
      KeepsPlace(next, d, c, i);
      KeepsPlace(next, d, c, j);
      FindIs(after, ClimbedTo(d, c, i));
      FindIs(after, ClimbedTo(d, c, j));
    } else {
      FindIs(after, i);
      FindIs(after, j);
    }
  }

  /** Where a place other than the climber's ends up. */
  function ClimbedTo(to: nat, from: nat, i: nat): nat {
    if to <= i < from then i + 1 else i
  }

  lemma {:induction false} KeepsPlace(s: seq<Entry>, to: nat, from: nat, i: nat)
    requires to <= from < |s| && i < |s| && i != from
    ensures ClimbedTo(to, from, i) < |s| && Climb(s, to, from)[ClimbedTo(to, from, i)] == s[i]
  {
    ClimbAt(s, to, from, ClimbedTo(to, from, i));
  }

  // ---- Joining at the bottom ---------------------------------------------------------

  lemma {:induction false} MaxRankBounds(rows: seq<Entry>)
    ensures forall i | 0 <= i < |rows| :: rows[i].rank <= MaxRank(rows)
    ensures rows != [] ==> exists i :: 0 <= i < |rows| && rows[i].rank == MaxRank(rows)
  {
    if rows != [] {
      var front := rows[..|rows| - 1];
      MaxRankBounds(front);
      if rows[|rows| - 1].rank > MaxRank(front) {
        assert rows[|rows| - 1].rank == MaxRank(rows);
      } else if front != [] {
        var i :| 0 <= i < |front| && front[i].rank == MaxRank(front);
        assert rows[i].rank == MaxRank(rows);
      } else {
        assert rows[0].rank == MaxRank(rows);
      }
    }
  }

  lemma {:induction false} MaxRankIsSize(rows: seq<Entry>, ladder: seq<Entry>)
    requires Standing(ladder) && multiset(rows) == multiset(ladder)
    ensures MaxRank(rows) == |rows| == |ladder|
  {
    MaxRankBounds(rows);
    assert |multiset(rows)| == |multiset(ladder)|;
    if rows != [] {
      assert ladder[|ladder| - 1] in multiset(rows);
      var i :| 0 <= i < |rows| && rows[i].rank == MaxRank(rows);
      assert rows[i] in multiset(ladder);
    }
  }

  lemma {:induction false} SamePlayers(rows: seq<Entry>, ladder: seq<Entry>, player: nat)
    requires multiset(rows) == multiset(ladder)
    ensures Find(rows, player).Some? <==> Find(ladder, player).Some?
  {
    if Find(rows, player).Some? {
      assert rows[Find(rows, player).value] in multiset(ladder);
    }
    if Find(ladder, player).Some? {
      assert ladder[Find(ladder, player).value] in multiset(rows);
    }
  }

  /** A ladder with newcomers at the bottom, in order. */
  function AtTheBottom(ladder: seq<Entry>, players: seq<nat>): seq<Entry> {
    if players == [] then ladder
    else
      var before := AtTheBottom(ladder, players[..|players| - 1]);
      var player := players[|players| - 1];
      if Find(before, player).Some? then before else before + [Entry(player, |before| + 1, 0, 0)]
  }

  /** One newcomer at the bottom of a standing. */
  lemma {:induction false} OneJoins(rows: seq<Entry>, ladder: seq<Entry>, player: nat)
    requires Standing(ladder) && multiset(rows) == multiset(ladder) && Find(ladder, player).None?
    ensures MaxRank(rows) == |ladder| && Find(rows, player).None?
    ensures var e := Entry(player, |ladder| + 1, 0, 0);
      && Standing(ladder + [e]) && multiset(rows + [e]) == multiset(ladder + [e])
      && Wins(ladder + [e]) == Wins(ladder) && Losses(ladder + [e]) == Losses(ladder)
  {
    MaxRankIsSize(rows, ladder);
    SamePlayers(rows, ladder, player);
    NoRecordYet(player, |ladder| + 1);
    RecordsAppend(ladder, [Entry(player, |ladder| + 1, 0, 0)]);
  }

  lemma {:induction false} NoRecordYet(player: nat, rank: nat)
    ensures Wins([Entry(player, rank, 0, 0)]) == 0 && Losses([Entry(player, rank, 0, 0)]) == 0
  {
    assert [Entry(player, rank, 0, 0)][..0] == [];
  }

  lemma {:induction false} JoinedAtTheBottom(rows: seq<Entry>, ladder: seq<Entry>, players: seq<nat>)
    requires Standing(ladder) && multiset(rows) == multiset(ladder)
    ensures Standing(AtTheBottom(ladder, players)) && ladder <= AtTheBottom(ladder, players)
    ensures multiset(Joined(rows, players)) == multiset(AtTheBottom(ladder, players))
    ensures Wins(AtTheBottom(ladder, players)) == Wins(ladder) && Losses(AtTheBottom(ladder, players)) == Losses(ladder)
  {
    if players != [] {
      var front, player := players[..|players| - 1], players[|players| - 1];
      JoinedAtTheBottom(rows, ladder, front);
      var before, bottom := Joined(rows, front), AtTheBottom(ladder, front);
      SamePlayers(before, bottom, player);
      if Find(bottom, player).None? {
        OneJoins(before, bottom, player);
      }
    }
  }

  lemma {:induction false} JoiningKeepsUpright(ladder: seq<Entry>, longer: seq<Entry>, m: Pairing)
    requires Standing(longer) && ladder <= longer && Upright(ladder, m)
    ensures Upright(longer, m)
  {
    FindIs(longer, Find(ladder, m.challenger).value);
    FindIs(longer, Find(ladder, m.defender).value);
  }

  lemma {:induction false} RecordKeeps(s: Season, players: seq<nat>)
    requires Inv(s)
    ensures Inv(s.(rows := Joined(s.rows, players)))
    ensures LadderOf(s.(rows := Joined(s.rows, players))) == AtTheBottom(LadderOf(s), players)
  {
    var ladder, after := LadderOf(s), s.(rows := Joined(s.rows, players));
    JoinedAtTheBottom(s.rows, ladder, players);
    SortsTo(after.rows, AtTheBottom(ladder, players));
    forall i | 0 <= i < |s.matches| && Open(s.matches[i]) ensures Upright(LadderOf(after), PairOf(s.matches[i])) {
      JoiningKeepsUpright(ladder, LadderOf(after), PairOf(s.matches[i]));
    }
  }

  // ---- Confirming --------------------------------------------------------------------

  lemma {:induction false} ApplyAllPermutes(a: seq<Entry>, b: seq<Entry>, c: Entry, d: Entry, moved: bool)
    requires multiset(a) == multiset(b)
    ensures multiset(ApplyAll(a, c, d, moved)) == multiset(ApplyAll(b, c, d, moved))
  {
    if a == [] {
      assert multiset(b) == multiset{};
      assert b == [];
    } else {
      var x, rest := a[0], a[1..];
      assert a == [x] + rest;
      assert x in multiset(b);
      var before, after := Sorting.Pull(b, x);
      assert b == before + [x] + after;
      assert multiset(rest) == multiset(before + after);
      ApplyAllPermutes(rest, before + after, c, d, moved);
      ApplyAllConcat([x], rest, c, d, moved);
      ApplyAllConcat(before + [x], after, c, d, moved);
      ApplyAllConcat(before, [x], c, d, moved);
      ApplyAllConcat(before, after, c, d, moved);
    }
  }

  lemma {:induction false} ApplyAllConcat(a: seq<Entry>, b: seq<Entry>, c: Entry, d: Entry, moved: bool)
    ensures ApplyAll(a + b, c, d, moved) == ApplyAll(a, c, d, moved) + ApplyAll(b, c, d, moved)
  {
  }

  /** Writing the new ladder back row by row leaves the rows holding exactly the new ladder. */
  lemma {:induction false} RewrittenHolds(rows: seq<Entry>, ladder: seq<Entry>, d: nat, c: nat, winner: Winner)
    requires Standing(ladder) && multiset(rows) == multiset(ladder) && d < c < |ladder|
    ensures var applied := ApplyResult(ladder, Pairing(ladder[c].player, ladder[d].player), winner);
      && applied.Ok? && Standing(applied.value.ladder)
      && multiset(Rewritten(rows, applied.value.ladder)) == multiset(applied.value.ladder)
  {
    ResultReorders(ladder, d, c, winner);
    var moved := winner.Challenger?;
    var after := ApplyResult(ladder, Pairing(ladder[c].player, ladder[d].player), winner).value.ladder;
    var next := ApplyAll(ladder, ladder[c], ladder[d], moved);
    if moved {
      ClimbPermutes(next, d, c);
    }
    RewrittenIsApplied(rows, ladder, ladder[c], ladder[d], moved, after);
    ApplyAllPermutes(rows, ladder, ladder[c], ladder[d], moved);
  }

  lemma {:induction false} RewrittenIsApplied(rows: seq<Entry>, ladder: seq<Entry>, c: Entry, d: Entry, moved: bool,
      after: seq<Entry>)
    requires multiset(rows) == multiset(ladder) && multiset(after) == multiset(ApplyAll(ladder, c, d, moved))
    requires DistinctPlayers(after)
    ensures Rewritten(rows, after) == ApplyAll(rows, c, d, moved)
  {
    forall i | 0 <= i < |rows| ensures Rewritten(rows, after)[i] == AfterMatch(rows[i], c, d, moved) {
      RowRewritten(rows, ladder, ApplyAll(ladder, c, d, moved), after, i);
    }
  }

  lemma {:induction false} RowRewritten(rows: seq<Entry>, ladder: seq<Entry>, next: seq<Entry>, after: seq<Entry>,
      i: nat)
    requires multiset(rows) == multiset(ladder) && |next| == |ladder| && multiset(after) == multiset(next)
    requires DistinctPlayers(after) && i < |rows|
    requires forall k | 0 <= k < |ladder| :: next[k].player == ladder[k].player
    ensures exists k :: 0 <= k < |ladder| && ladder[k] == rows[i] && Rewritten(rows, after)[i] == next[k]
  {
    assert rows[i] in multiset(ladder);
    var k :| 0 <= k < |ladder| && ladder[k] == rows[i];
    assert next[k] in multiset(after);
    var j :| 0 <= j < |after| && after[j] == next[k];
    FindIs(after, j);
  }

  /**
   * A reported match always confirms: the scoreline was judged when it was reported, and
   * the defender is still above.
   */
  lemma {:induction false} ConfirmApplies(s: Season, id: nat, winner: Winner)
    requires Inv(s) && id < |s.matches| && Open(s.matches[id])
    ensures var applied := ApplyResult(LadderOf(s), PairOf(s.matches[id]), winner);
      && applied.Ok?
      && LadderOf(s.(rows := Rewritten(s.rows, applied.value.ladder))) == applied.value.ladder
      && Standing(applied.value.ladder)
      && multiset(Rewritten(s.rows, applied.value.ladder)) == multiset(applied.value.ladder)
      && Wins(applied.value.ladder) == Wins(LadderOf(s)) + 1 && Losses(applied.value.ladder) == Losses(LadderOf(s)) + 1
  {
    var ladder, m := LadderOf(s), PairOf(s.matches[id]);
    UprightPlaces(ladder, m);
    var d, c := Find(ladder, m.defender).value, Find(ladder, m.challenger).value;
    RewrittenHolds(s.rows, ladder, d, c, winner);
    ResultCounts(ladder, d, c, winner);
    var after := ApplyResult(ladder, m, winner).value.ladder;
    SortsTo(Rewritten(s.rows, after), after);
  }

  lemma {:induction false} ConfirmKeeps(s: Season, id: nat, actor: nat)
    requires Inv(s) && HandleConfirm(s, id, actor).Ok?
    ensures Inv(HandleConfirm(s, id, actor).value)
  {
    forall i | 0 <= i < |s.matches| && i != id && Open(s.matches[i])
      ensures Upright(LadderOf(HandleConfirm(s, id, actor).value), PairOf(s.matches[i]))
    {
      OtherStaysUpright(s, id, actor, i);
    }
    ConfirmLeavesStanding(s, id, actor);
  }

  /** A match still open is as upright after the confirmation as before. */
  lemma {:induction false} OtherStaysUpright(s: Season, id: nat, actor: nat, i: nat)
    requires Inv(s) && HandleConfirm(s, id, actor).Ok? && i < |s.matches| && i != id && Open(s.matches[i])
    ensures Upright(LadderOf(HandleConfirm(s, id, actor).value), PairOf(s.matches[i]))
  {
    var m := s.matches[id];
    var winner := CheckConfirm(s, id, actor).value;
    ConfirmApplies(s, id, winner);
    assert Disjoint(PairOf(m), PairOf(s.matches[i])) by {
      assert i < id ==> Disjoint(PairOf(s.matches[i]), PairOf(m));
    }
    StaysUpright(LadderOf(s), PairOf(m), winner, PairOf(s.matches[i]));
  }

  /** The ladder is whole after the confirmation, and the matches are as they were but for the confirmed one. */
  lemma {:induction false} ConfirmLeavesStanding(s: Season, id: nat, actor: nat)
    requires Inv(s) && HandleConfirm(s, id, actor).Ok?
    ensures var after := HandleConfirm(s, id, actor).value;
      && Standing(LadderOf(after)) && multiset(LadderOf(after)) == multiset(after.rows)
      && |after.matches| == |s.matches| && after.matches[id].status.Confirmed?
      && forall i | 0 <= i < |s.matches| && i != id :: after.matches[i] == s.matches[i]
  {
    ConfirmApplies(s, id, CheckConfirm(s, id, actor).value);
  }

  lemma {:induction false} RowsDistinct(rows: seq<Entry>, ladder: seq<Entry>)
    requires multiset(rows) == multiset(ladder) && DistinctPlayers(ladder)
    ensures DistinctPlayers(rows)
  {
    forall i, j | 0 <= i < j < |rows| ensures rows[i].player != rows[j].player {
      if rows[i].player == rows[j].player {
        assert rows[i] in multiset(ladder) && rows[j] in multiset(ladder);
        Sorting.Twice(rows, i, j);
        Sorting.AtMostOnce(ladder, rows[i]);
      }
    }
  }

  // ---- Challenging -------------------------------------------------------------------

  /** What the judge of challenges makes sure of. */
  lemma {:induction false} ChallengeFacts(ladder: seq<Entry>, challenger: nat, defender: nat, open: seq<Pairing>)
    requires JudgeChallenge(ladder, challenger, defender, open) == None
    ensures Upright(ladder, Pairing(challenger, defender))
    ensures forall m | m in open :: Disjoint(m, Pairing(challenger, defender))
  {
  }

  lemma {:induction false} IssueKeeps(s: Season, m: Match)
    requires Inv(s) && m.status.Issued? && Upright(LadderOf(s), PairOf(m))
    requires forall i | 0 <= i < |s.matches| && Open(s.matches[i]) :: Disjoint(PairOf(s.matches[i]), PairOf(m))
    ensures Inv(s.(matches := s.matches + [m]))
  {
  }

  lemma {:induction false} ChallengeKeeps(s: Season, challenger: nat, defender: nat)
    requires Inv(s) && JudgeChallenge(LadderOf(s), challenger, defender, OpenPairs(s.matches)) == None
    ensures Inv(s.(matches := s.matches + [Match(challenger, defender, Issued, None, None, None, None, None, false)]))
  {
    OpenPairsAre(s.matches);
    ChallengeFacts(LadderOf(s), challenger, defender, OpenPairs(s.matches));
    IssueKeeps(s, Match(challenger, defender, Issued, None, None, None, None, None, false));
  }

  /** A match rewritten between the same players, opened by nothing. */
  lemma {:induction false} MatchUpdateKeeps(s: Season, id: nat, m: Match)
    requires Inv(s) && id < |s.matches| && PairOf(m) == PairOf(s.matches[id]) && WellReported(m)
    requires Open(m) ==> Open(s.matches[id])
    ensures Inv(s.(matches := s.matches[id := m]))
  {
  }

  // ---- Every run ---------------------------------------------------------------------

  lemma {:induction false} HandleKeeps(s: Season, r: Request)
    requires Inv(s) && Handle(s, r).Ok?
    ensures Inv(Handle(s, r).value)
  {
    match r
    case RecordEntries(players) => RecordKeeps(s, players);
    case Challenge(challenger, defender) => ChallengeKeeps(s, challenger, defender);
    case Confirm(id, actor) => ConfirmKeeps(s, id, actor);
    case Decline(_, _) => RowKeeps(s, r);
    case Report(_, _, _, _) => RowKeeps(s, r);
    case Reject(_, _) => RowKeeps(s, r);
    case Start(_) => StatusKeeps(s, Playing);
    case BeginClose(_) => StatusKeeps(s, Closing);
    case Close(_) => StatusKeeps(s, Closed);
  }

  /** Declining, reporting and rejecting rewrite one match and nothing else. */
  lemma {:induction false} RowKeeps(s: Season, r: Request)
    requires Inv(s) && Handle(s, r).Ok? && (r.Decline? || r.Report? || r.Reject?)
    ensures Inv(Handle(s, r).value)
  {
    match r
    case Decline(id, _) => MatchUpdateKeeps(s, id, Handle(s, r).value.matches[id]);
    case Report(id, _, _, _) => MatchUpdateKeeps(s, id, Handle(s, r).value.matches[id]);
    case Reject(id, _) => MatchUpdateKeeps(s, id, Handle(s, r).value.matches[id]);
  }

  lemma {:induction false} StatusKeeps(s: Season, status: SeasonStatus)
    requires Inv(s)
    ensures Inv(s.(status := status))
  {
  }

  lemma {:induction false} AfterInv(commissioner: nat, run: seq<Request>)
    ensures Inv(After(commissioner, run))
  {
    if run != [] {
      AfterInv(commissioner, run[..|run| - 1]);
      var s, r := After(commissioner, run[..|run| - 1]), run[|run| - 1];
      if Handle(s, r).Ok? {
        HandleKeeps(s, r);
      }
    }
  }

  /**
   * An open match can never be inverted: in every reachable season each player is in at
   * most one open match and every open match's defender still ranks above its challenger,
   * whatever other results were confirmed meanwhile.
   */
  lemma {:induction false} OpenMatchesNeverInvert(commissioner: nat, run: seq<Request>, i: nat, j: nat)
    requires var s := After(commissioner, run);
      i < |s.matches| && j < |s.matches| && Open(s.matches[i]) && Open(s.matches[j])
    ensures var s := After(commissioner, run);
      && Upright(LadderOf(s), PairOf(s.matches[i]))
      && (i != j ==> Disjoint(PairOf(s.matches[i]), PairOf(s.matches[j])))
  {
    AfterInv(commissioner, run);
    var s := After(commissioner, run);
    assert i < j ==> Disjoint(PairOf(s.matches[i]), PairOf(s.matches[j]));
    assert j < i ==> Disjoint(PairOf(s.matches[j]), PairOf(s.matches[i]));
  }

  /** So confirming never throws, and never finds a scoreline it would refuse. */
  lemma {:induction false} ConfirmNeverThrows(commissioner: nat, run: seq<Request>, id: nat, actor: nat)
    ensures var result := HandleConfirm(After(commissioner, run), id, actor);
      result.Err? ==> !result.error.Thrown? && !result.error.ScorelineInvalid?
  {
    AfterInv(commissioner, run);
    ConfirmGoes(After(commissioner, run), id, actor);
  }

  lemma {:induction false} ConfirmGoes(s: Season, id: nat, actor: nat)
    requires Inv(s)
    ensures var result := HandleConfirm(s, id, actor);
      result.Err? ==> !result.error.Thrown? && !result.error.ScorelineInvalid?
  {
    if id < |s.matches| && s.matches[id].status.Reported? {
      assert WellReported(s.matches[id]);
      var m := s.matches[id];
      ConfirmApplies(s, id, JudgeScoreline(m.challengerScore.value, m.defenderScore.value).value);
    }
  }

  // ---- The ladder as a fold of its results -------------------------------------------

  datatype Event = Joins(players: seq<nat>) | Result(m: Pairing, winner: Winner)

  /** What a request adds to the season's history, if it goes through. */
  function Recorded(s: Season, r: Request): seq<Event> {
    if Handle(s, r).Err? then []
    else
      match r
      case RecordEntries(players) => [Joins(players)]
      case Confirm(id, actor) =>
        [Result(PairOf(s.matches[id]), CheckConfirm(s, id, actor).value)]
      case _ => []
  }

  function History(commissioner: nat, run: seq<Request>): seq<Event> {
    if run == [] then []
    else
      var front := run[..|run| - 1];
      History(commissioner, front) + Recorded(After(commissioner, front), run[|run| - 1])
  }

  function Extend(ladder: seq<Entry>, event: Event): seq<Entry> {
    match event
    case Joins(players) => AtTheBottom(ladder, players)
    case Result(m, winner) =>
      var applied := ApplyResult(ladder, m, winner);
      if applied.Ok? then applied.value.ladder else ladder
  }

  /** The ladder replayed from its history alone. */
  function Replay(history: seq<Event>): seq<Entry> {
    if history == [] then [] else Extend(Replay(history[..|history| - 1]), history[|history| - 1])
  }

  function Results(history: seq<Event>): nat {
    if history == [] then 0
    else Results(history[..|history| - 1]) + if history[|history| - 1].Result? then 1 else 0
  }

  lemma {:induction false} ReplayPush(history: seq<Event>, event: Event)
    ensures Replay(history + [event]) == Extend(Replay(history), event)
    ensures Results(history + [event]) == Results(history) + if event.Result? then 1 else 0
  {
    assert (history + [event])[..|history|] == history;
  }

  /** The stored ladder is the replay of the history so far. */
  ghost predicate Replays(s: Season, history: seq<Event>) {
    LadderOf(s) == Replay(history) && Wins(LadderOf(s)) == Losses(LadderOf(s)) == Results(history)
  }

  lemma {:induction false} JoinReplays(s: Season, players: seq<nat>, history: seq<Event>)
    requires Inv(s) && Replays(s, history)
    ensures Replays(s.(rows := Joined(s.rows, players)), history + [Joins(players)])
  {
    ReplayPush(history, Joins(players));
    RecordKeeps(s, players);
    JoinedAtTheBottom(s.rows, LadderOf(s), players);
  }

  lemma {:induction false} ResultReplays(s: Season, id: nat, actor: nat, history: seq<Event>)
    requires Inv(s) && Replays(s, history) && HandleConfirm(s, id, actor).Ok?
    ensures Replays(HandleConfirm(s, id, actor).value,
      history + [Result(PairOf(s.matches[id]), CheckConfirm(s, id, actor).value)])
  {
    var winner := CheckConfirm(s, id, actor).value;
    ReplayPush(history, Result(PairOf(s.matches[id]), winner));
    ConfirmReplays(s, id, actor, winner);
  }

  lemma {:induction false} HandleReplays(s: Season, r: Request, history: seq<Event>)
    requires Inv(s) && Replays(s, history)
    ensures Replays(Next(s, r), history + Recorded(s, r))
  {
    if r.RecordEntries? {
      JoinReplays(s, r.players, history);
    } else if r.Confirm? && Handle(s, r).Ok? {
      ResultReplays(s, r.id, r.actor, history);
    } else {
      OthersRecordNothing(s, r);
      assert history + [] == history;
    }
  }

  lemma {:induction false} OthersRecordNothing(s: Season, r: Request)
    requires !r.RecordEntries? && (r.Confirm? ==> Handle(s, r).Err?)
    ensures Recorded(s, r) == [] && Next(s, r).rows == s.rows
  {
  }

  lemma {:induction false} ConfirmReplays(s: Season, id: nat, actor: nat, winner: Winner)
    requires Inv(s) && HandleConfirm(s, id, actor).Ok?
    requires JudgeScoreline(s.matches[id].challengerScore.value, s.matches[id].defenderScore.value) == Ok(winner)
    ensures var applied := ApplyResult(LadderOf(s), PairOf(s.matches[id]), winner);
      && applied.Ok? && LadderOf(HandleConfirm(s, id, actor).value) == applied.value.ladder
      && Wins(applied.value.ladder) == Wins(LadderOf(s)) + 1 && Losses(applied.value.ladder) == Losses(LadderOf(s)) + 1
  {
    ConfirmApplies(s, id, winner);
  }

  /**
   * The ladder is a fold of its results: the stored ranks and records always equal the
   * joins and confirmed results replayed in order, and wins and losses both add up to the
   * number of confirmed results.
   */
  lemma {:induction false} LadderIsFold(commissioner: nat, run: seq<Request>)
    ensures var s, history := After(commissioner, run), History(commissioner, run);
      && LadderOf(s) == Replay(history)
      && Wins(LadderOf(s)) == Losses(LadderOf(s)) == Results(history)
  {
    if run != [] {
      var front := run[..|run| - 1];
      LadderIsFold(commissioner, front);
      AfterInv(commissioner, front);
      HandleReplays(After(commissioner, front), run[|run| - 1], History(commissioner, front));
    }
  }

  /** Who met whom, and which of them won. */
  datatype Outcome = Outcome(m: Pairing, winner: nat)

  function WinnerOf(m: Pairing, winner: Winner): nat {
    if winner.Challenger? then m.challenger else m.defender
  }

  function ResultOf(event: Event): multiset<Outcome> {
    if event.Result? then multiset{Outcome(event.m, WinnerOf(event.m, event.winner))} else multiset{}
  }

  /** The results a history records, each as often as it records it. */
  function ResultsIn(history: seq<Event>): multiset<Outcome> {
    if history == [] then multiset{} else ResultsIn(history[..|history| - 1]) + ResultOf(history[|history| - 1])
  }

  function ConfirmedOf(m: Match): multiset<Outcome> {
    if m.status.Confirmed? && m.winner.Some? then multiset{Outcome(PairOf(m), m.winner.value)} else multiset{}
  }

  /** The outcomes of the confirmed matches, as their rows hold them. */
  function ConfirmedIn(matches: seq<Match>): multiset<Outcome> {
    if matches == [] then multiset{} else ConfirmedIn(matches[..|matches| - 1]) + ConfirmedOf(matches[|matches| - 1])
  }

  lemma {:induction false} ResultsPush(history: seq<Event>, event: Event)
    ensures ResultsIn(history + [event]) == ResultsIn(history) + ResultOf(event)
  {
    assert (history + [event])[..|history|] == history;
  }

  /** A row not confirmed before brings what it now holds, and nothing else changes. */
  lemma {:induction false} ConfirmedUpdate(matches: seq<Match>, i: nat, m: Match)
    requires i < |matches| && !matches[i].status.Confirmed?
    ensures ConfirmedIn(matches[i := m]) == ConfirmedIn(matches) + ConfirmedOf(m)
  {
    var last := |matches| - 1;
    if i == last {
      assert matches[i := m][..last] == matches[..last];
      Nothing(ConfirmedIn(matches[..last]));
    } else {
      ConfirmedUpdate(matches[..last], i, m);
      ConfirmedLater(matches, i, m);
    }
  }

  lemma {:induction false} ConfirmedLater(matches: seq<Match>, i: nat, m: Match)
    requires i < |matches| - 1
    requires ConfirmedIn(matches[..|matches| - 1][i := m]) == ConfirmedIn(matches[..|matches| - 1]) + ConfirmedOf(m)
    ensures ConfirmedIn(matches[i := m]) == ConfirmedIn(matches) + ConfirmedOf(m)
  {
    var front, last := matches[..|matches| - 1], matches[|matches| - 1];
    assert matches[i := m][..|matches| - 1] == front[i := m];
    Reordered(ConfirmedIn(front), ConfirmedOf(m), ConfirmedOf(last));
  }

  lemma {:induction false} Reordered<T>(a: multiset<T>, b: multiset<T>, c: multiset<T>)
    ensures (a + b) + c == (a + c) + b
  {
  }

  lemma {:induction false} Nothing<T>(a: multiset<T>)
    ensures a + multiset{} == a
  {
  }

  /** Every confirmed row names its winner. */
  ghost predicate WinnersNamed(matches: seq<Match>) {
    forall i | 0 <= i < |matches| && matches[i].status.Confirmed? :: matches[i].winner.Some?
  }

  lemma {:induction false} UnconfirmedUpdate(matches: seq<Match>, i: nat, m: Match)
    requires i < |matches| && !matches[i].status.Confirmed? && !m.status.Confirmed? && WinnersNamed(matches)
    ensures ConfirmedIn(matches[i := m]) == ConfirmedIn(matches) && WinnersNamed(matches[i := m])
  {
    ConfirmedUpdate(matches, i, m);
    Nothing(ConfirmedIn(matches));
  }

  /**
   * The history's results are exactly the confirmed matches: the same pairings with the
   * same winners, each as often, and every confirmed match has its winner on record.
   */
  lemma {:induction false} ResultsAreConfirmations(commissioner: nat, run: seq<Request>)
    ensures ResultsIn(History(commissioner, run)) == ConfirmedIn(After(commissioner, run).matches)
    ensures WinnersNamed(After(commissioner, run).matches)
  {
    if run != [] {
      var front := run[..|run| - 1];
      ResultsAreConfirmations(commissioner, front);
      OneMoreConfirmed(After(commissioner, front), run[|run| - 1], History(commissioner, front));
    }
  }

  lemma {:induction false} OneMoreConfirmed(s: Season, r: Request, history: seq<Event>)
    requires ResultsIn(history) == ConfirmedIn(s.matches) && WinnersNamed(s.matches)
    ensures ResultsIn(history + Recorded(s, r)) == ConfirmedIn(Next(s, r).matches) && WinnersNamed(Next(s, r).matches)
  {
    if Handle(s, r).Err? {
      assert history + [] == history;
    } else if r.Confirm? {
      ResultsPush(history, Recorded(s, r)[0]);
      assert Recorded(s, r) == [Recorded(s, r)[0]];
      ConfirmRecords(s, r.id, r.actor);
    } else {
      NothingConfirmed(s, r);
      if r.RecordEntries? {
        ResultsPush(history, Joins(r.players));
      } else {
        assert history + [] == history;
      }
    }
  }

  /** A confirmation adds its own pairing and winner. */
  lemma {:induction false} ConfirmRecords(s: Season, id: nat, actor: nat)
    requires HandleConfirm(s, id, actor).Ok? && WinnersNamed(s.matches)
    ensures var after := HandleConfirm(s, id, actor).value; var m := PairOf(s.matches[id]);
      && WinnersNamed(after.matches)
      && ConfirmedIn(after.matches)
          == ConfirmedIn(s.matches) + multiset{Outcome(m, WinnerOf(m, CheckConfirm(s, id, actor).value))}
  {
    var after := HandleConfirm(s, id, actor).value;
    ConfirmedUpdate(s.matches, id, after.matches[id]);
  }

  /** No other request confirms a match or touches one that is. */
  lemma {:induction false} NothingConfirmed(s: Season, r: Request)
    requires Handle(s, r).Ok? && !r.Confirm? && WinnersNamed(s.matches)
    ensures ConfirmedIn(Handle(s, r).value.matches) == ConfirmedIn(s.matches)
      && WinnersNamed(Handle(s, r).value.matches)
  {
    match r
    case Challenge(_, _) => UnconfirmedPush(s.matches, Handle(s, r).value.matches[|s.matches|]);
    case Decline(_, _) => RowUnconfirmed(s, r);
    case Report(_, _, _, _) => RowUnconfirmed(s, r);
    case Reject(_, _) => RowUnconfirmed(s, r);
    case _ =>
  }

  lemma {:induction false} UnconfirmedPush(matches: seq<Match>, m: Match)
    requires !m.status.Confirmed? && WinnersNamed(matches)
    ensures ConfirmedIn(matches + [m]) == ConfirmedIn(matches) && WinnersNamed(matches + [m])
  {
    assert (matches + [m])[..|matches|] == matches;
    Nothing(ConfirmedIn(matches));
  }

  lemma {:induction false} RowUnconfirmed(s: Season, r: Request)
    requires Handle(s, r).Ok? && (r.Decline? || r.Report? || r.Reject?) && WinnersNamed(s.matches)
    ensures ConfirmedIn(Handle(s, r).value.matches) == ConfirmedIn(s.matches)
    ensures WinnersNamed(Handle(s, r).value.matches)
  {
    UnconfirmedUpdate(s.matches, r.id, Handle(s, r).value.matches[r.id]);
  }
}
