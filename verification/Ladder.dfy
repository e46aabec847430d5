/**
 * The ladder rules (apps/pingpong/src/domain/ladder.ts): who may challenge whom, what a
 * game's score may be, how a result moves the ladder, and the scores it ends with.
 */
module Ladder {
  import opened Common
  import Sorting

  const CHALLENGE_REACH: nat := 3
  const GAME_TO: nat := 11
  const MAX_GAME_POINTS: nat := 99

  datatype Entry = Entry(player: nat, rank: nat, wins: nat, losses: nat)

  datatype Pairing = Pairing(challenger: nat, defender: nat)

  function Find(ladder: seq<Entry>, player: nat): (place: Option<nat>)
    ensures place.Some? ==> place.value < |ladder| && ladder[place.value].player == player
    ensures place.None? ==> forall i | 0 <= i < |ladder| :: ladder[i].player != player
  {
    if ladder == [] then None
    else if ladder[0].player == player then Some(0)
    else
      match Find(ladder[1..], player)
      case None => None
      case Some(i) => Some(i + 1)
  }

  // ---- Challenges --------------------------------------------------------------------

  datatype ChallengeRefusal = Themself | NotOnLadder | NotAbove | OutOfReach | Busy

  predicate PlaysIn(m: Pairing, player: nat) {
    m.challenger == player || m.defender == player
  }

  function JudgeChallenge(ladder: seq<Entry>, challenger: nat, defender: nat,
      open: seq<Pairing>): Option<ChallengeRefusal> {
    var c, d := Find(ladder, challenger), Find(ladder, defender);
    if challenger == defender then Some(Themself)
    else if c.None? || d.None? then Some(NotOnLadder)
    else if ladder[d.value].rank >= ladder[c.value].rank then Some(NotAbove)
    else if ladder[c.value].rank - ladder[d.value].rank > CHALLENGE_REACH then Some(OutOfReach)
    else if exists i :: 0 <= i < |open| && (PlaysIn(open[i], challenger) || PlaysIn(open[i], defender)) then Some(Busy)
    else None
  }

  // ---- Scorelines --------------------------------------------------------------------

  datatype Winner = Challenger | Defender

  datatype ScorelineFault = NotWhole | TooManyPoints | EndsLevel | TooShort | NotClear | RanOn

  predicate IsInteger(x: real) {
    x.Floor as real == x
  }

  function JudgeScoreline(challenger: real, defender: real): Result<Winner, ScorelineFault> {
    var high := if challenger > defender then challenger else defender;
    var low := if challenger > defender then defender else challenger;
    if !IsInteger(challenger) || !IsInteger(defender) || challenger < 0.0 || defender < 0.0 then Err(NotWhole)
    else if challenger > MAX_GAME_POINTS as real || defender > MAX_GAME_POINTS as real then Err(TooManyPoints)
    else if challenger == defender then Err(EndsLevel)
    else if high < GAME_TO as real then Err(TooShort)
    else if high - low < 2.0 then Err(NotClear)
    else if high > GAME_TO as real && high - low != 2.0 then Err(RanOn)
    else Ok(if challenger > defender then Challenger else Defender)
  }

  // ---- Results -----------------------------------------------------------------------

  datatype RangeFault = PlayersMissing | DefenderBelow

  datatype Applied = Applied(ladder: seq<Entry>, moved: bool, winner: nat, loser: nat)

  function ByRank(): (Entry, Entry) -> bool {
    (x: Entry, y: Entry) => x.rank < y.rank || (x.rank == y.rank && x.player <= y.player)
  }

  function SortLadder(ladder: seq<Entry>): seq<Entry> {
    Sorting.Sort(ByRank(), ladder)
  }

  /** A climbing challenger takes the defender's rank and everyone from there to just above them moves down one. */
  function MovedRank(entry: Entry, challenger: Entry, defender: Entry, moved: bool): nat {
    if !moved then entry.rank
    else if entry.player == challenger.player then defender.rank
    else if defender.rank <= entry.rank < challenger.rank then entry.rank + 1
    else entry.rank
  }

  function AfterMatch(entry: Entry, challenger: Entry, defender: Entry, moved: bool): Entry {
    var winner := if moved then challenger.player else defender.player;
    var loser := if moved then defender.player else challenger.player;
    Entry(entry.player, MovedRank(entry, challenger, defender, moved),
          entry.wins + if entry.player == winner then 1 else 0, entry.losses + if entry.player == loser then 1 else 0)
  }

  function ApplyAll(ladder: seq<Entry>, challenger: Entry, defender: Entry, moved: bool): (next: seq<Entry>)
    ensures |next| == |ladder|
  {
    seq(|ladder|, i requires 0 <= i < |ladder| => AfterMatch(ladder[i], challenger, defender, moved))
  }

  function ApplyResult(ladder: seq<Entry>, m: Pairing, winner: Winner): Result<Applied, RangeFault> {
    var c, d := Find(ladder, m.challenger), Find(ladder, m.defender);
    if c.None? || d.None? then Err(PlayersMissing)
    else if ladder[d.value].rank >= ladder[c.value].rank then Err(DefenderBelow)
    else
      var moved := winner.Challenger?;
      Ok(Applied(SortLadder(ApplyAll(ladder, ladder[c.value], ladder[d.value], moved)), moved,
                 if moved then m.challenger else m.defender, if moved then m.defender else m.challenger))
  }

  /** `assertGapless`: sorted, the ranks read 1, 2, 3 and so on. */
  predicate Gapless(ladder: seq<Entry>) {
    var sorted := SortLadder(ladder);
    forall i | 0 <= i < |sorted| :: sorted[i].rank == i + 1
  }

  function FinalScore(rank: nat, count: nat): Option<nat> {
    if rank < 1 || rank > count then None else Some(count - rank + 1)
  }

  /** `finalScores`: each entrant's rank turned upside down; refused for a ladder with gaps. */
  function FinalScores(ladder: seq<Entry>): Option<map<nat, nat>> {
    if Gapless(ladder) then ScoresOf(ladder, |ladder|) else None
  }

  /** The map filled entry by entry; a rank outside 1..n would stop it. */
  function ScoresOf(ladder: seq<Entry>, n: nat): Option<map<nat, nat>>
    requires n <= |ladder|
  {
    if n == 0 then Some(map[])
    else
      var scores := ScoresOf(ladder, n - 1);
      var score := FinalScore(ladder[n - 1].rank, |ladder|);
      if scores.None? || score.None? then None else Some(scores.value[ladder[n - 1].player := score.value])
  }
}
