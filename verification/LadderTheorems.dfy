/** What the ladder rules mean. */
module LadderTheorems {
  import opened Common
  import opened Ladder
  import Sorting

  // ---- The scoreline judge is exact --------------------------------------------------

  /** A game, point by point: who won each. */
  function Tally(points: seq<Winner>, side: Winner): nat {
    if points == [] then 0
    else Tally(points[..|points| - 1], side) + if points[|points| - 1] == side then 1 else 0
  }

  /** Someone has eleven or more and is two clear. */
  predicate Decided(c: nat, d: nat) {
    (c >= GAME_TO && c >= d + 2) || (d >= GAME_TO && d >= c + 2)
  }

  predicate DecidedAt(points: seq<Winner>, n: nat)
    requires n <= |points|
  {
    Decided(Tally(points[..n], Challenger), Tally(points[..n], Defender))
  }

  /** A whole game: decided by its last point and not a point earlier. */
  ghost predicate WholeGame(points: seq<Winner>) {
    DecidedAt(points, |points|) && forall n | 0 <= n < |points| :: !DecidedAt(points, n)
  }

  /** A game somebody could have played to this score. */
  ghost predicate Played(points: seq<Winner>, c: nat, d: nat) {
    WholeGame(points) && Tally(points, Challenger) == c && Tally(points, Defender) == d
  }

  lemma {:induction false} TallyPush(points: seq<Winner>, point: Winner, side: Winner)
    ensures Tally(points + [point], side) == Tally(points, side) + if point == side then 1 else 0
  {
    assert (points + [point])[..|points|] == points;
  }

  lemma {:induction false} PrefixPush(points: seq<Winner>, point: Winner, n: nat)
    requires n <= |points|
    ensures (points + [point])[..n] == points[..n]
  {
  }

  /** One more point to an undecided game. */
  lemma {:induction false} Continue(points: seq<Winner>, point: Winner)
    requires forall n | 0 <= n <= |points| :: !DecidedAt(points, n)
    ensures forall n | 0 <= n < |points + [point]| :: !DecidedAt(points + [point], n)
    ensures Tally(points + [point], Challenger) == Tally(points, Challenger) + if point.Challenger? then 1 else 0
    ensures Tally(points + [point], Defender) == Tally(points, Defender) + if point.Defender? then 1 else 0
  {
    TallyPush(points, point, Challenger);
    TallyPush(points, point, Defender);
    forall n | 0 <= n < |points + [point]| ensures !DecidedAt(points + [point], n) {
      PrefixPush(points, point, n);
      assert !DecidedAt(points, n);
    }
  }

  lemma {:induction false} Undecided(points: seq<Winner>)
    requires forall n | 0 <= n < |points| :: !DecidedAt(points, n)
    requires !Decided(Tally(points, Challenger), Tally(points, Defender))
    ensures forall n | 0 <= n <= |points| :: !DecidedAt(points, n)
  {
    assert points[..|points|] == points;
  }

  /** The score after `k` more points to one side still decides nothing. */
  predicate StillOpen(c: nat, d: nat, side: Winner, k: nat) {
    !Decided(if side.Challenger? then c + k else c, if side.Defender? then d + k else d)
  }

  /** A run of points to one side that decides nothing yet. */
  lemma {:induction false} RunOf(points: seq<Winner>, side: Winner, count: nat) returns (longer: seq<Winner>)
    requires forall n | 0 <= n <= |points| :: !DecidedAt(points, n)
    requires forall k | 0 <= k <= count :: StillOpen(Tally(points, Challenger), Tally(points, Defender), side, k)
    ensures forall n | 0 <= n <= |longer| :: !DecidedAt(longer, n)
    ensures Tally(longer, Challenger) == Tally(points, Challenger) + if side.Challenger? then count else 0
    ensures Tally(longer, Defender) == Tally(points, Defender) + if side.Defender? then count else 0
  {
    if count == 0 {
      longer := points;
    } else {
      var shorter := RunOf(points, side, count - 1);
      Continue(shorter, side);
      longer := shorter + [side];
      assert StillOpen(Tally(points, Challenger), Tally(points, Defender), side, count);
      Undecided(longer);
    }
  }

  /** Level to `n` all, a point each in turn. */
  lemma {:induction false} Deuce(n: nat) returns (points: seq<Winner>)
    ensures forall k | 0 <= k <= |points| :: !DecidedAt(points, k)
    ensures Tally(points, Challenger) == n && Tally(points, Defender) == n
  {
    if n == 0 {
      points := [];
    } else {
      var before := Deuce(n - 1);
      Continue(before, Challenger);
      Undecided(before + [Challenger]);
      Continue(before + [Challenger], Defender);
      points := before + [Challenger] + [Defender];
      Undecided(points);
    }
  }

  lemma {:induction false} LastPoint(points: seq<Winner>, side: Winner, c: nat, d: nat)
    requires forall n | 0 <= n <= |points| :: !DecidedAt(points, n)
    requires c == Tally(points, Challenger) + (if side.Challenger? then 1 else 0)
    requires d == Tally(points, Defender) + (if side.Defender? then 1 else 0)
    requires Decided(c, d)
    ensures Played(points + [side], c, d)
  {
    Continue(points, side);
    assert (points + [side])[..|points| + 1] == points + [side];
  }

  /** Every score the rules allow is some game's. */
  lemma {:induction false} SomeGame(c: nat, d: nat) returns (points: seq<Winner>)
    requires Decided(c, d) && (c > GAME_TO || d > GAME_TO ==> c == d + 2 || d == c + 2)
    ensures Played(points, c, d)
  {
    var side, other := if c > d then Challenger else Defender, if c > d then Defender else Challenger;
    var high, low := if c > d then c else d, if c > d then d else c;
    var nearly: seq<Winner>;
    if high == GAME_TO {
      var opening := RunOf([], other, low);
      nearly := RunOf(opening, side, GAME_TO - 1);
    } else {
      var level := Deuce(low);
      nearly := RunOf(level, side, 1);
    }
    LastPoint(nearly, side, c, d);
    points := nearly + [side];
  }

  /** A game ends at eleven, or past it the moment someone leads by two. */
  lemma {:induction false} GameScore(points: seq<Winner>, c: nat, d: nat)
    requires Played(points, c, d)
    ensures Decided(c, d) && (c > GAME_TO || d > GAME_TO ==> c == d + 2 || d == c + 2)
  {
    assert points[..|points|] == points;
    if points != [] {
      assert !DecidedAt(points, |points| - 1);
    }
  }

  /**
   * `judgeScoreline` accepts a score exactly when some game, played point by point, first
   * becomes decided at that score with neither side past 99, and it names that game's
   * winner.
   */
  lemma {:induction false} ScorelineExact(challenger: real, defender: real, winner: Winner)
    ensures JudgeScoreline(challenger, defender) == Ok(winner) <==>
      exists points, c: nat, d: nat :: EndsAs(points, c, d, challenger, defender, winner)
  {
    if JudgeScoreline(challenger, defender) == Ok(winner) {
      var c: nat, d: nat := challenger.Floor, defender.Floor;
      var points := SomeGame(c, d);
      assert EndsAs(points, c, d, challenger, defender, winner);
    }
    if exists points, c: nat, d: nat :: EndsAs(points, c, d, challenger, defender, winner) {
      var points, c: nat, d: nat :| EndsAs(points, c, d, challenger, defender, winner);
      GameScore(points, c, d);
    }
  }

  /** This game ends at the reported score, within the limit, won by `winner`. */
  ghost predicate EndsAs(points: seq<Winner>, c: nat, d: nat, challenger: real, defender: real, winner: Winner) {
    && Played(points, c, d) && challenger == c as real && defender == d as real
    && c <= MAX_GAME_POINTS && d <= MAX_GAME_POINTS
    && winner == if c > d then Challenger else Defender
  }

  // ---- Standings ---------------------------------------------------------------------

  predicate DistinctPlayers(ladder: seq<Entry>) {
    forall i, j | 0 <= i < j < |ladder| :: ladder[i].player != ladder[j].player
  }

  /** A ladder in rank order with ranks 1..n. */
  predicate Standing(ladder: seq<Entry>) {
    DistinctPlayers(ladder) && forall i | 0 <= i < |ladder| :: ladder[i].rank == i + 1
  }

  lemma {:induction false} ByRankIsTotal()
    ensures Sorting.TotalPreorder(ByRank())
  {
  }

  lemma {:induction false} FindIs(ladder: seq<Entry>, i: nat)
    requires i < |ladder| && DistinctPlayers(ladder)
    ensures Find(ladder, ladder[i].player) == Some(i)
  {
    if i > 0 {
      FindIs(ladder[1..], i - 1);
      assert ladder[1..][i - 1] == ladder[i];
    }
  }

  /** Any listing of a standing's entries sorts to it. */
  lemma {:induction false} SortsTo(rows: seq<Entry>, standing: seq<Entry>)
    requires Standing(standing) && multiset(rows) == multiset(standing)
    ensures SortLadder(rows) == standing
  {
    ByRankIsTotal();
    forall a, b | a in rows && b in rows && ByRank()(a, b) && ByRank()(b, a) ensures a == b {
      assert a in multiset(rows) && b in multiset(rows);
      var i :| 0 <= i < |standing| && standing[i] == a;
      var j :| 0 <= j < |standing| && standing[j] == b;
    }
    Sorting.SortIgnoresOrder(ByRank(), rows, standing);
    Sorting.SortFixesSorted(ByRank(), standing) by {
      forall a, b | a in standing && b in standing && ByRank()(a, b) && ByRank()(b, a) ensures a == b {
        assert a in multiset(standing) && b in multiset(standing);
        assert a in rows && b in rows;
      }
    }
  }

  /** The ladder with the entry at `from` taken out and put back just above the one at `to`. */
  function Climb<T>(s: seq<T>, to: nat, from: nat): (r: seq<T>)
    requires to <= from < |s|
    ensures |r| == |s|
  {
    s[..to] + [s[from]] + s[to..from] + s[from + 1..]
  }

  lemma {:induction false} ClimbPermutes<T>(s: seq<T>, to: nat, from: nat)
    requires to <= from < |s|
    ensures multiset(Climb(s, to, from)) == multiset(s)
  {
    assert s == s[..to] + s[to..from] + [s[from]] + s[from + 1..];
  }

  /** Where the entry at place `i` of a climbed order came from. */
  function ClimbedFrom(to: nat, from: nat, i: nat): nat
    requires to <= from
  {
    if i < to || i > from then i else if i == to then from else i - 1
  }

  lemma {:induction false} ClimbAt<T>(s: seq<T>, to: nat, from: nat, i: nat)
    requires to <= from < |s| && i < |s|
    ensures Climb(s, to, from)[i] == s[ClimbedFrom(to, from, i)]
  {
  }

  /** Ranks after a match are the places in the climbed order. */
  lemma {:induction false} ClimbRanks(ladder: seq<Entry>, d: nat, c: nat)
    requires Standing(ladder) && d < c < |ladder|
    ensures Standing(Climb(ApplyAll(ladder, ladder[c], ladder[d], true), d, c))
  {
    var next := ApplyAll(ladder, ladder[c], ladder[d], true);
    var order := Climb(next, d, c);
    forall i | 0 <= i < |order| ensures order[i].rank == i + 1 {
      ClimbAt(next, d, c, i);
    }
    forall i, j | 0 <= i < j < |order| ensures order[i].player != order[j].player {
      ClimbAt(next, d, c, i);
      ClimbAt(next, d, c, j);
      assert ClimbedFrom(d, c, i) != ClimbedFrom(d, c, j);
    }
  }

  lemma {:induction false} HeldRanks(ladder: seq<Entry>, d: nat, c: nat)
    requires Standing(ladder) && d < c < |ladder|
    ensures Standing(ApplyAll(ladder, ladder[c], ladder[d], false))
  {
  }

  /**
   * A confirmed result moves the ladder exactly one way: a winning challenger is taken out
   * and put back just above the defender, everyone keeping their order otherwise; a winning
   * defender moves nobody. Each player's record gains the one result.
   */
  lemma {:induction false} ResultReorders(ladder: seq<Entry>, d: nat, c: nat, winner: Winner)
    requires Standing(ladder) && d < c < |ladder|
    ensures var m := Pairing(ladder[c].player, ladder[d].player);
      var next := ApplyAll(ladder, ladder[c], ladder[d], winner.Challenger?);
      && ApplyResult(ladder, m, winner).Ok?
      && ApplyResult(ladder, m, winner).value.ladder == (if winner.Challenger? then Climb(next, d, c) else next)
      && Standing(ApplyResult(ladder, m, winner).value.ladder)
  {
    FindIs(ladder, c);
    FindIs(ladder, d);
    var next := ApplyAll(ladder, ladder[c], ladder[d], winner.Challenger?);
    var order := if winner.Challenger? then Climb(next, d, c) else next;
    if winner.Challenger? {
      ClimbRanks(ladder, d, c);
      ClimbPermutes(next, d, c);
    } else {
      HeldRanks(ladder, d, c);
    }
    SortsTo(next, order);
  }

  function Players(ladder: seq<Entry>): (players: seq<nat>)
    ensures |players| == |ladder|
  {
    seq(|ladder|, i requires 0 <= i < |ladder| => ladder[i].player)
  }

  /** In terms of names alone: the players in rank order before, and after. */
  lemma {:induction false} ResultReordersPlayers(ladder: seq<Entry>, d: nat, c: nat, winner: Winner)
    requires Standing(ladder) && d < c < |ladder|
    ensures var m := Pairing(ladder[c].player, ladder[d].player);
      && ApplyResult(ladder, m, winner).Ok?
      && Players(ApplyResult(ladder, m, winner).value.ladder)
          == if winner.Challenger? then Climb(Players(ladder), d, c) else Players(ladder)
  {
    ResultReorders(ladder, d, c, winner);
    var next := ApplyAll(ladder, ladder[c], ladder[d], winner.Challenger?);
    assert Players(next) == Players(ladder);
    ClimbPlayers(next, d, c);
  }

  lemma {:induction false} ClimbPlayers(s: seq<Entry>, to: nat, from: nat)
    requires to <= from < |s|
    ensures Players(Climb(s, to, from)) == Climb(Players(s), to, from)
  {
  }

  function Wins(ladder: seq<Entry>): int {
    if ladder == [] then 0 else Wins(ladder[..|ladder| - 1]) + ladder[|ladder| - 1].wins
  }

  function Losses(ladder: seq<Entry>): int {
    if ladder == [] then 0 else Losses(ladder[..|ladder| - 1]) + ladder[|ladder| - 1].losses
  }

  lemma {:induction false} RecordsAppend(a: seq<Entry>, b: seq<Entry>)
    ensures Wins(a + b) == Wins(a) + Wins(b) && Losses(a + b) == Losses(a) + Losses(b)
  {
    if b == [] {
      assert a + b == a;
    } else {
      RecordsAppend(a, b[..|b| - 1]);
      assert (a + b)[..|a + b| - 1] == a + b[..|b| - 1];
    }
  }

  lemma {:induction false} ClimbKeepsRecords(s: seq<Entry>, to: nat, from: nat)
    requires to <= from < |s|
    ensures Wins(Climb(s, to, from)) == Wins(s) && Losses(Climb(s, to, from)) == Losses(s)
  {
    var a, x, b, z := s[..to], [s[from]], s[to..from], s[from + 1..];
    assert s == a + b + x + z;
    RecordsAppend(a, x);
    RecordsAppend(a + x, b);
    RecordsAppend(a + x + b, z);
    RecordsAppend(a, b);
    RecordsAppend(a + b, x);
    RecordsAppend(a + b + x, z);
  }

  /** How many of the entries before `n` are this player's. */
  lemma {:induction false} RecordsAfter(ladder: seq<Entry>, c: Entry, d: Entry, moved: bool, n: nat)
    requires DistinctPlayers(ladder) && n <= |ladder| && c.player != d.player
    ensures var winner, loser := if moved then c.player else d.player, if moved then d.player else c.player;
      var next := ApplyAll(ladder, c, d, moved);
      && Wins(next[..n]) == Wins(ladder[..n]) + (if exists i :: 0 <= i < n && ladder[i].player == winner then 1 else 0)
      && Losses(next[..n]) == Losses(ladder[..n])
        + (if exists i :: 0 <= i < n && ladder[i].player == loser then 1 else 0)
  {
    if n > 0 {
      var next := ApplyAll(ladder, c, d, moved);
      RecordsAfter(ladder, c, d, moved, n - 1);
      assert next[..n][..n - 1] == next[..n - 1] && ladder[..n][..n - 1] == ladder[..n - 1];
    }
  }

  /** Every result adds one win and one loss to the ladder as a whole. */
  lemma {:induction false} ResultCounts(ladder: seq<Entry>, d: nat, c: nat, winner: Winner)
    requires Standing(ladder) && d < c < |ladder|
    ensures var applied := ApplyResult(ladder, Pairing(ladder[c].player, ladder[d].player), winner);
      && applied.Ok?
      && Wins(applied.value.ladder) == Wins(ladder) + 1 && Losses(applied.value.ladder) == Losses(ladder) + 1
  {
    ResultReorders(ladder, d, c, winner);
    BothRecorded(ladder, d, c, winner.Challenger?);
    if winner.Challenger? {
      ClimbKeepsRecords(ApplyAll(ladder, ladder[c], ladder[d], true), d, c);
    }
  }

  lemma {:induction false} BothRecorded(ladder: seq<Entry>, d: nat, c: nat, moved: bool)
    requires DistinctPlayers(ladder) && d < c < |ladder|
    ensures var next := ApplyAll(ladder, ladder[c], ladder[d], moved);
      Wins(next) == Wins(ladder) + 1 && Losses(next) == Losses(ladder) + 1
  {
    var next := ApplyAll(ladder, ladder[c], ladder[d], moved);
    RecordsAfter(ladder, ladder[c], ladder[d], moved, |ladder|);
    assert next[..|ladder|] == next && ladder[..|ladder|] == ladder;
  }

  // ---- Final scores ------------------------------------------------------------------

  lemma {:induction false} ScoresOfFills(ladder: seq<Entry>, n: nat)
    requires n <= |ladder| && DistinctPlayers(ladder)
    requires forall i | 0 <= i < |ladder| :: 1 <= ladder[i].rank <= |ladder|
    ensures ScoresOf(ladder, n).Some?
    ensures var scores := ScoresOf(ladder, n).value;
      forall i | 0 <= i < n :: ladder[i].player in scores && scores[ladder[i].player] == |ladder| - ladder[i].rank + 1
  {
    if n > 0 {
      ScoresOfFills(ladder, n - 1);
    }
  }

  predicate RankTaken(ladder: seq<Entry>, rank: nat) {
    exists i :: 0 <= i < |ladder| && ladder[i].rank == rank
  }

  /** In a gapless ladder the ranks are 1..n, each taken. */
  lemma {:induction false} GaplessRanks(ladder: seq<Entry>)
    requires Gapless(ladder)
    ensures |SortLadder(ladder)| == |ladder| && multiset(SortLadder(ladder)) == multiset(ladder)
    ensures forall i | 0 <= i < |ladder| :: 1 <= ladder[i].rank <= |ladder|
    ensures forall rank: nat | 1 <= rank <= |ladder| :: RankTaken(ladder, rank)
  {
    var sorted := SortLadder(ladder);
    Sorting.SortPermutes(ByRank(), ladder);
    assert |multiset(sorted)| == |multiset(ladder)|;
    forall i | 0 <= i < |ladder| ensures 1 <= ladder[i].rank <= |ladder| {
      assert ladder[i] in multiset(sorted);
    }
    forall rank: nat | 1 <= rank <= |ladder| ensures RankTaken(ladder, rank) {
      var e := sorted[rank - 1];
      assert e in multiset(sorted) && e in multiset(ladder);
      var i :| 0 <= i < |ladder| && ladder[i] == e;
    }
  }

  function RanksAbove(rank: nat): Entry -> bool {
    (e: Entry) => e.rank < rank
  }

  function ScoresHigher(scores: map<nat, nat>, score: nat): Entry -> bool {
    (e: Entry) => e.player in scores && scores[e.player] > score
  }

  lemma {:induction false} SameCount(p: Entry -> bool, q: Entry -> bool, s: seq<Entry>)
    requires forall e | e in s :: p(e) == q(e)
    ensures Sorting.Count(p, s) == Sorting.Count(q, s)
  {
    if s != [] {
      SameCount(p, q, s[1..]);
    }
  }

  lemma {:induction false} ScoresMeanRanks(ladder: seq<Entry>)
    requires Gapless(ladder) && DistinctPlayers(ladder)
    ensures FinalScores(ladder).Some?
    ensures var scores := FinalScores(ladder).value;
      forall i | 0 <= i < |ladder| ::
        ladder[i].player in scores && scores[ladder[i].player] == |ladder| - ladder[i].rank + 1
  {
    GaplessRanks(ladder);
    ScoresOfFills(ladder, |ladder|);
  }

  /** Each of the scores 1..n is given to somebody. */
  lemma {:induction false} EveryScoreGiven(ladder: seq<Entry>, score: nat) returns (i: nat)
    requires Gapless(ladder) && DistinctPlayers(ladder) && 1 <= score <= |ladder|
    ensures i < |ladder| && FinalScores(ladder).Some? && ladder[i].player in FinalScores(ladder).value
    ensures FinalScores(ladder).value[ladder[i].player] == score
  {
    ScoresMeanRanks(ladder);
    GaplessRanks(ladder);
    assert RankTaken(ladder, |ladder| - score + 1);
    i :| 0 <= i < |ladder| && ladder[i].rank == |ladder| - score + 1;
  }

  /**
   * Ranking entrants by final score, one more than the number with a strictly higher one,
   * gives back each one's place on the ladder.
   */
  lemma {:induction false} FinalScoresReproduceTheLadder(ladder: seq<Entry>, i: nat)
    requires Gapless(ladder) && DistinctPlayers(ladder) && i < |ladder|
    ensures FinalScores(ladder).Some? && ladder[i].player in FinalScores(ladder).value
    ensures var scores := FinalScores(ladder).value; var score := scores[ladder[i].player];
      && 1 <= score <= |ladder|
      && ladder[i].rank == 1 + Sorting.Count(ScoresHigher(scores, score), ladder)
  {
    ScoresMeanRanks(ladder);
    GaplessRanks(ladder);
    RankCounts(ladder, ladder[i].rank);
    var scores := FinalScores(ladder).value;
    forall e | e in ladder ensures RanksAbove(ladder[i].rank)(e) == ScoresHigher(scores, scores[ladder[i].player])(e) {
      var j :| 0 <= j < |ladder| && ladder[j] == e;
    }
    SameCount(RanksAbove(ladder[i].rank), ScoresHigher(scores, scores[ladder[i].player]), ladder);
  }

  lemma {:induction false} RankCounts(ladder: seq<Entry>, rank: nat)
    requires Gapless(ladder) && 1 <= rank <= |ladder|
    ensures Sorting.Count(RanksAbove(rank), ladder) == rank - 1
  {
    GaplessRanks(ladder);
    var sorted := SortLadder(ladder);
    Sorting.SortCounts(RanksAbove(rank), ByRank(), ladder);
    Sorting.CountPrefix(RanksAbove(rank), sorted, rank - 1);
  }
}
