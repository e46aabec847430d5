/**
 * The ladder's service as it runs: a season's rows updated in place under its lock. Each
 * method is proved against `LadderMatches.Handle`; a refusal leaves the rows alone.
 */
module LadderStore {
  import opened Common
  import opened Ladder
  import opened LadderTheorems
  import opened LadderMatches

  class Board {
    var status: SeasonStatus
    const commissioner: nat
    var rows: seq<Entry>
    var matches: seq<Match>

    constructor (opener: nat)
      ensures State() == Opened(opener)
    {
      status, commissioner, rows, matches := Enrolling, opener, [], [];
    }

    function State(): Season
      reads this
    {
      Season(status, commissioner, rows, matches)
    }

    /** What a method did: the rows its specification gives, or its refusal and the rows untouched. */
    ghost predicate Did(before: Season, expected: Result<Season, Failure>, refusal: Option<Failure>)
      reads this
    {
      match expected
      case Ok(after) => refusal == None && State() == after
      case Err(e) => refusal == Some(e) && State() == before
    }

    /** Entered participants not on the ladder yet take the next ranks, one after another. */
    method RecordEntries(players: seq<nat>) returns (added: nat)
      modifies this`rows
      ensures rows == Joined(old(rows), players)
      ensures |rows| == |old(rows)| + added
    {
      var rank := MaxRank(rows);
      added := 0;
      for i := 0 to |players|
        invariant rows == Joined(old(rows), players[..i])
        invariant rank == MaxRank(rows)
        invariant |rows| == |old(rows)| + added
      {
        JoinedPush(old(rows), players, i);
        if Find(rows, players[i]).None? {
          rank := rank + 1;
          var entry := Entry(players[i], rank, 0, 0);
          assert Joined(old(rows), players[..i + 1]) == rows + [entry];
          LastIsMax(rows, entry);
          rows := rows + [entry];
          added := added + 1;
        }
      }
      assert players[..|players|] == players;
    }

    method Issue(challenger: nat, defender: nat) returns (refusal: Option<Failure>)
      modifies this`matches
      ensures Did(old(State()), Handle(old(State()), Challenge(challenger, defender)), refusal)
    {
      if !status.Playing? {
        return Some(SeasonNotPlaying);
      }
      var open := CollectOpen();
      var refused := JudgeChallenge(SortLadder(rows), challenger, defender, open);
      if refused.Some? {
        return Some(ChallengeRefused(refused.value));
      }
      matches := matches + [Match(challenger, defender, Issued, None, None, None, None, None, false)];
      return None;
    }

    method CollectOpen() returns (open: seq<Pairing>)
      ensures open == OpenPairs(matches)
    {
      open := [];
      for i := 0 to |matches|
        invariant open == OpenPairs(matches[..i])
      {
        assert matches[..i + 1][..i] == matches[..i];
        if matches[i].status.Issued? || matches[i].status.Reported? {
          open := open + [Pairing(matches[i].challenger, matches[i].defender)];
        }
      }
      assert matches[..|matches|] == matches;
    }

    method Decline(id: nat, actor: nat) returns (refusal: Option<Failure>)
      modifies this`matches
      ensures Did(old(State()), Handle(old(State()), Request.Decline(id, actor)), refusal)
    {
      if id >= |matches| {
        return Some(MatchNotFound);
      }
      if matches[id].defender != actor {
        return Some(DefenderOnly);
      }
      if !matches[id].status.Issued? {
        return Some(MatchNotOpen);
      }
      matches := matches[id := matches[id].(status := Declined)];
      return None;
    }

    method Report(id: nat, actor: nat, c: real, d: real) returns (refusal: Option<Failure>)
      modifies this`matches
      ensures Did(old(State()), HandleReport(old(State()), id, actor, c, d), refusal)
    {
      var judged := JudgeScoreline(c, d);
      if judged.Err? {
        return Some(ScorelineInvalid(judged.error));
      }
      if id >= |matches| {
        return Some(MatchNotFound);
      }
      if !status.Playing? {
        return Some(SeasonNotPlaying);
      }
      var m := matches[id];
      if m.challenger != actor && m.defender != actor {
        return Some(ParticipantOnly);
      }
      if !m.status.Issued? && !m.status.Reported? {
        return Some(MatchNotOpen);
      }
      matches := matches[id := m.(status := Reported, challengerScore := Some(c), defenderScore := Some(d),
          reportedBy := Some(actor))];
      return None;
    }

    method CheckConfirm(id: nat, actor: nat) returns (r: Result<Winner, Failure>)
      ensures r == LadderMatches.CheckConfirm(State(), id, actor)
    {
      if id >= |matches| {
        return Err(MatchNotFound);
      }
      if !status.Playing? {
        return Err(SeasonNotPlaying);
      }
      var m := matches[id];
      if !m.status.Reported? || m.challengerScore.None? || m.defenderScore.None? {
        return Err(MatchNotReported);
      }
      if m.challenger != actor && m.defender != actor {
        return Err(ParticipantOnly);
      }
      if m.reportedBy == Some(actor) {
        return Err(ConfirmOtherSide);
      }
      var judged := JudgeScoreline(m.challengerScore.value, m.defenderScore.value);
      if judged.Err? {
        return Err(ScorelineInvalid(judged.error));
      }
      return Ok(judged.value);
    }

    /** The result applied to the ladder, every row written back, the match closed. */
    method Confirm(id: nat, actor: nat) returns (refusal: Option<Failure>)
      requires Inv(State())
      modifies this`rows, this`matches
      ensures Did(old(State()), HandleConfirm(old(State()), id, actor), refusal)
    {
      var checked := CheckConfirm(id, actor);
      if checked.Err? {
        return Some(checked.error);
      }
      var m := matches[id];
      var applied := ApplyResult(SortLadder(rows), PairOf(m), checked.value);
      if applied.Err? {
        return Some(Thrown(applied.error));
      }
      ConfirmApplies(State(), id, checked.value);
      RowsDistinct(rows, SortLadder(rows));
      WriteBack(applied.value.ladder);
      matches := matches[id := m.(status := Confirmed, confirmedBy := Some(actor),
          winner := Some(applied.value.winner), moved := applied.value.moved)];
      return None;
    }

    /** One update per ladder entry, finding its row by player. */
    method WriteBack(ladder: seq<Entry>)
      requires DistinctPlayers(rows) && DistinctPlayers(ladder)
      modifies this`rows
      ensures rows == Rewritten(old(rows), ladder)
    {
      for k := 0 to |ladder|
        invariant |rows| == |old(rows)|
        invariant forall i | 0 <= i < |rows| :: rows[i].player == old(rows)[i].player
        invariant forall i | 0 <= i < |rows| :: rows[i] == WrittenUpTo(old(rows), ladder, k, i)
      {
        FindIs(ladder, k);
        var place := Find(rows, ladder[k].player);
        if place.Some? {
          FindIs(rows, place.value);
          rows := rows[place.value := Entry(ladder[k].player, ladder[k].rank, ladder[k].wins, ladder[k].losses)];
        }
      }
    }

    method Reject(id: nat, actor: nat) returns (refusal: Option<Failure>)
      modifies this`matches
      ensures Did(old(State()), Handle(old(State()), Request.Reject(id, actor)), refusal)
    {
      if id >= |matches| {
        return Some(MatchNotFound);
      }
      var m := matches[id];
      if !m.status.Reported? {
        return Some(MatchNotReported);
      }
      if m.challenger != actor && m.defender != actor {
        return Some(ParticipantOnly);
      }
      if m.reportedBy == Some(actor) {
        return Some(RejectOtherSide);
      }
      matches := matches[id := m.(status := Issued, challengerScore := None, defenderScore := None,
          reportedBy := None)];
      return None;
    }
  }

  /** Row `i` once the first `k` ladder entries have been written back. */
  function WrittenUpTo(rows: seq<Entry>, ladder: seq<Entry>, k: nat, i: nat): Entry
    requires i < |rows|
  {
    var place := Find(ladder, rows[i].player);
    if place.Some? && place.value < k then Rewritten(rows, ladder)[i] else rows[i]
  }

  lemma {:induction false} JoinedPush(rows: seq<Entry>, players: seq<nat>, i: nat)
    requires i < |players|
    ensures var before := Joined(rows, players[..i]);
      Joined(rows, players[..i + 1]) ==
        if Find(before, players[i]).Some? then before else before + [Entry(players[i], MaxRank(before) + 1, 0, 0)]
  {
    assert players[..i + 1][..i] == players[..i];
  }

  lemma {:induction false} LastIsMax(rows: seq<Entry>, e: Entry)
    requires e.rank > MaxRank(rows)
    ensures MaxRank(rows + [e]) == e.rank
  {
    assert (rows + [e])[..|rows|] == rows;
  }
}
