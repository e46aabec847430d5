/** What score rows hold: who submitted what and when, and whose row counts. */
module ContestScores {
  import opened Common
  import opened Ledger
  import opened Contests
  import opened ContestInvariant
  import opened ContestRuns
  import opened ContestSettlement
  import opened ContestTheorems
  import opened ContestOutcomes
  import opened ContestMoney

  lemma {:induction false} PayOutKeepsRows(journal: Journal, id: nat, k: Contest, p: Preview, actor: ActorKind,
      env: Env)
    requires PayOut(journal, id, k, p, actor, env).Ok?
    ensures var k' := PayOut(journal, id, k, p, actor, env).value.contest;
      k'.scores == k.scores && k'.participants == k.participants && k'.terms == k.terms
  {
  }

  lemma {:induction false} SettlementKeepsRows(journal: Journal, id: nat, k: Contest, actor: ActorKind,
      expected: Option<Digest>, env: Env)
    requires ExecuteSettlement(journal, id, k, actor, expected, env).Ok?
    ensures var k' := ExecuteSettlement(journal, id, k, actor, expected, env).value.contest;
      k'.scores == k.scores && k'.participants == k.participants && k'.terms == k.terms
  {
    var settling := Transition(journal, id, k, Settling, actor, env).value;
    PayOutKeepsRows(journal, id, settling, Compute(journal, id, settling).value, actor, env);
  }

  lemma {:induction false} AdvanceKeepsRows(journal: Journal, id: nat, k: Contest, env: Env)
    requires (k.state.InProgress? || k.state.AwaitingSettlement?) && Advance(journal, id, k, env).Ok?
    ensures var k' := Advance(journal, id, k, env).value.1;
      k'.scores == k.scores && k'.participants == k.participants && k'.terms == k.terms
  {
    AdvanceOutcome(journal, id, k, env);
    if AllExpectedResults(k) && k.terms.policy.Auto? {
      SettlementKeepsRows(journal, id, k.(state := AwaitingSettlement), System, None, env);
    }
  }

  /** Two rows alike but for what superseded them. */
  predicate SameSubmission(a: ScoreRow, b: ScoreRow) {
    a.user == b.user && a.score == b.score && a.finished == b.finished && a.at == b.at
  }

  /** What a batch leaves: the rows before it still say the same, and each submission has a row of its own. */
  ghost predicate BatchStored(rows: seq<ScoreRow>, batch: seq<Submission>, at: int, after: seq<ScoreRow>) {
    && |after| == |rows| + |batch|
    && (forall j | 0 <= j < |rows| :: SameSubmission(after[j], rows[j]))
    && (forall i | 0 <= i < |batch| ::
          && after[|rows| + i].user == batch[i].user && after[|rows| + i].score == batch[i].score
          && after[|rows| + i].finished == batch[i].finished && after[|rows| + i].at == at
          && after[|rows| + i].supersededBy.None?)
  }

  /** No other row of a submitted user counts any more, and the rows of users not submitted for are untouched. */
  ghost predicate OnlyBatchCounts(rows: seq<ScoreRow>, batch: seq<Submission>, after: seq<ScoreRow>)
    requires |after| == |rows| + |batch|
  {
    && (forall i, j | 0 <= i < |batch| && 0 <= j < |after| && j != |rows| + i && after[j].user == batch[i].user ::
          after[j].supersededBy.Some?)
    && (forall j | 0 <= j < |rows| && (forall i | 0 <= i < |batch| :: batch[i].user != rows[j].user) ::
          after[j] == rows[j])
  }

  lemma {:induction false} BatchIsStored(rows: seq<ScoreRow>, batch: seq<Submission>, at: int)
    ensures BatchStored(rows, batch, at, WithScores(rows, batch, at))
  {
  }

  /** No other row of a submitted user counts any more. */
  lemma {:induction false} OnlyLastCounts(rows: seq<ScoreRow>, batch: seq<Submission>, at: int, i: nat, j: nat)
    requires DistinctSubmitters(batch) && i < |batch| && j < |rows| + |batch| && j != |rows| + i
    ensures var after := WithScores(rows, batch, at);
      after[j].user == batch[i].user ==> after[j].supersededBy.Some?
  {
  }

  /** A user nobody submitted for keeps their rows as they were. */
  lemma {:induction false} OthersKeepRows(rows: seq<ScoreRow>, batch: seq<Submission>, at: int, j: nat)
    requires j < |rows| && forall i | 0 <= i < |batch| :: batch[i].user != rows[j].user
    ensures WithScores(rows, batch, at)[j] == rows[j]
  {
  }

  lemma {:induction false} ScoresCommit(db: Db, cmd: Command)
    requires DbInv(db) && Succeeds(db, cmd) && cmd.request.SubmitScores?
    ensures var id := cmd.request.contest; var after := Committed(db, cmd);
      && id in db.contests && id in after.contests && DistinctSubmitters(cmd.request.batch)
      && after.contests[id].scores == WithScores(db.contests[id].scores, cmd.request.batch, cmd.env.at)
  {
    ScoresShape(db, cmd);
    var k := db.contests[cmd.request.contest];
    AdvanceKeepsRows(db.journal, cmd.request.contest, Scored(k, cmd.request.batch, cmd.env.at), cmd.env);
  }

  lemma {:induction false} ScoresReply(db: Db, cmd: Command)
    requires Succeeds(db, cmd) && cmd.request.SubmitScores?
    ensures var id := cmd.request.contest; var record := Run(db, cmd).value.1;
      && id in db.contests && record.ScoresRecord? && record.contest == id && |record.rows| == |cmd.request.batch|
      && (forall i | 0 <= i < |record.rows| :: record.rows[i] == |db.contests[id].scores| + i)
      && id in Committed(db, cmd).contests && (record.settled <==> Committed(db, cmd).contests[id].state.Settled?)
  {
  }

  /**
   * Scores that are accepted are kept: the row the reply names for a submission holds its
   * user, score, finished flag and the request's time, and is the only row of that user
   * that counts; every earlier row still says what it said, and nobody else's changes.
   */
  lemma {:induction false} ScoresKept(run: seq<Action>, cmd: Command)
    requires cmd.request.SubmitScores? && Step(Reached(run), cmd).1.Done?
    ensures var id, batch := cmd.request.contest, cmd.request.batch;
      var (after, reply) := Step(Reached(run), cmd);
      && id in Reached(run).contests && id in after.contests
      && reply.record.ScoresRecord? && reply.record.contest == id && |reply.record.rows| == |batch|
      && (reply.record.settled <==> after.contests[id].state.Settled?)
      && var before := Reached(run).contests[id].scores; var rows := after.contests[id].scores;
      && BatchStored(before, batch, cmd.env.at, rows) && OnlyBatchCounts(before, batch, rows)
      && (forall i | 0 <= i < |batch| :: reply.record.rows[i] == |before| + i)
  {
    ReachedInv(run);
    var db, id, batch := Reached(run), cmd.request.contest, cmd.request.batch;
    StepCases(db, cmd);
    ScoresCommit(db, cmd);
    ScoresReply(db, cmd);
    var before := db.contests[id].scores;
    StoredRows(before, batch, cmd.env.at);
  }

  lemma {:induction false} StoredRows(before: seq<ScoreRow>, batch: seq<Submission>, at: int)
    requires DistinctSubmitters(batch)
    ensures var rows := WithScores(before, batch, at);
      BatchStored(before, batch, at, rows) && OnlyBatchCounts(before, batch, rows)
  {
    var rows := WithScores(before, batch, at);
    BatchIsStored(before, batch, at);
    forall i, j | 0 <= i < |batch| && 0 <= j < |rows| && j != |before| + i && rows[j].user == batch[i].user
      ensures rows[j].supersededBy.Some?
    {
      OnlyLastCounts(before, batch, at, i, j);
    }
    forall j | 0 <= j < |before| && (forall i | 0 <= i < |batch| :: batch[i].user != before[j].user)
      ensures rows[j] == before[j]
    {
      OthersKeepRows(before, batch, at, j);
    }
  }

  // ---- When scores are accepted ------------------------------------------------------

  /** Everyone scored is in the contest. */
  ghost predicate AllEntered(ps: seq<Participant>, batch: seq<Submission>) {
    forall i | 0 <= i < |batch| ::
      exists n :: 0 <= n < |ps| && ps[n].user == batch[i].user && ps[n].state == Entered
  }

  lemma {:induction false} ScoredMeans(ps: seq<Participant>, batch: seq<Submission>)
    requires forall m, n | 0 <= m < n < |ps| :: ps[m].user != ps[n].user
    ensures CheckScored(ps, batch) == None <==> AllEntered(ps, batch)
  {
    if batch != [] {
      ScoredMeans(ps, batch[1..]);
      FirstEntered(ps, batch[0].user);
      if AllEntered(ps, batch) {
        forall i | 0 <= i < |batch[1..]|
          ensures exists n :: 0 <= n < |ps| && ps[n].user == batch[1..][i].user && ps[n].state == Entered
        {
          assert batch[1..][i] == batch[i + 1];
        }
      } else if AllEntered(ps, batch[1..]) {
        forall i | 0 < i < |batch|
          ensures exists n :: 0 <= n < |ps| && ps[n].user == batch[i].user && ps[n].state == Entered
        {
          assert batch[1..][i - 1] == batch[i];
        }
      }
    }
  }

  lemma {:induction false} FirstEntered(ps: seq<Participant>, user: nat)
    requires forall m, n | 0 <= m < n < |ps| :: ps[m].user != ps[n].user
    ensures (exists n :: 0 <= n < |ps| && ps[n].user == user && ps[n].state == Entered) <==>
      FindParticipant(ps, user).Some? && ps[FindParticipant(ps, user).value].state.Entered?
  {
  }

  /** A counting row of this user is finished. */
  ghost predicate Finished(rows: seq<ScoreRow>, user: nat) {
    exists n :: 0 <= n < |rows| && rows[n].user == user && rows[n].supersededBy == None && rows[n].finished
  }

  lemma {:induction false} FinishedMeans(rows: seq<ScoreRow>, batch: seq<Submission>)
    ensures FinishedAlready(rows, batch) <==> exists i :: 0 <= i < |batch| && Finished(rows, batch[i].user)
  {
    if i :| 0 <= i < |batch| && Finished(rows, batch[i].user) {
      var n :| 0 <= n < |rows| && rows[n].user == batch[i].user && rows[n].supersededBy == None && rows[n].finished;
      assert SubmissionOf(batch, rows[n].user).Some?;
    }
    if FinishedAlready(rows, batch) {
      var n :| 0 <= n < |rows| && rows[n].supersededBy.None? && rows[n].finished
        && SubmissionOf(batch, rows[n].user).Some?;
      assert Finished(rows, batch[SubmissionOf(batch, rows[n].user).value].user);
    }
  }

  /** With this batch in, everyone entered has a finished result. */
  ghost predicate Completed(k: Contest, batch: seq<Submission>) {
    forall n | 0 <= n < |k.participants| && k.participants[n].state == Entered ::
      || Finished(k.scores, k.participants[n].user)
      || exists i :: 0 <= i < |batch| && batch[i].user == k.participants[n].user && batch[i].finished
  }

  /** A user's finished result after a batch is the batch's, or an earlier one the batch does not replace. */
  lemma {:induction false} FinishedAfter(rows: seq<ScoreRow>, batch: seq<Submission>, at: int, user: nat)
    requires DistinctSubmitters(batch) && !FinishedAlready(rows, batch)
    ensures HasFinished(WithScores(rows, batch, at), user) <==>
      Finished(rows, user) || exists i :: 0 <= i < |batch| && batch[i].user == user && batch[i].finished
  {
    var after := WithScores(rows, batch, at);
    FinishedMeans(rows, batch);
    if n :| 0 <= n < |after| && after[n].user == user && after[n].supersededBy.None? && after[n].finished {
      if n >= |rows| {
        assert batch[n - |rows|].user == user && batch[n - |rows|].finished;
      } else {
        assert rows[n].user == user && rows[n].finished;
      }
    }
    if i :| 0 <= i < |batch| && batch[i].user == user && batch[i].finished {
      assert after[|rows| + i].user == user && after[|rows| + i].finished;
    }
    if Finished(rows, user) {
      var n :| 0 <= n < |rows| && rows[n].user == user && rows[n].supersededBy == None && rows[n].finished;
      assert after[n] == rows[n];
    }
  }

  lemma {:induction false} CompletedMeans(k: Contest, batch: seq<Submission>, at: int)
    requires DistinctSubmitters(batch) && !FinishedAlready(k.scores, batch)
    ensures AllExpectedResults(Scored(k, batch, at)) <==> Completed(k, batch)
  {
    forall n | 0 <= n < |k.participants| && k.participants[n].state == Entered
      ensures HasFinished(Scored(k, batch, at).scores, k.participants[n].user) <==>
        || Finished(k.scores, k.participants[n].user)
        || exists i :: 0 <= i < |batch| && batch[i].user == k.participants[n].user && batch[i].finished
    {
      FinishedAfter(k.scores, batch, at, k.participants[n].user);
    }
  }

  /** What settling now would pay out fits in one ledger amount. */
  ghost predicate PoolFits(k: Contest) {
    var gross := |Playing(k.participants)| * k.terms.entryAmount;
    gross - gross * k.terms.rakeBps / 10_000 <= 9_223_372_036_854_775_807
  }

  /** Everything a batch needs to be accepted. */
  ghost predicate MayScore(k: Contest, batch: seq<Submission>) {
    && 1 <= |batch| <= 1000
    && (forall i, j | 0 <= i < j < |batch| :: batch[i].user != batch[j].user)
    && (k.state == InProgress || k.state == AwaitingSettlement)
    && AllEntered(k.participants, batch)
    && (forall i | 0 <= i < |batch| :: !Finished(k.scores, batch[i].user))
    && (Completed(k, batch) && k.terms.policy == Auto ==> PoolFits(k))
  }

  lemma {:induction false} AdvanceGoes(db: Db, id: nat, k: Contest, batch: seq<Submission>, env: Env)
    requires DbInv(db) && id in db.contests && db.contests[id] == k && Scorable(k, batch)
    ensures Advance(db.journal, id, Scored(k, batch, env.at), env).Ok? <==>
      (Completed(k, batch) && k.terms.policy == Auto ==> PoolFits(k))
    ensures Advance(db.journal, id, Scored(k, batch, env.at), env).Ok? ==>
      Advance(db.journal, id, Scored(k, batch, env.at), env).value.1.state ==
        if !Completed(k, batch) then k.state else if k.terms.policy == Auto then Settled else AwaitingSettlement
  {
    CompletedMeans(k, batch, env.at);
    AdvanceOutcome(db.journal, id, Scored(k, batch, env.at), env);
    if Completed(k, batch) && k.terms.policy == Auto {
      AutoSettles(db, id, k, batch, env);
    }
  }

  lemma {:induction false} AutoSettles(db: Db, id: nat, k: Contest, batch: seq<Submission>, env: Env)
    requires DbInv(db) && id in db.contests && db.contests[id] == k && Scorable(k, batch) && k.terms.policy == Auto
    ensures var settled := ExecuteSettlement(db.journal, id, Scored(k, batch, env.at).(state := AwaitingSettlement),
      System, None, env);
      (settled.Ok? <==> PoolFits(k)) && (settled.Ok? ==> settled.value.contest.state == Settled)
  {
    var waiting := Scored(k, batch, env.at).(state := AwaitingSettlement);
    ScoredReady(db, id, k, batch, env.at);
    SettlementOutcome(db.journal, id, waiting, System, None, env);
    CloseAllowed(waiting, System);
    ReckonedAmounts(waiting);
  }

  lemma {:induction false} ScoresRun(db: Db, cmd: Command)
    requires cmd.request.SubmitScores? && (cmd.tenant, cmd.key) !in db.keys
    ensures Step(db, cmd).1.Done? <==>
      CheckBatch(cmd.request.batch) == None && RunScores(db, cmd.tenant, cmd.request, cmd.env).Ok?
  {
  }

  lemma {:induction false} ScoresPass(db: Db, cmd: Command, k: Contest)
    requires cmd.request.SubmitScores? && Own(db, cmd, cmd.request.contest) && db.contests[cmd.request.contest] == k
    requires CheckBatch(cmd.request.batch) == None
    ensures RunScores(db, cmd.tenant, cmd.request, cmd.env).Ok? <==>
      && Scorable(k, cmd.request.batch) && CheckScored(k.participants, cmd.request.batch) == None
      && Advance(db.journal, cmd.request.contest, Scored(k, cmd.request.batch, cmd.env.at), cmd.env).Ok?
  {
  }

  /**
   * In every reachable state scores under a new key are accepted exactly when the contest
   * is the caller's, being played or waiting, everyone scored is in it and has not finished
   * already, and any settlement they set off fits in one ledger amount. Completing scores
   * settle an automatic contest and leave any other waiting; others leave its state alone.
   */
  lemma {:induction false} ScoresAccepted(run: seq<Action>, cmd: Command)
    requires cmd.request.SubmitScores? && (cmd.tenant, cmd.key) !in Reached(run).keys
    ensures var db, id, batch := Reached(run), cmd.request.contest, cmd.request.batch;
      var (after, reply) := Step(db, cmd);
      && (reply.Done? <==> Own(db, cmd, id) && MayScore(db.contests[id], batch))
      && (if !reply.Done? then after.contests == db.contests && after.journal == db.journal
          else
            && id in after.contests
            && after.contests[id].state ==
                 if !Completed(db.contests[id], batch) then db.contests[id].state
                 else if db.contests[id].terms.policy == Auto then Settled else AwaitingSettlement)
  {
    ReachedInv(run);
    var db, id := Reached(run), cmd.request.contest;
    OtherwiseNothing(db, cmd);
    ScoresRun(db, cmd);
    if Own(db, cmd, id) && CheckBatch(cmd.request.batch) == None {
      ScoresAcceptedIn(db, cmd, db.contests[id]);
      if Step(db, cmd).1.Done? {
        ScoresLeave(db, cmd, db.contests[id]);
      }
    }
  }

  lemma {:induction false} ScoresAcceptedIn(db: Db, cmd: Command, k: Contest)
    requires DbInv(db) && cmd.request.SubmitScores? && (cmd.tenant, cmd.key) !in db.keys
    requires Own(db, cmd, cmd.request.contest) && db.contests[cmd.request.contest] == k
    requires CheckBatch(cmd.request.batch) == None
    ensures Step(db, cmd).1.Done? <==> MayScore(k, cmd.request.batch)
  {
    var id, batch := cmd.request.contest, cmd.request.batch;
    assert Roster(k) by {
      assert ContestInv(db.journal, id, k);
    }
    ScoresRun(db, cmd);
    ScoresPass(db, cmd, k);
    ScoredMeans(k.participants, batch);
    FinishedMeans(k.scores, batch);
    if Scorable(k, batch) {
      AdvanceGoes(db, id, k, batch, cmd.env);
    }
  }

  lemma {:induction false} ScoresLeave(db: Db, cmd: Command, k: Contest)
    requires DbInv(db) && cmd.request.SubmitScores? && Step(db, cmd).1.Done?
    requires Own(db, cmd, cmd.request.contest) && db.contests[cmd.request.contest] == k
    ensures var after, id := Step(db, cmd).0, cmd.request.contest;
      && id in after.contests
      && after.contests[id].state ==
           if !Completed(k, cmd.request.batch) then k.state
           else if k.terms.policy == Auto then Settled else AwaitingSettlement
  {
    StepCases(db, cmd);
    ScoresShape(db, cmd);
    AdvanceGoes(db, cmd.request.contest, k, cmd.request.batch, cmd.env);
  }
}
