/** Which contests may be created, how a draft may be edited, and what each leaves. */
module ContestDefinition {
  import opened Common
  import opened Contests
  import opened ContestRuns
  import opened ContestTheorems
  import opened ContestOutcomes
  import S = Settlement

  // ---- What the schema asks for ------------------------------------------------------

  /** No row pays more than the one before it. */
  ghost predicate Descends(rows: seq<nat>) {
    forall i | 0 < i < |rows| :: rows[i] <= rows[i - 1]
  }

  ghost predicate GoodPercentages(rows: seq<nat>) {
    1 <= |rows| <= 1000 && (forall i | 0 <= i < |rows| :: rows[i] <= 100) && Sum(rows) == 100 && Descends(rows)
  }

  ghost predicate GoodAmounts(rows: seq<nat>) {
    1 <= |rows| <= 1000 && (forall i | 0 <= i < |rows| :: rows[i] <= 9_223_372_036_854_775_807) && Descends(rows)
  }

  ghost predicate GoodPrize(p: S.PrizeStructure) {
    && (p.participationFloor.None? || p.participationFloor.value <= 9_223_372_036_854_775_807)
    && match p.shape
       case WinnerTakeAll => true
       case PlacementTable(rows, percentages) =>
         if percentages then GoodPercentages(rows) else GoodAmounts(rows) && exists i :: 0 <= i < |rows| && rows[i] > 0
       case PercentageSplit(percentages) => GoodPercentages(percentages)
       case TopNEqual(n) => 1 <= n <= 1000
       case GuaranteedMinimum(minimums, rest) => GoodAmounts(minimums) && GoodPercentages(rest)
  }

  ghost predicate GoodTerms(t: Terms) {
    && 0 < t.entryAmount <= 9_223_372_036_854_775_807
    && (t.maxParticipants.None? || 1 <= t.maxParticipants.value <= 1_000_000)
    && GoodPrize(t.prize)
    && 0 <= t.rakeBps <= 5000
    && (t.opensAt.None? || t.locksAt.None? || t.opensAt.value < t.locksAt.value)
  }

  lemma {:induction false} DescendsTo(rows: seq<nat>, i: nat, j: nat)
    requires Descends(rows) && i <= j < |rows|
    ensures rows[i] >= rows[j]
  {
    if i < j {
      DescendsTo(rows, i, j - 1);
    }
  }

  lemma {:induction false} DescendsMeans(rows: seq<nat>)
    ensures Descends(rows) <==> S.NonIncreasing(rows)
  {
    if Descends(rows) {
      forall i, j | 0 <= i < j < |rows| ensures rows[i] >= rows[j] {
        DescendsTo(rows, i, j);
      }
    }
  }

  /** A list that descends pays anything exactly when its first row does. */
  lemma {:induction false} FirstPays(rows: seq<nat>)
    requires Descends(rows) && rows != []
    ensures rows[0] > 0 <==> exists i :: 0 <= i < |rows| && rows[i] > 0
  {
    if i :| 0 <= i < |rows| && rows[i] > 0 {
      DescendsTo(rows, 0, i);
    }
  }

  lemma {:induction false} BoundMeans(rows: seq<nat>, most: nat)
    ensures (forall i | 0 <= i < |rows| :: rows[i] <= most) <==> forall row | row in rows :: row <= most
  {
    if forall row | row in rows :: row <= most {
      forall i | 0 <= i < |rows| ensures rows[i] <= most {
        assert rows[i] in rows;
      }
    }
  }

  lemma {:induction false} PercentagesMean(rows: seq<nat>)
    ensures GoodPercentages(rows) <==> S.Percentages(rows)
    ensures GoodPercentages(rows) ==> rows[0] > 0
  {
    DescendsMeans(rows);
    BoundMeans(rows, 100);
    if GoodPercentages(rows) && rows[0] == 0 {
      forall i | 0 <= i < |rows| ensures rows[i] == 0 {
        DescendsTo(rows, 0, i);
      }
      SumConstant(rows, 0);
    }
  }

  lemma {:induction false} AmountsMean(rows: seq<nat>)
    ensures GoodAmounts(rows) <==>
      1 <= |rows| <= 1000 && S.NonIncreasing(rows) && forall row | row in rows :: row <= MAX_AMOUNT
  {
    DescendsMeans(rows);
    BoundMeans(rows, MAX_AMOUNT);
  }

  lemma {:induction false} TableMeans(rows: seq<nat>, percentages: bool)
    ensures S.ValidShape(S.PlacementTable(rows, percentages)) <==>
      if percentages then GoodPercentages(rows) else GoodAmounts(rows) && exists i :: 0 <= i < |rows| && rows[i] > 0
  {
    if percentages {
      PercentagesMean(rows);
    } else {
      AmountsMean(rows);
      if Descends(rows) && rows != [] {
        FirstPays(rows);
      }
    }
  }

  lemma {:induction false} PrizeMeans(p: S.PrizeStructure)
    ensures S.ValidStructure(p) <==> GoodPrize(p)
  {
    match p.shape
    case PlacementTable(rows, percentages) => TableMeans(rows, percentages);
    case PercentageSplit(percentages) => PercentagesMean(percentages);
    case GuaranteedMinimum(minimums, rest) =>
      PercentagesMean(rest);
      AmountsMean(minimums);
    case _ =>
  }

  lemma {:induction false} TermsMean(t: Terms)
    ensures CheckTerms(t) == None <==> GoodTerms(t)
  {
    PrizeMeans(t.prize);
  }

  // ---- Creating ----------------------------------------------------------------------

  lemma {:induction false} CreateRuns(db: Db, cmd: Command)
    requires cmd.request.Create? && (cmd.tenant, cmd.key) !in db.keys
    ensures Step(db, cmd).1.Done? <==>
      CheckTerms(cmd.request.terms) == None && RunCreate(db, cmd.tenant, cmd.request, cmd.env).Ok?
    ensures Step(db, cmd).1.Done? ==>
      var (after, record) := RunCreate(db, cmd.tenant, cmd.request, cmd.env).value;
      Step(db, cmd) == (Keyed(after, cmd, record), Done(record))
  {
  }

  /**
   * A contest is created under a new key exactly when its terms are ones the schema takes,
   * the tenant has no other contest of that external id and the stake is within the
   * rules' limit. It starts as an empty draft with those very terms.
   */
  lemma {:induction false} CreateAccepted(db: Db, cmd: Command)
    requires cmd.request.Create? && (cmd.tenant, cmd.key) !in db.keys && cmd.env.freshId !in db.contests
    ensures var r := cmd.request; var (after, reply) := Step(db, cmd);
      && (reply.Done? <==>
            && GoodTerms(r.terms)
            && (forall id | id in db.contests && db.contests[id].tenant == cmd.tenant ::
                  db.contests[id].externalId != r.externalId)
            && (cmd.env.ruleset.perContest.None? || r.terms.entryAmount <= cmd.env.ruleset.perContest.value))
      && after.journal == db.journal
      && (reply.Done? ==> reply.record == ContestRecord(cmd.env.freshId))
      && after.contests == if !reply.Done? then db.contests else
           db.contests[cmd.env.freshId := Contest(cmd.tenant, r.externalId, r.asset, r.terms, Draft, None, [], [], [])]
  {
    OtherwiseNothing(db, cmd);
    CreateRuns(db, cmd);
    TermsMean(cmd.request.terms);
  }

  // ---- Editing -----------------------------------------------------------------------

  /** Each field is the patch's where the patch has it, and as it was where it has not. */
  predicate Merged(t: Terms, p: Patch, m: Terms) {
    && m.entryAmount == (match p.entryAmount case None => t.entryAmount case Some(v) => v)
    && m.maxParticipants == (match p.maxParticipants case None => t.maxParticipants case Some(v) => v)
    && m.prize == (match p.prize case None => t.prize case Some(v) => v)
    && m.tieBreak == (match p.tieBreak case None => t.tieBreak case Some(v) => v)
    && m.policy == (match p.policy case None => t.policy case Some(v) => v)
    && m.rakeBps == (match p.rakeBps case None => t.rakeBps case Some(v) => v)
    && m.opensAt == (match p.opensAt case None => t.opensAt case Some(v) => v)
    && m.locksAt == (match p.locksAt case None => t.locksAt case Some(v) => v)
  }

  /** The patch says something. */
  predicate Says(p: Patch) {
    p.entryAmount.Some? || p.maxParticipants.Some? || p.prize.Some? || p.tieBreak.Some?
    || p.policy.Some? || p.rakeBps.Some? || p.opensAt.Some? || p.locksAt.Some?
  }

  lemma {:induction false} PatchMerges(t: Terms, p: Patch, m: Terms)
    requires Merged(t, p, m)
    ensures Patched(t, p) == m
    ensures Says(p) <==> p != Patch(None, None, None, None, None, None, None, None)
  {
  }

  /** What a patch leaves of good terms is good when its own fields are and the lock still follows the opening. */
  lemma {:induction false} PatchMeans(t: Terms, p: Patch, m: Terms)
    requires GoodTerms(t) && Merged(t, p, m)
    ensures CheckPatch(p) == None && LockAfterOpen(m.opensAt, m.locksAt) <==> Says(p) && GoodTerms(m)
  {
    PatchMerges(t, p, m);
    PrizeMeans(m.prize);
  }

  lemma {:induction false} UpdateRuns(db: Db, cmd: Command)
    requires cmd.request.Update? && (cmd.tenant, cmd.key) !in db.keys
    ensures Step(db, cmd).1.Done? <==>
      CheckPatch(cmd.request.patch) == None && RunUpdate(db, cmd.tenant, cmd.request).Ok?
    ensures Step(db, cmd).1.Done? ==>
      var (after, record) := RunUpdate(db, cmd.tenant, cmd.request).value;
      Step(db, cmd) == (Keyed(after, cmd, record), Done(record))
  {
  }

  /**
   * In every reachable state an edit under a new key succeeds exactly when the contest is
   * the caller's and a draft, the patch says something and the terms it leaves are ones the
   * schema takes; and it leaves exactly those terms.
   */
  lemma {:induction false} UpdateAccepted(run: seq<Action>, cmd: Command, merged: Terms)
    requires cmd.request.Update? && (cmd.tenant, cmd.key) !in Reached(run).keys
    requires cmd.request.contest in Reached(run).contests ==>
      Merged(Reached(run).contests[cmd.request.contest].terms, cmd.request.patch, merged)
    ensures var db, id := Reached(run), cmd.request.contest; var (after, reply) := Step(db, cmd);
      && (reply.Done? <==>
            Own(db, cmd, id) && db.contests[id].state == Draft && Says(cmd.request.patch) && GoodTerms(merged))
      && after.journal == db.journal
      && after.contests == if reply.Done? then db.contests[id := db.contests[id].(terms := merged)] else db.contests
  {
    var db, id := Reached(run), cmd.request.contest;
    OtherwiseNothing(db, cmd);
    UpdateRuns(db, cmd);
    if Own(db, cmd, id) {
      ReachedContest(run, id);
      TermsMean(db.contests[id].terms);
      PatchMerges(db.contests[id].terms, cmd.request.patch, merged);
      PatchMeans(db.contests[id].terms, cmd.request.patch, merged);
    }
  }
}
