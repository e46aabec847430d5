/** When the ledger takes an entry, and what each kind of posting does to every account. */
module LedgerOutcomes {
  import opened Common
  import opened Ledger

  /** A debit counts for, a credit against. */
  function Weigh(lines: seq<Line>): (weights: seq<int>)
    ensures |weights| == |lines|
  {
    seq(|lines|, i requires 0 <= i < |lines| => if lines[i].side == Debit then lines[i].amount else -lines[i].amount)
  }

  lemma {:induction false} SidesMean(lines: seq<Line>)
    ensures SideTotal(lines, Debit) - SideTotal(lines, Credit) == Sum(Weigh(lines))
  {
    if lines != [] {
      SidesMean(lines[..|lines| - 1]);
      assert Weigh(lines)[..|lines| - 1] == Weigh(lines[..|lines| - 1]);
    }
  }

  /** At least two lines, each of a positive 64-bit amount, all in one asset, debits and credits even. */
  ghost predicate GoodLines(lines: seq<Line>) {
    && |lines| >= 2
    && (forall i | 0 <= i < |lines| :: 0 < lines[i].amount <= 9_223_372_036_854_775_807)
    && (forall i, j | 0 <= i < |lines| && 0 <= j < |lines| :: lines[i].account.asset == lines[j].account.asset)
    && Sum(Weigh(lines)) == 0
  }

  lemma {:induction false} LinesMean(lines: seq<Line>)
    ensures ValidateLines(lines) == None <==> GoodLines(lines)
  {
    SidesMean(lines);
  }

  /** The first rule lines break, in the order they are checked: enough of them, amounts, one asset, even sides. */
  lemma {:induction false} RefusedFor(lines: seq<Line>, bad: nat)
    requires |lines| >= 2 ==>
      bad <= |lines| && (forall i | 0 <= i < bad :: 0 < lines[i].amount <= 9_223_372_036_854_775_807)
      && (bad < |lines| ==> !(0 < lines[bad].amount <= 9_223_372_036_854_775_807))
    ensures ValidateLines(lines) ==
      if |lines| < 2 then Some(TooFewLines)
      else if bad < |lines| then Some(if lines[bad].amount <= 0 then NonPositiveAmount else AmountTooLarge)
      else if exists i :: 0 <= i < |lines| && lines[i].account.asset != lines[0].account.asset then Some(MixedAssets)
      else if Sum(Weigh(lines)) != 0 then Some(Unbalanced)
      else None
  {
    SidesMean(lines);
    if |lines| >= 2 {
      FirstFault(lines, bad);
    }
  }

  lemma {:induction false} FirstFault(lines: seq<Line>, bad: nat)
    requires bad <= |lines| && forall i | 0 <= i < bad :: 0 < lines[i].amount <= MAX_AMOUNT
    requires bad < |lines| ==> !(0 < lines[bad].amount <= MAX_AMOUNT)
    ensures AmountFault(lines) == if bad == |lines| then None
      else Some(if lines[bad].amount <= 0 then NonPositiveAmount else AmountTooLarge)
  {
    if lines != [] && bad > 0 {
      FirstFault(lines[1..], bad - 1);
    }
  }

  /** The same lines with every side turned round. */
  ghost predicate TurnedRound(lines: seq<Line>, back: seq<Line>) {
    |back| == |lines| && forall i | 0 <= i < |lines| ::
      && back[i].account == lines[i].account && back[i].amount == lines[i].amount
      && back[i].side != lines[i].side
  }

  /**
   * A reversal names an entry of the tenant's, made for the same contest and not reversed
   * before, and carries its lines turned round, in any order.
   */
  ghost predicate GoodReversal(journal: Journal, post: Post, back: seq<Line>) {
    post.reverses.Some? ==>
      var entry := post.reverses.value;
      && entry < |journal| && journal[entry].post.tenant == post.tenant && journal[entry].post.contest == post.contest
      && (forall i | 0 <= i < |journal| :: journal[i].post.reverses != Some(entry))
      && TurnedRound(journal[entry].post.lines, back) && multiset(post.lines) == multiset(back)
  }

  lemma {:induction false} MirrorTurnsRound(lines: seq<Line>, back: seq<Line>)
    ensures TurnedRound(lines, Mirror(lines))
    ensures TurnedRound(lines, back) ==> back == Mirror(lines)
  {
  }

  lemma {:induction false} ReversalMeans(journal: Journal, post: Post)
    ensures CheckReversal(journal, post) == None <==> exists back :: GoodReversal(journal, post, back)
  {
    if post.reverses.Some? && post.reverses.value < |journal| {
      var lines := journal[post.reverses.value].post.lines;
      MirrorTurnsRound(lines, []);
      if CheckReversal(journal, post) == None {
        assert GoodReversal(journal, post, Mirror(lines));
      }
      if back :| GoodReversal(journal, post, back) {
        MirrorTurnsRound(lines, back);
      }
    } else if post.reverses.None? {
      assert GoodReversal(journal, post, []);
    }
  }

  /** No wallet and no escrow the entry takes from is left below zero. */
  ghost predicate Covered(journal: Journal, lines: seq<Line>) {
    forall i | 0 <= i < |lines| && (lines[i].account.Wallet? || lines[i].account.Escrow?) ::
      Delta(lines, lines[i].account) >= 0 || Balance(journal, lines[i].account) + Delta(lines, lines[i].account) >= 0
  }

  lemma {:induction false} CoveredMeans(journal: Journal, lines: seq<Line>)
    ensures Covered(journal, lines) <==> !Overdraws(journal, lines)
  {
  }

  /**
   * Under a new key an entry is taken exactly when its lines are good, its reversal if it is
   * one, its accounts all the tenant's, and nothing is overdrawn; and it is then the one
   * entry added. Under a used key it is the entry already there or refused, and nothing is
   * added.
   */
  lemma {:induction false} PostAccepted(journal: Journal, post: Post, at: int)
    requires forall i | 0 <= i < |journal| ::
      !(journal[i].post.tenant == post.tenant && journal[i].post.key == post.key)
    ensures TryPost(journal, post, at).Ok? <==>
      && GoodLines(post.lines) && (exists back :: GoodReversal(journal, post, back))
      && (forall i | 0 <= i < |post.lines| :: post.lines[i].account.tenant == post.tenant)
      && Covered(journal, post.lines)
    ensures TryPost(journal, post, at).Ok? ==>
      TryPost(journal, post, at).value == Posted(journal + [Entry(post, at)], |journal|, false)
  {
    LinesMean(post.lines);
    ReversalMeans(journal, post);
    CoveredMeans(journal, post.lines);
  }

  lemma {:induction false} PostRepeated(journal: Journal, post: Post, at: int, i: nat)
    requires KeysOnce(journal) && i < |journal| && GoodLines(post.lines)
    requires journal[i].post.tenant == post.tenant && journal[i].post.key == post.key
    ensures TryPost(journal, post, at) ==
      if journal[i].post == post then Ok(Posted(journal, i, true)) else Err(KeyConflict)
  {
    LinesMean(post.lines);
    var found := FindKey(journal, post.tenant, post.key);
    assert found == Some(i);
  }

  /** What each line does to an account: credits add to it, or debits where it stands for what is held outside. */
  function Effects(lines: seq<Line>, account: Account): (effects: seq<int>)
    ensures |effects| == |lines|
  {
    seq(|lines|, i requires 0 <= i < |lines| =>
      if lines[i].account != account then 0
      else if (lines[i].side == Debit) == account.ExternalSettlement? then lines[i].amount
      else -lines[i].amount)
  }

  lemma {:induction false} DeltaIsSum(lines: seq<Line>, account: Account)
    ensures Delta(lines, account) == Sum(Effects(lines, account))
  {
    if lines != [] {
      DeltaIsSum(lines[..|lines| - 1], account);
      assert Effects(lines, account)[..|lines| - 1] == Effects(lines[..|lines| - 1], account);
    }
  }

  /** What each entry does to an account, all its lines together. */
  function EntryEffects(journal: Journal, account: Account): (effects: seq<int>)
    ensures |effects| == |journal|
  {
    seq(|journal|, i requires 0 <= i < |journal| => Sum(Effects(journal[i].post.lines, account)))
  }

  /** A balance is nothing but the sum of what every line of every entry does to the account. */
  lemma {:induction false} BalanceIsSum(journal: Journal, account: Account)
    ensures Balance(journal, account) == Sum(EntryEffects(journal, account))
  {
    if journal != [] {
      var last := |journal| - 1;
      BalanceIsSum(journal[..last], account);
      DeltaIsSum(journal[last].post.lines, account);
      assert EntryEffects(journal, account)[..last] == EntryEffects(journal[..last], account);
    }
  }
}
