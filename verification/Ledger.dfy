/**
 * The double-entry journal (apps/purse/src/ledger/post.ts, validate.ts, balance.ts): an
 * append-only list of balanced entries, balances derived by summing lines, and one way in.
 */
module Ledger {
  import opened Common

  datatype Asset = POINTS | CREDIT

  datatype Side = Debit | Credit

  /** An account is named by its natural key: what it is, whose it is, what it holds. */
  datatype Account =
    | Wallet(tenant: nat, asset: Asset, user: nat)
    | Escrow(tenant: nat, asset: Asset, contest: nat)
    | PlatformFee(tenant: nat, asset: Asset)
    | PromoLiability(tenant: nat, asset: Asset)
    | ExternalSettlement(tenant: nat, asset: Asset)

  datatype Line = Line(account: Account, side: Side, amount: int)

  datatype EntryKind =
    | IssueEntry | DepositEntry | WithdrawalEntry | EscrowEntry | RefundEntry | FeeEntry | SettleEntry | VoidEntry

  /** Ledger idempotency keys: each contest flow derives its own from the request or the contest. */
  datatype LedgerKey =
    | EntryKey(request: nat)
    | WithdrawKey(request: nat)
    | RakeKey(contest: nat)
    | SettleKey(contest: nat)
    | VoidKey(contest: nat, participant: nat)
    | OutsideKey(id: nat)

  /** What a caller asks to post, and what makes it the same request when asked again. */
  datatype Post = Post(
    tenant: nat,
    kind: EntryKind,
    key: LedgerKey,
    contest: Option<nat>,
    reverses: Option<nat>,
    lines: seq<Line>)

  datatype Entry = Entry(post: Post, postedAt: int)

  type Journal = seq<Entry>

  datatype LedgerError =
    | TooFewLines | NonPositiveAmount | AmountTooLarge | MixedAssets | Unbalanced
    | KeyConflict | EntryNotFound | EntryWrongTenant | NotReversible | ReversalMismatch | AlreadyReversed
    | AccountWrongTenant | InsufficientFunds

  // ---- Balances ----------------------------------------------------------------------

  function NormalSide(account: Account): Side {
    if account.ExternalSettlement? then Debit else Credit
  }

  function Signed(line: Line): int {
    if line.side == NormalSide(line.account) then line.amount else -line.amount
  }

  function Delta(lines: seq<Line>, account: Account): int {
    if lines == [] then 0
    else
      var last := lines[|lines| - 1];
      Delta(lines[..|lines| - 1], account) + if last.account == account then Signed(last) else 0
  }

  function Balance(journal: Journal, account: Account): int {
    if journal == [] then 0
    else Balance(journal[..|journal| - 1], account) + Delta(journal[|journal| - 1].post.lines, account)
  }

  function SideTotal(lines: seq<Line>, side: Side): int {
    if lines == [] then 0
    else
      var last := lines[|lines| - 1];
      SideTotal(lines[..|lines| - 1], side) + if last.side == side then last.amount else 0
  }

  // ---- Posting -----------------------------------------------------------------------

  /** The first line whose amount is not one the ledger can hold decides the refusal. */
  function AmountFault(lines: seq<Line>): (fault: Option<LedgerError>)
    ensures fault.None? <==> forall i | 0 <= i < |lines| :: 0 < lines[i].amount <= MAX_AMOUNT
    ensures fault.Some? && (forall i | 0 <= i < |lines| :: lines[i].amount > 0) ==> fault.value == AmountTooLarge
  {
    if lines == [] then None
    else if lines[0].amount <= 0 then Some(NonPositiveAmount)
    else if lines[0].amount > MAX_AMOUNT then Some(AmountTooLarge)
    else
      assert forall i | 0 <= i < |lines| :: i == 0 || lines[i] == lines[1..][i - 1];
      AmountFault(lines[1..])
  }

  function ValidateLines(lines: seq<Line>): Option<LedgerError> {
    if |lines| < 2 then Some(TooFewLines)
    else if AmountFault(lines).Some? then AmountFault(lines)
    else if exists i :: 0 <= i < |lines| && lines[i].account.asset != lines[0].account.asset then Some(MixedAssets)
    else if SideTotal(lines, Debit) != SideTotal(lines, Credit) then Some(Unbalanced)
    else None
  }

  /** Where the tenant's key was used, searching the newest entry first; a tenant uses a key once. */
  function FindKey(journal: Journal, tenant: nat, key: LedgerKey): (found: Option<nat>)
    ensures found.Some? ==>
      found.value < |journal| && journal[found.value].post.tenant == tenant && journal[found.value].post.key == key
    ensures found.None? ==> forall i | 0 <= i < |journal| ::
      !(journal[i].post.tenant == tenant && journal[i].post.key == key)
  {
    if journal == [] then None
    else
      var last := |journal| - 1;
      if journal[last].post.tenant == tenant && journal[last].post.key == key then Some(last)
      else FindKey(journal[..last], tenant, key)
  }

  predicate Reversed(journal: Journal, entry: nat) {
    exists i :: 0 <= i < |journal| && journal[i].post.reverses == Some(entry)
  }

  function MirrorSide(side: Side): Side {
    if side == Debit then Credit else Debit
  }

  function Mirror(lines: seq<Line>): (mirrored: seq<Line>)
    ensures |mirrored| == |lines|
  {
    seq(|lines|, i requires 0 <= i < |lines| => lines[i].(side := MirrorSide(lines[i].side)))
  }

  /** A reversal carries the reversed entry's contest and mirrors its lines, and nothing is reversed twice. */
  function CheckReversal(journal: Journal, post: Post): Option<LedgerError> {
    match post.reverses
    case None => None
    case Some(entry) =>
      if entry >= |journal| then Some(EntryNotFound)
      else
        var original := journal[entry].post;
        if original.tenant != post.tenant then Some(EntryWrongTenant)
        else if original.contest != post.contest then Some(ReversalMismatch)
        else if Reversed(journal, entry) then Some(AlreadyReversed)
        else if multiset(Mirror(original.lines)) != multiset(post.lines) then Some(ReversalMismatch)
        else None
  }

  predicate NeverNegative(account: Account) {
    account.Wallet? || account.Escrow?
  }

  predicate Overdraws(journal: Journal, lines: seq<Line>) {
    exists i :: 0 <= i < |lines|
      && NeverNegative(lines[i].account)
      && Delta(lines, lines[i].account) < 0
      && Balance(journal, lines[i].account) + Delta(lines, lines[i].account) < 0
  }

  datatype Posted = Posted(journal: Journal, entry: nat, replayed: bool)

  /** `postEntry`: the only way value moves. A replay of a key returns the entry already there. */
  function TryPost(journal: Journal, post: Post, at: int): Result<Posted, LedgerError> {
    var invalid := ValidateLines(post.lines);
    if invalid.Some? then Err(invalid.value)
    else
      var existing := FindKey(journal, post.tenant, post.key);
      if existing.Some? then
        if journal[existing.value].post != post then Err(KeyConflict)
        else Ok(Posted(journal, existing.value, true))
      else
        var reversal := CheckReversal(journal, post);
        if reversal.Some? then Err(reversal.value)
        else if exists i :: 0 <= i < |post.lines| && post.lines[i].account.tenant != post.tenant then
          Err(AccountWrongTenant)
        else if Overdraws(journal, post.lines) then Err(InsufficientFunds)
        else Ok(Posted(journal + [Entry(post, at)], |journal|, false))
  }

  // ---- The contest flows (ledger/flows.ts) -------------------------------------------

  function Move(from: Account, to: Account, amount: int): seq<Line> {
    [Line(from, Debit, amount), Line(to, Credit, amount)]
  }

  function EscrowPost(tenant: nat, asset: Asset, contest: nat, user: nat, amount: int, request: nat): Post {
    Post(tenant, EscrowEntry, EntryKey(request), Some(contest), None,
         Move(Wallet(tenant, asset, user), Escrow(tenant, asset, contest), amount))
  }

  function RefundPost(tenant: nat, asset: Asset, contest: nat, user: nat, amount: int, request: nat): Post {
    Post(tenant, RefundEntry, WithdrawKey(request), Some(contest), None,
         Move(Escrow(tenant, asset, contest), Wallet(tenant, asset, user), amount))
  }

  function RakePost(tenant: nat, asset: Asset, contest: nat, amount: int): Post {
    Post(tenant, FeeEntry, RakeKey(contest), Some(contest), None,
         Move(Escrow(tenant, asset, contest), PlatformFee(tenant, asset), amount))
  }

  /** `voidEscrow`: the reversing entry of an escrow entry; anything else is refused. */
  function TryVoid(journal: Journal, tenant: nat, entry: nat, key: LedgerKey, at: int): Result<Posted, LedgerError> {
    if entry >= |journal| then Err(EntryNotFound)
    else
      var original := journal[entry].post;
      if original.tenant != tenant then Err(EntryWrongTenant)
      else if original.kind != EscrowEntry then Err(NotReversible)
      else TryPost(journal, Post(tenant, VoidEntry, key, original.contest, Some(entry), Mirror(original.lines)), at)
  }

  // ---- Facts about sums --------------------------------------------------------------

  lemma {:induction false} DeltaPush(lines: seq<Line>, line: Line, account: Account)
    ensures Delta(lines + [line], account) == Delta(lines, account) + if line.account == account then Signed(line)
      else 0
  {
    assert (lines + [line])[..|lines|] == lines;
  }

  lemma {:induction false} SideTotalPush(lines: seq<Line>, line: Line, side: Side)
    ensures SideTotal(lines + [line], side) == SideTotal(lines, side) + if line.side == side then line.amount else 0
  {
    assert (lines + [line])[..|lines|] == lines;
  }

  lemma {:induction false} BalancePush(journal: Journal, entry: Entry, account: Account)
    ensures Balance(journal + [entry], account) == Balance(journal, account) + Delta(entry.post.lines, account)
  {
    assert (journal + [entry])[..|journal|] == journal;
  }

  lemma {:induction false} DeltaUntouched(lines: seq<Line>, account: Account)
    requires forall i | 0 <= i < |lines| :: lines[i].account != account
    ensures Delta(lines, account) == 0
  {
    if lines != [] {
      DeltaUntouched(lines[..|lines| - 1], account);
    }
  }

  lemma {:induction false} MoveDelta(from: Account, to: Account, amount: int, account: Account)
    requires from != to
    ensures Delta(Move(from, to, amount), account) ==
      if account == from then Signed(Line(from, Debit, amount))
      else if account == to then Signed(Line(to, Credit, amount)) else 0
  {
    var lines := Move(from, to, amount);
    DeltaPush([], lines[0], account);
    DeltaPush([lines[0]], lines[1], account);
    assert [] + [lines[0]] == [lines[0]] && lines == [lines[0]] + [lines[1]];
  }

  lemma {:induction false} MoveBalanced(from: Account, to: Account, amount: int)
    ensures SideTotal(Move(from, to, amount), Debit) == SideTotal(Move(from, to, amount), Credit) == amount
  {
    var lines := Move(from, to, amount);
    forall side ensures SideTotal(lines, side) == amount {
      SideTotalPush([], lines[0], side);
      SideTotalPush([lines[0]], lines[1], side);
      assert [] + [lines[0]] == [lines[0]] && lines == [lines[0]] + [lines[1]];
    }
  }

  /** A mirrored set of lines undoes the original. */
  lemma {:induction false} MirrorDelta(lines: seq<Line>, account: Account)
    ensures Delta(Mirror(lines), account) == -Delta(lines, account)
  {
    if lines != [] {
      MirrorDelta(lines[..|lines| - 1], account);
      assert Mirror(lines)[..|lines| - 1] == Mirror(lines[..|lines| - 1]);
    }
  }

  // ---- Custody -----------------------------------------------------------------------

  /** The accounts contest money moves between: wallets, escrows and the platform's fees. */
  predicate Custody(account: Account) {
    account.Wallet? || account.Escrow? || account.PlatformFee?
  }

  function CustodyDelta(lines: seq<Line>): int {
    if lines == [] then 0
    else
      var last := lines[|lines| - 1];
      CustodyDelta(lines[..|lines| - 1]) + if Custody(last.account) then Signed(last) else 0
  }

  function CustodyTotal(journal: Journal): int {
    if journal == [] then 0
    else CustodyTotal(journal[..|journal| - 1]) + CustodyDelta(journal[|journal| - 1].post.lines)
  }

  lemma {:induction false} CustodyBalanced(lines: seq<Line>)
    requires forall i | 0 <= i < |lines| :: Custody(lines[i].account)
    ensures CustodyDelta(lines) == SideTotal(lines, Credit) - SideTotal(lines, Debit)
  {
    if lines != [] {
      CustodyBalanced(lines[..|lines| - 1]);
    }
  }

  /** `CustodyTotal` is what its name says: the balances of the custody accounts added up. */
  lemma {:induction false} CustodyTotalMeans(journal: Journal, accounts: seq<Account>)
    requires forall i, j | 0 <= i < j < |accounts| :: accounts[i] != accounts[j]
    requires forall i | 0 <= i < |accounts| :: Custody(accounts[i])
    requires forall e, l | 0 <= e < |journal| && 0 <= l < |journal[e].post.lines|
      && Custody(journal[e].post.lines[l].account) ::
      journal[e].post.lines[l].account in accounts
    ensures CustodyTotal(journal) == Sum(Balances(journal, accounts))
  {
    if journal == [] {
      SumConstant(Balances(journal, accounts), 0);
    } else {
      var front, lines := journal[..|journal| - 1], journal[|journal| - 1].post.lines;
      CustodyTotalMeans(front, accounts);
      CustodyDeltaMeans(lines, accounts);
      SumAdd(Balances(front, accounts), Deltas(lines, accounts), Balances(journal, accounts));
    }
  }

  function Balances(journal: Journal, accounts: seq<Account>): (s: seq<int>)
    ensures |s| == |accounts|
  {
    seq(|accounts|, i requires 0 <= i < |accounts| => Balance(journal, accounts[i]))
  }

  function Deltas(lines: seq<Line>, accounts: seq<Account>): (s: seq<int>)
    ensures |s| == |accounts|
  {
    seq(|accounts|, i requires 0 <= i < |accounts| => Delta(lines, accounts[i]))
  }

  lemma {:induction false} CustodyDeltaMeans(lines: seq<Line>, accounts: seq<Account>)
    requires forall i, j | 0 <= i < j < |accounts| :: accounts[i] != accounts[j]
    requires forall i | 0 <= i < |accounts| :: Custody(accounts[i])
    requires forall l | 0 <= l < |lines| && Custody(lines[l].account) :: lines[l].account in accounts
    ensures CustodyDelta(lines) == Sum(Deltas(lines, accounts))
  {
    if lines == [] {
      SumConstant(Deltas(lines, accounts), 0);
    } else {
      var front, last := lines[..|lines| - 1], lines[|lines| - 1];
      CustodyDeltaMeans(front, accounts);
      if Custody(last.account) {
        var k :| 0 <= k < |accounts| && accounts[k] == last.account;
        assert Deltas(lines, accounts) == Deltas(front, accounts)[k := Deltas(front, accounts)[k] + Signed(last)];
        SumUpdate(Deltas(front, accounts), k, Signed(last));
      } else {
        assert Deltas(lines, accounts) == Deltas(front, accounts);
      }
    }
  }

  lemma {:induction false} SumUpdate(s: seq<int>, k: nat, x: int)
    requires k < |s|
    ensures Sum(s[k := s[k] + x]) == Sum(s) + x
  {
    var t := s[k := s[k] + x];
    SumSplit(s, k);
    SumSplit(t, k);
    SumSplit(s[k..], 1);
    SumSplit(t[k..], 1);
    assert s[..k] == t[..k] && s[k..][1..] == t[k..][1..];
    assert s[k..][..1] == [] + [s[k]] && t[k..][..1] == [] + [s[k] + x];
    SumPush([], s[k]);
    SumPush([], s[k] + x);
  }

  // ---- What posting keeps ------------------------------------------------------------

  /** No wallet and no escrow is below zero. */
  ghost predicate Solvent(journal: Journal) {
    forall a: Account | NeverNegative(a) :: Balance(journal, a) >= 0
  }

  /** Every posted entry balances, in one asset, with positive amounts. */
  ghost predicate WellPosted(journal: Journal) {
    forall i | 0 <= i < |journal| :: ValidateLines(journal[i].post.lines) == None
  }

  ghost predicate KeysOnce(journal: Journal) {
    forall i, j | 0 <= i < j < |journal| ::
      !(journal[i].post.tenant == journal[j].post.tenant && journal[i].post.key == journal[j].post.key)
  }

  lemma {:induction false} PostShape(journal: Journal, post: Post, at: int)
    requires TryPost(journal, post, at).Ok?
    ensures var posted := TryPost(journal, post, at).value;
      && posted.entry < |posted.journal| && posted.journal[posted.entry].post == post
      && posted.journal == (if posted.replayed then journal else journal + [Entry(post, at)])
      && (posted.replayed <==> FindKey(journal, post.tenant, post.key).Some?)
      && ValidateLines(post.lines) == None
      && (!posted.replayed ==> !Overdraws(journal, post.lines) && CheckReversal(journal, post) == None)
  {
  }

  lemma {:induction false} CoveredStaysSolvent(journal: Journal, entry: Entry)
    requires Solvent(journal) && !Overdraws(journal, entry.post.lines)
    ensures Solvent(journal + [entry])
  {
    var lines := entry.post.lines;
    forall a: Account | NeverNegative(a) ensures Balance(journal + [entry], a) >= 0 {
      BalancePush(journal, entry, a);
      if forall i | 0 <= i < |lines| :: lines[i].account != a {
        DeltaUntouched(lines, a);
      }
    }
  }

  /** The journal only grows, by balanced entries that overdraw nobody, under keys not used before. */
  lemma {:induction false} PostKeeps(journal: Journal, post: Post, at: int)
    requires Solvent(journal) && WellPosted(journal) && KeysOnce(journal)
    requires TryPost(journal, post, at).Ok?
    ensures var after := TryPost(journal, post, at).value.journal;
      Solvent(after) && WellPosted(after) && KeysOnce(after) && journal <= after
  {
    PostShape(journal, post, at);
    if !TryPost(journal, post, at).value.replayed {
      CoveredStaysSolvent(journal, Entry(post, at));
    }
  }

  // ---- When a post goes through ------------------------------------------------------

  lemma {:induction false} PostSucceeds(journal: Journal, post: Post, at: int)
    requires ValidateLines(post.lines) == None && CheckReversal(journal, post) == None
    requires forall i | 0 <= i < |journal| ::
      !(journal[i].post.tenant == post.tenant && journal[i].post.key == post.key)
    requires forall i | 0 <= i < |post.lines| :: post.lines[i].account.tenant == post.tenant
    requires !Overdraws(journal, post.lines)
    ensures TryPost(journal, post, at) == Ok(Posted(journal + [Entry(post, at)], |journal|, false))
  {
  }

  /** A move between two accounts of one asset is a valid entry whenever the amount can be represented. */
  lemma {:induction false} MoveValid(from: Account, to: Account, amount: int)
    requires 0 < amount <= MAX_AMOUNT && from.asset == to.asset
    ensures ValidateLines(Move(from, to, amount)) == None
    ensures ValidateLines(Mirror(Move(from, to, amount))) == None
  {
    MoveBalanced(from, to, amount);
    MoveBalanced(to, from, amount);
    MirrorBalanced(Move(from, to, amount));
  }

  lemma {:induction false} MirrorBalanced(lines: seq<Line>)
    ensures SideTotal(Mirror(lines), Debit) == SideTotal(lines, Credit)
    ensures SideTotal(Mirror(lines), Credit) == SideTotal(lines, Debit)
  {
    if lines != [] {
      MirrorBalanced(lines[..|lines| - 1]);
      assert Mirror(lines)[..|lines| - 1] == Mirror(lines[..|lines| - 1]);
    }
  }

  lemma {:induction false} MoveCovered(journal: Journal, from: Account, to: Account, amount: int)
    requires from != to && amount > 0 && !from.ExternalSettlement? && !to.ExternalSettlement?
    ensures Overdraws(journal, Move(from, to, amount)) <==> NeverNegative(from) && Balance(journal, from) < amount
  {
    var lines := Move(from, to, amount);
    MoveDelta(from, to, amount, from);
    MoveDelta(from, to, amount, to);
    assert lines[0].account == from && lines[1].account == to;
  }

  lemma {:induction false} MirrorCovered(journal: Journal, from: Account, to: Account, amount: int)
    requires from != to && amount > 0 && !from.ExternalSettlement? && !to.ExternalSettlement?
    requires Balance(journal, to) >= amount
    ensures !Overdraws(journal, Mirror(Move(from, to, amount)))
  {
    var lines := Mirror(Move(from, to, amount));
    MirrorDelta(Move(from, to, amount), from);
    MirrorDelta(Move(from, to, amount), to);
    MoveDelta(from, to, amount, from);
    MoveDelta(from, to, amount, to);
    assert lines[0].account == from && lines[1].account == to;
  }
}
