/**
 * The locks a contest transaction takes, in order, and why no set of concurrent
 * transactions can deadlock (load.ts, entries.ts, settlement.ts, ledger/post.ts).
 *
 * Every lock is held to the end of its transaction. Some are taken out of order, but only
 * under another lock that already keeps everyone else away from them; the rest follow one
 * order.
 */
module Locks {
  import opened Common
  import Ledger
  import Sorting

  datatype RowKind = WalletRow | EscrowRow(contest: nat) | FeeRow | PlatformRow

  /** An account row, by its id: rows are locked in id order within one statement. */
  datatype Row = Row(id: nat, kind: RowKind)

  datatype Lock =
    | RequestKey(tenant: nat, key: nat)
    | ContestLock(contest: nat)
    | UserEntry(user: nat)
    | OpenWallet(tenant: nat, owner: nat, asset: Ledger.Asset)
    | OpenFee(tenant: nat, asset: Ledger.Asset)
    | OutsideKey(key: nat)
    | StakeKey(tenant: nat, key: nat)
    | ContestKey(contest: nat, purpose: nat)
    | ReverseEntry(contest: nat, entry: nat)
    | AccountRow(row: Row)

  // ---- Who takes what ----------------------------------------------------------------

  datatype Refund = Refund(participant: nat, entry: nat, wallet: Row)

  datatype Settling = Settling(asset: Ledger.Asset, escrow: Row, rake?: bool, fee: Row, winners: seq<Row>)

  datatype Operation =
    | Enter(tenant: nat, key: nat, contest: nat, user: nat, asset: Ledger.Asset, wallet: Row, escrow: Row)
    | Withdraw(tenant: nat, key: nat, contest: nat, wallet: Row, escrow: Row)
    | Score(tenant: nat, key: nat, contest: nat, settles: Option<Settling>)
    | Close(tenant: nat, key: nat, contest: nat, settles: Option<Settling>)
    | VoidContest(tenant: nat, key: nat, contest: nat, escrow: Row, refunds: seq<Refund>)
    | OutsidePost(key: nat, rows: seq<Row>)

  function ById(): (Row, Row) -> bool {
    (a: Row, b: Row) => a.id <= b.id
  }

  /** `SELECT ... ORDER BY id FOR UPDATE`. */
  function InIdOrder(rows: seq<Row>): (locks: seq<Lock>) {
    Rows(Sorting.Sort(ById(), rows))
  }

  function Rows(rows: seq<Row>): (locks: seq<Lock>)
    ensures |locks| == |rows|
  {
    seq(|rows|, i requires 0 <= i < |rows| => AccountRow(rows[i]))
  }

  const RAKE: nat := 0
  const SETTLE: nat := 1

  function RakeLocks(tenant: nat, contest: nat, s: Settling): seq<Lock> {
    if s.rake? then [OpenFee(tenant, s.asset), ContestKey(contest, RAKE)] + InIdOrder([s.escrow, s.fee]) else []
  }

  function PayLocks(contest: nat, s: Settling): seq<Lock> {
    if s.winners != [] then [ContestKey(contest, SETTLE)] + InIdOrder([s.escrow] + s.winners) else []
  }

  /** The rake's post and then the settlement's: two batches of account rows, the fee's first. */
  function SettleLocks(tenant: nat, contest: nat, s: Settling): seq<Lock> {
    RakeLocks(tenant, contest, s) + PayLocks(contest, s)
  }

  function Wallets(refunds: seq<Refund>): (rows: seq<Row>)
    ensures |rows| == |refunds|
  {
    seq(|refunds|, i requires 0 <= i < |refunds| => refunds[i].wallet)
  }

  /** Each reversal's own post: its key, the reversed entry, and rows the void already holds. */
  function RefundLocks(contest: nat, escrow: Row, refunds: seq<Refund>): seq<Lock> {
    if refunds == [] then []
    else
      var last := refunds[|refunds| - 1];
      RefundLocks(contest, escrow, refunds[..|refunds| - 1])
        + [ContestKey(contest, 2 + last.participant), ReverseEntry(contest, last.entry)]
        + InIdOrder([last.wallet, escrow])
  }

  function Program(op: Operation): seq<Lock> {
    match op
    case Enter(tenant, key, contest, user, asset, wallet, escrow) =>
      [RequestKey(tenant, key), ContestLock(contest)]
      + [UserEntry(user), OpenWallet(tenant, user, asset), StakeKey(tenant, key)]
      + InIdOrder([wallet, escrow])
    case Withdraw(tenant, key, contest, wallet, escrow) =>
      [RequestKey(tenant, key), ContestLock(contest), StakeKey(tenant, key)] + InIdOrder([wallet, escrow])
    case Score(tenant, key, contest, settles) =>
      [RequestKey(tenant, key), ContestLock(contest)]
      + if settles.None? then [] else SettleLocks(tenant, contest, settles.value)
    case Close(tenant, key, contest, settles) =>
      [RequestKey(tenant, key), ContestLock(contest)]
      + if settles.None? then [] else SettleLocks(tenant, contest, settles.value)
    case VoidContest(tenant, key, contest, escrow, refunds) =>
      [RequestKey(tenant, key), ContestLock(contest)]
      + (if refunds == [] then [] else InIdOrder([escrow] + Wallets(refunds)))
      + RefundLocks(contest, escrow, refunds)
    case OutsidePost(key, rows) => [OutsideKey(key)] + InIdOrder(rows)
  }

  // ---- Rows as the database hands them out -------------------------------------------

  predicate DistinctRows(rows: seq<Row>) {
    forall i, j | 0 <= i < j < |rows| :: rows[i].id != rows[j].id
  }

  predicate WalletRows(rows: seq<Row>) {
    forall i | 0 <= i < |rows| :: rows[i].kind.WalletRow?
  }

  predicate SettleRows(contest: nat, s: Settling) {
    && s.escrow.kind == EscrowRow(contest) && s.fee.kind.FeeRow? && WalletRows(s.winners)
    && DistinctRows([s.escrow, s.fee]) && DistinctRows([s.escrow] + s.winners)
  }

  /** The rows are of the kinds the operation asks for, and different rows have different ids. */
  predicate WellFormed(op: Operation) {
    match op
    case Enter(_, _, contest, _, _, wallet, escrow) =>
      wallet.kind.WalletRow? && escrow.kind == EscrowRow(contest) && wallet.id != escrow.id
    case Withdraw(_, _, contest, wallet, escrow) =>
      wallet.kind.WalletRow? && escrow.kind == EscrowRow(contest) && wallet.id != escrow.id
    case Score(_, _, contest, settles) => settles.Some? ==> SettleRows(contest, settles.value)
    case Close(_, _, contest, settles) => settles.Some? ==> SettleRows(contest, settles.value)
    case VoidContest(_, _, contest, escrow, refunds) =>
      && escrow.kind == EscrowRow(contest) && WalletRows(Wallets(refunds)) && DistinctRows([escrow] + Wallets(refunds))
    case OutsidePost(_, rows) =>
      DistinctRows(rows) && forall i | 0 <= i < |rows| :: rows[i].kind.WalletRow? || rows[i].kind.PlatformRow?
  }

  // ---- The order ---------------------------------------------------------------------

  /** A lock nobody asks for without holding this other one first. */
  function Guard(lock: Lock): seq<Lock> {
    match lock
    case StakeKey(tenant, key) => [RequestKey(tenant, key)]
    case ContestKey(contest, _) => [ContestLock(contest)]
    case ReverseEntry(contest, _) => [ContestLock(contest)]
    case AccountRow(row) => if row.kind.EscrowRow? then [ContestLock(row.kind.contest)] else []
    case _ => []
  }

  predicate Contended(lock: Lock) {
    Guard(lock) == []
  }

  function Level(lock: Lock): nat {
    match lock
    case RequestKey(_, _) => 0
    case ContestLock(_) => 1
    case UserEntry(_) => 2
    case OpenWallet(_, _, _) => 3
    case OpenFee(_, _) => 4
    case OutsideKey(_) => 4
    case AccountRow(row) => if row.kind.FeeRow? then 5 else 6
    case _ => 7
  }

  function Place(lock: Lock): nat {
    if lock.AccountRow? then lock.row.id else 0
  }

  /** The one order contended locks are taken in: by level, account rows by id. */
  predicate Below(a: Lock, b: Lock) {
    Level(a) < Level(b) || (Level(a) == Level(b) && Place(a) < Place(b))
  }

  /** A program takes contended locks upwards, and guarded ones only under their guard. */
  ghost predicate Ordered(program: seq<Lock>) {
    && (forall i, j | 0 <= i < j < |program| && Contended(program[i]) && Contended(program[j]) ::
          program[j] in program[..j] || Below(program[i], program[j]))
    && (forall i | 0 <= i < |program| && !Contended(program[i]) :: Guard(program[i])[0] in program[..i])
  }

  // ---- Transactions ------------------------------------------------------------------

  /** A transaction has taken the first `taken` locks of its program and wants the next. */
  datatype Transaction = Transaction(op: Operation, taken: nat)

  type Table = seq<Transaction>

  predicate Holds(t: Transaction, lock: Lock) {
    t.taken <= |Program(t.op)| && lock in Program(t.op)[..t.taken]
  }

  predicate Finished(t: Transaction) {
    t.taken == |Program(t.op)|
  }

  predicate FreeFor(table: Table, i: nat, lock: Lock) {
    forall j | 0 <= j < |table| && j != i :: !Holds(table[j], lock)
  }

  /** Transaction `i` is done and may commit, or the lock it wants is held by nobody else. */
  predicate CanProceed(table: Table, i: nat)
    requires i < |table|
  {
    Finished(table[i]) || (table[i].taken < |Program(table[i].op)|
        && FreeFor(table, i, Program(table[i].op)[table[i].taken]))
  }

  datatype Event = Begin(op: Operation) | Take(i: nat) | End(i: nat)

  /** A transaction begins, takes the lock it wants once it is free, or ends, releasing everything. */
  ghost predicate Next(table: Table, event: Event, after: Table) {
    match event
    case Begin(op) => WellFormed(op) && after == table + [Transaction(op, 0)]
    case Take(i) =>
      && i < |table| && !Finished(table[i]) && CanProceed(table, i)
      && after == table[i := table[i].(taken := table[i].taken + 1)]
    case End(i) => i < |table| && after == table[..i] + table[i + 1..]
  }

  /** A history of the lock table from empty. */
  ghost predicate History(tables: seq<Table>, events: seq<Event>) {
    && |tables| == |events| + 1 && tables[0] == []
    && forall k | 0 <= k < |events| :: Next(tables[k], events[k], tables[k + 1])
  }

  ghost predicate Exclusive(table: Table) {
    forall i, j, lock | 0 <= i < |table| && 0 <= j < |table| && i != j && Holds(table[i], lock) ::
      !Holds(table[j], lock)
  }

  ghost predicate TableInv(table: Table) {
    && (forall i | 0 <= i < |table| :: WellFormed(table[i].op) && table[i].taken <= |Program(table[i].op)|)
    && Exclusive(table)
  }

  // ---- Programs are ordered ----------------------------------------------------------

  lemma {:induction false} ByIdIsTotal()
    ensures Sorting.TotalPreorder(ById())
  {
  }

  lemma {:induction false} DistinctIds(rows: seq<Row>, sorted: seq<Row>)
    requires multiset(rows) == multiset(sorted) && DistinctRows(rows)
    ensures DistinctRows(sorted)
  {
    forall i, j | 0 <= i < j < |sorted| ensures sorted[i].id != sorted[j].id {
      if sorted[i].id == sorted[j].id {
        assert sorted[i] in multiset(rows) && sorted[j] in multiset(rows);
        Sorting.Twice(sorted, i, j);
        Sorting.AtMostOnce(rows, sorted[i]);
      }
    }
  }

  /** Rows locked in id order go strictly upwards. */
  lemma {:induction false} SortedRows(rows: seq<Row>)
    requires DistinctRows(rows)
    ensures var locks := InIdOrder(rows);
      && |locks| == |rows|
      && (forall i | 0 <= i < |locks| :: locks[i].AccountRow? && locks[i].row in rows)
      && (forall i, j | 0 <= i < j < |locks| :: locks[i].row.id < locks[j].row.id)
  {
    ByIdIsTotal();
    var sorted := Sorting.Sort(ById(), rows);
    Sorting.SortPermutes(ById(), rows);
    Sorting.SortSorts(ById(), rows);
    DistinctIds(rows, sorted);
    assert |multiset(rows)| == |multiset(sorted)|;
    forall i | 0 <= i < |sorted| ensures sorted[i] in rows {
      assert sorted[i] in multiset(sorted);
    }
    forall i, j | 0 <= i < j < |sorted| ensures sorted[i].id < sorted[j].id {
      assert ById()(sorted[i], sorted[j]);
    }
  }

  /**
   * A batch keeps a program ordered when each of its contended locks is already held or
   * above everything contended so far, and each of its guarded ones comes under its guard.
   */
  lemma {:induction false} Batch(program: seq<Lock>, locks: seq<Lock>)
    requires Ordered(program)
    requires forall l | l in locks :: if Contended(l)
      then l in program || forall c | c in program && Contended(c) :: Below(c, l)
      else Guard(l)[0] in program
    requires forall i, j | 0 <= i < j < |locks| && Contended(locks[i]) && Contended(locks[j]) ::
      locks[j] in program || Below(locks[i], locks[j])
    ensures Ordered(program + locks)
  {
    var whole := program + locks;
    forall i, j | 0 <= i < j < |whole| && Contended(whole[i]) && Contended(whole[j])
      ensures whole[j] in whole[..j] || Below(whole[i], whole[j])
    {
      if j < |program| {
        assert whole[..j] == program[..j];
      } else {
        assert whole[..j] == program + locks[..j - |program|];
        assert whole[j] in locks;
      }
    }
    forall i | 0 <= i < |whole| && !Contended(whole[i]) ensures Guard(whole[i])[0] in whole[..i] {
      if i < |program| {
        assert whole[..i] == program[..i];
      } else {
        assert whole[..i] == program + locks[..i - |program|];
        assert whole[i] in locks;
      }
    }
  }

  /** Rows of one statement: escrows under their contest, the rest above everything before. */
  lemma {:induction false} RowBatch(program: seq<Lock>, rows: seq<Row>, level: nat)
    requires Ordered(program) && DistinctRows(rows)
    requires forall c | c in program && Contended(c) :: Level(c) < level
    requires forall r | r in rows ::
      if r.kind.EscrowRow? then ContestLock(r.kind.contest) in program else Level(AccountRow(r)) == level
    ensures Ordered(program + InIdOrder(rows))
  {
    var locks := InIdOrder(rows);
    SortedRows(rows);
    forall l | l in locks
      ensures if Contended(l) then forall c | c in program && Contended(c) :: Below(c, l) else Guard(l)[0] in program
    {
      assert l.row in rows;
    }
    forall i, j | 0 <= i < j < |locks| && Contended(locks[i]) && Contended(locks[j]) ensures Below(locks[i], locks[j]) {
      assert locks[i].row in rows && locks[j].row in rows;
    }
    Batch(program, locks);
  }

  lemma {:induction false} Opening(tenant: nat, key: nat, contest: nat)
    ensures Ordered([RequestKey(tenant, key), ContestLock(contest)])
  {
  }

  lemma {:induction false} EnterOrdered(op: Operation)
    requires op.Enter? && WellFormed(op)
    ensures Ordered(Program(op))
  {
    var opening := [RequestKey(op.tenant, op.key), ContestLock(op.contest)];
    var more := [UserEntry(op.user), OpenWallet(op.tenant, op.user, op.asset), StakeKey(op.tenant, op.key)];
    Opening(op.tenant, op.key, op.contest);
    Batch(opening, more);
    RowBatch(opening + more, [op.wallet, op.escrow], 6);
    assert Program(op) == opening + more + InIdOrder([op.wallet, op.escrow]);
  }

  lemma {:induction false} WithdrawOrdered(op: Operation)
    requires op.Withdraw? && WellFormed(op)
    ensures Ordered(Program(op))
  {
    var opening := [RequestKey(op.tenant, op.key), ContestLock(op.contest)];
    Opening(op.tenant, op.key, op.contest);
    Batch(opening, [StakeKey(op.tenant, op.key)]);
    RowBatch(opening + [StakeKey(op.tenant, op.key)], [op.wallet, op.escrow], 6);
    assert Program(op) == opening + [StakeKey(op.tenant, op.key)] + InIdOrder([op.wallet, op.escrow]);
  }

  lemma {:induction false} RakeOrdered(tenant: nat, key: nat, contest: nat, s: Settling)
    requires SettleRows(contest, s)
    ensures var raked := [RequestKey(tenant, key), ContestLock(contest)] + RakeLocks(tenant, contest, s);
      && Ordered(raked) && forall c | c in raked && Contended(c) :: Level(c) < 6
  {
    var opening := [RequestKey(tenant, key), ContestLock(contest)];
    var post := [OpenFee(tenant, s.asset), ContestKey(contest, RAKE)];
    Opening(tenant, key, contest);
    if s.rake? {
      Batch(opening, post);
      RowBatch(opening + post, [s.escrow, s.fee], 5);
      SortedRows([s.escrow, s.fee]);
      assert opening + RakeLocks(tenant, contest, s) == opening + post + InIdOrder([s.escrow, s.fee]);
    } else {
      assert opening + [] == opening;
    }
  }

  lemma {:induction false} PayOrdered(program: seq<Lock>, contest: nat, s: Settling)
    requires SettleRows(contest, s) && Ordered(program) && ContestLock(contest) in program
    requires forall c | c in program && Contended(c) :: Level(c) < 6
    ensures Ordered(program + PayLocks(contest, s))
  {
    if s.winners != [] {
      Batch(program, [ContestKey(contest, SETTLE)]);
      RowBatch(program + [ContestKey(contest, SETTLE)], [s.escrow] + s.winners, 6);
      assert program + PayLocks(contest, s) == program + [ContestKey(contest, SETTLE)]
        + InIdOrder([s.escrow] + s.winners);
    } else {
      assert program + [] == program;
    }
  }

  /** Two batches of account rows, and still one order: the fee's row is below every wallet's. */
  lemma {:induction false} SettleOrdered(tenant: nat, key: nat, contest: nat, s: Settling)
    requires SettleRows(contest, s)
    ensures Ordered([RequestKey(tenant, key), ContestLock(contest)] + SettleLocks(tenant, contest, s))
  {
    var opening := [RequestKey(tenant, key), ContestLock(contest)];
    var raked := opening + RakeLocks(tenant, contest, s);
    RakeOrdered(tenant, key, contest, s);
    assert raked[1] == ContestLock(contest);
    PayOrdered(raked, contest, s);
    Regroup(opening, RakeLocks(tenant, contest, s), PayLocks(contest, s));
  }

  lemma {:induction false} Regroup(a: seq<Lock>, b: seq<Lock>, c: seq<Lock>)
    ensures a + (b + c) == a + b + c
  {
  }

  lemma {:induction false} RefundLocksHeld(contest: nat, escrow: Row, refunds: seq<Refund>, program: seq<Lock>, n: nat)
    requires n <= |refunds| && ContestLock(contest) in program && escrow.kind == EscrowRow(contest)
    requires WalletRows(Wallets(refunds)) && DistinctRows([escrow] + Wallets(refunds))
    requires forall r | r in Wallets(refunds) :: AccountRow(r) in program
    ensures forall l | l in RefundLocks(contest, escrow, refunds[..n]) ::
      if Contended(l) then l in program else Guard(l)[0] in program
  {
    if n > 0 {
      RefundLocksHeld(contest, escrow, refunds, program, n - 1);
      assert refunds[..n][..n - 1] == refunds[..n - 1];
      var last := refunds[n - 1];
      assert Wallets(refunds)[n - 1] == last.wallet;
      var rows := [last.wallet, escrow];
      var all := [escrow] + Wallets(refunds);
      assert all[0] == escrow && all[n] == last.wallet;
      SortedRows(rows);
      forall l | l in InIdOrder(rows) ensures if Contended(l) then l in program else Guard(l)[0] in program {
        assert l.row in rows;
      }
    }
  }

  lemma {:induction false} VoidOrdered(op: Operation)
    requires op.VoidContest? && WellFormed(op)
    ensures Ordered(Program(op))
  {
    var prefix := [RequestKey(op.tenant, op.key), ContestLock(op.contest)];
    Opening(op.tenant, op.key, op.contest);
    if op.refunds == [] {
      assert Program(op) == prefix;
    } else {
      var rows := [op.escrow] + Wallets(op.refunds);
      var held := prefix + InIdOrder(rows);
      RowBatch(prefix, rows, 6);
      forall r | r in Wallets(op.refunds) ensures AccountRow(r) in held {
        RowIsLocked(rows, r);
      }
      RefundLocksHeld(op.contest, op.escrow, op.refunds, held, |op.refunds|);
      assert op.refunds[..|op.refunds|] == op.refunds;
      Batch(held, RefundLocks(op.contest, op.escrow, op.refunds));
    }
  }

  lemma {:induction false} RowIsLocked(rows: seq<Row>, r: Row)
    requires r in rows
    ensures AccountRow(r) in InIdOrder(rows)
  {
    Sorting.SortPermutes(ById(), rows);
    var sorted := Sorting.Sort(ById(), rows);
    assert r in multiset(rows) && r in multiset(sorted);
    var i :| 0 <= i < |sorted| && sorted[i] == r;
    assert InIdOrder(rows)[i] == AccountRow(r);
  }

  lemma {:induction false} OutsideOrdered(op: Operation)
    requires op.OutsidePost? && WellFormed(op)
    ensures Ordered(Program(op))
  {
    RowBatch([OutsideKey(op.key)], op.rows, 6);
  }

  /** Every operation takes its contended locks in the one order. */
  lemma {:induction false} ProgramOrdered(op: Operation)
    requires WellFormed(op)
    ensures Ordered(Program(op))
  {
    match op
    case Enter(_, _, _, _, _, _, _) => EnterOrdered(op);
    case Withdraw(_, _, _, _, _) => WithdrawOrdered(op);
    case Score(tenant, key, contest, settles) =>
      Opening(tenant, key, contest);
      if settles.Some? {
        SettleOrdered(tenant, key, contest, settles.value);
      } else {
        assert Program(op) == [RequestKey(tenant, key), ContestLock(contest)];
      }
    case Close(tenant, key, contest, settles) =>
      Opening(tenant, key, contest);
      if settles.Some? {
        SettleOrdered(tenant, key, contest, settles.value);
      } else {
        assert Program(op) == [RequestKey(tenant, key), ContestLock(contest)];
      }
    case VoidContest(_, _, _, _, _) => VoidOrdered(op);
    case OutsidePost(_, _) => OutsideOrdered(op);
  }

  // ---- No deadlock -------------------------------------------------------------------

  lemma {:induction false} NextKeeps(table: Table, event: Event, after: Table)
    requires TableInv(table) && Next(table, event, after)
    ensures TableInv(after)
  {
    match event
    case Begin(op) =>
    case End(i) => RemovalKeeps(table, i);
    case Take(i) => TakeKeeps(table, i, after);
  }

  lemma {:induction false} RemovalKeeps(table: Table, i: nat)
    requires TableInv(table) && i < |table|
    ensures TableInv(table[..i] + table[i + 1..])
  {
    var after := table[..i] + table[i + 1..];
    forall a | 0 <= a < |after| ensures after[a] == table[if a < i then a else a + 1] {
    }
    forall a, b, lock | 0 <= a < |after| && 0 <= b < |after| && a != b && Holds(after[a], lock)
      ensures !Holds(after[b], lock)
    {
      assert Holds(table[if a < i then a else a + 1], lock);
    }
  }

  lemma {:induction false} TakeKeeps(table: Table, i: nat, after: Table)
    requires TableInv(table) && i < |table| && !Finished(table[i]) && CanProceed(table, i)
    requires after == table[i := table[i].(taken := table[i].taken + 1)]
    ensures TableInv(after)
  {
    TakesOne(table[i], after[i]);
    forall a, b, lock | 0 <= a < |after| && 0 <= b < |after| && a != b && Holds(after[a], lock)
      ensures !Holds(after[b], lock)
    {
      OnlyNewHeld(table, i, after, a, lock);
      OnlyNewHeld(table, i, after, b, lock);
    }
  }

  lemma {:induction false} TakesOne(before: Transaction, after: Transaction)
    requires before.taken < |Program(before.op)| && after == before.(taken := before.taken + 1)
    ensures forall lock :: Holds(after, lock) <==> Holds(before, lock) || lock == Program(before.op)[before.taken]
  {
    var program, n := Program(before.op), before.taken;
    assert program[..n + 1] == program[..n] + [program[n]];
  }

  lemma {:induction false} OnlyNewHeld(table: Table, i: nat, after: Table, a: nat, lock: Lock)
    requires i < |table| == |after| && a < |table| && table[i].taken < |Program(table[i].op)|
    requires after == table[i := table[i].(taken := table[i].taken + 1)]
    ensures Holds(after[a], lock) <==> Holds(table[a], lock) || (a == i && lock == Program(table[i].op)[table[i].taken])
  {
    TakesOne(table[i], after[i]);
  }

  /** What a transaction waits for. */
  function Wanted(t: Transaction): Lock
    requires t.taken < |Program(t.op)|
  {
    Program(t.op)[t.taken]
  }

  predicate Blocked(table: Table, i: nat)
    requires i < |table|
  {
    table[i].taken < |Program(table[i].op)| && !FreeFor(table, i, Wanted(table[i]))
  }

  ghost predicate AllBlocked(table: Table) {
    forall i | 0 <= i < |table| :: Blocked(table, i)
  }

  /** Nobody waits for a guarded lock: holding its guard, they are the only one who could have it. */
  lemma {:induction false} WaitsAreContended(table: Table, i: nat)
    requires TableInv(table) && i < |table| && Blocked(table, i)
    ensures Contended(Wanted(table[i])) && !Holds(table[i], Wanted(table[i]))
  {
    var lock := Wanted(table[i]);
    var j :| 0 <= j < |table| && j != i && Holds(table[j], lock);
    if !Contended(lock) {
      ProgramOrdered(table[i].op);
      assert Holds(table[i], Guard(lock)[0]);
      GuardHeld(table[j], lock);
    }
  }

  lemma {:induction false} GuardHeld(t: Transaction, lock: Lock)
    requires WellFormed(t.op) && Holds(t, lock) && !Contended(lock)
    ensures Holds(t, Guard(lock)[0])
  {
    ProgramOrdered(t.op);
    var program := Program(t.op);
    var p :| 0 <= p < t.taken && program[..t.taken][p] == lock;
    assert program[p] == lock;
    assert Guard(program[p])[0] in program[..p];
    var q :| 0 <= q < p && program[q] == Guard(lock)[0];
    assert program[..t.taken][q] == Guard(lock)[0];
  }

  /** Whoever holds a lock somebody waits for waits, if at all, for one further up. */
  lemma {:induction false} HolderWaitsAbove(table: Table, j: nat, lock: Lock)
    requires TableInv(table) && j < |table| && Holds(table[j], lock) && Contended(lock) && Blocked(table, j)
    ensures Below(lock, Wanted(table[j]))
  {
    WaitsAreContended(table, j);
    ProgramOrdered(table[j].op);
    var program, n := Program(table[j].op), table[j].taken;
    var p :| 0 <= p < n && program[..n][p] == lock;
    assert program[p] == lock;
    assert program[n] !in program[..n];
  }

  lemma {:induction false} Highest(locks: seq<Lock>) returns (top: nat)
    requires locks != []
    ensures top < |locks| && forall k | 0 <= k < |locks| :: !Below(locks[top], locks[k])
  {
    if |locks| == 1 {
      top := 0;
    } else {
      var last := |locks| - 1;
      top := Highest(locks[..last]);
      if Below(locks[top], locks[last]) {
        top := last;
      }
    }
  }

  function AllWanted(table: Table): (wanted: seq<Lock>)
    requires forall i | 0 <= i < |table| :: Blocked(table, i)
    ensures |wanted| == |table|
  {
    seq(|table|, i requires 0 <= i < |table| && Blocked(table, i) => Wanted(table[i]))
  }

  /** Whoever holds what a blocked transaction waits for. */
  lemma {:induction false} Holder(table: Table, i: nat) returns (j: nat)
    requires TableInv(table) && i < |table| && Blocked(table, i)
    ensures j < |table| && Holds(table[j], Wanted(table[i])) && Contended(Wanted(table[i]))
  {
    WaitsAreContended(table, i);
    j :| 0 <= j < |table| && j != i && Holds(table[j], Wanted(table[i]));
  }

  lemma {:induction false} NotAllBlocked(table: Table)
    requires TableInv(table) && table != []
    ensures !AllBlocked(table)
  {
    if AllBlocked(table) {
      var wanted := AllWanted(table);
      var top := Highest(wanted);
      var j := Holder(table, top);
      assert Blocked(table, j) && wanted[j] == Wanted(table[j]);
      HolderWaitsAbove(table, j, wanted[top]);
      assert false;
    }
  }

  lemma {:induction false} SomeoneProceeds(table: Table)
    requires TableInv(table) && table != []
    ensures exists i :: 0 <= i < |table| && CanProceed(table, i)
  {
    NotAllBlocked(table);
    var i :| 0 <= i < |table| && !Blocked(table, i);
    assert CanProceed(table, i);
  }

  /**
   * Deadlock freedom: in every table any history of concurrent entries, withdrawals,
   * score submissions, closes, voids and outside posts can reach, some transaction can
   * take the lock it wants or is done.
   */
  lemma {:induction false} NeverDeadlocked(tables: seq<Table>, events: seq<Event>, k: nat)
    requires History(tables, events) && k < |tables| && tables[k] != []
    ensures exists i :: 0 <= i < |tables[k]| && CanProceed(tables[k], i)
  {
    HistoryInv(tables, events, k);
    SomeoneProceeds(tables[k]);
  }

  lemma {:induction false} HistoryInv(tables: seq<Table>, events: seq<Event>, k: nat)
    requires History(tables, events) && k < |tables|
    ensures TableInv(tables[k])
  {
    if k > 0 {
      HistoryInv(tables, events, k - 1);
      NextKeeps(tables[k - 1], events[k - 1], tables[k]);
    }
  }

  // ---- What the locks keep apart -----------------------------------------------------

  /** What each operation must have to itself: its request, its contest, and every account it posts to. */
  ghost predicate Needs(op: Operation, lock: Lock) {
    match op
    case Enter(tenant, key, contest, user, asset, wallet, escrow) =>
      lock in {RequestKey(tenant, key), ContestLock(contest), UserEntry(user), OpenWallet(tenant, user, asset),
               AccountRow(wallet), AccountRow(escrow)}
    case Withdraw(tenant, key, contest, wallet, escrow) =>
      lock in {RequestKey(tenant, key), ContestLock(contest), AccountRow(wallet), AccountRow(escrow)}
    case Score(tenant, key, contest, settles) =>
      lock in {RequestKey(tenant, key), ContestLock(contest)} || NeedsToSettle(settles, lock)
    case Close(tenant, key, contest, settles) =>
      lock in {RequestKey(tenant, key), ContestLock(contest)} || NeedsToSettle(settles, lock)
    case VoidContest(tenant, key, contest, escrow, refunds) =>
      || lock in {RequestKey(tenant, key), ContestLock(contest)}
      || exists i :: 0 <= i < |refunds| && NeedsToRefund(contest, escrow, refunds[i], lock)
    case OutsidePost(key, rows) => lock == OutsideKey(key) || exists i :: 0 <= i < |rows| && lock == AccountRow(rows[i])
  }

  predicate NeedsToRefund(contest: nat, escrow: Row, refund: Refund, lock: Lock) {
    lock in {AccountRow(escrow), AccountRow(refund.wallet), ReverseEntry(contest, refund.entry)}
  }

  /** The fee's account when there is a rake, the winners' when anybody is paid, and the escrow's for either. */
  ghost predicate NeedsToSettle(settles: Option<Settling>, lock: Lock) {
    settles.Some? &&
      var s := settles.value;
      || (s.rake? && lock in {AccountRow(s.fee), AccountRow(s.escrow)})
      || (s.winners != [] && (lock == AccountRow(s.escrow)
          || exists i :: 0 <= i < |s.winners| && lock == AccountRow(s.winners[i])))
  }

  lemma {:induction false} RowsLocked(rows: seq<Row>, i: nat)
    requires i < |rows|
    ensures AccountRow(rows[i]) in InIdOrder(rows)
  {
    RowIsLocked(rows, rows[i]);
  }

  lemma {:induction false} SettleNeeds(tenant: nat, contest: nat, s: Settling, lock: Lock)
    requires NeedsToSettle(Some(s), lock)
    ensures lock in SettleLocks(tenant, contest, s)
  {
    if s.rake? && lock in {AccountRow(s.fee), AccountRow(s.escrow)} {
      RowsLocked([s.escrow, s.fee], if lock == AccountRow(s.escrow) then 0 else 1);
    } else if lock == AccountRow(s.escrow) {
      RowsLocked([s.escrow] + s.winners, 0);
    } else {
      var i :| 0 <= i < |s.winners| && lock == AccountRow(s.winners[i]);
      RowsLocked([s.escrow] + s.winners, i + 1);
    }
  }

  lemma {:induction false} RefundNeeds(contest: nat, escrow: Row, refunds: seq<Refund>, i: nat)
    requires i < |refunds|
    ensures ReverseEntry(contest, refunds[i].entry) in RefundLocks(contest, escrow, refunds)
    ensures AccountRow(refunds[i].wallet) in RefundLocks(contest, escrow, refunds)
    ensures AccountRow(escrow) in RefundLocks(contest, escrow, refunds)
  {
    var last := |refunds| - 1;
    if i < last {
      RefundNeeds(contest, escrow, refunds[..last], i);
    } else {
      RowsLocked([refunds[last].wallet, escrow], 0);
      RowsLocked([refunds[last].wallet, escrow], 1);
    }
  }

  /** Every operation takes the locks it needs. */
  lemma {:induction false} ProgramHolds(op: Operation, lock: Lock)
    requires Needs(op, lock)
    ensures lock in Program(op)
  {
    match op
    case Enter(_, _, _, _, _, wallet, escrow) =>
      RowsLocked([wallet, escrow], 0);
      RowsLocked([wallet, escrow], 1);
    case Withdraw(_, _, _, wallet, escrow) =>
      RowsLocked([wallet, escrow], 0);
      RowsLocked([wallet, escrow], 1);
    case Score(tenant, _, contest, settles) =>
      if NeedsToSettle(settles, lock) {
        SettleNeeds(tenant, contest, settles.value, lock);
      }
    case Close(tenant, _, contest, settles) =>
      if NeedsToSettle(settles, lock) {
        SettleNeeds(tenant, contest, settles.value, lock);
      }
    case VoidContest(_, _, contest, escrow, refunds) =>
      if i :| 0 <= i < |refunds| && NeedsToRefund(contest, escrow, refunds[i], lock) {
        RefundNeeds(contest, escrow, refunds, i);
      }
    case OutsidePost(_, rows) =>
      if i :| 0 <= i < |rows| && lock == AccountRow(rows[i]) {
        RowsLocked(rows, i);
      }
  }

  /**
   * Whatever two operations both need, a contest, a wallet, an escrow or a request's key,
   * no two transactions have at once: in every reachable table at most one of those that
   * need it has taken all its locks.
   */
  lemma {:induction false} OneAtATime(tables: seq<Table>, events: seq<Event>, k: nat, i: nat, j: nat, lock: Lock)
    requires History(tables, events) && k < |tables| && i < |tables[k]| && j < |tables[k]| && i != j
    requires Needs(tables[k][i].op, lock) && Needs(tables[k][j].op, lock)
    ensures !Finished(tables[k][i]) || !Finished(tables[k][j])
  {
    HistoryInv(tables, events, k);
    var a, b := tables[k][i], tables[k][j];
    ProgramHolds(a.op, lock);
    ProgramHolds(b.op, lock);
    if Finished(a) && Finished(b) {
      AllHeld(a, lock);
      AllHeld(b, lock);
    }
  }

  lemma {:induction false} AllHeld(t: Transaction, lock: Lock)
    requires Finished(t) && lock in Program(t.op)
    ensures Holds(t, lock)
  {
    assert Program(t.op)[..t.taken] == Program(t.op);
  }
}
