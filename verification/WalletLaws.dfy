/** Conservation over every run of wallet operations, and when an enforced wallet can be
    overdrawn. */
module WalletLaws {
  import opened Wrappers
  import opened Pricing
  import opened Wallets

  // ------------------------------------------------------------------------- sums

  function HeldPart(row: Reservation, tenant: string): int {
    if row.tenant == tenant && row.status == Held then row.amount else 0
  }

  lemma HeldSumSnoc(rows: seq<Reservation>, row: Reservation, tenant: string)
    ensures HeldSum(rows + [row], tenant) == HeldSum(rows, tenant) + HeldPart(row, tenant)
  {
    assert (rows + [row])[..|rows|] == rows;
  }

  lemma {:induction false} HeldSumUpdate(rows: seq<Reservation>, i: nat, row: Reservation, tenant: string)
    requires i < |rows|
    ensures HeldSum(rows[i := row], tenant) == HeldSum(rows, tenant) - HeldPart(rows[i], tenant) + HeldPart(row, tenant)
  {
    var n := |rows| - 1;
    if i < n {
      HeldSumUpdate(rows[..n], i, row, tenant);
      assert rows[i := row][..n] == rows[..n][i := row];
    } else {
      assert rows[i := row][..n] == rows[..n];
    }
  }

  lemma {:induction false} NothingHeld(rows: seq<Reservation>, tenant: string)
    requires forall i :: 0 <= i < |rows| ==> rows[i].tenant != tenant
    ensures HeldSum(rows, tenant) == 0
  {
    if rows != [] {
      NothingHeld(rows[..|rows| - 1], tenant);
    }
  }

  lemma LedgerSumSnoc(ledger: seq<Entry>, e: Entry, tenant: string)
    ensures LedgerSum(ledger + [e], tenant) == LedgerSum(ledger, tenant) + (if e.tenant == tenant then e.amount else 0)
  {
    assert (ledger + [e])[..|ledger|] == ledger;
  }

  lemma {:induction false} NothingBooked(ledger: seq<Entry>, tenant: string)
    requires forall i :: 0 <= i < |ledger| ==> ledger[i].tenant != tenant
    ensures LedgerSum(ledger, tenant) == 0
  {
    if ledger != [] {
      NothingBooked(ledger[..|ledger| - 1], tenant);
    }
  }

  // ------------------------------------------------------------------------- keys

  lemma KeysDiffer(a: string, b: string)
    ensures ChargeKey(a) != TopupKey(b)
  {
    assert ChargeKey(a)[0] == 'c' && TopupKey(b)[0] == 't';
  }

  lemma ChargeKeyInjective(a: string, b: string)
    requires ChargeKey(a) == ChargeKey(b)
    ensures a == b
  {
    assert ChargeKey(a)[7..] == a && ChargeKey(b)[7..] == b;
  }

  lemma TopupKeyInjective(a: string, b: string)
    requires TopupKey(a) == TopupKey(b)
    ensures a == b
  {
    assert TopupKey(a)[6..] == a && TopupKey(b)[6..] == b;
  }

  /** A reservation id that no row has is charged by no entry. */
  lemma NewIdNotCharged(db: Db, id: string)
    requires Keyed(db) && FindRow(db.reservations, id) == None
    ensures ChargeKey(id) !in KeysOf(db.ledger)
  {
    hide ChargeKey, TopupKey;
    if ChargeKey(id) in KeysOf(db.ledger) {
      var k :| 0 <= k < |db.ledger| && db.ledger[k].key == ChargeKey(id);
      assert Explained(db, db.ledger[k]);
      if i :| 0 <= i < |db.reservations| && db.ledger[k].key == ChargeKey(db.reservations[i].id) {
        ChargeKeyInjective(id, db.reservations[i].id);
      } else {
        var i :| 0 <= i < |db.topups| && db.ledger[k].key == TopupKey(db.topups[i].idemKey);
        KeysDiffer(id, db.topups[i].idemKey);
      }
    }
  }

  lemma NewKeyNotCredited(db: Db, key: string)
    requires Keyed(db) && FindTopup(db.topups, key) == None
    ensures TopupKey(key) !in KeysOf(db.ledger)
  {
    hide ChargeKey, TopupKey;
    if TopupKey(key) in KeysOf(db.ledger) {
      var k :| 0 <= k < |db.ledger| && db.ledger[k].key == TopupKey(key);
      assert Explained(db, db.ledger[k]);
      if i :| 0 <= i < |db.reservations| && db.ledger[k].key == ChargeKey(db.reservations[i].id) {
        KeysDiffer(db.reservations[i].id, key);
      } else {
        var i :| 0 <= i < |db.topups| && db.ledger[k].key == TopupKey(db.topups[i].idemKey);
        TopupKeyInjective(key, db.topups[i].idemKey);
      }
    }
  }

  lemma KeysSnoc(ledger: seq<Entry>, e: Entry)
    ensures KeysOf(ledger + [e]) == KeysOf(ledger) + [e.key]
  {
    assert (ledger + [e])[..|ledger|] == ledger;
  }

  // ------------------------------------------------------------------ creating wallets

  lemma CreateKeepsInv(db: Db, tenant: string, balance: int)
    requires Inv(db) && InRange(balance)
    ensures Inv(CreateWallet(db, tenant, balance)) && tenant in CreateWallet(db, tenant, balance).wallets
  {
    hide Keyed, HeldSum, LedgerSum;
    var db1 := CreateWallet(db, tenant, balance);
    if tenant !in db.wallets {
      forall i | 0 <= i < |db.ledger| ensures db.ledger[i].tenant != tenant && BalanceAfterIsSum(db1, i) {
        assert BalanceAfterIsSum(db, i);
      }
      NothingHeld(db.reservations, tenant);
      NothingBooked(db.ledger, tenant);
      forall t | t in db1.wallets ensures Conserved(db1, t) {
        assert t != tenant ==> Conserved(db, t);
      }
      SameTablesKeyed(db, db1);
    }
  }

  lemma SameTablesKeyed(db: Db, db1: Db)
    requires Keyed(db) && db1.reservations == db.reservations && db1.ledger == db.ledger && db1.topups == db.topups
    ensures Keyed(db1)
  {
    hide KeysOf;
    forall i | 0 <= i < |db1.ledger| ensures Explained(db1, db1.ledger[i]) {
      assert Explained(db, db.ledger[i]);
    }
  }

  /** The old entries' `balance_after` survive an append. */
  lemma AppendKeepsBalances(db: Db, db1: Db, e: Entry)
    requires db1.ledger == db.ledger + [e] && db1.opening == db.opening
    requires forall i: nat :: i < |db.ledger| ==> BalanceAfterIsSum(db, i)
    requires e.tenant in db.opening && e.balanceAfter == Wrap(db.opening[e.tenant] + LedgerSum(db.ledger, e.tenant) + e.amount)
    ensures forall i: nat :: i < |db1.ledger| ==> BalanceAfterIsSum(db1, i)
  {
    hide LedgerSum;
    forall i: nat | i < |db1.ledger| ensures BalanceAfterIsSum(db1, i) {
      if i < |db.ledger| {
        assert BalanceAfterIsSum(db, i) && db1.ledger[..i + 1] == db.ledger[..i + 1];
      } else {
        LedgerSumSnoc(db.ledger, e, e.tenant);
        assert db1.ledger[..i + 1] == db.ledger + [e];
      }
    }
  }

  // ---------------------------------------------------------------------- reserve

  /** `db` with a held row added and the hold booked. */
  lemma HoldKeepsInv(db: Db, row: Reservation, w: Wallet)
    requires Inv(db) && row.tenant in db.wallets && w == db.wallets[row.tenant] && row.status == Held
    requires InRange(w.reserved + row.amount) && FindRow(db.reservations, row.id) == None
    ensures Inv(db.(wallets := db.wallets[row.tenant := w.(reserved := w.reserved + row.amount)], reservations := db.reservations + [row]))
  {
    hide HeldSum, LedgerSum, Keyed, KeysOf, ChargeKey, FindRow, Wrap;
    var db1 := db.(wallets := db.wallets[row.tenant := w.(reserved := w.reserved + row.amount)], reservations := db.reservations + [row]);
    HoldKeepsKeyed(db, db1, row);
    HoldKeepsSums(db, db1, row);
    forall i: nat | i < |db1.ledger| ensures BalanceAfterIsSum(db1, i) {
      assert BalanceAfterIsSum(db, i);
    }
  }

  lemma HoldKeepsKeyed(db: Db, db1: Db, row: Reservation)
    requires Keyed(db) && row.status == Held && FindRow(db.reservations, row.id) == None
    requires db1.reservations == db.reservations + [row] && db1.ledger == db.ledger && db1.topups == db.topups
    ensures Keyed(db1)
  {
    hide KeysOf, ChargeKey, TopupKey, FindRow;
    NewIdNotCharged(db, row.id);
    forall i | 0 <= i < |db1.ledger| ensures Explained(db1, db1.ledger[i]) {
      ExplainedWithMoreRows(db, db1, db.ledger[i]);
    }
  }

  lemma ExplainedWithMoreRows(db: Db, db1: Db, e: Entry)
    requires Explained(db, e) && db.reservations <= db1.reservations && db.topups <= db1.topups
    ensures Explained(db1, e)
  {
    hide ChargeKey, TopupKey;
    if i :| 0 <= i < |db.reservations| && db.reservations[i].status == Settled && e.key == ChargeKey(db.reservations[i].id) {
      assert db1.reservations[i] == db.reservations[i];
    } else {
      var i :| 0 <= i < |db.topups| && e == Entry(db.topups[i].tenant, db.topups[i].amount, e.balanceAfter, TopupKey(db.topups[i].idemKey));
      assert db1.topups[i] == db.topups[i];
    }
  }

  lemma HoldKeepsSums(db: Db, db1: Db, row: Reservation)
    requires Inv(db) && row.tenant in db.wallets && row.status == Held
    requires db1.reservations == db.reservations + [row] && db1.ledger == db.ledger && db1.opening == db.opening
    requires InRange(db.wallets[row.tenant].reserved + row.amount)
    requires db1.wallets == db.wallets[row.tenant := Wallet(db.wallets[row.tenant].balance, db.wallets[row.tenant].reserved + row.amount)]
    ensures forall t :: t in db1.wallets ==> Conserved(db1, t)
  {
    hide Keyed, HeldSum, LedgerSum;
    forall t | t in db1.wallets ensures Conserved(db1, t) {
      assert Conserved(db, t);
      HeldSumSnoc(db.reservations, row, t);
      WrapOfWrap(HeldSum(db.reservations, t), row.amount);
    }
  }

  lemma ReserveKeepsInv(db: Db, input: ReserveInput)
    requires Inv(db) && InRange(input.allowance)
    ensures Inv(After(db, Reserve(db, input)))
  {
    hide Inv, HeldSum, LedgerSum;
    CreateKeepsInv(db, input.tenant, input.allowance);
    var db1 := CreateWallet(db, input.tenant, input.allowance);
    if Reserve(db, input).Done? {
      var row := Reservation(input.id, input.tenant, input.amount, input.inputPrice, input.outputPrice, Held, input.expiresAt);
      HoldKeepsInv(db1, row, db1.wallets[input.tenant]);
    }
  }

  // ----------------------------------------------------------------------- settle

  lemma SettleKeepsKeyed(db: Db, db1: Db, i: nat, e: Entry)
    requires Keyed(db) && i < |db.reservations| && db.reservations[i].status != Settled
    requires e.key == ChargeKey(db.reservations[i].id) && db1.ledger == db.ledger + [e] && db1.topups == db.topups
    requires db1.reservations == db.reservations[i := db.reservations[i].(status := Settled)]
    ensures Keyed(db1)
  {
    hide KeysOf, ChargeKey, TopupKey;
    KeysSnoc(db.ledger, e);
    forall k | 0 <= k < |db1.reservations|
      ensures db1.reservations[k].status == Settled <==> ChargeKey(db1.reservations[k].id) in KeysOf(db1.ledger)
    {
      if k != i && ChargeKey(db.reservations[k].id) == e.key {
        ChargeKeyInjective(db.reservations[k].id, db.reservations[i].id);
      }
    }
    forall k | 0 <= k < |db1.ledger| ensures Explained(db1, db1.ledger[k]) {
      if k < |db.ledger| {
        ExplainedAfterUpdate(db, db1, i, Settled, db.ledger[k]);
      } else {
        assert db1.reservations[i].status == Settled;
      }
    }
  }

  lemma ExplainedAfterUpdate(db: Db, db1: Db, i: nat, s: Status, e: Entry)
    requires Explained(db, e) && i < |db.reservations| && db.reservations[i].status != Settled
    requires db1.reservations == db.reservations[i := db.reservations[i].(status := s)] && db1.topups == db.topups
    ensures Explained(db1, e)
  {
    hide ChargeKey, TopupKey;
    if j :| 0 <= j < |db.reservations| && db.reservations[j].status == Settled && e.key == ChargeKey(db.reservations[j].id) {
      assert db1.reservations[j] == db.reservations[j];
    } else {
      var j :| 0 <= j < |db.topups| && e == Entry(db.topups[j].tenant, db.topups[j].amount, e.balanceAfter, TopupKey(db.topups[j].idemKey));
      assert db1.topups[j] == db.topups[j];
    }
  }

  /** The wallets after row `i` was settled for `charge`. */
  ghost predicate SettledSums(db: Db, db1: Db, i: nat, charge: int, e: Entry)
  {
    && i < |db.reservations| && db.reservations[i].tenant in db.wallets && db1.opening == db.opening
    && var row, w := db.reservations[i], db.wallets[db.reservations[i].tenant];
       && e == Entry(row.tenant, Wrap(-charge), Wrap(w.balance - charge), ChargeKey(row.id))
       && db1.ledger == db.ledger + [e] && db1.reservations == db.reservations[i := row.(status := Settled)]
       && db1.wallets == db.wallets[row.tenant := Wallet(e.balanceAfter, if row.status == Held then Wrap(w.reserved - row.amount) else w.reserved)]
  }

  lemma SettleKeepsSums(db: Db, db1: Db, i: nat, charge: int, e: Entry)
    requires Inv(db) && SettledSums(db, db1, i, charge, e) && db.reservations[i].status != Settled
    ensures (forall t :: t in db1.wallets ==> Conserved(db1, t)) && forall k: nat :: k < |db1.ledger| ==> BalanceAfterIsSum(db1, k)
  {
    hide Keyed, HeldSum, LedgerSum, Wrap, ChargeKey;
    var row := db.reservations[i];
    var tenant, held, booked := row.tenant, HeldSum(db.reservations, row.tenant), db.opening[row.tenant] + LedgerSum(db.ledger, row.tenant);
    assert Conserved(db, tenant);
    WrapOfWrap(booked, -charge);
    WrapOfWrap(-charge, booked);
    WrapOfWrap(held, -row.amount);
    AppendKeepsBalances(db, db1, e);
    forall t | t in db1.wallets ensures Conserved(db1, t) {
      assert Conserved(db, t);
      HeldSumUpdate(db.reservations, i, row.(status := Settled), t);
      LedgerSumSnoc(db.ledger, e, t);
    }
  }

  lemma SettleKeepsInv(db: Db, id: string, promptTokens: int, completionTokens: int)
    requires Inv(db)
    ensures Inv(After(db, Settle(db, id, promptTokens, completionTokens)))
  {
    hide HeldSum, LedgerSum, Wrap, ChargeKey, KeysOf, BalanceAfterIsSum, Explained;
    var i := FindRow(db.reservations, id);
    if i.Some? && db.reservations[i.value].status != Settled {
      var row, db1 := db.reservations[i.value], Settle(db, id, promptTokens, completionTokens).db;
      var e := db1.ledger[|db1.ledger| - 1];
      assert ChargeKey(row.id) !in KeysOf(db.ledger);
      SettleKeepsSums(db, db1, i.value, Charge(row, promptTokens, completionTokens), e);
      SettleKeepsKeyed(db, db1, i.value, e);
    }
  }

  // -------------------------------------------------------------- release and reaper

  lemma ReleaseRowKeepsInv(db: Db, i: nat)
    requires Inv(db) && i < |db.reservations| && db.reservations[i].status == Held
    ensures Inv(After(db, ReleaseRow(db, i)))
  {
    hide HeldSum, LedgerSum, Wrap, Explained;
    var r := ReleaseRow(db, i);
    if r.Done? {
      var row, db1 := db.reservations[i], r.db;
      forall t | t in db1.wallets ensures Conserved(db1, t) {
        assert Conserved(db, t);
        HeldSumUpdate(db.reservations, i, row.(status := Released), t);
        WrapOfWrap(HeldSum(db.reservations, t), -row.amount);
        WrapInRange(db.wallets[row.tenant].reserved - row.amount);
      }
      forall k: nat | k < |db1.ledger| ensures BalanceAfterIsSum(db1, k) {
        assert BalanceAfterIsSum(db, k);
      }
      forall k | 0 <= k < |db1.ledger| ensures Explained(db1, db1.ledger[k]) {
        ExplainedAfterUpdate(db, db1, i, Released, db.ledger[k]);
      }
    }
  }

  lemma WrapInRange(x: int)
    ensures InRange(x) ==> Wrap(x) == x
  {
  }

  lemma ReleaseKeepsInv(db: Db, id: string)
    requires Inv(db)
    ensures Inv(After(db, Release(db, id)))
  {
    hide Inv, ReleaseRow;
    var i := FindRow(db.reservations, id);
    if i.Some? && db.reservations[i.value].status == Held {
      ReleaseRowKeepsInv(db, i.value);
    }
  }

  lemma ReleaseRowTouchesOne(db: Db, i: nat)
    requires i < |db.reservations| && ReleaseRow(db, i).Done?
    ensures var db1 := ReleaseRow(db, i).db;
      |db1.reservations| == |db.reservations| && forall k :: 0 <= k < |db.reservations| && k != i ==> db1.reservations[k] == db.reservations[k]
  {
  }

  lemma {:induction false} ReleaseRowsKeepsInv(db: Db, now: int, rows: seq<nat>)
    requires Inv(db) && ExpiredRows(db, now, rows)
    ensures Inv(After(db, ReleaseRows(db, rows)))
    decreases |rows|
  {
    hide Inv, ReleaseRow;
    if rows != [] {
      ReleaseRowKeepsInv(db, rows[0]);
      var r := ReleaseRow(db, rows[0]);
      if r.Done? {
        ReleaseRowTouchesOne(db, rows[0]);
        ReleaseRowsKeepsInv(r.db, now, rows[1..]);
      }
    }
  }

  // ----------------------------------------------------------------------- top-up

  lemma TopUpKeepsInv(db: Db, tenant: string, amount: int, idemKey: string)
    requires Inv(db)
    ensures Inv(After(db, TopUp(db, tenant, amount, idemKey)))
  {
    hide HeldSum, LedgerSum, Wrap, TopupKey, KeysOf, Inv;
    var r := TopUp(db, tenant, amount, idemKey);
    if r.Done? && FindTopup(db.topups, idemKey).None? {
      var db1 := CreateWallet(db, tenant, 0);
      WrapZero();
      CreateKeepsInv(db, tenant, 0);
      var e := r.db.ledger[|db1.ledger|];
      CreditKeepsInv(db1, r.db, tenant, amount, idemKey, e);
    }
  }

  lemma WrapZero()
    ensures InRange(0)
  {
  }

  lemma CreditKeepsInv(db: Db, db1: Db, tenant: string, amount: int, idemKey: string, e: Entry)
    requires Inv(db) && tenant in db.wallets && FindTopup(db.topups, idemKey) == None
    requires e == Entry(tenant, amount, Wrap(db.wallets[tenant].balance + amount), TopupKey(idemKey))
    requires db1 == db.(wallets := db.wallets[tenant := db.wallets[tenant].(balance := e.balanceAfter)],
                        topups := db.topups + [TopupRow(tenant, amount, idemKey)], ledger := db.ledger + [e])
    ensures Inv(db1)
  {
    hide HeldSum, LedgerSum, Wrap, TopupKey, ChargeKey, KeysOf, Explained, Keyed;
    CreditKeepsKeyed(db, db1, tenant, amount, idemKey, e);
    assert Conserved(db, tenant);
    WrapOfWrap(db.opening[tenant] + LedgerSum(db.ledger, tenant), amount);
    AppendKeepsBalances(db, db1, e);
    forall t | t in db1.wallets ensures Conserved(db1, t) {
      assert Conserved(db, t);
      LedgerSumSnoc(db.ledger, e, t);
    }
  }

  lemma CreditKeepsKeyed(db: Db, db1: Db, tenant: string, amount: int, idemKey: string, e: Entry)
    requires Keyed(db) && FindTopup(db.topups, idemKey) == None
    requires e.tenant == tenant && e.amount == amount && e.key == TopupKey(idemKey)
    requires db1.reservations == db.reservations && db1.topups == db.topups + [TopupRow(tenant, amount, idemKey)] && db1.ledger == db.ledger + [e]
    ensures Keyed(db1)
  {
    hide KeysOf, ChargeKey, TopupKey, FindTopup;
    NewKeyNotCredited(db, idemKey);
    KeysSnoc(db.ledger, e);
    forall k | 0 <= k < |db1.reservations|
      ensures db1.reservations[k].status == Settled <==> ChargeKey(db1.reservations[k].id) in KeysOf(db1.ledger)
    {
      KeysDiffer(db.reservations[k].id, idemKey);
    }
    forall k | 0 <= k < |db1.ledger| ensures Explained(db1, db1.ledger[k]) {
      if k < |db.ledger| {
        ExplainedWithMoreRows(db, db1, db.ledger[k]);
      } else {
        assert db1.topups[|db.topups|] == TopupRow(tenant, amount, idemKey);
      }
    }
  }

  // --------------------------------------------------------------------- every run

  datatype Op =
    | ReserveOp(input: ReserveInput)
    | SettleOp(id: string, promptTokens: int, completionTokens: int)
    | ReleaseOp(id: string)
    | ReapOp(now: int, rows: seq<nat>)
    | TopUpOp(tenant: string, amount: int, idemKey: string)

  /** The initial allowance is a 64-bit number; the reaper selects expired holds. */
  ghost predicate Legal(db: Db, op: Op) {
    match op
    case ReserveOp(input) => InRange(input.allowance)
    case ReapOp(now, rows) => ExpiredRows(db, now, rows)
    case _ => true
  }

  ghost function Step(db: Db, op: Op): Db
    requires Legal(db, op)
  {
    match op
    case ReserveOp(input) => After(db, Reserve(db, input))
    case SettleOp(id, p, c) => After(db, Settle(db, id, p, c))
    case ReleaseOp(id) => After(db, Release(db, id))
    case ReapOp(now, rows) => After(db, ReleaseRows(db, rows))
    case TopUpOp(tenant, amount, key) => After(db, TopUp(db, tenant, amount, key))
  }

  /** `db'` is reached from `db` by the operations. */
  ghost predicate Reaches(db: Db, ops: seq<Op>, db': Db)
    decreases |ops|
  {
    if ops == [] then db' == db else Legal(db, ops[0]) && Reaches(Step(db, ops[0]), ops[1..], db')
  }

  lemma StepKeepsInv(db: Db, op: Op)
    requires Inv(db) && Legal(db, op)
    ensures Inv(Step(db, op))
  {
    hide Inv, Reserve, Settle, Release, ReleaseRows, TopUp;
    match op
    case ReserveOp(input) => ReserveKeepsInv(db, input);
    case SettleOp(id, p, c) => SettleKeepsInv(db, id, p, c);
    case ReleaseOp(id) => ReleaseKeepsInv(db, id);
    case ReapOp(now, rows) => ReleaseRowsKeepsInv(db, now, rows);
    case TopUpOp(tenant, amount, key) => TopUpKeepsInv(db, tenant, amount, key);
  }

  const EMPTY := Db(map[], map[], [], [], [])

  /** Ledger conservation over every run from empty tables. */
  lemma {:induction false} RunKeepsInv(db: Db, ops: seq<Op>, db': Db)
    requires Inv(db) && Reaches(db, ops, db')
    ensures Inv(db')
    decreases |ops|
  {
    hide Inv, Step;
    if ops != [] {
      StepKeepsInv(db, ops[0]);
      RunKeepsInv(Step(db, ops[0]), ops[1..], db');
    }
  }

  lemma EmptyIsConserved()
    ensures Inv(EMPTY)
  {
  }

  /** What that means to a reader of the tables: the sums are exact when they fit 64 bits. */
  lemma TablesAddUp(ops: seq<Op>, db: Db, tenant: string)
    requires Reaches(EMPTY, ops, db) && tenant in db.wallets
    ensures tenant in db.opening
    ensures InRange(HeldSum(db.reservations, tenant)) ==> db.wallets[tenant].reserved == HeldSum(db.reservations, tenant)
    ensures var total := db.opening[tenant] + LedgerSum(db.ledger, tenant); InRange(total) ==> db.wallets[tenant].balance == total
    ensures forall i :: 0 <= i < |db.reservations| ==>
      (db.reservations[i].status == Settled <==> ChargeKey(db.reservations[i].id) in KeysOf(db.ledger))
    ensures forall i, j :: 0 <= i < j < |db.ledger| ==> db.ledger[i].key != db.ledger[j].key
    ensures forall i, j :: 0 <= i < j < |db.topups| ==> db.topups[i].idemKey != db.topups[j].idemKey
    ensures forall i: nat :: i < |db.ledger| && db.ledger[i].tenant == tenant ==>
      var total := db.opening[tenant] + LedgerSum(db.ledger[..i + 1], tenant);
      InRange(total) ==> db.ledger[i].balanceAfter == total
  {
    hide Step, ChargeKey, LedgerSum, HeldSum, BalanceAfterIsSum, Reaches, Explained;
    EmptyIsConserved();
    RunKeepsInv(EMPTY, ops, db);
    assert Conserved(db, tenant);
    forall i, j | 0 <= i < j < |db.ledger| ensures db.ledger[i].key != db.ledger[j].key {
      assert KeysOf(db.ledger)[i] != KeysOf(db.ledger)[j];
    }
    PrefixesAddUp(db, tenant);
  }

  lemma PrefixesAddUp(db: Db, tenant: string)
    requires Inv(db) && tenant in db.wallets
    ensures forall i: nat :: i < |db.ledger| && db.ledger[i].tenant == tenant ==>
      var total := db.opening[tenant] + LedgerSum(db.ledger[..i + 1], tenant);
      InRange(total) ==> db.ledger[i].balanceAfter == total
  {
    hide HeldSum, LedgerSum, Keyed, Conserved;
    forall i: nat | i < |db.ledger| && db.ledger[i].tenant == tenant
      ensures db.ledger[i].balanceAfter == Wrap(db.opening[tenant] + LedgerSum(db.ledger[..i + 1], tenant))
    {
      assert BalanceAfterIsSum(db, i);
    }
  }

  /** Settling again changes nothing. */
  lemma SettleIsIdempotent(db: Db, id: string, p: int, c: int, p': int, c': int)
    requires Inv(db) && Settle(db, id, p, c).Done?
    ensures Settle(Settle(db, id, p, c).db, id, p', c') == Done(Settle(db, id, p, c).db)
  {
    hide HeldSum, LedgerSum, Wrap, KeysOf;
    var i, db1 := FindRow(db.reservations, id).value, Settle(db, id, p, c).db;
    assert db1.reservations[i].id == id && db1.reservations[i].status == Settled;
    FindsUnique(db1.reservations, i);
  }

  lemma {:induction false} FindsUnique(rows: seq<Reservation>, i: nat)
    requires UniqueIds(rows) && i < |rows|
    ensures FindRow(rows, rows[i].id) == Some(i)
  {
    var n := |rows| - 1;
    if i < n {
      assert rows[i].id != rows[n].id;
      FindsUnique(rows[..n], i);
    }
  }

  lemma FindsLast(rows: seq<TopupRow>, row: TopupRow)
    ensures FindTopup(rows + [row], row.idemKey) == Some(|rows|)
  {
  }

  /** Topping up again with the same key changes nothing. */
  lemma TopUpIsIdempotent(db: Db, tenant: string, amount: int, key: string)
    requires Inv(db) && TopUp(db, tenant, amount, key).Done?
    ensures TopUp(TopUp(db, tenant, amount, key).db, tenant, amount, key) == Done(TopUp(db, tenant, amount, key).db)
  {
    hide HeldSum, LedgerSum, Wrap, KeysOf, TopupKey;
    var db1 := TopUp(db, tenant, amount, key).db;
    if FindTopup(db.topups, key).None? {
      FindsLast(db.topups, TopupRow(tenant, amount, key));
    }
  }

  // -------------------------------------------------------------------- overdrafts

  /** No wallet is overdrawn: what is reserved is there, and holds are not negative. */
  ghost predicate Solvent(db: Db) {
    && (forall i :: 0 <= i < |db.reservations| && db.reservations[i].status == Held ==> db.reservations[i].amount >= 0)
    && forall t :: t in db.wallets ==> Covered(db, t)
  }

  ghost predicate Covered(db: Db, t: string)
    requires t in db.wallets
  {
    HeldSum(db.reservations, t) == db.wallets[t].reserved <= db.wallets[t].balance <= MAX64
  }

  lemma {:induction false} HoldsAddUp(rows: seq<Reservation>, i: nat, tenant: string)
    requires i < |rows| && rows[i].tenant == tenant && rows[i].status == Held
    requires forall k :: 0 <= k < |rows| && rows[k].status == Held ==> rows[k].amount >= 0
    ensures HeldSum(rows, tenant) >= rows[i].amount
  {
    var n := |rows| - 1;
    if i < n {
      HoldsAddUp(rows[..n], i, tenant);
    } else {
      HoldsNotNegative(rows[..n], tenant);
    }
  }

  lemma {:induction false} HoldsNotNegative(rows: seq<Reservation>, tenant: string)
    requires forall k :: 0 <= k < |rows| && rows[k].status == Held ==> rows[k].amount >= 0
    ensures HeldSum(rows, tenant) >= 0
  {
    if rows != [] {
      HoldsNotNegative(rows[..|rows| - 1], tenant);
    }
  }

  /** What the theorem asks of each step: enforced holds that are not negative, charges no
      larger than a live hold, no charge without one, top-ups that fit. */
  ghost predicate Careful(db: Db, op: Op) {
    match op
    case ReserveOp(input) => input.enforce && input.amount >= 0 && 0 <= input.allowance <= MAX64
    case SettleOp(id, p, c) =>
      var i := FindRow(db.reservations, id);
      i.Some? && db.reservations[i.value].status != Settled ==>
        var row := db.reservations[i.value];
        if row.status == Held then 0 <= Charge(row, p, c) <= row.amount else Charge(row, p, c) == 0
    case TopUpOp(tenant, amount, key) => amount >= 0 && (if tenant in db.wallets then db.wallets[tenant].balance + amount else amount) <= MAX64
    case _ => true
  }

  lemma ReserveKeepsSolvent(db: Db, input: ReserveInput)
    requires Inv(db) && Solvent(db) && Careful(db, ReserveOp(input))
    ensures Solvent(After(db, Reserve(db, input)))
  {
    hide HeldSum, LedgerSum, Keyed, BalanceAfterIsSum;
    var r, db1 := Reserve(db, input), CreateWallet(db, input.tenant, input.allowance);
    if input.tenant !in db.wallets {
      NothingHeld(db.reservations, input.tenant);
    }
    HoldsNotNegative(db.reservations, input.tenant);
    if r.Done? {
      var row := r.db.reservations[|db.reservations|];
      forall t | t in r.db.wallets ensures Covered(r.db, t) {
        assert t in db.wallets ==> Covered(db, t);
        HeldSumSnoc(db.reservations, row, t);
      }
    }
  }

  /** An unexceptional settle: the hold covers the charge and is there. */
  lemma SettleKeepsSolvent(db: Db, id: string, p: int, c: int)
    requires Inv(db) && Solvent(db) && Careful(db, SettleOp(id, p, c))
    ensures Solvent(After(db, Settle(db, id, p, c)))
  {
    hide HeldSum, LedgerSum, Keyed, BalanceAfterIsSum, KeysOf, ChargeKey, Charge;
    var i := FindRow(db.reservations, id);
    if i.Some? && db.reservations[i.value].status != Settled {
      var row, db1 := db.reservations[i.value], Settle(db, id, p, c).db;
      assert Covered(db, row.tenant);
      HoldsNotNegative(db.reservations, row.tenant);
      if row.status == Held {
        HoldsAddUp(db.reservations, i.value, row.tenant);
      }
      forall t | t in db1.wallets ensures Covered(db1, t) {
        assert Covered(db, t);
        HeldSumUpdate(db.reservations, i.value, row.(status := Settled), t);
      }
    }
  }

  /** The wallet of a settled row in exact arithmetic; a refund that overflows turns the balance
      negative. */
  lemma SettledWallet(db: Db, i: nat, charge: int, balance: int, reserved: int)
    requires Inv(db) && Solvent(db) && i < |db.reservations| && db.reservations[i].status != Settled && InRange(charge)
    requires var row := db.reservations[i]; var w := db.wallets[row.tenant];
      balance == Wrap(w.balance - charge) && reserved == (if row.status == Held then Wrap(w.reserved - row.amount) else w.reserved)
    ensures var row := db.reservations[i]; var w := db.wallets[row.tenant];
      && (if w.balance - charge <= MAX64 then balance == w.balance - charge else balance < 0)
      && 0 <= reserved == w.reserved - HeldPart(row, row.tenant)
      && HeldSum(db.reservations[i := row.(status := Settled)], row.tenant) == reserved
  {
    hide HeldSum, LedgerSum, Keyed, BalanceAfterIsSum;
    var row := db.reservations[i];
    assert Covered(db, row.tenant);
    HoldsNotNegative(db.reservations, row.tenant);
    if row.status == Held {
      HoldsAddUp(db.reservations, i, row.tenant);
    }
    HeldSumUpdate(db.reservations, i, row.(status := Settled), row.tenant);
  }

  lemma SettleLeavesOthers(db: Db, i: nat, db1: Db, t: string)
    requires Inv(db) && Solvent(db) && i < |db.reservations| && t in db.wallets && t != db.reservations[i].tenant
    requires t in db1.wallets && db1.wallets[t] == db.wallets[t]
    requires db1.reservations == db.reservations[i := db.reservations[i].(status := Settled)]
    ensures Covered(db1, t)
  {
    hide HeldSum, LedgerSum, Keyed, BalanceAfterIsSum;
    assert Covered(db, t);
    HeldSumUpdate(db.reservations, i, db.reservations[i].(status := Settled), t);
  }

  /** The charge fits the hold, if that is still there, plus whatever is available beside all
      holds; an overflowed price that refunds must leave the balance within 64 bits. */
  ghost predicate SettleFits(db: Db, row: Reservation, charge: int)
    requires row.tenant in db.wallets
  {
    var w := db.wallets[row.tenant];
    charge <= HeldPart(row, row.tenant) + (w.balance - w.reserved) && w.balance - charge <= MAX64
  }

  /** Exactly when a settle leaves the wallets covered. */
  lemma SettleCoversIff(db: Db, id: string, p: int, c: int)
    requires Inv(db) && Solvent(db)
    ensures var i := FindRow(db.reservations, id);
      Solvent(After(db, Settle(db, id, p, c))) <==>
        (i.Some? && db.reservations[i.value].status != Settled ==>
           SettleFits(db, db.reservations[i.value], Charge(db.reservations[i.value], p, c)))
  {
    hide HeldSum, LedgerSum, Keyed, BalanceAfterIsSum, KeysOf, ChargeKey, CostMicro, Wrap;
    var found := FindRow(db.reservations, id);
    if found.Some? && db.reservations[found.value].status != Settled {
      var i := found.value;
      var row, db1 := db.reservations[i], Settle(db, id, p, c).db;
      SettledWallet(db, i, Charge(row, p, c), db1.wallets[row.tenant].balance, db1.wallets[row.tenant].reserved);
      forall t | t in db1.wallets ensures t != row.tenant ==> Covered(db1, t) {
        if t != row.tenant {
          SettleLeavesOthers(db, i, db1, t);
        }
      }
      assert Solvent(db1) <==> Covered(db1, row.tenant);
    }
  }

  ghost predicate AllEnforced(ops: seq<Op>) {
    forall k :: 0 <= k < |ops| && ops[k].ReserveOp? ==> ops[k].input.enforce
  }

  /** An enforced wallet that overdraws: credit of ten, a hold of five, a charge of twenty. */
  lemma ChargeBeyondHold()
    ensures exists ops, db :: Reaches(EMPTY, ops, db) && AllEnforced(ops) && "t" in db.wallets && db.wallets["t"] == Wallet(-10, 0)
  {
    hide Step, Wrap, CostMicro;
    var input := ReserveInput("t", 10, 5, 1_000_000, 0, "a", 0, true);
    var db1 := HoldOfFive(input);
    var db2 := ChargeOfTwenty(db1);
    ReachesTwo(EMPTY, ReserveOp(input), SettleOp("a", 20, 0));
    assert AllEnforced([ReserveOp(input), SettleOp("a", 20, 0)]);
  }

  lemma ReachesTwo(db: Db, a: Op, b: Op)
    requires Legal(db, a) && Legal(Step(db, a), b)
    ensures Reaches(db, [a, b], Step(Step(db, a), b))
  {
    hide Legal, Step;
    assert [a, b][1..] == [b] && [b][1..] == [];
    assert Reaches(Step(db, a), [b], Step(Step(db, a), b));
  }

  lemma HoldOfFive(input: ReserveInput) returns (db: Db)
    requires input == ReserveInput("t", 10, 5, 1_000_000, 0, "a", 0, true)
    ensures db == Step(EMPTY, ReserveOp(input)) && db.wallets == map["t" := Wallet(10, 5)] && db.ledger == []
    ensures db.reservations == [Reservation("a", "t", 5, 1_000_000, 0, Held, 0)]
  {
    db := Step(EMPTY, ReserveOp(input));
  }

  lemma ChargeOfTwenty(db: Db) returns (db': Db)
    requires db.wallets == map["t" := Wallet(10, 5)] && db.ledger == []
    requires db.reservations == [Reservation("a", "t", 5, 1_000_000, 0, Held, 0)]
    ensures db' == Step(db, SettleOp("a", 20, 0)) && "t" in db'.wallets && db'.wallets["t"] == Wallet(-10, 0)
  {
    hide ChargeKey;
    assert FindRow(db.reservations, "a") == Some(0);
    assert CostMicro(20, 1_000_000) == 20 && CostMicro(0, 0) == 0;
    db' := Step(db, SettleOp("a", 20, 0));
  }

  lemma ReleaseRowKeepsSolvent(db: Db, i: nat)
    requires Inv(db) && Solvent(db) && i < |db.reservations| && db.reservations[i].status == Held
    ensures Solvent(After(db, ReleaseRow(db, i)))
  {
    hide HeldSum, LedgerSum, Keyed, BalanceAfterIsSum;
    var row, r := db.reservations[i], ReleaseRow(db, i);
    HoldsAddUp(db.reservations, i, row.tenant);
    if r.Done? {
      forall t | t in r.db.wallets ensures Covered(r.db, t) {
        assert Covered(db, t);
        HeldSumUpdate(db.reservations, i, row.(status := Released), t);
      }
    }
  }

  lemma {:induction false} ReleaseRowsKeepsSolvent(db: Db, now: int, rows: seq<nat>)
    requires Inv(db) && Solvent(db) && ExpiredRows(db, now, rows)
    ensures Solvent(After(db, ReleaseRows(db, rows)))
    decreases |rows|
  {
    hide Inv, Solvent, ReleaseRow;
    if rows != [] {
      ReleaseRowKeepsInv(db, rows[0]);
      ReleaseRowKeepsSolvent(db, rows[0]);
      var r := ReleaseRow(db, rows[0]);
      if r.Done? {
        ReleaseRowTouchesOne(db, rows[0]);
        ReleaseRowsKeepsSolvent(r.db, now, rows[1..]);
      }
    }
  }

  lemma TopUpKeepsSolvent(db: Db, tenant: string, amount: int, key: string)
    requires Inv(db) && Solvent(db) && Careful(db, TopUpOp(tenant, amount, key))
    ensures Solvent(After(db, TopUp(db, tenant, amount, key)))
  {
    hide HeldSum, LedgerSum, Keyed, BalanceAfterIsSum, KeysOf, TopupKey;
    var r := TopUp(db, tenant, amount, key);
    if tenant !in db.wallets {
      NothingHeld(db.reservations, tenant);
    } else {
      assert Covered(db, tenant);
      HoldsNotNegative(db.reservations, tenant);
    }
    if r.Done? {
      forall t | t in r.db.wallets ensures Covered(r.db, t) {
        assert t in db.wallets ==> Covered(db, t);
      }
    }
  }

  lemma StepKeepsSolvent(db: Db, op: Op)
    requires Inv(db) && Solvent(db) && Legal(db, op) && Careful(db, op)
    ensures Solvent(Step(db, op))
  {
    hide Inv, Solvent, Reserve, Settle, Release, ReleaseRows, ReleaseRow, TopUp;
    match op
    case ReserveOp(input) => ReserveKeepsSolvent(db, input);
    case SettleOp(id, p, c) => SettleKeepsSolvent(db, id, p, c);
    case ReleaseOp(id) => ReleaseKeepsSolvent(db, id);
    case ReapOp(now, rows) => ReleaseRowsKeepsSolvent(db, now, rows);
    case TopUpOp(tenant, amount, key) => TopUpKeepsSolvent(db, tenant, amount, key);
  }

  lemma ReleaseKeepsSolvent(db: Db, id: string)
    requires Inv(db) && Solvent(db)
    ensures Solvent(After(db, Release(db, id)))
  {
    hide Inv, Solvent, ReleaseRow;
    var i := FindRow(db.reservations, id);
    if i.Some? && db.reservations[i.value].status == Held {
      ReleaseRowKeepsSolvent(db, i.value);
    }
  }

  /** Every step of the run is careful. */
  ghost predicate AllCareful(db: Db, ops: seq<Op>)
    decreases |ops|
  {
    ops != [] ==> Legal(db, ops[0]) && Careful(db, ops[0]) && AllCareful(Step(db, ops[0]), ops[1..])
  }

  /** Enforced wallets do not overdraw, in any reachable state of a careful run. */
  lemma {:induction false} NoOverdraft(db: Db, ops: seq<Op>, db': Db)
    requires Inv(db) && Solvent(db) && AllCareful(db, ops) && Reaches(db, ops, db')
    ensures Solvent(db')
    decreases |ops|
  {
    hide Inv, Solvent, Step, Careful;
    if ops != [] {
      StepKeepsInv(db, ops[0]);
      StepKeepsSolvent(db, ops[0]);
      NoOverdraft(Step(db, ops[0]), ops[1..], db');
    }
  }

  /** Actual tokens within the estimates make the charge fit the hold that was placed for
      them, as long as the estimated costs do not overflow. */
  lemma ActualWithinEstimate(row: Reservation, est: int, max: int, p: int, c: int)
    requires Fits(est, row.inputPrice) && Fits(max, row.outputPrice) && p <= est && c <= max
    requires CostMicro(est, row.inputPrice) + CostMicro(max, row.outputPrice) <= MAX64
    requires row.amount == Wrap(CostMicro(est, row.inputPrice) + CostMicro(max, row.outputPrice))
    ensures 0 <= Charge(row, p, c) <= row.amount
  {
    Monotone(p, est, row.inputPrice);
    Monotone(c, max, row.outputPrice);
  }
}
