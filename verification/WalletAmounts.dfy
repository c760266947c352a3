/** What each wallet operation moves: the tables after it, from the tables before it, in the
    amounts the caller sees. */
module WalletAmounts {
  import opened Wrappers
  import opened Pricing
  import opened Wallets
  import opened WalletLaws

  /** In 64 bits the tenant's wallet moves by these amounts; no other wallet moves. */
  ghost predicate Moves(db: Db, db': Db, tenant: string, balance: int, reserved: int) {
    && tenant in db.wallets && db'.wallets.Keys == db.wallets.Keys
    && db'.wallets[tenant].balance == Wrap(db.wallets[tenant].balance + balance)
    && db'.wallets[tenant].reserved == Wrap(db.wallets[tenant].reserved + reserved)
    && forall t :: t in db.wallets && t != tenant ==> db'.wallets[t] == db.wallets[t]
  }

  lemma {:induction false} RowIsFound(rows: seq<Reservation>, i: nat)
    requires UniqueIds(rows) && i < |rows|
    ensures FindRow(rows, rows[i].id) == Some(i)
  {
    var found := FindRow(rows, rows[i].id);
    assert found.Some?;
    assert rows[found.value].id == rows[i].id;
  }

  lemma WalletInRange(db: Db, tenant: string)
    requires Inv(db) && tenant in db.wallets
    ensures InRange(db.wallets[tenant].balance) && InRange(db.wallets[tenant].reserved)
  {
    hide HeldSum, LedgerSum, Keyed, BalanceAfterIsSum;
    assert Conserved(db, tenant);
  }

  // ----------------------------------------------------------------------- settle

  /** Settling row `i`, held or reaped, takes the cost of the prompt plus the cost of the
      completion, at the row's prices, from the balance and books exactly that; the hold is
      given back if there still is one. */
  lemma SettleCharges(db: Db, i: nat, p: int, c: int)
    requires Inv(db) && i < |db.reservations| && db.reservations[i].status != Settled
    ensures
      var row := db.reservations[i];
      var total := CostMicro(p, row.inputPrice) + CostMicro(c, row.outputPrice);
      var r := Settle(db, row.id, p, c);
      && r.Done? && Moves(db, r.db, row.tenant, -total, if row.status == Held then -row.amount else 0)
      && r.db.ledger == db.ledger + [Entry(row.tenant, Wrap(-total), Wrap(db.wallets[row.tenant].balance - total), "charge:" + row.id)]
      && r.db.reservations == db.reservations[i := row.(status := Settled)] && r.db.topups == db.topups && r.db.opening == db.opening
  {
    hide HeldSum, LedgerSum, Conserved, BalanceAfterIsSum, Wrap, KeysOf, FindRow, CostMicro, Explained;
    var row := db.reservations[i];
    RowIsFound(db.reservations, i);
    WalletInRange(db, row.tenant);
    var total := CostMicro(p, row.inputPrice) + CostMicro(c, row.outputPrice);
    var w := db.wallets[row.tenant];
    WrapOfWrap(total, w.balance);
    WrapOfWrap(total, 0);
    assert Wrap(0 - Wrap(total)) == Wrap(0 - total);
    assert ChargeKey(row.id) !in KeysOf(db.ledger);
  }

  /** When the counts fit, that is the exact price of each rounded half up, and when the new
      balance and reserve fit too nothing wraps: the balance falls by the price, and the entry
      has minus the price. */
  lemma SettleChargesPrice(db: Db, i: nat, p: int, c: int, price: int)
    requires Inv(db) && i < |db.reservations| && db.reservations[i].status != Settled
    requires Fits(p, db.reservations[i].inputPrice) && Fits(c, db.reservations[i].outputPrice)
    requires price == Rounded(p, db.reservations[i].inputPrice) + Rounded(c, db.reservations[i].outputPrice)
    ensures
      var row := db.reservations[i];
      var r := Settle(db, row.id, p, c);
      && r.Done? && row.tenant in db.wallets && row.tenant in r.db.wallets && |r.db.ledger| == |db.ledger| + 1
      && (InRange(price) && InRange(db.wallets[row.tenant].balance - price) ==>
          && r.db.wallets[row.tenant].balance == db.wallets[row.tenant].balance - price
          && r.db.ledger[|db.ledger|] == Entry(row.tenant, -price, db.wallets[row.tenant].balance - price, "charge:" + row.id))
      && (row.status == Held && InRange(db.wallets[row.tenant].reserved - row.amount) ==>
          r.db.wallets[row.tenant].reserved == db.wallets[row.tenant].reserved - row.amount)
      && (row.status == Released ==> r.db.wallets[row.tenant].reserved == db.wallets[row.tenant].reserved)
  {
    hide Inv, Wrap, CostMicro, Settle, Rounded;
    var row := db.reservations[i];
    CostIsRoundedIffFits(p, row.inputPrice);
    CostIsRoundedIffFits(c, row.outputPrice);
    SettleCharges(db, i, p, c);
    WalletInRange(db, row.tenant);
    RoundedNotNegative(p, row.inputPrice);
    RoundedNotNegative(c, row.outputPrice);
  }

  lemma RoundedNotNegative(tokens: int, price: int)
    ensures Rounded(tokens, price) >= 0
  {
    if tokens > 0 && price > 0 {
      Positive(tokens, price);
    }
  }

  /** No row, no charge and no release. */
  lemma UnknownReservation(db: Db, id: string, p: int, c: int)
    requires forall i :: 0 <= i < |db.reservations| ==> db.reservations[i].id != id
    ensures Settle(db, id, p, c) == Release(db, id) == Failed(NotFound)
  {
  }

  // ---------------------------------------------------------------------- reserve

  /** What an enforced hold may take: of a new wallet, the whole allowance. */
  function Available(db: Db, tenant: string, allowance: int): int {
    if tenant in db.wallets then db.wallets[tenant].balance - db.wallets[tenant].reserved else allowance
  }

  function Balance(db: Db, tenant: string, allowance: int): int {
    if tenant in db.wallets then db.wallets[tenant].balance else allowance
  }

  function Reserved(db: Db, tenant: string): int {
    if tenant in db.wallets then db.wallets[tenant].reserved else 0
  }

  /** An enforced hold is refused for lack of credits exactly when it is positive and more than
      what is available, in 64 bits; any other is refused only for a used id or a reserve past 64 bits. */
  lemma ReserveRefusedIff(db: Db, input: ReserveInput)
    ensures
      var r := Reserve(db, input);
      var short := input.enforce && 0 < input.amount && Wrap(Available(db, input.tenant, input.allowance)) < input.amount;
      var used := exists i :: 0 <= i < |db.reservations| && db.reservations[i].id == input.id;
      && (r == Failed(InsufficientCredits) <==> short)
      && (r == Failed(DatabaseError) <==> !short && (!InRange(Reserved(db, input.tenant) + input.amount) || used))
      && (r.Failed? ==> r.error == InsufficientCredits || r.error == DatabaseError)
  {
    hide FindRow, Wrap;
    var found := FindRow(db.reservations, input.id);
    assert found.Some? ==> db.reservations[found.value].id == input.id;
  }

  /** An accepted hold adds its amount to the reserve of the tenant's wallet, which starts with
      the allowance, and a held row with the prices of the moment; nothing else moves. */
  lemma ReservePlaces(db: Db, input: ReserveInput)
    requires Reserve(db, input).Done?
    ensures
      var db' := Reserve(db, input).db;
      && db'.wallets.Keys == db.wallets.Keys + {input.tenant}
      && db'.wallets[input.tenant] ==
           Wallet(Balance(db, input.tenant, input.allowance), Reserved(db, input.tenant) + input.amount)
      && (forall t :: t in db.wallets && t != input.tenant ==> db'.wallets[t] == db.wallets[t])
      && |db'.reservations| == |db.reservations| + 1 && db'.reservations[..|db.reservations|] == db.reservations
      && db'.ledger == db.ledger && db'.topups == db.topups
    ensures
      var row := Reserve(db, input).db.reservations[|db.reservations|];
      && row.id == input.id && row.tenant == input.tenant && row.amount == input.amount && row.status == Held
      && row.inputPrice == input.inputPrice && row.outputPrice == input.outputPrice && row.expiresAt == input.expiresAt
  {
    hide FindRow, Wrap;
  }

  // -------------------------------------------------------------- release and reaper

  /** Releasing row `i`: a held one is freed, its amount leaves the reserve and no credit moves;
      a settled or released one stays as it is. */
  lemma ReleaseFrees(db: Db, i: nat)
    requires Inv(db) && i < |db.reservations|
    ensures
      var row := db.reservations[i];
      var r := Release(db, row.id);
      && row.tenant in db.wallets
      && (row.status != Held ==> r == Done(db))
      && (row.status == Held ==> (r == Failed(DatabaseError) <==> !InRange(db.wallets[row.tenant].reserved - row.amount)))
      && (row.status == Held && r.Done? ==>
          && Moves(db, r.db, row.tenant, 0, -row.amount) && r.db.reservations == db.reservations[i := row.(status := Released)]
          && r.db.ledger == db.ledger && r.db.topups == db.topups)
      && (r.Failed? ==> r == Failed(DatabaseError))
  {
    hide HeldSum, LedgerSum, Conserved, BalanceAfterIsSum, Wrap, FindRow, Explained;
    RowIsFound(db.reservations, i);
    WalletInRange(db, db.reservations[i].tenant);
  }

  /** The amounts of a tenant's rows among those selected. */
  function SelectedSum(rows: seq<Reservation>, selected: seq<nat>, tenant: string): int
    requires forall k :: 0 <= k < |selected| ==> selected[k] < |rows|
  {
    if selected == [] then 0
    else (if rows[selected[0]].tenant == tenant then rows[selected[0]].amount else 0) + SelectedSum(rows, selected[1..], tenant)
  }

  lemma {:induction false} SelectedSumSame(rows: seq<Reservation>, rows': seq<Reservation>, selected: seq<nat>, tenant: string)
    requires |rows'| == |rows| && forall k :: 0 <= k < |selected| ==> selected[k] < |rows|
    requires forall i :: 0 <= i < |rows| ==> rows'[i].tenant == rows[i].tenant && rows'[i].amount == rows[i].amount
    ensures SelectedSum(rows', selected, tenant) == SelectedSum(rows, selected, tenant)
  {
    if selected != [] {
      SelectedSumSame(rows, rows', selected[1..], tenant);
    }
  }

  /** A reap that succeeds frees exactly the selected rows: each wallet's reserve falls by the
      amounts of its own, and no credit moves. */
  lemma {:induction false} ReapFrees(db: Db, now: int, selected: seq<nat>)
    requires Inv(db) && ExpiredRows(db, now, selected) && ReleaseRows(db, selected).Done?
    ensures
      var db' := ReleaseRows(db, selected).db;
      && |db'.reservations| == |db.reservations|
      && (forall i :: 0 <= i < |db.reservations| ==>
          db'.reservations[i] == if i in selected then db.reservations[i].(status := Released) else db.reservations[i])
      && db'.ledger == db.ledger && db'.topups == db.topups && db'.wallets.Keys == db.wallets.Keys
      && forall t :: t in db.wallets ==>
          db'.wallets[t] == Wallet(db.wallets[t].balance, db.wallets[t].reserved - SelectedSum(db.reservations, selected, t))
    decreases |selected|
  {
    hide Inv, Wrap;
    if selected != [] {
      var i := selected[0];
      var db1 := ReleaseRow(db, i).db;
      ReleaseRowKeepsInv(db, i);
      FreedRow(db, i);
      ReapFrees(db1, now, selected[1..]);
      forall t ensures SelectedSum(db1.reservations, selected[1..], t) == SelectedSum(db.reservations, selected[1..], t) {
        SelectedSumSame(db.reservations, db1.reservations, selected[1..], t);
      }
      assert selected == [i] + selected[1..];
    }
  }

  lemma FreedRow(db: Db, i: nat)
    requires Inv(db) && i < |db.reservations| && ReleaseRow(db, i).Done?
    ensures
      var row, db1 := db.reservations[i], ReleaseRow(db, i).db;
      && row.tenant in db.wallets && db1.reservations == db.reservations[i := row.(status := Released)]
      && db1.wallets == db.wallets[row.tenant := Wallet(db.wallets[row.tenant].balance, db.wallets[row.tenant].reserved - row.amount)]
      && db1.ledger == db.ledger && db1.topups == db.topups
  {
    hide HeldSum, LedgerSum, Conserved, BalanceAfterIsSum, Wrap, Keyed;
  }

  // ----------------------------------------------------------------------- top-up

  /** A key used before with the same tenant and amount changes nothing, with others it is a
      conflict; a new key credits the amount once, to a wallet created at zero if need be, and
      books it. */
  lemma TopUpCredits(db: Db, tenant: string, amount: int, idemKey: string)
    requires Inv(db)
    ensures
      var r := TopUp(db, tenant, amount, idemKey);
      && (forall i :: 0 <= i < |db.topups| && db.topups[i].idemKey == idemKey ==>
          r == if db.topups[i].tenant == tenant && db.topups[i].amount == amount then Done(db) else Failed(IdempotencyConflict))
      && ((forall i :: 0 <= i < |db.topups| ==> db.topups[i].idemKey != idemKey) ==>
          var balance := Wrap(Balance(db, tenant, 0) + amount);
          && r.Done? && r.db.wallets.Keys == db.wallets.Keys + {tenant}
          && r.db.wallets[tenant] == Wallet(balance, Reserved(db, tenant))
          && (forall t :: t in db.wallets && t != tenant ==> r.db.wallets[t] == db.wallets[t])
          && r.db.topups == db.topups + [TopupRow(tenant, amount, idemKey)]
          && r.db.ledger == db.ledger + [Entry(tenant, amount, balance, "topup:" + idemKey)]
          && r.db.reservations == db.reservations)
  {
    hide HeldSum, LedgerSum, Conserved, BalanceAfterIsSum, Wrap, FindTopup, KeysOf, Explained;
    var found := FindTopup(db.topups, idemKey);
    if found.Some? {
      assert db.topups[found.value].idemKey == idemKey;
    } else {
      NewKeyNotCredited(db, idemKey);
    }
  }
}
