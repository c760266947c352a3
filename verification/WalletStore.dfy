/** The wallet repository and the billing service as objects: every call is one transaction
    on the tables, and a call that fails leaves them unchanged. */
module WalletStores {
  import opened Wrappers
  import opened Pricing
  import opened Wallets
  import opened WalletLaws

  /** The new tables are what the transaction makes of the old ones, or unchanged. */
  ghost predicate Committed(before: Db, r: Outcome, after: Db, error: Option<Error>) {
    match r
    case Done(db) => after == db && error == None
    case Failed(e) => after == before && error == Some(e)
  }

  class WalletStore {
    var wallets: map<string, Wallet>
    var reservations: seq<Reservation>
    var ledger: seq<Entry>
    var topups: seq<TopupRow>
    ghost var opening: map<string, int>

    ghost function Tables(): Db
      reads this
    {
      Db(wallets, opening, reservations, ledger, topups)
    }

    constructor ()
      ensures Tables() == EMPTY && Inv(Tables())
    {
      wallets, reservations, ledger, topups, opening := map[], [], [], [], map[];
      EmptyIsConserved();
    }

    /** Get-or-create the wallet, check what is available, place the hold. */
    method Reserve(input: ReserveInput) returns (error: Option<Error>)
      requires Inv(Tables()) && InRange(input.allowance)
      modifies this
      ensures Inv(Tables()) && Committed(old(Tables()), Wallets.Reserve(old(Tables()), input), Tables(), error)
    {
      hide Inv, Wrap, FindRow;
      ReserveKeepsInv(Tables(), input);
      var isNew := input.tenant !in wallets;
      var cur := if isNew then Wallet(input.allowance, 0) else wallets[input.tenant];
      if input.enforce && input.amount > 0 && Wrap(cur.balance - cur.reserved) < input.amount {
        return Some(InsufficientCredits);
      }
      if !InRange(cur.reserved + input.amount) || FindRow(reservations, input.id).Some? {
        return Some(DatabaseError);
      }
      if isNew {
        opening := opening[input.tenant := input.allowance];
      }
      wallets := (if isNew then wallets[input.tenant := cur] else wallets)[input.tenant := cur.(reserved := cur.reserved + input.amount)];
      reservations := reservations +
        [Reservation(input.id, input.tenant, input.amount, input.inputPrice, input.outputPrice, Held, input.expiresAt)];
      error := None;
    }

    /** Capture the real usage, release the rest of the hold, append the charge. */
    method Settle(id: string, promptTokens: int, completionTokens: int) returns (error: Option<Error>)
      requires Inv(Tables())
      modifies this
      ensures Inv(Tables()) && Committed(old(Tables()), Wallets.Settle(old(Tables()), id, promptTokens, completionTokens), Tables(), error)
    {
      hide Keyed, Conserved, BalanceAfterIsSum, Wrap, CostMicro;
      SettleKeepsInv(Tables(), id, promptTokens, completionTokens);
      var i := FindRow(reservations, id);
      if i.None? {
        return Some(NotFound);
      }
      var res := reservations[i.value];
      if res.status == Settled {
        return None;
      }
      var charge := Wrap(CostMicro(promptTokens, res.inputPrice) + CostMicro(completionTokens, res.outputPrice));
      var w := wallets[res.tenant];
      var newBalance, newReserved := Wrap(w.balance - charge), w.reserved;
      if res.status == Held {
        newReserved := Wrap(newReserved - res.amount);
      }
      wallets := wallets[res.tenant := Wallet(newBalance, newReserved)];
      var entry := Entry(res.tenant, Wrap(-charge), newBalance, ChargeKey(res.id));
      if entry.key !in KeysOf(ledger) {
        ledger := ledger + [entry];
      }
      reservations := reservations[i.value := res.(status := Settled)];
      error := None;
    }

    /** Free an unused hold without charging. */
    method Release(id: string) returns (error: Option<Error>)
      requires Inv(Tables())
      modifies this
      ensures Inv(Tables()) && Committed(old(Tables()), Wallets.Release(old(Tables()), id), Tables(), error)
    {
      hide Keyed, Conserved, BalanceAfterIsSum;
      ReleaseKeepsInv(Tables(), id);
      var i := FindRow(reservations, id);
      if i.None? {
        return Some(NotFound);
      }
      if reservations[i.value].status != Held {
        return None;
      }
      error := FreeRow(i.value);
    }

    /** The two updates that free the hold of row `i`. */
    method FreeRow(i: nat) returns (error: Option<Error>)
      requires Inv(Tables()) && i < |reservations|
      modifies this`wallets, this`reservations
      ensures Committed(old(Tables()), ReleaseRow(old(Tables()), i), Tables(), error)
    {
      hide Keyed, Conserved, BalanceAfterIsSum;
      var res := reservations[i];
      var w := wallets[res.tenant];
      if !InRange(w.reserved - res.amount) {
        return Some(DatabaseError);
      }
      wallets := wallets[res.tenant := w.(reserved := w.reserved - res.amount)];
      reservations := reservations[i := res.(status := Released)];
      error := None;
    }

    /** At most `limit` held rows past their lease. */
    method ScanExpired(now: int, limit: nat) returns (rows: seq<nat>)
      ensures ExpiredRows(Tables(), now, rows) && |rows| <= limit
      ensures |rows| < limit ==> forall i :: 0 <= i < |reservations| && reservations[i].status == Held && reservations[i].expiresAt < now ==> i in rows
    {
      rows := [];
      for i := 0 to |reservations|
        invariant ExpiredRows(Tables(), now, rows) && |rows| <= limit && forall k :: 0 <= k < |rows| ==> rows[k] < i
        invariant |rows| < limit ==>
          forall k :: 0 <= k < i && reservations[k].status == Held && reservations[k].expiresAt < now ==> k in rows
      {
        if |rows| < limit && reservations[i].status == Held && reservations[i].expiresAt < now {
          rows := rows + [i];
        }
      }
    }

    /** Reap expired holds, all or none of those selected.  After an error the count is that of
        the rows freed before it, none of which stays freed. */
    method ReleaseExpired(now: int, limit: nat) returns (n: nat, error: Option<Error>, ghost rows: seq<nat>)
      requires Inv(Tables())
      modifies this`wallets, this`reservations
      ensures Inv(Tables()) && ExpiredRows(old(Tables()), now, rows) && |rows| <= limit
      ensures Committed(old(Tables()), ReleaseRows(old(Tables()), rows), Tables(), error)
      ensures if error == None then n == |rows| else
        n < |rows| && ReleaseRows(old(Tables()), rows[..n]).Done? && ReleaseRows(old(Tables()), rows[..n + 1]).Failed?
    {
      hide Inv, ReleaseRow, ReleaseRows;
      var selected := ScanExpired(now, limit);
      rows := selected;
      ReleaseRowsKeepsInv(Tables(), now, rows);
      var savedWallets, savedReservations := wallets, reservations;
      ghost var start, rest := Tables(), selected;
      n, error := 0, None;
      ReapDone(start);
      for i := 0 to |selected|
        invariant ReleaseRows(start, selected[..i]) == Done(Tables())
        invariant n == i && error == None && rest == selected[i..] && Inv(Tables()) && ExpiredRows(Tables(), now, rest)
        invariant ReleaseRows(start, selected) == ReleaseRows(Tables(), rest)
      {
        ReapStep(Tables(), now, rest);
        ReapSnoc(start, now, selected, i);
        error := FreeRow(selected[i]);
        if error.Some? {
          wallets, reservations := savedWallets, savedReservations;
          return n, error, rows;
        }
        n, rest := n + 1, rest[1..];
      }
      ReapDone(Tables());
    }

    /** Credit the wallet once per idempotency key. */
    method TopUp(tenant: string, amount: int, idemKey: string) returns (error: Option<Error>)
      requires Inv(Tables())
      modifies this
      ensures Inv(Tables()) && Committed(old(Tables()), Wallets.TopUp(old(Tables()), tenant, amount, idemKey), Tables(), error)
    {
      hide Keyed, Conserved, BalanceAfterIsSum, Wrap;
      TopUpKeepsInv(Tables(), tenant, amount, idemKey);
      var existing := FindTopup(topups, idemKey);
      if existing.Some? {
        var row := topups[existing.value];
        return if row.tenant != tenant || row.amount != amount then Some(IdempotencyConflict) else None;
      }
      var isNew := tenant !in wallets;
      var cur := if isNew then Wallet(0, 0) else wallets[tenant];
      var newBalance := Wrap(cur.balance + amount);
      var entry := Entry(tenant, amount, newBalance, TopupKey(idemKey));
      if entry.key in KeysOf(ledger) {
        return Some(DatabaseError);
      }
      if isNew {
        opening := opening[tenant := 0];
      }
      wallets := (if isNew then wallets[tenant := cur] else wallets)[tenant := cur.(balance := newBalance)];
      topups, ledger := topups + [TopupRow(tenant, amount, idemKey)], ledger + [entry];
      error := None;
    }
  }

  lemma ReapStep(db: Db, now: int, rows: seq<nat>)
    requires Inv(db) && ExpiredRows(db, now, rows) && rows != []
    ensures match ReleaseRow(db, rows[0])
      case Failed(e) => ReleaseRows(db, rows) == Failed(e)
      case Done(db1) => Inv(db1) && ExpiredRows(db1, now, rows[1..]) && ReleaseRows(db, rows) == ReleaseRows(db1, rows[1..])
  {
    hide Inv, ReleaseRow;
    ReleaseRowKeepsInv(db, rows[0]);
    if ReleaseRow(db, rows[0]).Done? {
      ReleaseRowTouchesOne(db, rows[0]);
    }
  }

  lemma {:induction false} ReapSnoc(db: Db, now: int, rows: seq<nat>, i: nat)
    requires Inv(db) && ExpiredRows(db, now, rows) && i < |rows| && ReleaseRows(db, rows[..i]).Done?
    ensures var db1 := ReleaseRows(db, rows[..i]).db;
      rows[i] < |db1.reservations| && ReleaseRows(db, rows[..i + 1]) == ReleaseRow(db1, rows[i])
    decreases i
  {
    hide Inv, ReleaseRow;
    ReapStep(db, now, rows);
    assert rows[..i + 1][0] == rows[0] && rows[..i + 1][1..] == rows[1..][..i];
    ReapStep(db, now, rows[..i + 1]);
    if i == 0 {
      ReapDone(db);
    } else {
      assert rows[..i][0] == rows[0] && rows[..i][1..] == rows[1..][..i - 1];
      ReapStep(db, now, rows[..i]);
      ReapSnoc(ReleaseRow(db, rows[0]).db, now, rows[1..], i - 1);
    }
  }

  lemma ReapDone(db: Db)
    ensures ReleaseRows(db, []) == Done(db)
  {
  }

  // ---------------------------------------------------------------------- service

  datatype Mode = Off | Shadow | Enforce

  datatype Price = Price(input: int, output: int)

  /** The hold for an estimate: an upper bound on what will be charged. */
  function Hold(price: Price, estInput: int, maxOutput: int): int {
    Wrap(CostMicro(estInput, price.input) + CostMicro(maxOutput, price.output))
  }

  /** When both costs and their sum fit, the exact price of the estimate. */
  lemma HoldIsPrice(price: Price, estInput: int, maxOutput: int)
    requires Fits(estInput, price.input) && Fits(maxOutput, price.output)
    ensures
      var exact := Rounded(estInput, price.input) + Rounded(maxOutput, price.output);
      Hold(price, estInput, maxOutput) == exact <==> InRange(exact)
  {
    hide CostMicro, Rounded, Wrap;
    CostIsRoundedIffFits(estInput, price.input);
    CostIsRoundedIffFits(maxOutput, price.output);
  }

  class Service {
    const mode: Mode
    const allowance: int
    const store: WalletStore
    var prices: map<string, Price>

    ghost predicate Valid()
      reads this, store
    {
      Inv(store.Tables()) && InRange(allowance)
    }

    constructor (mode: Mode, allowance: int, store: WalletStore, prices: map<string, Price>)
      requires Inv(store.Tables()) && InRange(allowance)
      ensures Valid() && this.mode == mode && this.allowance == allowance && this.store == store && this.prices == prices
    {
      this.mode, this.allowance, this.store, this.prices := mode, allowance, store, prices;
    }

    /** Places an upper-bound hold; a model without a price is held at zero. */
    method Reserve(tenant: string, model: string, estInput: int, maxOutput: int, id: string, expiresAt: int)
      returns (reservation: string, error: Option<Error>)
      requires Valid()
      modifies store
      ensures Valid()
      ensures mode == Off ==> store.Tables() == old(store.Tables()) && error == None && reservation == ""
      ensures mode != Off ==>
        var price := if model in prices then prices[model] else Price(0, 0);
        var input := ReserveInput(tenant, allowance, Hold(price, estInput, maxOutput), price.input, price.output, id, expiresAt, mode == Enforce);
        Committed(old(store.Tables()), Wallets.Reserve(old(store.Tables()), input), store.Tables(), error) &&
        reservation == if error == None then id else ""
    {
      hide Inv, Wallets.Reserve;
      if mode == Off {
        return "", None;
      }
      var price := if model in prices then prices[model] else Price(0, 0);
      var hold := Wrap(CostMicro(estInput, price.input) + CostMicro(maxOutput, price.output));
      error := store.Reserve(ReserveInput(tenant, allowance, hold, price.input, price.output, id, expiresAt, mode == Enforce));
      reservation := if error == None then id else "";
    }

    /** Nothing was reserved under the empty id. */
    method Settle(id: string, promptTokens: int, completionTokens: int) returns (error: Option<Error>)
      requires Valid()
      modifies store
      ensures Valid()
      ensures if id == "" || mode == Off then error == None && store.Tables() == old(store.Tables())
              else Committed(old(store.Tables()), Wallets.Settle(old(store.Tables()), id, promptTokens, completionTokens), store.Tables(), error)
    {
      hide Inv, Wallets.Settle;
      if id == "" || mode == Off {
        return None;
      }
      error := store.Settle(id, promptTokens, completionTokens);
    }

    method Release(id: string) returns (error: Option<Error>)
      requires Valid()
      modifies store
      ensures Valid()
      ensures if id == "" || mode == Off then error == None && store.Tables() == old(store.Tables())
              else Committed(old(store.Tables()), Wallets.Release(old(store.Tables()), id), store.Tables(), error)
    {
      hide Inv, Wallets.Release;
      if id == "" || mode == Off {
        return None;
      }
      error := store.Release(id);
    }
  }
}
