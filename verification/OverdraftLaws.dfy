/** Enforced wallets do not overdraw: the condition in the caller's own terms. */
module OverdraftLaws {
  import opened Wrappers
  import opened Pricing
  import opened Wallets
  import opened WalletLaws

  /** The token counts a hold was computed from. */
  datatype Estimate = Estimate(input: int, output: int)

  /** The estimated costs and their sum stay within 64 bits. */
  predicate Priced(e: Estimate, inputPrice: int, outputPrice: int) {
    && Fits(e.input, inputPrice) && Fits(e.output, outputPrice)
    && CostMicro(e.input, inputPrice) + CostMicro(e.output, outputPrice) <= MAX64
  }

  /** The hold was computed from its estimate. */
  predicate HoldOf(row: Reservation, e: Estimate) {
    && Priced(e, row.inputPrice, row.outputPrice)
    && row.amount == Wrap(CostMicro(e.input, row.inputPrice) + CostMicro(e.output, row.outputPrice))
  }

  ghost predicate Backed(db: Db, est: map<string, Estimate>) {
    forall i :: 0 <= i < |db.reservations| ==> db.reservations[i].id in est && HoldOf(db.reservations[i], est[db.reservations[i].id])
  }

  /** Enforced holds computed from estimates, actual tokens within them, no settle of a hold that
      was released or reaped, top-ups and allowances that fit. */
  ghost predicate Promised(db: Db, est: map<string, Estimate>, op: Op) {
    match op
    case ReserveOp(input) =>
      && input.enforce && 0 <= input.allowance <= MAX64 && input.id in est
      && Priced(est[input.id], input.inputPrice, input.outputPrice)
      && input.amount == Wrap(CostMicro(est[input.id].input, input.inputPrice) + CostMicro(est[input.id].output, input.outputPrice))
    case SettleOp(id, p, c) =>
      var i := FindRow(db.reservations, id);
      i.Some? && db.reservations[i.value].status != Settled ==>
        db.reservations[i.value].status == Held && id in est && p <= est[id].input && c <= est[id].output
    case TopUpOp(tenant, amount, key) => amount >= 0 && (if tenant in db.wallets then db.wallets[tenant].balance + amount else amount) <= MAX64
    case _ => true
  }

  ghost predicate AllPromised(db: Db, est: map<string, Estimate>, ops: seq<Op>)
    decreases |ops|
  {
    ops != [] ==> Legal(db, ops[0]) && Promised(db, est, ops[0]) && AllPromised(Step(db, ops[0]), est, ops[1..])
  }

  lemma HoldNotNegative(e: Estimate, inputPrice: int, outputPrice: int)
    requires Priced(e, inputPrice, outputPrice)
    ensures Wrap(CostMicro(e.input, inputPrice) + CostMicro(e.output, outputPrice)) >= 0
  {
    Monotone(e.input, e.input, inputPrice);
    Monotone(e.output, e.output, outputPrice);
  }

  lemma PromisedIsCareful(db: Db, est: map<string, Estimate>, op: Op)
    requires Backed(db, est) && Promised(db, est, op)
    ensures Careful(db, op)
  {
    hide CostMicro, Wrap, Fits, HoldOf, FindRow;
    match op
    case ReserveOp(input) => HoldNotNegative(est[input.id], input.inputPrice, input.outputPrice);
    case SettleOp(id, p, c) =>
      var i := FindRow(db.reservations, id);
      if i.Some? && db.reservations[i.value].status != Settled {
        ChargeWithinHold(db.reservations[i.value], est[id], p, c);
      }
    case _ =>
  }

  lemma ChargeWithinHold(row: Reservation, e: Estimate, p: int, c: int)
    requires HoldOf(row, e) && p <= e.input && c <= e.output
    ensures 0 <= Charge(row, p, c) <= row.amount
  {
    ActualWithinEstimate(row, e.input, e.output, p, c);
  }

  /** Rows keep their id, prices and amount for ever. */
  ghost predicate SameHolds(rows: seq<Reservation>, rows': seq<Reservation>) {
    |rows'| == |rows| && forall i :: 0 <= i < |rows| ==> rows'[i] == rows[i].(status := rows'[i].status)
  }

  lemma SameHoldsBacked(db: Db, db': Db, est: map<string, Estimate>)
    requires Backed(db, est) && SameHolds(db.reservations, db'.reservations)
    ensures Backed(db', est)
  {
    hide CostMicro, Wrap, Priced;
  }

  lemma {:induction false} ReapKeepsHolds(db: Db, rows: seq<nat>)
    requires forall k :: 0 <= k < |rows| ==> rows[k] < |db.reservations|
    ensures SameHolds(db.reservations, After(db, ReleaseRows(db, rows)).reservations)
    decreases |rows|
  {
    if rows != [] && ReleaseRow(db, rows[0]).Done? {
      var db1 := ReleaseRow(db, rows[0]).db;
      assert SameHolds(db.reservations, db1.reservations);
      ReapKeepsHolds(db1, rows[1..]);
    }
  }

  lemma StepKeepsBacked(db: Db, est: map<string, Estimate>, op: Op)
    requires Backed(db, est) && Legal(db, op) && Promised(db, est, op)
    ensures Backed(Step(db, op), est)
  {
    hide CostMicro, Wrap, Fits, FindRow, FindTopup, KeysOf, ChargeKey, TopupKey, ReleaseRows;
    match op
    case ReserveOp(input) =>
    case SettleOp(id, p, c) => SameHoldsBacked(db, Step(db, op), est);
    case ReleaseOp(id) => SameHoldsBacked(db, Step(db, op), est);
    case ReapOp(now, rows) =>
      ReapKeepsHolds(db, rows);
      SameHoldsBacked(db, Step(db, op), est);
    case TopUpOp(tenant, amount, key) => SameHoldsBacked(db, Step(db, op), est);
  }

  lemma {:induction false} PromisedRun(db: Db, est: map<string, Estimate>, ops: seq<Op>)
    requires Backed(db, est) && AllPromised(db, est, ops)
    ensures AllCareful(db, ops)
    decreases |ops|
  {
    hide Step, Careful, Promised, Backed;
    if ops != [] {
      PromisedIsCareful(db, est, ops[0]);
      StepKeepsBacked(db, est, ops[0]);
      PromisedRun(Step(db, ops[0]), est, ops[1..]);
    }
  }

  /** In every reachable state of such a run from empty tables each wallet's reserve is at most
      its balance. */
  lemma EnforcedNeverOverdraws(est: map<string, Estimate>, ops: seq<Op>, db: Db, tenant: string)
    requires AllPromised(EMPTY, est, ops) && Reaches(EMPTY, ops, db) && tenant in db.wallets
    ensures 0 <= db.wallets[tenant].reserved <= db.wallets[tenant].balance
  {
    hide Inv, AllCareful, AllPromised, Reaches;
    EmptyIsConserved();
    PromisedRun(EMPTY, est, ops);
    assert Solvent(EMPTY);
    NoOverdraft(EMPTY, ops, db);
    assert Covered(db, tenant);
    HoldsNotNegative(db.reservations, tenant);
  }
}
