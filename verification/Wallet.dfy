/** The prepaid wallet: holds, charges, releases and top-ups over the billing tables.  Each
    operation is one database transaction; a failed one leaves the tables as they were. */
module Wallets {
  import opened Wrappers
  import opened Pricing

  datatype Status = Held | Settled | Released

  datatype Wallet = Wallet(balance: int, reserved: int)

  datatype Reservation = Reservation(
    id: string, tenant: string, amount: int, inputPrice: int, outputPrice: int, status: Status, expiresAt: int)

  datatype Entry = Entry(tenant: string, amount: int, balanceAfter: int, key: string)

  datatype TopupRow = TopupRow(tenant: string, amount: int, idemKey: string)

  /** The tables.  `opening` records the balance each wallet was created with, so that
      conservation can be stated. */
  datatype Db = Db(
    wallets: map<string, Wallet>, opening: map<string, int>, reservations: seq<Reservation>,
    ledger: seq<Entry>, topups: seq<TopupRow>)

  datatype Error = InsufficientCredits | NotFound | IdempotencyConflict | DatabaseError

  datatype Outcome = Done(db: Db) | Failed(error: Error)

  function After(db: Db, r: Outcome): Db {
    if r.Done? then r.db else db
  }

  // ----------------------------------------------------------------- the operations

  function ChargeKey(id: string): string { "charge:" + id }

  function TopupKey(key: string): string { "topup:" + key }

  /** `INSERT ... ON CONFLICT DO NOTHING`. */
  function CreateWallet(db: Db, tenant: string, balance: int): Db {
    if tenant in db.wallets then db
    else db.(wallets := db.wallets[tenant := Wallet(balance, 0)], opening := db.opening[tenant := balance])
  }

  function FindRow(rows: seq<Reservation>, id: string): (r: Option<nat>)
    ensures r.Some? ==> r.value < |rows| && rows[r.value].id == id
    ensures r.None? ==> forall i :: 0 <= i < |rows| ==> rows[i].id != id
  {
    if rows == [] then None
    else if rows[|rows| - 1].id == id then Some(|rows| - 1)
    else FindRow(rows[..|rows| - 1], id)
  }

  function FindTopup(rows: seq<TopupRow>, key: string): (r: Option<nat>)
    ensures r.Some? ==> r.value < |rows| && rows[r.value].idemKey == key
    ensures r.None? ==> forall i :: 0 <= i < |rows| ==> rows[i].idemKey != key
  {
    if rows == [] then None
    else if rows[|rows| - 1].idemKey == key then Some(|rows| - 1)
    else FindTopup(rows[..|rows| - 1], key)
  }

  function KeysOf(ledger: seq<Entry>): (ks: seq<string>)
    ensures |ks| == |ledger| && forall i :: 0 <= i < |ks| ==> ks[i] == ledger[i].key
  {
    seq(|ledger|, i requires 0 <= i < |ledger| => ledger[i].key)
  }

  /** What `Reserve` is given. */
  datatype ReserveInput = ReserveInput(
    tenant: string, allowance: int, amount: int, inputPrice: int, outputPrice: int, id: string, expiresAt: int, enforce: bool)

  function Reserve(db: Db, input: ReserveInput): Outcome {
    var db1 := CreateWallet(db, input.tenant, input.allowance);
    var w := db1.wallets[input.tenant];
    if input.enforce && input.amount > 0 && Wrap(w.balance - w.reserved) < input.amount then Failed(InsufficientCredits)
    else if !InRange(w.reserved + input.amount) || FindRow(db1.reservations, input.id).Some? then Failed(DatabaseError)
    else
      var row := Reservation(input.id, input.tenant, input.amount, input.inputPrice, input.outputPrice, Held, input.expiresAt);
      Done(db1.(wallets := db1.wallets[input.tenant := w.(reserved := w.reserved + input.amount)],
                reservations := db1.reservations + [row]))
  }

  function Charge(row: Reservation, promptTokens: int, completionTokens: int): int {
    Wrap(CostMicro(promptTokens, row.inputPrice) + CostMicro(completionTokens, row.outputPrice))
  }

  function Settle(db: Db, id: string, promptTokens: int, completionTokens: int): Outcome {
    match FindRow(db.reservations, id)
    case None => Failed(NotFound)
    case Some(i) =>
      var row := db.reservations[i];
      if row.status == Settled then Done(db)
      else if row.tenant !in db.wallets then Failed(DatabaseError)
      else
        var w, charge := db.wallets[row.tenant], Charge(row, promptTokens, completionTokens);
        var balance := Wrap(w.balance - charge);
        var reserved := if row.status == Held then Wrap(w.reserved - row.amount) else w.reserved;
        var entry := Entry(row.tenant, Wrap(-charge), balance, ChargeKey(row.id));
        Done(db.(wallets := db.wallets[row.tenant := Wallet(balance, reserved)],
                 ledger := if entry.key in KeysOf(db.ledger) then db.ledger else db.ledger + [entry],
                 reservations := db.reservations[i := row.(status := Settled)]))
  }

  /** Gives row `i`'s hold back. */
  function ReleaseRow(db: Db, i: nat): Outcome
    requires i < |db.reservations|
  {
    var row := db.reservations[i];
    if row.tenant !in db.wallets then Done(db.(reservations := db.reservations[i := row.(status := Released)]))
    else
      var w := db.wallets[row.tenant];
      if !InRange(w.reserved - row.amount) then Failed(DatabaseError)
      else Done(db.(wallets := db.wallets[row.tenant := w.(reserved := w.reserved - row.amount)],
                    reservations := db.reservations[i := row.(status := Released)]))
  }

  function Release(db: Db, id: string): Outcome {
    match FindRow(db.reservations, id)
    case None => Failed(NotFound)
    case Some(i) => if db.reservations[i].status != Held then Done(db) else ReleaseRow(db, i)
  }

  /** The reaper's row loop over the rows it selected. */
  function ReleaseRows(db: Db, rows: seq<nat>): Outcome
    requires forall k :: 0 <= k < |rows| ==> rows[k] < |db.reservations|
    decreases |rows|
  {
    if rows == [] then Done(db) else
      match ReleaseRow(db, rows[0])
      case Failed(e) => Failed(e)
      case Done(db1) =>
        if forall k :: 1 <= k < |rows| ==> rows[k] < |db1.reservations| then ReleaseRows(db1, rows[1..]) else Failed(DatabaseError)
  }

  /** The rows whose hold has expired; the scan may return any of them, each once. */
  ghost predicate ExpiredRows(db: Db, now: int, rows: seq<nat>) {
    && (forall k :: 0 <= k < |rows| ==> rows[k] < |db.reservations|) && NoDup(rows)
    && forall k :: 0 <= k < |rows| ==> db.reservations[rows[k]].status == Held && db.reservations[rows[k]].expiresAt < now
  }

  function TopUp(db: Db, tenant: string, amount: int, idemKey: string): Outcome {
    match FindTopup(db.topups, idemKey)
    case Some(i) =>
      if db.topups[i].tenant != tenant || db.topups[i].amount != amount then Failed(IdempotencyConflict) else Done(db)
    case None =>
      var db1 := CreateWallet(db, tenant, 0);
      var w := db1.wallets[tenant];
      var balance := Wrap(w.balance + amount);
      var entry := Entry(tenant, amount, balance, TopupKey(idemKey));
      if entry.key in KeysOf(db1.ledger) then Failed(DatabaseError)
      else Done(db1.(wallets := db1.wallets[tenant := w.(balance := balance)],
                     topups := db1.topups + [TopupRow(tenant, amount, idemKey)], ledger := db1.ledger + [entry]))
  }

  // ------------------------------------------------------------------- conservation

  /** The holds of a tenant that are neither settled nor released. */
  function HeldSum(rows: seq<Reservation>, tenant: string): int {
    if rows == [] then 0 else
      var last := rows[|rows| - 1];
      HeldSum(rows[..|rows| - 1], tenant) + (if last.tenant == tenant && last.status == Held then last.amount else 0)
  }

  function LedgerSum(ledger: seq<Entry>, tenant: string): int {
    if ledger == [] then 0 else
      var last := ledger[|ledger| - 1];
      LedgerSum(ledger[..|ledger| - 1], tenant) + (if last.tenant == tenant then last.amount else 0)
  }

  /** A wallet's reserve is the sum of its holds and its balance the opening one plus its
      ledger, in 64 bits. */
  ghost predicate Conserved(db: Db, tenant: string)
    requires tenant in db.wallets && tenant in db.opening
  {
    && db.wallets[tenant].reserved == Wrap(HeldSum(db.reservations, tenant))
    && db.wallets[tenant].balance == Wrap(db.opening[tenant] + LedgerSum(db.ledger, tenant))
  }

  /** Every `balance_after` is the sum of the ledger up to its entry. */
  ghost predicate BalanceAfterIsSum(db: Db, i: nat)
    requires i < |db.ledger|
  {
    var e := db.ledger[i];
    e.tenant in db.opening && e.balanceAfter == Wrap(db.opening[e.tenant] + LedgerSum(db.ledger[..i + 1], e.tenant))
  }

  ghost predicate UniqueIds(rows: seq<Reservation>) {
    forall i, j :: 0 <= i < j < |rows| ==> rows[i].id != rows[j].id
  }

  ghost predicate UniqueTopups(rows: seq<TopupRow>) {
    forall i, j :: 0 <= i < j < |rows| ==> rows[i].idemKey != rows[j].idemKey
  }

  /** An entry charges a settled reservation or credits a top-up. */
  ghost predicate Explained(db: Db, e: Entry) {
    || (exists i :: 0 <= i < |db.reservations| && db.reservations[i].status == Settled && e.key == ChargeKey(db.reservations[i].id))
    || (exists i :: 0 <= i < |db.topups| && e == Entry(db.topups[i].tenant, db.topups[i].amount, e.balanceAfter, TopupKey(db.topups[i].idemKey)))
  }

  /** Rows and ledger correspond, key by key. */
  ghost predicate Keyed(db: Db) {
    && NoDup(KeysOf(db.ledger)) && UniqueIds(db.reservations) && UniqueTopups(db.topups)
    && (forall i :: 0 <= i < |db.reservations| ==>
          (db.reservations[i].status == Settled <==> ChargeKey(db.reservations[i].id) in KeysOf(db.ledger)))
    && (forall i :: 0 <= i < |db.topups| ==> TopupKey(db.topups[i].idemKey) in KeysOf(db.ledger))
    && (forall i :: 0 <= i < |db.ledger| ==> Explained(db, db.ledger[i]))
  }

  ghost predicate Inv(db: Db) {
    && db.wallets.Keys == db.opening.Keys
    && (forall i :: 0 <= i < |db.reservations| ==> db.reservations[i].tenant in db.wallets)
    && (forall t :: t in db.wallets ==> Conserved(db, t))
    && (forall i: nat :: i < |db.ledger| ==> BalanceAfterIsSum(db, i))
    && Keyed(db)
  }
}
