/**
 * Invoice settlement: the rows that QR creation, gateway webhooks, cash
 * confirmation, refunds and overdue aging share, and what each committed
 * transaction does to them.
 *
 * A service call that awaits between an unlocked read and its transaction is two
 * steps. What it read is kept in `ops` until the transaction runs, so any other
 * step may come between and the snapshot may be stale when it is used.
 * Rows are never deleted; a row's index stands for its primary key.
 */
module Settlement {
  import opened Options

  const QR_TTL_MS: int := 30 * 60_000

  datatype InvoiceStatus = Unpaid | Overdue | Paid | Cancelled | InvoiceRefunded

  /** In the order in which a payment may move through them. */
  datatype TxnStatus = Pending | Failed | Success | Disputed | Refunded

  datatype Note =
    | Superseded
    | GatewayFailed
    | AmountMismatch(expected: int, received: int)
    | LateTransfer
    | NotPayable
    | Overpaid(settled: int, total: int)
    | AdminNote(text: string)

  datatype Period = Period(month: int, year: int)

  /** `tuition` is the billing period of a TUITION invoice and None for other types. */
  datatype Invoice = Invoice(total: nat, status: InvoiceStatus, dueDate: int, tuition: Option<Period>, notes: seq<Note>)

  datatype Payment = Payment(
    invoice: nat,
    orderRef: string,
    gatewayTxnId: Option<string>,
    amount: nat,
    status: TxnStatus,
    expiresAt: Option<int>,
    paidAt: Option<int>,
    note: Option<Note>)

  /** A verified gateway event, as the adapter parsed it. */
  datatype Event = Event(orderRef: string, gatewayTxnId: string, amount: int, success: bool)

  /** A call between its unlocked read and its transaction, with what it read. */
  datatype Op =
    | QrOp(invoice: nat, total: nat, orderRef: string, expiresAt: int)
    | CashOp(invoice: nat, total: nat)
    | WebhookOp(event: Event, payment: nat, seen: Payment)

  datatype Db = Db(invoices: seq<Invoice>, payments: seq<Payment>, ops: map<nat, Op>, now: int)

  datatype Step =
    | Issue(total: nat, dueDate: int, tuition: Option<Period>)
    | Tick(ms: nat)
    | Age
    | QrRead(op: nat, invoice: nat, orderRef: string)
    | QrCommit(op: nat)
    | CashRead(op: nat, invoice: nat)
    | CashCommit(op: nat, orderRef: string, note: Option<Note>)
    | WebhookRead(op: nat, event: Event, payment: nat)
    | WebhookCommit(op: nat)
    | SetOutcome(payment: nat, refund: bool, note: Option<Note>)
    | Abandon(op: nat)

  predicate Payable(s: InvoiceStatus) {
    s == Unpaid || s == Overdue
  }

  predicate Open(s: TxnStatus) {
    s == Pending || s == Failed
  }

  /** What one payment contributes to the settled amount of invoice `k`. */
  function Worth(p: Payment, k: nat): nat {
    if p.invoice == k && p.status == Success then p.amount else 0
  }

  /** The aggregate every money transition reads: the SUCCESS payments of invoice `k`. */
  function Settled(ps: seq<Payment>, k: nat): nat {
    if ps == [] then 0 else Settled(ps[..|ps| - 1], k) + Worth(ps[|ps| - 1], k)
  }

  /** The unique index on order_ref refuses a second row with the reference. */
  predicate RefTaken(ps: seq<Payment>, ref: string) {
    exists i | 0 <= i < |ps| :: ps[i].orderRef == ref
  }

  /** The unique index on gateway_txn_id refuses the identifier on row `id`. */
  predicate TxnIdTaken(ps: seq<Payment>, id: nat, g: string) {
    exists i | 0 <= i < |ps| :: i != id && ps[i].gatewayTxnId == Some(g)
  }

  /** Rows the conditional claim of a delivery matches. */
  predicate Claimable(p: Payment, g: string) {
    Open(p.status) && (p.gatewayTxnId == None || p.gatewayTxnId == Some(g))
  }

  predicate Expired(p: Payment, now: int) {
    p.expiresAt.Some? && p.expiresAt.value <= now
  }

  function Superseding(p: Payment, k: nat, now: int): Payment {
    if p.invoice == k && p.status == Pending
    then p.(status := Failed, note := Some(Note.Superseded), expiresAt := Some(now))
    else p
  }

  function SupersedeAll(ps: seq<Payment>, k: nat, now: int): (r: seq<Payment>)
    ensures |r| == |ps|
    ensures forall i | 0 <= i < |ps| :: r[i] == Superseding(ps[i], k, now)
  {
    seq(|ps|, i requires 0 <= i < |ps| => Superseding(ps[i], k, now))
  }

  function Aging(inv: Invoice, now: int): Invoice {
    if inv.status == Unpaid && inv.dueDate < now then inv.(status := Overdue) else inv
  }

  function AgeAll(invs: seq<Invoice>, now: int): (r: seq<Invoice>)
    ensures |r| == |invs|
    ensures forall i | 0 <= i < |invs| :: r[i] == Aging(invs[i], now)
  {
    seq(|invs|, i requires 0 <= i < |invs| => Aging(invs[i], now))
  }

  /** A delivery that the unlocked read already answers, without a transaction. */
  predicate AnsweredByRead(p: Payment, e: Event) {
    !Open(p.status) || (p.status == Failed && p.gatewayTxnId == Some(e.gatewayTxnId))
  }

  /** Where one delivery leaves a payment it may claim. */
  datatype Verdict = Fails | Mismatches | Late | Unpayable | Exceeds | Settles

  function Judge(db: Db, id: nat, e: Event, seenAmount: nat): Verdict
    requires id < |db.payments| && db.payments[id].invoice < |db.invoices|
  {
    var p := db.payments[id];
    var inv := db.invoices[p.invoice];
    if !e.success then Fails
    else if e.amount != seenAmount then Mismatches
    else if Expired(p, db.now) then Late
    else if !Payable(inv.status) && inv.status != Paid then Unpayable
    else if Settled(db.payments, p.invoice) + p.amount > inv.total then Exceeds
    else Settles
  }

  /** The payment row after a delivery with the given verdict. */
  function Marked(p: Payment, v: Verdict, e: Event, seenAmount: nat, settled: nat, total: nat, now: int): Payment {
    var claimed := p.(gatewayTxnId := Some(e.gatewayTxnId));
    match v
    case Fails => claimed.(status := Failed, note := Some(GatewayFailed))
    case Mismatches => claimed.(status := Disputed, note := Some(AmountMismatch(seenAmount, e.amount)))
    case Late => claimed.(status := Disputed, paidAt := Some(now), note := Some(LateTransfer))
    case Unpayable => claimed.(status := Disputed, paidAt := Some(now), note := Some(NotPayable))
    case Exceeds => claimed.(status := Disputed, paidAt := Some(now), note := Some(Overpaid(settled, total)))
    case Settles => claimed.(status := Success, paidAt := Some(now))
  }

  /** The invoice row after a delivery with the given verdict. */
  function Credited(inv: Invoice, v: Verdict, settled: nat): Invoice {
    if v == Exceeds then inv.(notes := inv.notes + [Overpaid(settled, inv.total)])
    else if v == Settles && settled >= inv.total && Payable(inv.status) then inv.(status := Paid)
    else inv
  }

  /** One webhook transaction: claim and settle, or leave every row alone. */
  function Deliver(db: Db, id: nat, e: Event, seenAmount: nat): Db
    requires id < |db.payments| && db.payments[id].invoice < |db.invoices|
  {
    var p := db.payments[id];
    if !Claimable(p, e.gatewayTxnId) || TxnIdTaken(db.payments, id, e.gatewayTxnId) then db
    else
      var v := Judge(db, id, e, seenAmount);
      var inv := db.invoices[p.invoice];
      var settled := Settled(db.payments, p.invoice) + p.amount;
      db.(payments := db.payments[id := Marked(p, v, e, seenAmount, settled, inv.total, db.now)],
          invoices := db.invoices[p.invoice := Credited(inv, v, settled)])
  }

  /** Re-derives PAID or UNPAID from the settled amount, as after a refund. */
  function Recompute(db: Db, k: nat): Db
    requires k < |db.invoices|
  {
    var inv := db.invoices[k];
    var covered := Settled(db.payments, k) >= inv.total;
    if Payable(inv.status) && covered then db.(invoices := db.invoices[k := inv.(status := Paid)])
    else if inv.status == Paid && !covered then db.(invoices := db.invoices[k := inv.(status := Unpaid)])
    else db
  }

  function Forget(db: Db, op: nat): Db {
    db.(ops := db.ops - {op})
  }

  function CommitQr(db: Db, q: Op): Db
    requires q.QrOp?
  {
    if q.invoice < |db.invoices| && Payable(db.invoices[q.invoice].status) && !RefTaken(db.payments, q.orderRef) then
      db.(payments := SupersedeAll(db.payments, q.invoice, db.now) +
                      [Payment(q.invoice, q.orderRef, None, q.total, Pending, Some(q.expiresAt), None, None)])
    else db
  }

  function CommitCash(db: Db, q: Op, ref: string, note: Option<Note>): Db
    requires q.CashOp?
  {
    if q.invoice < |db.invoices| && Payable(db.invoices[q.invoice].status) && !RefTaken(db.payments, ref) then
      db.(invoices := db.invoices[q.invoice := db.invoices[q.invoice].(status := Paid)],
          payments := db.payments +
                      [Payment(q.invoice, ref, None, q.total, Success, None, Some(db.now), note)])
    else db
  }

  /** setOutcome accepts a refund or dispute of a success, and a refund of a dispute. */
  predicate OutcomeAllowed(p: Payment, refund: bool) {
    p.status == Success || (p.status == Disputed && refund)
  }

  function CommitOutcome(db: Db, id: nat, refund: bool, note: Option<Note>): Db {
    if id < |db.payments| && OutcomeAllowed(db.payments[id], refund) then
      var p := db.payments[id];
      var p' := p.(status := if refund then Refunded else Disputed, note := if note.Some? then note else p.note);
      var marked := db.(payments := db.payments[id := p']);
      if p.invoice < |db.invoices| then Recompute(marked, p.invoice) else marked
    else db
  }

  /** The effect of one step; a step whose guard fails answers the caller and changes nothing. */
  function Apply(db: Db, step: Step): Db {
    match step
    case Issue(total, due, tuition) => db.(invoices := db.invoices + [Invoice(total, Unpaid, due, tuition, [])])
    case Tick(ms) => db.(now := db.now + ms)
    case Age => db.(invoices := AgeAll(db.invoices, db.now))
    case QrRead(op, k, ref) =>
      if op !in db.ops && k < |db.invoices| && Payable(db.invoices[k].status)
      then db.(ops := db.ops[op := QrOp(k, db.invoices[k].total, ref, db.now + QR_TTL_MS)])
      else db
    case QrCommit(op) =>
      if op in db.ops && db.ops[op].QrOp? then CommitQr(Forget(db, op), db.ops[op]) else db
    case CashRead(op, k) =>
      if op !in db.ops && k < |db.invoices| then db.(ops := db.ops[op := CashOp(k, db.invoices[k].total)]) else db
    case CashCommit(op, ref, note) =>
      if op in db.ops && db.ops[op].CashOp? then CommitCash(Forget(db, op), db.ops[op], ref, note) else db
    case WebhookRead(op, e, id) =>
      if op !in db.ops && id < |db.payments| && db.payments[id].orderRef == e.orderRef &&
         !AnsweredByRead(db.payments[id], e)
      then db.(ops := db.ops[op := WebhookOp(e, id, db.payments[id])])
      else db
    case WebhookCommit(op) =>
      if op in db.ops && db.ops[op].WebhookOp? && db.ops[op].payment < |db.payments| &&
         db.payments[db.ops[op].payment].invoice < |db.invoices|
      then Deliver(Forget(db, op), db.ops[op].payment, db.ops[op].event, db.ops[op].seen.amount)
      else db
    case SetOutcome(id, refund, note) => CommitOutcome(db, id, refund, note)
    case Abandon(op) => Forget(db, op)
  }

  function Run(db: Db, steps: seq<Step>): Db
    decreases |steps|
  {
    if steps == [] then db else Run(Apply(db, steps[0]), steps[1..])
  }

  /** A database before any payment: invoices may be unpaid, overdue, cancelled or refunded. */
  ghost predicate Init(db: Db) {
    && db.payments == []
    && db.ops == map[]
    && forall k | 0 <= k < |db.invoices| :: db.invoices[k].status != Paid
  }
}
