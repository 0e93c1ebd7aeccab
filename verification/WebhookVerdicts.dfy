/**
 * What each delivery leaves in the payment and invoice rows, case by case, and what can have
 * caused the status of a payment.
 */
module WebhookVerdicts {
  import opened Options
  import opened Settlement
  import opened SettlementProof

  // ------------------------------------------------------------------- one delivery

  /** A delivery may claim a PENDING or FAILED row that carries no identifier but its own, which no other row has. */
  lemma ClaimableIff(ps: seq<Payment>, id: nat, g: string)
    requires id < |ps|
    ensures Claimable(ps[id], g) && !TxnIdTaken(ps, id, g) <==>
            && (ps[id].status == Pending || ps[id].status == Failed)
            && (ps[id].gatewayTxnId == None || ps[id].gatewayTxnId == Some(g))
            && forall i | 0 <= i < |ps| && i != id :: ps[i].gatewayTxnId != Some(g)
  {
  }

  /** The delivery finds the row and may claim it. */
  ghost predicate Claims(db: Db, id: nat, e: Event) {
    && id < |db.payments| && db.payments[id].invoice < |db.invoices|
    && Claimable(db.payments[id], e.gatewayTxnId) && !TxnIdTaken(db.payments, id, e.gatewayTxnId)
  }

  /** A delivery that may not claim its row changes nothing. */
  lemma RefusedChangesNothing(db: Db, id: nat, e: Event, seen: nat)
    requires id < |db.payments| && db.payments[id].invoice < |db.invoices| && !Claims(db, id, e)
    ensures Deliver(db, id, e, seen) == db
  {
  }

  /** A failed transfer: FAILED, and no other column or row changes. */
  lemma FailureIsRecorded(db: Db, id: nat, e: Event, seen: nat)
    requires Claims(db, id, e) && !e.success
    ensures Deliver(db, id, e, seen) ==
            db.(payments := db.payments[id := db.payments[id].(
                  status := Failed, gatewayTxnId := Some(e.gatewayTxnId), note := Some(GatewayFailed))])
  {
    SameInvoices(db, id);
  }

  /** A transfer of another amount: DISPUTED with both amounts. */
  lemma MismatchIsDisputed(db: Db, id: nat, e: Event, seen: nat)
    requires Claims(db, id, e) && e.success && e.amount != seen
    ensures Deliver(db, id, e, seen) ==
            db.(payments := db.payments[id := db.payments[id].(
                  status := Disputed, gatewayTxnId := Some(e.gatewayTxnId),
                  note := Some(AmountMismatch(seen, e.amount)))])
  {
    SameInvoices(db, id);
  }

  /** An exact transfer at or after the QR's expiry: DISPUTED, with the time of receipt. */
  lemma LateIsDisputed(db: Db, id: nat, e: Event, seen: nat)
    requires Claims(db, id, e) && e.success && e.amount == seen
    requires db.payments[id].expiresAt.Some? && db.payments[id].expiresAt.value <= db.now
    ensures Deliver(db, id, e, seen) ==
            db.(payments := db.payments[id := db.payments[id].(
                  status := Disputed, gatewayTxnId := Some(e.gatewayTxnId), paidAt := Some(db.now),
                  note := Some(LateTransfer))])
  {
    SameInvoices(db, id);
  }

  /** An exact, timely transfer. */
  ghost predicate Timely(db: Db, id: nat, e: Event, seen: nat) {
    && Claims(db, id, e) && e.success && e.amount == seen
    && (db.payments[id].expiresAt.Some? ==> db.now < db.payments[id].expiresAt.value)
  }

  /** For a cancelled or refunded invoice: DISPUTED. */
  lemma UnpayableIsDisputed(db: Db, id: nat, e: Event, seen: nat)
    requires Timely(db, id, e, seen)
    requires var s := db.invoices[db.payments[id].invoice].status; s == Cancelled || s == InvoiceRefunded
    ensures Deliver(db, id, e, seen) ==
            db.(payments := db.payments[id := db.payments[id].(
                  status := Disputed, gatewayTxnId := Some(e.gatewayTxnId), paidAt := Some(db.now),
                  note := Some(NotPayable))])
  {
    SameInvoices(db, id);
  }

  /** Beyond the invoice total: DISPUTED, and the invoice keeps a note of it but not its money. */
  lemma OverpaymentIsDisputed(db: Db, id: nat, e: Event, seen: nat)
    requires Timely(db, id, e, seen)
    requires var inv := db.invoices[db.payments[id].invoice];
             && (inv.status == Unpaid || inv.status == Overdue || inv.status == Paid)
             && Settled(db.payments, db.payments[id].invoice) + db.payments[id].amount > inv.total
    ensures var p := db.payments[id];
            var inv := db.invoices[p.invoice];
            var received := Settled(db.payments, p.invoice) + p.amount;
            Deliver(db, id, e, seen) ==
            db.(payments := db.payments[id := p.(
                  status := Disputed, gatewayTxnId := Some(e.gatewayTxnId), paidAt := Some(db.now),
                  note := Some(Overpaid(received, inv.total)))],
                invoices := db.invoices[p.invoice := inv.(notes := inv.notes + [Overpaid(received, inv.total)])])
  {
  }

  /** Within the invoice total: SUCCESS, and an open invoice whose total is reached becomes PAID. */
  lemma TransferSettles(db: Db, id: nat, e: Event, seen: nat)
    requires Timely(db, id, e, seen)
    requires var inv := db.invoices[db.payments[id].invoice];
             && (inv.status == Unpaid || inv.status == Overdue || inv.status == Paid)
             && Settled(db.payments, db.payments[id].invoice) + db.payments[id].amount <= inv.total
    ensures var p := db.payments[id];
            var inv := db.invoices[p.invoice];
            var full := Settled(db.payments, p.invoice) + p.amount == inv.total;
            Deliver(db, id, e, seen) ==
            db.(payments := db.payments[id := p.(
                  status := Success, gatewayTxnId := Some(e.gatewayTxnId), paidAt := Some(db.now))],
                invoices := db.invoices[p.invoice := if full then inv.(status := Paid) else inv])
  {
  }

  lemma SameInvoices(db: Db, id: nat)
    requires id < |db.payments| && db.payments[id].invoice < |db.invoices|
    ensures db.invoices[db.payments[id].invoice := db.invoices[db.payments[id].invoice]] == db.invoices
  {
  }

  /**
   * The webhook on a consistent database: an exact, timely transfer pays an open invoice with
   * one SUCCESS payment, and for a paid one it is an overpayment unless the total is 0.
   */
  lemma ExactTransfer(db: Db, id: nat, e: Event)
    requires Inv(db) && id < |db.payments| && Timely(db, id, e, db.payments[id].amount)
    ensures var k := db.payments[id].invoice;
            var r := Deliver(db, id, e, db.payments[id].amount);
            match db.invoices[k].status
            case Unpaid => r.payments[id].status == Success && r.invoices[k].status == Paid
            case Overdue => r.payments[id].status == Success && r.invoices[k].status == Paid
            case Paid => r.invoices[k].status == Paid &&
                         r.payments[id].status == if db.invoices[k].total == 0 then Success else Disputed
            case _ => r.payments[id].status == Disputed && r.invoices[k] == db.invoices[k]
  {
    assert RowOk(db, db.payments[id]);
  }

  // ----------------------------------------------------------- causes, over every run

  /** Why the status of payment `i` may have become what it is. */
  ghost predicate Causes(db: Db, step: Step, i: nat, status: TxnStatus)
    requires i < |Apply(db, step).payments|
  {
    match status
    case Pending => step.QrCommit? && i == |db.payments|
    case Failed =>
      i < |db.payments| && db.payments[i].status == Pending &&
      ((step.QrCommit? && step.op in db.ops && db.ops[step.op].QrOp? &&
        db.ops[step.op].invoice == db.payments[i].invoice) ||
       (DeliversTo(db, step, i) && !db.ops[step.op].event.success))
    case Success =>
      || (step.CashCommit? && i == |db.payments|)
      || (i < |db.payments| && (db.payments[i].status == Pending || db.payments[i].status == Failed) &&
          DeliversTo(db, step, i) && db.ops[step.op].event.success &&
          db.ops[step.op].event.amount == db.ops[step.op].seen.amount)
    case Disputed =>
      i < |db.payments| &&
      ((db.payments[i].status == Success && step.SetOutcome? && step.payment == i && !step.refund) ||
       ((db.payments[i].status == Pending || db.payments[i].status == Failed) &&
        DeliversTo(db, step, i) && db.ops[step.op].event.success))
    case Refunded =>
      i < |db.payments| && (db.payments[i].status == Success || db.payments[i].status == Disputed) &&
      step.SetOutcome? && step.payment == i && step.refund
  }

  /** The step commits a delivery to payment `i`. */
  ghost predicate DeliversTo(db: Db, step: Step, i: nat) {
    step.WebhookCommit? && step.op in db.ops && db.ops[step.op].WebhookOp? && db.ops[step.op].payment == i
  }

  /** A step that gives a payment a new status is one of the causes of that status. */
  lemma StatusHasCause(db: Db, step: Step, i: nat)
    requires i < |Apply(db, step).payments|
    requires i >= |db.payments| || db.payments[i].status != Apply(db, step).payments[i].status
    ensures Causes(db, step, i, Apply(db, step).payments[i].status)
  {
  }

  /** Payment `i` has the status at the start, or some step of the run gave it that status. */
  ghost predicate Caused(db: Db, steps: seq<Step>, i: nat, status: TxnStatus)
    decreases |steps|
  {
    || (i < |db.payments| && db.payments[i].status == status)
    || (steps != [] &&
        ((i < |Apply(db, steps[0]).payments| && Causes(db, steps[0], i, status)) ||
         Caused(Apply(db, steps[0]), steps[1..], i, status)))
  }

  /**
   * Over every run a payment has the status it started with or one of its causes occurred. So it
   * is REFUNDED only by a refund of a SUCCESS or DISPUTED payment, and SUCCESS only by cash or by
   * an exact delivery.
   */
  lemma {:induction false} StatusIsCaused(db: Db, steps: seq<Step>, i: nat)
    requires i < |Run(db, steps).payments|
    ensures Caused(db, steps, i, Run(db, steps).payments[i].status)
    decreases |steps|
  {
    if steps != [] {
      var db1 := Apply(db, steps[0]);
      StatusIsCaused(db1, steps[1..], i);
      CausedFromStart(db, steps, i, Run(db, steps).payments[i].status);
    }
  }

  lemma CausedFromStart(db: Db, steps: seq<Step>, i: nat, status: TxnStatus)
    requires steps != [] && Caused(Apply(db, steps[0]), steps[1..], i, status)
    ensures Caused(db, steps, i, status)
  {
  }

  /** In a run from a database without payments, a REFUNDED payment was refunded by one of the steps. */
  lemma {:induction false} RefundedByRefund(db: Db, steps: seq<Step>, i: nat)
    requires i < |Run(db, steps).payments| && Run(db, steps).payments[i].status == Refunded
    requires i < |db.payments| ==> db.payments[i].status != Refunded
    ensures exists j | 0 <= j < |steps| :: steps[j].SetOutcome? && steps[j].payment == i && steps[j].refund
    decreases |steps|
  {
    var db1 := Apply(db, steps[0]);
    if i < |db1.payments| && db1.payments[i].status == Refunded {
      StatusHasCause(db, steps[0], i);
    } else {
      RefundedByRefund(db1, steps[1..], i);
      var j :| 0 <= j < |steps[1..]| && steps[1..][j].SetOutcome? && steps[1..][j].payment == i && steps[1..][j].refund;
      assert steps[j + 1] == steps[1..][j];
    }
  }
}
