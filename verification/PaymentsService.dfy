/**
 * The payment service and the aging job over mutable rows. Each method is one step
 * of the protocol, written in the order in which the service touches the rows, and
 * is proved to have the effect that `Settlement.Apply` gives that step.
 */
module PaymentsService {
  import opened Options
  import opened Settlement
  import opened SettlementProof

  /** What a call answers. */
  datatype Reply = Accepted | NotFound | Conflict | Ignored | Outcome(status: TxnStatus) | Flagged(overpaid: bool)

  /** What a delivery that claimed the row answers, read off the row it left. */
  function ReplyFor(p: Payment): Reply {
    match p.status
    case Success => Outcome(Success)
    case Failed => Outcome(Failed)
    case _ => Flagged(p.note.Some? && p.note.value.Overpaid?)
  }

  class PaymentsService {
    var invoices: seq<Invoice>
    var payments: seq<Payment>
    var ops: map<nat, Op>
    var now: int

    function Rows(): Db
      reads this
    {
      Db(invoices, payments, ops, now)
    }

    constructor (issued: seq<Invoice>, clock: int)
      requires forall k | 0 <= k < |issued| :: issued[k].status != Paid
      ensures Rows() == Db(issued, [], map[], clock) && Init(Rows()) && Inv(Rows())
    {
      invoices, payments, ops, now := issued, [], map[], clock;
    }

    /** First await of createQrPayment: the invoice is read and must be payable. */
    method ReadForQr(op: nat, k: nat, ref: string) returns (reply: Reply)
      requires Inv(Rows()) && op !in ops
      modifies this
      ensures Rows() == Apply(old(Rows()), QrRead(op, k, ref)) && Inv(Rows())
      ensures reply == Accepted <==> k < |invoices| && (invoices[k].status == Unpaid || invoices[k].status == Overdue)
      ensures reply == if k >= |invoices| then NotFound else if reply == Accepted then Accepted else Conflict
      ensures invoices == old(invoices) && payments == old(payments) && now == old(now)
      ensures ops == if reply == Accepted then old(ops)[op := QrOp(k, invoices[k].total, ref, now + 1_800_000)]
                     else old(ops)
    {
      StepKeepsInv(Rows(), QrRead(op, k, ref));
      if k >= |invoices| {
        return NotFound;
      }
      if !Payable(invoices[k].status) {
        return Conflict;
      }
      ops := ops[op := QrOp(k, invoices[k].total, ref, now + QR_TTL_MS)];
      return Accepted;
    }

    /** Transaction of createQrPayment: recheck, supersede what is pending, create. */
    method CreateQrPayment(op: nat) returns (reply: Reply)
      requires Inv(Rows()) && op in ops && ops[op].QrOp?
      modifies this
      ensures Rows() == Apply(old(Rows()), QrCommit(op)) && Inv(Rows())
      ensures invoices == old(invoices) && ops == old(ops) - {op} && now == old(now)
      ensures var q := old(ops)[op];
              reply == Accepted <==>
              && q.invoice < |invoices|
              && (invoices[q.invoice].status == Unpaid || invoices[q.invoice].status == Overdue)
              && forall i | 0 <= i < |old(payments)| :: old(payments)[i].orderRef != q.orderRef
      ensures reply != Accepted ==> reply == Conflict && payments == old(payments)
      ensures var q := old(ops)[op];
              var n := |old(payments)|;
              reply == Accepted ==>
                && |payments| == n + 1
                && payments[n] == Payment(q.invoice, q.orderRef, None, q.total, Pending, Some(q.expiresAt), None, None)
                && forall i | 0 <= i < n ::
                     payments[i] == if old(payments)[i].invoice == q.invoice && old(payments)[i].status == Pending
                                    then old(payments)[i].(status := Failed, note := Some(Note.Superseded),
                                                           expiresAt := Some(now))
                                    else old(payments)[i]
    {
      StepKeepsInv(Rows(), QrCommit(op));
      var q := ops[op];
      assert OpOk(Rows(), q);
      ops := ops - {op};
      if !Payable(invoices[q.invoice].status) {
        return Conflict;
      }
      if RefTaken(payments, q.orderRef) {
        return Conflict;
      }
      payments := SupersedeAll(payments, q.invoice, now);
      payments := payments + [Payment(q.invoice, q.orderRef, None, q.total, Pending, Some(q.expiresAt), None, None)];
      return Accepted;
    }

    /** First await of confirmCash. */
    method ReadForCash(op: nat, k: nat) returns (reply: Reply)
      requires Inv(Rows()) && op !in ops
      modifies this
      ensures Rows() == Apply(old(Rows()), CashRead(op, k)) && Inv(Rows())
      ensures invoices == old(invoices) && payments == old(payments) && now == old(now)
      ensures ops == if k < |invoices| then old(ops)[op := CashOp(k, invoices[k].total)] else old(ops)
      ensures reply == if k < |invoices| then Accepted else NotFound
    {
      StepKeepsInv(Rows(), CashRead(op, k));
      if k >= |invoices| {
        return NotFound;
      }
      ops := ops[op := CashOp(k, invoices[k].total)];
      return Accepted;
    }

    /** Transaction of confirmCash: claim the invoice first, then record the receipt. */
    method ConfirmCash(op: nat, ref: string, note: Option<Note>) returns (reply: Reply)
      requires Inv(Rows()) && op in ops && ops[op].CashOp?
      modifies this
      ensures Rows() == Apply(old(Rows()), CashCommit(op, ref, note)) && Inv(Rows())
      ensures ops == old(ops) - {op} && now == old(now)
      ensures var q := old(ops)[op];
              reply == Outcome(Success) <==>
              && q.invoice < |old(invoices)|
              && (old(invoices)[q.invoice].status == Unpaid || old(invoices)[q.invoice].status == Overdue)
              && forall i | 0 <= i < |old(payments)| :: old(payments)[i].orderRef != ref
      ensures var q := old(ops)[op];
              reply == Outcome(Success) ==>
                && invoices == old(invoices)[q.invoice := old(invoices)[q.invoice].(status := Paid)]
                && payments == old(payments) + [Payment(q.invoice, ref, None, q.total, Success, None, Some(now), note)]
      ensures reply != Outcome(Success) ==>
                reply == Conflict && invoices == old(invoices) && payments == old(payments)
    {
      StepKeepsInv(Rows(), CashCommit(op, ref, note));
      var q := ops[op];
      assert OpOk(Rows(), q);
      ops := ops - {op};
      var inv := invoices[q.invoice];
      if !Payable(inv.status) {
        return Conflict;
      }
      invoices := invoices[q.invoice := inv.(status := Paid)];
      if RefTaken(payments, ref) {
        invoices := invoices[q.invoice := inv];  // the transaction rolls back
        return Conflict;
      }
      payments := payments + [Payment(q.invoice, ref, None, q.total, Success, None, Some(now), note)];
      return Outcome(Success);
    }

    /** First await of handleWebhook: look the payment up and answer what needs no transaction. */
    method ReadForWebhook(op: nat, e: Event) returns (reply: Reply, id: nat)
      requires Inv(Rows()) && op !in ops
      modifies this
      ensures Inv(Rows()) && Rows() == Apply(old(Rows()), WebhookRead(op, e, id))
      ensures invoices == old(invoices) && payments == old(payments) && now == old(now)
      ensures reply == Accepted || reply == Ignored
      ensures reply == Ignored ==> ops == old(ops)
      ensures reply == Accepted ==>
                id < |payments| && payments[id].orderRef == e.orderRef &&
                ops == old(ops)[op := WebhookOp(e, id, payments[id])]
      ensures reply == Accepted <==>
              exists i | 0 <= i < |payments| ::
                && payments[i].orderRef == e.orderRef
                && (payments[i].status == Pending ||
                    (payments[i].status == Failed && payments[i].gatewayTxnId != Some(e.gatewayTxnId)))
    {
      if !RefTaken(payments, e.orderRef) {
        return Ignored, |payments|;
      }
      var i: nat :| i < |payments| && payments[i].orderRef == e.orderRef;
      StepKeepsInv(Rows(), WebhookRead(op, e, i));
      if AnsweredByRead(payments[i], e) {
        return Ignored, i;
      }
      ops := ops[op := WebhookOp(e, i, payments[i])];
      return Accepted, i;
    }

    /** transitionReceipt: claim the row for this identifier, then record the outcome. */
    method TransitionReceipt(id: nat, g: string, status: TxnStatus, note: Note) returns (changed: bool)
      requires id < |payments|
      modifies this`payments
      ensures changed <==> Claimable(old(payments)[id], g) && !TxnIdTaken(old(payments), id, g)
      ensures payments == if changed
                          then old(payments)[id := old(payments)[id].(status := status, gatewayTxnId := Some(g),
                                                                      note := Some(note))]
                          else old(payments)
    {
      if !Claimable(payments[id], g) {
        return false;
      }
      if TxnIdTaken(payments, id, g) {
        return false;  // unique violation: rolled back and swallowed
      }
      payments := payments[id := payments[id].(gatewayTxnId := Some(g))];
      payments := payments[id := payments[id].(status := status, gatewayTxnId := Some(g), note := Some(note))];
      return true;
    }

    /** A failed transfer, or one of another amount: recorded without touching the invoice. */
    method Decline(id: nat, e: Event, expected: nat) returns (reply: Reply)
      requires id < |payments| && payments[id].invoice < |invoices| && (!e.success || e.amount != expected)
      modifies this`payments
      ensures Rows() == Deliver(old(Rows()), id, e, expected)
      ensures reply == Ignored <==>
              !Claimable(old(payments)[id], e.gatewayTxnId) || TxnIdTaken(old(payments), id, e.gatewayTxnId)
      ensures reply == Ignored ==> payments == old(payments)
      ensures reply != Ignored ==>
                if e.success
                then reply == Flagged(false) &&
                     payments == old(payments)[id := old(payments)[id].(
                       status := Disputed, gatewayTxnId := Some(e.gatewayTxnId),
                       note := Some(AmountMismatch(expected, e.amount)))]
                else reply == Outcome(Failed) &&
                     payments == old(payments)[id := old(payments)[id].(
                       status := Failed, gatewayTxnId := Some(e.gatewayTxnId), note := Some(GatewayFailed))]
    {
      var k := payments[id].invoice;
      assert invoices[k := invoices[k]] == invoices;
      if !e.success {
        var failed := TransitionReceipt(id, e.gatewayTxnId, Failed, GatewayFailed);
        return if failed then Outcome(Failed) else Ignored;
      }
      var flagged := TransitionReceipt(id, e.gatewayTxnId, Disputed, AmountMismatch(expected, e.amount));
      return if flagged then Flagged(false) else Ignored;
    }

    /** Transaction of handleWebhook. */
    method HandleWebhook(op: nat) returns (reply: Reply)
      requires Inv(Rows()) && op in ops && ops[op].WebhookOp?
      modifies this
      ensures Rows() == Apply(old(Rows()), WebhookCommit(op)) && Inv(Rows())
      ensures var id := old(ops)[op].payment;
              reply == Outcome(Success) <==> payments[id].status == Success && old(payments)[id].status != Success
      ensures reply == Ignored ==> payments == old(payments) && invoices == old(invoices)
      ensures var WebhookOp(e, id, seen) := old(ops)[op];
              reply == if Claimable(old(payments)[id], e.gatewayTxnId) && !TxnIdTaken(old(payments), id, e.gatewayTxnId)
                       then ReplyFor(payments[id]) else Ignored
    {
      StepKeepsInv(Rows(), WebhookCommit(op));
      assert OpOk(Rows(), ops[op]);
      var WebhookOp(e, id, txn) := ops[op];
      assert RowOk(Rows(), payments[id]);
      assert Apply(Rows(), WebhookCommit(op)) == Deliver(Forget(Rows(), op), id, e, txn.amount);
      ops := ops - {op};
      if !e.success || e.amount != txn.amount {
        reply := Decline(id, e, txn.amount);
        return;
      }
      reply := Settle(id, e);
    }

    /** Claim and settlement inside one transaction, after the checks on the event itself. */
    method Settle(id: nat, e: Event) returns (reply: Reply)
      requires Inv(Rows()) && id < |payments| && e.success && e.amount == payments[id].amount
      modifies this`payments, this`invoices
      ensures Rows() == Deliver(old(Rows()), id, e, old(payments)[id].amount)
      ensures reply == Outcome(Success) <==> payments[id].status == Success && old(payments)[id].status != Success
      ensures reply == Ignored ==> payments == old(payments) && invoices == old(invoices)
      ensures reply == if Claimable(old(payments)[id], e.gatewayTxnId) && !TxnIdTaken(old(payments), id, e.gatewayTxnId)
                       then ReplyFor(payments[id]) else Ignored
    {
      var p := payments[id];
      assert RowOk(Rows(), p);
      assert invoices[p.invoice := invoices[p.invoice]] == invoices;
      if Open(p.status) && Expired(p, now) {
        var flagged := Claimable(p, e.gatewayTxnId) && !TxnIdTaken(payments, id, e.gatewayTxnId);
        if flagged {
          payments := payments[id := p.(status := Disputed, gatewayTxnId := Some(e.gatewayTxnId),
                                        paidAt := Some(now), note := Some(LateTransfer))];
        }
        return if flagged then Flagged(false) else Ignored;
      }
      if !Claimable(p, e.gatewayTxnId) || TxnIdTaken(payments, id, e.gatewayTxnId) {
        return Ignored;
      }
      reply := SettleClaim(id, e);
    }

    /** The row is claimed as SUCCESS first; what the invoice then says may turn it into a dispute. */
    method SettleClaim(id: nat, e: Event) returns (reply: Reply)
      requires id < |payments| && payments[id].invoice < |invoices| && e.success && e.amount == payments[id].amount
      requires Claimable(payments[id], e.gatewayTxnId) && !TxnIdTaken(payments, id, e.gatewayTxnId)
      requires !Expired(payments[id], now)
      modifies this`payments, this`invoices
      ensures Rows() == Deliver(old(Rows()), id, e, old(payments)[id].amount)
      ensures reply == ReplyFor(payments[id]) != Ignored
    {
      ghost var was := Rows();
      var p := payments[id];
      var k := p.invoice;
      assert invoices[k := invoices[k]] == invoices;
      var claimed := p.(gatewayTxnId := Some(e.gatewayTxnId), status := Success, paidAt := Some(now));
      payments := payments[id := claimed];
      SettledUpdate(was.payments, id, claimed, k);
      var inv := invoices[k];
      if inv.status == Cancelled || inv.status == InvoiceRefunded {
        payments := payments[id := claimed.(status := Disputed, note := Some(NotPayable))];
        return Flagged(false);
      }
      var totalSettled := Settled(payments, k);
      if totalSettled > inv.total {
        payments := payments[id := claimed.(status := Disputed, note := Some(Overpaid(totalSettled, inv.total)))];
        invoices := invoices[k := inv.(notes := inv.notes + [Overpaid(totalSettled, inv.total)])];
        return Flagged(true);
      }
      var paid := totalSettled >= inv.total;
      if paid && Payable(inv.status) {
        invoices := invoices[k := inv.(status := Paid)];
      }
      return Outcome(Success);
    }

    /** setOutcome: refund or dispute a receipt, then re-derive the invoice status. */
    method MarkOutcome(id: nat, refund: bool, note: Option<Note>) returns (reply: Reply)
      requires Inv(Rows())
      modifies this
      ensures Rows() == Apply(old(Rows()), SetOutcome(id, refund, note)) && Inv(Rows())
      ensures reply == NotFound <==> id >= |old(payments)|
      ensures reply == Conflict <==>
              id < |old(payments)| && old(payments)[id].status != Success &&
              !(old(payments)[id].status == Disputed && refund)
      ensures reply == NotFound || reply == Conflict ==> Rows() == old(Rows())
      ensures reply != NotFound && reply != Conflict ==>
                var stored := if refund then Refunded else Disputed;
                && reply == Outcome(stored)
                && payments == old(payments)[id := old(payments)[id].(
                     status := stored, note := if note.None? then old(payments)[id].note else note)]
      ensures ops == old(ops) && now == old(now)
    {
      StepKeepsInv(Rows(), SetOutcome(id, refund, note));
      if id >= |payments| {
        return NotFound;
      }
      var p := payments[id];
      assert RowOk(Rows(), p);
      var status := if refund then Refunded else Disputed;
      if p.status != Success && !(p.status == Disputed && refund) {
        return Conflict;
      }
      payments := payments[id := p.(status := status, note := if note.Some? then note else p.note)];
      RecomputeInvoiceStatus(p.invoice);
      return Outcome(status);
    }

    /** Afterwards an open or PAID invoice is PAID exactly when it is covered; a closed one is untouched. */
    method RecomputeInvoiceStatus(k: nat)
      requires k < |invoices|
      modifies this`invoices
      ensures Rows() == Recompute(old(Rows()), k)
      ensures invoices == old(invoices)[k := old(invoices)[k].(status := invoices[k].status)]
      ensures if Payable(old(invoices)[k].status) || old(invoices)[k].status == Paid
              then (invoices[k].status == Paid <==> Settled(payments, k) >= invoices[k].total) &&
                   (Payable(invoices[k].status) || invoices[k].status == Paid)
              else invoices[k].status == old(invoices)[k].status
      ensures Recompute(Rows(), k) == Rows()
    {
      var inv := invoices[k];
      if inv.status != Unpaid && inv.status != Paid && inv.status != Overdue {
        return;
      }
      var paid := Settled(payments, k) >= inv.total;
      if paid && inv.status != Paid {
        invoices := invoices[k := inv.(status := Paid)];
      } else if !paid && inv.status == Paid {
        invoices := invoices[k := inv.(status := Unpaid)];
      }
    }

    /** The daily aging job: exactly the unpaid invoices past their due date become overdue. */
    method MarkOverdue()
      requires Inv(Rows())
      modifies this
      ensures Rows() == Apply(old(Rows()), Age) && Inv(Rows())
      ensures |invoices| == |old(invoices)| && payments == old(payments) && ops == old(ops) && now == old(now)
      ensures forall k | 0 <= k < |invoices| ::
                invoices[k] == if old(invoices)[k].status == Unpaid && old(invoices)[k].dueDate < now
                               then old(invoices)[k].(status := Overdue) else old(invoices)[k]
    {
      StepKeepsInv(Rows(), Age);
      invoices := AgeAll(invoices, now);
    }
  }
}
