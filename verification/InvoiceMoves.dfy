/**
 * How the status of an invoice moves. PAID is left by a refund or dispute of the receipt that
 * paid for it and by nothing else; OVERDUE is left for PAID only; CANCELLED and REFUNDED are
 * never left.
 */
module InvoiceMoves {
  import opened Options
  import opened Settlement
  import opened SettlementProof

  /** The step takes back a receipt that invoice `k` was paid with. */
  predicate TakesBack(db: Db, step: Step, k: nat) {
    && step.SetOutcome? && step.payment < |db.payments|
    && db.payments[step.payment].status == Success && db.payments[step.payment].invoice == k
    && k < |db.invoices| && db.invoices[k].total > 0
  }

  /** The moves a single step can make. */
  ghost predicate Moves(db: Db, step: Step, before: InvoiceStatus, after: InvoiceStatus, k: nat) {
    match before
    case Unpaid => after == Unpaid || after == Overdue || after == Paid
    case Overdue => after == Overdue || after == Paid
    case Paid => after == if TakesBack(db, step, k) then Unpaid else Paid
    case Cancelled => after == Cancelled
    case InvoiceRefunded => after == InvoiceRefunded
  }

  lemma OutcomeMoves(db: Db, id: nat, refund: bool, note: Option<Note>, k: nat)
    requires Inv(db) && k < |db.invoices|
    ensures var db' := CommitOutcome(db, id, refund, note);
            k < |db'.invoices| &&
            Moves(db, SetOutcome(id, refund, note), db.invoices[k].status, db'.invoices[k].status, k)
  {
    if id < |db.payments| && OutcomeAllowed(db.payments[id], refund) {
      var p := db.payments[id];
      assert RowOk(db, p);
      var p' := p.(status := if refund then Refunded else Disputed, note := if note.Some? then note else p.note);
      SettledUpdate(db.payments, id, p', p.invoice);
    }
  }

  /** Every step moves every invoice as allowed: out of PAID exactly when it takes the receipt back. */
  lemma StepMoves(db: Db, step: Step, k: nat)
    requires Inv(db) && k < |db.invoices|
    ensures var db' := Apply(db, step);
            k < |db'.invoices| && Moves(db, step, db.invoices[k].status, db'.invoices[k].status, k)
  {
    match step
    case SetOutcome(id, refund, note) => OutcomeMoves(db, id, refund, note, k);
    case _ =>
  }

  /** No step of the run takes a receipt of invoice `k` back. */
  ghost predicate NoneTakenBack(db: Db, steps: seq<Step>, k: nat)
    decreases |steps|
  {
    steps == [] || (!TakesBack(db, steps[0], k) && NoneTakenBack(Apply(db, steps[0]), steps[1..], k))
  }

  /** Invoice `k` has the status in every state of the run. */
  ghost predicate Throughout(db: Db, steps: seq<Step>, k: nat, s: InvoiceStatus)
    decreases |steps|
  {
    && k < |db.invoices| && db.invoices[k].status == s
    && (steps == [] || Throughout(Apply(db, steps[0]), steps[1..], k, s))
  }

  /** A PAID invoice stays PAID throughout a run exactly when no step takes its receipt back. */
  lemma {:induction false} PaidUntilTakenBack(db: Db, steps: seq<Step>, k: nat)
    requires Inv(db) && k < |db.invoices| && db.invoices[k].status == Paid
    ensures Throughout(db, steps, k, Paid) <==> NoneTakenBack(db, steps, k)
    decreases |steps|
  {
    if steps != [] {
      StepKeepsInv(db, steps[0]);
      StepMoves(db, steps[0], k);
      if !TakesBack(db, steps[0], k) {
        PaidUntilTakenBack(Apply(db, steps[0]), steps[1..], k);
      }
    }
  }

  /** While no receipt is taken back, an OVERDUE invoice only becomes PAID. */
  lemma {:induction false} OverdueOnlyGetsPaid(db: Db, steps: seq<Step>, k: nat)
    requires Inv(db) && k < |db.invoices| && NoneTakenBack(db, steps, k)
    requires db.invoices[k].status == Overdue || db.invoices[k].status == Paid
    ensures var db' := Run(db, steps);
            k < |db'.invoices| && (db'.invoices[k].status == Paid || db'.invoices[k].status == db.invoices[k].status)
    decreases |steps|
  {
    if steps != [] {
      StepKeepsInv(db, steps[0]);
      StepMoves(db, steps[0], k);
      OverdueOnlyGetsPaid(Apply(db, steps[0]), steps[1..], k);
    }
  }

  /** CANCELLED and REFUNDED are absorbing in every run. */
  lemma {:induction false} ClosedStaysClosed(db: Db, steps: seq<Step>, k: nat)
    requires Inv(db) && k < |db.invoices|
    requires db.invoices[k].status == Cancelled || db.invoices[k].status == InvoiceRefunded
    ensures Throughout(db, steps, k, db.invoices[k].status)
    decreases |steps|
  {
    if steps != [] {
      StepKeepsInv(db, steps[0]);
      StepMoves(db, steps[0], k);
      ClosedStaysClosed(Apply(db, steps[0]), steps[1..], k);
    }
  }

  /** An invoice paid in cash and refunded after its due date. */
  function RefundRun(): seq<Step> {
    [Issue(1, 0, None), CashRead(1, 0), CashCommit(1, "CASH", None)]
  }

  /** A refund moves PAID back to UNPAID, and the next pass of the aging job makes it OVERDUE again. */
  lemma RefundReopens(init: Db)
    requires Init(init) && init.invoices == [] && init.now > 0
    ensures var db := Run(init, RefundRun());
            && |db.invoices| == 1 && db.invoices[0].status == Paid
            && |Run(db, [SetOutcome(0, true, None)]).invoices| == 1
            && Run(db, [SetOutcome(0, true, None)]).invoices[0].status == Unpaid
            && |Run(db, [SetOutcome(0, true, None), Age]).invoices| == 1
            && Run(db, [SetOutcome(0, true, None), Age]).invoices[0].status == Overdue
  {
    var db1 := Apply(init, Issue(1, 0, None));
    var db2 := Apply(db1, CashRead(1, 0));
    var db3 := Apply(db2, CashCommit(1, "CASH", None));
    assert db3.invoices == [Invoice(1, Paid, 0, None, [])];
    assert db3.payments == [Payment(0, "CASH", None, 1, Success, None, Some(init.now), None)];
    assert Run(init, RefundRun()) == db3;
    var back := SetOutcome(0, true, None);
    var db4 := Apply(db3, back);
    assert db4.payments[..0] == [];
    assert Settled(db4.payments, 0) == 0;
    assert [back][1..] == [] && [back, Age][1..] == [Age] && [Age][1..] == [];
    assert Run(db3, [back]) == db4;
    assert Run(db3, [back, Age]) == Apply(db4, Age);
  }
}
