/**
 * What every run of the settlement steps keeps: money is conserved, statuses only
 * descend, gateway identifiers are written once, and a redelivered event changes
 * nothing.
 */
module SettlementProof {
  import opened Options
  import opened Settlement

  // ---------------------------------------------------------------- the invariant

  /** Payment rows belong to an invoice, ask for its whole total, and keep their notes in step. */
  ghost predicate RowsOk(db: Db) {
    forall i | 0 <= i < |db.payments| :: RowOk(db, db.payments[i])
  }

  ghost predicate RowOk(db: Db, p: Payment) {
    && p.invoice < |db.invoices|
    && p.amount == db.invoices[p.invoice].total
    && (p.status == Pending ==> p.gatewayTxnId == None)
    && (p.status == Failed && p.gatewayTxnId.Some? ==> p.note == Some(GatewayFailed))
  }

  /** The two unique indexes. */
  ghost predicate RefsUnique(ps: seq<Payment>) {
    forall i, j | 0 <= i < j < |ps| :: ps[i].orderRef != ps[j].orderRef
  }

  ghost predicate TxnIdsUnique(ps: seq<Payment>) {
    forall i, j | 0 <= i < j < |ps| :: ps[i].gatewayTxnId.Some? ==> ps[i].gatewayTxnId != ps[j].gatewayTxnId
  }

  ghost predicate OnePending(ps: seq<Payment>) {
    forall i, j | 0 <= i < j < |ps| ::
      ps[i].status == Pending && ps[j].status == Pending ==> ps[i].invoice != ps[j].invoice
  }

  /** What the stored status of an invoice says has been collected. */
  function StatusValue(inv: Invoice): nat {
    if inv.status == Paid then inv.total else 0
  }

  /** The stored status and the SUCCESS payments agree, invoice by invoice. */
  ghost predicate Balanced(db: Db) {
    forall k: nat | k < |db.invoices| :: Settled(db.payments, k) == StatusValue(db.invoices[k])
  }

  /** The columns of a payment that no step writes after the row is created. */
  ghost predicate SameOrder(p: Payment, p': Payment) {
    p'.invoice == p.invoice && p'.orderRef == p.orderRef && p'.amount == p.amount
  }

  /** Snapshots may be stale in everything but the columns no step writes. */
  ghost predicate OpOk(db: Db, op: Op) {
    match op
    case QrOp(k, total, _, _) => k < |db.invoices| && total == db.invoices[k].total
    case CashOp(k, total) => k < |db.invoices| && total == db.invoices[k].total
    case WebhookOp(e, id, seen) =>
      id < |db.payments| && e.orderRef == seen.orderRef && SameOrder(seen, db.payments[id])
  }

  ghost predicate OpsOk(db: Db) {
    forall o | o in db.ops :: OpOk(db, db.ops[o])
  }

  ghost predicate Inv(db: Db) {
    RowsOk(db) && RefsUnique(db.payments) && TxnIdsUnique(db.payments) && OnePending(db.payments) &&
    Balanced(db) && OpsOk(db)
  }

  // ------------------------------------------------------- the settled amount

  lemma {:induction false} SettledUpdate(ps: seq<Payment>, i: nat, p: Payment, k: nat)
    requires i < |ps|
    ensures Settled(ps[i := p], k) == Settled(ps, k) - Worth(ps[i], k) + Worth(p, k)
    ensures Worth(ps[i], k) <= Settled(ps, k)
    decreases |ps|
  {
    var n := |ps| - 1;
    var qs := ps[i := p];
    if i == n {
      assert qs[..n] == ps[..n];
    } else {
      assert qs[..n] == ps[..n][i := p];
      SettledUpdate(ps[..n], i, p, k);
    }
  }

  lemma {:induction false} SettledCongruent(ps: seq<Payment>, qs: seq<Payment>, k: nat)
    requires |ps| == |qs|
    requires forall i | 0 <= i < |ps| :: Worth(ps[i], k) == Worth(qs[i], k)
    ensures Settled(ps, k) == Settled(qs, k)
    decreases |ps|
  {
    if ps != [] {
      SettledCongruent(ps[..|ps| - 1], qs[..|ps| - 1], k);
    }
  }

  lemma SettledAppend(ps: seq<Payment>, p: Payment, k: nat)
    ensures Settled(ps + [p], k) == Settled(ps, k) + Worth(p, k)
  {
  }

  lemma {:induction false} SettledUnused(ps: seq<Payment>, k: nat)
    requires forall i | 0 <= i < |ps| :: ps[i].invoice != k
    ensures Settled(ps, k) == 0
    decreases |ps|
  {
    if ps != [] {
      SettledUnused(ps[..|ps| - 1], k);
    }
  }

  // ------------------------------------------------- every step keeps the invariant

  /** No step changes what an existing invoice asks for. */
  ghost predicate SameTotals(invs: seq<Invoice>, invs': seq<Invoice>) {
    |invs| == |invs'| && forall k | 0 <= k < |invs| :: invs'[k].total == invs[k].total
  }

  /** Rewriting one payment row keeps everything but the balance, which is argued apart. */
  lemma ChangingOneRow(db: Db, db': Db, id: nat, p: Payment)
    requires Inv(db) && id < |db.payments|
    requires db'.payments == db.payments[id := p] && db'.ops == db.ops && SameTotals(db.invoices, db'.invoices)
    requires SameOrder(db.payments[id], p) && p.status != Pending && RowOk(db', p)
    requires p.gatewayTxnId.Some? ==> !TxnIdTaken(db.payments, id, p.gatewayTxnId.value)
    ensures RowsOk(db') && RefsUnique(db'.payments) && TxnIdsUnique(db'.payments) && OnePending(db'.payments)
    ensures OpsOk(db')
  {
  }

  /** Superseding the open QR payments and adding a new one. */
  lemma CommitQrRows(db: Db, q: Op)
    requires Inv(db) && q.QrOp? && OpOk(db, q)
    ensures RowsOk(CommitQr(db, q)) && OpsOk(CommitQr(db, q))
  {
  }

  lemma CommitQrUnique(db: Db, q: Op)
    requires Inv(db) && q.QrOp? && OpOk(db, q)
    ensures var ps := CommitQr(db, q).payments; RefsUnique(ps) && TxnIdsUnique(ps) && OnePending(ps)
  {
  }

  lemma CommitQrBalances(db: Db, q: Op, k: nat)
    requires q.QrOp?
    ensures Settled(CommitQr(db, q).payments, k) == Settled(db.payments, k)
  {
    var r := CommitQr(db, q);
    if r != db {
      var mid := SupersedeAll(db.payments, q.invoice, db.now);
      SettledCongruent(db.payments, mid, k);
      SettledAppend(mid, r.payments[|mid|], k);
    }
  }

  lemma CommitQrKeepsInv(db: Db, q: Op)
    requires Inv(db) && q.QrOp? && OpOk(db, q)
    ensures Inv(CommitQr(db, q))
  {
    CommitQrRows(db, q);
    CommitQrUnique(db, q);
    forall k: nat | k < |db.invoices| ensures Settled(CommitQr(db, q).payments, k) == Settled(db.payments, k) {
      CommitQrBalances(db, q, k);
    }
  }

  lemma CommitCashRows(db: Db, q: Op, ref: string, note: Option<Note>)
    requires Inv(db) && q.CashOp? && OpOk(db, q)
    ensures var r := CommitCash(db, q, ref, note);
            RowsOk(r) && OpsOk(r) && RefsUnique(r.payments) && TxnIdsUnique(r.payments) && OnePending(r.payments)
  {
    var r := CommitCash(db, q, ref, note);
    if r != db {
      assert forall i | 0 <= i < |db.payments| :: r.payments[i] == db.payments[i];
      forall i | 0 <= i < |r.payments| ensures RowOk(r, r.payments[i]) {
        if i < |db.payments| {
          assert RowOk(db, db.payments[i]);
        }
      }
      forall o | o in r.ops ensures OpOk(r, r.ops[o]) {
        assert OpOk(db, db.ops[o]);
      }
    }
  }

  lemma CommitCashKeepsInv(db: Db, q: Op, ref: string, note: Option<Note>)
    requires Inv(db) && q.CashOp? && OpOk(db, q)
    ensures Inv(CommitCash(db, q, ref, note))
  {
    CommitCashRows(db, q, ref, note);
    var r := CommitCash(db, q, ref, note);
    if r != db {
      forall k: nat | k < |r.invoices| ensures Settled(r.payments, k) == StatusValue(r.invoices[k]) {
        SettledAppend(db.payments, r.payments[|db.payments|], k);
      }
    }
  }

  lemma DeliverBalances(db: Db, id: nat, e: Event)
    requires Inv(db) && id < |db.payments|
    requires Claimable(db.payments[id], e.gatewayTxnId) && !TxnIdTaken(db.payments, id, e.gatewayTxnId)
    ensures Balanced(Deliver(db, id, e, db.payments[id].amount))
  {
    var r := Deliver(db, id, e, db.payments[id].amount);
    assert RowOk(db, db.payments[id]);
    forall k: nat | k < |r.invoices| ensures Settled(r.payments, k) == StatusValue(r.invoices[k]) {
      SettledUpdate(db.payments, id, r.payments[id], k);
    }
  }

  lemma DeliverKeepsInv(db: Db, id: nat, e: Event)
    requires Inv(db) && id < |db.payments|
    ensures Inv(Deliver(db, id, e, db.payments[id].amount))
  {
    var r := Deliver(db, id, e, db.payments[id].amount);
    assert RowOk(db, db.payments[id]);
    if Claimable(db.payments[id], e.gatewayTxnId) && !TxnIdTaken(db.payments, id, e.gatewayTxnId) {
      ChangingOneRow(db, r, id, r.payments[id]);
      DeliverBalances(db, id, e);
    }
  }

  lemma OutcomeBalances(db: Db, id: nat, refund: bool, note: Option<Note>)
    requires Inv(db) && id < |db.payments| && OutcomeAllowed(db.payments[id], refund)
    ensures Balanced(CommitOutcome(db, id, refund, note))
  {
    var r := CommitOutcome(db, id, refund, note);
    assert RowOk(db, db.payments[id]);
    forall k: nat | k < |r.invoices| ensures Settled(r.payments, k) == StatusValue(r.invoices[k]) {
      SettledUpdate(db.payments, id, r.payments[id], k);
    }
  }

  lemma CommitOutcomeKeepsInv(db: Db, id: nat, refund: bool, note: Option<Note>)
    requires Inv(db)
    ensures Inv(CommitOutcome(db, id, refund, note))
  {
    var r := CommitOutcome(db, id, refund, note);
    if id < |db.payments| && OutcomeAllowed(db.payments[id], refund) {
      assert RowOk(db, db.payments[id]);
      ChangingOneRow(db, r, id, r.payments[id]);
      OutcomeBalances(db, id, refund, note);
    }
  }

  lemma IssueKeepsInv(db: Db, total: nat, due: int, tuition: Option<Period>)
    requires Inv(db)
    ensures Inv(Apply(db, Issue(total, due, tuition)))
  {
    SettledUnused(db.payments, |db.invoices|);
  }

  lemma ForgetKeepsInv(db: Db, op: nat)
    requires Inv(db)
    ensures Inv(Forget(db, op))
  {
  }

  /** Aging touches no payment, no total and no collected amount. */
  lemma AgeKeepsInv(db: Db)
    requires Inv(db)
    ensures Inv(Apply(db, Age))
  {
    var r := Apply(db, Age);
    assert forall p | RowOk(db, p) :: RowOk(r, p);
    assert forall op | OpOk(db, op) :: OpOk(r, op);
  }

  /** Reads leave every row alone. */
  lemma ReadKeepsInv(db: Db, step: Step)
    requires Inv(db) && (step.Tick? || step.QrRead? || step.CashRead? || step.WebhookRead?)
    ensures Inv(Apply(db, step))
  {
    var r := Apply(db, step);
    assert forall p | RowOk(db, p) :: RowOk(r, p);
    assert forall op | OpOk(db, op) :: OpOk(r, op);
  }

  lemma StepKeepsInv(db: Db, step: Step)
    requires Inv(db)
    ensures Inv(Apply(db, step))
  {
    match step
    case Issue(total, due, tuition) => IssueKeepsInv(db, total, due, tuition);
    case QrCommit(op) =>
      if op in db.ops && db.ops[op].QrOp? {
        ForgetKeepsInv(db, op);
        CommitQrKeepsInv(Forget(db, op), db.ops[op]);
      }
    case CashCommit(op, ref, note) =>
      if op in db.ops && db.ops[op].CashOp? {
        ForgetKeepsInv(db, op);
        CommitCashKeepsInv(Forget(db, op), db.ops[op], ref, note);
      }
    case WebhookCommit(op) =>
      if op in db.ops && db.ops[op].WebhookOp? {
        ForgetKeepsInv(db, op);
        assert OpOk(db, db.ops[op]);
        DeliverKeepsInv(Forget(db, op), db.ops[op].payment, db.ops[op].event);
      }
    case SetOutcome(id, refund, note) => CommitOutcomeKeepsInv(db, id, refund, note);
    case Abandon(op) => ForgetKeepsInv(db, op);
    case Age => AgeKeepsInv(db);
    case _ => ReadKeepsInv(db, step);
  }

  lemma {:induction false} RunKeepsInv(db: Db, steps: seq<Step>)
    requires Inv(db)
    ensures Inv(Run(db, steps))
    decreases |steps|
  {
    if steps != [] {
      StepKeepsInv(db, steps[0]);
      RunKeepsInv(Apply(db, steps[0]), steps[1..]);
    }
  }

  lemma InitHasInv(db: Db)
    requires Init(db)
    ensures Inv(db)
  {
  }

  // -------------------------------------------------------------- conservation

  /** In every run an invoice has collected nothing or exactly its total, as its status says. */
  lemma MoneyIsConserved(init: Db, steps: seq<Step>, k: nat)
    requires Init(init)
    requires k < |Run(init, steps).invoices|
    ensures var db := Run(init, steps);
            var inv := db.invoices[k];
            && Settled(db.payments, k) <= inv.total
            && (Settled(db.payments, k) == 0 || Settled(db.payments, k) == inv.total)
            && (inv.total > 0 ==> (inv.status == Paid <==> Settled(db.payments, k) == inv.total))
            && (inv.status == Cancelled || inv.status == InvoiceRefunded ==> Settled(db.payments, k) == 0)
  {
    InitHasInv(init);
    RunKeepsInv(init, steps);
  }

  /**
   * Re-deriving the status of an invoice in a reachable database changes nothing, except
   * for an open invoice over nothing, which it marks paid.
   */
  lemma RecomputeIsNoOp(init: Db, steps: seq<Step>, k: nat)
    requires Init(init)
    requires k < |Run(init, steps).invoices|
    ensures var db := Run(init, steps);
            Recompute(db, k) == db <==> !(Payable(db.invoices[k].status) && db.invoices[k].total == 0)
  {
    InitHasInv(init);
    RunKeepsInv(init, steps);
    var db := Run(init, steps);
    if Payable(db.invoices[k].status) && db.invoices[k].total == 0 {
      assert Recompute(db, k).invoices[k].status == Paid;
    }
  }

  /** In every run an invoice has at most one pending payment, and both indexes hold. */
  lemma AtMostOnePending(init: Db, steps: seq<Step>, i: nat, j: nat)
    requires Init(init)
    requires i < j < |Run(init, steps).payments|
    ensures var ps := Run(init, steps).payments;
            && (ps[i].status == Pending && ps[j].status == Pending ==> ps[i].invoice != ps[j].invoice)
            && (ps[i].gatewayTxnId.Some? ==> ps[i].gatewayTxnId != ps[j].gatewayTxnId)
            && (ps[i].status == Pending ==> ps[i].gatewayTxnId == None)
            && ps[i].orderRef != ps[j].orderRef
  {
    InitHasInv(init);
    RunKeepsInv(init, steps);
    var db := Run(init, steps);
    assert RowOk(db, db.payments[i]);
  }

  // ------------------------------------------------------------ the tuition report

  predicate InPeriod(invs: seq<Invoice>, k: nat, q: Period) {
    k < |invs| && invs[k].tuition == Some(q)
  }

  /** tuitionReport's collected amount: SUCCESS payments of the period's invoices. */
  function Collected(ps: seq<Payment>, invs: seq<Invoice>, q: Period): nat {
    if ps == [] then 0
    else
      var p := ps[|ps| - 1];
      Collected(ps[..|ps| - 1], invs, q) + if p.status == Success && InPeriod(invs, p.invoice, q) then p.amount else 0
  }

  /** tuitionReport's PAID row: the totals of the period's paid invoices among the first `n`. */
  function PaidTotal(invs: seq<Invoice>, n: nat, q: Period): nat
    requires n <= |invs|
  {
    if n == 0 then 0
    else PaidTotal(invs, n - 1, q) + if InPeriod(invs, n - 1, q) then StatusValue(invs[n - 1]) else 0
  }

  /** The settled amounts of the period's invoices among the first `n`. */
  function SettledTotal(ps: seq<Payment>, invs: seq<Invoice>, n: nat, q: Period): nat
    requires n <= |invs|
  {
    if n == 0 then 0
    else SettledTotal(ps, invs, n - 1, q) + if InPeriod(invs, n - 1, q) then Settled(ps, n - 1) else 0
  }

  lemma {:induction false} SettledTotalAppend(ps: seq<Payment>, p: Payment, invs: seq<Invoice>, n: nat, q: Period)
    requires n <= |invs|
    ensures SettledTotal(ps + [p], invs, n, q) ==
            SettledTotal(ps, invs, n, q) +
            if p.status == Success && p.invoice < n && InPeriod(invs, p.invoice, q) then p.amount else 0
  {
    if n > 0 {
      SettledTotalAppend(ps, p, invs, n - 1, q);
      SettledAppend(ps, p, n - 1);
    }
  }

  lemma {:induction false} SettledTotalEmpty(invs: seq<Invoice>, n: nat, q: Period)
    requires n <= |invs|
    ensures SettledTotal([], invs, n, q) == 0
  {
    if n > 0 {
      SettledTotalEmpty(invs, n - 1, q);
    }
  }

  lemma {:induction false} CollectedBySettled(ps: seq<Payment>, invs: seq<Invoice>, q: Period)
    ensures Collected(ps, invs, q) == SettledTotal(ps, invs, |invs|, q)
    decreases |ps|
  {
    if ps == [] {
      SettledTotalEmpty(invs, |invs|, q);
    } else {
      var n := |ps| - 1;
      assert ps[..n] + [ps[n]] == ps;
      CollectedBySettled(ps[..n], invs, q);
      SettledTotalAppend(ps[..n], ps[n], invs, |invs|, q);
    }
  }

  lemma {:induction false} SettledTotalIsPaidTotal(db: Db, n: nat, q: Period)
    requires Balanced(db) && n <= |db.invoices|
    ensures SettledTotal(db.payments, db.invoices, n, q) == PaidTotal(db.invoices, n, q)
  {
    if n > 0 {
      SettledTotalIsPaidTotal(db, n - 1, q);
    }
  }

  /** In every run the report's collected amount equals its PAID total. */
  lemma ReportBalances(init: Db, steps: seq<Step>, q: Period)
    requires Init(init)
    ensures var db := Run(init, steps);
            Collected(db.payments, db.invoices, q) == PaidTotal(db.invoices, |db.invoices|, q)
  {
    InitHasInv(init);
    RunKeepsInv(init, steps);
    var db := Run(init, steps);
    CollectedBySettled(db.payments, db.invoices, q);
    SettledTotalIsPaidTotal(db, |db.invoices|, q);
  }

  // -------------------------------------------------- what a run never undoes

  function Rank(s: TxnStatus): nat {
    match s
    case Pending => 0
    case Failed => 1
    case Success => 2
    case Disputed => 3
    case Refunded => 4
  }

  /** A payment that can no longer succeed: past its expiry, or already past success. */
  predicate Doomed(p: Payment, now: int) {
    (Open(p.status) && Expired(p, now)) || Rank(p.status) > Rank(Success)
  }

  ghost predicate RowEvolves(p: Payment, now: int, p': Payment, now': int) {
    && SameOrder(p, p')
    && Rank(p.status) <= Rank(p'.status)
    && (p.gatewayTxnId.Some? ==> p'.gatewayTxnId == p.gatewayTxnId)
    && (Doomed(p, now) ==> Doomed(p', now'))
  }

  /** How a database relates to any later one of the same run. */
  ghost predicate Evolves(db: Db, db': Db) {
    && db.now <= db'.now
    && |db.invoices| <= |db'.invoices|
    && (forall k | 0 <= k < |db.invoices| :: db'.invoices[k].total == db.invoices[k].total)
    && |db.payments| <= |db'.payments|
    && forall i | 0 <= i < |db.payments| :: RowEvolves(db.payments[i], db.now, db'.payments[i], db'.now)
  }

  lemma EvolvesTransitive(a: Db, b: Db, c: Db)
    requires Evolves(a, b) && Evolves(b, c)
    ensures Evolves(a, c)
  {
  }

  lemma DeliverEvolves(db: Db, id: nat, e: Event, seenAmount: nat)
    requires id < |db.payments| && db.payments[id].invoice < |db.invoices|
    ensures Evolves(db, Deliver(db, id, e, seenAmount))
  {
  }

  lemma CommitQrEvolves(db: Db, q: Op)
    requires q.QrOp?
    ensures Evolves(db, CommitQr(db, q))
  {
  }

  lemma CommitOutcomeEvolves(db: Db, id: nat, refund: bool, note: Option<Note>)
    ensures Evolves(db, CommitOutcome(db, id, refund, note))
  {
  }

  lemma OtherStepEvolves(db: Db, step: Step)
    requires !step.QrCommit? && !step.WebhookCommit? && !step.SetOutcome?
    ensures Evolves(db, Apply(db, step))
  {
  }

  lemma StepEvolves(db: Db, step: Step)
    ensures Evolves(db, Apply(db, step))
  {
    match step
    case QrCommit(op) =>
      if op in db.ops && db.ops[op].QrOp? {
        CommitQrEvolves(Forget(db, op), db.ops[op]);
      }
    case WebhookCommit(op) =>
      if op in db.ops && db.ops[op].WebhookOp? && db.ops[op].payment < |db.payments| &&
         db.payments[db.ops[op].payment].invoice < |db.invoices| {
        DeliverEvolves(Forget(db, op), db.ops[op].payment, db.ops[op].event, db.ops[op].seen.amount);
      }
    case SetOutcome(id, refund, note) => CommitOutcomeEvolves(db, id, refund, note);
    case _ => OtherStepEvolves(db, step);
  }

  lemma {:induction false} RunEvolves(db: Db, steps: seq<Step>)
    ensures Evolves(db, Run(db, steps))
    decreases |steps|
  {
    if steps != [] {
      StepEvolves(db, steps[0]);
      RunEvolves(Apply(db, steps[0]), steps[1..]);
      EvolvesTransitive(db, Apply(db, steps[0]), Run(db, steps));
    }
  }

  /** Over any run a status only descends, so a payment that left SUCCESS never returns to it. */
  lemma StatusOnlyDescends(db: Db, steps: seq<Step>, i: nat)
    requires i < |db.payments|
    ensures var db' := Run(db, steps);
            && |db.payments| <= |db'.payments|
            && Rank(db.payments[i].status) <= Rank(db'.payments[i].status)
            && (Rank(db.payments[i].status) > Rank(Success) ==> db'.payments[i].status != Success)
            && (db.payments[i].gatewayTxnId.Some? ==> db'.payments[i].gatewayTxnId == db.payments[i].gatewayTxnId)
            && SameOrder(db.payments[i], db'.payments[i])
  {
    RunEvolves(db, steps);
    assert RowEvolves(db.payments[i], db.now, Run(db, steps).payments[i], Run(db, steps).now);
  }

  /** A pending payment that a newer QR request replaced never becomes SUCCESS. */
  lemma SupersededNeverSucceeds(db: Db, op: nat, steps: seq<Step>, i: nat)
    requires op in db.ops && db.ops[op].QrOp? && i < |db.payments|
    requires db.payments[i].status == Pending && db.payments[i].invoice == db.ops[op].invoice
    requires var db1 := Apply(db, QrCommit(op)); |db1.payments| > |db.payments|
    ensures var db1 := Apply(db, QrCommit(op));
            db1.payments[i].status == Failed && |Run(db1, steps).payments| > i &&
            Run(db1, steps).payments[i].status != Success
  {
    var db1 := Apply(db, QrCommit(op));
    assert Doomed(db1.payments[i], db1.now);
    RunEvolves(db1, steps);
    assert RowEvolves(db1.payments[i], db1.now, Run(db1, steps).payments[i], Run(db1, steps).now);
  }

  /** An unpaid QR payment whose expiry has passed never becomes SUCCESS either. */
  lemma ExpiredNeverSucceeds(db: Db, steps: seq<Step>, i: nat)
    requires i < |db.payments| && Open(db.payments[i].status) && Expired(db.payments[i], db.now)
    ensures i < |Run(db, steps).payments| && Run(db, steps).payments[i].status != Success
  {
    RunEvolves(db, steps);
    assert RowEvolves(db.payments[i], db.now, Run(db, steps).payments[i], Run(db, steps).now);
  }

  /** A first transfer of the exact amount, before the QR expires, pays an open invoice. */
  lemma ExactTransferPays(db: Db, id: nat, e: Event)
    requires Inv(db) && id < |db.payments|
    requires Claimable(db.payments[id], e.gatewayTxnId) && !TxnIdTaken(db.payments, id, e.gatewayTxnId)
    requires !Expired(db.payments[id], db.now) && Payable(db.invoices[db.payments[id].invoice].status)
    requires e.success && e.amount == db.payments[id].amount
    ensures var r := Deliver(db, id, e, db.payments[id].amount);
            r.payments[id].status == Success && r.invoices[db.payments[id].invoice].status == Paid
  {
  }

  // ---------------------------------------------------------------- redelivery

  /** No transaction for the event can change a row any more. */
  ghost predicate Answered(db: Db, id: nat, e: Event) {
    && id < |db.payments|
    && db.payments[id].orderRef == e.orderRef
    && var p := db.payments[id];
       || !Claimable(p, e.gatewayTxnId)
       || TxnIdTaken(db.payments, id, e.gatewayTxnId)
       || (!e.success && p.status == Failed && p.gatewayTxnId == Some(e.gatewayTxnId))
  }

  lemma DeliveryAnswers(db: Db, id: nat, e: Event)
    requires Inv(db) && id < |db.payments| && db.payments[id].orderRef == e.orderRef
    ensures Answered(Deliver(db, id, e, db.payments[id].amount), id, e)
  {
  }

  lemma AnsweredIsStable(db: Db, db': Db, id: nat, e: Event)
    requires Answered(db, id, e) && Evolves(db, db')
    ensures Answered(db', id, e)
  {
  }

  lemma AnsweredIsNoOp(db: Db, id: nat, e: Event)
    requires Inv(db) && Answered(db, id, e)
    ensures Deliver(db, id, e, db.payments[id].amount) == db
  {
  }

  /**
   * Once one transaction for an event has run, a transaction for the same event changes
   * no row, however stale its read, whatever ran in between, and whatever the clock says.
   */
  lemma RedeliveryIsNoOp(init: Db, before: seq<Step>, first: nat, between: seq<Step>, second: nat)
    requires Init(init)
    requires var db := Run(init, before); first in db.ops && db.ops[first].WebhookOp?
    requires var db := Run(init, before);
             var db' := Run(Apply(db, WebhookCommit(first)), between);
             second in db'.ops && db'.ops[second].WebhookOp? && db'.ops[second].event == db.ops[first].event
    ensures var db := Run(init, before);
            var db' := Run(Apply(db, WebhookCommit(first)), between);
            var after := Apply(db', WebhookCommit(second));
            after.payments == db'.payments && after.invoices == db'.invoices
  {
    InitHasInv(init);
    RunKeepsInv(init, before);
    var db := Run(init, before);
    var WebhookOp(e, id, seen) := db.ops[first];
    assert OpOk(db, db.ops[first]);
    assert RowOk(db, db.payments[id]);
    var db1 := Apply(db, WebhookCommit(first));
    ForgetKeepsInv(db, first);
    DeliveryAnswers(Forget(db, first), id, e);
    StepKeepsInv(db, WebhookCommit(first));
    RunKeepsInv(db1, between);
    RunEvolves(db1, between);
    var db' := Run(db1, between);
    AnsweredIsStable(db1, db', id, e);
    SecondDeliveryIsNoOp(db', second, id, e);
  }

  lemma SecondDeliveryIsNoOp(db: Db, op: nat, id: nat, e: Event)
    requires Inv(db) && Answered(db, id, e)
    requires op in db.ops && db.ops[op].WebhookOp? && db.ops[op].event == e
    ensures Apply(db, WebhookCommit(op)) == Forget(db, op)
  {
  }

  /** Steps that only read, commit or drop deliveries of one event, or let time pass. */
  ghost predicate OnlyRedelivers(db: Db, steps: seq<Step>, e: Event)
    decreases |steps|
  {
    steps == [] ||
    (var step := steps[0];
     && (match step
         case WebhookRead(_, e', _) => e' == e
         case WebhookCommit(op) => op in db.ops ==> db.ops[op].WebhookOp? && db.ops[op].event == e
         case Tick(_) => true
         case Abandon(_) => true
         case _ => false)
     && OnlyRedelivers(Apply(db, step), steps[1..], e))
  }

  /** Any number of further deliveries, sequential or overlapping, leave the rows as the first did. */
  lemma {:induction false} RedeliveriesKeepRows(db: Db, steps: seq<Step>, id: nat, e: Event)
    requires Inv(db) && Answered(db, id, e) && OnlyRedelivers(db, steps, e)
    ensures Run(db, steps).payments == db.payments && Run(db, steps).invoices == db.invoices
    decreases |steps|
  {
    if steps != [] {
      var step := steps[0];
      var db1 := Apply(db, step);
      StepKeepsInv(db, step);
      StepEvolves(db, step);
      AnsweredIsStable(db, db1, id, e);
      if step.WebhookCommit? && step.op in db.ops {
        SecondDeliveryIsNoOp(db, step.op, id, e);
      }
      RedeliveriesKeepRows(db1, steps[1..], id, e);
    }
  }
}
