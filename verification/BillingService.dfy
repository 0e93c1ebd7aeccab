/** The monthly close over the mutable invoice table, with the service's three loops. */
module BillingService {
  import opened Common
  import opened Options
  import opened SequentialCode
  import opened Tuition

  /** `classesSkipped` lists requested classes without a usable rate, in request order. */
  datatype Report = Report(created: nat, skippedExisting: nat, classesSkipped: seq<ClassId>, aborted: bool)

  function Unrated(classIds: seq<ClassId>, rates: map<ClassId, Setting>): seq<ClassId> {
    if classIds == [] then []
    else
      var c := classIds[|classIds| - 1];
      Unrated(classIds[..|classIds| - 1], rates) + if c in rates && Usable(rates[c]) then [] else [c]
  }

  /** Everything the close depends on besides the table. */
  datatype Request = Request(
    classIds: seq<ClassId>, rates: map<ClassId, Setting>, enrollments: seq<Enrollment>, monthEnd: int, period: Period)
  {
    function Rated(): map<ClassId, real> { RatedClasses(classIds, rates) }

    function Selected(): seq<Enrollment> { Select(enrollments, Rated(), monthEnd) }

    function Billable(): seq<StudentId> { Students(Selected()) }

    function Bill(): map<StudentId, seq<Item>> { BillOf(Selected(), Rated()) }
  }

  /** The grouping loop's map and key order, after a prefix of the enrollments. */
  ghost predicate Grouped(es: seq<Enrollment>, order: seq<StudentId>, byStudent: map<StudentId, seq<ClassId>>) {
    && order == Students(es)
    && (forall s :: s in byStudent <==> s in order)
    && forall s | s in byStudent :: byStudent[s] == ClassesOf(es, s)
  }

  lemma ClassesOfAbsent(es: seq<Enrollment>, s: StudentId)
    requires forall i | 0 <= i < |es| :: es[i].student != s
    ensures ClassesOf(es, s) == []
    decreases |es|
  {
  }

  /** One more enrollment. */
  lemma GroupOneMore(es: seq<Enrollment>, e: Enrollment, order: seq<StudentId>, byStudent: map<StudentId, seq<ClassId>>)
    requires Grouped(es, order, byStudent)
    ensures var list := if e.student in byStudent then byStudent[e.student] else [];
            Grouped(es + [e], if e.student in byStudent then order else order + [e.student],
                    byStudent[e.student := list + [e.classId]])
  {
    assert (es + [e])[..|es|] == es;
    if e.student !in byStudent {
      ClassesOfAbsent(es, e.student);
    }
  }

  method GroupByStudent(es: seq<Enrollment>) returns (order: seq<StudentId>, byStudent: map<StudentId, seq<ClassId>>)
    ensures Grouped(es, order, byStudent)
  {
    order, byStudent := [], map[];
    for i := 0 to |es|
      invariant Grouped(es[..i], order, byStudent)
    {
      var e := es[i];
      assert es[..i + 1] == es[..i] + [e];
      GroupOneMore(es[..i], e, order, byStudent);
      var list := if e.student in byStudent then byStudent[e.student] else [];
      if e.student !in byStudent {
        order := order + [e.student];
      }
      byStudent := byStudent[e.student := list + [e.classId]];
    }
    assert es[..|es|] == es;
  }

  method CollectRates(classIds: seq<ClassId>, rates: map<ClassId, Setting>)
    returns (rateByClass: map<ClassId, real>, skipped: seq<ClassId>)
    ensures rateByClass == RatedClasses(classIds, rates)
    ensures skipped == Unrated(classIds, rates)
    ensures forall c :: c in rateByClass <==>
                        c in classIds && c in rates && rates[c].Number? && rates[c].value > 0.0
    ensures forall c | c in rateByClass :: rateByClass[c] == rates[c].value
    ensures forall c :: c in skipped <==>
                        c in classIds && !(c in rates && rates[c].Number? && rates[c].value > 0.0)
  {
    rateByClass, skipped := map[], [];
    for i := 0 to |classIds|
      invariant rateByClass == RatedClasses(classIds[..i], rates)
      invariant skipped == Unrated(classIds[..i], rates)
    {
      var c := classIds[i];
      assert classIds[..i + 1] == classIds[..i] + [c];
      if c !in rates || !rates[c].Number? || rates[c].value <= 0.0 {
        skipped := skipped + [c];
        continue;
      }
      rateByClass := rateByClass[c := rates[c].value];
    }
    assert classIds[..|classIds|] == classIds;
    forall c ensures c in skipped <==> c in classIds && !(c in rates && rates[c].Number? && rates[c].value > 0.0) {
      UnratedIff(classIds, rates, c);
    }
  }

  lemma {:induction false} UnratedIff(classIds: seq<ClassId>, rates: map<ClassId, Setting>, c: ClassId)
    ensures c in Unrated(classIds, rates) <==>
            c in classIds && !(c in rates && rates[c].Number? && rates[c].value > 0.0)
    decreases |classIds|
  {
    if classIds != [] {
      UnratedIff(classIds[..|classIds| - 1], rates, c);
    }
  }

  lemma {:induction false} UnratedInOrder(a: seq<ClassId>, b: seq<ClassId>, rates: map<ClassId, Setting>)
    ensures Unrated(a + b, rates) == Unrated(a, rates) + Unrated(b, rates)
    decreases |b|
  {
    if b == [] {
      assert a + b == a;
    } else {
      assert (a + b)[..|a + b| - 1] == a + b[..|b| - 1];
      UnratedInOrder(a, b[..|b| - 1], rates);
    }
  }

  /** The enrollment is billed: active, begun before the month's end, in a requested class with a positive rate. */
  predicate Counts(e: Enrollment, classIds: seq<ClassId>, rates: map<ClassId, Setting>, monthEnd: int) {
    && !e.left && e.studentActive && e.enrolledAt < monthEnd
    && e.classId in classIds && e.classId in rates && rates[e.classId].Number? && rates[e.classId].value > 0.0
  }

  /** What a student owes for the month: the rates of the billed enrollments. */
  function Owed(
      es: seq<Enrollment>, classIds: seq<ClassId>, rates: map<ClassId, Setting>, monthEnd: int, s: StudentId): real
  {
    if es == [] then 0.0
    else
      var e := es[|es| - 1];
      Owed(es[..|es| - 1], classIds, rates, monthEnd, s) +
      if e.student == s && Counts(e, classIds, rates, monthEnd) then rates[e.classId].value else 0.0
  }

  lemma {:induction false} SelectedRatesAreOwed(
      es: seq<Enrollment>, classIds: seq<ClassId>, rates: map<ClassId, Setting>, monthEnd: int, s: StudentId)
    ensures var rated := RatedClasses(classIds, rates);
            RateSum(Select(es, rated, monthEnd), rated, s) == Owed(es, classIds, rates, monthEnd, s)
    decreases |es|
  {
    if es != [] {
      var rated := RatedClasses(classIds, rates);
      var n := |es| - 1;
      SelectedRatesAreOwed(es[..n], classIds, rates, monthEnd, s);
      var kept := Select(es[..n], rated, monthEnd);
      assert (kept + [es[n]])[..|kept|] == kept && kept + [] == kept;
    }
  }

  /** The bill of a billable student adds up to what the student owes. */
  lemma BillIsOwed(req: Request, s: StudentId)
    requires s in req.Billable()
    ensures s in req.Bill() && Sum(req.Bill()[s]) == Owed(req.enrollments, req.classIds, req.rates, req.monthEnd, s)
  {
    ItemsAddUp(req.Selected(), req.Rated(), s);
    SelectedRatesAreOwed(req.enrollments, req.classIds, req.rates, req.monthEnd, s);
  }

  /** The billable students are those with a billed enrollment. */
  lemma BillableIff(req: Request, s: StudentId)
    ensures s in req.Billable() <==>
            exists e | e in req.enrollments :: e.student == s && Counts(e, req.classIds, req.rates, req.monthEnd)
  {
    BillableExactly(req.enrollments, req.Rated(), req.monthEnd, s);
  }

  /** Rows are only added, each for the period and over exactly what its student owes. */
  ghost predicate BillsOwed(req: Request, before: seq<Invoice>, after: seq<Invoice>) {
    && before <= after
    && forall i | |before| <= i < |after| ::
         && after[i].tuition == Some(req.period)
         && after[i].total as real ==
            Owed(req.enrollments, req.classIds, req.rates, req.monthEnd, after[i].student)
  }

  /** Every student with a billed enrollment has an invoice for the period. */
  ghost predicate BillsAll(req: Request, after: seq<Invoice>) {
    forall e | e in req.enrollments && Counts(e, req.classIds, req.rates, req.monthEnd) ::
      Billed(after, e.student, req.period)
  }

  /** Finished or aborted, a close bills what is owed; finished, it bills everyone who owes. */
  lemma CloseBillsOwed(req: Request, invs: seq<Invoice>)
    requires TableOk(invs) && 1000 <= req.period.year <= 9999
    ensures var o := Close(invs, req.Billable(), req.Bill(), req.period);
            BillsOwed(req, invs, o.invoices) && (!o.aborted ==> BillsAll(req, o.invoices))
  {
    var o := Close(invs, req.Billable(), req.Bill(), req.period);
    CloseAddsOwnRows(invs, req.Billable(), req.Bill(), req.period);
    forall i | |invs| <= i < |o.invoices|
      ensures o.invoices[i].tuition == Some(req.period)
      ensures o.invoices[i].total as real ==
              Owed(req.enrollments, req.classIds, req.rates, req.monthEnd, o.invoices[i].student)
    {
      assert RowFor(o.invoices[i], req.Billable(), req.Bill(), req.period);
      BillIsOwed(req, o.invoices[i].student);
    }
    if !o.aborted {
      CloseCompletes(invs, req.Billable(), req.Bill(), req.period);
      forall e | e in req.enrollments && Counts(e, req.classIds, req.rates, req.monthEnd)
        ensures Billed(o.invoices, e.student, req.period)
      {
        BillableIff(req, e.student);
      }
    }
  }

  lemma {:induction false} SumOfTotals(items: seq<Item>, i: nat)
    requires i < |items|
    ensures Sum(items[..i + 1]) == Sum(items[..i]) + items[i].amount
  {
    assert items[..i + 1][..i] == items[..i];
  }

  method AddUp(items: seq<Item>) returns (total: real)
    ensures total == Sum(items)
  {
    total := 0.0;
    for i := 0 to |items|
      invariant total == Sum(items[..i])
    {
      SumOfTotals(items, i);
      total := total + items[i].amount;
    }
    assert items[..|items|] == items;
  }

  class BillingService {
    var invoices: seq<Invoice>

    constructor (issued: seq<Invoice>)
      ensures invoices == issued
    {
      invoices := issued;
    }

    method NextInvoiceNo(year: nat) returns (no: string)
      ensures no == NextNo(invoices, year)
      ensures TableOk(invoices) && 1000 <= year <= 9999 ==> no !in Numbers(invoices)
      ensures var prefix := "INV-" + ToDecimal(year) + "-"; prefix <= no && |no| >= |prefix| + 4
    {
      if TableOk(invoices) && 1000 <= year <= 9999 {
        SuffixesExact(invoices, year);
      }
      no := NextSequentialCode(Prefix(year), Numbers(invoices), 4);
      NextNoShape(invoices, year);
    }

    /**
     * generateMonthly. A close that is not aborted leaves every billable student with
     * exactly one invoice for the period; see `Tuition.Complete` for the rest.
     */
    method GenerateMonthly(req: Request) returns (report: Report)
      requires TableOk(invoices) && 1000 <= req.period.year <= 9999
      modifies this
      ensures TableOk(invoices)
      ensures var o := Close(old(invoices), req.Billable(), req.Bill(), req.period);
              invoices == o.invoices &&
              report == Report(o.created, o.skippedExisting, Unrated(req.classIds, req.rates), o.aborted)
      ensures !report.aborted ==>
                Complete(old(invoices), req.Billable(), req.Bill(), req.period,
                         Outcome(invoices, report.created, report.skippedExisting, false))
      ensures BillsOwed(req, old(invoices), invoices) && (!report.aborted ==> BillsAll(req, invoices))
      ensures report.aborted <==>
              exists i: nat | i < |req.Billable()| :: Misfit(old(invoices), req.Billable(), req.Bill(), req.period, i)
    {
      var q := req.period;
      var rateByClass, classesSkipped := CollectRates(req.classIds, req.rates);
      var es := if |rateByClass| == 0 then [] else Select(req.enrollments, rateByClass, req.monthEnd);
      if |rateByClass| == 0 {
        NoRatesNoEnrollments(req.enrollments, rateByClass, req.monthEnd);
      }
      var order, byStudent := GroupByStudent(es);
      ghost var bill := req.Bill();
      CloseKeepsTable(invoices, order, bill, q);
      CloseAbortsIff(invoices, order, bill, q);
      CloseBillsOwed(req, invoices);
      if !Close(invoices, order, bill, q).aborted {
        CloseCompletes(invoices, order, bill, q);
      }
      var created, skippedExisting, aborted := IssueAll(order, byStudent, rateByClass, bill, q);
      report := Report(created, skippedExisting, classesSkipped, aborted);
    }

    /** The issuing loop: one transaction per student. */
    method IssueAll(
        order: seq<StudentId>, byStudent: map<StudentId, seq<ClassId>>, rateByClass: map<ClassId, real>,
        ghost bill: map<StudentId, seq<Item>>, q: Period)
      returns (created: nat, skippedExisting: nat, aborted: bool)
      requires forall j | 0 <= j < |order| ::
                 order[j] in byStudent && order[j] in bill &&
                 bill[order[j]] == ItemsFor(byStudent[order[j]], rateByClass)
      modifies this
      ensures Outcome(invoices, created, skippedExisting, aborted) == Close(old(invoices), order, bill, q)
    {
      created, skippedExisting, aborted := 0, 0, false;
      ghost var whole := Close(invoices, order, bill, q);
      for i := 0 to |order|
        invariant !aborted
        invariant var rest := Close(invoices, order[i..], bill, q);
                  whole == Outcome(rest.invoices, created + rest.created,
                                   skippedExisting + rest.skippedExisting, rest.aborted)
      {
        var s := order[i];
        assert order[i..][0] == s && order[i..][1..] == order[i + 1..];
        var items := ItemsFor(byStudent[s], rateByClass);
        var total := AddUp(items);
        var no := NextInvoiceNo(q.year);
        if !Fits(total) || |no| > INVOICE_NO_WIDTH {
          aborted := true;
          return;
        }
        if no in Numbers(invoices) || Billed(invoices, s, q) {
          skippedExisting := skippedExisting + 1;
          continue;
        }
        if !AllFit(items) {
          aborted := true;  // the items are refused, and the transaction takes the invoice back
          return;
        }
        invoices := invoices + [Invoice(no, s, Some(q), total.Floor, 0, total.Floor, items)];
        created := created + 1;
      }
      assert order[|order|..] == [];
    }
  }

  lemma {:induction false} NoRatesNoEnrollments(es: seq<Enrollment>, rates: map<ClassId, real>, monthEnd: int)
    requires |rates| == 0
    ensures Select(es, rates, monthEnd) == []
    decreases |es|
  {
    if es != [] {
      NoRatesNoEnrollments(es[..|es| - 1], rates, monthEnd);
    }
  }
}
