/**
 * The monthly tuition close: one invoice per student and period over all of the
 * student's billed classes, numbered in sequence. The invoice table refuses a second
 * TUITION invoice for a student and period, a number already in use, a total beyond the
 * signed 32-bit column and a number longer than twenty characters.
 */
module Tuition {
  import opened Common
  import opened Options
  import opened SequentialCode

  const INVOICE_NO_WIDTH: nat := 20

  type StudentId = string
  type ClassId = string

  datatype Period = Period(month: int, year: nat)

  /** A line item as computed; amounts are whole numbers once they are stored. */
  datatype Item = Item(classId: ClassId, amount: real)

  /** A configured rate: the setting is free-form JSON, so it may be no number at all. */
  datatype Setting = Number(value: real) | NotNumber

  /** `tuition` is the period of a TUITION invoice and None for other types. */
  datatype Invoice = Invoice(
    no: string, student: StudentId, tuition: Option<Period>, subtotal: int, discount: int, total: int, items: seq<Item>)

  datatype Enrollment = Enrollment(
    student: StudentId, classId: ClassId, left: bool, enrolledAt: int, studentActive: bool)

  /** How far a close got. An abort keeps the invoices already committed. */
  datatype Outcome = Outcome(invoices: seq<Invoice>, created: nat, skippedExisting: nat, aborted: bool)

  function Numbers(invs: seq<Invoice>): (r: seq<string>)
    ensures |r| == |invs| && forall i | 0 <= i < |invs| :: r[i] == invs[i].no
  {
    seq(|invs|, i requires 0 <= i < |invs| => invs[i].no)
  }

  function Prefix(year: nat): string {
    "INV-" + ToDecimal(year) + "-"
  }

  predicate Billed(invs: seq<Invoice>, s: StudentId, q: Period) {
    exists i | 0 <= i < |invs| :: invs[i].student == s && invs[i].tuition == Some(q)
  }

  function Sum(items: seq<Item>): real {
    if items == [] then 0.0 else Sum(items[..|items| - 1]) + items[|items| - 1].amount
  }

  /** The line items of a student: one per billed enrollment, at the class rate. */
  function ItemsFor(classes: seq<ClassId>, rates: map<ClassId, real>): (r: seq<Item>)
    ensures |r| == |classes|
    ensures forall i | 0 <= i < |classes| ::
              r[i] == Item(classes[i], if classes[i] in rates then rates[classes[i]] else 0.0)
  {
    seq(|classes|, i requires 0 <= i < |classes| =>
      Item(classes[i], if classes[i] in rates then rates[classes[i]] else 0.0))
  }

  function NextNo(invs: seq<Invoice>, year: nat): string {
    NextCode(Prefix(year), Numbers(invs), 4)
  }

  function NewInvoice(invs: seq<Invoice>, s: StudentId, items: seq<Item>, q: Period): Invoice {
    Invoice(NextNo(invs, q.year), s, Some(q), Sum(items).Floor, 0, Sum(items).Floor, items)
  }

  /** The money columns take whole numbers up to the column's bound and refuse anything else. */
  predicate Fits(amount: real) {
    amount == amount.Floor as real && 0 <= amount.Floor <= MAX_MONEY_AMOUNT
  }

  /** A whole number from 0 to 2^31 - 1 fits, and nothing else does. */
  lemma FitsIff(amount: real)
    ensures Fits(amount) <==> 0.0 <= amount <= 2_147_483_647.0 && exists n: int :: amount == Whole(n)
  {
    if 0.0 <= amount <= 2_147_483_647.0 && exists n: int :: amount == Whole(n) {
      var n: int :| amount == Whole(n);
      assert amount.Floor == n;
    }
    if Fits(amount) {
      assert amount == Whole(amount.Floor);
    }
  }

  function Whole(n: int): real { n as real }

  predicate AllFit(items: seq<Item>) {
    forall i | 0 <= i < |items| :: Fits(items[i].amount)
  }

  /** Closing the period for a list of students, in order. */
  function Close(
      invs: seq<Invoice>, students: seq<StudentId>, bill: map<StudentId, seq<Item>>, q: Period): Outcome
    requires forall i | 0 <= i < |students| :: students[i] in bill
    decreases |students|
  {
    if students == [] then Outcome(invs, 0, 0, false)
    else
      var row := NewInvoice(invs, students[0], bill[students[0]], q);
      if !Fits(Sum(row.items)) || |row.no| > INVOICE_NO_WIDTH then Outcome(invs, 0, 0, true)
      else if row.no in Numbers(invs) || Billed(invs, students[0], q) then
        var rest := Close(invs, students[1..], bill, q);
        rest.(skippedExisting := rest.skippedExisting + 1)
      else if !AllFit(row.items) then Outcome(invs, 0, 0, true)
      else
        var rest := Close(invs + [row], students[1..], bill, q);
        rest.(created := rest.created + 1)
  }

  // ------------------------------------------------------- which students, which items

  predicate Qualifies(e: Enrollment, rates: map<ClassId, real>, monthEnd: int) {
    e.classId in rates && !e.left && e.enrolledAt < monthEnd && e.studentActive
  }

  /** The enrollment query. */
  function Select(es: seq<Enrollment>, rates: map<ClassId, real>, monthEnd: int): seq<Enrollment> {
    if es == [] then []
    else
      var e := es[|es| - 1];
      Select(es[..|es| - 1], rates, monthEnd) + if Qualifies(e, rates, monthEnd) then [e] else []
  }

  /** The classes of one student, in query order. */
  function ClassesOf(es: seq<Enrollment>, s: StudentId): seq<ClassId> {
    if es == [] then []
    else
      var e := es[|es| - 1];
      ClassesOf(es[..|es| - 1], s) + if e.student == s then [e.classId] else []
  }

  /** The students in the order in which they first appear. */
  function Students(es: seq<Enrollment>): (r: seq<StudentId>)
    ensures forall i, j | 0 <= i < j < |r| :: r[i] != r[j]
    ensures forall s :: s in r <==> exists i | 0 <= i < |es| :: es[i].student == s
  {
    if es == [] then []
    else
      var r := Students(es[..|es| - 1]);
      var s := es[|es| - 1].student;
      assert forall i | 0 <= i < |es| - 1 :: es[i] == es[..|es| - 1][i];
      if s in r then r else r + [s]
  }

  /** Classes are kept in query order, none left out. */
  lemma {:induction false} ClassesInOrder(a: seq<Enrollment>, b: seq<Enrollment>, s: StudentId)
    ensures ClassesOf(a + b, s) == ClassesOf(a, s) + ClassesOf(b, s)
    decreases |b|
  {
    if b == [] {
      assert a + b == a;
    } else {
      assert (a + b)[..|a + b| - 1] == a + b[..|b| - 1];
      ClassesInOrder(a, b[..|b| - 1], s);
    }
  }

  /** Students come in the order of their first enrollment. */
  lemma {:induction false} StudentsInOrder(a: seq<Enrollment>, b: seq<Enrollment>)
    ensures Students(a) <= Students(a + b)
    decreases |b|
  {
    if b == [] {
      assert a + b == a;
    } else {
      assert (a + b)[..|a + b| - 1] == a + b[..|b| - 1];
      StudentsInOrder(a, b[..|b| - 1]);
    }
  }

  predicate Usable(rate: Setting) {
    rate.Number? && rate.value > 0.0
  }

  /** The classes with a positive configured rate. */
  function RatedClasses(classIds: seq<ClassId>, rates: map<ClassId, Setting>): map<ClassId, real> {
    map c | c in classIds && c in rates && Usable(rates[c]) :: rates[c].value
  }

  function BillOf(es: seq<Enrollment>, rates: map<ClassId, real>): (bill: map<StudentId, seq<Item>>)
    ensures forall s | s in Students(es) :: s in bill && bill[s] == ItemsFor(ClassesOf(es, s), rates)
  {
    map s | s in Students(es) :: ItemsFor(ClassesOf(es, s), rates)
  }

  // -------------------------------------------------------------- the table's rules

  ghost predicate PeriodsUnique(invs: seq<Invoice>) {
    forall i, j | 0 <= i < j < |invs| ::
      invs[i].tuition.Some? && invs[i].student == invs[j].student ==> invs[i].tuition != invs[j].tuition
  }

  ghost predicate NumbersUnique(invs: seq<Invoice>) {
    forall i, j | 0 <= i < j < |invs| :: invs[i].no != invs[j].no
  }

  ghost predicate NumbersFit(invs: seq<Invoice>) {
    forall i | 0 <= i < |invs| :: |invs[i].no| <= INVOICE_NO_WIDTH
  }

  ghost predicate TableOk(invs: seq<Invoice>) {
    PeriodsUnique(invs) && NumbersUnique(invs) && NumbersFit(invs)
  }

  lemma {:induction false} MaxSuffixBound(prefix: string, codes: seq<string>, bound: nat)
    requires forall i | 0 <= i < |codes| :: Suffix(prefix, codes[i]) <= bound
    ensures MaxSuffix(prefix, codes) <= bound
    decreases |codes|
  {
    if codes != [] {
      MaxSuffixBound(prefix, codes[..|codes| - 1], bound);
    }
  }

  lemma PrefixWidth(year: nat)
    requires 1000 <= year <= 9999
    ensures |Prefix(year)| == 9
  {
    assert |ToDecimal(year)| == 4 by {
      assert 100 <= year / 10 <= 999 && 10 <= year / 10 / 10 <= 99 && 1 <= year / 10 / 10 / 10 <= 9;
      assert |ToDecimal(year / 10 / 10 / 10)| == 1;
      assert |ToDecimal(year / 10 / 10)| == 2;
    }
  }

  /** In a four-digit year the column width alone keeps every suffix exact. */
  lemma SuffixesExact(invs: seq<Invoice>, year: nat)
    requires NumbersFit(invs) && 1000 <= year <= 9999
    ensures MaxSuffix(Prefix(year), Numbers(invs)) < MAX_EXACT
  {
    PrefixWidth(year);
    forall i | 0 <= i < |invs| ensures Suffix(Prefix(year), Numbers(invs)[i]) <= 99_999_999_999 {
      ShortSuffixIsExact(Prefix(year), Numbers(invs)[i]);
    }
    MaxSuffixBound(Prefix(year), Numbers(invs), 99_999_999_999);
  }

  lemma NumbersOfAppend(invs: seq<Invoice>, row: Invoice)
    ensures Numbers(invs + [row]) == Numbers(invs) + [row.no]
  {
  }

  /** The row is numbered one above the largest number in use and becomes the largest. */
  ghost predicate NextInLine(invs: seq<Invoice>, row: Invoice, year: nat) {
    var m := MaxSuffix(Prefix(year), Numbers(invs));
    row.no == CodeFor(Prefix(year), m + 1, 4) && MaxSuffix(Prefix(year), Numbers(invs + [row])) == m + 1
  }

  /** The number given to the next invoice is new, and one above the last. */
  lemma NextNoIsNew(invs: seq<Invoice>, s: StudentId, items: seq<Item>, q: Period)
    requires NumbersFit(invs) && 1000 <= q.year <= 9999
    ensures var row := NewInvoice(invs, s, items, q);
            row.no !in Numbers(invs) && NextInLine(invs, row, q.year)
  {
    SuffixesExact(invs, q.year);
    NextCodeIsFresh(Prefix(q.year), Numbers(invs), 4);
    NextCodeIsConsecutive(Prefix(q.year), Numbers(invs), 4);
    NumbersOfAppend(invs, NewInvoice(invs, s, items, q));
  }

  /** An invoice number names its year and has at least four characters after that. */
  lemma NextNoShape(invs: seq<Invoice>, year: nat)
    ensures var prefix := "INV-" + ToDecimal(year) + "-";
            prefix <= NextNo(invs, year) && |NextNo(invs, year)| >= |prefix| + 4
  {
    CodeShape(Prefix(year), ToDouble(MaxSuffix(Prefix(year), Numbers(invs)) + 1), 4);
  }

  /** The next number fits its column exactly below 10^11. */
  lemma NextNoFitsIff(invs: seq<Invoice>, year: nat)
    requires NumbersFit(invs) && 1000 <= year <= 9999
    ensures |NextNo(invs, year)| <= INVOICE_NO_WIDTH <==>
            MaxSuffix(Prefix(year), Numbers(invs)) + 1 < 100_000_000_000
  {
    SuffixesExact(invs, year);
    ExactDoubles(MaxSuffix(Prefix(year), Numbers(invs)) + 1);
    PrefixWidth(year);
    CodeFitsIff(Prefix(year), MaxSuffix(Prefix(year), Numbers(invs)) + 1);
  }

  // ------------------------------------------------------------------- the theorems

  /** A row the close added: for a listed student, over exactly the student's items. */
  ghost predicate RowFor(row: Invoice, students: seq<StudentId>, bill: map<StudentId, seq<Item>>, q: Period) {
    && row.student in students && row.student in bill
    && row.tuition == Some(q) && row.items == bill[row.student]
    && row.subtotal as real == row.total as real == Sum(bill[row.student]) && row.discount == 0
    && 0 <= row.total <= 2_147_483_647 && AllFit(row.items)
  }

  /** The rows added are for students not billed before. */
  ghost predicate RowsAdded(
      invs: seq<Invoice>, students: seq<StudentId>, bill: map<StudentId, seq<Item>>, q: Period, after: seq<Invoice>)
  {
    && invs <= after
    && forall i | |invs| <= i < |after| ::
         RowFor(after[i], students, bill, q) && !Billed(invs, after[i].student, q)
  }

  /** The rows carry the numbers `k`, `k` + 1 and so on. */
  ghost predicate Consecutive(rows: seq<Invoice>, prefix: string, k: nat)
    decreases |rows|
  {
    rows == [] || (rows[0].no == CodeFor(prefix, k, 4) && Consecutive(rows[1..], prefix, k + 1))
  }

  /** The rows added are numbered consecutively from the largest number in use. */
  ghost predicate Numbered(invs: seq<Invoice>, year: nat, after: seq<Invoice>) {
    |invs| <= |after| &&
    Consecutive(after[|invs|..], Prefix(year), MaxSuffix(Prefix(year), Numbers(invs)) + 1)
  }

  ghost predicate AllBilled(after: seq<Invoice>, students: seq<StudentId>, q: Period) {
    forall i | 0 <= i < |students| :: Billed(after, students[i], q)
  }

  /** What a close that ran to the end guarantees. */
  ghost predicate Complete(
      invs: seq<Invoice>, students: seq<StudentId>, bill: map<StudentId, seq<Item>>, q: Period, o: Outcome)
  {
    && o.created + o.skippedExisting == |students|
    && |o.invoices| == |invs| + o.created
    && RowsAdded(invs, students, bill, q, o.invoices)
    && Numbered(invs, q.year, o.invoices)
    && AllBilled(o.invoices, students, q)
  }

  lemma AppendKeepsTable(invs: seq<Invoice>, s: StudentId, items: seq<Item>, q: Period)
    requires TableOk(invs) && 1000 <= q.year <= 9999 && !Billed(invs, s, q)
    requires |NewInvoice(invs, s, items, q).no| <= INVOICE_NO_WIDTH
    ensures TableOk(invs + [NewInvoice(invs, s, items, q)])
  {
    NextNoIsNew(invs, s, items, q);
    var row := NewInvoice(invs, s, items, q);
    var all := invs + [row];
    forall i, j | 0 <= i < j < |all| ensures all[i].no != all[j].no {
      if j == |invs| {
        assert Numbers(invs)[i] == all[i].no;
      }
    }
  }

  /** Every run of the close, finished or aborted, keeps the table's rules. */
  lemma {:induction false} CloseKeepsTable(
      invs: seq<Invoice>, students: seq<StudentId>, bill: map<StudentId, seq<Item>>, q: Period)
    requires forall i | 0 <= i < |students| :: students[i] in bill
    requires TableOk(invs) && 1000 <= q.year <= 9999
    ensures var o := Close(invs, students, bill, q); TableOk(o.invoices) && invs <= o.invoices
    decreases |students|
  {
    if students != [] {
      var s := students[0];
      var row := NewInvoice(invs, s, bill[s], q);
      if !Fits(Sum(row.items)) || |row.no| > INVOICE_NO_WIDTH {
      } else if row.no in Numbers(invs) || Billed(invs, s, q) {
        CloseKeepsTable(invs, students[1..], bill, q);
      } else if AllFit(row.items) {
        AppendKeepsTable(invs, s, bill[s], q);
        CloseKeepsTable(invs + [row], students[1..], bill, q);
      }
    }
  }

  lemma BilledStays(invs: seq<Invoice>, more: seq<Invoice>, s: StudentId, q: Period)
    requires Billed(invs, s, q) && invs <= more
    ensures Billed(more, s, q)
  {
  }

  lemma RowsAddedExtends(
      invs: seq<Invoice>, students: seq<StudentId>, bill: map<StudentId, seq<Item>>, q: Period, after: seq<Invoice>)
    requires students != [] && students[0] in bill && !Billed(invs, students[0], q)
    requires Fits(Sum(bill[students[0]])) && AllFit(bill[students[0]])
    requires RowsAdded(invs + [NewInvoice(invs, students[0], bill[students[0]], q)], students[1..], bill, q, after)
    ensures RowsAdded(invs, students, bill, q, after)
  {
    var mid := invs + [NewInvoice(invs, students[0], bill[students[0]], q)];
    forall i | |invs| <= i < |after|
      ensures RowFor(after[i], students, bill, q) && !Billed(invs, after[i].student, q)
    {
      if i == |invs| {
        assert after[i] == mid[i];
      } else {
        assert RowFor(after[i], students[1..], bill, q);
        if Billed(invs, after[i].student, q) {
          BilledStays(invs, mid, after[i].student, q);
        }
      }
    }
  }

  lemma NumberedExtends(invs: seq<Invoice>, row: Invoice, year: nat, after: seq<Invoice>)
    requires NextInLine(invs, row, year)
    requires invs + [row] <= after && Numbered(invs + [row], year, after)
    ensures Numbered(invs, year, after)
  {
    assert after[|invs|..][0] == row;
    assert after[|invs|..][1..] == after[|invs + [row]|..];
  }

  lemma AllBilledExtends(after: seq<Invoice>, students: seq<StudentId>, q: Period)
    requires students != [] && Billed(after, students[0], q) && AllBilled(after, students[1..], q)
    ensures AllBilled(after, students, q)
  {
  }

  lemma RowsAddedWiden(
      invs: seq<Invoice>, students: seq<StudentId>, bill: map<StudentId, seq<Item>>, q: Period, after: seq<Invoice>)
    requires students != [] && RowsAdded(invs, students[1..], bill, q, after)
    ensures RowsAdded(invs, students, bill, q, after)
  {
  }

  /** Finished or aborted, every row a close added is for a listed student not billed before. */
  lemma {:induction false} CloseAddsOwnRows(
      invs: seq<Invoice>, students: seq<StudentId>, bill: map<StudentId, seq<Item>>, q: Period)
    requires forall i | 0 <= i < |students| :: students[i] in bill
    ensures RowsAdded(invs, students, bill, q, Close(invs, students, bill, q).invoices)
    decreases |students|
  {
    if students != [] {
      var s := students[0];
      var row := NewInvoice(invs, s, bill[s], q);
      var after := Close(invs, students, bill, q).invoices;
      if !Fits(Sum(row.items)) || |row.no| > INVOICE_NO_WIDTH {
      } else if row.no in Numbers(invs) || Billed(invs, s, q) {
        CloseAddsOwnRows(invs, students[1..], bill, q);
        RowsAddedWiden(invs, students, bill, q, after);
      } else if AllFit(row.items) {
        CloseAddsOwnRows(invs + [row], students[1..], bill, q);
        RowsAddedExtends(invs, students, bill, q, after);
      }
    }
  }

  /** A close that is not aborted bills every listed student exactly once and counts correctly. */
  lemma {:induction false} CloseCompletes(
      invs: seq<Invoice>, students: seq<StudentId>, bill: map<StudentId, seq<Item>>, q: Period)
    requires forall i | 0 <= i < |students| :: students[i] in bill
    requires TableOk(invs) && 1000 <= q.year <= 9999
    requires !Close(invs, students, bill, q).aborted
    ensures Complete(invs, students, bill, q, Close(invs, students, bill, q))
    decreases |students|
  {
    if students != [] {
      var s := students[0];
      var row := NewInvoice(invs, s, bill[s], q);
      var after := Close(invs, students, bill, q).invoices;
      NextNoIsNew(invs, s, bill[s], q);
      if Billed(invs, s, q) {
        CloseCompletes(invs, students[1..], bill, q);
        BilledStays(invs, after, s, q);
        RowsAddedWiden(invs, students, bill, q, after);
      } else {
        AppendKeepsTable(invs, s, bill[s], q);
        CloseCompletes(invs + [row], students[1..], bill, q);
        RowsAddedExtends(invs, students, bill, q, after);
        NumberedExtends(invs, row, q.year, after);
        assert after[|invs|] == row;
      }
      AllBilledExtends(after, students, q);
    }
  }

  /** How many of the students have no invoice for the period yet. */
  function Unbilled(invs: seq<Invoice>, students: seq<StudentId>, q: Period): nat {
    if students == [] then 0
    else Unbilled(invs, students[1..], q) + if Billed(invs, students[0], q) then 0 else 1
  }

  ghost predicate Distinct(students: seq<StudentId>) {
    forall i, j | 0 <= i < j < |students| :: students[i] != students[j]
  }

  lemma {:induction false} UnbilledOthers(invs: seq<Invoice>, row: Invoice, students: seq<StudentId>, q: Period)
    requires row.student !in students
    ensures Unbilled(invs + [row], students, q) == Unbilled(invs, students, q)
    decreases |students|
  {
    if students != [] {
      UnbilledOthers(invs, row, students[1..], q);
      var s := students[0];
      var all := invs + [row];
      if Billed(invs, s, q) {
        BilledStays(invs, all, s, q);
      }
    }
  }

  /**
   * Student `i` stops the close: the total or the number in turn does not fit its column, or an
   * item of a new invoice does not.
   */
  ghost predicate Misfit(
      invs: seq<Invoice>, students: seq<StudentId>, bill: map<StudentId, seq<Item>>, q: Period, i: nat)
    requires i < |students| && students[i] in bill
  {
    || !Fits(Sum(bill[students[i]]))
    || (!Billed(invs, students[i], q) && !AllFit(bill[students[i]]))
    || MaxSuffix(Prefix(q.year), Numbers(invs)) + Unbilled(invs, students[..i], q) + 1 >= 100_000_000_000
  }

  /** The table after a student who fits: one more row, unless the student was billed before. */
  ghost predicate Advances(invs: seq<Invoice>, s: StudentId, row: Invoice, q: Period, next: seq<Invoice>) {
    if Billed(invs, s, q) then next == invs
    else
      && next == invs + [row] && row.student == s
      && MaxSuffix(Prefix(q.year), Numbers(next)) == MaxSuffix(Prefix(q.year), Numbers(invs)) + 1
  }

  /** Moving past a student who fits shifts the misfits of the others by one. */
  lemma MisfitShifts(
      invs: seq<Invoice>, row: Invoice, next: seq<Invoice>,
      students: seq<StudentId>, bill: map<StudentId, seq<Item>>, q: Period, i: nat)
    requires Distinct(students) && i + 1 < |students| && students[i + 1] in bill
    requires Advances(invs, students[0], row, q, next)
    ensures Misfit(next, students[1..], bill, q, i) <==> Misfit(invs, students, bill, q, i + 1)
  {
    assert students[..i + 1][1..] == students[1..][..i];
    if !Billed(invs, students[0], q) {
      UnbilledOthers(invs, row, students[1..][..i], q);
      UnbilledOthers(invs, row, [students[i + 1]], q);
    }
  }

  /** A close aborts exactly when some student's total or number would not fit. */
  lemma {:induction false} CloseAbortsIff(
      invs: seq<Invoice>, students: seq<StudentId>, bill: map<StudentId, seq<Item>>, q: Period)
    requires forall i | 0 <= i < |students| :: students[i] in bill
    requires TableOk(invs) && 1000 <= q.year <= 9999 && Distinct(students)
    ensures Close(invs, students, bill, q).aborted <==>
            exists i: nat | i < |students| :: Misfit(invs, students, bill, q, i)
    decreases |students|
  {
    if students != [] {
      var s := students[0];
      var row := NewInvoice(invs, s, bill[s], q);
      NextNoFitsIff(invs, q.year);
      NextNoIsNew(invs, s, bill[s], q);
      assert students[..0] == [];
      if !Misfit(invs, students, bill, q, 0) {
        CloseAbortsLater(invs, students, bill, q);
      }
    }
  }

  /** The case in which the first student fits. */
  lemma {:induction false} CloseAbortsLater(
      invs: seq<Invoice>, students: seq<StudentId>, bill: map<StudentId, seq<Item>>, q: Period)
    requires forall i | 0 <= i < |students| :: students[i] in bill
    requires TableOk(invs) && 1000 <= q.year <= 9999 && Distinct(students)
    requires students != [] && !Misfit(invs, students, bill, q, 0)
    requires |NewInvoice(invs, students[0], bill[students[0]], q).no| <= INVOICE_NO_WIDTH
    ensures Close(invs, students, bill, q).aborted <==>
            exists i: nat | i < |students| :: Misfit(invs, students, bill, q, i)
    decreases |students|, 0
  {
    var s := students[0];
    var row := NewInvoice(invs, s, bill[s], q);
    var next := if Billed(invs, s, q) then invs else invs + [row];
    NextNoIsNew(invs, s, bill[s], q);
    if !Billed(invs, s, q) {
      AppendKeepsTable(invs, s, bill[s], q);
    }
    CloseAbortsIff(next, students[1..], bill, q);
    forall i: nat | i < |students| - 1
      ensures Misfit(next, students[1..], bill, q, i) <==> Misfit(invs, students, bill, q, i + 1)
    {
      MisfitShifts(invs, row, next, students, bill, q, i);
    }
    if i: nat :| i < |students| && Misfit(invs, students, bill, q, i) {
      assert Misfit(next, students[1..], bill, q, i - 1);
    }
  }

  /** Students already billed add no row, and are all counted unless some total or the number misfits. */
  lemma {:induction false} CloseSkipsBilled(
      invs: seq<Invoice>, students: seq<StudentId>, bill: map<StudentId, seq<Item>>, q: Period)
    requires forall i | 0 <= i < |students| :: students[i] in bill && Billed(invs, students[i], q)
    ensures var o := Close(invs, students, bill, q);
            && o.invoices == invs && o.created == 0
            && (!o.aborted ==> o.skippedExisting == |students|)
            && ((forall i | 0 <= i < |students| :: Fits(Sum(bill[students[i]]))) ==>
                (o.aborted <==> students != [] && |NextNo(invs, q.year)| > INVOICE_NO_WIDTH))
    decreases |students|
  {
    if students != [] {
      forall i | 0 <= i < |students[1..]| ensures students[1..][i] in bill && Billed(invs, students[1..][i], q) {
        assert students[1..][i] == students[i + 1];
      }
      CloseSkipsBilled(invs, students[1..], bill, q);
    }
  }

  /**
   * Running a finished close again never changes the table, and reports every student as
   * existing unless the last number in use is the last one that fits.
   */
  lemma RerunChangesNothing(
      invs: seq<Invoice>, students: seq<StudentId>, bill: map<StudentId, seq<Item>>, q: Period)
    requires forall i | 0 <= i < |students| :: students[i] in bill
    requires TableOk(invs) && 1000 <= q.year <= 9999 && Distinct(students)
    requires !Close(invs, students, bill, q).aborted
    ensures var o := Close(invs, students, bill, q);
            var again := Close(o.invoices, students, bill, q);
            && again.invoices == o.invoices && again.created == 0
            && (again == Outcome(o.invoices, 0, |students|, false) <==>
                students == [] || |NextNo(o.invoices, q.year)| <= INVOICE_NO_WIDTH)
  {
    CloseCompletes(invs, students, bill, q);
    CloseAbortsIff(invs, students, bill, q);
    forall i | 0 <= i < |students| ensures Fits(Sum(bill[students[i]])) {
      assert !Misfit(invs, students, bill, q, i);
    }
    CloseSkipsBilled(Close(invs, students, bill, q).invoices, students, bill, q);
  }

  /** What one student owes: the rates of the student's enrollments. */
  function RateSum(es: seq<Enrollment>, rates: map<ClassId, real>, s: StudentId): real {
    if es == [] then 0.0
    else
      var e := es[|es| - 1];
      RateSum(es[..|es| - 1], rates, s) + if e.student == s && e.classId in rates then rates[e.classId] else 0.0
  }

  /** The items of a student add up to the rates of the student's enrollments. */
  lemma {:induction false} ItemsAddUp(es: seq<Enrollment>, rates: map<ClassId, real>, s: StudentId)
    ensures Sum(ItemsFor(ClassesOf(es, s), rates)) == RateSum(es, rates, s)
    decreases |es|
  {
    if es != [] {
      var init, e := es[..|es| - 1], es[|es| - 1];
      ItemsAddUp(init, rates, s);
      if e.student == s {
        var items := ItemsFor(ClassesOf(es, s), rates);
        assert items[..|items| - 1] == ItemsFor(ClassesOf(init, s), rates);
      } else {
        assert ClassesOf(es, s) == ClassesOf(init, s);
      }
    }
  }

  /** The query keeps exactly the qualifying enrollments. */
  lemma {:induction false} SelectExact(es: seq<Enrollment>, rates: map<ClassId, real>, monthEnd: int, e: Enrollment)
    ensures e in Select(es, rates, monthEnd) <==>
            e in es && e.classId in rates && !e.left && e.enrolledAt < monthEnd && e.studentActive
    decreases |es|
  {
    if es != [] {
      SelectExact(es[..|es| - 1], rates, monthEnd, e);
      assert es == es[..|es| - 1] + [es[|es| - 1]];
    }
  }

  /** A student is billable exactly when some enrollment of the student qualifies. */
  lemma BillableExactly(es: seq<Enrollment>, rates: map<ClassId, real>, monthEnd: int, s: StudentId)
    ensures s in Students(Select(es, rates, monthEnd)) <==>
            exists e | e in es ::
              e.student == s && e.classId in rates && !e.left && e.enrolledAt < monthEnd && e.studentActive
  {
    var sel := Select(es, rates, monthEnd);
    if s in Students(sel) {
      var i :| 0 <= i < |sel| && sel[i].student == s;
      SelectExact(es, rates, monthEnd, sel[i]);
    }
    if e :| e in es && e.student == s && Qualifies(e, rates, monthEnd) {
      SelectExact(es, rates, monthEnd, e);
      var i :| 0 <= i < |sel| && sel[i] == e;
      assert sel[i].student == s;
    }
  }
}
