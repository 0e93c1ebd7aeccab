/**
 * The arithmetic of a manual invoice: a guarded fold over the line items, a manual
 * discount, and the discount a code grants at that instant. Amounts are whole VND in a
 * signed 32-bit column.
 */
module InvoiceTotals {
  import opened Common
  import opened Options

  const MAX_SAFE_INTEGER: int := 9_007_199_254_740_991

  datatype LineItem = LineItem(quantity: int, unitAmount: int) {
    function Amount(): int { quantity * unitAmount }
  }

  /** Exactly one of the two is set when a code is created. */
  datatype DiscountCode = DiscountCode(
    percentOff: Option<int>, amountOff: Option<int>, validFrom: int, validUntil: int, isActive: bool)

  datatype Totals = Totals(subtotal: int, discount: int, total: int)

  datatype Result = Issued(totals: Totals) | AmountOutOfRange | CodeNotValid | DiscountTooLarge

  /** The limits the request body is validated against. */
  predicate WithinLimits(items: seq<LineItem>) {
    && 1 <= |items| <= 50
    && forall i | 0 <= i < |items| :: 1 <= items[i].quantity <= 1000 && 0 <= items[i].unitAmount <= 1_000_000_000
  }

  predicate CodeWithinLimits(c: DiscountCode) {
    && (c.percentOff.Some? ==> 1 <= c.percentOff.value <= 100)
    && (c.amountOff.Some? ==> 1000 <= c.amountOff.value <= 1_000_000_000)
  }

  /** The mathematical sum of the line amounts. */
  function LineSum(items: seq<LineItem>): int {
    if items == [] then 0 else LineSum(items[..|items| - 1]) + items[|items| - 1].Amount()
  }

  /** assertMoneyAmount: the amount itself, or a refusal. */
  function Money(amount: int): Option<int> {
    if -MAX_SAFE_INTEGER <= amount <= MAX_SAFE_INTEGER && 0 <= amount && amount <= MAX_MONEY_AMOUNT
    then Some(amount) else None
  }

  lemma {:induction false} LineSumGrows(items: seq<LineItem>, i: nat)
    requires i <= |items|
    requires forall j | 0 <= j < |items| :: 0 <= items[j].quantity && 0 <= items[j].unitAmount
    ensures 0 <= LineSum(items[..i]) <= LineSum(items)
    decreases |items| - i, i
  {
    if i < |items| {
      LineSumGrows(items, i + 1);
      assert items[..i + 1][..i] == items[..i];
      LineSumNonNegative(items[..i]);
    } else {
      assert items[..i] == items;
      LineSumNonNegative(items);
    }
  }

  lemma {:induction false} LineSumNonNegative(items: seq<LineItem>)
    requires forall j | 0 <= j < |items| :: 0 <= items[j].quantity && 0 <= items[j].unitAmount
    ensures 0 <= LineSum(items)
    decreases |items|
  {
    if items != [] {
      LineSumNonNegative(items[..|items| - 1]);
    }
  }

  /** The guarded fold succeeds exactly when the mathematical sum fits, and then equals it. */
  method Subtotal(items: seq<LineItem>) returns (sum: Option<int>)
    requires WithinLimits(items)
    ensures sum == if LineSum(items) <= MAX_MONEY_AMOUNT then Some(LineSum(items)) else None
  {
    var acc := 0;
    for i := 0 to |items|
      invariant acc == LineSum(items[..i]) && 0 <= acc <= MAX_MONEY_AMOUNT
    {
      LineSumGrows(items, i);
      LineSumGrows(items, i + 1);
      assert items[..i + 1][..i] == items[..i];
      var line := Money(items[i].quantity * items[i].unitAmount);
      if line.None? {
        return None;
      }
      var next := Money(acc + line.value);
      if next.None? {
        return None;
      }
      acc := next.value;
    }
    assert items[..|items|] == items;
    return Some(acc);
  }

  /** The extra discount of a usable code. */
  function Grant(c: DiscountCode, subtotal: int): int
    requires 0 <= subtotal
  {
    if c.percentOff.Some? then subtotal * c.percentOff.value / 100
    else if c.amountOff.Some? then c.amountOff.value else 0
  }

  /** A percent code alone grants its percentage, rounded down, and never more than the subtotal. */
  lemma PercentWithinSubtotal(c: DiscountCode, subtotal: int)
    requires 0 <= subtotal && CodeWithinLimits(c) && c.percentOff.Some?
    ensures 0 <= Grant(c, subtotal) <= subtotal
    ensures 100 * Grant(c, subtotal) <= subtotal * c.percentOff.value < 100 * (Grant(c, subtotal) + 1)
  {
  }

  /**
   * The discount is the manual one and what the code takes off: its percentage of the subtotal
   * rounded down to whole VND, or else its fixed amount.
   */
  ghost predicate Discounts(discount: int, manual: int, code: Option<DiscountCode>, subtotal: int) {
    var extra := discount - manual;
    match code
    case None => extra == 0
    case Some(DiscountCode(Some(percent), _, _, _, _)) =>
      100 * extra <= subtotal * percent < 100 * (extra + 1)
    case Some(DiscountCode(None, amount, _, _, _)) => extra == if amount.Some? then amount.value else 0
  }

  /** The code that counts: the row found, if the request carries a code at all. */
  function Applied(given: bool, code: Option<DiscountCode>): Option<DiscountCode> {
    if given then code else None
  }

  /** A code and a manual discount determine the discount. */
  lemma DiscountIsDetermined(d: int, d': int, manual: int, code: Option<DiscountCode>, subtotal: int)
    requires Discounts(d, manual, code, subtotal) && Discounts(d', manual, code, subtotal)
    ensures d == d'
  {
  }

  /**
   * Totals of a new invoice. `given` says that the request carries a code, `code` is the
   * row found for it. The sum is checked first, then the code, then that the discount fits the
   * column and does not exceed the subtotal; an invoice that passes takes off exactly the
   * discount, and its amounts balance.
   */
  method ComputeTotals(items: seq<LineItem>, manual: int, given: bool, code: Option<DiscountCode>, now: int)
    returns (r: Result)
    requires WithinLimits(items) && 0 <= manual <= 1_000_000_000
    requires code.Some? ==> CodeWithinLimits(code.value)
    ensures LineSum(items) > 2_147_483_647 ==> r == AmountOutOfRange
    ensures LineSum(items) <= 2_147_483_647 ==>
              (r == CodeNotValid <==>
               given && (code.None? || !code.value.isActive ||
                         now < code.value.validFrom || code.value.validUntil < now))
    ensures r.Issued? ==>
              && r.totals.subtotal == LineSum(items)
              && r.totals.total + r.totals.discount == r.totals.subtotal
              && 0 <= r.totals.total <= 2_147_483_647
              && Discounts(r.totals.discount, manual, Applied(given, code), r.totals.subtotal)
    ensures LineSum(items) <= 2_147_483_647 && r != CodeNotValid ==>
              exists d :: Discounts(d, manual, Applied(given, code), LineSum(items)) &&
                          r == if d > 2_147_483_647 then AmountOutOfRange
                               else if d > LineSum(items) then DiscountTooLarge
                               else Issued(Totals(LineSum(items), d, LineSum(items) - d))
  {
    LineSumNonNegative(items);
    var sum := Subtotal(items);
    if sum.None? {
      return AmountOutOfRange;
    }
    var subtotal := sum.value;
    var discount := manual;
    if given {
      if code.None? || !code.value.isActive || code.value.validFrom > now || code.value.validUntil < now {
        return CodeNotValid;
      }
      if code.value.percentOff.Some? {
        PercentWithinSubtotal(code.value, subtotal);
      }
      var total := Money(discount + Grant(code.value, subtotal));
      if total.None? {
        assert Discounts(discount + Grant(code.value, subtotal), manual, Applied(given, code), subtotal);
        return AmountOutOfRange;
      }
      discount := total.value;
    }
    assert Discounts(discount, manual, Applied(given, code), subtotal);
    if discount > subtotal {
      return DiscountTooLarge;
    }
    return Issued(Totals(subtotal, discount, subtotal - discount));
  }
}
