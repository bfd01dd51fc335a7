/** Valuation of the interest-only ("bullet") loan drawn against the budget.
    Amounts and rates are exact reals; the loan term is a whole number of
    years, so every power is a natural power. */
module Financing {

  /** `x` to the natural power `n`. */
  function Pow(x: real, n: nat): (r: real)
    ensures x > 0.0 ==> r > 0.0
    ensures x > 1.0 && n > 0 ==> r > 1.0
  {
    if n == 0 then 1.0
    else
      var rest := Pow(x, n - 1);
      assert x > 1.0 && rest >= 1.0 ==> x * rest > 1.0 by {
        if x > 1.0 && rest >= 1.0 {
          assert x * rest >= x * 1.0;
        }
      }
      x * rest
  }

  /** The discount rates the formula can evaluate: the monthly rate it divides
      by is not zero and one month's growth factor is positive. */
  predicate ValidDiscountRate(discountRate: real) {
    discountRate != 0.0 && discountRate > -12.0
  }

  /** The principal: budget times loan-to-value ratio. */
  function LoanAmount(budgetTotal: int, ltvRatio: real): real {
    budgetTotal as real * ltvRatio
  }

  /** Net financing value of a loan of `loanAmount`: the principal raised minus
      the present value, at the monthly discount rate, of the monthly interest
      (an ordinary annuity) and of the principal repaid at maturity. No loan,
      no value; and a loan repaid at once, after a term of zero years, is worth
      nothing either. */
  function NetFinancingValue(loanAmount: real, loanRateAnnual: real, loanPeriodYears: nat,
                             discountRate: real): (r: real)
    requires ValidDiscountRate(discountRate)
    ensures loanAmount <= 0.0 ==> r == 0.0
    ensures loanPeriodYears == 0 ==> r == 0.0
  {
    if loanAmount > 0.0 then
      var months := loanPeriodYears * 12;
      var monthlyRate := loanRateAnnual / 12.0;
      var monthlyDiscount := discountRate / 12.0;
      var monthlyPayment := loanAmount * monthlyRate;
      var growth := Pow(1.0 + monthlyDiscount, months);
      var pvPayments := (monthlyPayment * (1.0 - 1.0 / growth)) / monthlyDiscount;
      var pvPrincipal := loanAmount / growth;
      loanAmount - (pvPayments + pvPrincipal)
    else
      0.0
  }

  /** Reference definition of the interest stream's present value: the sum of
      `payment` discounted once per month at growth factor `q`, for months
      1 to `n`. */
  function DiscountedPayments(payment: real, q: real, n: nat): real
    requires q > 0.0
  {
    if n == 0 then 0.0
    else DiscountedPayments(payment, q, n - 1) + payment / Pow(q, n)
  }

  /** The ordinary-annuity present value of `p` per period at rate `m`, written
      with the growth factor `g` over the whole term: p * (1 - 1/g) / m. */
  function AnnuityValue(p: real, m: real, g: real): real
    requires m != 0.0 && g != 0.0
  {
    p * (1.0 - 1.0 / g) / m
  }

  /** Adding one more period to the closed form of the annuity, where `big` is
      the growth factor over the earlier periods. */
  lemma AnnuityStep(p: real, m: real, big: real)
    requires m != 0.0 && 1.0 + m > 0.0 && big > 0.0
    ensures AnnuityValue(p, m, big) + p / ((1.0 + m) * big) == AnnuityValue(p, m, (1.0 + m) * big)
  {
    var q := 1.0 + m;
    var u := 1.0 / (q * big);
    assert 1.0 / big == q * u by {
      Reciprocal(q, big);
    }
    assert (1.0 - u) - (1.0 - q * u) == m * u;
    DivDifference(p * (1.0 - u), p * (1.0 - q * u), m);
    assert p * (1.0 - u) - p * (1.0 - q * u) == p * (m * u);
    CancelFactor(p * u, m);
  }

  /** 1/b is q times 1/(q*b). */
  lemma Reciprocal(q: real, b: real)
    requires q > 0.0 && b > 0.0
    ensures 1.0 / b == q * (1.0 / (q * b))
  {
    var u := 1.0 / (q * b);
    assert u * (q * b) == 1.0;
    assert (q * u) * b == 1.0;
  }

  lemma DivDifference(a: real, b: real, m: real)
    requires m != 0.0
    ensures a / m - b / m == (a - b) / m
  {
  }

  lemma CancelFactor(x: real, m: real)
    requires m != 0.0
    ensures (x * m) / m == x
  {
  }

  /** The ordinary-annuity formula of the source equals the month-by-month
      discounted sum of the payments. */
  lemma {:induction false} AnnuityFormula(payment: real, m: real, n: nat)
    requires m != 0.0 && 1.0 + m > 0.0
    ensures DiscountedPayments(payment, 1.0 + m, n) == AnnuityValue(payment, m, Pow(1.0 + m, n))
  {
    if n > 0 {
      var big := Pow(1.0 + m, n - 1);
      AnnuityFormula(payment, m, n - 1);
      assert Pow(1.0 + m, n) == (1.0 + m) * big;
      AnnuityStep(payment, m, big);
    }
  }

  /** The net financing value is the principal minus the present value of the
      loan's actual cash flows: `12 * years` monthly interest payments and the
      principal at maturity. */
  lemma NetFinancingIsNetPresentValue(loanAmount: real, loanRateAnnual: real, loanPeriodYears: nat,
                                      discountRate: real)
    requires ValidDiscountRate(discountRate)
    ensures var q := 1.0 + discountRate / 12.0;
            var n := loanPeriodYears * 12;
            NetFinancingValue(loanAmount, loanRateAnnual, loanPeriodYears, discountRate)
            == if loanAmount > 0.0 then
                 loanAmount - (DiscountedPayments(loanAmount * (loanRateAnnual / 12.0), q, n)
                               + loanAmount / Pow(q, n))
               else 0.0
  {
    AnnuityFormula(loanAmount * (loanRateAnnual / 12.0), discountRate / 12.0, loanPeriodYears * 12);
  }

  /** Closed form: principal times the share of it not returned by the
      discounted repayment, times how much cheaper the loan rate is than the
      discount rate. */
  lemma NetFinancingClosedForm(loanAmount: real, loanRateAnnual: real, loanPeriodYears: nat,
                               discountRate: real)
    requires ValidDiscountRate(discountRate) && loanAmount > 0.0
    ensures var g := Pow(1.0 + discountRate / 12.0, loanPeriodYears * 12);
            NetFinancingValue(loanAmount, loanRateAnnual, loanPeriodYears, discountRate)
            == loanAmount * (1.0 - 1.0 / g) * (1.0 - loanRateAnnual / discountRate)
  {
    var g := Pow(1.0 + discountRate / 12.0, loanPeriodYears * 12);
    assert (loanAmount * (loanRateAnnual / 12.0) * (1.0 - 1.0 / g)) / (discountRate / 12.0)
           == loanAmount * (loanRateAnnual / discountRate) * (1.0 - 1.0 / g) by {
      MonthlyRatesCancel(loanAmount, loanRateAnnual, discountRate, 1.0 - 1.0 / g);
    }
    assert loanAmount / g == loanAmount - loanAmount * (1.0 - 1.0 / g) by {
      assert loanAmount / g == loanAmount * (1.0 / g);
    }
    CollectTerms(loanAmount, loanRateAnnual / discountRate, 1.0 - 1.0 / g);
  }

  lemma CollectTerms(loan: real, k: real, a: real)
    ensures loan - (loan * k * a + (loan - loan * a)) == loan * a * (1.0 - k)
  {
  }

  /** Dividing the monthly payment by the monthly discount rate cancels the
      twelves. */
  lemma MonthlyRatesCancel(loan: real, rate: real, d: real, a: real)
    requires d != 0.0
    ensures (loan * (rate / 12.0) * a) / (d / 12.0) == loan * (rate / d) * a
  {
    var x := loan * rate * a;
    assert loan * (rate / 12.0) * a == x / 12.0;
    assert (x / 12.0) / (d / 12.0) == x / d;
    assert x / d == loan * (rate / d) * a;
  }

  /** Without a loan (for instance a loan-to-value ratio of 0) the financing
      contributes nothing. */
  lemma NoLoanNoValue(budgetTotal: int, ltvRatio: real, loanRateAnnual: real, loanPeriodYears: nat,
                      discountRate: real)
    requires ValidDiscountRate(discountRate)
    requires LoanAmount(budgetTotal, ltvRatio) <= 0.0
    ensures NetFinancingValue(LoanAmount(budgetTotal, ltvRatio), loanRateAnnual, loanPeriodYears,
                              discountRate) == 0.0
  {
  }

  /** A loan of zero years is repaid at once and is worth nothing. */
  lemma ZeroTermNoValue(loanAmount: real, loanRateAnnual: real, discountRate: real)
    requires ValidDiscountRate(discountRate)
    ensures NetFinancingValue(loanAmount, loanRateAnnual, 0, discountRate) == 0.0
  {
  }

  /** Borrowing at the discount rate itself is worth nothing: interest and
      discounting cancel. */
  lemma EqualRatesNoValue(loanAmount: real, loanPeriodYears: nat, discountRate: real)
    requires ValidDiscountRate(discountRate)
    ensures NetFinancingValue(loanAmount, discountRate, loanPeriodYears, discountRate) == 0.0
  {
    if loanAmount > 0.0 {
      NetFinancingClosedForm(loanAmount, discountRate, loanPeriodYears, discountRate);
    }
  }

  /** For a real loan over a positive term and a positive discount rate, the
      financing adds value exactly when the loan rate is below the discount
      rate, nothing exactly when they are equal, and costs value exactly when
      the loan rate is above it. */
  lemma FinancingSign(loanAmount: real, loanRateAnnual: real, loanPeriodYears: nat, discountRate: real)
    requires discountRate > 0.0 && loanAmount > 0.0 && loanPeriodYears > 0
    ensures var v := NetFinancingValue(loanAmount, loanRateAnnual, loanPeriodYears, discountRate);
            && (v > 0.0 <==> loanRateAnnual < discountRate)
            && (v == 0.0 <==> loanRateAnnual == discountRate)
            && (v < 0.0 <==> loanRateAnnual > discountRate)
  {
    var g := Pow(1.0 + discountRate / 12.0, loanPeriodYears * 12);
    NetFinancingClosedForm(loanAmount, loanRateAnnual, loanPeriodYears, discountRate);
    var a := 1.0 - 1.0 / g;
    assert a > 0.0 by {
      assert 1.0 / g < 1.0;
    }
    var b := 1.0 - loanRateAnnual / discountRate;
    assert b > 0.0 <==> loanRateAnnual < discountRate by {
      assert loanRateAnnual / discountRate < 1.0 <==> loanRateAnnual < discountRate;
    }
    assert b == 0.0 <==> loanRateAnnual == discountRate;
    SignOfPositiveMultiple(loanAmount * a, b);
  }

  lemma SignOfPositiveMultiple(k: real, b: real)
    requires k > 0.0
    ensures (k * b > 0.0 <==> b > 0.0) && (k * b == 0.0 <==> b == 0.0) && (k * b < 0.0 <==> b < 0.0)
  {
    if b > 0.0 {
      assert k * b > 0.0;
    } else if b < 0.0 {
      assert k * (-b) > 0.0;
    }
  }
}
