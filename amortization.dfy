/** The monthly instalment of an amortised loan (utils/helpers.py,
    calculate_installment), over exact reals. */
module Amortization {

  /** `x ** n` for a natural exponent. */
  function Pow(x: real, n: nat): real
    decreases n
  {
    if n == 0 then 1.0 else x * Pow(x, n - 1)
  }

  /** A base above one stays above one under every positive power. */
  lemma {:induction false} PowAboveOne(x: real, n: nat)
    requires x > 1.0 && n > 0
    ensures Pow(x, n) > 1.0
  {
    if n > 1 {
      PowAboveOne(x, n - 1);
      assert x * Pow(x, n - 1) > 1.0 * Pow(x, n - 1);
    }
  }

  /** calculate_installment: with monthly rate r = int_rate / 12, the PMT
      formula `P * r(1+r)^n / ((1+r)^n - 1)` when r > 0 and the straight-line
      `P / n` otherwise (zero and negative rates alike). */
  function CalculateInstallment(loanAmount: real, intRate: real, termMonths: int): real
    requires termMonths > 0
  {
    var r := intRate / 12.0;
    if r > 0.0 then
      PowAboveOne(1.0 + r, termMonths);
      var growth := Pow(1.0 + r, termMonths);
      loanAmount * (r * growth) / (growth - 1.0)
    else
      loanAmount / termMonths as real
  }

  /** The two branches of the formula, as a caller sees them. */
  lemma InstallmentBranches(loanAmount: real, intRate: real, termMonths: int)
    requires termMonths > 0
    ensures intRate <= 0.0 ==> CalculateInstallment(loanAmount, intRate, termMonths)
                               == loanAmount / termMonths as real
    ensures intRate > 0.0 ==>
      var r := intRate / 12.0;
      var growth := Pow(1.0 + r, termMonths);
      growth > 1.0 &&
      CalculateInstallment(loanAmount, intRate, termMonths) * (growth - 1.0)
        == loanAmount * r * growth
  {
    if intRate > 0.0 {
      var r := intRate / 12.0;
      PowAboveOne(1.0 + r, termMonths);
    }
  }

  /** Division by a nonzero factor can be taken inside a product. */
  lemma MulDiv(a: real, b: real, d: real)
    requires d != 0.0
    ensures (a * b) / d == a * (b / d)
  {
  }

  /** The instalment is linear in the principal, in both branches. */
  lemma InstallmentLinear(k: real, loanAmount: real, intRate: real, termMonths: int)
    requires termMonths > 0
    ensures CalculateInstallment(k * loanAmount, intRate, termMonths)
         == k * CalculateInstallment(loanAmount, intRate, termMonths)
  {
    var r := intRate / 12.0;
    if r > 0.0 {
      PowAboveOne(1.0 + r, termMonths);
      var growth := Pow(1.0 + r, termMonths);
      var unit := (r * growth) / (growth - 1.0);
      MulDiv(k * loanAmount, r * growth, growth - 1.0);
      MulDiv(loanAmount, r * growth, growth - 1.0);
      assert (k * loanAmount) * unit == k * (loanAmount * unit);
    } else {
      MulDiv(k, loanAmount, termMonths as real);
    }
  }

  /** A positive principal over a positive term gives a positive instalment,
      whatever the rate. */
  lemma InstallmentPositive(loanAmount: real, intRate: real, termMonths: int)
    requires loanAmount > 0.0 && termMonths > 0
    ensures CalculateInstallment(loanAmount, intRate, termMonths) > 0.0
  {
    InstallmentBranches(loanAmount, intRate, termMonths);
    if intRate > 0.0 {
      var r := intRate / 12.0;
      var growth := Pow(1.0 + r, termMonths);
      var payment := CalculateInstallment(loanAmount, intRate, termMonths);
      assert loanAmount * r * growth > 0.0;
      assert payment * (growth - 1.0) > 0.0 && growth - 1.0 > 0.0;
    }
  }

  /** The balance left after paying `payment` at the end of each of `months`
      months, the balance accruing `monthlyRate` interest each month. */
  function BalanceAfter(balance: real, monthlyRate: real, payment: real, months: nat): real
    decreases months
  {
    if months == 0 then balance
    else BalanceAfter(balance * (1.0 + monthlyRate) - payment, monthlyRate, payment, months - 1)
  }

  /** The closed form of the balance, multiplied through by the rate. */
  lemma {:induction false} BalanceClosedForm(balance: real, r: real, payment: real, months: nat)
    ensures BalanceAfter(balance, r, payment, months) * r
         == balance * Pow(1.0 + r, months) * r - payment * (Pow(1.0 + r, months) - 1.0)
    decreases months
  {
    if months > 0 {
      var next := balance * (1.0 + r) - payment;
      var x := Pow(1.0 + r, months - 1);
      BalanceClosedForm(next, r, payment, months - 1);
      assert Pow(1.0 + r, months) == (1.0 + r) * x;
      calc {
        next * x * r - payment * (x - 1.0);
        balance * ((1.0 + r) * x) * r - payment * x * r - payment * x + payment;
        balance * ((1.0 + r) * x) * r - payment * ((1.0 + r) * x - 1.0);
      }
    }
  }

  /** With no interest the balance falls by one payment a month. */
  lemma {:induction false} BalanceWithoutInterest(balance: real, payment: real, months: nat)
    ensures BalanceAfter(balance, 0.0, payment, months) == balance - months as real * payment
    decreases months
  {
    if months > 0 {
      BalanceWithoutInterest(balance - payment, payment, months - 1);
    }
  }

  /** The instalment pays the loan off: for every non-negative rate, paying
      it for the whole term leaves a balance of exactly zero. */
  lemma InstallmentPaysOff(loanAmount: real, intRate: real, termMonths: int)
    requires termMonths > 0 && intRate >= 0.0
    ensures BalanceAfter(loanAmount, intRate / 12.0,
                         CalculateInstallment(loanAmount, intRate, termMonths), termMonths) == 0.0
  {
    var r := intRate / 12.0;
    var pay := CalculateInstallment(loanAmount, intRate, termMonths);
    if r > 0.0 {
      PowAboveOne(1.0 + r, termMonths);
      var growth := Pow(1.0 + r, termMonths);
      assert pay * (growth - 1.0) == loanAmount * r * growth;
      BalanceClosedForm(loanAmount, r, pay, termMonths);
      assert BalanceAfter(loanAmount, r, pay, termMonths) * r == 0.0;
    } else {
      assert r == 0.0;
      BalanceWithoutInterest(loanAmount, pay, termMonths);
      assert termMonths as real * (loanAmount / termMonths as real) == loanAmount;
    }
  }

  /** Worked example: 12000 over 24 months at 0% is 500 a month. */
  lemma InstallmentWithoutInterestExample()
    ensures CalculateInstallment(12000.0, 0.0, 24) == 500.0
  {
  }
}
