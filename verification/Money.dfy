/** Money strings and the floating-point comparisons the program makes on them.

    binary64 enters only through its error bound: every conversion and every operation returns the exact
    result up to a relative error of 2^-53 (IEEE 754-2019, section 4.3.1). */
module Money {
  import opened Text
  import opened Domain

  // ---------------------------------------------------------------- rounding

  const MAX_INTEGER_DIGITS := 13

  /** One more than the cents of the largest amount with 13 integer digits. */
  const CENTS_LIMIT := 1_000_000_000_000_000

  function Abs(x: real): real {
    if x < 0.0 then -x else x
  }

  /** The magnitudes the comparisons meet; far inside binary64's normal range. */
  predicate InRange(x: real) {
    x == 0.0 || 0.001 <= Abs(x) <= 100_000_000_000_000.0
  }

  /** |x| / 2^53. */
  function Slack(x: real): real {
    Abs(x) / 9007199254740992.0
  }

  /** Whether `y` is within rounding error of `x`. */
  predicate Close(y: real, x: real) {
    x - Slack(x) <= y <= x + Slack(x)
  }

  ghost predicate Rounds(fl: real -> real) {
    forall x :: InRange(x) ==> Close(fl(x), x)
  }

  function Exact(cents: int): real {
    cents as real / 100.0
  }

  const EPSILON := 0.005

  function FloatsEqual(fl: real -> real, left: real, right: real): bool {
    Abs(fl(left - right)) < fl(EPSILON)
  }

  function FloatsOverpay(fl: real -> real, settled: real, tendered: real, total: real): bool {
    fl(settled + tendered) > fl(total + fl(EPSILON))
  }

  lemma Near(fl: real -> real, x: real)
    requires Rounds(fl) && InRange(x)
    ensures Close(fl(x), x)
  {
  }

  lemma RoundedCents(fl: real -> real, cents: int)
    requires Rounds(fl) && 0 <= cents < CENTS_LIMIT
    ensures Exact(cents) - 0.00111023 <= fl(Exact(cents)) <= Exact(cents) + 0.00111023
    ensures cents == 0 ==> fl(Exact(cents)) == 0.0
    ensures cents > 0 ==> fl(Exact(cents)) >= 0.009
  {
    Near(fl, Exact(cents));
  }

  /** Half a cent neither merges two amounts nor separates one from itself. */
  lemma EqualExactly(fl: real -> real, a: int, b: int)
    requires Rounds(fl) && 0 <= a < CENTS_LIMIT && 0 <= b < CENTS_LIMIT
    ensures FloatsEqual(fl, fl(Exact(a)), fl(Exact(b))) <==> a == b
  {
    RoundedCents(fl, a);
    RoundedCents(fl, b);
    Near(fl, EPSILON);
    var d := fl(Exact(a)) - fl(Exact(b));
    if a == b {
      Near(fl, 0.0);
    } else {
      assert Exact(a) - Exact(b) >= 0.01 || Exact(b) - Exact(a) >= 0.01;
      assert Abs(d) >= 0.0077;
      Near(fl, d);
    }
  }

  /** The order of two rounded amounts is the order of their cents. */
  lemma LessExactly(fl: real -> real, a: int, b: int)
    requires Rounds(fl) && 0 <= a < CENTS_LIMIT && 0 <= b < CENTS_LIMIT
    ensures fl(Exact(a)) < fl(Exact(b)) <==> a < b
  {
    RoundedCents(fl, a);
    RoundedCents(fl, b);
    if a < b {
      assert Exact(b) - Exact(a) >= 0.01;
    } else if b < a {
      assert Exact(a) - Exact(b) >= 0.01;
    }
  }

  /** Two amounts `x` + `y` and a ceiling `t`, each with its rounded value, one cent apart or more when over. */
  lemma SumAgainstCeiling(x: real, y: real, t: real, fx: real, fy: real, ft: real, e: real, sum: real, limit: real)
    requires 0.0 <= x <= 10_000_000_000_000.0 && 0.0 <= y <= 10_000_000_000_000.0 && 0.0 <= t <= 10_000_000_000_000.0
    requires Close(fx, x) && Close(fy, y) && Close(ft, t) && Close(e, EPSILON)
    requires Close(sum, fx + fy) && Close(limit, ft + e)
    ensures x + y <= t ==> sum <= limit
    ensures x + y >= t + 0.01 ==> sum > limit
  {
  }

  lemma Operand(fl: real -> real, cents: int)
    requires Rounds(fl) && 0 <= cents < CENTS_LIMIT
    ensures Close(fl(Exact(cents)), Exact(cents)) && 0.0 <= Exact(cents) <= 10_000_000_000_000.0
    ensures fl(Exact(cents)) == 0.0 || 0.009 <= fl(Exact(cents)) <= 11_000_000_000_000.0
  {
    RoundedCents(fl, cents);
    Near(fl, Exact(cents));
  }

  lemma SumRounds(fl: real -> real, a: int, b: int)
    requires Rounds(fl) && 0 <= a < CENTS_LIMIT && 0 <= b < CENTS_LIMIT
    ensures var sum := fl(Exact(a)) + fl(Exact(b)); Close(fl(sum), sum)
  {
    Operand(fl, a);
    Operand(fl, b);
    Near(fl, fl(Exact(a)) + fl(Exact(b)));
  }

  lemma LimitRounds(fl: real -> real, total: int)
    requires Rounds(fl) && 0 <= total < CENTS_LIMIT
    ensures var limit := fl(Exact(total)) + fl(EPSILON); Close(fl(EPSILON), EPSILON) && Close(fl(limit), limit)
  {
    Operand(fl, total);
    Near(fl, EPSILON);
    Near(fl, fl(Exact(total)) + fl(EPSILON));
  }

  lemma CentsApart(a: int, b: int, t: int)
    ensures a + b <= t ==> Exact(a) + Exact(b) <= Exact(t)
    ensures a + b > t ==> Exact(a) + Exact(b) >= Exact(t) + 0.01
  {
    assert Exact(a) + Exact(b) == Exact(a + b);
  }

  /** The ceiling refuses exactly the instalments that take the bill past its total. */
  lemma OverpaysExactly(fl: real -> real, settled: int, tendered: int, total: int)
    requires Rounds(fl) && 0 <= settled < CENTS_LIMIT && 0 <= tendered < CENTS_LIMIT && 0 <= total < CENTS_LIMIT
    ensures FloatsOverpay(fl, fl(Exact(settled)), fl(Exact(tendered)), fl(Exact(total)))
            <==> settled + tendered > total
  {
    Operand(fl, settled);
    Operand(fl, tendered);
    Operand(fl, total);
    SumRounds(fl, settled, tendered);
    LimitRounds(fl, total);
    CentsApart(settled, tendered, total);
    hide Rounds, InRange, Close, Exact;
    SumAgainstCeiling(Exact(settled), Exact(tendered), Exact(total), fl(Exact(settled)), fl(Exact(tendered)),
                      fl(Exact(total)), fl(EPSILON), fl(fl(Exact(settled)) + fl(Exact(tendered))),
                      fl(fl(Exact(total)) + fl(EPSILON)));
  }
}
