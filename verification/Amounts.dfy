/** Amount strings: which the validators accept, and what the comparisons made on them decide. */
module Amounts {
  import opened Domain
  import opened Text
  import opened Money
  import S = Steps

  /** Position of the first '.', or the length of the string. */
  function DotIndex(s: string): (d: nat)
    ensures d <= |s| && '.' !in s[..d] && (d < |s| ==> s[d] == '.')
  {
    if s == "" || s[0] == '.' then 0 else 1 + DotIndex(s[1..])
  }

  function IntegerPart(s: string): string {
    s[..DotIndex(s)]
  }

  function FractionPart(s: string): string {
    var d := DotIndex(s);
    if d < |s| then s[d + 1..] else ""
  }

  /** Digits, with an optional one- or two-digit fraction. */
  predicate AmountShape(s: string) {
    var d := DotIndex(s);
    && d >= 1 && AllDigits(s[..d])
    && (d < |s| ==> 1 <= |s[d + 1..]| <= 2 && AllDigits(s[d + 1..]))
  }

  /** The pattern required of paidAmount: 1 to 13 digits, then exactly two decimals. */
  predicate PaidShape(s: string) {
    AmountShape(s) && |IntegerPart(s)| <= MAX_INTEGER_DIGITS && |FractionPart(s)| == 2
  }

  function Cents(s: string): nat
    requires AmountShape(s)
  {
    var f := FractionPart(s);
    FromDigits(IntegerPart(s)) * 100 + FromDigits(f) * (if |f| == 1 then 10 else 1)
  }

  /** The number the string denotes. */
  function Decimal(s: string): real
    requires AmountShape(s)
  {
    var f := FractionPart(s);
    FromDigits(IntegerPart(s)) as real + FromDigits(f) as real / Pow10(|f|) as real
  }

  lemma DecimalIsCents(s: string)
    requires AmountShape(s)
    ensures Decimal(s) == Exact(Cents(s))
  {
    var f := FractionPart(s);
    assert Pow10(0) == 1 && Pow10(1) == 10 && Pow10(2) == 100;
  }

  lemma CentsBelowLimit(s: string)
    requires AmountShape(s) && |IntegerPart(s)| <= MAX_INTEGER_DIGITS
    ensures Cents(s) < CENTS_LIMIT
  {
    PowGrows(|IntegerPart(s)|, MAX_INTEGER_DIGITS);
    PowThirteen();
    assert Pow10(0) == 1 && Pow10(1) == 10 && Pow10(2) == 100;
  }

  lemma PowThirteen()
    ensures Pow10(13) == 10_000_000_000_000
  {
    assert Pow10(4) == 10_000;
    assert Pow10(8) == 100_000_000;
    assert Pow10(12) == 1_000_000_000_000;
  }

  /** The text of a NUMERIC column with two decimals. */
  function ColumnText(cents: nat): string {
    ToDigits(cents / 100) + "." + LowDigits(cents % 100, 2)
  }

  lemma {:induction false} DotAfterDigits(whole: string, fraction: string)
    requires AllDigits(whole)
    ensures DotIndex(whole + "." + fraction) == |whole|
  {
    if whole == "" {
      assert whole + "." + fraction == "." + fraction;
    } else {
      assert (whole + "." + fraction)[1..] == whole[1..] + "." + fraction;
      DotAfterDigits(whole[1..], fraction);
    }
  }

  lemma WithTwoDecimals(whole: string, fraction: string)
    requires whole != "" && AllDigits(whole) && |fraction| == 2 && AllDigits(fraction)
    ensures var s := whole + "." + fraction;
            && AmountShape(s) && IntegerPart(s) == whole
            && Cents(s) == FromDigits(whole) * 100 + FromDigits(fraction)
  {
    DotAfterDigits(whole, fraction);
    var s := whole + "." + fraction;
    assert s[..|whole|] == whole && s[|whole| + 1..] == fraction;
  }

  lemma WholePartFits(cents: nat)
    requires cents < CENTS_LIMIT
    ensures Width(cents / 100) <= MAX_INTEGER_DIGITS
  {
    PowThirteen();
    WidthIsLeast(cents / 100, MAX_INTEGER_DIGITS);
  }

  lemma TwoDigitsReadBack(n: nat)
    requires n < 100
    ensures FromDigits(LowDigits(n, 2)) == n
  {
    assert Pow10(1) == 10 && Pow10(2) == 100;
    LowDigitsReadBack(n, 2);
  }

  lemma ToDigitsReadBack(n: nat)
    ensures ToDigits(n) != "" && FromDigits(ToDigits(n)) == n && |ToDigits(n)| == Width(n)
  {
    LowDigitsReadBack(n, Width(n));
  }

  lemma PartsReadBack(q: nat, r: nat)
    requires r < 100
    ensures var s := ToDigits(q) + "." + LowDigits(r, 2);
            AmountShape(s) && |IntegerPart(s)| == Width(q) && Cents(s) == q * 100 + r
  {
    ToDigitsReadBack(q);
    TwoDigitsReadBack(r);
    hide ToDigits, LowDigits, Width, FromDigits;
    WithTwoDecimals(ToDigits(q), LowDigits(r, 2));
  }

  /** A stored amount fits the amount pattern and reads back as the cents that were stored. */
  lemma ColumnTextReadsBack(cents: nat)
    ensures AmountShape(ColumnText(cents)) && Cents(ColumnText(cents)) == cents
    ensures cents < CENTS_LIMIT ==> Accepted(ColumnText(cents))
  {
    hide ToDigits, LowDigits, Width, FromDigits, AmountShape, Cents, IntegerPart;
    PartsReadBack(cents / 100, cents % 100);
    if cents < CENTS_LIMIT {
      WholePartFits(cents);
    }
  }

  // ---------------------------------------------------------------- validators

  datatype Violation = MandatoryValue | BadValue | MandatoryCurrency | BadCurrency

  const ALLOWED_CURRENCIES := {"IDR", "USD", "SGD"}

  /** strings.ToUpper, as far as the letters of a currency code go: besides a to z, only dotless i and
      long s have an ASCII capital. */
  function Upper(c: char): char {
    if 'a' <= c <= 'z' then (c as int - 32) as char
    else if c == '\U{131}' then 'I'
    else if c == '\U{17f}' then 'S'
    else c
  }

  function ToUpper(s: string): (r: string)
    ensures |r| == |s|
  {
    seq(|s|, i requires 0 <= i < |s| => Upper(s[i]))
  }

  function ValidateAmount(value: string, currency: string): Option<Violation> {
    if Trim(value) == "" then Some(MandatoryValue)
    else if !AmountShape(value) then Some(BadValue)
    else if |IntegerPart(value)| > MAX_INTEGER_DIGITS then Some(BadValue)
    else if Trim(currency) == "" then Some(MandatoryCurrency)
    else if ToUpper(Trim(currency)) !in ALLOWED_CURRENCIES then Some(BadCurrency)
    else None
  }

  /** An amount some validated request may carry. */
  predicate Accepted(value: string) {
    AmountShape(value) && |IntegerPart(value)| <= MAX_INTEGER_DIGITS
  }

  type FloatParser = string -> Option<real>

  /** strconv.ParseFloat on the strings at hand: the nearest float of a decimal, an error on nothing. */
  ghost predicate ReadsDecimals(parse: FloatParser, fl: real -> real) {
    && parse("").None?
    && forall s :: Accepted(s) ==> parse(s) == Some(fl(Decimal(s)))
  }

  /** The assumptions can be met together: exact arithmetic, for one, meets them. */
  lemma AssumptionsAreMet()
    ensures Rounds((x: real) => x)
    ensures ReadsDecimals((s: string) => if Accepted(s) then Some(Decimal(s)) else None, (x: real) => x)
  {
  }

  function ValidatePaidAmountValue(parse: FloatParser, value: string): Option<Violation> {
    var v := Trim(value);
    if !PaidShape(v) then Some(BadValue)
    else
      match parse(v)
      case None => Some(BadValue)
      case Some(x) => if x <= 0.0 then Some(BadValue) else None
  }

  lemma AcceptedIsTight(s: string)
    requires AmountShape(s)
    ensures Trim(s) == s && s != ""
  {
    var d := DotIndex(s);
    assert s[0] == s[..d][0];
    assert s[|s| - 1] == if d < |s| then s[d + 1..][|s| - d - 2] else s[..d][d - 1];
    TrimOfPadding("", s, "");
    assert "" + s + "" == s;
  }

  lemma AcceptedReads(parse: FloatParser, fl: real -> real, s: string)
    requires Rounds(fl) && ReadsDecimals(parse, fl) && Accepted(s)
    ensures parse(s) == Some(fl(Exact(Cents(s)))) && Cents(s) < CENTS_LIMIT && Trim(s) == s
  {
    DecimalIsCents(s);
    CentsBelowLimit(s);
    AcceptedIsTight(s);
  }

  /** A payment's amount is accepted exactly when it has 1 to 13 digits, two decimals, a known currency and is
      not zero. */
  lemma PaidAmountAcceptedExactlyWhen(parse: FloatParser, fl: real -> real, value: string, currency: string)
    requires Rounds(fl) && ReadsDecimals(parse, fl)
    ensures ValidateAmount(value, currency).None? && ValidatePaidAmountValue(parse, value).None?
            <==> PaidShape(value) && Cents(value) > 0 && ToUpper(Trim(currency)) in {"IDR", "USD", "SGD"}
  {
    if Accepted(value) {
      AcceptedReads(parse, fl, value);
      RoundedCents(fl, Cents(value));
    }
    if ToUpper(Trim(currency)) in ALLOWED_CURRENCIES {
      assert |Trim(currency)| == 3;
    }
  }

  /** Which part of an amount is refused, and whether it is missing or malformed; the value is looked at first. */
  lemma AmountRefusedExactlyWhen(value: string, currency: string)
    ensures var v := ValidateAmount(value, currency);
            && (v == Some(MandatoryValue) <==> Trim(value) == "")
            && (v == Some(BadValue) <==> Trim(value) != "" && !Accepted(value))
            && (v == Some(MandatoryCurrency) <==> Accepted(value) && Trim(currency) == "")
            && (v == Some(BadCurrency) <==>
                  Accepted(value) && Trim(currency) != "" && ToUpper(Trim(currency)) !in {"IDR", "USD", "SGD"})
  {
    if Accepted(value) { AcceptedIsTight(value); }
  }

  // ---------------------------------------------------------------- comparisons

  function AmountsEqual(parse: FloatParser, fl: real -> real, a: string, b: string): bool {
    var left, right := parse(Trim(a)), parse(Trim(b));
    if left.None? || right.None? then Trim(a) == Trim(b)
    else FloatsEqual(fl, left.value, right.value)
  }

  /** Whether the instalment is refused. */
  function VariableBillOverpayment(parse: FloatParser, fl: real -> real, total: string, tendered: string,
                                   settled: string): bool {
    if Trim(total) == "" then false
    else
      var t := parse(Trim(total));
      if t.None? || t.value <= 0.0 then false
      else
        var x := parse(Trim(tendered));
        if x.None? then false
        else FloatsOverpay(fl, parse(Trim(settled)).GetOr(0.0), x.value, t.value)
  }

  /** paid_amount < total_amount, as IsPayable compares them. */
  function StillOwed(parse: FloatParser, paid: string, total: string): bool {
    var p, t := parse(paid), parse(total);
    p.Some? && t.Some? && p.value < t.value
  }

  /** amountsEqual decides equality of cents, for any two accepted amounts. */
  lemma AmountsEqualIsCentsEqual(parse: FloatParser, fl: real -> real, a: string, b: string)
    requires Rounds(fl) && ReadsDecimals(parse, fl) && Accepted(a) && Accepted(b)
    ensures AmountsEqual(parse, fl, a, b) <==> Cents(a) == Cents(b)
  {
    AcceptedReads(parse, fl, a);
    AcceptedReads(parse, fl, b);
    EqualExactly(fl, Cents(a), Cents(b));
  }

  /** The overpayment test refuses exactly the instalments that take a bill with a positive total past it;
      an amount not settled yet counts as zero. */
  lemma OverpaymentIsCentsOver(parse: FloatParser, fl: real -> real, total: string, tendered: string, settled: string)
    requires Rounds(fl) && ReadsDecimals(parse, fl) && Accepted(total) && Accepted(tendered)
    requires settled == "" || Accepted(settled)
    ensures VariableBillOverpayment(parse, fl, total, tendered, settled)
            <==> Cents(total) > 0 && (if settled == "" then 0 else Cents(settled)) + Cents(tendered) > Cents(total)
  {
    AcceptedReads(parse, fl, total);
    AcceptedReads(parse, fl, tendered);
    RoundedCents(fl, Cents(total));
    if settled == "" {
      RoundedCents(fl, 0);
      OverpaysExactly(fl, 0, Cents(tendered), Cents(total));
    } else {
      AcceptedReads(parse, fl, settled);
      OverpaysExactly(fl, Cents(settled), Cents(tendered), Cents(total));
    }
  }

  lemma StillOwedIsCentsBelow(parse: FloatParser, fl: real -> real, paid: string, total: string)
    requires Rounds(fl) && ReadsDecimals(parse, fl) && Accepted(paid) && Accepted(total)
    ensures StillOwed(parse, paid, total) <==> Cents(paid) < Cents(total)
  {
    AcceptedReads(parse, fl, paid);
    AcceptedReads(parse, fl, total);
    LessExactly(fl, Cents(paid), Cents(total));
  }

  /** Amounts that cannot be read are equal only as texts, and refuse no instalment. */
  lemma UnreadableAmounts(parse: FloatParser, fl: real -> real, a: string, b: string, settled: string)
    requires parse(Trim(a)).None? && parse("").None?
    ensures AmountsEqual(parse, fl, a, b) == AmountsEqual(parse, fl, b, a) == (Trim(a) == Trim(b))
    ensures !VariableBillOverpayment(parse, fl, a, b, settled) && !VariableBillOverpayment(parse, fl, b, a, settled)
    ensures !VariableBillOverpayment(parse, fl, "", b, settled)
  {
    assert Trim("") == "";
  }

  /** The ledger's comparisons on cents are the program's comparisons on the strings that hold them. */
  lemma LedgerComparesAsTheProgram(parse: FloatParser, fl: real -> real, row: Txn, total: string, paid: string,
                                   tendered: string)
    requires Rounds(fl) && ReadsDecimals(parse, fl) && Accepted(total) && Accepted(paid) && Accepted(tendered)
    requires row.total == Cents(total) && row.Paid() == Cents(paid)
    ensures S.Overpays(row, Cents(tendered)) <==> VariableBillOverpayment(parse, fl, total, tendered, paid)
    ensures row.total == Cents(tendered) <==> AmountsEqual(parse, fl, tendered, total)
    ensures row.IsPayable() <==>
            row.status == Pending || (row.status == Settled && row.IsVariableBill() && StillOwed(parse, paid, total))
  {
    AcceptedIsTight(paid);
    OverpaymentIsCentsOver(parse, fl, total, tendered, paid);
    AmountsEqualIsCentsEqual(parse, fl, tendered, total);
    StillOwedIsCentsBelow(parse, fl, paid, total);
  }
}
