/** Strings as the program handles them: trimming, prefixes and suffixes, decimal digits. */
module Text {

  /** The characters strings.TrimSpace removes (Unicode White_Space). */
  predicate IsSpace(c: char) {
    || c in {'\t', '\n', '\U{b}', '\U{c}', '\r', ' ', '\U{85}', '\U{a0}', '\U{1680}'}
    || '\U{2000}' <= c <= '\U{200a}'
    || c in {'\U{2028}', '\U{2029}', '\U{202f}', '\U{205f}', '\U{3000}'}
  }

  function TrimLeft(s: string): string {
    if s != "" && IsSpace(s[0]) then TrimLeft(s[1..]) else s
  }

  function TrimRight(s: string): string {
    if s != "" && IsSpace(s[|s| - 1]) then TrimRight(s[..|s| - 1]) else s
  }

  function Trim(s: string): string {
    TrimRight(TrimLeft(s))
  }

  predicate AllSpaces(s: string) {
    forall i :: 0 <= i < |s| ==> IsSpace(s[i])
  }

  /** Neither end of the string is a space. */
  predicate Tight(s: string) {
    s == "" || (!IsSpace(s[0]) && !IsSpace(s[|s| - 1]))
  }

  lemma {:induction false} TrimLeftOfPadding(pad: string, s: string)
    requires AllSpaces(pad) && (s == "" || !IsSpace(s[0]))
    ensures TrimLeft(pad + s) == s
  {
    if pad == "" {
      assert pad + s == s;
    } else {
      assert (pad + s)[1..] == pad[1..] + s;
      TrimLeftOfPadding(pad[1..], s);
    }
  }

  lemma {:induction false} TrimRightOfPadding(s: string, pad: string)
    requires AllSpaces(pad) && (s == "" || !IsSpace(s[|s| - 1]))
    ensures TrimRight(s + pad) == s
  {
    if pad == "" {
      assert s + pad == s;
    } else {
      assert (s + pad)[..|s + pad| - 1] == s + pad[..|pad| - 1];
      TrimRightOfPadding(s, pad[..|pad| - 1]);
    }
  }

  /** Padding on either side of a tight string is exactly what Trim removes. */
  lemma TrimOfPadding(left: string, s: string, right: string)
    requires AllSpaces(left) && AllSpaces(right) && Tight(s)
    ensures Trim(left + s + right) == s
  {
    if s == "" {
      assert left + s + right == (left + right) + "";
      assert AllSpaces(left + right);
      TrimLeftOfPadding(left + right, "");
    } else {
      assert left + s + right == left + (s + right);
      TrimLeftOfPadding(left, s + right);
      TrimRightOfPadding(s, right);
    }
  }

  lemma {:induction false} TrimLeftSplits(s: string) returns (pad: string)
    ensures AllSpaces(pad) && s == pad + TrimLeft(s)
    ensures TrimLeft(s) == "" || !IsSpace(TrimLeft(s)[0])
  {
    if s != "" && IsSpace(s[0]) {
      var rest := TrimLeftSplits(s[1..]);
      pad := [s[0]] + rest;
    } else {
      pad := "";
    }
  }

  lemma {:induction false} TrimRightSplits(s: string) returns (pad: string)
    ensures AllSpaces(pad) && s == TrimRight(s) + pad
    ensures TrimRight(s) == "" || !IsSpace(TrimRight(s)[|TrimRight(s)| - 1])
  {
    if s != "" && IsSpace(s[|s| - 1]) {
      var rest := TrimRightSplits(s[..|s| - 1]);
      pad := rest + [s[|s| - 1]];
    } else {
      pad := "";
    }
  }

  /** Every string is its trimmed part between two runs of spaces. */
  lemma TrimSplits(s: string) returns (left: string, right: string)
    ensures AllSpaces(left) && AllSpaces(right) && Tight(Trim(s))
    ensures s == left + Trim(s) + right
  {
    left := TrimLeftSplits(s);
    right := TrimRightSplits(TrimLeft(s));
  }

  predicate HasPrefix(s: string, p: string) {
    p <= s
  }

  predicate HasSuffix(s: string, p: string) {
    |p| <= |s| && s[|s| - |p|..] == p
  }

  // ---------------------------------------------------------------- decimal digits

  predicate IsDigit(c: char) {
    '0' <= c <= '9'
  }

  predicate AllDigits(s: string) {
    forall i :: 0 <= i < |s| ==> IsDigit(s[i])
  }

  function DigitValue(c: char): (n: nat)
    requires IsDigit(c)
    ensures n <= 9
  {
    c as int - '0' as int
  }

  function Digit(n: nat): (c: char)
    requires n <= 9
    ensures IsDigit(c) && DigitValue(c) == n
  {
    ('0' as int + n) as char
  }

  function Pow10(n: nat): (p: nat)
    ensures p >= 1
  {
    if n == 0 then 1 else 10 * Pow10(n - 1)
  }

  lemma {:induction false} PowGrows(m: nat, n: nat)
    requires m <= n
    ensures Pow10(m) <= Pow10(n)
  {
    if m < n {
      PowGrows(m, n - 1);
    }
  }

  /** The number a digit string writes. */
  function FromDigits(s: string): (n: nat)
    requires AllDigits(s)
    ensures n < Pow10(|s|)
  {
    if s == "" then 0 else FromDigits(s[..|s| - 1]) * 10 + DigitValue(s[|s| - 1])
  }

  /** The last `width` digits of `n`, with leading zeros. */
  function LowDigits(n: nat, width: nat): (s: string)
    ensures |s| == width && AllDigits(s)
  {
    if width == 0 then "" else LowDigits(n / 10, width - 1) + [Digit(n % 10)]
  }

  lemma {:induction false} LowDigitsReadBack(n: nat, width: nat)
    requires n < Pow10(width)
    ensures FromDigits(LowDigits(n, width)) == n
  {
    if width > 0 {
      LowDigitsReadBack(n / 10, width - 1);
      var s := LowDigits(n, width);
      assert s[..|s| - 1] == LowDigits(n / 10, width - 1);
    }
  }

  /** The number of digits of `n` (one for zero). */
  function Width(n: nat): (w: nat)
    ensures w >= 1 && n < Pow10(w)
  {
    if n < 10 then 1 else 1 + Width(n / 10)
  }

  lemma {:induction false} WidthIsLeast(n: nat, w: nat)
    requires w >= 1 && n < Pow10(w)
    ensures Width(n) <= w
  {
    if n >= 10 {
      assert Pow10(1) == 10;
      WidthIsLeast(n / 10, w - 1);
    }
  }

  /** strconv's decimal form. */
  function ToDigits(n: nat): string {
    LowDigits(n, Width(n))
  }
}
