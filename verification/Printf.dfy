// The number conversions of ConsolePrintf.
module Printf {
  import opened Words
  import opened Libc

  const ZERO_CHAR: nat := 48  // '0'

  // ---- %d ----

  // The decimal digits of a number, most significant first
  function Digits(n: nat): (d: seq<nat>)
    ensures |d| >= 1 && forall i :: 0 <= i < |d| ==> d[i] < 10
  {
    if n < 10 then [n] else Digits(n / 10) + [n % 10]
  }

  function Value(d: seq<nat>): nat {
    if d == [] then 0 else 10 * Value(d[..|d| - 1]) + d[|d| - 1]
  }

  lemma {:induction false} ValueOfDigits(n: nat)
    ensures Value(Digits(n)) == n
  {
    var d := Digits(n);
    if n >= 10 {
      ValueOfDigits(n / 10);
      assert d[..|d| - 1] == Digits(n / 10);
    } else {
      assert d[..0] == [];
    }
  }

  lemma {:induction false} NoLeadingZero(n: nat)
    ensures Digits(n)[0] == 0 ==> n == 0
  {
    if n >= 10 {
      NoLeadingZero(n / 10);
    }
  }

  function Pow10(k: nat): nat { if k == 0 then 1 else 10 * Pow10(k - 1) }

  lemma {:induction false} DigitCount(n: nat, k: nat)
    requires k >= 1 && n < Pow10(k)
    ensures |Digits(n)| <= k
  {
    if n >= 10 {
      assert k > 1;
      DigitCount(n / 10, k - 1);
    }
  }

  // What the routine emits for a digit d of a number: the remainder of a negative number is negative.
  function Emitted(num: int, d: nat): int {
    if num >= 0 then ZERO_CHAR + d else ZERO_CHAR - d
  }

  function Abs(num: int): nat { if num >= 0 then num else -num }

  function Rendered(num: int): (r: seq<int>)
    ensures |r| == |Digits(Abs(num))|
  {
    seq(|Digits(Abs(num))|, i requires 0 <= i < |Digits(Abs(num))| => Emitted(num, Digits(Abs(num))[i]))
  }

  predicate IsDigit(c: int) { '0' as int <= c <= '9' as int }

  function ParseDecimal(text: seq<int>): int {
    if text == [] then 0 else 10 * ParseDecimal(text[..|text| - 1]) + (text[|text| - 1] - '0' as int)
  }

  // One round of the conversion peels the last digit off.
  lemma LastDigit(n: int)
    ensures var d := Digits(Abs(n));
      && ZERO_CHAR + TruncMod(n, 10) == Emitted(n, d[|d| - 1])
      && Abs(TruncDiv(n, 10)) == Abs(n) / 10
      && (n >= 0 ==> TruncDiv(n, 10) >= 0) && (n < 0 ==> TruncDiv(n, 10) <= 0)
      && (if Abs(n) < 10 then |d| == 1 else d[..|d| - 1] == Digits(Abs(n) / 10))
  {
  }

  lemma TenDigits(num: int)
    requires -0x8000_0000 <= num < 0x8000_0000
    ensures |Digits(Abs(num))| <= 10
  {
    assert Pow10(3) == 1000 && Pow10(6) == 1000 * 1000;
    assert Pow10(10) == 10_000_000_000;
    DigitCount(Abs(num), 10);
  }

  // The %d conversion of ConsolePrintf: the digits go into a 16-byte buffer from its end backwards.
  method FillDigits(buf: array<int>, num: int) returns (s: nat)
    requires buf.Length == 16 && -0x8000_0000 <= num < 0x8000_0000
    modifies buf
    ensures s + |Rendered(num)| == 15 && buf[s..15] == Rendered(num)
  {
    var n, done := num, false;
    ghost var all, text, left := Digits(Abs(num)), Rendered(num), |Digits(Abs(num))|;
    TenDigits(num);
    s := 15;
    assert all[..left] == all;
    while !done
      invariant 0 <= left <= |all| && s == 15 - |all| + left
      invariant SameSide(n, num)
      invariant !done ==> left > 0 && all[..left] == Digits(Abs(n))
      invariant done ==> left == 0
      invariant forall i :: s <= i < 15 ==> buf[i] == text[|all| + i - 15]
      decreases left
    {
      PeelDigit(n, num, left);
      s := s - 1;
      left := left - 1;
      buf[s] := ZERO_CHAR + TruncMod(n, 10);
      n := TruncDiv(n, 10);
      done := n == 0;
    }
    assert buf[s..15] == text;
  }

  predicate SameSide(n: int, num: int) { (n > 0 ==> num > 0) && (n < 0 ==> num < 0) }

  lemma PeelDigit(n: int, num: int, left: nat)
    requires 0 < left <= |Digits(Abs(num))| && SameSide(n, num)
    requires Digits(Abs(num))[..left] == Digits(Abs(n))
    ensures ZERO_CHAR + TruncMod(n, 10) == Rendered(num)[left - 1]
    ensures SameSide(TruncDiv(n, 10), num)
    ensures TruncDiv(n, 10) == 0 <==> left == 1
    ensures left > 1 ==> Digits(Abs(num))[..left - 1] == Digits(Abs(TruncDiv(n, 10)))
  {
    var all, d := Digits(Abs(num)), Digits(Abs(n));
    LastDigit(n);
    assert d[left - 1] == all[left - 1];
    assert all[..left - 1] == d[..left - 1];
    if n == 0 {
      ZeroDigit(num, left);
    }
  }

  // A prefix of the digits of a number is never just a zero, unless the number is zero.
  lemma ZeroDigit(num: int, left: nat)
    requires 0 < left <= |Digits(Abs(num))| && Digits(Abs(num))[..left] == Digits(0)
    ensures num == 0
  {
    assert Digits(Abs(num))[..left][0] == 0;
    NoLeadingZero(Abs(num));
  }

  // ... and are sent from there.
  method PrintDecimal(num: int) returns (sent: seq<int>)
    requires -0x8000_0000 <= num < 0x8000_0000
    ensures sent == Rendered(num) && 1 <= |sent| <= 10
  {
    TenDigits(num);
    var buf := new int[16];
    var s := FillDigits(buf, num);
    ghost var start := s;
    sent := [];
    while s < 15
      invariant start <= s <= 15 && sent == buf[start..s]
    {
      sent := sent + [buf[s]];
      s := s + 1;
    }
  }

  predicate AllDigits(text: seq<int>) {
    forall i :: 0 <= i < |text| ==> IsDigit(text[i])
  }

  lemma {:induction false} ParseSigned(d: seq<nat>, num: int, text: seq<int>)
    requires |text| == |d| && forall i :: 0 <= i < |d| ==> text[i] == Emitted(num, d[i])
    ensures num >= 0 ==> ParseDecimal(text) == Value(d)
  {
    if d != [] {
      ParseSigned(d[..|d| - 1], num, text[..|d| - 1]);
    }
  }

  lemma NegativeIsGarbled(num: int)
    requires num < 0
    ensures !AllDigits(Rendered(num))
  {
    NoLeadingZero(Abs(num));
    assert !IsDigit(Rendered(num)[0]);
  }

  // What is printed is the number in decimal, without leading zeros, exactly when the number is not
  // negative. For a negative number at least one character is not even a digit: every character lies as
  // far below '0' as that of the positive number lies above.
  lemma DecimalRoundTrip(num: int)
    ensures AllDigits(Rendered(num)) && ParseDecimal(Rendered(num)) == num <==> num >= 0
    ensures num > 0 ==> Rendered(num)[0] != '0' as int
    ensures num < 0 ==> |Rendered(num)| == |Rendered(-num)|
    ensures num < 0 ==> forall i :: 0 <= i < |Rendered(num)| ==> Rendered(num)[i] == 96 - Rendered(-num)[i]
  {
    var d, text := Digits(Abs(num)), Rendered(num);
    ParseSigned(d, num, text);
    ValueOfDigits(Abs(num));
    NoLeadingZero(Abs(num));
    if num < 0 {
      NegativeIsGarbled(num);
    }
  }

  // ---- %x ----

  function Pow16(k: nat): (p: nat)
    ensures p > 0
  {
    if k == 0 then 1 else 16 * Pow16(k - 1)
  }

  const HEX_DIGITS := "0123456789ABCDEF"

  // The digit a character stands for, defined on the sixteen characters only
  function HexValue(c: nat): (d: Option<nat>)
    ensures d.Some? ==> d.value < 16 && HEX_DIGITS[d.value] as nat == c
  {
    if '0' as nat <= c <= '9' as nat then Some(c - '0' as nat)
    else if 'A' as nat <= c <= 'F' as nat then Some(10 + c - 'A' as nat)
    else None
  }

  // (num >> shift) & 0xf
  function Nibble(num: word, k: nat): (d: nat)
    ensures d < 16
  {
    num / Pow16(k) % 16
  }

  // The %x conversion of ConsolePrintf
  method PrintHex(num: word) returns (sent: seq<nat>)
    ensures |sent| == 8 && forall i :: 0 <= i < 8 ==> sent[i] == HEX_DIGITS[Nibble(num, 7 - i)] as nat
  {
    sent := [];
    var shift := 28;
    while shift >= 0
      invariant -4 <= shift <= 28 && shift == 28 - 4 * |sent| && |sent| <= 8
      invariant forall i :: 0 <= i < |sent| ==> sent[i] == HEX_DIGITS[Nibble(num, 7 - i)] as nat
    {
      var hd := num / Pow16(shift / 4) % 16;
      if hd > 9 {
        hd := hd + ('A' as nat - 10);
      } else {
        hd := hd + ZERO_CHAR;
      }
      sent := sent + [hd];
      shift := shift - 4;
    }
  }

  // None if a character is no hexadecimal digit
  function ParseHex(text: seq<nat>): Option<nat> {
    if text == [] then Some(0)
    else
      var upper, d := ParseHex(text[..|text| - 1]), HexValue(text[|text| - 1]);
      if upper.Some? && d.Some? then Some(16 * upper.value + d.value) else None
  }

  lemma DigitsReadBack(d: nat)
    requires d < 16
    ensures HexValue(HEX_DIGITS[d] as nat) == Some(d)
  {
  }

  lemma Regroup(k: nat, m: nat, a: nat, r: nat)
    requires m < 16 && r < a
    ensures (16 * k + m) * a + r == k * (16 * a) + (m * a + r)
    ensures m * a + r < 16 * a
  {
    assert m * a <= 15 * a;
  }

  lemma NestedDivision(n: nat, a: nat)
    requires a > 0
    ensures n / (16 * a) == n / a / 16
  {
    var q, r := n / a, n % a;
    var k, m := q / 16, q % 16;
    Regroup(k, m, a, r);
    DivUnique(n, 16 * a, k, m * a + r);
  }

  lemma WholeWord(num: word)
    ensures num / Pow16(8) == 0
  {
    assert Pow16(8) == 16 * 16 * 16 * 16 * Pow16(4) && Pow16(4) == 0x1_0000;
  }

  lemma NextNibble(num: word, k: nat)
    ensures num / Pow16(k) == 16 * (num / Pow16(k + 1)) + Nibble(num, k)
  {
    NestedDivision(num, Pow16(k));
  }

  lemma {:induction false} HexPrefix(num: word, text: seq<nat>, k: nat)
    requires |text| == k <= 8 && forall i :: 0 <= i < k ==> text[i] == HEX_DIGITS[Nibble(num, 7 - i)] as nat
    ensures ParseHex(text) == Some(num / Pow16(8 - k))
  {
    if k == 0 {
      WholeWord(num);
    } else {
      HexPrefix(num, text[..k - 1], k - 1);
      NextNibble(num, 8 - k);
      DigitsReadBack(Nibble(num, 8 - k));
    }
  }

  // Eight digits that read back as the word printed
  lemma HexRoundTrip(num: word, text: seq<nat>)
    requires |text| == 8 && forall i :: 0 <= i < 8 ==> text[i] == HEX_DIGITS[Nibble(num, 7 - i)] as nat
    ensures ParseHex(text) == Some(num)
  {
    HexPrefix(num, text, 8);
  }
}
