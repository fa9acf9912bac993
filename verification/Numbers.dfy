/** Numbers in decimal and in hexadecimal, as text. */
module Numbers {
  import opened Wrappers

  const U64: nat := 0x1_0000_0000_0000_0000

  function Min(a: nat, b: nat): nat {
    if a < b then a else b
  }

  predicate Base(b: nat) {
    b == 10 || b == 16
  }

  function Digit(d: nat): char
    requires d < 16
  {
    "0123456789abcdef"[d]
  }

  function DigitValue(c: char): Option<nat> {
    if '0' <= c <= '9' then Some((c - '0') as nat)
    else if 'a' <= c <= 'f' then Some((c - 'a') as nat + 10)
    else if 'A' <= c <= 'F' then Some((c - 'A') as nat + 10)
    else None
  }

  predicate IsDigit(c: char, b: nat) {
    match DigitValue(c)
    case Some(d) => d < b
    case None => false
  }

  /** Rust's `{}` and `{:x}` of an unsigned number. */
  function Print(n: nat, b: nat): (s: string)
    requires Base(b)
    ensures s != "" && forall i :: 0 <= i < |s| ==> IsDigit(s[i], b)
    decreases n
  {
    if n < b then [Digit(n)] else Print(n / b, b) + [Digit(n % b)]
  }

  /** The number a non-empty string of digits stands for. */
  function Read(s: string, b: nat): Option<nat>
    requires Base(b)
  {
    if s == "" then None
    else
      var last := s[|s| - 1];
      if !IsDigit(last, b) then None
      else if |s| == 1 then DigitValue(last)
      else
        match Read(s[..|s| - 1], b)
        case None => None
        case Some(n) => Some(n * b + DigitValue(last).value)
  }

  lemma DigitRoundTrip(d: nat)
    requires d < 16
    ensures DigitValue(Digit(d)) == Some(d)
  {
  }

  lemma {:induction false} ReadPrint(n: nat, b: nat)
    requires Base(b)
    ensures Read(Print(n, b), b) == Some(n)
    decreases n
  {
    if n < b {
      DigitRoundTrip(n);
    } else {
      ReadPrint(n / b, b);
      DigitRoundTrip(n % b);
      var front, last := Print(n / b, b), Digit(n % b);
      ReadMore(front, last, b);
      assert n / b * b + n % b == n;
    }
  }

  lemma ReadMore(front: string, last: char, b: nat)
    requires Base(b) && front != "" && IsDigit(last, b) && Read(front, b).Some?
    ensures Read(front + [last], b) == Some(Read(front, b).value * b + DigitValue(last).value)
  {
    var s := front + [last];
    assert s[..|s| - 1] == front;
  }

  // ---- numerals with leading zeros -------------------------------------------------------

  function Zeros(k: nat): string {
    seq(k, _ => '0')
  }

  predicate IsDecimal(s: string) {
    s != "" && forall i :: 0 <= i < |s| ==> '0' <= s[i] <= '9'
  }

  /** s is the decimal numeral of n, perhaps behind leading zeros. */
  ghost predicate IsNumeralOf(s: string, n: nat) {
    exists k: nat :: s == Zeros(k) + Print(n, 10)
  }

  lemma {:induction false} ZerosAreZero(k: nat)
    requires k > 0
    ensures Read(Zeros(k), 10) == Some(0)
  {
    if k == 1 {
      assert Zeros(1) == "0";
    } else {
      ZerosAreZero(k - 1);
      assert Zeros(k) == Zeros(k - 1) + ['0'];
      ReadMore(Zeros(k - 1), '0', 10);
    }
  }

  lemma {:induction false} PrintIsDecimal(n: nat)
    ensures IsDecimal(Print(n, 10))
  {
    var s := Print(n, 10);
    forall i | 0 <= i < |s| ensures '0' <= s[i] <= '9' {
      assert IsDigit(s[i], 10);
    }
  }

  lemma PrintedMore(n: nat)
    ensures Print(n, 10) == (if n < 10 then [] else Print(n / 10, 10)) + [Digit(n % 10)]
  {
  }

  lemma MoreBehind(zeros: string, front: string, c: char)
    ensures zeros + (front + [c]) == (zeros + front) + [c]
  {
  }

  lemma {:induction false} NumeralIsRead(k: nat, n: nat)
    ensures Read(Zeros(k) + Print(n, 10), 10) == Some(n)
    decreases n
  {
    var last, front := Digit(n % 10), if n < 10 then [] else Print(n / 10, 10);
    DigitRoundTrip(n % 10);
    PrintedMore(n);
    MoreBehind(Zeros(k), front, last);
    if n >= 10 {
      NumeralIsRead(k, n / 10);
      assert Zeros(k) + front != "";
      hide Read;
      hide Print;
      ReadMore(Zeros(k) + front, last, 10);
    } else if k == 0 {
      assert Zeros(0) + [] == "";
      OneDigitIsRead(last);
    } else {
      ZerosAreZero(k);
      hide Read;
      hide Print;
      assert Zeros(k) + [] == Zeros(k) != "";
      ReadMore(Zeros(k), last, 10);
    }
  }

  lemma OneDigitIsRead(c: char)
    requires IsDigit(c, 10)
    ensures Read("" + [c], 10) == DigitValue(c)
  {
    assert "" + [c] == [c];
  }

  lemma DecimalDigit(c: char)
    requires '0' <= c <= '9'
    ensures IsDigit(c, 10) && DigitValue(c).value < 10 && Digit(DigitValue(c).value) == c
  {
  }

  lemma {:induction false} ReadIsNumeral(s: string)
    requires IsDecimal(s)
    ensures Read(s, 10).Some? && IsNumeralOf(s, Read(s, 10).value)
    decreases |s|
  {
    var last := s[|s| - 1];
    DecimalDigit(last);
    var d := DigitValue(last).value;
    if |s| == 1 {
      assert s == Zeros(0) + Print(d, 10);
    } else {
      var front := s[..|s| - 1];
      assert s == front + [last];
      ReadIsNumeral(front);
      ReadMore(front, last, 10);
      LongerNumeral(front, Read(front, 10).value, d);
    }
  }

  lemma LongerNumeral(front: string, m: nat, d: nat)
    requires IsNumeralOf(front, m) && d < 10
    ensures IsNumeralOf(front + [Digit(d)], 10 * m + d)
  {
    var k: nat :| front == Zeros(k) + Print(m, 10);
    if m == 0 {
      assert front + [Digit(d)] == Zeros(k + 1) + Print(d, 10);
    } else {
      assert (10 * m + d) / 10 == m && (10 * m + d) % 10 == d;
      assert front + [Digit(d)] == Zeros(k) + Print(10 * m + d, 10);
    }
  }

  /** Reading decimal digits gives n exactly if they are the numeral of n. */
  lemma ReadIffNumeral(s: string, n: nat)
    ensures IsDecimal(s) && Read(s, 10) == Some(n) <==> IsNumeralOf(s, n)
  {
    if IsDecimal(s) {
      ReadIsNumeral(s);
    }
    if k: nat :| s == Zeros(k) + Print(n, 10) {
      NumeralIsRead(k, n);
      PrintIsDecimal(n);
    }
  }
}
