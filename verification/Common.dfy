/** Small types shared by the models, and decimal printing of integers with its inverse. */
module Common {
  datatype Option<+T> = None | Some(value: T)

  datatype Result<+T, +E> = Ok(value: T) | Err(error: E)

  type u32 = x: int | 0 <= x < 0x1_0000_0000

  function Max(a: int, b: int): int { if a < b then b else a }

  function Min(a: int, b: int): int { if a < b then a else b }

  /** Rust's `saturating_add` on u32. */
  function SatAdd(a: u32, b: u32): (r: u32)
    ensures r <= a + b
  {
    Min(a + b, 0xFFFF_FFFF)
  }

  /** Rust's `saturating_mul` on u32. */
  function SatMul(a: u32, b: u32): (r: u32)
    ensures r <= a * b
  {
    Min(a * b, 0xFFFF_FFFF)
  }

  // ---------------------------------------------------------------- decimal numerals

  predicate IsDigit(c: char) { '0' <= c <= '9' }

  function DigitValue(c: char): (d: nat)
    requires IsDigit(c)
    ensures d < 10
  {
    c as int - '0' as int
  }

  function DigitChar(d: nat): (c: char)
    requires d < 10
    ensures IsDigit(c) && DigitValue(c) == d
  {
    (d + '0' as int) as char
  }

  predicate AllDigits(s: string) { forall i :: 0 <= i < |s| ==> IsDigit(s[i]) }

  /** The numeral of a natural number, most significant digit first. */
  function Decimal(n: nat): (s: string)
    ensures s != [] && AllDigits(s)
    ensures s[0] == '0' ==> n == 0
    ensures n < 10 ==> |s| == 1
  {
    if n < 10 then [DigitChar(n)] else Decimal(n / 10) + [DigitChar(n % 10)]
  }

  function DecimalValue(s: string): nat
    requires AllDigits(s)
  {
    if s == [] then 0 else 10 * DecimalValue(s[..|s| - 1]) + DigitValue(s[|s| - 1])
  }

  lemma {:induction false} DecimalRoundTrip(n: nat)
    ensures DecimalValue(Decimal(n)) == n
  {
    if n >= 10 {
      DecimalRoundTrip(n / 10);
      assert Decimal(n)[..|Decimal(n)| - 1] == Decimal(n / 10);
    } else {
      assert DecimalValue([]) == 0;
    }
  }

  /** The numeral of an integer, as `strconv.Itoa`, `%d` and `std::to_string` print it. */
  function Itoa(n: int): (s: string)
    ensures s != []
    ensures s[0] == '-' <==> n < 0
    ensures forall i :: 0 <= i < |s| ==> IsDigit(s[i]) || s[i] == '-'
  {
    if n < 0 then ['-'] + Decimal(-n) else Decimal(n)
  }

  lemma ItoaInjective(a: int, b: int)
    requires Itoa(a) == Itoa(b)
    ensures a == b
  {
    if a < 0 {
      assert Itoa(a)[1..] == Itoa(b)[1..];
      DecimalInjective(-a, -b);
    } else {
      DecimalInjective(a, b);
    }
  }

  lemma DecimalInjective(a: nat, b: nat)
    requires Decimal(a) == Decimal(b)
    ensures a == b
  {
    DecimalRoundTrip(a);
    DecimalRoundTrip(b);
  }

  // ---------------------------------------------------------------- composite keys

  /** Cutting at the first separator is unique when the head is free of it. */
  lemma CutFirst(a: string, a': string, sep: char, b: string, b': string)
    requires sep !in a && sep !in a' && a + [sep] + b == a' + [sep] + b'
    ensures a == a' && b == b'
  {
    var s := a + [sep] + b;
    assert s[|a|] == sep && s[|a'|] == sep;
    assert forall i :: 0 <= i < |a| ==> s[i] == a[i];
    assert forall i :: 0 <= i < |a'| ==> s[i] == a'[i];
    assert |a| == |a'|;
    assert a == s[..|a|] && a' == s[..|a|] && b == s[|a| + 1..] && b' == s[|a| + 1..];
  }

  /** Cutting at the last separator is unique when the tail is free of it. */
  lemma CutLast(a: string, a': string, sep: char, b: string, b': string)
    requires sep !in b && sep !in b' && a + [sep] + b == a' + [sep] + b'
    ensures a == a' && b == b'
  {
    var s := a + [sep] + b;
    assert s[|a|] == sep && s[|a'|] == sep;
    assert forall i :: |a| < i < |s| ==> s[i] == b[i - |a| - 1];
    assert forall i :: |a'| < i < |s| ==> s[i] == b'[i - |a'| - 1];
    assert |a| == |a'|;
    assert a == s[..|a|] && a' == s[..|a|] && b == s[|a| + 1..] && b' == s[|a| + 1..];
  }

  /** Lexicographic order on strings, as Go's `<` compares them. */
  predicate StrLess(a: string, b: string) {
    b != [] && (a == [] || a[0] < b[0] || (a[0] == b[0] && StrLess(a[1..], b[1..])))
  }

  lemma {:induction false} StrLessTotal(a: string, b: string)
    ensures StrLess(a, b) || StrLess(b, a) || a == b
    ensures !(StrLess(a, b) && StrLess(b, a)) && (a == b ==> !StrLess(a, b))
  {
    if a != [] && b != [] && a[0] == b[0] {
      StrLessTotal(a[1..], b[1..]);
      assert a == [a[0]] + a[1..] && b == [b[0]] + b[1..];
    }
  }
}
