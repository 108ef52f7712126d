/** Decimal printing and parsing of naturals, and zero padding. */
module Decimal {
  import opened Ordering

  function Digit(d: nat): char
    requires d < 10
  {
    '0' + d as char
  }

  predicate IsDigit(c: char) { '0' <= c <= '9' }

  function Value(c: char): nat
    requires IsDigit(c)
  {
    (c - '0') as nat
  }

  /** `str(n)`. */
  function Print(n: nat): string {
    if n < 10 then [Digit(n)] else Print(n / 10) + [Digit(n % 10)]
  }

  predicate AllDigits(s: string) { forall i | 0 <= i < |s| :: IsDigit(s[i]) }

  /** `int(s)` on digits. */
  function Parse(s: string): nat
    requires AllDigits(s)
  {
    if s == [] then 0 else 10 * Parse(s[..|s| - 1]) + Value(s[|s| - 1])
  }

  lemma {:induction false} PrintParse(n: nat)
    ensures Print(n) != [] && AllDigits(Print(n)) && Parse(Print(n)) == n
  {
    if n >= 10 {
      PrintParse(n / 10);
      assert Print(n)[..|Print(n)| - 1] == Print(n / 10);
    } else {
      assert [Digit(n)][..0] == [];
      assert Parse([Digit(n)]) == 10 * Parse([Digit(n)][..0]) + n;
    }
  }

  lemma PrintInjective(a: nat, b: nat)
    requires Print(a) == Print(b)
    ensures a == b
  {
    PrintParse(a);
    PrintParse(b);
  }

  function Pow10(k: nat): nat { if k == 0 then 1 else 10 * Pow10(k - 1) }

  function Zeros(k: nat): string { seq(k, _ => '0') }

  /** `f"{n:0{width}d}"`. */
  function Pad(n: nat, width: nat): string {
    var s := Print(n);
    if |s| < width then Zeros(width - |s|) + s else s
  }

  /** The low `width` digits, written out: equal to the padding while the number fits. */
  function Fixed(n: nat, width: nat): string {
    if width == 0 then [] else Fixed(n / 10, width - 1) + [Digit(n % 10)]
  }

  lemma {:induction false} FixedOfZero(width: nat)
    ensures Fixed(0, width) == Zeros(width)
  {
    if width > 0 {
      FixedOfZero(width - 1);
      assert Zeros(width) == Zeros(width - 1) + ['0'];
    }
  }

  lemma {:induction false} PadIsFixed(n: nat, width: nat)
    requires width > 0 && n < Pow10(width)
    ensures Pad(n, width) == Fixed(n, width) && |Print(n)| <= width
  {
    if n < 10 {
      FixedOfZero(width - 1);
    } else {
      assert width > 1;
      PadIsFixed(n / 10, width - 1);
      var s := Print(n / 10);
      if |s| < width - 1 {
        assert Zeros(width - 1 - |s|) + s + [Digit(n % 10)] == Zeros(width - 1 - |s|) + (s + [Digit(n % 10)]);
      }
    }
  }

  lemma FixedLength(n: nat, width: nat)
    ensures |Fixed(n, width)| == width
  {
  }

  lemma {:induction false} LeqAppend(a: string, b: string, x: char, y: char)
    requires |a| == |b|
    ensures StrLeq(a + [x], b + [y]) <==> (if a == b then x <= y else StrLeq(a, b))
    decreases a
  {
    if a == [] {
      assert a + [x] == [x] && b + [y] == [y];
      assert [x][1..] == [] && [y][1..] == [];
    } else {
      assert (a + [x])[1..] == a[1..] + [x] && (b + [y])[1..] == b[1..] + [y];
      LeqAppend(a[1..], b[1..], x, y);
      assert a == [a[0]] + a[1..] && b == [b[0]] + b[1..];
    }
  }

  lemma {:induction false} FixedOrder(a: nat, b: nat, width: nat)
    requires a < Pow10(width) && b < Pow10(width)
    ensures StrLeq(Fixed(a, width), Fixed(b, width)) <==> a <= b
    ensures Fixed(a, width) == Fixed(b, width) <==> a == b
  {
    if width > 0 {
      FixedOrder(a / 10, b / 10, width - 1);
      FixedLength(a / 10, width - 1);
      FixedLength(b / 10, width - 1);
      var fa, fb := Fixed(a / 10, width - 1), Fixed(b / 10, width - 1);
      LeqAppend(fa, fb, Digit(a % 10), Digit(b % 10));
      assert (fa + [Digit(a % 10)])[..width - 1] == fa && (fb + [Digit(b % 10)])[..width - 1] == fb;
      assert (fa + [Digit(a % 10)])[width - 1] == Digit(a % 10) && (fb + [Digit(b % 10)])[width - 1] == Digit(b % 10);
    }
  }

  /** Zero padding makes string order agree with number order, as long as the numbers fit. */
  lemma PadOrder(a: nat, b: nat, width: nat)
    requires width > 0 && a < Pow10(width) && b < Pow10(width)
    ensures StrLeq(Pad(a, width), Pad(b, width)) <==> a <= b
    ensures Pad(a, width) == Pad(b, width) <==> a == b
  {
    PadIsFixed(a, width);
    PadIsFixed(b, width);
    FixedOrder(a, b, width);
  }
}
