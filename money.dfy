/**
 * The grand-total label of the order form: "Rp. " followed by the total
 * written as PHP's number_format($total, 0, '.', '.') writes a non-negative
 * integer, i.e. decimal digits with a '.' between every group of three
 * digits counted from the right, and no decimal part.
 */
module Money {
  import opened Wrappers

  predicate IsDigit(c: char) { '0' <= c <= '9' }

  predicate AllDigits(s: string) { forall i :: 0 <= i < |s| ==> IsDigit(s[i]) }

  function DigitChar(d: nat): (c: char)
    requires d < 10
    ensures IsDigit(c)
  {
    ('0' as int + d) as char
  }

  function DigitValue(c: char): (d: nat)
    requires IsDigit(c)
    ensures d < 10
  {
    c as int - '0' as int
  }

  /** Plain decimal representation of n: no separators, no leading zero. */
  function Decimal(n: nat): (s: string)
    ensures 1 <= |s| && AllDigits(s)
    ensures s[0] == '0' ==> n == 0
    ensures n < 10 <==> |s| == 1
  {
    if n < 10 then [DigitChar(n)] else Decimal(n / 10) + [DigitChar(n % 10)]
  }

  /** Reads a string of decimal digits back as a number (the empty string reads as 0). */
  function ValueOf(s: string): nat
    requires AllDigits(s)
  {
    if s == [] then 0 else ValueOf(s[..|s| - 1]) * 10 + DigitValue(s[|s| - 1])
  }

  /** The last three digits of a number below 1000, zero-padded. */
  function Pad3(k: nat): (s: string)
    requires k < 1000
    ensures |s| == 3 && AllDigits(s)
  {
    [DigitChar(k / 100), DigitChar(k / 10 % 10), DigitChar(k % 10)]
  }

  /** number_format(n, 0, '.', '.') for a non-negative integer n. */
  function Thousands(n: nat): (g: string)
    ensures 1 <= |g| && IsDigit(g[0]) && IsDigit(g[|g| - 1])
  {
    if n < 1000 then Decimal(n) else Thousands(n / 1000) + "." + Pad3(n % 1000)
  }

  /**
   * The label the grand-total placeholder shows for a total: "Rp. " and
   * the formatted total, from which ParseDisplay reads the total back.
   */
  function Display(total: nat): (s: string)
    ensures |s| >= 5 && s[..4] == "Rp. "
    ensures ParseDisplay(s) == Some(total)
  {
    var s := "Rp. " + Thousands(total);
    assert s[..4] == "Rp. " && s[4..] == Thousands(total);
    ThousandsDigits(total);
    DecimalValue(total);
    s
  }

  /** The string with every '.' taken out. */
  function RemoveDots(s: string): (r: string)
    ensures |r| <= |s|
  {
    if s == [] then [] else (if s[0] == '.' then [] else [s[0]]) + RemoveDots(s[1..])
  }

  /**
   * The amount a label shows: "Rp. " must come first, the dots are dropped
   * and the remaining digits are read. It undoes Display, but it also
   * accepts dots in other places ("Rp. 1.2.3" reads as 123).
   */
  function ParseDisplay(s: string): Option<nat>
  {
    if |s| < 4 || s[..4] != "Rp. " then None
    else
      var digits := RemoveDots(s[4..]);
      if digits != [] && AllDigits(digits) then Some(ValueOf(digits)) else None
  }

  lemma {:induction false} DecimalValue(n: nat)
    ensures ValueOf(Decimal(n)) == n
  {
    if n >= 10 {
      var s := Decimal(n);
      assert s[..|s| - 1] == Decimal(n / 10);
      DecimalValue(n / 10);
    }
  }

  lemma {:induction false} RemoveDotsAppend(a: string, b: string)
    ensures RemoveDots(a + b) == RemoveDots(a) + RemoveDots(b)
  {
    if a != [] {
      var head := if a[0] == '.' then [] else [a[0]];
      assert (a + b)[0] == a[0] && (a + b)[1..] == a[1..] + b;
      RemoveDotsAppend(a[1..], b);
      calc {
        RemoveDots(a + b);
        head + RemoveDots(a[1..] + b);
        head + (RemoveDots(a[1..]) + RemoveDots(b));
        (head + RemoveDots(a[1..])) + RemoveDots(b);
        RemoveDots(a) + RemoveDots(b);
      }
    } else {
      assert a + b == b;
    }
  }

  lemma {:induction false} RemoveDotsOfDigits(s: string)
    requires AllDigits(s)
    ensures RemoveDots(s) == s
  {
    if s != [] {
      RemoveDotsOfDigits(s[1..]);
    }
  }

  // Quotient and remainder by a constant are determined by x == d * q + m with 0 <= m < d.

  lemma DivMod10(x: nat, q: nat, m: nat)
    requires m < 10 && x == 10 * q + m
    ensures x / 10 == q && x % 10 == m
  {
  }

  lemma DivMod100(x: nat, q: nat, m: nat)
    requires m < 100 && x == 100 * q + m
    ensures x / 100 == q && x % 100 == m
  {
  }

  lemma DivMod1000(x: nat, q: nat, m: nat)
    requires m < 1000 && x == 1000 * q + m
    ensures x / 1000 == q && x % 1000 == m
  {
  }

  /** For n >= 1000 the decimal digits split into those of n / 1000 and three more. */
  lemma DecimalSplit(n: nat)
    requires n >= 1000
    ensures Decimal(n) == Decimal(n / 1000) + Pad3(n % 1000)
  {
    var m1 := n / 10;
    var m2 := m1 / 10;
    var q := m2 / 10;
    var c, b, a := n % 10, m1 % 10, m2 % 10;
    var r := 100 * a + 10 * b + c;
    assert n == 1000 * q + r;
    DivMod1000(n, q, r);
    DivMod100(r, a, 10 * b + c);
    DivMod10(r, 10 * a + b, c);
    DivMod10(10 * a + b, a, b);
    assert Pad3(r) == [DigitChar(a), DigitChar(b), DigitChar(c)];
    assert m1 >= 100 && m2 >= 10;
    calc {
      Decimal(n);
      Decimal(m1) + [DigitChar(c)];
      Decimal(m2) + [DigitChar(b)] + [DigitChar(c)];
      Decimal(q) + [DigitChar(a)] + [DigitChar(b)] + [DigitChar(c)];
      Decimal(q) + Pad3(r);
    }
  }

  /** Taking the dots out of the formatted total gives its plain decimal digits. */
  lemma {:induction false} ThousandsDigits(n: nat)
    ensures RemoveDots(Thousands(n)) == Decimal(n)
  {
    if n < 1000 {
      RemoveDotsOfDigits(Decimal(n));
    } else {
      ThousandsDigits(n / 1000);
      RemoveDotsAppend(Thousands(n / 1000) + ".", Pad3(n % 1000));
      RemoveDotsAppend(Thousands(n / 1000), ".");
      RemoveDotsOfDigits(Pad3(n % 1000));
      DecimalSplit(n);
    }
  }

  lemma {:induction false} DecimalShort(n: nat)
    requires n < 1000
    ensures |Decimal(n)| <= 3
  {
    if n >= 10 {
      DecimalShort(n / 10);
    }
  }

  lemma ShortRemainder(j: int)
    requires 1 <= j <= 3
    ensures j % 4 != 0
  {
  }

  /** The dot rule of ThousandsShape for one character of h + "." + p, |p| == 3. */
  lemma ShapeStep(h: string, p: string, i: nat)
    requires |p| == 3 && AllDigits(p)
    requires forall j :: 0 <= j < |h| ==> (h[j] == '.' <==> (|h| - j) % 4 == 0)
    requires forall j :: 0 <= j < |h| ==> h[j] == '.' || IsDigit(h[j])
    requires i < |h| + 4
    ensures var g := h + "." + p;
      (g[i] == '.' <==> (|g| - i) % 4 == 0) && (g[i] == '.' || IsDigit(g[i]))
  {
    var g := h + "." + p;
    if i < |h| {
      assert g[i] == h[i];
      assert (|g| - i) % 4 == (|h| - i) % 4;
    } else if i > |h| {
      assert g[i] == p[i - |h| - 1];
      ShortRemainder(|g| - i);
    }
  }

  /**
   * Shape of the formatted total: every character is a digit or a dot, and
   * a character is a dot exactly when the number of characters from it to
   * the end is a multiple of 4, i.e. a dot stands before every group of
   * three digits counted from the right; the length is never a multiple of
   * 4, so no dot comes first.
   */
  lemma {:induction false} ThousandsShape(n: nat)
    ensures var g := Thousands(n);
      1 <= |g| && |g| % 4 != 0 &&
      (forall i :: 0 <= i < |g| ==> (g[i] == '.' <==> (|g| - i) % 4 == 0)) &&
      (forall i :: 0 <= i < |g| ==> g[i] == '.' || IsDigit(g[i]))
  {
    var g := Thousands(n);
    if n < 1000 {
      DecimalShort(n);
      ShortRemainder(|g|);
      forall i | 0 <= i < |g| ensures g[i] != '.' && (|g| - i) % 4 != 0 {
        ShortRemainder(|g| - i);
      }
    } else {
      var h := Thousands(n / 1000);
      var p := Pad3(n % 1000);
      ThousandsShape(n / 1000);
      assert g == h + "." + p;
      forall i | 0 <= i < |g|
        ensures (g[i] == '.' <==> (|g| - i) % 4 == 0) && (g[i] == '.' || IsDigit(g[i]))
      {
        ShapeStep(h, p, i);
      }
      assert |g| == |h| + 4;
    }
  }

  /** The label for a missing or empty item list. */
  lemma DisplayZero()
    ensures Display(0) == "Rp. 0"
  {
  }

  /** The thousands separator at work: 30000 is shown as "Rp. 30.000". */
  lemma DisplayThirtyThousand()
    ensures Display(30000) == "Rp. 30.000"
  {
  }
}
