/**
 * The parts of Java's `int` that the increment rule relies on:
 * `Integer.parseInt`, `Integer.toString` and 32-bit wrap-around addition.
 */
module JavaInt {
  import opened Wrappers

  const MIN_INT: int := -0x8000_0000
  const MAX_INT: int := 0x7fff_ffff
  const TWO_TO_32: int := 0x1_0000_0000

  /** A value of Java's `int`. */
  type Int32 = n: int | MIN_INT <= n <= MAX_INT

  predicate IsDigit(c: char) {
    '0' <= c <= '9'
  }

  predicate AllDigits(s: string) {
    forall i | 0 <= i < |s| :: IsDigit(s[i])
  }

  function DigitValue(c: char): nat
    requires IsDigit(c)
  {
    (c as int) - ('0' as int)
  }

  function DigitChar(d: nat): char
    requires d < 10
  {
    ('0' as int + d) as char
  }

  /**
   * The loop of `parseInt`: reads the digits left to right, multiplying what
   * it has by ten before adding each one, and gives up at the first
   * character that is not a decimal digit.
   */
  function ParseDigits(acc: nat, ds: string): Option<nat>
    decreases |ds|
  {
    if ds == [] then Some(acc)
    else if !IsDigit(ds[0]) then None
    else ParseDigits(acc * 10 + DigitValue(ds[0]), ds[1..])
  }

  /** An optional sign followed by one or more decimal digits. */
  predicate IsIntSyntax(s: string) {
    && |s| > 0
    && var body := if s[0] == '-' || s[0] == '+' then s[1..] else s;
       |body| > 0 && AllDigits(body)
  }

  /**
   * `Integer.parseInt(s)`: an optional `-` or `+`, then at least one decimal
   * digit, and the value must fit in an `int`; anything else throws
   * `NumberFormatException`, modelled as `None`. Java rejects overflow while
   * it reads; since the magnitude read so far never shrinks, that is the
   * same as checking the final value.
   */
  function ParseInt(s: string): Option<Int32> {
    if |s| == 0 then None
    else
      var negative := s[0] == '-';
      var body := if s[0] == '-' || s[0] == '+' then s[1..] else s;
      if |body| == 0 then None
      else
        match ParseDigits(0, body)
        case None => None
        case Some(magnitude) =>
          var v: int := if negative then -(magnitude as int) else magnitude;
          if MIN_INT <= v <= MAX_INT then Some(v) else None
  }

  /** Decimal numeral of a natural number, without leading zeros. */
  function NatToString(n: nat): (s: string)
    ensures |s| > 0 && AllDigits(s)
    ensures s[0] == '0' ==> n == 0
    decreases n
  {
    if n < 10 then [DigitChar(n)] else NatToString(n / 10) + [DigitChar(n % 10)]
  }

  /** `Integer.toString(n)`: a `-` for negative numbers, then the magnitude. */
  function IntToString(n: int): string {
    if n < 0 then "-" + NatToString(-n) else NatToString(n)
  }

  /** Reduces a mathematical integer to the `int` Java's `+` produces. */
  function Wrap(x: int): (r: Int32)
    ensures (r - x) % TWO_TO_32 == 0
    ensures MIN_INT <= x <= MAX_INT ==> r == x
  {
    (x - MIN_INT) % TWO_TO_32 + MIN_INT
  }

  /**
   * Java's `int` addition: the sum of two `int`s is at most one lap of
   * 2^32 outside the range, so it is brought back by one step.
   */
  function AddInt(a: Int32, b: Int32): Int32 {
    var s := a as int + b;
    if s > MAX_INT then s - TWO_TO_32 else if s < MIN_INT then s + TWO_TO_32 else s
  }

  /** The digit loop succeeds exactly on strings of decimal digits. */
  lemma {:induction false} ParseDigitsAccepts(acc: nat, ds: string)
    ensures ParseDigits(acc, ds).Some? <==> AllDigits(ds)
    decreases |ds|
  {
    if ds != [] && IsDigit(ds[0]) {
      ParseDigitsAccepts(acc * 10 + DigitValue(ds[0]), ds[1..]);
      assert AllDigits(ds) <==> AllDigits(ds[1..]) by {
        assert forall i | 1 <= i < |ds| :: ds[i] == ds[1..][i - 1];
      }
    }
  }

  /**
   * The value of a digit string read right to left: the digits before the
   * last one, times ten, plus the last one.
   */
  function DigitsValue(ds: string): nat
    requires AllDigits(ds)
    decreases |ds|
  {
    if ds == [] then 0 else DigitsValue(ds[..|ds| - 1]) * 10 + DigitValue(ds[|ds| - 1])
  }

  /** The value an optionally signed digit string denotes, before any range check. */
  function SignedValue(s: string): int
    requires IsIntSyntax(s)
  {
    var body := if s[0] == '-' || s[0] == '+' then s[1..] else s;
    if s[0] == '-' then -(DigitsValue(body) as int) else DigitsValue(body)
  }

  /**
   * `parseInt` succeeds exactly on an optional sign followed by digits whose
   * value fits in an `int`, and then returns that value; a numeral out of
   * range throws rather than wrapping.
   */
  lemma ParseIntAccepts(s: string)
    ensures ParseInt(s).Some? ==> IsIntSyntax(s) && ParseInt(s).value == SignedValue(s)
    ensures IsIntSyntax(s) && MIN_INT <= SignedValue(s) <= MAX_INT ==> ParseInt(s).Some?
  {
    if |s| > 0 {
      var body := if s[0] == '-' || s[0] == '+' then s[1..] else s;
      ParseDigitsAccepts(0, body);
      if AllDigits(body) {
        ParseDigitsValue(body);
      }
    }
  }

  /** Appending a digit multiplies the value read so far by ten and adds the digit. */
  lemma {:induction false} ParseDigitsSnoc(acc: nat, ds: string, c: char, m: nat)
    requires ParseDigits(acc, ds) == Some(m) && IsDigit(c)
    ensures ParseDigits(acc, ds + [c]) == Some(m * 10 + DigitValue(c))
    decreases |ds|
  {
    if ds == [] {
      assert [] + [c] == [c] && [c][1..] == [];
    } else {
      assert (ds + [c])[1..] == ds[1..] + [c];
      ParseDigitsSnoc(acc * 10 + DigitValue(ds[0]), ds[1..], c, m);
    }
  }

  /** The digit loop computes the right-to-left value of the digits. */
  lemma {:induction false} ParseDigitsValue(ds: string)
    requires AllDigits(ds)
    ensures ParseDigits(0, ds) == Some(DigitsValue(ds))
    decreases |ds|
  {
    if ds != [] {
      var init := ds[..|ds| - 1];
      ParseDigitsValue(init);
      ParseDigitsSnoc(0, init, ds[|ds| - 1], DigitsValue(init));
      assert init + [ds[|ds| - 1]] == ds;
    }
  }

  lemma {:induction false} NatToStringValue(n: nat)
    ensures ParseDigits(0, NatToString(n)) == Some(n)
    decreases n
  {
    if n >= 10 {
      var prefix := NatToString(n / 10);
      var last := DigitChar(n % 10);
      assert NatToString(n) == prefix + [last];
      assert DigitValue(last) == n % 10;
      NatToStringValue(n / 10);
      ParseDigitsSnoc(0, prefix, last, n / 10);
    } else {
      var s := NatToString(n);
      assert s == [DigitChar(n)] && s[1..] == [];
      assert DigitValue(DigitChar(n)) == n;
    }
  }

  /** `Integer.parseInt(Integer.toString(n)) == n` for every `int` n. */
  lemma ParseIntToString(n: Int32)
    ensures ParseInt(IntToString(n)) == Some(n)
  {
    if n < 0 {
      var m: nat := -(n as int);
      NatToStringValue(m);
      ParseNumeral("-", NatToString(m), m);
    } else {
      NatToStringValue(n);
      ParseNumeral("", NatToString(n), n);
    }
  }

  /** `parseInt` of a sign (or none) followed by a digit string reads the digits' value. */
  lemma ParseNumeral(sign: string, digits: string, m: nat)
    requires sign == "-" || sign == ""
    requires |digits| > 0 && IsDigit(digits[0]) && ParseDigits(0, digits) == Some(m)
    requires MIN_INT <= (if sign == "-" then -(m as int) else m) <= MAX_INT
    ensures ParseInt(sign + digits) == Some(if sign == "-" then -(m as int) else m)
  {
    var s := sign + digits;
    if sign == "-" {
      assert s[0] == '-' && s[1..] == digits;
    } else {
      assert s == digits && IsDigit(s[0]);
    }
  }

  /** Java's `int` addition is associative under wrapping: adding in two steps equals adding once. */
  lemma {:induction false} WrapAddWrap(x: int, y: int)
    ensures Wrap(Wrap(x) + y) == Wrap(x + y)
  {
    var k := (Wrap(x) - x) / TWO_TO_32;
    assert Wrap(x) == x + k * TWO_TO_32;
    ShiftMod(x + y - MIN_INT, k);
  }

  /** Two wrapping additions in a row equal one wrapping addition of the total. */
  lemma WrapAddTwice(x: int, a: int, b: int)
    ensures Wrap(Wrap(x + a) + b) == Wrap(x + a + b)
  {
    var s := x + a;
    WrapAddWrap(s, b);
  }

  /** Java's `+` on `int` is the mathematical sum reduced modulo 2^32 into the `int` range. */
  lemma AddIntWraps(a: Int32, b: Int32)
    ensures AddInt(a, b) == Wrap(a + b)
  {
  }

  /** Two `int` additions in a row equal one wrapping addition of the exact total. */
  lemma AddIntTwice(x: Int32, a: Int32, b: Int32)
    ensures AddInt(AddInt(x, a), b) == Wrap(x + a + b)
  {
    AddIntWraps(x, a);
    AddIntWraps(AddInt(x, a), b);
    WrapAddTwice(x, a, b);
  }

  lemma ShiftMod(a: int, k: int)
    ensures (a + k * TWO_TO_32) % TWO_TO_32 == a % TWO_TO_32
  {
    var q := a / TWO_TO_32;
    var r := a % TWO_TO_32;
    assert a + k * TWO_TO_32 == (q + k) * TWO_TO_32 + r;
  }

  /** Concrete cases of `Integer.parseInt`: the accepted forms and the rejected ones. */
  lemma ParseIntExamples()
    ensures ParseInt("10") == Some(10)
    ensures ParseInt("-1") == Some(-1)
    ensures ParseInt("+007") == Some(7)
    ensures ParseInt("A") == None
    ensures ParseInt("-") == None
    ensures ParseInt("") == None
    ensures ParseInt(" 5") == None
  {
    assert "10"[1..] == "0" && "0"[1..] == "";
    assert "007"[1..] == "07" && "07"[1..] == "7" && "7"[1..] == "";
    assert "-007"[1..] == "007";
    assert "+007"[1..] == "007";
    assert "-1"[1..] == "1" && "1"[1..] == "";
  }

  /** The digit loop reads the numeral one past `MAX_VALUE`. */
  lemma DigitsPastMax()
    ensures ParseDigits(0, "2147483648") == Some(MAX_INT + 1)
  {
    assert ParseDigits(214748364, "8") == Some(2147483648) by { assert "8"[1..] == ""; }
    assert ParseDigits(21474836, "48") == Some(2147483648) by { assert "48"[1..] == "8"; }
    assert ParseDigits(2147483, "648") == Some(2147483648) by { assert "648"[1..] == "48"; }
    assert ParseDigits(214748, "3648") == Some(2147483648) by { assert "3648"[1..] == "648"; }
    assert ParseDigits(21474, "83648") == Some(2147483648) by { assert "83648"[1..] == "3648"; }
    assert ParseDigits(2147, "483648") == Some(2147483648) by { assert "483648"[1..] == "83648"; }
    assert ParseDigits(214, "7483648") == Some(2147483648) by { assert "7483648"[1..] == "483648"; }
    assert ParseDigits(21, "47483648") == Some(2147483648) by { assert "47483648"[1..] == "7483648"; }
    assert ParseDigits(2, "147483648") == Some(2147483648) by { assert "147483648"[1..] == "47483648"; }
    assert ParseDigits(0, "2147483648") == Some(2147483648) by { assert "2147483648"[1..] == "147483648"; }
  }

  /** One past `MAX_VALUE` is rejected rather than wrapped. */
  lemma ParseIntPastMax()
    ensures ParseInt("2147483648") == None
  {
    var d := "2147483648";
    DigitsPastMax();
    assert d[0] != '-' && d[0] != '+';
  }

  /** `MIN_VALUE` itself is read. */
  lemma ParseIntMin()
    ensures ParseInt("-2147483648") == Some(MIN_INT)
  {
    DigitsPastMax();
    ParseNumeral("-", "2147483648", MAX_INT + 1);
    assert "-" + "2147483648" == "-2147483648";
  }

  /** The overflow Java leaves silent: `MAX_VALUE + 1` is `MIN_VALUE`. */
  lemma WrapOverflow()
    ensures Wrap(MAX_INT + 1) == MIN_INT
    ensures Wrap(MIN_INT - 1) == MAX_INT
  {
  }
}
