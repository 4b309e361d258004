/**
 The number syntax of Go's strconv package, for the bases 10 (session tokens, byte ranges)
 and 16 (chunk sizes).
 */
module Numbers {
  import opened Order
  import opened Results

  const MAX_INT32 := 0x7fff_ffff
  const MAX_INT64 := 0x7fff_ffff_ffff_ffff
  const MAX_UINT64 := 0xffff_ffff_ffff_ffff

  /** int32(n): the low 32 bits as a signed number. */
  function ToInt32(n: int): (r: int)
    ensures -MAX_INT32 - 1 <= r <= MAX_INT32
    ensures -MAX_INT32 - 1 <= n <= MAX_INT32 ==> r == n
    ensures (n - r) % 0x1_0000_0000 == 0
  {
    var low := n % 0x1_0000_0000;
    if low <= MAX_INT32 then low else low - 0x1_0000_0000
  }

  type Base = b: nat | 2 <= b <= 16 witness 10

  /** The digit a character stands for; letters of either case count. */
  function Digit(c: char): Option<nat> {
    if '0' <= c <= '9' then Some(c as int - '0' as int)
    else if 'a' <= c <= 'z' then Some(c as int - 'a' as int + 10)
    else if 'A' <= c <= 'Z' then Some(c as int - 'A' as int + 10)
    else None
  }

  function DigitChar(d: nat): char
    requires d < 16
  {
    "0123456789abcdef"[d]
  }

  lemma DigitOfDigitChar(d: nat)
    requires d < 16
    ensures Digit(DigitChar(d)) == Some(d)
  {
    var digits := "0123456789abcdef";
    if d < 10 {
      assert digits[d] == '0' + d as char;
    } else {
      assert digits[d] == 'a' + (d - 10) as char;
    }
  }

  /** The value of a string of digits of the given base, if it is one. */
  function DigitsValue(s: string, base: Base): Option<nat> {
    if s == [] then Some(0)
    else
      var high := DigitsValue(s[..|s| - 1], base);
      var low := Digit(s[|s| - 1]);
      if high.Some? && low.Some? && low.value < base then Some(high.value * base + low.value) else None
  }

  /** strconv.ParseUint(s, base, 64): digits only, at least one, no overflow. */
  function ParseUint(s: string, base: Base): Option<nat> {
    if s == [] then None
    else
      var v := DigitsValue(s, base);
      if v.Some? && v.value <= MAX_UINT64 then v else None
  }

  /** strconv.ParseInt(s, base, 64): an optional sign, then digits, in the range of int64. */
  function ParseInt(s: string, base: Base): Option<int> {
    if s == [] then None
    else
      var signed := s[0] == '+' || s[0] == '-';
      match ParseUint(if signed then s[1..] else s, base)
      case None => None
      case Some(n) =>
        var magnitude: int := n;
        if s[0] == '-' then (if magnitude > MAX_INT64 + 1 then None else Some(-magnitude))
        else if magnitude > MAX_INT64 then None
        else Some(magnitude)
  }

  /** strconv.FormatUint: the digits of a number, most significant first. */
  function Format(n: nat, base: Base): (s: string)
    ensures s != []
    ensures forall c :: c in s ==> Digit(c).Some? && Digit(c).value < base
    decreases n
  {
    DigitOfDigitChar(n % base);
    if n < base then [DigitChar(n)]
    else
      assert n / base < n by { Shrinks(n, base); }
      Format(n / base, base) + [DigitChar(n % base)]
  }

  lemma Shrinks(n: nat, base: Base)
    requires base <= n
    ensures n / base < n
  {
    assert n == n / base * base + n % base;
  }

  /** Appending a digit to a numeral multiplies its value by the base and adds the digit. */
  lemma {:induction false} AppendDigit(s: string, d: nat, base: Base)
    requires d < base && DigitsValue(s, base).Some?
    ensures DigitsValue(s + [DigitChar(d)], base) == Some(DigitsValue(s, base).value * base + d)
  {
    DigitOfDigitChar(d);
    var t := s + [DigitChar(d)];
    assert t[..|t| - 1] == s;
  }

  lemma FormatUnfold(n: nat, base: Base) returns (high: nat, low: nat)
    requires base <= n
    ensures high < n && low < base && n == high * base + low
    ensures Format(n, base) == Format(high, base) + [DigitChar(low)]
  {
    Shrinks(n, base);
    high, low := n / base, n % base;
  }

  lemma {:induction false} FormatValue(n: nat, base: Base)
    ensures DigitsValue(Format(n, base), base) == Some(n)
    decreases n
  {
    if n < base {
      DigitOfDigitChar(n);
      assert Format(n, base)[..0] == [];
    } else {
      var high, low := FormatUnfold(n, base);
      FormatValue(high, base);
      AppendDigit(Format(high, base), low, base);
    }
  }

  /** A leading zero does not change the value of a numeral. */
  lemma {:induction false} LeadingZero(s: string, base: Base)
    ensures DigitsValue("0" + s, base) == DigitsValue(s, base)
  {
    var t := "0" + s;
    if s == "" {
      assert t == "0" && DigitsValue(t[..0], base) == Some(0);
    } else {
      LeadingZero(s[..|s| - 1], base);
      assert t[..|t| - 1] == "0" + s[..|s| - 1];
    }
  }

  /** Formatting and parsing are inverse on the whole range of uint64. */
  lemma {:induction false} ParseUintFormat(n: nat, base: Base)
    requires n <= MAX_UINT64
    ensures ParseUint(Format(n, base), base) == Some(n)
  {
    FormatValue(n, base);
  }

  /** Formatting and parsing are inverse on the non-negative range of int64. */
  lemma {:induction false} ParseIntFormat(n: nat, base: Base)
    requires n <= MAX_INT64
    ensures ParseInt(Format(n, base), base) == Some(n)
  {
    FormatValue(n, base);
    assert Digit(Format(n, base)[0]).Some?;
  }

  // ---------------------------------------------------------------- which strings are numerals

  function LowerChar(c: char): char {
    if 'A' <= c <= 'Z' then c - 'A' + 'a' else c
  }

  function Lower(s: string): (l: string)
    ensures |l| == |s| && forall i :: 0 <= i < |s| ==> l[i] == LowerChar(s[i])
  {
    seq(|s|, i requires 0 <= i < |s| => LowerChar(s[i]))
  }

  /** Some zeros in front of a string. */
  function Padded(zeros: nat, s: string): string {
    if zeros == 0 then s else "0" + Padded(zeros - 1, s)
  }

  /** The sixteen digits, in both cases. */
  lemma DigitIs(c: char, d: nat)
    requires d < 16
    ensures Digit(c) == Some(d) <==> LowerChar(c) == "0123456789abcdef"[d]
  {
    var digits := "0123456789abcdef";
    if d < 10 {
      assert digits[d] == '0' + d as char;
    } else {
      assert digits[d] == 'a' + (d - 10) as char;
    }
  }

  /** A numeral is read from the left, by its digits. */
  lemma {:induction false} SameDigitsSameValue(s: string, t: string, base: Base)
    requires Lower(s) == Lower(t)
    ensures DigitsValue(s, base) == DigitsValue(t, base)
  {
    if s != "" {
      var c, d := s[|s| - 1], t[|t| - 1];
      assert Lower(s)[|s| - 1] == Lower(t)[|s| - 1];
      assert Lower(s[..|s| - 1]) == Lower(s)[..|s| - 1] == Lower(t)[..|s| - 1] == Lower(t[..|t| - 1]);
      SameDigitsSameValue(s[..|s| - 1], t[..|t| - 1], base);
      assert Digit(c) == Digit(d);
    }
  }

  lemma {:induction false} PaddedValue(zeros: nat, s: string, base: Base)
    ensures DigitsValue(Padded(zeros, s), base) == DigitsValue(s, base)
  {
    if zeros > 0 {
      PaddedValue(zeros - 1, s, base);
      LeadingZero(Padded(zeros - 1, s), base);
    }
  }

  lemma {:induction false} PaddedAppend(zeros: nat, s: string, t: string)
    ensures Padded(zeros, s + t) == Padded(zeros, s) + t
  {
    if zeros > 0 {
      PaddedAppend(zeros - 1, s, t);
    }
  }

  /** A string of digits is the printed form of its value, up to case and zeros in front. */
  lemma {:induction false} DigitsAreNumeral(s: string, base: Base) returns (zeros: nat)
    requires s != "" && DigitsValue(s, base).Some?
    ensures Lower(s) == Padded(zeros, Format(DigitsValue(s, base).value, base))
  {
    var front := s[..|s| - 1];
    var d := LastDigit(s, base);
    if front == "" {
      zeros := 0;
      assert DigitsValue(front, base) == Some(0);
    } else {
      var v := DigitsValue(front, base).value;
      var k := DigitsAreNumeral(front, base);
      hide DigitsValue, Lower, Digit;
      if v == 0 {
        zeros := k + 1;
        assert Format(0, base) == "0" && Format(d, base) == [DigitChar(d)];
        hide Format, Padded;
        PaddedZero(k, [DigitChar(d)]);
      } else {
        zeros := k;
        hide Format, Padded;
        FormatAppend(v, d, base);
        PaddedAppend(k, Format(v, base), [DigitChar(d)]);
      }
    }
  }

  lemma LastDigit(s: string, base: Base) returns (d: nat)
    requires s != "" && DigitsValue(s, base).Some?
    ensures d < base && DigitsValue(s[..|s| - 1], base).Some?
    ensures DigitsValue(s, base).value == DigitsValue(s[..|s| - 1], base).value * base + d
    ensures Lower(s) == Lower(s[..|s| - 1]) + [DigitChar(d)]
  {
    d := Digit(s[|s| - 1]).value;
    DigitIs(s[|s| - 1], d);
    var t := Lower(s[..|s| - 1]) + [DigitChar(d)];
    forall i | 0 <= i < |s| ensures Lower(s)[i] == t[i] {
    }
  }

  lemma {:induction false} PaddedZero(zeros: nat, s: string)
    ensures Padded(zeros, "0") + s == Padded(zeros + 1, s)
  {
    if zeros > 0 {
      PaddedZero(zeros - 1, s);
      ConcatAssociative("0", Padded(zeros - 1, "0"), s);
    }
  }

  lemma FormatAppend(v: nat, d: nat, base: Base)
    requires 0 < v && d < base
    ensures Format(v * base + d, base) == Format(v, base) + [DigitChar(d)]
  {
    var n := v * base + d;
    assert n >= base by {
      assert v * base >= base;
    }
    assert n / base == v && n % base == d by { DivideAgain(v, d, base); }
  }

  lemma DivideAgain(v: nat, d: nat, base: Base)
    requires d < base
    ensures (v * base + d) / base == v && (v * base + d) % base == d
  {
    var n := v * base + d;
    var q, r := n / base, n % base;
    assert q * base + r == v * base + d && r < base;
    assert (q - v) * base == d - r;
    if q != v {
      MultipleIsLarge(q - v, base);
    }
  }

  lemma MultipleIsLarge(k: int, base: Base)
    requires k != 0
    ensures k * base >= base || k * base + base <= 0
  {
    if k > 0 {
      assert (k - 1) * base >= 0;
    } else {
      assert (-k - 1) * base >= 0;
    }
  }

  /**
   What parses as an unsigned number, exactly: the printed form of a number of 64 bits, in either
   case and with any zeros in front.
   */
  lemma {:induction false} ParseUintExactlyIf(s: string, base: Base, n: nat)
    ensures ParseUint(s, base) == Some(n) <==>
              n < 0x1_0000_0000_0000_0000 && exists zeros: nat :: Lower(s) == Padded(zeros, Format(n, base))
  {
    if ParseUint(s, base) == Some(n) {
      var zeros := DigitsAreNumeral(s, base);
    }
    if n <= MAX_UINT64 && exists zeros: nat :: Lower(s) == Padded(zeros, Format(n, base)) {
      var zeros: nat :| Lower(s) == Padded(zeros, Format(n, base));
      NumeralValue(s, base, n, zeros);
    }
  }

  lemma {:induction false} NumeralValue(s: string, base: Base, n: nat, zeros: nat)
    requires Lower(s) == Padded(zeros, Format(n, base))
    ensures s != "" && DigitsValue(s, base) == Some(n)
  {
    FormatValue(n, base);
    PaddedValue(zeros, Format(n, base), base);
    PaddedIsNotEmpty(zeros, Format(n, base));
    LowerTwice(s);
    SameDigitsSameValue(s, Lower(s), base);
  }

  lemma {:induction false} PaddedIsNotEmpty(zeros: nat, s: string)
    requires s != ""
    ensures Padded(zeros, s) != ""
  {
  }

  lemma LowerTwice(s: string)
    ensures Lower(Lower(s)) == Lower(s)
  {
  }

  /** Signed numbers: a sign may stand in front, and the range is that of 64 bits. */
  lemma ParseIntExactlyIf(s: string, base: Base, n: int)
    ensures ParseInt(s, base) == Some(n) <==>
              && s != "" && -0x8000_0000_0000_0000 <= n < 0x8000_0000_0000_0000
              && (if s[0] == '-' then n <= 0 && ParseUint(s[1..], base) == Some(-n)
                  else n >= 0 && ParseUint(if s[0] == '+' then s[1..] else s, base) == Some(n))
  {
  }

  /** Most significant digit first, letters from ten on. */
  lemma FormatExamples()
    ensures Format(0, 10) == "0" && Format(205, 10) == "205" && Format(0x1af, 16) == "1af"
  {
    assert Format(2, 10) == "2" && Format(20, 10) == "20";
    assert Format(1, 16) == "1" && Format(0x1a, 16) == "1a";
  }

  lemma {:induction false} DigitsOnly(s: string, base: Base)
    requires DigitsValue(s, base).Some?
    ensures forall c :: c in s ==> Digit(c).Some?
  {
    if s != [] {
      DigitsOnly(s[..|s| - 1], base);
      assert s == s[..|s| - 1] + [s[|s| - 1]];
    }
  }

  /** What parses as a number holds only digits after an optional sign. */
  lemma ParseIntCharacters(s: string, base: Base)
    requires ParseInt(s, base).Some?
    ensures forall c :: c in s ==> Digit(c).Some? || c == '+' || c == '-'
  {
    var signed := s[0] == '+' || s[0] == '-';
    DigitsOnly(if signed then s[1..] else s, base);
    assert s == [s[0]] + s[1..];
  }
}
