/**
 Byte ranges: resolving a Range header against an object, and printing a resolved range for
 a backend. Section 14.1.2 of RFC 9110 defines the syntax; where the gateway is more lenient
 or stricter the model follows the gateway.
 */
module Ranges {
  import opened Results
  import opened Text
  import opened Numbers

  datatype ByteRange = ByteRange(start: int, length: int)

  datatype RangeError = Unsatisfiable

  const UNIT := "bytes="

  /** The range as it is sent to a backend. */
  function Header(r: ByteRange): string
    requires 0 <= r.start && 1 <= r.length
  {
    UNIT + (Format(r.start, 10) + "-" + Format(r.start + r.length - 1, 10))
  }

  /** The Content-Range of a slice of an object of the given total size. */
  function ContentRange(start: int, length: int, total: int): string
    requires 0 <= start && 1 <= length && 0 <= total
  {
    "bytes " + Format(start, 10) + "-" + Format(start + length - 1, 10) + "/" + Format(total, 10)
  }

  predicate Inside(r: ByteRange, size: int) {
    0 <= r.start && 1 <= r.length && r.start + r.length <= size
  }

  type Resolution = Result<Option<ByteRange>, RangeError>

  /**
   Resolves a Range header; `None` means that the header is ignored and the whole object is
   served. A resolved range lies inside the object, so for sizes of int64 no sum or
   difference leaves int64.
   */
  function ParseByteRange(h: string, size: int): (r: Resolution)
    requires 0 <= size
    ensures r.Success? && r.value.Some? ==> Inside(r.value.value, size)
  {
    if !(UNIT <= h) then Success(None) else ParseSpec(h[|UNIT|..], size)
  }

  /** The part of a Range header behind the unit. */
  function ParseSpec(spec: string, size: int): (r: Resolution)
    requires 0 <= size
    ensures r.Success? && r.value.Some? ==> Inside(r.value.value, size)
  {
    if ',' in spec then Success(None)
    else
      match Find(spec, "-")
      case None => Success(None)
      case Some(i) =>
        if spec[..i] == "" then ParseSuffix(spec[i + 1..], size)
        else ParseFirstLast(spec[..i], spec[i + 1..], size)
  }

  function ParseSuffix(last: string, size: int): (r: Resolution)
    requires 0 <= size
    ensures r.Success? && r.value.Some? ==> Inside(r.value.value, size)
  {
    match ParseInt(last, 10)
    case None => Success(None)
    case Some(n) =>
      if n <= 0 then Failure(Unsatisfiable)
      else
        var m := if n >= size then size else n;
        if m == 0 then Failure(Unsatisfiable) else Success(Some(ByteRange(size - m, m)))
  }

  function ParseFirstLast(first: string, last: string, size: int): (r: Resolution)
    requires 0 <= size
    ensures r.Success? && r.value.Some? ==> Inside(r.value.value, size)
  {
    match ParseInt(first, 10)
    case None => Success(None)
    case Some(start) =>
      if start < 0 then Success(None)
      else if start >= size then Failure(Unsatisfiable)
      else if last == "" then Success(Some(ByteRange(start, size - 1 - start + 1)))
      else
        match ParseInt(last, 10)
        case None => Success(None)
        case Some(end) =>
          if end < start then Failure(Unsatisfiable)
          else
            var e := if end >= size then size - 1 else end;
            Success(Some(ByteRange(start, e - start + 1)))
  }

  /** The first dash of a range stands there. */
  predicate DashAt(spec: string, i: nat) {
    i < |spec| && spec[i] == '-' && '-' !in spec[..i]
  }

  lemma {:induction false} FirstDash(spec: string)
    ensures match Find(spec, "-")
            case None => '-' !in spec
            case Some(i) => forall k: nat :: DashAt(spec, k) <==> k == i
  {
    FindCharNone(spec, '-');
    if Find(spec, "-").Some? {
      FindCharSplits(spec, '-');
      var i := Find(spec, "-").value;
      hide Find;
      forall k: nat | k != i ensures !DashAt(spec, k) {
        if k < i {
          assert spec[..i][k] == spec[k];
        } else if k < |spec| {
          assert spec[..k][i] == spec[i];
        }
      }
    }
  }

  lemma SpecIsIgnoredExactlyIf(spec: string, size: int)
    requires 0 <= size
    ensures ParseSpec(spec, size) == Success(None) <==>
              || ',' in spec || '-' !in spec
              || exists i: nat :: DashAt(spec, i) && HoldsNoNumbers(spec[..i], spec[i + 1..], size)
  {
    FirstDash(spec);
    hide Find, ParseInt;
    match Find(spec, "-")
    case None =>
    case Some(i) =>
      assert DashAt(spec, i);
      hide DashAt;
  }

  /**
   A Range header is ignored if and only if it has another unit, names several ranges, holds no
   dash, or holds no numbers where it should; a last position counts only if the first one lies
   inside the object.
   */
  lemma RangeIsIgnoredExactlyIf(h: string, size: int)
    requires 0 <= size
    ensures ParseByteRange(h, size) == Success(None) <==>
              || !("bytes=" <= h) || ',' in h[6..] || '-' !in h[6..]
              || exists i: nat :: DashAt(h[6..], i) && HoldsNoNumbers(h[6..][..i], h[6..][i + 1..], size)
  {
    if "bytes=" <= h {
      SpecIsIgnoredExactlyIf(h[6..], size);
    }
  }

  /** Behind no first position a length should stand, behind a first position nothing or a last one. */
  predicate HoldsNoNumbers(first: string, last: string, size: int) {
    if first == "" then ParseInt(last, 10).None?
    else
      match ParseInt(first, 10)
      case None => true
      case Some(a) => a < 0 || (a < size && last != "" && ParseInt(last, 10).None?)
  }

  /** What a Content-Range says, of which part of which whole. */
  ghost predicate SaysRange(contentRange: string, first: nat, last: nat, total: nat) {
    exists a, b, c: string ::
      && contentRange == "bytes " + a + "-" + b + "/" + c
      && IsNumeral(a, first) && IsNumeral(b, last) && IsNumeral(c, total)
  }

  /** A decimal numeral without zeros in front. */
  predicate IsNumeral(s: string, n: nat) {
    s != "" && (s[0] == '0' ==> s == "0") && ParseInt(s, 10) == Some(n as int)
  }

  lemma {:induction false} FormatIsNumeral(n: nat)
    requires n <= MAX_INT64
    ensures IsNumeral(Format(n, 10), n)
    decreases n
  {
    ParseIntFormat(n, 10);
    if n >= 10 {
      FormatIsNumeral(n / 10);
      assert Format(n, 10) == Format(n / 10, 10) + [DigitChar(n % 10)];
      assert Format(n / 10, 10) != "0" by { FormatValue(n / 10, 10); assert DigitsValue("0"[..0], 10) == Some(0); }
    }
  }

  /** Whoever reads a Content-Range learns the first and the last position and the total size. */
  lemma ContentRangeSays(start: int, length: int, total: int)
    requires 0 <= start && 1 <= length && start + length <= total <= MAX_INT64
    ensures SaysRange(ContentRange(start, length, total), start, start + length - 1, total)
  {
    FormatIsNumeral(start);
    FormatIsNumeral(start + length - 1);
    FormatIsNumeral(total);
    hide Format, IsNumeral;
  }

  lemma BehindUnit(spec: string, size: int)
    requires 0 <= size
    ensures ParseByteRange(UNIT + spec, size) == ParseSpec(spec, size)
  {
    assert (UNIT + spec)[|UNIT|..] == spec;
  }

  lemma {:induction false} DigitsHoldNoPunctuation(s: string)
    requires DigitsValue(s, 10).Some?
    ensures '-' !in s && ',' !in s
    ensures s != "" ==> s[0] != '+'
  {
    DigitsOnly(s, 10);
    assert Digit('-').None? && Digit(',').None? && Digit('+').None?;
    if s != "" {
      assert s[0] in s;
    }
  }

  lemma {:induction false} SpecParts(first: string, last: string, size: int)
    requires 0 <= size
    requires DigitsValue(first, 10).Some? && DigitsValue(last, 10).Some?
    ensures ParseByteRange(UNIT + (first + "-" + last), size)
         == if first == "" then ParseSuffix(last, size) else ParseFirstLast(first, last, size)
  {
    var spec := first + "-" + last;
    BehindUnit(spec, size);
    DigitsHoldNoPunctuation(first);
    DigitsHoldNoPunctuation(last);
    FindChar(first, '-', last);
    assert spec[..|first|] == first && spec[|first| + 1..] == last;
  }

  lemma {:induction false} ParseDigits(s: string, n: nat)
    requires s != "" && DigitsValue(s, 10) == Some(n) && n <= MAX_INT64
    ensures ParseInt(s, 10) == Some(n as int)
  {
    DigitsHoldNoPunctuation(s);
    assert s[0] in s;
  }

  /** A first and a last position name the bytes between them, as far as there are any. */
  lemma {:induction false} FirstLastRange(first: string, last: string, a: nat, b: nat, size: int)
    requires 0 <= size && first != "" && last != ""
    requires DigitsValue(first, 10) == Some(a) && a <= MAX_INT64
    requires DigitsValue(last, 10) == Some(b) && b <= MAX_INT64
    ensures ParseByteRange(UNIT + (first + "-" + last), size)
            == if a >= size || b < a then Failure(Unsatisfiable)
               else Success(Some(ByteRange(a, (if b < size then b + 1 else size) - a)))
  {
    SpecParts(first, last, size);
    FirstLastDigits(first, last, a, b, size);
  }

  lemma {:induction false} FirstLastDigits(first: string, last: string, a: nat, b: nat, size: int)
    requires 0 <= size && first != "" && last != ""
    requires DigitsValue(first, 10) == Some(a) && a <= MAX_INT64
    requires DigitsValue(last, 10) == Some(b) && b <= MAX_INT64
    ensures ParseFirstLast(first, last, size)
            == if a >= size || b < a then Failure(Unsatisfiable)
               else Success(Some(ByteRange(a, (if b < size then b + 1 else size) - a)))
  {
    ParseDigits(first, a);
    ParseDigits(last, b);
  }

  /** The same for printed positions. */
  lemma {:induction false} PrintedRange(a: nat, b: nat, size: int)
    requires 0 <= size && a <= MAX_INT64 && b <= MAX_INT64
    ensures ParseByteRange("bytes=" + (Format(a, 10) + "-" + Format(b, 10)), size)
         == if a >= size || b < a then Failure(Unsatisfiable)
            else Success(Some(ByteRange(a, (if b < size then b + 1 else size) - a)))
  {
    FormatValue(a, 10);
    FormatValue(b, 10);
    FirstLastRange(Format(a, 10), Format(b, 10), a, b, size);
    hide ParseByteRange, Format, DigitsValue;
  }

  /** A first position alone names everything from there on. */
  lemma {:induction false} OpenRange(first: string, a: nat, size: int)
    requires 0 <= size && first != "" && DigitsValue(first, 10) == Some(a) && a <= MAX_INT64
    ensures ParseByteRange(UNIT + (first + "-" + ""), size)
            == if a >= size then Failure(Unsatisfiable) else Success(Some(ByteRange(a, size - a)))
  {
    SpecParts(first, "", size);
    OpenDigits(first, a, size);
  }

  lemma {:induction false} OpenDigits(first: string, a: nat, size: int)
    requires 0 <= size && first != "" && DigitsValue(first, 10) == Some(a) && a <= MAX_INT64
    ensures ParseFirstLast(first, "", size)
            == if a >= size then Failure(Unsatisfiable) else Success(Some(ByteRange(a, size - a)))
  {
    ParseDigits(first, a);
  }

  /** A suffix length names that many bytes at the end, or the whole object if it is shorter. */
  lemma {:induction false} SuffixRange(last: string, n: nat, size: int)
    requires 0 <= size && last != "" && DigitsValue(last, 10) == Some(n) && n <= MAX_INT64
    ensures ParseByteRange(UNIT + ("-" + last), size)
            == if n == 0 || size == 0 then Failure(Unsatisfiable)
               else if n < size then Success(Some(ByteRange(size - n, n)))
               else Success(Some(ByteRange(0, size)))
  {
    SpecParts("", last, size);
    assert "" + "-" + last == "-" + last;
    ParseDigits(last, n);
  }

  lemma Printed(n: nat) returns (s: string)
    ensures s == Format(n, 10) && s != "" && DigitsValue(s, 10) == Some(n)
  {
    s := Format(n, 10);
    FormatValue(n, 10);
  }

  lemma HeaderText(r: ByteRange, first: string, last: string)
    requires 0 <= r.start && 1 <= r.length
    requires first == Format(r.start, 10) && last == Format(r.start + r.length - 1, 10)
    ensures Header(r) == UNIT + (first + "-" + last)
  {
  }

  /** Parsing the printed form of any range inside an object gives the range back. */
  lemma HeaderRoundTrip(r: ByteRange, size: int)
    requires 0 <= size <= MAX_INT64 && Inside(r, size)
    ensures ParseByteRange(Header(r), size) == Success(Some(r))
  {
    hide Format, Header, ParseByteRange, DigitsValue;
    var first := Printed(r.start);
    var last := Printed(r.start + r.length - 1);
    HeaderText(r, first, last);
    FirstLastRange(first, last, r.start, r.start + r.length - 1, size);
  }
}
