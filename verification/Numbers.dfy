/**
 Number parsing: the integer readers of Go's strconv, written out, and the type of a float reader.
 */
module Numbers {

  datatype Option<+T> = None | Some(value: T) {
    function GetOr(default: T): T {
      match this
      case Some(v) => v
      case None => default
    }
  }

  /**
   strconv.ParseFloat as the parsers use it: a value, or None for a syntax error.
   Every result below holds for every reader of this type.
   */
  type FloatReader = string -> Option<real>

  /** The idiom "v, _ := strconv.ParseFloat(s, 64)": a field that is not a number counts as zero. */
  function FloatOrZero(read: FloatReader, s: string): real {
    read(s).GetOr(0.0)
  }

  predicate IsDigit(c: char) {
    '0' <= c <= '9'
  }

  predicate AllDigits(s: string) {
    forall i | 0 <= i < |s| :: IsDigit(s[i])
  }

  function DigitValue(c: char): nat
    requires IsDigit(c)
  {
    c as int - '0' as int
  }

  function DigitsValue(s: string): nat
    requires AllDigits(s)
  {
    if s == "" then 0 else 10 * DigitsValue(s[..|s| - 1]) + DigitValue(s[|s| - 1])
  }

  const MAX_UINT64 := 0xFFFF_FFFF_FFFF_FFFF
  const MAX_INT64 := 0x7FFF_FFFF_FFFF_FFFF
  const MIN_INT64 := -0x8000_0000_0000_0000

  /** strconv.ParseUint(s, 10, 64): the value and whether there was no error. Out of range saturates. */
  function ParseUint(s: string): (nat, bool) {
    if s == "" || !AllDigits(s) then (0, false)
    else if DigitsValue(s) > MAX_UINT64 then (MAX_UINT64, false)
    else (DigitsValue(s), true)
  }

  /** The value of strconv.Atoi, its error ignored: an optional sign, digits, saturation at 64 bits. */
  function Atoi(s: string): int {
    var signed := s != "" && s[0] in "+-";
    var digits := if signed then s[1..] else s;
    if digits == "" || !AllDigits(digits) then 0
    else
      var n: int := DigitsValue(digits);
      if signed && s[0] == '-' then
        if -n < MIN_INT64 then MIN_INT64 else -n
      else if n > MAX_INT64 then MAX_INT64 else n
  }

  function Digit(d: nat): char
    requires d < 10
  {
    ('0' as int + d) as char
  }

  /** The decimal rendering of n. */
  function Decimal(n: nat): string {
    if n < 10 then [Digit(n)] else Decimal(n / 10) + [Digit(n % 10)]
  }

  lemma {:induction false} DecimalReadsBack(n: nat)
    ensures Decimal(n) != "" && AllDigits(Decimal(n)) && DigitsValue(Decimal(n)) == n
  {
    if n < 10 {
      assert Decimal(n)[..0] == "";
    } else {
      DecimalReadsBack(n / 10);
      assert Decimal(n)[..|Decimal(n)| - 1] == Decimal(n / 10);
    }
  }

  /** The reader takes strings of digits at their value. */
  ghost predicate ReadsNumerals(read: FloatReader) {
    forall s: string | s != "" && AllDigits(s) :: read(s) == Some(DigitsValue(s) as real)
  }

  lemma NumeralReadsBack(read: FloatReader, n: nat)
    requires ReadsNumerals(read)
    ensures FloatOrZero(read, Decimal(n)) == n as real
  {
    DecimalReadsBack(n);
  }

  /** A printed number is read at its value below 2^64, and refused from there on. */
  lemma ParseUintReadsBack(n: nat)
    ensures ParseUint(Decimal(n)) ==
            if n < 18446744073709551616 then (n, true) else (18446744073709551615, false)
  {
    DecimalReadsBack(n);
  }

  /** A printed number is read at its value up to 2^63 - 1, and as that bound beyond. */
  lemma AtoiReadsBack(n: nat)
    ensures n <= 9223372036854775807 ==> Atoi(Decimal(n)) == n
    ensures n > 9223372036854775807 ==> Atoi(Decimal(n)) == 9223372036854775807
  {
    DecimalReadsBack(n);
    assert Decimal(n)[0] !in "+-";
  }

  /** The same behind a minus sign, down to -2^63. */
  lemma AtoiReadsNegative(n: nat)
    ensures n <= 9223372036854775808 ==> Atoi("-" + Decimal(n)) == -(n as int)
    ensures n > 9223372036854775808 ==> Atoi("-" + Decimal(n)) == -9223372036854775808
  {
    DecimalReadsBack(n);
    assert ("-" + Decimal(n))[1..] == Decimal(n);
  }
}
