/** The two conversions between file ids and text that the file handlers rely on: Go's
    `strconv.ParseUint(s, 0, 32)`, which DownloadFile applies to the `file_id` query
    parameter, and the decimal rendering (`%d`) under which ids are sent to clients and
    written into paths. With base 0 the text picks its own base: `0b`/`0o`/`0x` (in either
    case) select 2, 8 and 16, any other leading `0` selects octal, and `_` may separate
    digits. */
module Strconv {
  import opened Errors

  /** The largest value a 32-bit unsigned integer holds. */
  const MaxUint32: nat := 0xFFFF_FFFF

  /** `lower` of package strconv: ASCII upper-case letters to lower case, all else as is. */
  function Lower(c: char): char
  {
    if 'A' <= c <= 'Z' then (c as int + 32) as char else c
  }

  /** The value of a digit character in any base up to 36: `0`-`9`, then letters. */
  function DigitValue(c: char): (r: Option<nat>)
    ensures r.Some? ==> r.value < 36
    ensures r.Some? && r.value < 10 <==> '0' <= c <= '9'
  {
    if '0' <= c <= '9' then Some(c as int - '0' as int)
    else if 'a' <= Lower(c) <= 'z' then Some(Lower(c) as int - 'a' as int + 10)
    else None
  }

  /** The base the text announces and the digits that follow its prefix. */
  function BaseAndDigits(s: string): (r: (nat, string))
    requires |s| > 0
    ensures r.0 in {2, 8, 10, 16}
    ensures r.0 == 10 <==> s[0] != '0'
    ensures r.0 == 10 ==> r.1 == s
  {
    if s[0] != '0' then (10, s)
    else if |s| >= 3 && Lower(s[1]) == 'b' then (2, s[2..])
    else if |s| >= 3 && Lower(s[1]) == 'o' then (8, s[2..])
    else if |s| >= 3 && Lower(s[1]) == 'x' then (16, s[2..])
    else (8, s[1..])
  }

  /** Every character is a digit of the base or an underscore. */
  predicate DigitsOfBase(digits: string, base: nat)
  {
    forall i :: 0 <= i < |digits| ==>
      digits[i] == '_' || (DigitValue(digits[i]).Some? && DigitValue(digits[i]).value < base)
  }

  /** The number the digits spell in the base, underscores skipped. */
  function ValueOf(digits: string, base: nat): nat
    requires DigitsOfBase(digits, base)
  {
    if digits == [] then 0
    else
      var last := digits[|digits| - 1];
      var high := ValueOf(digits[..|digits| - 1], base);
      if last == '_' then high else high * base + DigitValue(last).value
  }

  /** What `underscoreOK` remembers of the last character: the start, a digit (or the base
      prefix), an underscore, or anything else. */
  datatype Saw = Start | Digit | Underscore | Other

  function UnderscoreScan(s: string, i: nat, saw: Saw, hex: bool): bool
    requires i <= |s|
    decreases |s| - i
  {
    if i == |s| then saw != Underscore
    else if '0' <= s[i] <= '9' || (hex && 'a' <= Lower(s[i]) <= 'f') then UnderscoreScan(s, i + 1, Digit, hex)
    else if s[i] == '_' then saw == Digit && UnderscoreScan(s, i + 1, Underscore, hex)
    else if saw == Underscore then false
    else UnderscoreScan(s, i + 1, Other, hex)
  }

  /** `underscoreOK`: every underscore sits between two digits, the base prefix counting as
      a digit. */
  predicate UnderscoreOK(s: string)
  {
    var t := if |s| >= 1 && (s[0] == '-' || s[0] == '+') then s[1..] else s;
    if |t| >= 2 && t[0] == '0' && (Lower(t[1]) == 'b' || Lower(t[1]) == 'o' || Lower(t[1]) == 'x')
    then UnderscoreScan(t, 2, Digit, Lower(t[1]) == 'x')
    else UnderscoreScan(t, 0, Start, false)
  }

  /** strconv.ParseUint(s, 0, 32): the value, or nothing for an empty text, a character that
      is not a digit of the base, a misplaced underscore, or a value above 2^32 - 1. */
  function ParseUint32(s: string): (r: Option<nat>)
    ensures r.Some? ==> r.value <= MaxUint32
    ensures s == "" ==> r.None?
  {
    if s == "" then None
    else
      var (base, digits) := BaseAndDigits(s);
      if !DigitsOfBase(digits, base) then None
      else if '_' in s && !UnderscoreOK(s) then None
      else if ValueOf(digits, base) > MaxUint32 then None
      else Some(ValueOf(digits, base))
  }

  /** The decimal digit for 0..9. */
  function DecimalDigit(d: nat): (c: char)
    requires d < 10
    ensures DigitValue(c) == Some(d)
  {
    ('0' as int + d) as char
  }

  /** `%d` of a non-negative number: no sign, no leading zero. */
  function FormatDecimal(n: nat): (s: string)
    ensures |s| >= 1
    ensures forall i :: 0 <= i < |s| ==> '0' <= s[i] <= '9'
    ensures s[0] == '0' <==> n == 0
  {
    if n < 10 then [DecimalDigit(n)] else FormatDecimal(n / 10) + [DecimalDigit(n % 10)]
  }

  /** Decimal digits spell back the number they were made from. */
  lemma {:induction false} ValueOfFormatDecimal(n: nat)
    ensures DigitsOfBase(FormatDecimal(n), 10)
    ensures ValueOf(FormatDecimal(n), 10) == n
  {
    var s := FormatDecimal(n);
    assert forall i :: 0 <= i < |s| ==> DigitValue(s[i]).Some? && DigitValue(s[i]).value < 10;
    if n >= 10 {
      ValueOfFormatDecimal(n / 10);
      assert s[..|s| - 1] == FormatDecimal(n / 10);
    }
  }

  /** An id sent out in decimal parses back to itself exactly when it fits 32 bits; larger
      ids cannot be named in a download at all. Zero renders as "0", which parses as an empty
      octal number, still zero. */
  lemma ParseFormatDecimal(n: nat)
    ensures ParseUint32(FormatDecimal(n)) == if n <= MaxUint32 then Some(n) else None
  {
    var s := FormatDecimal(n);
    ValueOfFormatDecimal(n);
    assert '_' !in s by {
      forall i | 0 <= i < |s| ensures s[i] != '_' {
      }
    }
    if n == 0 {
      assert s == "0" && s[1..] == "";
      assert BaseAndDigits(s) == (8, "");
    }
  }

  /** "10" read in `base`, for the lemmas below. */
  lemma OneZero(base: nat)
    requires 2 <= base <= 36
    ensures DigitsOfBase("10", base) && ValueOf("10", base) == base
  {
    assert DigitValue('1') == Some(1) && DigitValue('0') == Some(0);
    assert DigitsOfBase("10", base);
    assert "10"[..1] == "1" && "1"[..0] == "";
    assert ValueOf("1", base) == 1;
  }

  /** A leading zero makes the rest octal: "010" names file 8, not file 10. */
  lemma LeadingZeroIsOctal()
    ensures ParseUint32("010") == Some(8)
  {
    assert BaseAndDigits("010") == (8, "10");
    assert '_' !in "010";
    OneZero(8);
  }

  /** A hexadecimal prefix is honoured: "0x10" names file 16. */
  lemma HexPrefix()
    ensures ParseUint32("0x10") == Some(16)
  {
    assert BaseAndDigits("0x10") == (16, "10");
    assert '_' !in "0x10";
    OneZero(16);
  }

  /** A sign is not a digit: "+1" is refused. */
  lemma SignRefused()
    ensures ParseUint32("+1") == None
  {
    assert BaseAndDigits("+1") == (10, "+1");
    assert !DigitsOfBase("+1", 10) by {
      assert DigitValue('+') == None;
    }
  }

  /** An underscore needs a digit on each side: "1_000" is a thousand, "1__0" is refused. */
  lemma Underscores()
    ensures ParseUint32("1_000") == Some(1000)
    ensures ParseUint32("1__0") == None
  {
    assert UnderscoreOK("1_000") by {
      assert UnderscoreScan("1_000", 5, Digit, false);
    }
    assert DigitValue('1') == Some(1) && DigitValue('0') == Some(0);
    assert DigitsOfBase("1_000", 10);
    assert "1_000"[..4] == "1_00" && "1_00"[..3] == "1_0" && "1_0"[..2] == "1_" && "1_"[..1] == "1" && "1"[..0] == "";
    assert ValueOf("1_", 10) == 1;
    assert ValueOf("1_000", 10) == 1000;
    assert !UnderscoreOK("1__0") by {
      assert !UnderscoreScan("1__0", 2, Underscore, false);
    }
  }
}
