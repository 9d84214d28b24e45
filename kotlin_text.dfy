/**
 * The pieces of Kotlin's standard library that the shopping list leans on:
 * `Char.isWhitespace` and `String.isNotBlank` (the add dialog's name check),
 * `String.toIntOrNull` with the elvis operator `?:` (both quantity fields), and
 * `Int.toString` (which seeds the quantity field of a row in edit mode).
 */
module KotlinText {

  /** Kotlin's nullable `T?`: a value, or null. */
  datatype Option<+T> = None | Some(value: T) {
    /** The elvis operator: `this ?: fallback`. */
    function OrElse(fallback: T): (r: T)
      ensures Some? ==> r == value
      ensures None? ==> r == fallback
    {
      match this
      case Some(v) => v
      case None => fallback
    }
  }

  const INT_MIN: int := -0x8000_0000
  const INT_MAX: int := 0x7fff_ffff

  /** The range of Kotlin's 32-bit signed `Int`. */
  predicate IsInt32(n: int) {
    INT_MIN <= n <= INT_MAX
  }

  // ---------------------------------------------------------------------------
  // Whitespace and blankness
  // ---------------------------------------------------------------------------

  /**
   * `Char.isWhitespace` on the JVM, which is `Character.isWhitespace(c) ||
   * Character.isSpaceChar(c)`: the ASCII controls TAB..CR and FS..US, and the
   * Unicode space, line and paragraph separators (no-break spaces included).
   */
  predicate IsWhitespace(c: char)
    ensures IsWhitespace(c) ==> !IsDigit(c) && c != '+' && c != '-'
  {
    var k := c as int;
    || (0x09 <= k <= 0x0D)
    || (0x1C <= k <= 0x20)
    || k == 0xA0
    || k == 0x1680
    || (0x2000 <= k <= 0x200A)
    || k == 0x2028
    || k == 0x2029
    || k == 0x202F
    || k == 0x205F
    || k == 0x3000
  }

  /** `CharSequence.isBlank`: every character is whitespace; "" is blank. */
  predicate IsBlank(s: string)
    ensures IsBlank(s) ==> forall i :: 0 <= i < |s| ==> IsWhitespace(s[i])
    decreases |s|
  {
    s == [] || (IsWhitespace(s[0]) && IsBlank(s[1..]))
  }

  predicate IsNotBlank(s: string)
    ensures IsNotBlank(s) ==> s != []
  {
    !IsBlank(s)
  }

  /** A string is not blank exactly when some character of it is not whitespace. */
  lemma {:induction false} NotBlankIffVisibleChar(s: string)
    ensures IsNotBlank(s) <==> exists i :: 0 <= i < |s| && !IsWhitespace(s[i])
    decreases |s|
  {
    if s != [] && IsWhitespace(s[0]) {
      var t := s[1..];
      NotBlankIffVisibleChar(t);
      if IsNotBlank(s) {
        var j :| 0 <= j < |t| && !IsWhitespace(t[j]);
        assert s[j + 1] == t[j];
      } else {
        forall i | 0 <= i < |s|
          ensures IsWhitespace(s[i])
        {
          if i > 0 {
            assert s[i] == t[i - 1];
          }
        }
      }
    }
  }

  // ---------------------------------------------------------------------------
  // Decimal text
  // ---------------------------------------------------------------------------

  predicate IsDigit(c: char) {
    '0' <= c <= '9'
  }

  predicate AllDigits(s: string) {
    forall i :: 0 <= i < |s| ==> IsDigit(s[i])
  }

  function DigitValue(c: char): (d: nat)
    requires IsDigit(c)
    ensures d < 10
  {
    c as int - '0' as int
  }

  function DigitChar(d: nat): (c: char)
    requires d < 10
    ensures IsDigit(c) && DigitValue(c) == d
  {
    ('0' as int + d) as char
  }

  /** The number a run of decimal digits denotes, most significant first (0 for the empty run). */
  function DigitsValue(s: string): nat
    requires AllDigits(s)
    decreases |s|
  {
    if s == [] then 0
    else
      10 * DigitsValue(s[..|s| - 1]) + DigitValue(s[|s| - 1])
  }

  /**
   * `String.toIntOrNull()` (radix 10): an optional leading `+` or `-`, then
   * at least one decimal digit and nothing else; the value must fit in a
   * 32-bit `Int`, or the answer is null. Leading zeros are accepted and
   * nothing is trimmed.
   */
  function ToIntOrNull(s: string): (r: Option<int>)
    ensures r.Some? ==> IsInt32(r.value)
  {
    if s == [] then None
    else
      var start := if s[0] == '-' || s[0] == '+' then 1 else 0;
      var digits := s[start..];
      if digits == [] || !AllDigits(digits) then None
      else
        var magnitude: int := DigitsValue(digits);
        var v: int := if s[0] == '-' then -magnitude else magnitude;
        if IsInt32(v) then Some(v) else None
  }

  /** A text that `toIntOrNull` accepts is a sign or a digit followed by digits only. */
  lemma ParsedTextShape(s: string)
    requires ToIntOrNull(s).Some?
    ensures |s| >= 1 && IsDigit(s[|s| - 1])
    ensures IsDigit(s[0]) || s[0] == '+' || s[0] == '-'
    ensures forall i :: 1 <= i < |s| ==> IsDigit(s[i])
  {
  }

  /**
   * The converse: an optional sign followed by at least one digit parses to
   * the signed value of the digits when it fits in an `Int` (leading zeros
   * and a `+` included), and to null when it does not.
   */
  lemma ToIntOrNullOfSignedDigits(sign: string, digits: string)
    requires sign == "" || sign == "+" || sign == "-"
    requires digits != [] && AllDigits(digits)
    ensures var m: int := DigitsValue(digits);
      var v := if sign == "-" then -m else m;
      ToIntOrNull(sign + digits) == if IsInt32(v) then Some(v) else None
  {
  }

  /** No whitespace is tolerated anywhere: " 3" and "3 " are both null. */
  lemma WhitespaceIsNeverParsed(s: string, i: nat)
    requires i < |s| && IsWhitespace(s[i])
    ensures ToIntOrNull(s) == None
  {
  }

  // ---------------------------------------------------------------------------
  // Int.toString
  // ---------------------------------------------------------------------------

  /** The decimal digits of `n`, most significant first, without leading zeros. */
  function NatToString(n: nat): (s: string)
    ensures s != [] && AllDigits(s)
    decreases n
  {
    if n < 10 then [DigitChar(n)] else NatToString(n / 10) + [DigitChar(n % 10)]
  }

  /** `Int.toString()`: a `-` for negative numbers, then the digits of the magnitude. */
  function IntToString(n: int): (s: string)
    ensures s != [] && (s[0] == '-' <==> n < 0)
    ensures forall i :: 0 < i < |s| ==> IsDigit(s[i])
  {
    if n < 0 then "-" + NatToString(-n) else NatToString(n)
  }

  /** The digits of `n` are a canonical decimal numeral denoting `n`. */
  lemma {:induction false} NatToStringDenotes(n: nat)
    ensures NatToString(n) != [] && AllDigits(NatToString(n))
    ensures DigitsValue(NatToString(n)) == n
    ensures n > 0 ==> NatToString(n)[0] != '0'
    decreases n
  {
    if n >= 10 {
      NatToStringDenotes(n / 10);
      var s := NatToString(n);
      assert s[..|s| - 1] == NatToString(n / 10);
    }
  }

  /**
   * Parsing what `toString` prints gives the number back exactly when it fits
   * in an `Int`; a wider number prints to a text that parses to null.
   */
  lemma ToIntOrNullOfToString(n: int)
    ensures ToIntOrNull(IntToString(n)) == if IsInt32(n) then Some(n) else None
  {
    var s := IntToString(n);
    if n < 0 {
      NatToStringDenotes(-n);
      assert s[1..] == NatToString(-n);
    } else {
      NatToStringDenotes(n);
      assert s[0..] == s;
    }
  }

  /** Sample answers of `toIntOrNull`, as a user would type them. */
  lemma ToIntOrNullExamples()
    ensures ToIntOrNull("3") == Some(3)
    ensures ToIntOrNull("12") == Some(12)
    ensures ToIntOrNull("-7") == Some(-7)
    ensures ToIntOrNull("+05") == Some(5)
    ensures ToIntOrNull("0") == Some(0)
    ensures ToIntOrNull("") == None
    ensures ToIntOrNull("-") == None
    ensures ToIntOrNull("abc") == None
    ensures ToIntOrNull("xyz") == None
    ensures ToIntOrNull("1.5") == None
  {
    assert "12"[..1] == "1";
    assert "05"[..1] == "0";
    assert !IsDigit("abc"[0]);
    assert !IsDigit("xyz"[0]);
    assert !IsDigit("1.5"[1]);
  }
}
