/**
 * Python's `int(...)` and `str(...)` on the values the record conversions
 * read: decimal text in both directions, truncation of floats, and the
 * exceptions for values `int` refuses.
 */
module PyInt {
  import opened Wrappers
  import Json

  predicate IsDigit(c: char) {
    '0' <= c <= '9'
  }

  /** The digit character of d. */
  function DigitChar(d: nat): (c: char)
    requires d < 10
    ensures IsDigit(c) && (c as int) - ('0' as int) == d
  {
    ('0' as int + d) as char
  }

  /** The decimal text of a natural number, without leading zeros. */
  function NatDigits(n: nat): (s: string)
    ensures |s| > 0 && forall k :: 0 <= k < |s| ==> IsDigit(s[k])
    decreases n
  {
    if n < 10 then [DigitChar(n)] else NatDigits(n / 10) + [DigitChar(n % 10)]
  }

  /** `str(i)` for an int. */
  function Decimal(i: int): string {
    if i < 0 then "-" + NatDigits(-i) else NatDigits(i)
  }

  /** The value of a non-empty run of digits, None when another character occurs. */
  function DigitsValue(s: string): (v: Option<nat>)
    ensures v.Some? ==> |s| > 0
    decreases |s|
  {
    if s == [] then None
    else
      var n := |s| - 1;
      if !IsDigit(s[n]) then None
      else if n == 0 then Some((s[n] as int) - ('0' as int))
      else
        match DigitsValue(s[..n])
        case None => None
        case Some(p) => Some(p * 10 + ((s[n] as int) - ('0' as int)))
  }

  /** `int(s)` for a string of an optional sign and decimal digits. */
  function ParseDecimal(s: string): Option<int> {
    if |s| > 0 && s[0] == '-' then
      match DigitsValue(s[1..]) case None => None case Some(v) => Some(-(v as int))
    else if |s| > 0 && s[0] == '+' then
      match DigitsValue(s[1..]) case None => None case Some(v) => Some(v)
    else
      match DigitsValue(s) case None => None case Some(v) => Some(v)
  }

  lemma {:induction false} DigitsOfNat(n: nat)
    ensures DigitsValue(NatDigits(n)) == Some(n)
    decreases n
  {
    if n >= 10 {
      var s := NatDigits(n);
      assert s[..|s| - 1] == NatDigits(n / 10);
      DigitsOfNat(n / 10);
    }
  }

  /** Reading back the decimal text of an int gives the int: `int(str(i)) == i`. */
  lemma ParseDecimalOfDecimal(i: int)
    ensures ParseDecimal(Decimal(i)) == Some(i)
  {
    if i < 0 {
      assert Decimal(i)[1..] == NatDigits(-i);
      DigitsOfNat(-i);
    } else {
      DigitsOfNat(i);
      assert Decimal(i)[0] != '-' && Decimal(i)[0] != '+';
    }
  }

  /** `int(r)` for a float: truncation toward zero. */
  function Truncate(r: real): (i: int)
    ensures r >= 0.0 ==> i as real <= r < i as real + 1.0
    ensures r < 0.0 ==> i as real - 1.0 < r <= i as real
  {
    if r >= 0.0 then r.Floor else -((-r).Floor)
  }

  /**
   * `int(v)`: ints as they are, booleans as 0 and 1, floats truncated,
   * decimal strings parsed; ValueError for other strings and TypeError for
   * None, lists and dictionaries.
   */
  function IntOf(v: Json.Value): (r: Result<int, string>)
    ensures v.Int? ==> r == Ok(v.i)
    ensures v.Str? ==> (r.Ok? <==> ParseDecimal(v.s).Some?)
    ensures v.Null? || v.List? || v.Dict? ==> r == Err("TypeError")
  {
    match v
    case Int(i) => Ok(i)
    case Bool(b) => Ok(if b then 1 else 0)
    case Real(x) => Ok(Truncate(x))
    case Str(s) => (match ParseDecimal(s) case Some(i) => Ok(i) case None => Err("ValueError"))
    case _ => Err("TypeError")
  }

  /** A decimal string coerces to the number it spells. */
  lemma IntOfDecimal(i: int)
    ensures IntOf(Json.Str(Decimal(i))) == Ok(i)
  {
    ParseDecimalOfDecimal(i);
  }

  /**
   * `str(v)` for ints, strings, booleans and None; the text Python gives a
   * float, list or dictionary is the parameter `repr`.
   */
  function StrOf(v: Json.Value, repr: Json.Value -> string): (s: string)
    ensures v.Str? ==> s == v.s
    ensures v.Int? ==> s == Decimal(v.i)
  {
    match v
    case Str(t) => t
    case Int(i) => Decimal(i)
    case Bool(b) => if b then "True" else "False"
    case Null => "None"
    case _ => repr(v)
  }
}
