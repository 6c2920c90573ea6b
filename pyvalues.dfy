/** Decoded JSON scalars and Python's `int(...)` on them. */
module PyValues {
  import opened Common
  import opened Decimal

  /**
   * A scalar as JSON decoding hands it over: a number, a string (the
   * monitoring API sends int64 values as decimal strings) or null.
   */
  datatype Scalar = IntScalar(i: int) | TextScalar(text: string) | NullScalar

  /** `int(text)`: an optional sign followed by at least one decimal digit. */
  function IntOfText(s: string): (r: Result<int>)
    ensures r.Ok? ==> |s| >= 1
  {
    if |s| >= 2 && s[0] == '-' && AllDigits(s[1..]) then Ok(0 - ValueOf(s[1..]) as int)
    else if |s| >= 2 && s[0] == '+' && AllDigits(s[1..]) then Ok(ValueOf(s[1..]))
    else if |s| >= 1 && AllDigits(s) then Ok(ValueOf(s))
    else Err(InvalidLiteral)
  }

  /** `int(v)`: identity on integers, parses strings, TypeError on None. */
  function PyInt(v: Scalar): (r: Result<int>)
    ensures v.IntScalar? ==> r == Ok(v.i)
    ensures v.NullScalar? ==> r == Err(NoneValue)
  {
    match v
    case IntScalar(i) => Ok(i)
    case TextScalar(s) => IntOfText(s)
    case NullScalar => Err(NoneValue)
  }

  /** `d[key]` on a decoded dictionary: KeyError when the key is absent. */
  function GetItem(d: map<string, Scalar>, key: string): (r: Result<Scalar>)
    ensures r.Ok? <==> key in d
    ensures r.Ok? ==> r.value == d[key]
    ensures r.Err? ==> r.error == MissingKey(key)
  {
    if key in d then Ok(d[key]) else Err(MissingKey(key))
  }

  /** `str(n)` for any integer. */
  function StrOfInt(n: int): string {
    if n < 0 then "-" + DecimalText(-n) else DecimalText(n)
  }

  /** `int(str(n)) == n`: the decimal text the backend sends reads back as the number. */
  lemma IntOfStrOfInt(n: int)
    ensures PyInt(TextScalar(StrOfInt(n))) == Ok(n)
  {
    if n < 0 {
      NegativeText(-n);
    } else {
      NaturalText(n);
    }
  }

  /** The digits of `n`, unsigned, read back as `n`. */
  lemma NaturalText(n: nat)
    ensures IntOfText(DecimalText(n)) == Ok(n)
  {
    var s := DecimalText(n);
    assert IsDigit(s[0]);
    ValueOfDecimalText(n);
  }

  /** A minus sign and the digits of `m` read back as `-m`. */
  lemma NegativeText(m: nat)
    requires m > 0
    ensures IntOfText("-" + DecimalText(m)) == Ok(-(m as int))
  {
    var s := "-" + DecimalText(m);
    assert s[1..] == DecimalText(m);
    ValueOfDecimalText(m);
  }
}
