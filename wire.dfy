/** Python values that flow through the RN2483 driver, the exceptions it lets
    escape, and the text operations it applies to the module's replies. */
module Wire {

  /** The values the driver's globals and `_read` take: `None`, a string, or an
      integer. `_read` yields either the received line or the integer
      `RESP_TIMEOUT`. */
  datatype PyVal = PyNone | Str(s: string) | Int(i: int)

  /** `RESP_TIMEOUT`: what `_read` returns when no line arrives in time. */
  const RespTimeout: PyVal := Int(-1)

  /** The exceptions an operation of the driver can end with. */
  datatype Error =
    | Rn2483Exception  // raised by the driver itself
    | TypeError        // a string concatenated with `None` or with an integer
    | AttributeError   // a method called on `None` or on the integer `RESP_TIMEOUT`
    | ValueError       // `int(...)` of text that is not a number

  datatype Option<+T> = None | Some(value: T)

  datatype Result<+T> = Ok(value: T) | Err(error: Error)

  /** `s.startswith(prefix)` */
  predicate StartsWith(s: string, prefix: string) {
    |prefix| <= |s| && s[..|prefix|] == prefix
  }

  /** `s.split(' ')[-1]`: the text after the last space, or all of `s` when it
      holds no space. The contract determines the result uniquely. */
  function LastToken(s: string): (t: string)
    ensures |t| <= |s| && t == s[|s| - |t|..]
    ensures ' ' !in t
    ensures |t| == |s| || s[|s| - |t| - 1] == ' '
  {
    if |s| == 0 then ""
    else if s[|s| - 1] == ' ' then ""
    else LastToken(s[..|s| - 1]) + [s[|s| - 1]]
  }

  /** The last token of a line is the text after its final separator. */
  lemma {:induction false} LastTokenAfterSpace(head: string, tail: string)
    requires ' ' !in tail
    ensures LastToken(head + " " + tail) == tail
  {
    var s := head + " " + tail;
    var t := LastToken(s);
    assert s[|s| - |tail| - 1] == ' ';
    if |t| > |tail| {
      assert false;
    } else if |t| < |tail| {
      assert false;
    }
  }

  predicate IsDecimalDigit(c: char) {
    '0' <= c <= '9'
  }

  function DigitChar(d: nat): (c: char)
    requires d < 10
    ensures IsDecimalDigit(c) && c as int - '0' as int == d
  {
    ('0' as int + d) as char
  }

  /** `str(n)` for a non-negative integer: decimal digits, no leading zero. */
  function NatString(n: nat): (r: string)
    ensures 1 <= |r| && forall i :: 0 <= i < |r| ==> IsDecimalDigit(r[i])
    ensures |r| > 1 ==> r[0] != '0'
  {
    if n < 10 then [DigitChar(n)] else NatString(n / 10) + [DigitChar(n % 10)]
  }

  /** `str(n)`: a minus sign before the digits of a negative number. */
  function DecimalString(n: int): string {
    if n < 0 then "-" + NatString(-n) else NatString(n)
  }

  predicate AllDigits(s: string) {
    1 <= |s| && forall i :: 0 <= i < |s| ==> IsDecimalDigit(s[i])
  }

  /** The number a run of decimal digits denotes. */
  function DigitsValue(s: string): nat
    requires forall i :: 0 <= i < |s| ==> IsDecimalDigit(s[i])
  {
    if s == [] then 0
    else
      assert IsDecimalDigit(s[|s| - 1]);
      DigitsValue(s[..|s| - 1]) * 10 + (s[|s| - 1] as int - '0' as int)
  }

  /** `int(v)` for what `_read` can return: an integer is kept as it is; a
      string must be an optionally signed run of decimal digits. */
  function ParseDecimal(v: PyVal): Result<int> {
    match v
    case PyNone => Err(TypeError)
    case Int(i) => Ok(i)
    case Str(s) =>
      if AllDigits(s) then Ok(DigitsValue(s))
      else if 1 <= |s| && (s[0] == '-' || s[0] == '+') && AllDigits(s[1..]) then
        var magnitude: int := DigitsValue(s[1..]);
        Ok(if s[0] == '-' then -magnitude else magnitude)
      else Err(ValueError)
  }

  lemma {:induction false} DigitsOfNatString(n: nat)
    ensures DigitsValue(NatString(n)) == n
  {
    if n >= 10 {
      var r := NatString(n);
      assert r[..|r| - 1] == NatString(n / 10);
      DigitsOfNatString(n / 10);
    }
  }

  /** `int(str(n)) == n`: the number a command carries reads back unchanged. */
  lemma ParseDecimalString(n: int)
    ensures ParseDecimal(Str(DecimalString(n))) == Ok(n)
  {
    if n < 0 {
      var s := DecimalString(n);
      assert s[1..] == NatString(-n);
      assert !AllDigits(s) by { assert !IsDecimalDigit(s[0]); }
      DigitsOfNatString(-n);
    } else {
      DigitsOfNatString(n);
    }
  }
}
