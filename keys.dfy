/** Question keys. An `execution_order` (or legacy `order`) is a
    JavaScript string or number; this module models the two ways the
    screens compare such keys (strict `===` and `Number(a) === Number(b)`)
    and the way JavaScript turns a key into text (template literals and
    record property names). */
module Keys {
  import opened Wrappers

  /** `string | number`; numbers used as keys are integers. */
  datatype Key = Int(n: int) | Str(s: string)

  predicate IsDigit(c: char)
  {
    '0' <= c <= '9'
  }

  predicate AllDigits(s: string)
  {
    forall i :: 0 <= i < |s| ==> IsDigit(s[i])
  }

  function DigitChar(d: nat): (c: char)
    requires d < 10
    ensures IsDigit(c) && c as int - '0' as int == d
  {
    ('0' as int + d) as char
  }

  function DigitValue(c: char): (d: nat)
    requires IsDigit(c)
    ensures d < 10
  {
    c as int - '0' as int
  }

  /** Decimal text of a natural number, without leading zeros. */
  function NatText(n: nat): (s: string)
    ensures |s| > 0 && AllDigits(s)
  {
    if n < 10 then [DigitChar(n)] else NatText(n / 10) + [DigitChar(n % 10)]
  }

  /** `String(n)` for an integer `n`. */
  function IntText(n: int): (s: string)
    ensures |s| > 0
  {
    if n < 0 then "-" + NatText(-n) else NatText(n)
  }

  /** The text JavaScript makes of a key: `${key}`, and the property
      name under which `record[key]` is stored. */
  function KeyText(k: Key): string
  {
    match k
    case Int(n) => IntText(n)
    case Str(s) => s
  }

  /** Value of a string of decimal digits, most significant first. */
  function DigitsValue(s: string): nat
    requires AllDigits(s)
  {
    if s == [] then 0 else DigitsValue(s[..|s| - 1]) * 10 + DigitValue(s[|s| - 1])
  }

  function Pow10(k: nat): (p: nat)
    ensures p >= 1
  {
    if k == 0 then 1 else 10 * Pow10(k - 1)
  }

  lemma {:induction false} DigitsValueOfNatText(n: nat)
    ensures DigitsValue(NatText(n)) == n
  {
    if n >= 10 {
      var s := NatText(n);
      assert s[..|s| - 1] == NatText(n / 10);
      DigitsValueOfNatText(n / 10);
    }
  }

  /** Index of the first `c` in `t`, or `|t|` when there is none. */
  function FindChar(t: string, c: char): (i: nat)
    ensures i <= |t|
    ensures forall j :: 0 <= j < i ==> t[j] != c
    ensures i < |t| ==> t[i] == c
  {
    if t == [] then 0 else if t[0] == c then 0 else 1 + FindChar(t[1..], c)
  }

  /** The white space `Number()` ignores around its argument. */
  predicate IsSpace(c: char)
  {
    c == ' ' || c == '\t' || c == '\n' || c == '\r'
  }

  function TrimStart(s: string): (t: string)
    ensures t == [] || !IsSpace(t[0])
  {
    if s != [] && IsSpace(s[0]) then TrimStart(s[1..]) else s
  }

  function TrimEnd(s: string): (t: string)
    ensures |t| <= |s| && t == s[..|t|]
    ensures t == [] || !IsSpace(t[|t| - 1])
  {
    if s != [] && IsSpace(s[|s| - 1]) then TrimEnd(s[..|s| - 1]) else s
  }

  function Trim(s: string): string
  {
    TrimEnd(TrimStart(s))
  }

  /** An unsigned decimal: digits with at most one '.', and at least one
      digit in all ("7", "7.", ".5", "7.25"). Anything else is NaN. */
  function ParseUnsigned(t: string): Option<real>
  {
    var i := FindChar(t, '.');
    var whole := t[..i];
    var frac := if i < |t| then t[i + 1..] else [];
    if AllDigits(whole) && AllDigits(frac) && |whole| + |frac| > 0 then
      Some(DigitsValue(whole) as real + DigitsValue(frac) as real / Pow10(|frac|) as real)
    else
      None
  }

  /** `Number(s)` for a string: surrounding white space is ignored, the
      empty string is 0, a sign may precede an unsigned decimal, and
      every other string is NaN (`None`). */
  function ParseNumber(s: string): Option<real>
  {
    var t := Trim(s);
    if t == [] then Some(0.0)
    else if t[0] == '-' then
      match ParseUnsigned(t[1..])
      case Some(v) => Some(-v)
      case None => None
    else if t[0] == '+' then ParseUnsigned(t[1..])
    else ParseUnsigned(t)
  }

  /** `Number(key)`; `None` is NaN. */
  function ToNumber(k: Key): Option<real>
  {
    match k
    case Int(n) => Some(n as real)
    case Str(s) => ParseNumber(s)
  }

  /** `Number(a) === Number(b)`: NaN is equal to nothing, itself included. */
  predicate LooseEquals(a: Key, b: Key)
  {
    ToNumber(a).Some? && ToNumber(b).Some? && ToNumber(a).value == ToNumber(b).value
  }

  /** `a === b`: the same type and the same value. */
  predicate StrictEquals(a: Key, b: Key)
  {
    a == b
  }

  lemma UnsignedNatText(m: nat)
    ensures ParseUnsigned(NatText(m)) == Some(m as real)
  {
    var t := NatText(m);
    var i := FindChar(t, '.');
    assert i == |t| by {
      assert forall j :: 0 <= j < |t| ==> t[j] != '.';
    }
    assert t[..i] == t;
    DigitsValueOfNatText(m);
  }

  lemma TrimIntText(n: int)
    ensures Trim(IntText(n)) == IntText(n)
  {
  }

  /** A number and its decimal text are the same question under
      `Number()` coercion, but different questions under `===`. */
  lemma NumberTextLooselyEqual(n: int)
    ensures ToNumber(Str(IntText(n))) == Some(n as real)
    ensures LooseEquals(Str(IntText(n)), Int(n))
    ensures !StrictEquals(Str(IntText(n)), Int(n))
  {
    TrimIntText(n);
    var t := IntText(n);
    if n < 0 {
      assert t[1..] == NatText(-n);
      UnsignedNatText(-n);
    } else {
      assert t[0] != '-' && t[0] != '+' by { assert IsDigit(NatText(n)[0]); }
      UnsignedNatText(n);
    }
  }

  /** Distinct integers have distinct texts, so a numeric key's text
      identifies it. */
  lemma IntTextInjective(a: int, b: int)
    requires IntText(a) == IntText(b)
    ensures a == b
  {
    NumberTextLooselyEqual(a);
    NumberTextLooselyEqual(b);
  }

  /** A key whose `Number()` is NaN never matches, not even itself;
      a numeric key always matches itself. */
  lemma LooseReflexiveIffNumeric(k: Key)
    ensures LooseEquals(k, k) <==> ToNumber(k).Some?
  {
  }

  /** On numeric keys strict equality implies loose equality. */
  lemma StrictImpliesLoose(a: Key, b: Key)
    requires StrictEquals(a, b) && ToNumber(a).Some?
    ensures LooseEquals(a, b)
  {
  }

  /** Two examples of the coercion: "abc" is NaN, and "" is 0. */
  lemma CoercionExamples()
    ensures ToNumber(Str("abc")) == None
    ensures !LooseEquals(Str("abc"), Str("abc"))
    ensures LooseEquals(Str(""), Int(0))
    ensures LooseEquals(Str(" 2 "), Int(2))
  {
    assert Trim("abc") == "abc";
    assert FindChar("abc", '.') == 3;
    assert !IsDigit("abc"[0]);
    assert Trim(" 2 ") == "2" by {
      assert TrimStart(" 2 ") == "2 ";
      assert " 2 "[1..] == "2 ";
      assert "2 "[..1] == "2";
    }
    assert FindChar("2", '.') == 1;
    assert "2"[..1] == "2";
    assert DigitsValue("2") == 2 by { assert "2"[..0] == ""; }
  }
}
