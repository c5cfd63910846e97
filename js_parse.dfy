// JavaScript's `Number.parseInt(s, 10)` on strings: leading whitespace is
// skipped, one sign is read, then the longest run of decimal digits; text
// after the digits is ignored, and no digits at all gives NaN.
module JsParse {
  import opened Wrappers
  import opened Text

  /** The longest prefix of `s` made of decimal digits. */
  function LeadingDigits(s: string): (r: string)
    ensures AllDigits(r) && |r| <= |s| && r == s[..|r|]
    ensures |r| < |s| ==> !IsDigit(s[|r|])
  {
    if s != [] && IsDigit(s[0]) then [s[0]] + LeadingDigits(s[1..]) else []
  }

  /** `Number.parseInt(s, 10)`; None stands for NaN. */
  function ParseInt(s: string): Option<int>
  {
    ParseSigned(TrimStartBy(s, Js))
  }

  /** The optional sign and the digits after it, once leading whitespace is gone. */
  function ParseSigned(t: string): Option<int>
  {
    var body := if t != [] && (t[0] == '-' || t[0] == '+') then t[1..] else t;
    var digits := LeadingDigits(body);
    if digits == [] then None
    else if t[0] == '-' then Some(-(DigitsValue(digits) as int))
    else Some(DigitsValue(digits))
  }

  /** Text that does not start with whitespace has nothing to skip. */
  lemma TrimStartKeeps(s: string)
    requires s != [] && !IsJsSpace(s[0])
    ensures TrimStartBy(s, Js) == s
  {
  }

  lemma {:induction false} LeadingDigitsOfDigits(d: string, tail: string)
    requires AllDigits(d)
    requires tail == [] || !IsDigit(tail[0])
    ensures LeadingDigits(d + tail) == d
    decreases |d|
  {
    if d != [] {
      assert (d + tail)[1..] == d[1..] + tail;
      LeadingDigitsOfDigits(d[1..], tail);
      assert d == [d[0]] + d[1..];
    } else {
      assert d + tail == tail;
    }
  }

  /** Digits, then text that does not start with a digit, read as the digits' value. */
  lemma ParseIntUnsigned(d: string, tail: string)
    requires d != [] && AllDigits(d)
    requires tail == [] || !IsDigit(tail[0])
    ensures ParseInt(d + tail) == Some(DigitsValue(d))
  {
    var s := d + tail;
    assert s[0] == d[0] && IsDigit(s[0]);
    TrimStartKeeps(s);
    LeadingDigitsOfDigits(d, tail);
  }

  /** A minus sign in front negates the value. */
  lemma ParseIntNegative(s: string, d: string, tail: string)
    requires d != [] && AllDigits(d)
    requires tail == [] || !IsDigit(tail[0])
    requires s != [] && s[0] == '-' && s[1..] == d + tail
    ensures ParseInt(s) == Some(-(DigitsValue(d) as int))
  {
    TrimStartKeeps(s);
    LeadingDigitsOfDigits(d, tail);
  }

  /**
    * A printed integer followed by text that does not start with a digit
    * reads back as that integer: `parseInt("42px") == 42`.
    */
  lemma ParseIntOfString(i: int, tail: string)
    requires tail == [] || !IsDigit(tail[0])
    ensures ParseInt(IntToString(i) + tail) == Some(i)
  {
    if i < 0 {
      ParseIntOfNegative(i, tail);
    } else {
      NatToStringValue(i);
      ParseIntUnsigned(NatToString(i), tail);
    }
  }

  lemma ParseIntOfNegative(i: int, tail: string)
    requires i < 0
    requires tail == [] || !IsDigit(tail[0])
    ensures ParseInt(IntToString(i) + tail) == Some(i)
  {
    var n: nat := -i;
    NegativeString(i, tail);
    NatToStringValue(n);
    ParseIntNegative(IntToString(i) + tail, NatToString(n), tail);
  }

  lemma NegativeString(i: int, tail: string)
    requires i < 0
    ensures IntToString(i) + tail != []
    ensures (IntToString(i) + tail)[0] == '-' && (IntToString(i) + tail)[1..] == NatToString(-i) + tail
  {
    var s := IntToString(i) + tail;
    assert s == "-" + (NatToString(-i) + tail);
  }

  /** Text without a digit after the optional whitespace and sign is NaN. */
  lemma ParseIntNoDigits(s: string)
    requires forall k :: 0 <= k < |s| ==> !IsDigit(s[k])
    ensures ParseInt(s).None?
  {
    var t := TrimStartBy(s, Js);
    var body := if t != [] && (t[0] == '-' || t[0] == '+') then t[1..] else t;
    assert body == [] || body[0] == s[|s| - |body|];
  }
}
