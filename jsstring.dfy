/**
 * The JavaScript string operations the add-pet form relies on:
 * `String.prototype.trim` and the global `parseInt` without a radix, with
 * the ECMAScript definitions of white space and line terminators.
 */
module JsString {
  import opened Wrappers
  import opened Text

  /** WhiteSpace and LineTerminator code points (section 12.2 and 12.3 of ECMA-262). */
  predicate IsSpace(c: char)
  {
    || c == ' ' || c == '\t' || c == '\n' || c == '\r'
    || c == '\U{000B}' || c == '\U{000C}' || c == '\U{00A0}' || c == '\U{FEFF}'
    || c == '\U{1680}' || ('\U{2000}' <= c <= '\U{200A}')
    || c == '\U{2028}' || c == '\U{2029}' || c == '\U{202F}' || c == '\U{205F}' || c == '\U{3000}'
  }

  /** Drops leading white space: the result is the suffix that starts at the first other character. */
  function TrimStart(s: string): (r: string)
    ensures |r| <= |s| && r == s[|s| - |r|..]
    ensures forall i :: 0 <= i < |s| - |r| ==> IsSpace(s[i])
    ensures r == [] || !IsSpace(r[0])
  {
    if s != [] && IsSpace(s[0]) then TrimStart(s[1..]) else s
  }

  /** Drops trailing white space: the result is the prefix that ends at the last other character. */
  function TrimEnd(s: string): (r: string)
    ensures |r| <= |s| && r == s[..|r|]
    ensures forall i :: |r| <= i < |s| ==> IsSpace(s[i])
    ensures r == [] || !IsSpace(r[|r| - 1])
  {
    if s != [] && IsSpace(s[|s| - 1]) then TrimEnd(s[..|s| - 1]) else s
  }

  /**
   * `s.trim()`: the part of `s` that starts after its leading white space
   * and ends before its trailing white space, beginning and ending with
   * another character when not empty.
   */
  function Trim(s: string): (r: string)
    ensures var k := |s| - |TrimStart(s)|;
            k + |r| <= |s| && (forall i :: 0 <= i < |r| ==> r[i] == s[k + i])
            && (forall i :: 0 <= i < k ==> IsSpace(s[i]))
            && (forall i :: k + |r| <= i < |s| ==> IsSpace(s[i]))
    ensures r == [] || (!IsSpace(r[0]) && !IsSpace(r[|r| - 1]))
  {
    var t := TrimStart(s);
    var r := TrimEnd(t);
    TrimmedSlice(s, t, r);
    r
  }

  /**
   * A suffix `t` of `s` after white space, and a prefix `r` of `t` before
   * white space, make `r` a slice of `s` with only white space around it.
   */
  lemma TrimmedSlice(s: string, t: string, r: string)
    requires |t| <= |s| && t == s[|s| - |t|..]
    requires |r| <= |t| && r == t[..|r|]
    requires forall i :: 0 <= i < |s| - |t| ==> IsSpace(s[i])
    requires forall i :: |r| <= i < |t| ==> IsSpace(t[i])
    requires t == [] || !IsSpace(t[0])
    requires r == [] || !IsSpace(r[|r| - 1])
    ensures var k := |s| - |t|;
            k + |r| <= |s| && (forall i :: 0 <= i < |r| ==> r[i] == s[k + i])
            && (forall i :: 0 <= i < k ==> IsSpace(s[i]))
            && (forall i :: k + |r| <= i < |s| ==> IsSpace(s[i]))
    ensures r == [] || (!IsSpace(r[0]) && !IsSpace(r[|r| - 1]))
  {
    var k := |s| - |t|;
    forall i | 0 <= i < |r|
      ensures r[i] == s[k + i]
    {
      assert r[i] == t[i];
    }
    forall i | k + |r| <= i < |s|
      ensures IsSpace(s[i])
    {
      assert s[i] == t[i - k];
    }
    if r != [] {
      assert r[0] == t[0];
    }
  }

  /** A form field is blank exactly when it holds nothing but white space. */
  lemma TrimBlank(s: string)
    ensures Trim(s) == "" <==> forall i :: 0 <= i < |s| ==> IsSpace(s[i])
  {
  }

  /** The longest prefix of `s` made of digits of the radix. */
  function DigitPrefix(s: string, radix: nat): (r: string)
    ensures AllDigits(r, radix) && |r| <= |s| && r == s[..|r|]
    ensures |r| == |s| || !IsDigitIn(s[|r|], radix)
  {
    if s != [] && IsDigitIn(s[0], radix) then [s[0]] + DigitPrefix(s[1..], radix) else []
  }

  /** What follows the leading white space and at most one sign. */
  function AfterSign(s: string): (u: string)
    ensures |u| <= |s| && u == s[|s| - |u|..]
  {
    var t := TrimStart(s);
    if |t| > 0 && (t[0] == '-' || t[0] == '+') then t[1..] else t
  }

  /**
   * Nothing for `parseInt` to read: no decimal digit comes first, or a `0x`
   * or `0X` prefix is not followed by a hexadecimal digit.
   */
  predicate NoNumber(u: string)
  {
    || !(|u| > 0 && IsDigitIn(u[0], 10))
    || (|u| >= 2 && u[0] == '0' && (u[1] == 'x' || u[1] == 'X') && !(|u| > 2 && IsDigitIn(u[2], 16)))
  }

  /**
   * `parseInt(s)`: leading white space and one sign are skipped, a `0x` or
   * `0X` prefix selects base 16, and the longest run of digits that follows
   * is read; None stands for NaN, which is exactly when there is nothing to
   * read after the sign. Only a minus sign gives a negative number.
   */
  function ParseInt(s: string): (r: Option<int>)
    ensures r.None? <==> NoNumber(AfterSign(s))
    ensures r.Some? && r.value < 0 ==> TrimStart(s)[0] == '-'
  {
    var t := TrimStart(s);
    if |t| > 0 && t[0] == '-' then
      match ParseUnsigned(t[1..])
      case None => None
      case Some(n) => Some(-n)
    else if |t| > 0 && t[0] == '+' then ParseUnsigned(t[1..])
    else ParseUnsigned(t)
  }

  /** The digits after the sign, in base 16 behind `0x` or `0X` and in base 10 otherwise. */
  function ParseUnsigned(u: string): (r: Option<int>)
    ensures r.None? <==> NoNumber(u)
    ensures r.Some? ==> r.value >= 0
  {
    var hex := |u| >= 2 && u[0] == '0' && (u[1] == 'x' || u[1] == 'X');
    var radix := if hex then 16 else 10;
    var digits := DigitPrefix(if hex then u[2..] else u, radix);
    if digits == "" then None else Some(Value(digits, radix))
  }

  /** `parseInt(s) || 0`: NaN (and zero) become 0, any other number is kept. */
  function ParseIntOrZero(s: string): (n: int)
    ensures NoNumber(AfterSign(s)) ==> n == 0
    ensures !NoNumber(AfterSign(s)) ==> Some(n) == ParseInt(s)
  {
    match ParseInt(s)
    case None => 0
    case Some(n) => n
  }

  /** Without a sign, `parseInt` reads the digits right after the white space. */
  lemma Unsigned(s: string)
    requires TrimStart(s) == [] || (TrimStart(s)[0] != '-' && TrimStart(s)[0] != '+')
    ensures ParseInt(s) == ParseUnsigned(TrimStart(s))
  {
  }

  /**
   * A number typed in decimal, after white space and before anything that is
   * not a digit (nor the `x` that would turn a lone `0` into a hex prefix),
   * reads back as itself.
   */
  lemma {:induction false} ParseIntOfDecimal(pad: string, n: nat, tail: string)
    requires forall i :: 0 <= i < |pad| ==> IsSpace(pad[i])
    requires tail == [] || (!IsDigitIn(tail[0], 10) && tail[0] != 'x' && tail[0] != 'X')
    ensures ParseInt(pad + Decimal(n) + tail) == Some(n)
    ensures ParseIntOrZero(pad + Decimal(n) + tail) == n
  {
    var d := Decimal(n);
    var s := pad + d + tail;
    assert s == pad + (d + tail);
    assert (d + tail)[0] == d[0];
    assert IsDigitIn(d[0], 10);
    LeadingSpace(pad, d + tail);
    Unsigned(s);
    UnsignedDecimal(n, tail);
  }

  /** Decimal digits read back as their value, whatever non-digit follows them. */
  lemma UnsignedDecimal(n: nat, tail: string)
    requires tail == [] || (!IsDigitIn(tail[0], 10) && tail[0] != 'x' && tail[0] != 'X')
    ensures ParseUnsigned(Decimal(n) + tail) == Some(n)
  {
    var d := Decimal(n);
    var u := d + tail;
    if n == 0 {
      assert d == "0";
    } else {
      LeadingDigit(n);
    }
    assert u[0] == d[0];
    DigitsPrefix(d, tail);
    DecimalValue(n);
  }

  /** Leading white space is skipped whatever follows it. */
  lemma {:induction false} LeadingSpace(pad: string, s: string)
    requires forall i :: 0 <= i < |pad| ==> IsSpace(pad[i])
    requires s == [] || !IsSpace(s[0])
    ensures TrimStart(pad + s) == s
  {
    if pad != [] {
      assert (pad + s)[1..] == pad[1..] + s;
      LeadingSpace(pad[1..], s);
    }
  }

  /** The digit run of a string of digits followed by a non-digit is that string. */
  lemma {:induction false} DigitsPrefix(d: string, tail: string)
    requires AllDigits(d, 10)
    requires tail == [] || !IsDigitIn(tail[0], 10)
    ensures DigitPrefix(d + tail, 10) == d
  {
    if d != [] {
      assert (d + tail)[1..] == d[1..] + tail;
      assert IsDigitIn(d[0], 10);
      DigitsPrefix(d[1..], tail);
    }
  }

  /** Only zero is written with a leading '0'. */
  lemma {:induction false} LeadingDigit(n: nat)
    requires n > 0
    ensures Decimal(n)[0] != '0'
  {
    if n >= 10 {
      LeadingDigit(n / 10);
    }
  }
}
