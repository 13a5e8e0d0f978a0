/**
 * Text helpers shared by the server and the client: JavaScript's
 * `String.prototype.split` and `join` for a one-character separator, and
 * digit strings in a given radix.
 */
module Text {
  import opened Wrappers

  /** Index of the first occurrence of `d` in `s`. */
  function IndexOf(s: string, d: char): (k: nat)
    requires d in s
    ensures k < |s| && s[k] == d && d !in s[..k]
  {
    if s[0] == d then 0 else 1 + IndexOf(s[1..], d)
  }

  /** The first occurrence of `d` in `a + [d] + b` is at `|a|` when `a` has none. */
  lemma IndexOfFirst(a: string, d: char, b: string)
    requires d !in a
    ensures IndexOf(a + [d] + b, d) == |a|
  {
    var s := a + [d] + b;
    assert s[|a|] == d;
    assert s[..|a|] == a;
  }

  /**
   * `s.split(d)` in JavaScript: the maximal pieces of `s` between
   * occurrences of `d`, empty pieces included; a string without `d`
   * splits into itself.
   */
  function Split(s: string, d: char): (parts: seq<string>)
    ensures |parts| >= 1
    ensures forall i :: 0 <= i < |parts| ==> d !in parts[i]
    ensures Join(parts, d) == s
    decreases |s|
  {
    if d !in s then [s]
    else
      var k := IndexOf(s, d);
      var rest := Split(s[k + 1..], d);
      assert s == s[..k] + [d] + s[k + 1..];
      [s[..k]] + rest
  }

  /** `parts.join(d)` in JavaScript. */
  function Join(parts: seq<string>, d: char): string
  {
    if |parts| == 0 then ""
    else if |parts| == 1 then parts[0]
    else parts[0] + [d] + Join(parts[1..], d)
  }

  /** Splitting a join gives the pieces back when none contains the separator. */
  lemma {:induction false} SplitJoin(parts: seq<string>, d: char)
    requires |parts| >= 1
    requires forall i :: 0 <= i < |parts| ==> d !in parts[i]
    ensures Split(Join(parts, d), d) == parts
    decreases |parts|
  {
    if |parts| > 1 {
      var rest := Join(parts[1..], d);
      var s := parts[0] + [d] + rest;
      assert Join(parts, d) == s;
      IndexOfFirst(parts[0], d, rest);
      assert s[..|parts[0]|] == parts[0];
      assert s[|parts[0]| + 1..] == rest;
      SplitJoin(parts[1..], d);
      assert parts == [parts[0]] + parts[1..];
    }
  }

  lemma JoinTwo(a: string, b: string, d: char)
    ensures Join([a, b], d) == a + [d] + b
  {
    assert [a, b][1..] == [b];
  }

  lemma JoinThree(a: string, b: string, c: string, d: char)
    ensures Join([a, b, c], d) == a + [d] + b + [d] + c
  {
    assert [a, b, c][1..] == [b, c];
    JoinTwo(b, c, d);
  }

  /** The characters a base64url encoder emits (section 5 of RFC 4648). */
  predicate IsUrlSafeChar(c: char)
  {
    ('A' <= c <= 'Z') || ('a' <= c <= 'z') || ('0' <= c <= '9') || c == '-' || c == '_'
  }

  predicate UrlSafe(s: string)
  {
    forall i :: 0 <= i < |s| ==> IsUrlSafeChar(s[i])
  }

  /** Joining base64url pieces with a base64url separator gives base64url text. */
  lemma {:induction false} JoinUrlSafe(parts: seq<string>, d: char)
    requires IsUrlSafeChar(d)
    requires forall i :: 0 <= i < |parts| ==> UrlSafe(parts[i])
    ensures UrlSafe(Join(parts, d))
    decreases |parts|
  {
    if |parts| > 1 {
      JoinUrlSafe(parts[1..], d);
      var j := Join(parts[1..], d);
      var s := parts[0] + [d] + j;
      forall i | 0 <= i < |s| ensures IsUrlSafeChar(s[i]) {
        if i < |parts[0]| {
          assert s[i] == parts[0][i];
        } else if i > |parts[0]| {
          assert s[i] == j[i - |parts[0]| - 1];
        }
      }
    }
  }

  /** A character other than the separator that no piece holds is not in the join. */
  lemma {:induction false} JoinExcludes(parts: seq<string>, d: char, c: char)
    requires c != d
    requires forall i :: 0 <= i < |parts| ==> c !in parts[i]
    ensures c !in Join(parts, d)
    decreases |parts|
  {
    if |parts| > 1 {
      JoinExcludes(parts[1..], d, c);
    }
  }

  /** A character outside the base64url alphabet does not occur in base64url text. */
  lemma UrlSafeExcludes(s: string, c: char)
    requires UrlSafe(s)
    requires !IsUrlSafeChar(c)
    ensures c !in s
  {
  }

  /** The value of a digit character in radices up to 16; 16 for any other character. */
  function DigitValue(c: char): (v: nat)
    ensures v <= 16
    ensures v < 10 <==> '0' <= c <= '9'
  {
    if '0' <= c <= '9' then c as int - '0' as int
    else if 'a' <= c <= 'f' then c as int - 'a' as int + 10
    else if 'A' <= c <= 'F' then c as int - 'A' as int + 10
    else 16
  }

  predicate IsDigitIn(c: char, radix: nat)
  {
    DigitValue(c) < radix
  }

  predicate AllDigits(s: string, radix: nat)
  {
    forall i :: 0 <= i < |s| ==> IsDigitIn(s[i], radix)
  }

  /** The number a digit string denotes, most significant digit first. */
  function Value(s: string, radix: nat): nat
    requires AllDigits(s, radix)
  {
    if |s| == 0 then 0
    else Value(s[..|s| - 1], radix) * radix + DigitValue(s[|s| - 1])
  }

  function DigitChar(n: nat): (c: char)
    requires n < 10
    ensures '0' <= c <= '9' && DigitValue(c) == n
  {
    (n + '0' as int) as char
  }

  /** The shortest decimal spelling of `n`, as JavaScript's `String(n)` writes it. */
  function Decimal(n: nat): (s: string)
    ensures |s| >= 1 && AllDigits(s, 10)
  {
    if n < 10 then [DigitChar(n)] else Decimal(n / 10) + [DigitChar(n % 10)]
  }

  /** Reads a non-empty decimal digit string; anything else is rejected. */
  function ParseDecimal(s: string): (r: Option<nat>)
    ensures r.Some? <==> |s| >= 1 && AllDigits(s, 10)
  {
    if |s| >= 1 && AllDigits(s, 10) then Some(Value(s, 10)) else None
  }

  lemma {:induction false} DecimalValue(n: nat)
    ensures Value(Decimal(n), 10) == n
  {
    if n >= 10 {
      var s := Decimal(n);
      assert s[..|s| - 1] == Decimal(n / 10);
      DecimalValue(n / 10);
    }
  }

  /** Decimal spelling and parsing are inverse. */
  lemma DecimalRoundTrip(n: nat)
    ensures ParseDecimal(Decimal(n)) == Some(n)
  {
    DecimalValue(n);
  }

  function Pow10(w: nat): (p: nat)
    ensures p >= 1
  {
    if w == 0 then 1 else 10 * Pow10(w - 1)
  }

  /** `n` in exactly `w` decimal digits, with leading zeros. */
  function Padded(n: nat, w: nat): (s: string)
    requires n < Pow10(w)
    ensures |s| == w && AllDigits(s, 10)
  {
    if w == 0 then "" else Padded(n / 10, w - 1) + [DigitChar(n % 10)]
  }

  lemma {:induction false} PaddedValue(n: nat, w: nat)
    requires n < Pow10(w)
    ensures Value(Padded(n, w), 10) == n
  {
    if w > 0 {
      var s := Padded(n, w);
      assert s[..|s| - 1] == Padded(n / 10, w - 1);
      PaddedValue(n / 10, w - 1);
    }
  }
}
