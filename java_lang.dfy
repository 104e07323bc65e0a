/**
 * The small part of java.lang that the tool's core leans on: nullable
 * strings, string conversion in concatenation, String.trim, decimal
 * rendering of an int, and the character classes used by the HTML encoder.
 */
module JavaLang {

  datatype Option<T> = None | Some(value: T)
  {
    function GetOr(default: T): T
    {
      if Some? then value else default
    }
  }

  datatype Result<T, E> = Success(value: T) | Failure(error: E)

  /** A Java String reference: `None` is `null`. */
  type JString = Option<string>

  /**
   * What `"" + s` produces in Java: the characters of `s`, or the four
   * characters "null" when `s` is null.
   */
  function Str(s: JString): (r: string)
    ensures s.Some? ==> r == s.value
    ensures s.None? ==> r == "null"
  {
    match s
    case None => "null"
    case Some(v) => v
  }

  /** String.trim strips every character whose code is at most U+0020. */
  predicate IsTrimmable(c: char)
  {
    c <= ' '
  }

  function TrimLeading(s: string): string
    decreases |s|
  {
    if |s| > 0 && IsTrimmable(s[0]) then TrimLeading(s[1..]) else s
  }

  function TrimTrailing(s: string): string
    decreases |s|
  {
    if |s| > 0 && IsTrimmable(s[|s| - 1]) then TrimTrailing(s[..|s| - 1]) else s
  }

  /** TrimLeading drops a prefix of trimmable characters and stops at the first other one. */
  lemma {:induction false} TrimLeadingSuffix(s: string)
    ensures var r := TrimLeading(s);
      && |r| <= |s| && r == s[|s| - |r|..]
      && (r == [] || !IsTrimmable(r[0]))
      && forall i :: 0 <= i < |s| - |r| ==> IsTrimmable(s[i])
    decreases |s|
  {
    if |s| > 0 && IsTrimmable(s[0]) {
      TrimLeadingSuffix(s[1..]);
    }
  }

  /** TrimTrailing drops a suffix of trimmable characters and stops at the last other one. */
  lemma {:induction false} TrimTrailingPrefix(s: string)
    ensures var r := TrimTrailing(s);
      && |r| <= |s| && r == s[..|r|]
      && (r == [] || !IsTrimmable(r[|r| - 1]))
      && forall i :: |r| <= i < |s| ==> IsTrimmable(s[i])
    decreases |s|
  {
    if |s| > 0 && IsTrimmable(s[|s| - 1]) {
      TrimTrailingPrefix(s[..|s| - 1]);
    }
  }

  /** Neither end of `s` holds a character that String.trim would strip. */
  predicate IsTrimmed(s: string)
  {
    s == [] || (!IsTrimmable(s[0]) && !IsTrimmable(s[|s| - 1]))
  }

  /** java.lang.String.trim. */
  function Trim(s: string): string
  {
    TrimTrailing(TrimLeading(s))
  }

  /**
   * Trimming leaves a middle slice of `s` whose ends cannot be trimmed
   * further, and removes only trimmable characters.
   */
  lemma TrimIsTrimmed(s: string)
    ensures IsTrimmed(Trim(s)) && |Trim(s)| <= |s|
  {
    var l := TrimLeading(s);
    var t := TrimTrailing(l);
    TrimLeadingSuffix(s);
    TrimTrailingPrefix(l);
    if t != [] {
      assert t[0] == l[0];
    }
  }

  lemma TrimOfTrimmed(s: string)
    requires IsTrimmed(s)
    ensures Trim(s) == s
  {
  }

  /** String.trim is idempotent: trimming twice is trimming once. */
  lemma TrimIdempotent(s: string)
    ensures Trim(Trim(s)) == Trim(s)
  {
    TrimIsTrimmed(s);
    TrimOfTrimmed(Trim(s));
  }

  /** The decimal digits Java prints for a non-negative int. */
  function NatToDecimal(n: nat): (r: string)
    ensures |r| > 0
    ensures forall i :: 0 <= i < |r| ==> '0' <= r[i] <= '9'
    decreases n
  {
    if n < 10 then [DigitChar(n)] else NatToDecimal(n / 10) + [DigitChar(n % 10)]
  }

  function DigitChar(d: nat): (c: char)
    requires d < 10
    ensures '0' <= c <= '9'
  {
    (48 + d) as char
  }

  /** The number a string of decimal digits denotes, read left to right. */
  function DecimalValue(s: string): nat
  {
    if s == [] then 0
    else
      var last := s[|s| - 1];
      DecimalValue(s[..|s| - 1]) * 10 + (if '0' <= last <= '9' then last as int - 48 else 0)
  }

  /**
   * NatToDecimal writes n itself: its digits denote n, and only zero
   * starts with the digit '0', as Java's Integer.toString prints it.
   */
  lemma {:induction false} DecimalRoundTrip(n: nat)
    ensures DecimalValue(NatToDecimal(n)) == n
    ensures NatToDecimal(n)[0] == '0' ==> n == 0
    decreases n
  {
    if n >= 10 {
      DecimalRoundTrip(n / 10);
      var r := NatToDecimal(n);
      assert r[..|r| - 1] == NatToDecimal(n / 10);
      assert r[0] == NatToDecimal(n / 10)[0];
    }
  }

  /**
   * Character.isWhitespace: the Unicode space, line and paragraph
   * separators other than the non-breaking ones, plus U+0009..U+000D and
   * U+001C..U+001F.
   */
  predicate IsJavaWhitespace(c: char)
  {
    var k := c as int;
    (9 <= k <= 13) || (28 <= k <= 32)
    || k == 0x1680 || (0x2000 <= k <= 0x2006) || (0x2008 <= k <= 0x200A)
    || k == 0x2028 || k == 0x2029 || k == 0x205F || k == 0x3000
  }

  /** Character.isLetterOrDigit, restricted to the ASCII letters and digits. */
  predicate IsAsciiLetterOrDigit(c: char)
  {
    ('a' <= c <= 'z') || ('A' <= c <= 'Z') || ('0' <= c <= '9')
  }
}
