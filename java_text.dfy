/** The few JDK text routines the mapper relies on, written out:
    Character.isWhitespace, String.trim, Integer.parseInt and
    Integer.toString. Strings are sequences of characters. */
module JavaText {
  import opened JsonValue

  /** Character.isWhitespace: the Unicode space, line and paragraph
      separators other than the non-breaking spaces U+00A0, U+2007 and
      U+202F, and the controls U+0009 to U+000D and U+001C to U+001F. */
  predicate IsWhitespace(c: char) {
    ('\t' <= c <= '\r') || ('\U{001C}' <= c <= ' ')
    || c == '\U{1680}' || ('\U{2000}' <= c <= '\U{2006}') || ('\U{2008}' <= c <= '\U{200A}')
    || c == '\U{2028}' || c == '\U{2029}' || c == '\U{205F}' || c == '\U{3000}'
  }

  /** The characters String.trim removes from both ends: code points up to U+0020. */
  predicate IsTrimmable(c: char) {
    c <= ' '
  }

  function TrimStart(s: string): string {
    if |s| > 0 && IsTrimmable(s[0]) then TrimStart(s[1..]) else s
  }

  function TrimEnd(s: string): string {
    if |s| > 0 && IsTrimmable(s[|s| - 1]) then TrimEnd(s[..|s| - 1]) else s
  }

  /** String.trim. Its properties are stated by TrimFacts rather than by an
      ensures clause, so that a proof about a token list does not pay for
      them at every token it looks at. */
  function Trim(s: string): string {
    TrimEnd(TrimStart(s))
  }

  /** TrimStart cuts a prefix of trimmable characters and stops at the first
      character above U+0020. */
  lemma {:induction false} TrimStartFacts(s: string)
    ensures |TrimStart(s)| <= |s| && TrimStart(s) == s[|s| - |TrimStart(s)|..]
    ensures forall k :: 0 <= k < |s| - |TrimStart(s)| ==> IsTrimmable(s[k])
    ensures |TrimStart(s)| > 0 ==> !IsTrimmable(TrimStart(s)[0])
  {
    if |s| > 0 && IsTrimmable(s[0]) {
      TrimStartFacts(s[1..]);
    }
  }

  /** TrimEnd cuts a suffix of trimmable characters and stops at the last
      character above U+0020. */
  lemma {:induction false} TrimEndFacts(s: string)
    ensures |TrimEnd(s)| <= |s| && TrimEnd(s) == s[..|TrimEnd(s)|]
    ensures forall k :: |TrimEnd(s)| <= k < |s| ==> IsTrimmable(s[k])
    ensures |TrimEnd(s)| > 0 ==> !IsTrimmable(TrimEnd(s)[|TrimEnd(s)| - 1])
  {
    if |s| > 0 && IsTrimmable(s[|s| - 1]) {
      TrimEndFacts(s[..|s| - 1]);
    }
  }

  /** How many characters String.trim cuts from the front of s. */
  function TrimOffset(s: string): nat {
    if |TrimStart(s)| <= |s| then |s| - |TrimStart(s)| else 0
  }

  /** String.trim returns the middle slice of s that starts at TrimOffset(s)
      and whose first and last characters are above U+0020; everything it
      cuts off is at most U+0020. */
  lemma TrimFacts(s: string)
    ensures TrimOffset(s) + |Trim(s)| <= |s|
    ensures Trim(s) == s[TrimOffset(s)..TrimOffset(s) + |Trim(s)|]
    ensures forall k :: 0 <= k < TrimOffset(s) ==> IsTrimmable(s[k])
    ensures forall k :: TrimOffset(s) + |Trim(s)| <= k < |s| ==> IsTrimmable(s[k])
    ensures |Trim(s)| > 0 ==> !IsTrimmable(Trim(s)[0]) && !IsTrimmable(Trim(s)[|Trim(s)| - 1])
  {
    var t := TrimStart(s);
    var r := TrimEnd(t);
    TrimStartFacts(s);
    TrimEndFacts(t);
    var a := |s| - |t|;
    assert r == s[a..a + |r|];
    assert forall k :: a + |r| <= k < |s| ==> s[k] == t[k - a];
  }

  /** Trim leaves a string alone when it is empty or its ends are above U+0020. */
  lemma TrimKeeps(s: string)
    requires |s| > 0 ==> !IsTrimmable(s[0]) && !IsTrimmable(s[|s| - 1])
    ensures Trim(s) == s
  {
    assert TrimStart(s) == s;
  }

  predicate IsDigit(c: char) {
    '0' <= c <= '9'
  }

  predicate AllDigits(s: string) {
    forall k :: 0 <= k < |s| ==> IsDigit(s[k])
  }

  /** The number a run of decimal digits denotes. */
  function DecimalValue(s: string): nat
    requires AllDigits(s)
  {
    if |s| == 0 then 0 else 10 * DecimalValue(s[..|s| - 1]) + (s[|s| - 1] as int - '0' as int)
  }

  predicate InInt32(n: int) {
    -0x8000_0000 <= n < 0x8000_0000
  }

  /** Integer.parseInt(s), radix 10, restricted to the ASCII digits: an
      optional '-' or '+' and at least one digit, denoting a value in the
      range of int. None stands for the NumberFormatException. */
  function ParseInt(s: string): (r: Option<int32>)
    ensures r.Some? ==> |s| > 0 && AllDigits(if s[0] == '-' || s[0] == '+' then s[1..] else s)
  {
    if |s| == 0 then None
    else
      var digits := if s[0] == '-' || s[0] == '+' then s[1..] else s;
      if |digits| == 0 || !AllDigits(digits) then None
      else
        var n: int := if s[0] == '-' then -(DecimalValue(digits) as int) else DecimalValue(digits);
        if InInt32(n) then Some(n as int32) else None
  }

  /** Integer.parseInt accepts exactly a text made of an optional sign and
      at least one digit whose signed decimal value fits in 32 bits, and
      then returns that value: it neither wraps around nor saturates. */
  lemma ParseIntMeaning(s: string)
    ensures var d := if |s| > 0 && (s[0] == '-' || s[0] == '+') then s[1..] else s;
      (ParseInt(s).Some? <==>
         |s| > 0 && |d| > 0 && AllDigits(d) &&
         InInt32(if s[0] == '-' then -(DecimalValue(d) as int) else DecimalValue(d))) &&
      (ParseInt(s).Some? ==>
         ParseInt(s).value as int == if s[0] == '-' then -(DecimalValue(d) as int) else DecimalValue(d))
  {
  }

  /** The decimal digits of m, most significant first, with no leading zero. */
  function Digits(m: nat): (r: string)
    ensures |r| > 0 && AllDigits(r)
    ensures |r| > 1 ==> r[0] != '0'
  {
    var last := ('0' as int + m % 10) as char;
    if m < 10 then [last] else Digits(m / 10) + [last]
  }

  /** Integer.toString: a '-' for negative values, then the digits of the magnitude. */
  function ShowInt(n: int32): string {
    if n < 0 then "-" + Digits(-(n as int)) else Digits(n as int)
  }

  lemma {:induction false} DecimalValueOfDigits(m: nat)
    ensures DecimalValue(Digits(m)) == m
  {
    var d := Digits(m);
    if m >= 10 {
      DecimalValueOfDigits(m / 10);
      assert d[..|d| - 1] == Digits(m / 10);
    }
  }

  /** Integer.parseInt reads back what Integer.toString writes. */
  lemma ParseShowInt(n: int32)
    ensures ParseInt(ShowInt(n)) == Some(n)
  {
    var t := ShowInt(n);
    if n < 0 {
      DecimalValueOfDigits(-(n as int));
      assert t[1..] == Digits(-(n as int));
    } else {
      DecimalValueOfDigits(n as int);
    }
  }

  /** What Integer.toString writes starts with '-' or a digit, ends with a
      digit, and holds nothing but these. */
  lemma ShowIntChars(n: int32)
    ensures |ShowInt(n)| > 0
    ensures forall k :: 0 <= k < |ShowInt(n)| ==> ShowInt(n)[k] == '-' || IsDigit(ShowInt(n)[k])
    ensures IsDigit(ShowInt(n)[|ShowInt(n)| - 1])
    ensures |ShowInt(n)| > 1 || IsDigit(ShowInt(n)[0])
  {
  }

  /** Integer.toString writes the decimal notation of n: for n >= 0 the
      digits of n, for n < 0 a '-' and the digits of -n, with no leading
      zero in either. */
  lemma ShowIntDecimal(n: int32)
    ensures n >= 0 ==> AllDigits(ShowInt(n)) && DecimalValue(ShowInt(n)) == n as int
    ensures n < 0 ==> |ShowInt(n)| > 1 && ShowInt(n)[0] == '-'
    ensures n < 0 ==> AllDigits(ShowInt(n)[1..]) && DecimalValue(ShowInt(n)[1..]) == -(n as int)
    ensures var d := if n < 0 then ShowInt(n)[1..] else ShowInt(n); |d| > 1 ==> d[0] != '0'
  {
    if n < 0 {
      DecimalValueOfDigits(-(n as int));
      assert ShowInt(n)[1..] == Digits(-(n as int));
    } else {
      DecimalValueOfDigits(n as int);
    }
  }

  /** Character.isWhitespace takes the ASCII separators and the control
      characters U+001C to U+001F, refuses the no-break spaces, never takes
      a '"', and below U+0080 takes only what String.trim also removes. */
  lemma WhitespaceClass(c: char)
    ensures c == ' ' || c == '\t' || c == '\n' || c == '\r' || c == '\U{000B}' || c == '\U{000C}' ==> IsWhitespace(c)
    ensures '\U{001C}' <= c <= '\U{001F}' ==> IsWhitespace(c)
    ensures c == '\U{00A0}' || c == '\U{2007}' || c == '\U{202F}' ==> !IsWhitespace(c)
    ensures IsWhitespace(c) ==> c != '"' && (c < '\U{0080}' ==> IsTrimmable(c))
  {
  }
}
