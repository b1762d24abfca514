/** The few System.String and System.Char operations the model needs. */
module Text {

  /** char.IsWhiteSpace, restricted to the ASCII and Latin-1 white-space characters. */
  predicate IsWhiteSpace(c: char)
  {
    c == ' ' || '\t' <= c <= '\r' || c == '\U{85}' || c == '\U{A0}'
  }

  /** string.IsNullOrWhiteSpace for a non-null string. */
  predicate IsBlank(s: string)
  {
    forall i :: 0 <= i < |s| ==> IsWhiteSpace(s[i])
  }

  /** An upper-case letter of the ASCII or Latin-1 range (the multiplication sign excepted). */
  predicate IsUpper(c: char)
  {
    'A' <= c <= 'Z' || ('\U{C0}' <= c <= '\U{DE}' && c != '\U{D7}')
  }

  /** char.ToLower on the ASCII and Latin-1 range: upper-case letters move 32 code points down the table. */
  function ToLowerChar(c: char): (l: char)
    ensures !IsUpper(l)
    ensures IsUpper(c) || l == c
    ensures IsWhiteSpace(l) <==> IsWhiteSpace(c)
  {
    if IsUpper(c) then (c as int + 32) as char else c
  }

  /** The text without its trailing spaces. */
  function TrimTrailingSpaces(s: string): (t: string)
    ensures |t| <= |s| && t == s[..|t|]
    ensures t == [] || t[|t| - 1] != ' '
    ensures forall i :: |t| <= i < |s| ==> s[i] == ' '
  {
    if s == [] || s[|s| - 1] != ' ' then s else TrimTrailingSpaces(s[..|s| - 1])
  }

  /** Each character lower-cased. */
  function LowerText(s: string): (t: string)
    ensures |t| == |s| && forall i :: 0 <= i < |s| ==> t[i] == ToLowerChar(s[i])
  {
    seq(|s|, i requires 0 <= i < |s| => ToLowerChar(s[i]))
  }

  /** The form in which the database's default collation compares two texts. */
  function CanonicalText(s: string): string
  {
    LowerText(TrimTrailingSpaces(s))
  }

  /**
   * Equality under SQL Server's default collation (SQL_Latin1_General_CP1_CI_AS):
   * case-insensitive, and blind to trailing spaces, which `=` pads away.
   */
  predicate CollationEquals(a: string, b: string)
  {
    CanonicalText(a) == CanonicalText(b)
  }

  predicate IsDigit(c: char)
  {
    '0' <= c <= '9'
  }

  /** The value of a string of decimal digits. */
  function DigitsValue(s: string): (v: nat)
    requires forall i :: 0 <= i < |s| ==> IsDigit(s[i])
    ensures |s| > 0 && s[0] != '0' ==> v > 0
  {
    if s == [] then 0
    else
      var last := s[|s| - 1];
      assert IsDigit(last);
      assert |s| > 1 ==> s[..|s| - 1][0] == s[0];
      DigitsValue(s[..|s| - 1]) * 10 + (last as int - '0' as int)
  }
}
