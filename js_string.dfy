/** The part of JavaScript's string semantics the employee form relies on:
    `String.prototype.trim` (ECMA-262, section 22.1.3.32 of the 2024 edition)
    and the truthiness of a string in a condition. */
module JsString {

  /** WhiteSpace (ECMA-262 section 12.2) and LineTerminator (section 12.3)
      code points: TAB, VT, FF, ZWNBSP, every category-Zs space (U+0020,
      U+00A0, U+1680, U+2000 to U+200A, U+202F, U+205F, U+3000), LF, CR, LS
      and PS. */
  const WhiteSpaceChars: set<char> := {
    '\t', '\U{000B}', '\U{000C}', '\U{FEFF}',
    ' ', '\U{00A0}', '\U{1680}',
    '\U{2000}', '\U{2001}', '\U{2002}', '\U{2003}', '\U{2004}', '\U{2005}',
    '\U{2006}', '\U{2007}', '\U{2008}', '\U{2009}', '\U{200A}',
    '\U{202F}', '\U{205F}', '\U{3000}',
    '\n', '\r', '\U{2028}', '\U{2029}'
  }

  predicate IsWhiteSpace(c: char) {
    c in WhiteSpaceChars
  }

  ghost predicate AllWhiteSpace(s: string) {
    forall i :: 0 <= i < |s| ==> IsWhiteSpace(s[i])
  }

  /** Strips the leading white space: the result is a suffix of `s` that does
      not start with white space, and everything cut off is white space. */
  function TrimStart(s: string): (r: string)
    ensures |r| <= |s| && r == s[|s| - |r|..]
    ensures r == [] || !IsWhiteSpace(r[0])
    ensures forall i :: 0 <= i < |s| - |r| ==> IsWhiteSpace(s[i])
  {
    if |s| > 0 && IsWhiteSpace(s[0]) then TrimStart(s[1..]) else s
  }

  /** Strips the trailing white space: the result is a prefix of `s` that
      does not end with white space, and everything cut off is white space. */
  function TrimEnd(s: string): (r: string)
    ensures |r| <= |s| && r == s[..|r|]
    ensures r == [] || !IsWhiteSpace(r[|r| - 1])
    ensures forall i :: |r| <= i < |s| ==> IsWhiteSpace(s[i])
  {
    if |s| > 0 && IsWhiteSpace(s[|s| - 1]) then TrimEnd(s[..|s| - 1]) else s
  }

  /** `s.trim()`: white space is stripped from both ends, start first; the
      result neither starts nor ends with white space. */
  function Trim(s: string): (r: string)
    ensures |r| <= |s|
    ensures r == [] || (!IsWhiteSpace(r[0]) && !IsWhiteSpace(r[|r| - 1]))
  {
    TrimEnd(TrimStart(s))
  }

  /** Trimming keeps a slice of the string, starting where the leading
      white space ends. */
  lemma TrimIsSlice(s: string)
    ensures |s| - |TrimStart(s)| + |Trim(s)| <= |s|
    ensures Trim(s) == s[|s| - |TrimStart(s)|..|s| - |TrimStart(s)| + |Trim(s)|]
  {
  }

  /** What trimming cuts off after the kept slice is white space (what it
      cuts off before it is, by the contract of `TrimStart`). */
  lemma TrimCutsWhiteSpace(s: string)
    ensures forall i :: |s| - |TrimStart(s)| + |Trim(s)| <= i < |s| ==> IsWhiteSpace(s[i])
  {
  }

  /** A string is truthy in a JavaScript condition exactly when it is not
      empty. */
  predicate Truthy(s: string) {
    s != ""
  }

  /** The form's notion of a filled-in field: `value.trim()` is truthy. */
  predicate NonBlank(s: string) {
    Truthy(Trim(s))
  }

  /** A value is blank exactly when every one of its characters is white
      space; in particular the empty string and whitespace-only strings are
      blank. */
  lemma BlankIffAllWhiteSpace(s: string)
    ensures !NonBlank(s) <==> AllWhiteSpace(s)
  {
  }

  /** Trimming only removes white space: a value with a character that is
      not white space is never blank. */
  lemma NonWhiteSpaceMakesNonBlank(s: string, i: nat)
    requires i < |s| && !IsWhiteSpace(s[i])
    ensures NonBlank(s)
  {
    BlankIffAllWhiteSpace(s);
  }
}
