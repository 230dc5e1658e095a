/**
  Character classes of the two fixed patterns in zos_lineinfile.py, as Python's
  `re` module applies them to a `str` under `re.IGNORECASE`.
 */
module Chars {

  /** What `[A-Z]` matches under `re.IGNORECASE`: the 52 ASCII letters and
      four non-ASCII letters. U+0130 and U+212A have an ASCII simple lower-case
      mapping (`i` and `k`); U+0131 and U+017F are listed in the `re` module's
      case-equivalence table beside `i` and `s`. */
  predicate IsLetter(c: char)
    ensures IsLetter(c) <==> 'a' <= IgnoreCaseKey(c) <= 'z'
  {
    || ('A' <= c <= 'Z')
    || ('a' <= c <= 'z')
    || c == '\U{130}'
    || c == '\U{131}'
    || c == '\U{17F}'
    || c == '\U{212A}'
  }

  /** The character that `re.IGNORECASE` compares when it matches `c`
      against a class of ASCII letters: the simple lower-case mapping of an
      ASCII capital, of U+0130 or of U+212A, or the ASCII letter the `re`
      module treats as equivalent to U+0131 or U+017F. No other character
      lower-cases to, or is equivalent to, an ASCII letter, so every other
      character stands for itself here. */
  function IgnoreCaseKey(c: char): char {
    if 'A' <= c <= 'Z' then (c as int + 32) as char
    else if c == '\U{130}' || c == '\U{131}' then 'i'
    else if c == '\U{17F}' then 's'
    else if c == '\U{212A}' then 'k'
    else c
  }

  /** What `0-9` inside a character class matches: ASCII digits only. */
  predicate IsDigit(c: char) {
    '0' <= c <= '9'
  }

  /** What `[A-Z0-9]` matches under `re.IGNORECASE`. */
  predicate IsAlnum(c: char) {
    IsLetter(c) || IsDigit(c)
  }

  /** The classes the two patterns distinguish. Two characters in the same
      class are interchangeable for both patterns. */
  datatype Class = Letter | Digit | Dot | Open | Close | Dash | Other

  function ClassOf(c: char): (k: Class)
    ensures k == Letter <==> IsLetter(c)
    ensures k == Digit <==> IsDigit(c)
    ensures k == Dot <==> c == '.'
    ensures k == Open <==> c == '('
    ensures k == Close <==> c == ')'
    ensures k == Dash <==> c == '-'
  {
    if IsLetter(c) then Letter
    else if IsDigit(c) then Digit
    else if c == '.' then Dot
    else if c == '(' then Open
    else if c == ')' then Close
    else if c == '-' then Dash
    else Other
  }

  /** `s` and `t` agree character by character up to case (and up to the
      choice among equivalent letters or digits). */
  predicate SameShape(s: string, t: string) {
    |s| == |t| && forall i :: 0 <= i < |s| ==> ClassOf(s[i]) == ClassOf(t[i])
  }

  /** ASCII upper-casing of one character; every other character is kept. */
  function UpperChar(c: char): (d: char)
    ensures ClassOf(d) == ClassOf(c)
    ensures 'a' <= c <= 'z' ==> 'A' <= d <= 'Z'
    ensures !('a' <= c <= 'z') ==> d == c
  {
    if 'a' <= c <= 'z' then (c as int - 32) as char else c
  }

  /** ASCII lower-casing of one character; every other character is kept. */
  function LowerChar(c: char): (d: char)
    ensures ClassOf(d) == ClassOf(c)
    ensures 'A' <= c <= 'Z' ==> 'a' <= d <= 'z'
    ensures !('A' <= c <= 'Z') ==> d == c
  {
    if 'A' <= c <= 'Z' then (c as int + 32) as char else c
  }

  /** ASCII upper-casing; it never changes the class of any character. */
  function Upper(s: string): (r: string)
    ensures SameShape(s, r)
  {
    seq(|s|, i requires 0 <= i < |s| => UpperChar(s[i]))
  }

  /** ASCII lower-casing; it never changes the class of any character. */
  function Lower(s: string): (r: string)
    ensures SameShape(s, r)
  {
    seq(|s|, i requires 0 <= i < |s| => LowerChar(s[i]))
  }

  /** Agreement of shape carries over to matching slices. */
  lemma SameShapeSlice(s: string, t: string, i: nat, j: nat)
    requires SameShape(s, t)
    requires i <= j <= |s|
    ensures SameShape(s[i..j], t[i..j])
  {
  }
}
