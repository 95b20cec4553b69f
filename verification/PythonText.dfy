/** The parts of Python's string library that the scripts rely on. */
module PythonText {

  /** What `str.isspace` says of a character, and `strip` removes. */
  predicate IsSpace(c: char) {
    c == ' ' || '\t' <= c <= '\r' || '\U{1C}' <= c <= '\U{1F}' || c == '\U{85}' || c == '\U{A0}' || c == '\U{1680}' ||
    '\U{2000}' <= c <= '\U{200A}' || c == '\U{2028}' || c == '\U{2029}' || c == '\U{202F}' || c == '\U{205F}' || c == '\U{3000}'
  }

  /** In ASCII: the space, tab to carriage return, and the four separators. */
  lemma AsciiSpaces(c: char)
    requires c as int < 128
    ensures IsSpace(c) <==> c as int == 32 || 9 <= c as int <= 13 || 28 <= c as int <= 31
  {
  }

  predicate Blank(s: string) {
    forall i :: 0 <= i < |s| ==> IsSpace(s[i])
  }

  function Strip(s: string): string {
    if |s| > 0 && IsSpace(s[0]) then Strip(s[1..])
    else if |s| > 0 && IsSpace(s[|s| - 1]) then Strip(s[..|s| - 1])
    else s
  }

  /** Lower case, as far as ASCII letters can result from it: the Kelvin sign is the
      one character outside ASCII whose lower case is an ASCII letter. */
  function Lower(s: string): string {
    seq(|s|, i requires 0 <= i < |s| =>
          if 'A' <= s[i] <= 'Z' then (s[i] as int + 32) as char else if s[i] == '\U{212A}' then 'k' else s[i])
  }

  /** A text without white space at its ends is left as it is. */
  lemma StripsNothing(s: string)
    requires |s| > 0 ==> !IsSpace(s[0]) && !IsSpace(s[|s| - 1])
    ensures Strip(s) == s
  {
  }

  /** The zeros of the decimal digits beyond ASCII that `int` accepts (Unicode 14). */
  const ZEROS: seq<int> := [
    0x660, 0x6F0, 0x7C0, 0x966, 0x9E6, 0xA66, 0xAE6, 0xB66, 0xBE6, 0xC66, 0xCE6, 0xD66, 0xDE6, 0xE50, 0xED0, 0xF20,
    0x1040, 0x1090, 0x17E0, 0x1810, 0x1946, 0x19D0, 0x1A80, 0x1A90, 0x1B50, 0x1BB0, 0x1C40, 0x1C50, 0xA620, 0xA8D0, 0xA900,
    0xA9D0, 0xA9F0, 0xAA50, 0xABF0, 0xFF10, 0x104A0, 0x10D30, 0x11066, 0x110F0, 0x11136, 0x111D0, 0x112F0, 0x11450, 0x114D0,
    0x11650, 0x116C0, 0x11730, 0x118E0, 0x11950, 0x11C50, 0x11D50, 0x11DA0, 0x16A60, 0x16AC0, 0x16B50, 0x1D7CE, 0x1D7D8,
    0x1D7E2, 0x1D7EC, 0x1D7F6, 0x1E140, 0x1E2F0, 0x1E950, 0x1FBF0]

  /** The value of a decimal digit from the zeros at `k` on, or -1. */
  function DigitFrom(c: char, k: nat): int
    requires k <= |ZEROS|
    decreases |ZEROS| - k
  {
    if k == |ZEROS| then -1
    else if ZEROS[k] <= c as int <= ZEROS[k] + 9 then c as int - ZEROS[k]
    else DigitFrom(c, k + 1)
  }

  function DigitValue(c: char): int {
    if '0' <= c <= '9' then c as int - '0' as int else DigitFrom(c, 0)
  }
}
