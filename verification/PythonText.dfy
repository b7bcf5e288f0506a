// The white space that Python's str methods know.
module PythonText {
  predicate Space(c: char) {
    c == ' ' || '\t' <= c <= '\r' || '\U{1C}' <= c <= '\U{1F}' || c == '\U{85}' || c == '\U{A0}'
    || c == '\U{1680}' || '\U{2000}' <= c <= '\U{200A}' || c == '\U{2028}' || c == '\U{2029}'
    || c == '\U{202F}' || c == '\U{205F}' || c == '\U{3000}'
  }

  // Below 128: tab to carriage return, the four separators, and the blank.
  lemma AsciiSpaces(c: char)
    requires c < 128 as char
    ensures Space(c) <==> c in {' ', '\t', '\n', '\U{0B}', '\U{0C}', '\r', '\U{1C}', '\U{1D}', '\U{1E}', '\U{1F}'}
  {
  }

  lemma OtherSpaces(c: char)
    requires c >= 128 as char
    ensures Space(c) <==>
            c as int in {0x85, 0xA0, 0x1680, 0x2000, 0x2001, 0x2002, 0x2003, 0x2004, 0x2005, 0x2006, 0x2007,
                         0x2008, 0x2009, 0x200A, 0x2028, 0x2029, 0x202F, 0x205F, 0x3000}
  {
  }

  function Rstrip(s: string): string
    decreases |s|
  {
    if |s| > 0 && Space(s[|s| - 1]) then Rstrip(s[..|s| - 1]) else s
  }

  function Lstrip(s: string): string
    decreases |s|
  {
    if |s| > 0 && Space(s[0]) then Lstrip(s[1..]) else s
  }

  function Strip(s: string): string { Rstrip(Lstrip(s)) }
}
