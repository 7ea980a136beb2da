/** The byte classes of http-parser.c, in strict mode. A byte is a `char` below 256; every
    function is defined for all of `char`, and treats the rest like the bytes above 127. */
module Chars {
  const CR: char := '\r'
  const LF: char := '\n'

  /** LOWER: sets bit 5. */
  function Lower(c: char): (r: char)
    ensures 'A' <= c <= 'Z' ==> r as int == c as int + 32
    ensures 'a' <= c <= 'z' ==> r == c
  {
    if c as int < 256 && c as int % 64 < 32 then (c as int + 32) as char else c
  }

  predicate IsAlpha(c: char) {
    'a' <= Lower(c) <= 'z'
  }

  predicate IsNum(c: char) {
    '0' <= c <= '9'
  }

  predicate IsAlphaNum(c: char) {
    IsAlpha(c) || IsNum(c)
  }

  predicate IsHex(c: char) {
    IsNum(c) || 'a' <= Lower(c) <= 'f'
  }

  predicate IsMark(c: char) {
    c == '-' || c == '_' || c == '.' || c == '!' || c == '~' || c == '*' || c == '\'' || c == '(' || c == ')'
  }

  predicate IsUserinfoChar(c: char) {
    || IsAlphaNum(c) || IsMark(c) || c == '%' || c == ';' || c == ':' || c == '&'
    || c == '=' || c == '+' || c == '$' || c == ','
  }

  /** The strict bitmap normal_url_char. */
  predicate IsUrlChar(c: char) {
    '!' <= c <= '~' && c != '#' && c != '?'
  }

  predicate IsHostChar(c: char) {
    IsAlphaNum(c) || c == '.' || c == '-'
  }

  /** The table `tokens`: the lower-cased token character, NUL for any other byte. */
  function Token(c: char): char {
    if 'A' <= c <= 'Z' then (c as int + 32) as char
    else if 'a' <= c <= 'z' || IsNum(c) then c
    else if c == '!' || '#' <= c <= '\'' || c == '*' || c == '+' || c == '-' || c == '.' || '^' <= c <= '`'
         || c == '|' || c == '~' then c
    else '\0'
  }

  /** The table `unhex`: the value of a hexadecimal digit, -1 for any other byte. */
  function Unhex(c: char): (v: int)
    ensures -1 <= v < 16
  {
    if IsNum(c) then c as int - '0' as int
    else if 'a' <= c <= 'f' then c as int - 'a' as int + 10
    else if 'A' <= c <= 'F' then c as int - 'A' as int + 10
    else -1
  }

  function Digit(c: char): (v: nat)
    requires IsNum(c)
    ensures v < 10
  {
    c as int - '0' as int
  }
}
