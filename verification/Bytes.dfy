/** Character classes of the HTTP parser, strict build. */
module Bytes {

  /** One byte of the stream. */
  type byte = c: char | c as int < 256

  const CR: byte := '\r'
  const LF: byte := '\n'

  /** `LOWER`: sets bit 5, whatever the byte is. */
  function Lower(ch: byte): byte {
    var v := ch as int;
    if v / 32 % 2 == 0 then (v + 32) as char else ch
  }

  predicate IsAlpha(ch: byte) { 'a' <= Lower(ch) <= 'z' }

  predicate IsNum(ch: byte) { '0' <= ch <= '9' }

  predicate IsAlphaNum(ch: byte) { IsAlpha(ch) || IsNum(ch) }

  predicate IsHex(ch: byte) { IsNum(ch) || 'a' <= Lower(ch) <= 'f' }

  predicate IsMark(ch: byte) {
    ch == '-' || ch == '_' || ch == '.' || ch == '!' || ch == '~' ||
    ch == '*' || ch == '\'' || ch == '(' || ch == ')'
  }

  predicate IsUserinfoChar(ch: byte) {
    IsAlphaNum(ch) || IsMark(ch) || ch == '%' || ch == ';' || ch == ':' ||
    ch == '&' || ch == '=' || ch == '+' || ch == '$' || ch == ','
  }

  predicate IsHostChar(ch: byte) { IsAlphaNum(ch) || ch == '.' || ch == '-' }

  /** `IS_URL_CHAR`: the bits set in `normal_url_char`; the table is zero from 128 on. */
  predicate IsUrlChar(ch: byte) { '!' <= ch <= '~' && ch != '#' && ch != '?' }

  /** `IS_HEADER_CHAR` */
  predicate IsHeaderChar(ch: byte) {
    ch == CR || ch == LF || ch == '\t' || (ch as int > 31 && ch as int != 127)
  }

  /** `TOKEN`: the lower-cased token character, or NUL where the byte is no token character. */
  function Token(ch: byte): byte {
    if 'A' <= ch <= 'Z' then (ch as int + 32) as char
    else if 'a' <= ch <= 'z' || IsNum(ch) then ch
    else if ch == '!' || ch == '#' || ch == '$' || ch == '%' || ch == '&' || ch == '\'' ||
            ch == '*' || ch == '+' || ch == '-' || ch == '.' || ch == '^' || ch == '_' ||
            ch == '`' || ch == '|' || ch == '~' then ch
    else '\0'
  }

  predicate IsToken(ch: byte) { Token(ch) != '\0' }

  function Digit(ch: byte): nat
    requires IsNum(ch)
  {
    ch as int - '0' as int
  }

  /** `unhex`: the table has 128 initialisers, so every byte from 128 on reads as the digit 0. */
  function Unhex(ch: byte): (v: int)
    ensures -1 <= v < 16
  {
    if IsNum(ch) then Digit(ch)
    else if 'a' <= ch <= 'f' then ch as int - 'a' as int + 10
    else if 'A' <= ch <= 'F' then ch as int - 'A' as int + 10
    else if ch as int < 128 then -1
    else 0
  }

  /** Reading a NUL-terminated word at `i`. */
  function CharAt(word: string, i: nat): char {
    if i < |word| then word[i] else '\0'
  }
}
