/** The character classes of the parser against those of the standards, by character code. */
module Alphabets {
  import opened Bytes

  predicate Within(ch: byte, lo: nat, hi: nat) { lo <= ch as int <= hi }

  // ---- the standards' classes

  predicate Letter(ch: byte) { Within(ch, 65, 90) || Within(ch, 97, 122) }

  predicate DecimalDigit(ch: byte) { Within(ch, 48, 57) }

  predicate HexDigit(ch: byte) { DecimalDigit(ch) || Within(ch, 65, 70) || Within(ch, 97, 102) }

  /** `tchar`, section 3.2.6 of RFC 7230. */
  predicate TokenChar(ch: byte) {
    Letter(ch) || DecimalDigit(ch) || Within(ch, 33, 33) || Within(ch, 35, 39) || Within(ch, 42, 43) ||
    Within(ch, 45, 46) || Within(ch, 94, 96) || Within(ch, 124, 124) || Within(ch, 126, 126)
  }

  /** The bytes of a field value, section 3.2 of RFC 7230: visible characters, space, tab, and from 128 on. */
  predicate FieldChar(ch: byte) { Within(ch, 9, 9) || Within(ch, 32, 126) || Within(ch, 128, 255) }

  /** Section 2.3 of RFC 3986. */
  predicate Unreserved(ch: byte) { Letter(ch) || DecimalDigit(ch) || ch in "-._~" }

  /** Section 2.2 of RFC 3986. */
  predicate SubDelim(ch: byte) { ch in "!$&'()*+,;=" }

  /** The characters of user info, percent signs included: section 3.2.1 of RFC 3986. */
  predicate InUserinfo(ch: byte) { Unreserved(ch) || SubDelim(ch) || ch == '%' || ch == ':' }

  /** The characters of a path, section 3.3 of RFC 3986. */
  predicate InPath(ch: byte) { InUserinfo(ch) || ch == '@' || ch == '/' }

  /** The characters of a query and of a fragment, sections 3.4 and 3.5 of RFC 3986. */
  predicate InQuery(ch: byte) { InPath(ch) || ch == '?' }

  /** The characters of a registered name that the strict build takes. */
  predicate InName(ch: byte) { Letter(ch) || DecimalDigit(ch) || ch == '.' || ch == '-' }

  /** The characters of a zone, percent signs included: section 2 of RFC 6874. */
  predicate InZone(ch: byte) { Unreserved(ch) || ch == '%' }

  /** A visible ASCII character that ends no path. */
  predicate VisiblePath(ch: byte) { Within(ch, 33, 34) || Within(ch, 36, 62) || Within(ch, 64, 126) }

  // ---- the parser's classes are these

  lemma LettersAre(ch: byte)
    ensures IsAlpha(ch) <==> Letter(ch)
    ensures IsAlphaNum(ch) <==> Letter(ch) || DecimalDigit(ch)
    ensures Lower(ch) as int == if ch as int / 32 % 2 == 0 then ch as int + 32 else ch as int
  {}

  lemma DigitsAre(ch: byte)
    ensures IsNum(ch) <==> DecimalDigit(ch)
    ensures IsNum(ch) ==> Digit(ch) == ch as int - 48
  {}

  /** Hexadecimal digits have their values; the others have none, but for those from 128 on, which count as 0. */
  lemma HexDigitsAre(ch: byte)
    ensures IsHex(ch) <==> HexDigit(ch)
    ensures Unhex(ch) == if DecimalDigit(ch) then ch as int - 48
                         else if Within(ch, 65, 70) then ch as int - 55
                         else if Within(ch, 97, 102) then ch as int - 87
                         else if ch as int >= 128 then 0 else -1
  {}

  /** Token characters are those of the standard, and are compared without case. */
  lemma TokensAre(ch: byte)
    ensures IsToken(ch) <==> TokenChar(ch)
    ensures TokenChar(ch) ==> Token(ch) as int == if Within(ch, 65, 90) then ch as int + 32 else ch as int
  {}

  lemma FieldCharsAre(ch: byte)
    ensures FieldChar(ch) <==> IsHeaderChar(ch) && ch != CR && ch != LF
  {}

  lemma UrlCharsAre(ch: byte)
    ensures IsUrlChar(ch) <==> VisiblePath(ch)
    ensures IsUserinfoChar(ch) <==> InUserinfo(ch)
    ensures IsHostChar(ch) <==> InName(ch)
  {}

  /** The standard's characters are among those taken. */
  lemma StandardChars(ch: byte)
    ensures InPath(ch) ==> VisiblePath(ch)
    ensures InQuery(ch) ==> VisiblePath(ch) || ch == '?'
  {}
}
