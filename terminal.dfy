/**
 * The boundary classifier `is_terminal_char`: which code points (and the
 * absent code point) count as separators around a selected token.
 */
module Terminal {
  import opened Options

  /** White-space code points in the classifier's table (including U+FEFF). */
  predicate IsSpaceCodePoint(c: int) {
    (0x09 <= c <= 0x0D) || c == 0x20 || c == 0xA0 || c == 0x1680
    || (0x2000 <= c <= 0x200A) || c == 0x2028 || c == 0x2029
    || c == 0x202F || c == 0x205F || c == 0x3000 || c == 0xFEFF
  }

  /** Punctuation code points in the classifier's table: ASCII marks, the acute accent and the curly quotes. */
  predicate IsBoundaryPunctuation(c: int) {
    c in {0x21, 0x22, 0x27, 0x28, 0x29, 0x2C, 0x2E, 0x3A, 0x3B, 0x3F,
          0x5B, 0x5D, 0x60, 0x7B, 0x7D, 0xB4, 0x2018, 0x2019, 0x201C, 0x201D}
  }

  /** A present code point that the classifier treats as a separator. */
  predicate IsSeparator(c: int) {
    IsSpaceCodePoint(c) || IsBoundaryPunctuation(c)
  }

  /**
   * The switch table of `is_terminal_char`: `None` (an absent code point) and
   * the 45 listed code points are separators, everything else is not.
   * Every separator lies in the Basic Multilingual Plane outside the surrogate
   * range, so reading text by code unit or by code point classifies alike.
   */
  function IsTerminalChar(v: Option<int>): (r: bool)
    ensures r <==> v.None? || IsSeparator(v.value)
    ensures r && v.Some? ==> 0x09 <= v.value <= 0xFFFF && !(0xD800 <= v.value <= 0xDFFF)
  {
    match v
    case None => true
    case Some(c) =>
      match c
      case 0x0009 | 0x000a | 0x000b | 0x000c | 0x000d
         | 0x002c | 0x002e | 0x0020 | 0x0021 | 0x0022 | 0x0027 | 0x0028 | 0x0029
         | 0x003a | 0x003b | 0x003f | 0x005b | 0x005d | 0x0060 | 0x007b | 0x007d
         | 0x00a0 | 0x00b4 | 0x1680
         | 0x2000 | 0x2001 | 0x2002 | 0x2003 | 0x2004 | 0x2005 | 0x2006
         | 0x2007 | 0x2008 | 0x2009 | 0x200a
         | 0x2018 | 0x2019 | 0x201c | 0x201d | 0x2028 | 0x2029 | 0x202f
         | 0x205f | 0x3000 | 0xfeff => true
      case _ => false
  }

  /** Letters and digits of ASCII are never separators. */
  lemma AsciiAlphanumericNotTerminal(c: int)
    requires 0x30 <= c <= 0x39 || 0x41 <= c <= 0x5A || 0x61 <= c <= 0x7A
    ensures !IsTerminalChar(Some(c))
  {
  }
}
