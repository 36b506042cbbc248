/** Byte classification used by the tokeniser (src/utils.rs). */
module Utils {

  /** A Rust `u8`. */
  type byte = b: int | 0 <= b < 0x100

  /** `is_digit`: an ASCII decimal digit. */
  predicate IsDigit(c: byte)
  {
    '0' as int <= c <= '9' as int
  }

  /** An ASCII letter, lower or upper case (the letter arms of `is_alnum`). */
  predicate IsLetter(c: byte)
  {
    ('a' as int <= c <= 'z' as int) || ('A' as int <= c <= 'Z' as int)
  }

  /** `is_alnum`: a digit or an ASCII letter. */
  predicate IsAlnum(c: byte)
  {
    IsDigit(c) || IsLetter(c)
  }

  /** `is_space`: blank, carriage return or tab; a newline is not a space. */
  predicate IsSpace(c: byte)
  {
    c == ' ' as int || c == '\r' as int || c == '\t' as int
  }

  /** The byte as a digit value, for a digit byte. */
  function DigitValue(c: byte): (d: nat)
    requires IsDigit(c)
    ensures d < 10
  {
    c - '0' as int
  }

  lemma DigitIsAlnum(c: byte)
    ensures IsDigit(c) ==> IsAlnum(c)
  {
  }

  /** The classes the three predicates describe, spelled out byte by byte. */
  lemma Classification(c: byte)
    ensures IsDigit(c) <==> 48 <= c <= 57
    ensures IsAlnum(c) <==> (48 <= c <= 57) || (65 <= c <= 90) || (97 <= c <= 122)
    ensures IsSpace(c) <==> c in {9, 13, 32}
    ensures !IsSpace('\n' as int) && !IsAlnum('\n' as int)
    ensures IsSpace(c) ==> !IsAlnum(c)
  {
  }
}
