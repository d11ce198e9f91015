/** The ASCII character classes of Python's `string` module
    (`ascii_letters`, `digits`, `punctuation`) and the ASCII part of
    `str.lower` and `str.capitalize`. */
module Ascii {

  predicate IsLowerLetter(c: char) { 'a' <= c <= 'z' }
  predicate IsUpperLetter(c: char) { 'A' <= c <= 'Z' }
  predicate IsLetter(c: char) { IsLowerLetter(c) || IsUpperLetter(c) }
  predicate IsDigit(c: char) { '0' <= c <= '9' }

  /** Printable ASCII (codes 33..126) that is neither a letter nor a digit. */
  predicate IsPunctuation(c: char) { '!' <= c <= '~' && !IsLetter(c) && !IsDigit(c) }

  /** The characters with codes lo..hi, in increasing order. */
  function CharRange(lo: char, hi: char): (r: string)
    requires lo <= hi && hi as int < 128
    ensures |r| == hi as int - lo as int + 1
    ensures forall i :: 0 <= i < |r| ==> lo <= r[i] <= hi
  {
    seq(hi as int - lo as int + 1, i requires 0 <= i <= hi as int - lo as int => (lo as int + i) as char)
  }

  lemma InCharRange(lo: char, hi: char, c: char)
    requires lo <= hi && hi as int < 128
    ensures c in CharRange(lo, hi) <==> lo <= c <= hi
  {
    if lo <= c <= hi {
      assert CharRange(lo, hi)[c as int - lo as int] == c;
    }
  }

  /** `string.ascii_lowercase`, `string.ascii_uppercase`, and their
      concatenation `string.ascii_letters`. */
  const AsciiLowercase: string := CharRange('a', 'z')
  const AsciiUppercase: string := CharRange('A', 'Z')
  const AsciiLetters: string := AsciiLowercase + AsciiUppercase

  /** `string.digits`. */
  const Digits: string := CharRange('0', '9')

  /** `string.punctuation`: the four runs of ASCII punctuation, in code order. */
  const Punctuation: string :=
    CharRange('!', '/') + CharRange(':', '@') + CharRange('[', '`') + CharRange('{', '~')

  lemma LettersMembership(c: char)
    ensures c in AsciiLetters <==> IsLetter(c)
  {
    InCharRange('a', 'z', c);
    InCharRange('A', 'Z', c);
  }

  lemma DigitsMembership(c: char)
    ensures c in Digits <==> IsDigit(c)
  {
    InCharRange('0', '9', c);
  }

  lemma PunctuationMembership(c: char)
    ensures c in Punctuation <==> IsPunctuation(c)
  {
    InCharRange('!', '/', c);
    InCharRange(':', '@', c);
    InCharRange('[', '`', c);
    InCharRange('{', '~', c);
  }

  /** The three constants have the sizes and the contents of Python's. */
  lemma ConstantsAsWritten()
    ensures |AsciiLetters| == 52 && |Digits| == 10 && |Punctuation| == 32
    ensures AsciiLowercase == "abcdefghijklmnopqrstuvwxyz"
    ensures AsciiUppercase == "ABCDEFGHIJKLMNOPQRSTUVWXYZ"
    ensures AsciiLetters == "abcdefghijklmnopqrstuvwxyzABCDEFGHIJKLMNOPQRSTUVWXYZ"
    ensures Digits == "0123456789"
    ensures Punctuation == "!\"#$%&'()*+,-./:;<=>?@[\\]^_`{|}~"
  {
    assert AsciiLowercase == "abcdefghijklmnopqrstuvwxyz";
    assert AsciiUppercase == "ABCDEFGHIJKLMNOPQRSTUVWXYZ";
  }

  function LowerChar(c: char): (r: char)
    ensures !IsUpperLetter(r)
    ensures IsUpperLetter(c) ==> IsLowerLetter(r) && r as int == c as int + 32
    ensures !IsUpperLetter(c) ==> r == c
  {
    if IsUpperLetter(c) then (c as int + 32) as char else c
  }

  function UpperChar(c: char): (r: char)
    ensures !IsLowerLetter(r)
    ensures IsLowerLetter(c) ==> IsUpperLetter(r) && r as int == c as int - 32
    ensures !IsLowerLetter(c) ==> r == c
  {
    if IsLowerLetter(c) then (c as int - 32) as char else c
  }

  /** `str.lower` restricted to ASCII: every upper-case letter becomes its
      lower-case partner, every other character is kept. */
  function Lower(s: string): (r: string)
    ensures |r| == |s|
    ensures forall i :: 0 <= i < |r| ==> !IsUpperLetter(r[i])
    ensures forall i :: 0 <= i < |s| && !IsUpperLetter(s[i]) ==> r[i] == s[i]
    ensures forall i :: 0 <= i < |s| && IsUpperLetter(s[i]) ==> IsLowerLetter(r[i]) && r[i] as int == s[i] as int + 32
  {
    seq(|s|, i requires 0 <= i < |s| => LowerChar(s[i]))
  }

  /** `str.capitalize` restricted to ASCII: the first character upper case,
      the rest lower case. */
  function Capitalize(s: string): (r: string)
    ensures |r| == |s|
    ensures |r| > 0 ==> !IsLowerLetter(r[0]) && r[1..] == Lower(s[1..])
    ensures Lower(r) == Lower(s)
  {
    if |s| == 0 then "" else [UpperChar(s[0])] + Lower(s[1..])
  }

  lemma LowerIdempotent(s: string)
    ensures Lower(Lower(s)) == Lower(s)
  {
  }

  /** A string is its own lower-case form exactly when it holds no upper-case letter. */
  lemma LowerFixedPoint(s: string)
    ensures Lower(s) == s <==> forall i :: 0 <= i < |s| ==> !IsUpperLetter(s[i])
  {
  }

  lemma CapitalizeIdempotent(s: string)
    ensures Capitalize(Capitalize(s)) == Capitalize(s)
  {
  }

  /** Capitalizing ignores the case the word was stored in. */
  lemma CapitalizeOfLower(s: string)
    ensures Capitalize(Lower(s)) == Capitalize(s)
  {
  }
}
