/**
  The text operations both programs take from libraries: the string
  similarity of string-similarity's compareTwoStrings, natural's
  WordTokenizer, and JavaScript's toLowerCase. Similarity and tokenizer stay
  abstract (any function of the right type); lowercasing is modelled on
  ASCII letters.
 */
module Text {

  /** A similarity score, always within [0, 1]. */
  type Score = r: real | 0.0 <= r <= 1.0

  /** compareTwoStrings(a, b). */
  type Similarity = (string, string) -> Score

  /** WordTokenizer.tokenize(s). */
  type Tokenizer = string -> seq<string>

  function LowerChar(c: char): char
  {
    if 'A' <= c <= 'Z' then (c as int + 32) as char else c
  }

  /** toLowerCase on the ASCII letters. */
  function LowerCase(s: string): (r: string)
    ensures |r| == |s|
    ensures forall i :: 0 <= i < |r| ==> !('A' <= r[i] <= 'Z')
    ensures forall i :: 0 <= i < |s| && !('A' <= s[i] <= 'Z') ==> r[i] == s[i]
    ensures forall i :: 0 <= i < |s| && 'A' <= s[i] <= 'Z' ==> 'a' <= r[i] <= 'z' && r[i] as int == s[i] as int + 32
  {
    seq(|s|, i requires 0 <= i < |s| => LowerChar(s[i]))
  }

  /** Lowercasing twice is lowercasing once, so a question stored after
      normalisation normalises to itself. */
  lemma LowerCaseIdempotent(s: string)
    ensures LowerCase(LowerCase(s)) == LowerCase(s)
  {
  }
}
