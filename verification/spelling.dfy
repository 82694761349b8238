/** Spelling normalisation: the lowercase mapping and the removal of a
    trailing "(n)" disambiguation suffix, which together turn a dictionary
    spelling into its map key. */
module Spelling {

  /** Case mapping of one character; only ASCII letters are mapped. */
  function LowerChar(c: char): char
  {
    if 'A' <= c <= 'Z' then (c as int + 32) as char else c
  }

  predicate IsUpper(c: char)
  {
    'A' <= c <= 'Z'
  }

  function ToLower(s: string): (r: string)
    ensures |r| == |s|
    ensures forall i :: 0 <= i < |s| ==> r[i] == LowerChar(s[i])
    ensures forall i :: 0 <= i < |r| ==> !IsUpper(r[i])
  {
    if |s| == 0 then "" else [LowerChar(s[0])] + ToLower(s[1..])
  }

  /** The index of the last occurrence of `c` in `s`, or -1 when there is none. */
  function LastIndexOf(s: string, c: char): (i: int)
    ensures -1 <= i < |s|
    ensures 0 <= i ==> s[i] == c
    ensures forall j :: i < j < |s| ==> s[j] != c
  {
    if |s| == 0 then -1
    else if s[|s| - 1] == c then |s| - 1
    else LastIndexOf(s[..|s| - 1], c)
  }

  /** `word[n..]` is a disambiguation suffix: an opening parenthesis at a
      positive index `n` with no later opening parenthesis, and a closing
      parenthesis as the last character. Nothing is required of the text in
      between, which need not be digits. */
  predicate SuffixAt(word: string, n: int)
  {
    && 0 < n < |word|
    && word[n] == '('
    && word[|word| - 1] == ')'
    && forall j :: n < j < |word| ==> word[j] != '('
  }

  /** Strips a trailing "(...)" suffix whose opening parenthesis is not the
      first character; any other word comes back unchanged. The word must not
      be empty, because the last character is inspected unguarded. */
  function RemoveParens(word: string): (r: string)
    requires |word| > 0
    ensures r != word <==> exists n :: SuffixAt(word, n)
    ensures r != word ==> |r| < |word| && SuffixAt(word, |r|) && r == word[..|r|]
  {
    if word[|word| - 1] == ')' then
      var index := LastIndexOf(word, '(');
      if index > 0 then assert SuffixAt(word, index); word[..index] else word
    else
      word
  }

  /** The map key of a dictionary spelling. */
  function NormalizeKey(spelling: string): (key: string)
    requires |spelling| > 0
    ensures |key| <= |spelling|
    ensures forall i :: 0 <= i < |key| ==> !IsUpper(key[i])
  {
    ToLower(RemoveParens(spelling))
  }

  lemma ToLowerIdempotent(s: string)
    ensures ToLower(ToLower(s)) == ToLower(s)
  {
  }

  /** A spelling with no upper-case letter is its own lowercase form. */
  lemma ToLowerFixed(s: string)
    requires forall i :: 0 <= i < |s| ==> !IsUpper(s[i])
    ensures ToLower(s) == s
  {
  }

  lemma ToLowerPrefix(s: string, n: nat)
    requires n <= |s|
    ensures ToLower(s[..n]) == ToLower(s)[..n]
  {
  }

  /** Lowercasing never creates or destroys a parenthesis, so it does not move
      the last opening parenthesis. */
  lemma LastIndexOfLower(s: string)
    ensures LastIndexOf(ToLower(s), '(') == LastIndexOf(s, '(')
  {
  }

  /** Suffix stripping and lowercasing commute. */
  lemma RemoveParensLower(s: string)
    requires |s| > 0
    ensures RemoveParens(ToLower(s)) == ToLower(RemoveParens(s))
  {
    var t := ToLower(s);
    assert t[|t| - 1] == ')' <==> s[|s| - 1] == ')';
    LastIndexOfLower(s);
    var index := LastIndexOf(s, '(');
    if s[|s| - 1] == ')' && index > 0 {
      ToLowerPrefix(s, index);
    }
  }

  /** Two spellings that differ only in letter case have the same key. */
  lemma NormalizeKeyIgnoresCase(a: string, b: string)
    requires |a| > 0 && |b| > 0
    requires ToLower(a) == ToLower(b)
    ensures NormalizeKey(a) == NormalizeKey(b)
  {
    RemoveParensLower(a);
    RemoveParensLower(b);
  }
}
