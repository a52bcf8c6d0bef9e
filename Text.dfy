/** Characters and words as the analysis sees them: an ASCII reading of
    Python's `str.isalpha` and `str.lower`, and the vowel-letter scan
    `re.findall(r'[aeiouy]', word)` that stands in for syllables. */
module Text {
  import opened Counting

  predicate IsUpper(c: char)
  {
    'A' <= c <= 'Z'
  }

  predicate IsLetter(c: char)
  {
    IsUpper(c) || 'a' <= c <= 'z'
  }

  /** `c.lower()` on one character. */
  function LowerChar(c: char): (l: char)
    ensures !IsUpper(l)
    ensures IsLetter(l) == IsLetter(c)
    ensures !IsUpper(c) ==> l == c
    ensures IsUpper(c) ==> 'a' <= l <= 'z'
    ensures IsUpper(c) ==> l as int - 'a' as int == c as int - 'A' as int
  {
    if IsUpper(c) then (c as int - 'A' as int + 'a' as int) as char else c
  }

  /** `s.isalpha()`: true exactly when `s` is non-empty and every character is a letter. */
  predicate IsAlphaWord(s: string)
  {
    |s| > 0 && forall i :: 0 <= i < |s| ==> IsLetter(s[i])
  }

  /** No upper-case letter anywhere in `s`. */
  predicate IsLowerWord(s: string)
  {
    forall i :: 0 <= i < |s| ==> !IsUpper(s[i])
  }

  /** `s.lower()`. */
  function Lower(s: string): (r: string)
    ensures |r| == |s|
    ensures forall i :: 0 <= i < |s| ==> r[i] == LowerChar(s[i])
    ensures IsLowerWord(r)
    ensures IsAlphaWord(r) == IsAlphaWord(s)
  {
    if s == [] then [] else [LowerChar(s[0])] + Lower(s[1..])
  }

  /** Lowering changes a word exactly when it has an upper-case letter,
      so lowering twice is lowering once. */
  lemma LowerFixesExactlyLowerWords(s: string)
    ensures Lower(s) == s <==> IsLowerWord(s)
    ensures Lower(Lower(s)) == Lower(s)
  {
    if IsLowerWord(s) {
      assert forall i :: 0 <= i < |s| ==> Lower(s)[i] == s[i];
    }
    var l := Lower(s);
    assert forall i :: 0 <= i < |l| ==> Lower(l)[i] == l[i];
  }

  /** The character class `[aeiouy]`: lower-case letters only, as in the regular expression. */
  predicate IsVowel(c: char)
  {
    c == 'a' || c == 'e' || c == 'i' || c == 'o' || c == 'u' || c == 'y'
  }

  /** `len(re.findall(r'[aeiouy]', w))`: every match is one character of the class. */
  function VowelCount(w: string): nat
  {
    CountWhere(w, IsVowel)
  }

  /** A word the fog index treats as complex: more than two vowel letters. */
  predicate IsComplex(w: string)
  {
    VowelCount(w) > 2
  }

  /** The vowel count is the number of a's, e's, i's, o's, u's and y's in the word. */
  lemma {:induction false} VowelCountByLetter(w: string)
    ensures VowelCount(w) == multiset(w)['a'] + multiset(w)['e'] + multiset(w)['i']
                             + multiset(w)['o'] + multiset(w)['u'] + multiset(w)['y']
  {
    if w != [] {
      assert w == [w[0]] + w[1..];
      assert multiset(w) == multiset{w[0]} + multiset(w[1..]);
      VowelCountByLetter(w[1..]);
    }
  }
}
