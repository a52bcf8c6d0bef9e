/** The scorecard of one article (`analyze_text`): word cleaning, lexicon
    scores, the vowel-letter syllable proxy, the guarded ratios, the fog index
    and the personal-pronoun count. The sentence and word tokenizers are not
    part of the model: their outputs, `sentences` and `tokens`, are the inputs. */
module TextAnalysis {
  import opened Counting
  import opened Text

  const POSITIVE_WORDS: seq<string> := ["good", "great", "positive", "excellent", "fortunate", "correct", "superior"]
  const NEGATIVE_WORDS: seq<string> := ["bad", "poor", "negative", "wrong", "inferior", "unfortunate"]
  const PERSONAL_PRONOUNS: seq<string> := ["i", "we", "me", "us", "my", "our"]

  /** The `1e-5` added to the denominators of polarity and subjectivity, as an exact real. */
  const EPSILON: real := 0.00001

  /** The metrics of one article; field order follows the returned record. */
  datatype Scorecard = Scorecard(
    positiveScore: nat,
    negativeScore: nat,
    polarityScore: real,
    subjectivityScore: real,
    avgSentenceLength: real,
    percentageComplexWords: real,
    fogIndex: real,
    complexWordCount: nat,
    wordCount: nat,
    syllablePerWord: real,
    personalPronouns: nat,
    avgWordLength: real)

  // ---------------------------------------------------------------------------
  // Cleaned words

  /** What every cleaned word is: lower-case, alphabetic and non-empty. */
  predicate IsCleanWord(w: string)
  {
    IsAlphaWord(w) && IsLowerWord(w)
  }

  /** What one token contributes to the cleaned words: its lowered form if it
      is alphabetic, nothing otherwise. */
  function Kept(t: string): seq<string>
  {
    if IsAlphaWord(t) then [Lower(t)] else []
  }

  /** `[word.lower() for word in words if word.isalpha()]`. */
  function CleanWords(tokens: seq<string>): (ws: seq<string>)
    ensures |ws| == CountWhere(tokens, IsAlphaWord)
    ensures forall i :: 0 <= i < |ws| ==> IsCleanWord(ws[i])
  {
    if tokens == [] then [] else Kept(tokens[0]) + CleanWords(tokens[1..])
  }

  lemma {:induction false} CleanWordsAppend(xs: seq<string>, ys: seq<string>)
    ensures CleanWords(xs + ys) == CleanWords(xs) + CleanWords(ys)
  {
    if xs == [] {
      assert xs + ys == ys;
    } else {
      assert (xs + ys)[1..] == xs[1..] + ys;
      CleanWordsAppend(xs[1..], ys);
    }
  }

  /** The words of one more token: its lowered form if it is alphabetic, nothing otherwise. */
  lemma CleanWordsSnoc(tokens: seq<string>, t: string)
    ensures CleanWords(tokens + [t]) == CleanWords(tokens) + Kept(t)
  {
    CleanWordsAppend(tokens, [t]);
    assert [t][1..] == [];
  }

  /** `word_count` is the number of raw tokens that are entirely alphabetic. */
  lemma WordCountIsAlphaTokens(tokens: seq<string>)
    ensures |CleanWords(tokens)| == |set i | 0 <= i < |tokens| && IsAlphaWord(tokens[i])|
  {
    CountWhereIsWitnessCount(tokens, IsAlphaWord);
    assert Witnesses(tokens, IsAlphaWord) == set i | 0 <= i < |tokens| && IsAlphaWord(tokens[i]);
  }

  /** Cleaning already-cleaned words changes nothing. */
  lemma {:induction false} CleanWordsIdempotent(tokens: seq<string>)
    ensures CleanWords(CleanWords(tokens)) == CleanWords(tokens)
  {
    CleanWordsFixesCleanWords(CleanWords(tokens));
  }

  lemma {:induction false} CleanWordsFixesCleanWords(ws: seq<string>)
    requires forall i :: 0 <= i < |ws| ==> IsCleanWord(ws[i])
    ensures CleanWords(ws) == ws
  {
    if ws != [] {
      LowerFixesExactlyLowerWords(ws[0]);
      CleanWordsFixesCleanWords(ws[1..]);
      assert ws == [ws[0]] + ws[1..];
    }
  }

  // ---------------------------------------------------------------------------
  // Lexicon and pronoun tests, one per generator in `analyze_text`

  /** `word in positive_words`. */
  predicate IsPositive(w: string)
  {
    w in POSITIVE_WORDS
  }

  /** `word in negative_words`. */
  predicate IsNegative(w: string)
  {
    w in NEGATIVE_WORDS
  }

  /** `word.lower() in ['i', 'we', 'me', 'us', 'my', 'our']`. */
  predicate IsPersonalPronoun(w: string)
  {
    Lower(w) in PERSONAL_PRONOUNS
  }

  /** Letter count of one word, `len(word)`. */
  function Length(w: string): nat
  {
    |w|
  }

  /** The two lexicons share no word, and no pronoun is in either lexicon. */
  lemma LexiconsDisjoint(w: string)
    ensures !(IsPositive(w) && IsNegative(w))
    ensures !(IsPositive(w) && w in PERSONAL_PRONOUNS)
    ensures !(IsNegative(w) && w in PERSONAL_PRONOUNS)
  {
    if IsPositive(w) {
      assert |w| >= 4;
      assert w[0] == 'p' ==> w == "positive";
    }
  }

  // ---------------------------------------------------------------------------
  // Ratios

  /** `x / y if y else 0` over exact reals: the explicit zero fallback. */
  function GuardedRatio(x: nat, y: nat): (r: real)
    ensures y == 0 ==> r == 0.0
    ensures y > 0 ==> r * y as real == x as real
    ensures r >= 0.0
    ensures x <= y ==> r <= 1.0
  {
    if y > 0 then x as real / y as real else 0.0
  }

  /** `(pos - neg) / ((pos + neg) + 1e-5)`: the epsilon guard, never exactly zero in the denominator. */
  function Polarity(pos: nat, neg: nat): (r: real)
    ensures r * ((pos + neg) as real + EPSILON) == pos as real - neg as real
    ensures -1.0 < r < 1.0
    ensures r == 0.0 <==> pos == neg
    ensures r > 0.0 <==> pos > neg
  {
    var d := (pos + neg) as real + EPSILON;
    var r := (pos as real - neg as real) / d;
    assert r * d == pos as real - neg as real;
    r
  }

  /** `(pos + neg) / (word_count + 1e-5)`: the epsilon guard again. */
  function Subjectivity(pos: nat, neg: nat, words: nat): (r: real)
    ensures r * (words as real + EPSILON) == (pos + neg) as real
    ensures r >= 0.0
    ensures r == 0.0 <==> pos + neg == 0
    ensures pos + neg <= words ==> r < 1.0
  {
    var d := words as real + EPSILON;
    var r := (pos + neg) as real / d;
    CompareWithOne(r, d, (pos + neg) as real);
    r
  }

  /** A factor is below one exactly when it makes a positive number smaller. */
  lemma CompareWithOne(r: real, d: real, x: real)
    requires d > 0.0 && r * d == x
    ensures r < 1.0 <==> x < d
  {
    assert d - x == (1.0 - r) * d;
  }

  /** `(complex / word_count) * 100 if word_count else 0`. */
  function PercentComplex(complex: nat, words: nat): (r: real)
    ensures words == 0 ==> r == 0.0
    ensures words > 0 ==> r * words as real == 100.0 * complex as real
    ensures complex <= words ==> 0.0 <= r <= 100.0
  {
    if words > 0 then
      var q := complex as real / words as real;
      assert q * words as real == complex as real;
      q * 100.0
    else 0.0
  }

  /** One more positive hit, with the negative hits unchanged, never lowers the polarity. */
  lemma PolarityGrowsWithPositive(pos: nat, neg: nat)
    ensures Polarity(pos + 1, neg) >= Polarity(pos, neg)
  {
    var pos' := pos + 1;
    var x := pos as real - neg as real;
    var d := (pos + neg) as real + EPSILON;
    var a := Polarity(pos, neg);
    var b := Polarity(pos', neg);
    assert a * d == x;
    assert b * (d + 1.0) == x + 1.0;
    // b - a == (d - x) / (d * (d + 1)) and d - x == 2 * neg + EPSILON > 0
    assert (b - a) * d * (d + 1.0) == d - x;
  }

  // ---------------------------------------------------------------------------
  // The scorecard

  /** `analyze_text(text)`, given the sentence and word tokens of `text`. */
  function AnalyzeText(sentences: seq<string>, tokens: seq<string>): (r: Scorecard)
    ensures r.wordCount == CountWhere(tokens, IsAlphaWord)
    ensures r.positiveScore + r.negativeScore <= r.wordCount
    ensures r.complexWordCount <= r.wordCount
    ensures r.personalPronouns <= r.wordCount
  {
    var ws := CleanWords(tokens);
    var wordCount := |ws|;
    var positiveScore := CountWhere(ws, IsPositive);
    var negativeScore := CountWhere(ws, IsNegative);
    var polarityScore := Polarity(positiveScore, negativeScore);
    var subjectivityScore := Subjectivity(positiveScore, negativeScore, wordCount);
    var avgSentenceLength := GuardedRatio(wordCount, |sentences|);
    var syllables := SumOf(ws, VowelCount);
    var syllablePerWord := GuardedRatio(syllables, wordCount);
    var complexWordCount := CountWhere(ws, IsComplex);
    var percentageComplexWords := PercentComplex(complexWordCount, wordCount);
    var fogIndex := 0.4 * (avgSentenceLength + percentageComplexWords);
    var avgWordLength := GuardedRatio(SumOf(ws, Length), wordCount);
    var personalPronouns := CountWhere(ws, IsPersonalPronoun);
    ScorecardFacts(ws);
    Scorecard(positiveScore, negativeScore, polarityScore, subjectivityScore,
              avgSentenceLength, percentageComplexWords, fogIndex, complexWordCount,
              wordCount, syllablePerWord, personalPronouns, avgWordLength)
  }

  /** Unfolding aid, not a property: the counts of the scorecard, read off the
      definition of `AnalyzeText` as counts over the cleaned words. */
  lemma AnalyzeTextCounts(sentences: seq<string>, tokens: seq<string>)
    ensures var r := AnalyzeText(sentences, tokens);
            var ws := CleanWords(tokens);
            && r.wordCount == |ws|
            && r.positiveScore == CountWhere(ws, IsPositive)
            && r.negativeScore == CountWhere(ws, IsNegative)
            && r.complexWordCount == CountWhere(ws, IsComplex)
            && r.personalPronouns == CountWhere(ws, IsPersonalPronoun)
  {
  }

  /** Unfolding aid, not a property: the ratios of the scorecard, read off the
      definition of `AnalyzeText` as the ratio functions of its counts and sums. */
  lemma AnalyzeTextRatios(sentences: seq<string>, tokens: seq<string>)
    ensures var r := AnalyzeText(sentences, tokens);
            var ws := CleanWords(tokens);
            && r.polarityScore == Polarity(r.positiveScore, r.negativeScore)
            && r.subjectivityScore == Subjectivity(r.positiveScore, r.negativeScore, r.wordCount)
            && r.avgSentenceLength == GuardedRatio(r.wordCount, |sentences|)
            && r.syllablePerWord == GuardedRatio(SumOf(ws, VowelCount), r.wordCount)
            && r.percentageComplexWords == PercentComplex(r.complexWordCount, r.wordCount)
            && r.fogIndex == 0.4 * (r.avgSentenceLength + r.percentageComplexWords)
            && r.avgWordLength == GuardedRatio(SumOf(ws, Length), r.wordCount)
  {
  }

  /** Polarity lies strictly between -1 and 1 and has the sign of `positive - negative`;
      subjectivity lies in [0, 1) and is zero exactly when no lexicon word occurs. */
  lemma SentimentBounds(sentences: seq<string>, tokens: seq<string>)
    ensures var r := AnalyzeText(sentences, tokens);
            && -1.0 < r.polarityScore < 1.0
            && (r.polarityScore == 0.0 <==> r.positiveScore == r.negativeScore)
            && (r.polarityScore > 0.0 <==> r.positiveScore > r.negativeScore)
            && 0.0 <= r.subjectivityScore < 1.0
            && (r.subjectivityScore == 0.0 <==> r.positiveScore + r.negativeScore == 0)
  {
    AnalyzeTextRatios(sentences, tokens);
  }

  /** The average sentence length is zero without sentences and otherwise the word
      count shared out over the sentences; the fog index is 0.4 times the sum of the
      average sentence length and the percentage of complex words. */
  lemma SentenceLengthAndFog(sentences: seq<string>, tokens: seq<string>)
    ensures var r := AnalyzeText(sentences, tokens);
            && (|sentences| == 0 ==> r.avgSentenceLength == 0.0)
            && (|sentences| > 0 ==> r.avgSentenceLength == r.wordCount as real / |sentences| as real)
            && r.fogIndex == 0.4 * (r.avgSentenceLength + r.percentageComplexWords)
  {
    AnalyzeTextRatios(sentences, tokens);
  }

  /** A text with no alphabetic token scores zero in every field, whatever its
      sentences: the epsilon guards give polarity and subjectivity `0 / 0.00001`,
      and the explicit zero fallbacks give the averages and the percentage. */
  lemma NoWords(sentences: seq<string>, tokens: seq<string>)
    requires AnalyzeText(sentences, tokens).wordCount == 0
    ensures AnalyzeText(sentences, tokens) == Scorecard(0, 0, 0.0, 0.0, 0.0, 0.0, 0.0, 0, 0, 0.0, 0, 0.0)
  {
    SentimentBounds(sentences, tokens);
    SentenceLengthAndFog(sentences, tokens);
    WordRatioBounds(sentences, tokens);
  }

  /** The percentage of complex words lies in [0, 100]; with no words, it, the syllables
      per word and the average word length are exactly zero; otherwise there are at least
      three vowel letters per complex word and at least one letter per word. */
  lemma WordRatioBounds(sentences: seq<string>, tokens: seq<string>)
    ensures var r := AnalyzeText(sentences, tokens);
            && 0.0 <= r.percentageComplexWords <= 100.0
            && (r.wordCount == 0 ==>
                  r.percentageComplexWords == 0.0 && r.syllablePerWord == 0.0 && r.avgWordLength == 0.0)
            && (r.wordCount > 0 ==>
                  && r.percentageComplexWords == 100.0 * (r.complexWordCount as real / r.wordCount as real)
                  && r.syllablePerWord >= (3 * r.complexWordCount) as real / r.wordCount as real
                  && r.avgWordLength >= 1.0)
  {
    AnalyzeTextCounts(sentences, tokens);
    AnalyzeTextRatios(sentences, tokens);
    var ws := CleanWords(tokens);
    ScorecardFacts(ws);
    AverageAtLeastOne(SumOf(ws, Length), |ws|);
    AverageAtLeast(SumOf(ws, VowelCount), 3 * CountWhere(ws, IsComplex), |ws|);
  }

  // ---------------------------------------------------------------------------
  // How the scorecard responds to its input

  /** One more token that is a positive-lexicon word, in any letter case, adds one
      to the positive score and to the word count, leaves the negative score and the
      pronoun count alone, and does not lower the polarity. */
  lemma AppendPositiveToken(sentences: seq<string>, tokens: seq<string>, t: string)
    requires IsAlphaWord(t) && IsPositive(Lower(t))
    ensures AnalyzeText(sentences, tokens + [t]).positiveScore == AnalyzeText(sentences, tokens).positiveScore + 1
    ensures AnalyzeText(sentences, tokens + [t]).wordCount == AnalyzeText(sentences, tokens).wordCount + 1
    ensures AnalyzeText(sentences, tokens + [t]).negativeScore == AnalyzeText(sentences, tokens).negativeScore
    ensures AnalyzeText(sentences, tokens + [t]).personalPronouns == AnalyzeText(sentences, tokens).personalPronouns
    ensures AnalyzeText(sentences, tokens + [t]).polarityScore >= AnalyzeText(sentences, tokens).polarityScore
  {
    PositiveWordCounts(tokens, t);
    AnalyzeTextCounts(sentences, tokens);
    AnalyzeTextCounts(sentences, tokens + [t]);
    PolarityOf(sentences, tokens);
    PolarityOf(sentences, tokens + [t]);
    ScorecardPolarityGrows(AnalyzeText(sentences, tokens), AnalyzeText(sentences, tokens + [t]));
  }

  /** The counting half of `AppendPositiveToken`, on the cleaned words. */
  lemma PositiveWordCounts(tokens: seq<string>, t: string)
    requires IsAlphaWord(t) && IsPositive(Lower(t))
    ensures var ws := CleanWords(tokens);
            var ws' := CleanWords(tokens + [t]);
            && |ws'| == |ws| + 1
            && CountWhere(ws', IsPositive) == CountWhere(ws, IsPositive) + 1
            && CountWhere(ws', IsNegative) == CountWhere(ws, IsNegative)
            && CountWhere(ws', IsPersonalPronoun) == CountWhere(ws, IsPersonalPronoun)
  {
    var w := Lower(t);
    var ws := CleanWords(tokens);
    CleanWordsSnoc(tokens, t);
    LexiconsDisjoint(w);
    LowerFixesExactlyLowerWords(t);
    assert !IsNegative(w) && !IsPersonalPronoun(w);
    CountOneMore(ws, w, IsPositive);
    CountOneMore(ws, w, IsNegative);
    CountOneMore(ws, w, IsPersonalPronoun);
  }

  /** A token that is not entirely alphabetic, such as punctuation or a number,
      changes nothing in the scorecard. */
  lemma AppendNonAlphaToken(sentences: seq<string>, tokens: seq<string>, t: string)
    requires !IsAlphaWord(t)
    ensures AnalyzeText(sentences, tokens + [t]) == AnalyzeText(sentences, tokens)
  {
    CleanWordsSnoc(tokens, t);
    assert CleanWords(tokens + [t]) == CleanWords(tokens);
  }

  /** The scorecard depends on the tokens only through the cleaned words:
      analysing the cleaned words again gives the same scorecard. */
  lemma AnalyzeCleanWords(sentences: seq<string>, tokens: seq<string>)
    ensures AnalyzeText(sentences, CleanWords(tokens)) == AnalyzeText(sentences, tokens)
  {
    CleanWordsIdempotent(tokens);
  }

  /** The extra `.lower()` in the pronoun test changes nothing on cleaned words:
      the count is plain membership of the cleaned word in the pronoun list. */
  lemma PronounsByMembership(sentences: seq<string>, tokens: seq<string>)
    ensures AnalyzeText(sentences, tokens).personalPronouns
            == CountWhere(CleanWords(tokens), IsListedPronoun)
  {
    var ws := CleanWords(tokens);
    forall i | 0 <= i < |ws| ensures IsPersonalPronoun(ws[i]) == IsListedPronoun(ws[i]) {
      LowerFixesExactlyLowerWords(ws[i]);
    }
    CountWhereAgree(ws, IsPersonalPronoun, IsListedPronoun);
    AnalyzeTextCounts(sentences, tokens);
  }

  /** The positive (negative) score is the total number of occurrences of the
      positive (negative) lexicon's words among the cleaned words. */
  lemma LexiconScoresByOccurrences(sentences: seq<string>, tokens: seq<string>)
    ensures AnalyzeText(sentences, tokens).positiveScore == Occurrences(CleanWords(tokens), POSITIVE_WORDS)
    ensures AnalyzeText(sentences, tokens).negativeScore == Occurrences(CleanWords(tokens), NEGATIVE_WORDS)
  {
    var ws := CleanWords(tokens);
    assert Distinct(POSITIVE_WORDS) && Distinct(NEGATIVE_WORDS);
    CountMembersIsOccurrences(ws, POSITIVE_WORDS, IsPositive);
    CountMembersIsOccurrences(ws, NEGATIVE_WORDS, IsNegative);
    AnalyzeTextCounts(sentences, tokens);
  }

  /** Membership in the pronoun list without lowering first. */
  predicate IsListedPronoun(w: string)
  {
    w in PERSONAL_PRONOUNS
  }

  /** Unfolding aid: the polarity field is `Polarity` of the two scores. */
  lemma PolarityOf(sentences: seq<string>, tokens: seq<string>)
    ensures AnalyzeText(sentences, tokens).polarityScore
            == Polarity(AnalyzeText(sentences, tokens).positiveScore, AnalyzeText(sentences, tokens).negativeScore)
  {
  }

  /** `PolarityGrowsWithPositive` read on two scorecards. */
  lemma ScorecardPolarityGrows(before: Scorecard, after: Scorecard)
    requires after.positiveScore == before.positiveScore + 1 && after.negativeScore == before.negativeScore
    ensures Polarity(after.positiveScore, after.negativeScore) >= Polarity(before.positiveScore, before.negativeScore)
  {
    PolarityGrowsWithPositive(before.positiveScore, before.negativeScore);
  }

  lemma CountOneMore(ws: seq<string>, w: string, p: string -> bool)
    ensures CountWhere(ws + [w], p) == CountWhere(ws, p) + (if p(w) then 1 else 0)
  {
    CountWhereAppend(ws, [w], p);
    assert [w][1..] == [];
  }

  /** The counting facts about cleaned words that the scorecard's bounds rest on. */
  lemma ScorecardFacts(ws: seq<string>)
    requires forall i :: 0 <= i < |ws| ==> IsCleanWord(ws[i])
    ensures CountWhere(ws, IsPositive) + CountWhere(ws, IsNegative) <= |ws|
    ensures SumOf(ws, VowelCount) >= 3 * CountWhere(ws, IsComplex)
    ensures SumOf(ws, Length) >= |ws|
  {
    forall i | 0 <= i < |ws| ensures !(IsPositive(ws[i]) && IsNegative(ws[i])) {
      LexiconsDisjoint(ws[i]);
    }
    CountWhereDisjoint(ws, IsPositive, IsNegative);
    SumOfAtLeastWeightedCount(ws, VowelCount, IsComplex, 3);
    SumOfAtLeastWeightedCount(ws, Length, AnyWord, 1);
    AllWordsCount(ws);
  }

  predicate AnyWord(w: string)
  {
    true
  }

  lemma {:induction false} AllWordsCount(ws: seq<string>)
    ensures CountWhere(ws, AnyWord) == |ws|
  {
    if ws != [] {
      AllWordsCount(ws[1..]);
    }
  }

  /** A total of at least `n` spread over `n > 0` items averages at least one. */
  lemma AverageAtLeastOne(total: nat, n: nat)
    requires total >= n
    ensures n > 0 ==> GuardedRatio(total, n) >= 1.0
  {
    if n > 0 {
      CompareWithOne(GuardedRatio(total, n), n as real, total as real);
    }
  }

  /** A total of at least `weight` spread over `n > 0` items averages at least `weight / n`. */
  lemma AverageAtLeast(total: nat, weight: nat, n: nat)
    requires total >= weight
    ensures n > 0 ==> GuardedRatio(total, n) >= weight as real / n as real
  {
  }
}
