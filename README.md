# Article scorecard (`analyze_text`) in Dafny

This project models `analyze_text` from `Data_Extraction_NLP.py`. The function turns the text of one
article into a fixed scorecard of twelve readability and sentiment metrics:

- the positive and negative lexicon scores;
- polarity and subjectivity;
- the average sentence length;
- the percentage of complex words and the fog index;
- the complex-word count and the word count;
- the syllables per word, the personal-pronoun count and the average word length.

The analysis is a pure function, so the model is written as functions and lemmas, in four modules:

- `Counting` models the two shapes of Python `sum` over a generator that the analysis uses:
  - a count of elements satisfying a test (`CountWhere`);
  - a sum of a natural-number measure (`SumOf`).

  It proves the count against two independent descriptions. A count equals the size of its set
  of witness positions, and a count of key-list members equals the multiset occurrences of the
  keys. It also proves that a sum does not depend on the order of the elements
  (`SumOfPermutation`).
- `Text` models the character-level operations:
  - `str.isalpha` and `str.lower`, on ASCII letters;
  - the vowel-letter scan `re.findall(r'[aeiouy]', w)`, which the program uses as a syllable proxy.
- `TextAnalysis` models the rest:
  - the lexicons and the word cleaning;
  - the two division guards;
  - the `Scorecard` record and `AnalyzeText` itself;
  - the properties of the scorecard.
- `Examples` pins the scorecard of three concrete inputs.

The tokenizers are not modelled. Their results, the sentence list and the raw word-token list, are the
two inputs of `AnalyzeText`. The ratios are exact `real`s. The `1e-5` guard is the exact constant
`0.00001`.

The model keeps the program's two ways of avoiding a division by zero. Polarity and subjectivity add
the epsilon to the denominator. The average sentence length, the syllables per word, the percentage
of complex words and the average word length fall back to an explicit zero.

Two facts about the code:

- Word tokens are filtered whole. The code (line 53) drops every token that is not entirely
  alphabetic; it does not extract alphabetic substrings. So a token such as `"3D"`, or the
  clitic `"'s"` that the tokenizer splits from `"it's"`, contributes nothing. `AppendNonAlphaToken` states this.
- The polarity of an empty text is not merely close to zero. With exact arithmetic it is exactly
  `0 / 0.00001 = 0`. `EmptyText` and `SentimentBounds` state this.

## Model

| member | source | states |
|---|---|---|
| Counting.CountWhere | Data_Extraction_NLP.py:60-61 | a generator count never exceeds the length, and it is zero exactly when no element passes the test |
| Counting.SumOf | Data_Extraction_NLP.py:67-75 | no contract of its own: the generator sums of vowel-letter counts and of word lengths; `SumOfPermutation` and `SumOfAtLeastWeightedCount` describe it |
| Counting.CountWhereIsWitnessCount | Data_Extraction_NLP.py:60-61 | the count equals the number of positions whose element passes the test |
| Counting.CountWhereDisjoint | Data_Extraction_NLP.py:57-61 | two tests that never hold together count at most the length between them |
| Counting.CountWhereAgree | Data_Extraction_NLP.py:76 | tests that agree on every element give the same count |
| Counting.SumOfPermutation | Data_Extraction_NLP.py:67-71 | two sequences with the same multiset of elements have the same sum, so the syllable and letter totals do not depend on word order |
| Counting.SumOfAtLeastWeightedCount | Data_Extraction_NLP.py:67-71 | a measure that is at least `k` wherever a test holds sums to at least `k` times the count |
| Counting.CountMembersIsOccurrences | Data_Extraction_NLP.py:57-61 | counting the elements in a duplicate-free key list equals the total number of occurrences of the keys |
| Text.LowerChar | Data_Extraction_NLP.py:53 | lowering one character maps each upper-case letter to the lower-case letter at the same alphabet position, keeps letters letters, and leaves every non-upper-case character alone |
| Text.Lower | Data_Extraction_NLP.py:53 | lowering keeps the length and is applied character by character; the result has no upper-case letter and is alphabetic exactly when the input is |
| Text.IsLetter | Data_Extraction_NLP.py:53 | no contract of its own: the per-character test inside `word.isalpha()`, on ASCII letters; `Lower` and `CleanWords` state what it keeps |
| Text.IsAlphaWord | Data_Extraction_NLP.py:53 | no contract of its own: `word.isalpha()` on ASCII, non-empty and all letters; `Lower` and `CleanWords` state what it keeps |
| Text.LowerFixesExactlyLowerWords | Data_Extraction_NLP.py:76 | a word lowers to itself exactly when it has no upper-case letter, so lowering is idempotent |
| Text.IsVowel | Data_Extraction_NLP.py:67-71 | no contract of its own: the character class `[aeiouy]`; `VowelCountByLetter` describes the count it gives |
| Text.VowelCount | Data_Extraction_NLP.py:67-71 | no contract of its own: the number of `[aeiouy]` matches in a word; `VowelCountByLetter` describes it |
| Text.IsComplex | Data_Extraction_NLP.py:71 | no contract of its own: more than two vowel-letter matches; `ScorecardFacts` and `WordRatioBounds` give its three-syllable bound |
| Text.VowelCountByLetter | Data_Extraction_NLP.py:67 | the vowel-letter count is the number of a, e, i, o, u and y occurrences in the word |
| TextAnalysis.CleanWords | Data_Extraction_NLP.py:53-54 | there is one cleaned word per fully alphabetic token, and every cleaned word is non-empty, alphabetic and lower-case |
| TextAnalysis.Kept | Data_Extraction_NLP.py:53 | no contract of its own: one comprehension step, the lowered token if alphabetic and nothing otherwise; `CleanWordsSnoc` states it |
| TextAnalysis.CleanWordsAppend | Data_Extraction_NLP.py:53 | cleaning a concatenation concatenates the cleanings |
| TextAnalysis.CleanWordsSnoc | Data_Extraction_NLP.py:53 | one more token adds its lowered form if it is alphabetic and nothing otherwise |
| TextAnalysis.WordCountIsAlphaTokens | Data_Extraction_NLP.py:52-54 | the word count is the number of raw token positions holding a fully alphabetic token |
| TextAnalysis.CleanWordsFixesCleanWords | Data_Extraction_NLP.py:53 | a sequence of clean words cleans to itself |
| TextAnalysis.CleanWordsIdempotent | Data_Extraction_NLP.py:53 | cleaning twice is cleaning once |
| TextAnalysis.IsPositive | Data_Extraction_NLP.py:60 | no contract of its own: membership in the positive list; `LexiconsDisjoint` and `LexiconScoresByOccurrences` describe it |
| TextAnalysis.IsNegative | Data_Extraction_NLP.py:61 | no contract of its own: membership in the negative list; `LexiconsDisjoint` and `LexiconScoresByOccurrences` describe it |
| TextAnalysis.IsPersonalPronoun | Data_Extraction_NLP.py:76 | no contract of its own: membership of the lowered word in the pronoun list; `PronounsByMembership` shows the lowering is a no-op on cleaned words |
| TextAnalysis.Length | Data_Extraction_NLP.py:75 | no contract of its own: `len(word)`; `ScorecardFacts` and `WordRatioBounds` give at least one letter per word |
| TextAnalysis.LexiconsDisjoint | Data_Extraction_NLP.py:57-58 | no word is in both lexicons, and no lexicon word is a pronoun |
| TextAnalysis.GuardedRatio | Data_Extraction_NLP.py:66-75 | the explicit-zero ratio is zero for a zero denominator and otherwise the number that multiplied by the denominator gives the numerator; it is never negative, and at most one when the numerator does not exceed the denominator |
| TextAnalysis.Polarity | Data_Extraction_NLP.py:63 | polarity times the guarded denominator `pos + neg + 0.00001` is `pos - neg`; it lies strictly between -1 and 1, is zero exactly when the two scores are equal, and is positive exactly when the positive score is larger |
| TextAnalysis.Subjectivity | Data_Extraction_NLP.py:64 | subjectivity times the guarded denominator `words + 0.00001` is `pos + neg`; it is never negative, is zero exactly when no lexicon word occurs, and is below one when the hits do not exceed the word count |
| TextAnalysis.PercentComplex | Data_Extraction_NLP.py:72 | the percentage is zero with no words and otherwise the number that multiplied by the word count gives 100 times the complex count; it lies in [0, 100] when the complex words do not exceed the words |
| TextAnalysis.PolarityGrowsWithPositive | Data_Extraction_NLP.py:63 | one more positive hit with the negative hits unchanged never lowers the polarity |
| TextAnalysis.AnalyzeText | Data_Extraction_NLP.py:47-91 | the word count is the number of alphabetic tokens; the positive plus negative scores, the complex words and the pronouns each stay within the word count |
| TextAnalysis.Scorecard | Data_Extraction_NLP.py:78-91 | the returned dictionary as a record with one field per key, in the same order; no contract of its own |
| TextAnalysis.SentimentBounds | Data_Extraction_NLP.py:60-64 | polarity lies in (-1, 1), is zero exactly when the scores are equal, and has the sign of their difference; subjectivity lies in [0, 1) and is zero exactly when no lexicon word occurs |
| TextAnalysis.SentenceLengthAndFog | Data_Extraction_NLP.py:66-73 | the average sentence length is zero with no sentences and otherwise the word count over the sentence count; the fog index is 0.4 times the sum of that and the complex percentage |
| TextAnalysis.WordRatioBounds | Data_Extraction_NLP.py:67-75 | the complex percentage lies in [0, 100]; with no words it, the syllables per word and the average word length are zero; otherwise the percentage is 100 times complex over words, there are at least three syllables per complex word, and words average at least one letter |
| TextAnalysis.NoWords | Data_Extraction_NLP.py:63-75 | a text with no alphabetic token, whatever its sentences, scores zero in every field |
| TextAnalysis.AppendPositiveToken | Data_Extraction_NLP.py:53-76 | one more token that lowers to a positive word raises the positive score and the word count by one, leaves the negative score and the pronouns unchanged, and does not lower the polarity |
| TextAnalysis.PositiveWordCounts | Data_Extraction_NLP.py:53-76 | on the cleaned words, such a token adds one word and one positive hit and no negative hit or pronoun |
| TextAnalysis.AppendNonAlphaToken | Data_Extraction_NLP.py:53 | a token that is not entirely alphabetic leaves the whole scorecard unchanged |
| TextAnalysis.AnalyzeCleanWords | Data_Extraction_NLP.py:53-91 | the scorecard of the cleaned words is the scorecard of the raw tokens |
| TextAnalysis.PronounsByMembership | Data_Extraction_NLP.py:76 | the extra lowering in the pronoun test is a no-op: the count is plain membership of the cleaned word in the pronoun list |
| TextAnalysis.LexiconScoresByOccurrences | Data_Extraction_NLP.py:57-61 | each lexicon score is the total number of occurrences of that lexicon's words among the cleaned words |
| TextAnalysis.ScorecardFacts | Data_Extraction_NLP.py:57-75 | on clean words, the positive plus negative hits stay within the count, there are at least three vowel letters per complex word, and at least one letter per word |
| TextAnalysis.AverageAtLeastOne | Data_Extraction_NLP.py:75 | a total of at least `n` over `n > 0` items averages at least one |
| Examples.EmptyText | Data_Extraction_NLP.py:63-75 | the empty text scores zero everywhere, polarity and subjectivity included |
| Examples.GoodGoodGood | Data_Extraction_NLP.py:47-91 | "Good good good." scores three positive hits, polarity and subjectivity 300000/300001, sentence length 3, fog index 1.2, two syllables and four letters per word |
| Examples.OurBadIdea | Data_Extraction_NLP.py:47-91 | "Our bad idea." scores one negative hit, one pronoun despite the capital, one complex word, a complex percentage of 100/3 and a fog index of 218/15 |

## Left out

- Tokenization is not modelled. NLTK `sent_tokenize` and `word_tokenize` (lines 51-52) are foreign
  code, so their outputs are the parameters `sentences` and `tokens`. The NLTK resource downloads
  (lines 13-14) go with them.
- Article fetching is not modelled. `fetch_article_content` (lines 19-35) is HTTP and HTML scraping
  through foreign libraries.
- File writing is not modelled. `save_text_file` (lines 37-45) is file I/O.
- The driver is not modelled. `main` (lines 93-127) reads a spreadsheet, creates and changes
  directories, prints, and writes the output table; it is orchestration and I/O only.
- `stop_words` (line 17) and the TextBlob and Counter imports are never used by the computation.
- Floating-point rounding is not modelled. The ratios and the `0.4` factor are exact reals;
  IEEE-754 double rounding is left out.
- The integer-versus-float type of the zero fallbacks is not modelled. Python returns the integer
  `0` there and a float otherwise; the model uses the real `0.0` throughout.
- Text.Lower: covers ASCII letters only. Python's Unicode `str.lower` is left out. So are the
  Unicode letters that `str.isalpha` accepts: `Text.IsLetter` is ASCII only.
- Text.IsAlphaWord: rejects every token with a non-ASCII letter, such as `"café"`, which
  `str.isalpha` accepts. `Kept` therefore drops such a token whole. On non-ASCII text the
  word count differs from the program's, and so does every field built on it.

