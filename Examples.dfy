/** Worked examples of the scorecard on concrete token sequences. */
module Examples {
  import opened Counting
  import opened Text
  import opened TextAnalysis

  /** Text with no sentence and no token: every count and ratio is zero,
      polarity and subjectivity through the epsilon guard, the others through
      the explicit zero fallback. */
  lemma EmptyText()
    ensures AnalyzeText([], []) == Scorecard(0, 0, 0.0, 0.0, 0.0, 0.0, 0.0, 0, 0, 0.0, 0, 0.0)
  {
    AnalyzeTextCounts([], []);
    AnalyzeTextRatios([], []);
  }

  /** "Good good good." tokenizes to three words and a full stop in one sentence:
      three positive hits, no complex word, four letters and two vowels per word. */
  lemma GoodGoodGood()
    ensures AnalyzeText(["Good good good."], ["Good", "good", "good", "."])
            == Scorecard(3, 0, 300000.0 / 300001.0, 300000.0 / 300001.0, 3.0, 0.0, 1.2, 0, 3, 2.0, 0, 4.0)
  {
    var sentences, tokens := ["Good good good."], ["Good", "good", "good", "."];
    GoodGoodGoodWords();
    GoodGoodGoodCounts();
    AnalyzeTextCounts(sentences, tokens);
    AnalyzeTextRatios(sentences, tokens);
    GoodGoodGoodRatios();
  }

  lemma GoodGoodGoodWords()
    ensures CleanWords(["Good", "good", "good", "."]) == ["good", "good", "good"]
  {
    GoodSpelling();
    FullStop();
    CleanWordsOfKept(["Good", "good", "good", "."], ["good"], ["good"], ["good"], []);
    assert ["good"] + (["good"] + (["good"] + [])) == ["good", "good", "good"];
  }

  lemma GoodGoodGoodCounts()
    ensures var ws := ["good", "good", "good"];
            && CountWhere(ws, IsPositive) == 3
            && CountWhere(ws, IsNegative) == 0
            && CountWhere(ws, IsComplex) == 0
            && CountWhere(ws, IsPersonalPronoun) == 0
            && SumOf(ws, VowelCount) == 6
            && SumOf(ws, Length) == 12
  {
    var ws := ["good", "good", "good"];
    GoodScores();
    CountOfThree(ws, IsPositive);
    CountOfThree(ws, IsNegative);
    CountOfThree(ws, IsComplex);
    CountOfThree(ws, IsPersonalPronoun);
    SumOfThree(ws, VowelCount);
    SumOfThree(ws, Length);
  }

  lemma GoodGoodGoodRatios()
    ensures Polarity(3, 0) == 300000.0 / 300001.0
    ensures Subjectivity(3, 0, 3) == 300000.0 / 300001.0
    ensures GuardedRatio(3, 1) == 3.0
    ensures PercentComplex(0, 3) == 0.0
    ensures GuardedRatio(6, 3) == 2.0
    ensures GuardedRatio(12, 3) == 4.0
  {
  }

  /** "Our bad idea." has one negative hit, a pronoun with an upper-case
      initial, and one complex word (`idea`, three vowel letters). */
  lemma OurBadIdea()
    ensures AnalyzeText(["Our bad idea."], ["Our", "bad", "idea", "."])
            == Scorecard(0, 1, -100000.0 / 100001.0, 100000.0 / 300001.0, 3.0, 100.0 / 3.0, 218.0 / 15.0,
                         1, 3, 2.0, 1, 10.0 / 3.0)
  {
    var sentences, tokens := ["Our bad idea."], ["Our", "bad", "idea", "."];
    OurBadIdeaWords();
    OurBadIdeaCounts();
    AnalyzeTextCounts(sentences, tokens);
    AnalyzeTextRatios(sentences, tokens);
    OurBadIdeaRatios();
  }

  lemma OurBadIdeaWords()
    ensures CleanWords(["Our", "bad", "idea", "."]) == ["our", "bad", "idea"]
  {
    OurSpelling();
    BadIdeaSpelling();
    FullStop();
    CleanWordsOfKept(["Our", "bad", "idea", "."], ["our"], ["bad"], ["idea"], []);
    assert ["our"] + (["bad"] + (["idea"] + [])) == ["our", "bad", "idea"];
  }

  lemma OurBadIdeaCounts()
    ensures var ws := ["our", "bad", "idea"];
            && CountWhere(ws, IsPositive) == 0
            && CountWhere(ws, IsNegative) == 1
            && CountWhere(ws, IsComplex) == 1
            && CountWhere(ws, IsPersonalPronoun) == 1
            && SumOf(ws, VowelCount) == 6
            && SumOf(ws, Length) == 10
  {
    var ws := ["our", "bad", "idea"];
    OurScores();
    BadScores();
    IdeaScores();
    CountOfThree(ws, IsPositive);
    CountOfThree(ws, IsNegative);
    CountOfThree(ws, IsComplex);
    CountOfThree(ws, IsPersonalPronoun);
    SumOfThree(ws, VowelCount);
    SumOfThree(ws, Length);
  }

  lemma OurBadIdeaRatios()
    ensures Polarity(0, 1) == -100000.0 / 100001.0
    ensures Subjectivity(0, 1, 3) == 100000.0 / 300001.0
    ensures GuardedRatio(3, 1) == 3.0
    ensures PercentComplex(1, 3) == 100.0 / 3.0
    ensures 0.4 * (3.0 + 100.0 / 3.0) == 218.0 / 15.0
    ensures GuardedRatio(6, 3) == 2.0
    ensures GuardedRatio(10, 3) == 10.0 / 3.0
  {
  }

  // ---------------------------------------------------------------------------
  // Token-level facts the examples are assembled from

  lemma CleanWordsCons(ts: seq<string>)
    requires |ts| > 0
    ensures CleanWords(ts) == Kept(ts[0]) + CleanWords(ts[1..])
  {
  }

  /** The cleaned words of four tokens, token by token. */
  lemma CleanWordsOfFour(ts: seq<string>)
    requires |ts| == 4
    ensures CleanWords(ts) == Kept(ts[0]) + (Kept(ts[1]) + (Kept(ts[2]) + Kept(ts[3])))
  {
    var a := ts[1..];
    var b := a[1..];
    var c := b[1..];
    assert a[0] == ts[1] && b[0] == ts[2] && c[0] == ts[3] && c[1..] == [];
    CleanWordsCons(c);
    assert CleanWords(c) == Kept(ts[3]);
    CleanWordsCons(b);
    CleanWordsCons(a);
    CleanWordsCons(ts);
  }

  /** Four tokens whose contributions are known clean to the concatenation of them. */
  lemma CleanWordsOfKept(ts: seq<string>, k0: seq<string>, k1: seq<string>, k2: seq<string>, k3: seq<string>)
    requires |ts| == 4
    requires Kept(ts[0]) == k0 && Kept(ts[1]) == k1 && Kept(ts[2]) == k2 && Kept(ts[3]) == k3
    ensures CleanWords(ts) == k0 + (k1 + (k2 + k3))
  {
    CleanWordsOfFour(ts);
  }

  lemma CountOfThree(ws: seq<string>, p: string -> bool)
    requires |ws| == 3
    ensures CountWhere(ws, p) == (if p(ws[0]) then 1 else 0) + (if p(ws[1]) then 1 else 0) + (if p(ws[2]) then 1 else 0)
  {
    var rest := ws[1..];
    assert rest[0] == ws[1] && rest[1..][0] == ws[2] && rest[1..][1..] == [];
  }

  lemma SumOfThree(ws: seq<string>, f: string -> nat)
    requires |ws| == 3
    ensures SumOf(ws, f) == f(ws[0]) + f(ws[1]) + f(ws[2])
  {
    var rest := ws[1..];
    assert rest[0] == ws[1] && rest[1..][0] == ws[2] && rest[1..][1..] == [];
    assert SumOf(rest[1..], f) == f(ws[2]);
  }

  /** A word already in clean form lowers to itself, and it is a pronoun
      exactly when it is listed. */
  lemma PlainWord(w: string)
    requires IsAlphaWord(w) && IsLowerWord(w)
    ensures Lower(w) == w
    ensures IsPersonalPronoun(w) == (w in PERSONAL_PRONOUNS)
  {
    LowerFixesExactlyLowerWords(w);
  }

  /** The full stop is a token of its own and not a word. */
  lemma FullStop()
    ensures Kept(".") == []
  {
    assert "."[0] == '.' && !IsLetter('.');
  }

  lemma GoodSpelling()
    ensures Kept("Good") == ["good"] && Kept("good") == ["good"]
  {
    assert Lower("Good") == "good";
    PlainWord("good");
  }

  lemma GoodScores()
    ensures IsPositive("good") && !IsNegative("good")
    ensures !IsPersonalPronoun("good") && VowelCount("good") == 2
  {
    PlainWord("good");
  }

  lemma OurSpelling()
    ensures Kept("Our") == ["our"]
  {
    assert Lower("Our") == "our";
  }

  lemma OurScores()
    ensures !IsPositive("our") && !IsNegative("our")
    ensures IsPersonalPronoun("our") && VowelCount("our") == 2
  {
    PlainWord("our");
    assert PERSONAL_PRONOUNS[5] == "our";
  }

  lemma BadIdeaSpelling()
    ensures Kept("bad") == ["bad"] && Kept("idea") == ["idea"]
  {
    PlainWord("bad");
    PlainWord("idea");
  }

  lemma BadScores()
    ensures !IsPositive("bad") && IsNegative("bad")
    ensures !IsPersonalPronoun("bad") && VowelCount("bad") == 1
  {
    PlainWord("bad");
  }

  lemma IdeaScores()
    ensures !IsPositive("idea") && !IsNegative("idea")
    ensures !IsPersonalPronoun("idea") && VowelCount("idea") == 3
  {
    PlainWord("idea");
  }
}
