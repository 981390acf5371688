/**
 Sentiment scoring and classification of one post title.

 The two scoring libraries (TextBlob polarity and the VADER compound score)
 are foreign code: each is passed in as a function from the text to what the
 library call yields, either a score or a raised exception. The wrappers
 turn an exception into the neutral score 0.0. The classifier is the fixed
 three-way threshold rule on the VADER compound score.
 */
module SentimentAnalysis {

  /** The three labels `classify_sentiment` can return. */
  datatype Label = Negative | Neutral | Positive

  /** What a call into a scoring library yields: a score, or an exception. */
  datatype ScoreOutcome = Computed(score: real) | Failed

  /** A scoring library, as seen by its wrapper. */
  type Library = string -> ScoreOutcome

  /**
   What can reach `classify_sentiment`: a number, a float NaN (every
   comparison with it is false) or a value `>=` cannot compare with a float
   (the comparison raises).
   */
  datatype Operand = Num(value: real) | NaN | Incomparable

  /** The two thresholds of the classifier. */
  const PositiveThreshold: real := 0.05
  const NegativeThreshold: real := -0.05

  /** The order Negative < Neutral < Positive. */
  function Rank(l: Label): (n: nat)
    ensures n <= 2
    ensures l == Negative <==> n == 0
    ensures l == Positive <==> n == 2
  {
    match l
    case Negative => 0
    case Neutral => 1
    case Positive => 2
  }

  /** The threshold chain of `classify_sentiment` on a number. */
  function Classify(x: real): (l: Label)
    ensures l == Positive <==> x >= PositiveThreshold
    ensures l == Negative <==> x <= NegativeThreshold
    ensures l == Neutral <==> NegativeThreshold < x < PositiveThreshold
  {
    if x >= PositiveThreshold then Positive
    else if x <= NegativeThreshold then Negative
    else Neutral
  }

  /**
   `classify_sentiment` with its exception handler: a NaN fails both
   comparisons and lands in the `else` branch; an incomparable value makes
   the first comparison raise, and the handler answers Neutral.
   */
  function ClassifySentiment(v: Operand): (l: Label)
    ensures v.Num? ==> l == Classify(v.value)
    ensures !v.Num? ==> l == Neutral
  {
    match v
    case Num(x) => Classify(x)
    case NaN => Neutral
    case Incomparable => Neutral
  }

  /** `analyze_sentiment_textblob`: the polarity, or 0.0 when the library raises. */
  function AnalyzeSentimentTextBlob(polarity: Library, text: string): (s: real)
    ensures polarity(text).Failed? ==> s == 0.0
    ensures polarity(text).Computed? ==> s == polarity(text).score
  {
    match polarity(text)
    case Computed(score) => score
    case Failed => 0.0
  }

  /** `analyze_sentiment_vader`: the compound score, or 0.0 when the library raises. */
  function AnalyzeSentimentVader(compound: Library, text: string): (s: real)
    ensures compound(text).Failed? ==> s == 0.0
    ensures compound(text).Computed? ==> s == compound(text).score
  {
    match compound(text)
    case Computed(score) => score
    case Failed => 0.0
  }

  /** The documented range of both libraries: every score they compute lies in [-1, 1]. */
  ghost predicate WithinUnitRange(lib: Library)
  {
    forall t :: lib(t).Computed? ==> -1.0 <= lib(t).score <= 1.0
  }

  /** The classifier is monotone in the order Negative < Neutral < Positive. */
  lemma ClassifyMonotone(x1: real, x2: real)
    requires x1 <= x2
    ensures Rank(Classify(x1)) <= Rank(Classify(x2))
  {
  }

  /** The boundary values: both thresholds are inclusive, the band between them is Neutral. */
  lemma ClassifyBoundaries()
    ensures Classify(0.05) == Positive
    ensures Classify(0.049999) == Neutral
    ensures Classify(-0.05) == Negative
    ensures Classify(-0.049999) == Neutral
    ensures Classify(0.0) == Neutral
  {
  }

  /**
   A scorer that fails inside its library answers 0.0, and that score is
   classified Neutral, so a failed VADER call yields a Neutral label.
   */
  lemma FailedScoreIsNeutral(compound: Library, text: string)
    requires compound(text).Failed?
    ensures AnalyzeSentimentVader(compound, text) == 0.0
    ensures ClassifySentiment(Num(AnalyzeSentimentVader(compound, text))) == Neutral
  {
  }

  /**
   If a library keeps to its documented range, so does its wrapper, whose
   fallback 0.0 is in range too.
   */
  lemma WrappersWithinUnitRange(polarity: Library, compound: Library, text: string)
    requires WithinUnitRange(polarity) && WithinUnitRange(compound)
    ensures -1.0 <= AnalyzeSentimentTextBlob(polarity, text) <= 1.0
    ensures -1.0 <= AnalyzeSentimentVader(compound, text) <= 1.0
  {
  }
}
