/** Post-processing of the sentiment analyzer: model dispatch, the VADER and
    TextBlob label thresholds and confidences, the conversion of a TextBlob
    polarity into a positive/negative/neutral triple, and the metadata
    attached to every result. The native scores come from foreign NLP
    libraries and are inputs here; Python floats are modelled as reals. */
module SentimentAnalysis {
  import opened Wrappers
  import opened Text
  import opened Schemas

  /** What VADER's `polarity_scores` returns for the text. */
  datatype VaderScores = VaderScores(compound: real, pos: real, neg: real, neu: real)

  /** What TextBlob's `sentiment` holds for the text. */
  datatype BlobSentiment = BlobSentiment(polarity: real, subjectivity: real)

  /** The ranges the libraries document for their outputs. */
  predicate ValidVaderScores(v: VaderScores) {
    -1.0 <= v.compound <= 1.0 && 0.0 <= v.pos <= 1.0 && 0.0 <= v.neg <= 1.0 && 0.0 <= v.neu <= 1.0
  }

  predicate ValidBlobSentiment(b: BlobSentiment) {
    -1.0 <= b.polarity <= 1.0 && 0.0 <= b.subjectivity <= 1.0
  }

  /** The model-specific part of a result. */
  datatype ModelScores = ModelScores(
    compoundScore: real,
    positiveScore: real,
    negativeScore: real,
    neutralScore: real,
    sentimentLabel: SentimentLabel,
    confidence: real,
    subjectivity: Option<real>)

  /** A result of `analyze_text` (the processing time is not modelled). */
  datatype AnalysisResult = AnalysisResult(
    scores: ModelScores, modelName: string, textLength: nat, wordCount: nat)

  datatype AnalyzerError = UnknownModel(model: string)

  const DefaultModel: string := "vader"

  function Abs(x: real): real {
    if x < 0.0 then -x else x
  }

  /** `max(a, b, c)`. */
  function Max3(a: real, b: real, c: real): (m: real)
    ensures m >= a && m >= b && m >= c
    ensures m == a || m == b || m == c
  {
    if a >= b && a >= c then a else if b >= c then b else c
  }

  // ---------------------------------------------------------------------
  // VADER

  function VaderLabel(compound: real): (l: SentimentLabel)
    ensures l == Positive <==> compound >= 0.05
    ensures l == Negative <==> compound <= -0.05
    ensures l == Neutral <==> -0.05 < compound < 0.05
  {
    if compound >= 0.05 then Positive
    else if compound <= -0.05 then Negative
    else Neutral
  }

  /** `_analyze_vader`: the scores pass through, the label follows the
      compound score, and the confidence is the largest proportion. */
  function AnalyzeVader(v: VaderScores): (r: ModelScores)
    ensures r.compoundScore == v.compound
    ensures r.positiveScore == v.pos && r.negativeScore == v.neg && r.neutralScore == v.neu
    ensures r.sentimentLabel == VaderLabel(v.compound)
    ensures r.confidence >= v.pos && r.confidence >= v.neg && r.confidence >= v.neu
    ensures r.confidence == v.pos || r.confidence == v.neg || r.confidence == v.neu
    ensures r.subjectivity.None?
  {
    ModelScores(v.compound, v.pos, v.neg, v.neu, VaderLabel(v.compound), Max3(v.pos, v.neg, v.neu), None)
  }

  // ---------------------------------------------------------------------
  // TextBlob

  datatype Triple = Triple(positive: real, negative: real, neutral: real)

  function Total(t: Triple): real {
    t.positive + t.negative + t.neutral
  }

  /** The polarity spread over the three buckets, before normalisation. */
  function PolarityBuckets(polarity: real): (t: Triple)
    ensures Total(t) == 1.0
  {
    var (pos, neg) := if polarity > 0.0 then (polarity, 0.0) else (0.0, Abs(polarity));
    Triple(pos, neg, 1.0 - Abs(polarity))
  }

  /** Divide each bucket by the total when the total is positive. */
  function Normalise(t: Triple): (r: Triple)
    ensures Total(t) == 1.0 ==> r == t
  {
    var total := Total(t);
    if total > 0.0 then Triple(t.positive / total, t.negative / total, t.neutral / total) else t
  }

  /** The normalised triple of a polarity. The total before normalisation is
      exactly 1, so normalising changes nothing. */
  function BlobTriple(polarity: real): (t: Triple)
    ensures Total(t) == 1.0
    ensures t.positive == (if polarity > 0.0 then polarity else 0.0)
    ensures t.negative == (if polarity > 0.0 then 0.0 else -polarity)
    ensures t.neutral == 1.0 - Abs(polarity)
    ensures t.positive == 0.0 || t.negative == 0.0
    ensures -1.0 <= polarity <= 1.0 ==>
      0.0 <= t.positive <= 1.0 && 0.0 <= t.negative <= 1.0 && 0.0 <= t.neutral <= 1.0
  {
    Normalise(PolarityBuckets(polarity))
  }

  function BlobLabel(polarity: real): (l: SentimentLabel)
    ensures l == Positive <==> polarity >= 0.1
    ensures l == Negative <==> polarity <= -0.1
    ensures l == Neutral <==> -0.1 < polarity < 0.1
  {
    if polarity >= 0.1 then Positive
    else if polarity <= -0.1 then Negative
    else Neutral
  }

  /** `_analyze_textblob`. A positive label always comes with a positive
      bucket, a negative label with a negative one. */
  function AnalyzeTextBlob(b: BlobSentiment): (r: ModelScores)
    ensures r.compoundScore == b.polarity
    ensures r.sentimentLabel == BlobLabel(b.polarity)
    ensures r.confidence == Abs(b.polarity)
    ensures r.subjectivity == Some(b.subjectivity)
    ensures Triple(r.positiveScore, r.negativeScore, r.neutralScore) == BlobTriple(b.polarity)
    ensures r.sentimentLabel == Positive ==> r.positiveScore > 0.0
    ensures r.sentimentLabel == Negative ==> r.negativeScore > 0.0
  {
    var t := BlobTriple(b.polarity);
    ModelScores(b.polarity, t.positive, t.negative, t.neutral, BlobLabel(b.polarity), Abs(b.polarity), Some(b.subjectivity))
  }

  // ---------------------------------------------------------------------
  // analyze_text

  /** `analyze_text`: dispatch on the model name and attach the metadata. */
  function AnalyzeText(text: string, vader: VaderScores, blob: BlobSentiment, model: string := DefaultModel)
    : (r: Result<AnalysisResult, AnalyzerError>)
    ensures r.Success? <==> model == "vader" || model == "textblob"
    ensures r.Failure? ==> r.error == UnknownModel(model)
    ensures r.Success? ==>
      && r.value.modelName == model
      && r.value.textLength == |text|
      && r.value.wordCount == |Words(text)|
      && r.value.scores == (if model == "vader" then AnalyzeVader(vader) else AnalyzeTextBlob(blob))
    ensures r.Success? ==> (r.value.wordCount == 0 <==> AllSpace(text))
  {
    var scores :=
      if model == "vader" then Success(AnalyzeVader(vader))
      else if model == "textblob" then Success(AnalyzeTextBlob(blob))
      else Failure(UnknownModel(model));
    WordsAreTokens(text);
    match scores
    case Failure(e) => Failure(e)
    case Success(s) => Success(AnalysisResult(s, model, |text|, |Words(text)|))
  }

  /** Without a model name the analyzer uses VADER. */
  lemma DefaultModelIsVader(text: string, vader: VaderScores, blob: BlobSentiment)
    ensures AnalyzeText(text, vader, blob).Success?
    ensures AnalyzeText(text, vader, blob).value.modelName == "vader"
    ensures AnalyzeText(text, vader, blob).value.scores == AnalyzeVader(vader)
  {
  }

  /** With in-range native scores every reported number lies in the range
      its schema field declares. */
  lemma ScoresWithinSchemaRanges(text: string, vader: VaderScores, blob: BlobSentiment, model: string)
    requires model == "vader" ==> ValidVaderScores(vader)
    requires model == "textblob" ==> ValidBlobSentiment(blob)
    requires model == "vader" || model == "textblob"
    ensures var s := AnalyzeText(text, vader, blob, model).value.scores;
      && -1.0 <= s.compoundScore <= 1.0
      && 0.0 <= s.positiveScore <= 1.0 && 0.0 <= s.negativeScore <= 1.0 && 0.0 <= s.neutralScore <= 1.0
      && 0.0 <= s.confidence <= 1.0
  {
  }

  /** The schema record built from an analysis result. */
  function ToScoreBase(r: AnalysisResult): SentimentScoreBase {
    SentimentScoreBase(
      r.modelName, None, r.scores.compoundScore, r.scores.positiveScore, r.scores.negativeScore,
      r.scores.neutralScore, r.scores.sentimentLabel, Some(r.scores.confidence), None, None,
      r.textLength, r.wordCount)
  }

  /** Empty or whitespace-only text is analysed, but the result has no words
      and the score schema rejects it. */
  lemma WhitespaceOnlyResultRejected(text: string, vader: VaderScores, blob: BlobSentiment, model: string)
    requires AllSpace(text)
    requires model == "vader" || model == "textblob"
    ensures AnalyzeText(text, vader, blob, model).value.wordCount == 0
    ensures !IsValidSentimentScore(ToScoreBase(AnalyzeText(text, vader, blob, model).value))
  {
  }

  /** A TextBlob result for text with a word passes every check of the score
      schema: its triple sums to exactly 1. */
  lemma TextBlobResultAccepted(text: string, vader: VaderScores, blob: BlobSentiment)
    requires ValidBlobSentiment(blob) && !AllSpace(text)
    ensures IsValidSentimentScore(ToScoreBase(AnalyzeText(text, vader, blob, "textblob").value))
  {
    var r := AnalyzeText(text, vader, blob, "textblob").value;
    ScoresWithinSchemaRanges(text, vader, blob, "textblob");
    assert r.scores == AnalyzeTextBlob(blob);
    assert Total(BlobTriple(blob.polarity)) == 1.0;
    var base := ToScoreBase(r);
    assert ScoreFieldBounds(base);
    ValidScoreWhenSumInWindow(base);
  }

  /** A VADER result for text with a word passes the score schema when its
      three proportions sum to 1 within the schema's tolerance. */
  lemma VaderResultAccepted(text: string, vader: VaderScores, blob: BlobSentiment)
    requires ValidVaderScores(vader) && !AllSpace(text)
    ensures IsValidSentimentScore(ToScoreBase(AnalyzeText(text, vader, blob, "vader").value))
      <==> 0.95 <= vader.pos + vader.neg + vader.neu <= 1.05
  {
    var r := AnalyzeText(text, vader, blob, "vader").value;
    ScoresWithinSchemaRanges(text, vader, blob, "vader");
    assert r.scores == AnalyzeVader(vader);
    var base := ToScoreBase(r);
    assert base.positiveScore == vader.pos && base.negativeScore == vader.neg && base.neutralScore == vader.neu;
    assert ScoreFieldBounds(base);
    ValidScoreWhenSumInWindow(base);
  }

  /** The polarity 0.6 gives the triple (0.6, 0, 0.4) and a positive label. */
  lemma TextBlobExample()
    ensures AnalyzeTextBlob(BlobSentiment(0.6, 0.5)) ==
      ModelScores(0.6, 0.6, 0.0, 0.4, Positive, 0.6, Some(0.5))
  {
  }
}
