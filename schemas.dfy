/** The validating parts of the API schemas: the sentiment label enumeration,
    the field validators (each as a pure function; a validator that reads
    earlier fields takes them as an explicit `values` map) and the numeric
    bounds that the schema fields declare. */
module Schemas {
  import opened Wrappers
  import opened Text

  datatype SentimentLabel = Positive | Negative | Neutral

  /** The string value of each label. */
  function LabelValue(l: SentimentLabel): string {
    match l
    case Positive => "positive"
    case Negative => "negative"
    case Neutral => "neutral"
  }

  /** `SentimentLabel(s)`: the label whose value is `s`, if any. */
  function ParseLabel(s: string): (r: Option<SentimentLabel>)
    ensures r.Some? ==> LabelValue(r.value) == s
    ensures r.None? ==> s != "positive" && s != "negative" && s != "neutral"
  {
    if s == "positive" then Some(Positive)
    else if s == "negative" then Some(Negative)
    else if s == "neutral" then Some(Neutral)
    else None
  }

  lemma LabelRoundTrip(l: SentimentLabel)
    ensures ParseLabel(LabelValue(l)) == Some(l)
  {
  }

  datatype MarketDirection = Bullish | Bearish | NeutralDirection

  datatype ValidationError = ValueError(message: string)

  // ---------------------------------------------------------------------
  // ticker_symbols

  /** A piece of a normalised ticker list. */
  predicate IsSymbol(x: string) {
    x != [] && ',' !in x && IsStripped(x) && NoLowercase(x)
  }

  /** `[s.strip().upper() for s in parts if s.strip()]`. */
  function NormaliseSymbols(parts: seq<string>): (r: seq<string>)
    ensures |r| <= |parts|
    ensures (forall p :: p in parts ==> ',' !in p) ==> forall x :: x in r ==> IsSymbol(x)
  {
    if parts == [] then []
    else
      var s := Strip(parts[0]);
      if s != [] then
        UpperKeepsSymbol(s);
        [Upper(s)] + NormaliseSymbols(parts[1..])
      else NormaliseSymbols(parts[1..])
  }

  /** The normalised list holds exactly the upper-cased, stripped, non-blank
      parts. */
  lemma {:induction false} NormaliseMembers(parts: seq<string>)
    ensures forall x :: x in NormaliseSymbols(parts) <==>
      exists p :: p in parts && Strip(p) != [] && x == Upper(Strip(p))
    decreases |parts|
  {
    if parts != [] {
      NormaliseMembers(parts[1..]);
      assert forall p :: p in parts <==> p == parts[0] || p in parts[1..];
    }
  }

  /** The normalised list keeps the order of the parts it came from. */
  lemma {:induction false} NormaliseAppend(a: seq<string>, b: seq<string>)
    ensures NormaliseSymbols(a + b) == NormaliseSymbols(a) + NormaliseSymbols(b)
    decreases |a|
  {
    if a == [] {
      assert a + b == b;
    } else {
      assert (a + b)[0] == a[0] && (a + b)[1..] == a[1..] + b;
      NormaliseAppend(a[1..], b);
    }
  }

  lemma UpperKeepsSymbol(s: string)
    requires s != [] && IsStripped(s)
    ensures Upper(s) != [] && IsStripped(Upper(s)) && NoLowercase(Upper(s))
    ensures ',' !in s ==> ',' !in Upper(s)
  {
    assert Upper(s)[0] == UpperChar(s[0]);
    assert ',' !in s ==> forall k :: 0 <= k < |s| ==> Upper(s)[k] != ',' by {
      if ',' !in s {
        forall k | 0 <= k < |s| ensures Upper(s)[k] != ',' {
          assert s[k] in s;
        }
      }
    }
  }

  /** `validate_ticker_symbols`. */
  function ValidateTickerSymbols(v: Option<string>): (r: Option<string>)
    ensures v.None? ==> r.None?
    ensures v.Some? ==> (r.None? <==> forall p :: p in Split(v.value, ",") ==> AllSpace(p))
    ensures r.Some? ==> forall p :: p in Split(r.value, ",") ==> IsSymbol(p)
    ensures r.Some? ==> Split(r.value, ",") == NormaliseSymbols(Split(v.value, ","))
  {
    match v
    case None => None
    case Some(s) =>
      var parts := Split(s, ",");
      SplitPartsAvoid(s, ',');
      var symbols := NormaliseSymbols(parts);
      NormaliseEmpty(parts);
      if symbols == [] then None
      else
        SplitJoinRoundTrip(symbols, ',');
        Some(Join(symbols, ","))
  }

  lemma {:induction false} NormaliseEmpty(parts: seq<string>)
    ensures NormaliseSymbols(parts) == [] <==> forall p :: p in parts ==> AllSpace(p)
  {
    if parts != [] {
      NormaliseEmpty(parts[1..]);
      assert forall p :: p in parts <==> p == parts[0] || p in parts[1..];
    }
  }

  lemma {:induction false} NormaliseSymbolsFixed(xs: seq<string>)
    requires forall x :: x in xs ==> IsSymbol(x)
    ensures NormaliseSymbols(xs) == xs
  {
    if xs != [] {
      var x := xs[0];
      assert x in xs;
      SymbolNormalisesToItself(x);
      assert forall y :: y in xs[1..] ==> y in xs;
      NormaliseSymbolsFixed(xs[1..]);
      assert [x] + xs[1..] == xs;
    }
  }

  lemma SymbolNormalisesToItself(x: string)
    requires IsSymbol(x)
    ensures Strip(x) == x && Upper(x) == x
  {
    UpperWithoutLowercase(x);
  }

  /** The comma pieces of the validated list are exactly the upper-cased,
      stripped, non-blank comma pieces of the input. */
  lemma ValidatedPieces(v: Option<string>)
    requires ValidateTickerSymbols(v).Some?
    ensures forall x :: x in Split(ValidateTickerSymbols(v).value, ",") <==>
      exists p :: p in Split(v.value, ",") && Strip(p) != [] && x == Upper(Strip(p))
  {
    NormaliseMembers(Split(v.value, ","));
  }

  /** Normalising a normalised list changes nothing. */
  lemma ValidateTickerSymbolsIdempotent(v: Option<string>)
    ensures ValidateTickerSymbols(ValidateTickerSymbols(v)) == ValidateTickerSymbols(v)
  {
    var r := ValidateTickerSymbols(v);
    if r.Some? {
      var parts := Split(v.value, ",");
      SplitPartsAvoid(v.value, ',');
      var symbols := NormaliseSymbols(parts);
      SplitJoinRoundTrip(symbols, ',');
      NormaliseSymbolsFixed(symbols);
    }
  }

  // ---------------------------------------------------------------------
  // sentiment score fields

  const PositiveKey: string := "positive_score"
  const NegativeKey: string := "negative_score"
  const NeutralKey: string := "neutral_score"

  /** `validate_score_sum`, given the value of the field being validated and
      the fields validated before it. */
  function ValidateScoreSum(v: real, values: map<string, real>): (r: Result<real, ValidationError>)
    ensures r.Success? ==> r.value == v
    ensures r.Failure? <==>
      PositiveKey in values && NegativeKey in values
      && !(0.95 <= v + values[PositiveKey] + values[NegativeKey] <= 1.05)
  {
    if PositiveKey in values && NegativeKey in values then
      var total := v + values[PositiveKey] + values[NegativeKey];
      if !(0.95 <= total <= 1.05) then Failure(ValueError("Sentiment scores must sum to approximately 1.0"))
      else Success(v)
    else Success(v)
  }

  /** The validator run on the three score fields in their declaration
      order, each seeing the fields validated before it. */
  function ValidateScoreFields(positive: real, negative: real, neutral: real): (r: Result<map<string, real>, ValidationError>)
    ensures r.Success? <==> 0.95 <= positive + negative + neutral <= 1.05
    ensures r.Success? ==> r.value == map[PositiveKey := positive, NegativeKey := negative, NeutralKey := neutral]
  {
    var values0: map<string, real> := map[];
    match ValidateScoreSum(positive, values0)
    case Failure(e) => Failure(e)
    case Success(p) =>
      var values1 := values0[PositiveKey := p];
      match ValidateScoreSum(negative, values1)
      case Failure(e) => Failure(e)
      case Success(n) =>
        var values2 := values1[NegativeKey := n];
        match ValidateScoreSum(neutral, values2)
        case Failure(e) => Failure(e)
        case Success(u) => Success(values2[NeutralKey := u])
  }

  /** The fields of `SentimentScoreBase`. */
  datatype SentimentScoreBase = SentimentScoreBase(
    modelName: string,
    modelVersion: Option<string>,
    compoundScore: real,
    positiveScore: real,
    negativeScore: real,
    neutralScore: real,
    sentimentLabel: SentimentLabel,
    confidence: Option<real>,
    financialSentiment: Option<real>,
    marketDirection: Option<MarketDirection>,
    textLength: int,
    wordCount: int)

  predicate InRange(x: real, lo: real, hi: real) {
    lo <= x <= hi
  }

  predicate OptionalInRange(x: Option<real>, lo: real, hi: real) {
    x.None? || InRange(x.value, lo, hi)
  }

  /** The bounds declared on the fields of `SentimentScoreBase`. */
  predicate ScoreFieldBounds(s: SentimentScoreBase) {
    && 1 <= |s.modelName| <= 50
    && (s.modelVersion.None? || |s.modelVersion.value| <= 20)
    && InRange(s.compoundScore, -1.0, 1.0)
    && InRange(s.positiveScore, 0.0, 1.0)
    && InRange(s.negativeScore, 0.0, 1.0)
    && InRange(s.neutralScore, 0.0, 1.0)
    && OptionalInRange(s.confidence, 0.0, 1.0)
    && OptionalInRange(s.financialSentiment, -1.0, 1.0)
    && s.textLength > 0
    && s.wordCount > 0
  }

  /** A `SentimentScoreBase` is accepted when every field bound holds and the
      score-sum validator passes. */
  predicate IsValidSentimentScore(s: SentimentScoreBase) {
    ScoreFieldBounds(s) && ValidateScoreFields(s.positiveScore, s.negativeScore, s.neutralScore).Success?
  }

  /** The score-sum validator passes exactly when the three proportions sum
      to 1 within 0.05. */
  lemma ValidScoreWhenSumInWindow(s: SentimentScoreBase)
    requires ScoreFieldBounds(s)
    ensures IsValidSentimentScore(s) <==> 0.95 <= s.positiveScore + s.negativeScore + s.neutralScore <= 1.05
  {
  }

  // ---------------------------------------------------------------------
  // source reference

  const ArticleKey: string := "article_id"
  const RedditPostKey: string := "reddit_post_id"

  /** Python truthiness of an optional id: `None` and `0` are false. */
  predicate Truthy(x: Option<int>) {
    x.Some? && x.value != 0
  }

  /** `validate_source_reference`: each side is read from `values` when the
      key is there, and is `v` otherwise. */
  function ValidateSourceReference(v: Option<int>, values: map<string, Option<int>>): (r: Result<Option<int>, ValidationError>)
    ensures r.Success? ==> r.value == v
    ensures r.Success? <==>
      Truthy(if ArticleKey in values then values[ArticleKey] else v)
      != Truthy(if RedditPostKey in values then values[RedditPostKey] else v)
    ensures ArticleKey !in values && RedditPostKey !in values ==> r.Failure?
  {
    var articleId := if ArticleKey in values then values[ArticleKey] else v;
    var redditPostId := if RedditPostKey in values then values[RedditPostKey] else v;
    if Truthy(articleId) == Truthy(redditPostId) then
      Failure(ValueError("Exactly one of article_id or reddit_post_id must be provided"))
    else Success(v)
  }

  // ---------------------------------------------------------------------
  // sentiment trend

  const AllowedTrends: seq<string> := ["improving", "declining", "stable", "volatile"]

  /** `validate_trend`. */
  function ValidateTrend(v: string): (r: Result<string, ValidationError>)
    ensures r.Success? <==> v == "improving" || v == "declining" || v == "stable" || v == "volatile"
    ensures r.Success? ==> r.value == v
  {
    if v in AllowedTrends then Success(v)
    else Failure(ValueError("Trend must be one of: ['improving', 'declining', 'stable', 'volatile']"))
  }

  // ---------------------------------------------------------------------
  // pagination

  datatype PaginationInfo = PaginationInfo(
    page: int, perPage: int, total: int, pages: int, hasPrev: bool, hasNext: bool)

  /** The bounds declared on the fields of `PaginationInfo`. */
  predicate PaginationBounds(p: PaginationInfo) {
    p.page >= 1 && 1 <= p.perPage <= 100 && p.total >= 0 && p.pages >= 0
  }
}
