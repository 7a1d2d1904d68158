# finpulse: a verified model of the scraping, sentiment and validation core

finpulse scrapes financial news and Reddit posts, scores their sentiment
with VADER or TextBlob, and serves the results through a FastAPI service.
This project models the parts of it that are logic rather than plumbing,
and proves what they promise:

- the request bookkeeping of `BaseScraper` (`requests_made`,
  `successful_requests`, `failed_requests`), the rate-limit decision and the
  classification of each HTTP outcome (`base_scraper.dfy`, a class whose
  methods update its counter fields, specified by pure step functions);
- the whitespace clean-up applied to extracted page text, with
  `splitlines` (`text_cleanup.dfy`), over the other Python string builtins
  it uses (`text.dfy`: `isspace`, `strip`, `split`, `join`, `upper`, and
  the argument-less `split` behind the word count);
- ticker-symbol detection: the three regular expressions as hand-written
  leftmost, non-overlapping, greedy scanners, the false-positive filter and
  the sorted result (`ticker_detection.dfy`);
- the post-processing of the VADER and TextBlob scores: model dispatch,
  labels, confidence, the polarity-to-triple conversion and its
  normalisation, and the text metadata (`analyzer.dfy`);
- the pydantic validators and field bounds of the API schemas
  (`schemas.dfy`);
- the pagination record and the overall trend computed by the API
  (`api.dfy`).

The native VADER and TextBlob scores, the HTTP outcome and the clock are
inputs. Python floats are modelled as `real`, Python integers as `int`.

Behaviours of the source that the model makes explicit:

- The `\s+stock` pattern looks for a lower-case `stock` in text that has
  already been upper-cased, so it never matches; tickers come only from a
  `$` prefix or a `NASDAQ:`/`NYSE:` prefix.
- `validate_source_reference` falls back to the validated value for a key
  that is not yet in `values`; when neither key is there, both sides are
  the same value and the validator always raises.
- `analyze_text` on empty or whitespace-only text reports `word_count` 0,
  which the `word_count > 0` bound of `SentimentScoreBase` rejects.
- The TextBlob triple already sums to 1 for polarity in [-1, 1], so its
  normalisation step leaves it unchanged.

## Model

| member | source | states |
|---|---|---|
| Text.Upper | finpulse/scrapers/base_scraper.py:186 | each lower-case ASCII letter becomes its capital (32 code points lower) and every other character is kept, so the length is kept and no lower-case letter is left |
| Text.UpperIdempotent | finpulse/scrapers/base_scraper.py:186 | upper-casing twice is upper-casing once |
| Text.Strip | finpulse/scrapers/base_scraper.py:158-159 | `str.strip` returns a slice of its input with only whitespace before and after it, leaves no surrounding whitespace, is empty exactly for all-whitespace input, is the identity on stripped text, and adds no character, line break or double space |
| Text.Split | finpulse/api/schemas.py:61 | `str.split(sep)` gives at least one piece and the first piece is a prefix of the text; `Text.SplitJoin` and `Text.SplitPartsAvoid` pin the pieces down |
| Text.Join | finpulse/scrapers/base_scraper.py:160 | `sep.join` has no contract of its own; `Text.SplitJoin`, `Text.SplitJoinRoundTrip` and `Text.WordsOfJoin` state what it does |
| Text.SplitJoinRoundTrip | finpulse/api/schemas.py:61-62 | splitting a comma-join on the comma gives back the pieces when no piece holds a comma |
| Text.SplitPartsAvoid | finpulse/api/schemas.py:61 | no piece of a one-character split holds the separator |
| Text.SplitJoin | finpulse/scrapers/base_scraper.py:159 | joining the pieces of `s.split(sep)` with `sep` gives `s` back |
| Text.Words | finpulse/sentiment/analyzer.py:49 | `str.split()` has no contract of its own; `Text.WordsAreTokens`, `Text.WordsOfToken`, `Text.WordsAcrossSpace` and `Text.WordCount` characterise it as the maximal non-whitespace runs, in order |
| Text.WordsAreTokens | finpulse/sentiment/analyzer.py:49 | `str.split()` gives non-empty tokens without whitespace, and none exactly for empty or whitespace-only text |
| Text.WordsOfToken | finpulse/sentiment/analyzer.py:49 | a run without whitespace is a single word |
| Text.WordsAcrossSpace | finpulse/sentiment/analyzer.py:49 | a whitespace run separates words: the words of `a + w + b` are those of `a` then those of `b` |
| Text.WordsDropSpace | finpulse/sentiment/analyzer.py:49 | leading whitespace does not change the words |
| Text.WordCount | finpulse/sentiment/analyzer.py:49 | `len(text.split())` is the number of positions that start a maximal run of non-whitespace |
| Text.WordsOfStrip | finpulse/scrapers/base_scraper.py:158-159 | stripping keeps the words |
| Text.WordsOfJoin | finpulse/scrapers/base_scraper.py:159-160 | joining on a whitespace separator keeps the words of the pieces, in order |
| RequestStats.Request | finpulse/scrapers/base_scraper.py:106-134 | one request raises `requests_made` by 1, waits iff a request was made before, returns a response iff the status is 200, bumps `successful_requests` on 200 and `failed_requests` otherwise, and keeps the other fields |
| RequestStats.RequestKeepsBalance | finpulse/scrapers/base_scraper.py:106-134 | a request keeps `requests_made == successful_requests + failed_requests` |
| RequestStats.RunKeepsBalance | finpulse/scrapers/base_scraper.py:58-65 | any sequence of requests from balanced counters, in particular the zeroed ones, keeps them balanced |
| RequestStats.RunCounts | finpulse/scrapers/base_scraper.py:106-134 | after n requests, `requests_made` grew by n, `successful_requests` by the number of status-200 outcomes, `failed_requests` by the rest, and `items_scraped` and the timestamps are unchanged |
| RequestStats.WaitsAfterFirst | finpulse/scrapers/base_scraper.py:106-111 | the k-th request of a run waits iff a request came before it in the instance's lifetime |
| RequestStats.ResponsesMatchStatus | finpulse/scrapers/base_scraper.py:122-134 | each request of a run returns a response iff its outcome is status 200 |
| RequestStats.Start | finpulse/scrapers/base_scraper.py:206-208 | `start_scraping` sets `start_time` and keeps every counter |
| RequestStats.WaitAcrossRuns | finpulse/scrapers/base_scraper.py:206-208 | starting a new scraping session does not reset the rate limit: the next request waits iff any request was made before |
| RequestStats.BaseScraper.constructor | finpulse/scrapers/base_scraper.py:29-65 | the defaults 1.0 s, 3 retries, 30 s, the default User-Agent for a missing or empty one, and zeroed statistics |
| RequestStats.BaseScraper.MakeRequest | finpulse/scrapers/base_scraper.py:94-134 | `_make_request` updates the counters as `Request` says and returns its response and wait decision |
| RequestStats.BaseScraper.StartScraping | finpulse/scrapers/base_scraper.py:206-208 | only `start_time` changes |
| RequestStats.BaseScraper.EndScraping | finpulse/scrapers/base_scraper.py:211-213 | only `end_time` changes |
| RequestStats.BaseScraper.GetStatistics | finpulse/scrapers/base_scraper.py:221-223 | returns a copy of the current statistics |
| TextCleanup.SplitLines | finpulse/scrapers/base_scraper.py:158 | `str.splitlines` gives lines without line breaks, and a single line for text without one |
| TextCleanup.SplitLinesRebuild | finpulse/scrapers/base_scraper.py:158 | the lines, each followed by the ending `splitlines` dropped, rebuild the text; every ending is `\r\n` or one line-break character, only the last line may lack one and is then non-empty, and a lone `\r` is never followed by an empty line ended by `\n` |
| TextCleanup.WordsOfSplitLines | finpulse/scrapers/base_scraper.py:158 | splitting into lines loses no word |
| TextCleanup.PhraseFragments | finpulse/scrapers/base_scraper.py:159-160 | the stripped phrases with the empty ones dropped, each a fragment (non-empty, stripped, no line break, no double space), never more than there were phrases |
| TextCleanup.WordsOfPhraseFragments | finpulse/scrapers/base_scraper.py:159-160 | stripping the phrases and dropping the empty ones keeps the words, in order |
| TextCleanup.WordsOfFragments | finpulse/scrapers/base_scraper.py:158-160 | the fragments of the stripped lines carry the words of the lines, in order |
| TextCleanup.CleanWhitespaceKeepsWords | finpulse/scrapers/base_scraper.py:158-160 | the clean-up changes only whitespace: the output has the same words as the input, in the same order |
| TextCleanup.SplitWithoutDoubleSpace | finpulse/scrapers/base_scraper.py:159 | a phrase without two consecutive spaces is not split by `"  "` |
| TextCleanup.Fragments | finpulse/scrapers/base_scraper.py:158-160 | every kept fragment is non-empty, stripped, and free of line breaks and double spaces |
| TextCleanup.JoinFragments | finpulse/scrapers/base_scraper.py:160 | joining such fragments with one space gives clean text |
| TextCleanup.CleanWhitespace | finpulse/scrapers/base_scraper.py:158-160 | the output has no line break, no two consecutive spaces and no surrounding whitespace |
| TextCleanup.CleanTextIsFixedPoint | finpulse/scrapers/base_scraper.py:158-160 | clean text passes through the clean-up unchanged |
| TextCleanup.CleanWhitespaceIdempotent | finpulse/scrapers/base_scraper.py:158-160 | cleaning twice is cleaning once |
| TickerDetection.DollarMatchAt | finpulse/scrapers/base_scraper.py:178 | a match starts at `$` and its group is one to five capitals |
| TickerDetection.DollarMatchSpec | finpulse/scrapers/base_scraper.py:178 | the pattern matches at i iff `$` there is followed by a capital; the group is the text after the `$` up to the match end, where the greedy run took five letters, reached the end or met a non-capital |
| TickerDetection.StockMatchAt | finpulse/scrapers/base_scraper.py:179 | a match needs a lower-case `s` in the text |
| TickerDetection.ExchangeMatchAt | finpulse/scrapers/base_scraper.py:180 | a match starts with `NASDAQ:` or `NYSE:` and its last group is one to five capitals |
| TickerDetection.ExchangePrefixLength | finpulse/scrapers/base_scraper.py:180 | the alternation takes 7 characters for `NASDAQ:`, else 5 for `NYSE:`, else there is no prefix |
| TickerDetection.ExchangeMatchSpec | finpulse/scrapers/base_scraper.py:180 | the pattern matches at i iff i is a word boundary, an exchange prefix starts there and a capital follows it; the group is the text after the prefix up to the match end, where the greedy run stopped |
| TickerDetection.FindAll | finpulse/scrapers/base_scraper.py:186-191 | every group `findall` reports is one to five capitals; `TickerDetection.FindAllSound` and `TickerDetection.FindAllComplete` relate the groups to the matches in both directions |
| TickerDetection.FindAllSound | finpulse/scrapers/base_scraper.py:186-191 | every group `findall` reports is the group of a match at some position of the scanned text |
| TickerDetection.FindAllComplete | finpulse/scrapers/base_scraper.py:186-191 | a match at k is reported by the scan from i when no match the scan can meet before k runs past k |
| TickerDetection.DollarComplete | finpulse/scrapers/base_scraper.py:178-191 | dollar matches cannot overlap, so every dollar match at or after i is reported by the scan from i |
| TickerDetection.ExchangeComplete | finpulse/scrapers/base_scraper.py:180-191 | an exchange match is reported when no earlier exchange match runs past its start |
| TickerDetection.DollarGroupIs | finpulse/scrapers/base_scraper.py:178 | a one-to-five capital maximal run after `$` is exactly the group of the dollar match there |
| TickerDetection.ExchangeGroupIs | finpulse/scrapers/base_scraper.py:180 | a one-to-five capital maximal run after an exchange prefix at a word boundary is exactly the group of the exchange match there |
| TickerDetection.DollarTickerReported | finpulse/scrapers/base_scraper.py:177-196 | conversely to `TickerDetection.TickerSetSound`, every maximal run of one to five capitals after `$` in the upper-cased text that is not a common word is reported |
| TickerDetection.ExchangeTickerReported | finpulse/scrapers/base_scraper.py:177-196 | every maximal run of one to five capitals after `NASDAQ:` or `NYSE:` at a word boundary of the upper-cased text that is not a common word is reported, unless an earlier exchange match ran past its prefix |
| TickerDetection.TickerSetSound | finpulse/scrapers/base_scraper.py:177-196 | every reported ticker is, in the upper-cased text, the greedy capital run right after a `$`, or after `NASDAQ:` or `NYSE:` at a word boundary |
| TickerDetection.TickerSet | finpulse/scrapers/base_scraper.py:183-196 | every reported ticker is one to five capitals and not a common word |
| TickerDetection.StockPatternNeverMatches | finpulse/scrapers/base_scraper.py:179-186 | the `\s+stock` pattern finds nothing in upper-cased text |
| TickerDetection.TickersFromMarkers | finpulse/scrapers/base_scraper.py:177-196 | the tickers are the kept groups of the `$` and exchange patterns only |
| TickerDetection.NoMarkersNoTickers | finpulse/scrapers/base_scraper.py:177-196 | text with no `$` and no exchange prefix yields no ticker |
| TickerDetection.TickersCaseInsensitive | finpulse/scrapers/base_scraper.py:186 | detection gives the same tickers for the text and its upper-cased form |
| TickerDetection.CommonWordDropped | finpulse/scrapers/base_scraper.py:194-196 | `$THE` is matched by the scan and then filtered out |
| TickerDetection.DollarAndExchangeExample | finpulse/scrapers/base_scraper.py:177-196 | `$aapl nyse:msft` yields exactly AAPL and MSFT |
| TickerDetection.NasdaqExample | finpulse/scrapers/base_scraper.py:180-196 | `nasdaq:msft` yields exactly MSFT, through the `NASDAQ:` alternative |
| TickerDetection.StrLessIrreflexive | finpulse/scrapers/base_scraper.py:198 | the string order of `sorted` is irreflexive |
| TickerDetection.StrLessTransitive | finpulse/scrapers/base_scraper.py:198 | the string order of `sorted` is transitive |
| TickerDetection.StrLessTotal | finpulse/scrapers/base_scraper.py:198 | any two different strings are ordered one way or the other |
| TickerDetection.Insert | finpulse/scrapers/base_scraper.py:198 | inserting into a strictly ascending list keeps it strictly ascending with the new element added |
| TickerDetection.AscendingUnique | finpulse/scrapers/base_scraper.py:198 | two strictly ascending lists with the same elements are equal, so the sorted result is determined by the set |
| TickerDetection.DetectTickerSymbols | finpulse/scrapers/base_scraper.py:164-198 | `_detect_ticker_symbols` returns a strictly ascending list holding exactly the detected tickers |
| Schemas.ParseLabel | finpulse/api/schemas.py:14-18 | exactly `positive`, `negative` and `neutral` name a sentiment label |
| Schemas.LabelRoundTrip | finpulse/api/schemas.py:14-18 | each label's value parses back to that label |
| Schemas.NormaliseSymbols | finpulse/api/schemas.py:61 | the kept pieces are non-empty, stripped, upper-case and comma-free |
| Schemas.NormaliseMembers | finpulse/api/schemas.py:61 | the kept pieces are exactly the upper-cased stripped pieces that are not blank |
| Schemas.NormaliseAppend | finpulse/api/schemas.py:61 | the comprehension keeps the order of the pieces |
| Schemas.NormaliseEmpty | finpulse/api/schemas.py:61-62 | no piece is kept exactly when every piece is whitespace |
| Schemas.ValidateTickerSymbols | finpulse/api/schemas.py:56-63 | `None` stays `None`; a string becomes `None` iff all its comma pieces are whitespace; otherwise the comma pieces of the output are the normalised comma pieces of the input, each a symbol |
| Schemas.ValidatedPieces | finpulse/api/schemas.py:56-63 | the comma pieces of the output are exactly the upper-cased, stripped, non-blank comma pieces of the input |
| Schemas.NormaliseSymbolsFixed | finpulse/api/schemas.py:61 | pieces that are already symbols are kept as they are |
| Schemas.ValidateTickerSymbolsIdempotent | finpulse/api/schemas.py:56-63 | validating the validator's output returns it unchanged |
| Schemas.ValidateScoreSum | finpulse/api/schemas.py:153-160 | raises iff both earlier scores are in `values` and the sum leaves [0.95, 1.05]; otherwise returns the value |
| Schemas.ValidateScoreFields | finpulse/api/schemas.py:143-160 | validating the three scores in declaration order succeeds iff their sum is in [0.95, 1.05] |
| Schemas.ScoreFieldBounds | finpulse/api/schemas.py:137-148 | the `Field` bounds of `SentimentScoreBase`: name length 1 to 50, version at most 20, compound in [-1, 1], the three proportions and the confidence in [0, 1], financial sentiment in [-1, 1], positive text length and word count; a predicate, used by `Schemas.ValidScoreWhenSumInWindow` and met by the analyzer's results in `SentimentAnalysis.TextBlobResultAccepted` and `SentimentAnalysis.VaderResultAccepted` |
| Schemas.ValidScoreWhenSumInWindow | finpulse/api/schemas.py:138-160 | a record within its field bounds is valid iff its three scores sum into the window |
| Schemas.ValidateSourceReference | finpulse/api/schemas.py:168-176 | succeeds iff exactly one of the two ids (from `values`, else the value) is truthy, returns the value, and always raises when neither key is in `values` |
| Schemas.ValidateTrend | finpulse/api/schemas.py:236-242 | accepts exactly `improving`, `declining`, `stable` and `volatile`, unchanged |
| SentimentAnalysis.Max3 | finpulse/sentiment/analyzer.py:74 | the maximum is one of the three and at least each |
| SentimentAnalysis.VaderLabel | finpulse/sentiment/analyzer.py:60-66 | positive iff compound >= 0.05, negative iff <= -0.05, neutral otherwise |
| SentimentAnalysis.AnalyzeVader | finpulse/sentiment/analyzer.py:55-75 | the scores pass through, the label follows the thresholds, and confidence is the largest of pos, neg and neu |
| SentimentAnalysis.PolarityBuckets | finpulse/sentiment/analyzer.py:85-92 | the unnormalised triple sums to 1 |
| SentimentAnalysis.Normalise | finpulse/sentiment/analyzer.py:94-99 | normalising a triple that sums to 1 leaves it unchanged |
| SentimentAnalysis.BlobTriple | finpulse/sentiment/analyzer.py:84-99 | positive polarity goes to the positive bucket, the rest to the negative one, neutral is 1 - abs(polarity), at most one of the two is non-zero, the triple sums to 1 and lies in [0, 1] for polarity in [-1, 1] |
| SentimentAnalysis.BlobLabel | finpulse/sentiment/analyzer.py:101-107 | positive iff polarity >= 0.1, negative iff <= -0.1, neutral otherwise |
| SentimentAnalysis.AnalyzeTextBlob | finpulse/sentiment/analyzer.py:77-117 | compound is the polarity, confidence its absolute value, subjectivity is reported, and a positive (negative) label has a positive (negative) score above 0 |
| SentimentAnalysis.TextBlobExample | finpulse/sentiment/analyzer.py:77-117 | polarity 0.6 gives the triple (0.6, 0, 0.4) and a positive label |
| SentimentAnalysis.AnalyzeText | finpulse/sentiment/analyzer.py:25-53 | only `vader` and `textblob` are accepted, other names fail with the unknown-model error; the result carries the model name, the text length and the whitespace-token count, which is 0 iff the text is whitespace |
| SentimentAnalysis.DefaultModelIsVader | finpulse/sentiment/analyzer.py:25 | without a model name the analysis succeeds with VADER |
| SentimentAnalysis.ScoresWithinSchemaRanges | finpulse/sentiment/analyzer.py:55-117 | with in-range native scores every reported score lies in its schema range |
| SentimentAnalysis.WhitespaceOnlyResultRejected | finpulse/sentiment/analyzer.py:46-50 | a whitespace-only text gets word count 0, which the sentiment-score schema rejects |
| SentimentAnalysis.VaderResultAccepted | finpulse/sentiment/analyzer.py:55-75 | a VADER result for non-blank text is a valid sentiment score iff its scores sum into the window |
| SentimentAnalysis.TextBlobResultAccepted | finpulse/sentiment/analyzer.py:77-117 | a TextBlob result for non-blank text with in-range polarity is always a valid sentiment score |
| Api.PageBounds | main.py:88 | page `skip // limit + 1` is at least 1 and its window holds the row at offset `skip` |
| Api.PageCountBounds | main.py:91 | `pages` is the ceiling of total / limit: 0 iff there are no rows, and the fewest pages that hold them |
| Schemas.PaginationBounds | finpulse/api/schemas.py:199-205 | the `Field` bounds of `PaginationInfo`: page at least 1, per-page 1 to 100, non-negative total and page count; a predicate that `Api.Paginate` establishes |
| Api.Paginate | main.py:87-94 | within the query bounds the record meets the `PaginationInfo` field bounds, `per_page` is the limit, `has_prev` iff skip > 0 and `has_next` iff skip + limit < total |
| Api.Trend | main.py:127 | `positive` iff avg > 0.1, `negative` iff avg < -0.1, `neutral` otherwise, so ±0.1 is neutral |
| Api.OverallTrend | main.py:115-127 | the trend of the average, with no rows giving `neutral` |
| Api.TrendMonotone | main.py:127 | a higher average never gives a lower trend |

## Left out

- HTTP transport, the urllib3 retry adapter and the session headers: the outcome of a request is an input, and retries inside the adapter never reach the counters.
- `time.sleep`: only the decision to wait is modelled, not the waiting.
- RequestStats.BaseScraper.MakeRequest: an exception other than `RequestException` escapes `_make_request` after `requests_made` was raised; only status codes and `RequestException` are modelled.
- Logging, and the duration logged by `end_scraping`; timestamps are opaque integers supplied by the caller.
- The context-manager methods that close the HTTP session, and the abstract `scrape`, which has no body.
- HTML parsing with BeautifulSoup: the clean-up is modelled from the extracted text on.
- `_calculate_reading_time`, `processing_time_ms` and `round(avg, 3)`: floating-point rounding and clocks.
- The VADER and TextBlob scorers themselves: their scores are inputs, and the range assumptions are hypotheses of the lemmas that need them.
- IEEE floating point: scores are reals, so sums such as the TextBlob triple are exact.
- Text.Upper: upper-cases ASCII letters only; Python's `str.upper` also maps other alphabets, which cannot produce ASCII capitals except for a handful of ligatures and dotless letters.
- TickerDetection.IsWordChar: `\b` is taken over ASCII word characters; Python's Unicode `\w` also counts other letters and digits.
- Schemas.ValidateTickerSymbols: the `max_length=500` bound on the field is not modelled.
- Pydantic machinery: `HttpUrl` checks, the field bounds of the article, Reddit-post and analytics schemas, and the order in which validators run; the `values` map is an explicit argument.
- FastAPI routing, CORS, database queries and sessions: the row count and the average are inputs of `Api.Paginate` and `Api.OverallTrend`.
- The SQLAlchemy models, the database wiring, configuration and the scripts.
- The re-exports of the scrapers package; the concrete scrapers it imports are not part of this model.
