/** The arithmetic of the API endpoints: the pagination record built for a
    list query, and the overall trend of the sentiment summary. The database
    queries that supply the counts and the average are inputs. */
module Api {
  import opened Wrappers
  import opened Schemas

  /** The bounds the `skip` and `limit` query parameters declare, and a
      row count. */
  predicate ValidQuery(skip: int, limit: int, total: int) {
    skip >= 0 && 1 <= limit <= 100 && total >= 0
  }

  /** The `PaginationInfo` built by `get_articles`; Python's `//` is floor
      division, which agrees with `/` here because `limit` is positive. */
  function Paginate(skip: int, limit: int, total: int): (p: PaginationInfo)
    requires ValidQuery(skip, limit, total)
    ensures PaginationBounds(p)
    ensures p.perPage == limit && p.total == total
    ensures (p.page - 1) * limit <= skip < p.page * limit
    ensures p.pages == 0 <==> total == 0
    ensures total > 0 ==> (p.pages - 1) * limit < total <= p.pages * limit
    ensures p.hasPrev <==> skip > 0
    ensures p.hasNext <==> skip + limit < total
  {
    PageBounds(skip, limit);
    PageCountBounds(total, limit);
    PaginationInfo(skip / limit + 1, limit, total, (total + limit - 1) / limit,
                   skip > 0, skip + limit < total)
  }

  /** The quotient q of a non-negative n by a positive d satisfies
      q * d <= n < (q + 1) * d. */
  lemma DivisionBounds(n: int, d: int)
    requires n >= 0 && d >= 1
    ensures (n / d) * d <= n < (n / d + 1) * d
    ensures n / d >= 0
  {
    assert n == (n / d) * d + n % d;
  }

  /** The page `skip // limit + 1` is the one whose window holds the row
      at offset `skip`. */
  lemma PageBounds(skip: int, limit: int)
    requires skip >= 0 && limit >= 1
    ensures skip / limit + 1 >= 1
    ensures (skip / limit + 1 - 1) * limit <= skip < (skip / limit + 1) * limit
  {
    DivisionBounds(skip, limit);
  }

  /** The ceiling division `(total + limit - 1) // limit` is the fewest
      pages of `limit` rows that hold `total` rows. */
  lemma PageCountBounds(total: int, limit: int)
    requires total >= 0 && limit >= 1
    ensures (total + limit - 1) / limit >= 0
    ensures (total + limit - 1) / limit == 0 <==> total == 0
    ensures total > 0 ==>
      ((total + limit - 1) / limit - 1) * limit < total <= (total + limit - 1) / limit * limit
  {
    DivisionBounds(total + limit - 1, limit);
  }

  /** `avg(...) or 0.0`: no rows give the average 0.0. */
  function AverageOrZero(avg: Option<real>): real {
    if avg.Some? then avg.value else 0.0
  }

  /** The three-way threshold of `get_sentiment_summary`. */
  function Trend(avg: real): (t: string)
    ensures t == "positive" <==> avg > 0.1
    ensures t == "negative" <==> avg < -0.1
    ensures t == "neutral" <==> -0.1 <= avg <= 0.1
  {
    if avg > 0.1 then "positive" else if avg < -0.1 then "negative" else "neutral"
  }

  /** `overall_trend`: the boundaries ±0.1 are neutral, and so is a summary
      over no rows. */
  function OverallTrend(avg: Option<real>): (t: string)
    ensures t == Trend(AverageOrZero(avg))
    ensures avg.None? ==> t == "neutral"
    ensures t == "neutral" || t == "positive" || t == "negative"
  {
    Trend(AverageOrZero(avg))
  }

  function TrendRank(t: string): int {
    if t == "negative" then -1 else if t == "neutral" then 0 else 1
  }

  /** A higher average never gives a lower trend. */
  lemma TrendMonotone(a: real, b: real)
    requires a <= b
    ensures TrendRank(Trend(a)) <= TrendRank(Trend(b))
  {
  }
}
