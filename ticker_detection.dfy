/** Ticker-symbol detection of the scraper base class. The three regular
    expressions are written out as scanners with the semantics of
    `re.findall` (leftmost, non-overlapping, greedy `{1,5}`), run over the
    upper-cased text; the matches are collected in a set, filtered against
    a fixed list of common words and sorted. */
module TickerDetection {
  import opened Wrappers
  import opened Text

  const MaxTickerLength: nat := 5

  predicate IsCapital(c: char) {
    'A' <= c <= 'Z'
  }

  /** `\w`, restricted to ASCII. */
  predicate IsWordChar(c: char) {
    'A' <= c <= 'Z' || 'a' <= c <= 'z' || '0' <= c <= '9' || c == '_'
  }

  /** `\b` at position i. */
  predicate AtWordBoundary(s: string, i: nat)
    requires i <= |s|
  {
    (i > 0 && IsWordChar(s[i - 1])) != (i < |s| && IsWordChar(s[i]))
  }

  predicate HasPrefixAt(s: string, i: nat, p: string) {
    i + |p| <= |s| && s[i..i + |p|] == p
  }

  /** What a ticker group can hold: one to five capital letters. */
  predicate IsTickerShaped(t: string) {
    1 <= |t| <= MaxTickerLength && forall j :: 0 <= j < |t| ==> IsCapital(t[j])
  }

  /** Greedy `[A-Z]{0,cap}` at i: the number of capital letters taken. */
  function CapitalRun(s: string, i: nat, cap: nat): (n: nat)
    requires i <= |s|
    ensures i + n <= |s| && n <= cap
    ensures forall j :: i <= j < i + n ==> IsCapital(s[j])
    ensures n < cap && i + n < |s| ==> !IsCapital(s[i + n])
    decreases cap
  {
    if cap == 0 || i == |s| || !IsCapital(s[i]) then 0 else 1 + CapitalRun(s, i + 1, cap - 1)
  }

  /** Greedy `\s*` at i. */
  function SpaceRun(s: string, i: nat): (n: nat)
    requires i <= |s|
    ensures i + n <= |s|
    ensures forall j :: i <= j < i + n ==> IsSpace(s[j])
    ensures i + n < |s| ==> !IsSpace(s[i + n])
    decreases |s| - i
  {
    if i == |s| || !IsSpace(s[i]) then 0 else 1 + SpaceRun(s, i + 1)
  }

  /** A match: its last group and the index just after it. */
  datatype Match = Match(group: string, end: nat)

  datatype Pattern =
    | DollarPattern     // \$([A-Z]{1,5})
    | StockPattern      // \b([A-Z]{1,5})\s+stock
    | ExchangePattern   // \b(NASDAQ:|NYSE:)([A-Z]{1,5})

  /** The patterns in the order the detector tries them. */
  const Patterns: seq<Pattern> := [DollarPattern, StockPattern, ExchangePattern]

  predicate ValidMatch(s: string, i: nat, m: Option<Match>) {
    m.Some? ==> i < m.value.end <= |s| && IsTickerShaped(m.value.group)
  }

  /** The greedy `{1,5}` stopped because it took five letters, reached the
      end, or met a character that is not a capital letter. */
  predicate MaximalRun(s: string, start: nat, end: nat)
    requires start <= end <= |s|
  {
    end - start == MaxTickerLength || end == |s| || !IsCapital(s[end])
  }

  /** `\$([A-Z]{1,5})` at i. */
  function DollarMatchAt(s: string, i: nat): (m: Option<Match>)
    requires i <= |s|
    ensures ValidMatch(s, i, m)
    ensures m.Some? ==> s[i] == '$'
  {
    if i < |s| && s[i] == '$' then
      var n := CapitalRun(s, i + 1, MaxTickerLength);
      if n >= 1 then Some(Match(s[i + 1..i + 1 + n], i + 1 + n)) else None
    else None
  }

  /** The dollar pattern matches at i exactly when a `$` there is followed by
      a capital letter; the group is the text after the `$` up to the end of
      the match, where the greedy run stopped. */
  lemma DollarMatchSpec(s: string, i: nat)
    requires i <= |s|
    ensures DollarMatchAt(s, i).Some? <==> i + 1 < |s| && s[i] == '$' && IsCapital(s[i + 1])
    ensures DollarMatchAt(s, i).Some? ==>
      var m := DollarMatchAt(s, i).value;
      i + 1 <= m.end && m.group == s[i + 1..m.end] && MaximalRun(s, i + 1, m.end)
  {
  }

  /** Backtracking cannot help this pattern: fewer letters leave a letter
      where `\s` is needed, and fewer spaces leave a space where `s` is
      needed, so the greedy attempt decides. */
  function StockMatchAt(s: string, i: nat): (m: Option<Match>)
    requires i <= |s|
    ensures ValidMatch(s, i, m)
    ensures m.Some? ==> 's' in s
  {
    if i < |s| && AtWordBoundary(s, i) then
      var n := CapitalRun(s, i, MaxTickerLength);
      var w := SpaceRun(s, i + n);
      if n >= 1 && w >= 1 && HasPrefixAt(s, i + n + w, "stock") then
        assert s[i + n + w] == "stock"[0] && s[i + n + w] in s;
        Some(Match(s[i..i + n], i + n + w + 5))
      else None
    else None
  }

  /** The length of the exchange prefix at i, or 0 when there is none; the
      alternation tries `NASDAQ:` first, and `NYSE:` cannot match where it
      did. */
  function ExchangePrefixLength(s: string, i: nat): (p: nat)
    ensures p == 7 <==> HasPrefixAt(s, i, "NASDAQ:")
    ensures p == 5 <==> !HasPrefixAt(s, i, "NASDAQ:") && HasPrefixAt(s, i, "NYSE:")
    ensures p == 0 <==> !HasPrefixAt(s, i, "NASDAQ:") && !HasPrefixAt(s, i, "NYSE:")
  {
    if HasPrefixAt(s, i, "NASDAQ:") then 7 else if HasPrefixAt(s, i, "NYSE:") then 5 else 0
  }

  /** `\b(NASDAQ:|NYSE:)([A-Z]{1,5})` at i. */
  function ExchangeMatchAt(s: string, i: nat): (m: Option<Match>)
    requires i <= |s|
    ensures ValidMatch(s, i, m)
    ensures m.Some? ==> HasPrefixAt(s, i, "NASDAQ:") || HasPrefixAt(s, i, "NYSE:")
  {
    if i < |s| && AtWordBoundary(s, i) then
      var p := ExchangePrefixLength(s, i);
      if p == 0 then None
      else
        var n := CapitalRun(s, i + p, MaxTickerLength);
        if n >= 1 then Some(Match(s[i + p..i + p + n], i + p + n)) else None
    else None
  }

  /** The exchange pattern matches at i exactly when i is a word boundary, an
      exchange prefix starts there and a capital letter follows it; the group
      is the text after the prefix up to the end of the match, where the
      greedy run stopped. */
  lemma ExchangeMatchSpec(s: string, i: nat)
    requires i <= |s|
    ensures ExchangeMatchAt(s, i).Some? <==>
      var p := ExchangePrefixLength(s, i);
      AtWordBoundary(s, i) && p > 0 && i + p < |s| && IsCapital(s[i + p])
    ensures ExchangeMatchAt(s, i).Some? ==>
      var p := ExchangePrefixLength(s, i);
      var m := ExchangeMatchAt(s, i).value;
      i + p <= m.end && m.group == s[i + p..m.end] && MaximalRun(s, i + p, m.end)
  {
  }

  function MatchAt(p: Pattern, s: string, i: nat): (m: Option<Match>)
    requires i <= |s|
    ensures ValidMatch(s, i, m)
  {
    match p
    case DollarPattern => DollarMatchAt(s, i)
    case StockPattern => StockMatchAt(s, i)
    case ExchangePattern => ExchangeMatchAt(s, i)
  }

  /** `re.findall(pattern, s[i:])` as the list of each match's last group. */
  function FindAll(p: Pattern, s: string, i: nat): (groups: seq<string>)
    requires i <= |s|
    ensures forall g :: g in groups ==> IsTickerShaped(g)
    decreases |s| - i
  {
    if i == |s| then []
    else
      match MatchAt(p, s, i)
      case Some(m) => [m.group] + FindAll(p, s, m.end)
      case None => FindAll(p, s, i + 1)
  }

  function Elements(xs: seq<string>): set<string> {
    set x | x in xs
  }

  /** The candidates gathered from the first k patterns. */
  function CandidatesUpTo(u: string, k: nat): set<string>
    requires k <= |Patterns|
  {
    if k == 0 then {} else CandidatesUpTo(u, k - 1) + Elements(FindAll(Patterns[k - 1], u, 0))
  }

  const FalsePositives: set<string> := {
    "THE", "AND", "FOR", "ARE", "BUT", "NOT", "YOU", "ALL", "CAN", "HER", "WAS",
    "ONE", "OUR", "OUT", "DAY", "GET", "HAS", "HIM", "HIS", "HOW", "ITS", "MAY",
    "NEW", "NOW", "OLD", "SEE", "TWO", "WHO", "BOY", "DID", "LET", "PUT", "SAY",
    "SHE", "TOO", "USE"
  }

  /** The stop-list and length filter applied to the candidates. */
  function Kept(candidates: set<string>): set<string> {
    set t | t in candidates && t !in FalsePositives && |t| <= MaxTickerLength
  }

  /** The set of symbols the detector reports for `text`. */
  function TickerSet(text: string): (r: set<string>)
    ensures forall t :: t in r ==> IsTickerShaped(t) && t !in FalsePositives
  {
    var u := Upper(text);
    CandidatesShaped(u, |Patterns|);
    Kept(CandidatesUpTo(u, |Patterns|))
  }

  lemma {:induction false} CandidatesShaped(u: string, k: nat)
    requires k <= |Patterns|
    ensures forall t :: t in CandidatesUpTo(u, k) ==> IsTickerShaped(t)
  {
    if k > 0 {
      CandidatesShaped(u, k - 1);
    }
  }

  // ---------------------------------------------------------------------
  // Lexicographic order of strings, as Python compares `str` values.

  predicate StrLess(a: string, b: string)
    decreases |a|
  {
    if a == [] then b != []
    else b != [] && (a[0] < b[0] || (a[0] == b[0] && StrLess(a[1..], b[1..])))
  }

  lemma {:induction false} StrLessIrreflexive(a: string)
    ensures !StrLess(a, a)
    decreases |a|
  {
    if a != [] {
      StrLessIrreflexive(a[1..]);
    }
  }

  lemma {:induction false} StrLessTransitive(a: string, b: string, c: string)
    requires StrLess(a, b) && StrLess(b, c)
    ensures StrLess(a, c)
    decreases |a|
  {
    if a != [] && a[0] == b[0] && b[0] == c[0] {
      StrLessTransitive(a[1..], b[1..], c[1..]);
    }
  }

  lemma {:induction false} StrLessTotal(a: string, b: string)
    ensures a == b || StrLess(a, b) || StrLess(b, a)
    decreases |a|
  {
    if a != [] && b != [] && a[0] == b[0] {
      StrLessTotal(a[1..], b[1..]);
      assert a == [a[0]] + a[1..] && b == [b[0]] + b[1..];
    }
  }

  predicate StrictlyAscending(xs: seq<string>) {
    forall i, j :: 0 <= i < j < |xs| ==> StrLess(xs[i], xs[j])
  }

  /** Adds t to a strictly ascending list, keeping it strictly ascending. */
  function Insert(xs: seq<string>, t: string): (r: seq<string>)
    requires StrictlyAscending(xs)
    ensures StrictlyAscending(r)
    ensures forall u :: u in r <==> u in xs || u == t
    decreases |xs|
  {
    if xs == [] then [t]
    else if t == xs[0] then xs
    else if StrLess(t, xs[0]) then
      assert forall j :: 0 <= j < |xs| ==> StrLess(t, xs[j]) by {
        forall j | 0 < j < |xs| ensures StrLess(t, xs[j]) {
          StrLessTransitive(t, xs[0], xs[j]);
        }
      }
      [t] + xs
    else
      StrLessTotal(t, xs[0]);
      var r := Insert(xs[1..], t);
      assert forall u :: u in r ==> StrLess(xs[0], u) by {
        forall u | u in r ensures StrLess(xs[0], u) {
          if u != t {
            var j :| 0 <= j < |xs[1..]| && xs[1..][j] == u;
            assert xs[j + 1] == u;
          }
        }
      }
      assert forall u :: u in xs <==> u == xs[0] || u in xs[1..];
      [xs[0]] + r
  }

  /** Two strictly ascending lists with the same elements are equal, so the
      sorted output is determined by the set it holds. */
  lemma {:induction false} AscendingUnique(a: seq<string>, b: seq<string>)
    requires StrictlyAscending(a) && StrictlyAscending(b)
    requires forall x :: x in a <==> x in b
    ensures a == b
    decreases |a|
  {
    assert b != [] ==> b[0] in b;
    if a != [] {
      assert a[0] in b;
      assert b != [] && b[0] in a;
      if a[0] != b[0] {
        var i :| 0 <= i < |a| && a[i] == b[0];
        var j :| 0 <= j < |b| && b[j] == a[0];
        assert StrLess(a[0], a[i]) && StrLess(b[0], b[j]);
        StrLessTransitive(a[0], b[0], a[0]);
        StrLessIrreflexive(a[0]);
      }
      forall x ensures x in a[1..] <==> x in b[1..] {
        if x in a[1..] {
          var i :| 0 <= i < |a[1..]| && a[1..][i] == x;
          assert StrLess(a[0], a[i + 1]);
          StrLessIrreflexive(a[0]);
          assert x in b;
        }
        if x in b[1..] {
          var j :| 0 <= j < |b[1..]| && b[1..][j] == x;
          assert StrLess(b[0], b[j + 1]);
          StrLessIrreflexive(b[0]);
          assert x in a;
        }
      }
      AscendingUnique(a[1..], b[1..]);
      assert a == [a[0]] + a[1..] && b == [b[0]] + b[1..];
    }
  }

  // ---------------------------------------------------------------------
  // What the detector finds

  /** A scan that meets no match from i on finds nothing. */
  lemma {:induction false} NoMatchNoGroups(p: Pattern, s: string, i: nat)
    requires i <= |s|
    requires forall j :: i <= j <= |s| ==> MatchAt(p, s, j).None?
    ensures FindAll(p, s, i) == []
    decreases |s| - i
  {
    if i < |s| {
      NoMatchNoGroups(p, s, i + 1);
    }
  }

  /** The `\s+stock` pattern needs a lower-case `s`, which upper-cased text
      never holds, so it never contributes a ticker. */
  lemma StockPatternNeverMatches(text: string)
    ensures FindAll(StockPattern, Upper(text), 0) == []
  {
    var u := Upper(text);
    assert 's' !in u by {
      assert forall k :: 0 <= k < |u| ==> u[k] != 's';
    }
    NoMatchNoGroups(StockPattern, u, 0);
  }

  /** Tickers come only from a `$` prefix or an exchange prefix. */
  lemma TickersFromMarkers(text: string)
    ensures TickerSet(text) ==
      Kept(Elements(FindAll(DollarPattern, Upper(text), 0)) + Elements(FindAll(ExchangePattern, Upper(text), 0)))
  {
    var u := Upper(text);
    StockPatternNeverMatches(text);
    assert CandidatesUpTo(u, 3) == CandidatesUpTo(u, 2) + Elements(FindAll(ExchangePattern, u, 0));
    assert CandidatesUpTo(u, 2) == CandidatesUpTo(u, 1) + Elements(FindAll(StockPattern, u, 0));
    assert CandidatesUpTo(u, 1) == CandidatesUpTo(u, 0) + Elements(FindAll(DollarPattern, u, 0));
  }

  /** Text without `$` and without an exchange prefix yields no ticker. */
  lemma NoMarkersNoTickers(text: string)
    requires '$' !in text
    requires forall i :: !HasPrefixAt(Upper(text), i, "NASDAQ:") && !HasPrefixAt(Upper(text), i, "NYSE:")
    ensures TickerSet(text) == {}
  {
    var u := Upper(text);
    assert forall k :: 0 <= k < |u| ==> u[k] != '$' by {
      forall k | 0 <= k < |u| ensures u[k] != '$' {
        assert text[k] in text;
      }
    }
    NoMatchNoGroups(DollarPattern, u, 0);
    NoMatchNoGroups(ExchangePattern, u, 0);
    TickersFromMarkers(text);
  }

  /** Detection is case-insensitive: it sees only the upper-cased text. */
  lemma TickersCaseInsensitive(text: string)
    ensures TickerSet(Upper(text)) == TickerSet(text)
  {
    UpperIdempotent(text);
  }

  /** A common word after `$` is found by the scan and then dropped. */
  lemma CommonWordDropped()
    ensures FindAll(DollarPattern, "$THE", 0) == ["THE"]
    ensures TickerSet("$the") == {}
  {
    assert CapitalRun("$THE", 4, 2) == 0;
    assert CapitalRun("$THE", 1, 5) == 3;
    assert "$THE"[1..4] == "THE";
    assert DollarMatchAt("$THE", 0) == Some(Match("THE", 4));
    assert FindAll(DollarPattern, "$THE", 4) == [];
    assert Upper("$the") == "$THE";
    StockPatternNeverMatches("$the");
    NoMatchNoGroups(ExchangePattern, "$THE", 0);
  }

  /** Positions where the pattern does not match are skipped one by one. */
  lemma {:induction false} SkipNoMatch(p: Pattern, s: string, i: nat, k: nat)
    requires i <= k <= |s|
    requires forall j :: i <= j < k ==> MatchAt(p, s, j).None?
    ensures FindAll(p, s, i) == FindAll(p, s, k)
    decreases k - i
  {
    if i < k {
      SkipNoMatch(p, s, i, k - 1);
      SkipOne(p, s, k - 1);
    }
  }

  lemma SkipOne(p: Pattern, s: string, i: nat)
    requires i < |s| && MatchAt(p, s, i).None?
    ensures FindAll(p, s, i) == FindAll(p, s, i + 1)
  {
  }

  /** A prefix at i starts with the character at i. */
  lemma PrefixStartsWith(s: string, i: nat, p: string)
    requires p != []
    ensures HasPrefixAt(s, i, p) ==> s[i] == p[0]
  {
    if HasPrefixAt(s, i, p) {
      assert s[i..i + |p|][0] == s[i];
    }
  }

  // A worked example: one `$` ticker and one exchange-prefixed ticker.

  const ExampleUpperText: string := "$AAPL NYSE:MSFT"
  const ExampleTickers: set<string> := {"AAPL", "MSFT"}

  lemma ExampleSkipToExchange()
    ensures FindAll(ExchangePattern, ExampleUpperText, 0) == FindAll(ExchangePattern, ExampleUpperText, 6)
  {
    var u := ExampleUpperText;
    forall j | 0 <= j < 6
      ensures MatchAt(ExchangePattern, u, j).None?
    {
      assert u[j] != 'N';
      PrefixStartsWith(u, j, "NASDAQ:");
      PrefixStartsWith(u, j, "NYSE:");
    }
    SkipNoMatch(ExchangePattern, u, 0, 6);
  }

  lemma ExampleExchangeMatch()
    ensures ExchangeMatchAt(ExampleUpperText, 6) == Some(Match("MSFT", 15))
  {
    var u := ExampleUpperText;
    assert AtWordBoundary(u, 6);
    assert u[6..13][1] == 'Y' != "NASDAQ:"[1];
    assert u[6..11] == "NYSE:";
    assert CapitalRun(u, 15, 1) == 0;
    assert CapitalRun(u, 11, 5) == 4;
    assert u[11..15] == "MSFT";
  }

  lemma ExampleExchangeScan()
    ensures FindAll(ExchangePattern, ExampleUpperText, 0) == ["MSFT"]
  {
    ExampleSkipToExchange();
    ExampleExchangeMatch();
    assert FindAll(ExchangePattern, ExampleUpperText, 15) == [];
  }

  lemma ExampleDollarMatch()
    ensures DollarMatchAt(ExampleUpperText, 0) == Some(Match("AAPL", 5))
  {
    var u := ExampleUpperText;
    assert CapitalRun(u, 5, 1) == 0;
    assert CapitalRun(u, 1, 5) == 4;
    assert u[1..5] == "AAPL";
  }

  lemma ExampleDollarScan()
    ensures FindAll(DollarPattern, ExampleUpperText, 0) == ["AAPL"]
  {
    var u := ExampleUpperText;
    ExampleDollarMatch();
    forall j | 5 <= j <= |u|
      ensures MatchAt(DollarPattern, u, j).None?
    {
      assert j < |u| ==> u[j] != '$';
    }
    NoMatchNoGroups(DollarPattern, u, 5);
  }

  /** `$aapl nyse:msft` yields AAPL from the `$` pattern and MSFT from the
      exchange pattern. */
  lemma DollarAndExchangeExample()
    ensures TickerSet("$aapl nyse:msft") == {"AAPL", "MSFT"}
  {
    var t := "$aapl nyse:msft";
    calc {
      TickerSet(t);
    == { TickersFromMarkers(t); }
      Kept(Elements(FindAll(DollarPattern, Upper(t), 0)) + Elements(FindAll(ExchangePattern, Upper(t), 0)));
    == { ExampleUpper(); ExampleDollarScan(); ExampleExchangeScan(); }
      Kept(Elements(["AAPL"]) + Elements(["MSFT"]));
    == { assert Elements(["AAPL"]) + Elements(["MSFT"]) == {"AAPL", "MSFT"}; }
      Kept(ExampleTickers);
    == { ExampleKept(); }
      ExampleTickers;
    }
  }

  lemma ExampleUpper()
    ensures Upper("$aapl nyse:msft") == ExampleUpperText
  {
    assert |Upper("$aapl nyse:msft")| == 15;
  }

  lemma ExampleKept()
    ensures Kept({"AAPL", "MSFT"}) == {"AAPL", "MSFT"}
  {
    assert "AAPL" !in FalsePositives && "MSFT" !in FalsePositives;
  }

  // A second example: the `NASDAQ:` alternative.

  const NasdaqUpperText: string := "NASDAQ:MSFT"
  const NasdaqTickers: set<string> := {"MSFT"}

  lemma NasdaqMatch()
    ensures ExchangeMatchAt(NasdaqUpperText, 0) == Some(Match("MSFT", 11))
  {
    var u := NasdaqUpperText;
    assert AtWordBoundary(u, 0);
    assert u[0..7] == "NASDAQ:";
    assert CapitalRun(u, 11, 1) == 0;
    assert CapitalRun(u, 7, 5) == 4;
    assert u[7..11] == "MSFT";
  }

  lemma NasdaqScans()
    ensures FindAll(ExchangePattern, NasdaqUpperText, 0) == ["MSFT"]
    ensures FindAll(DollarPattern, NasdaqUpperText, 0) == []
  {
    var u := NasdaqUpperText;
    NasdaqMatch();
    assert FindAll(ExchangePattern, u, 11) == [];
    forall j | 0 <= j <= |u|
      ensures MatchAt(DollarPattern, u, j).None?
    {
      assert j < |u| ==> u[j] != '$';
    }
    NoMatchNoGroups(DollarPattern, u, 0);
  }

  /** `nasdaq:msft` yields MSFT through the `NASDAQ:` alternative. */
  lemma NasdaqExample()
    ensures TickerSet("nasdaq:msft") == {"MSFT"}
  {
    var t := "nasdaq:msft";
    calc {
      TickerSet(t);
    == { TickersFromMarkers(t); }
      Kept(Elements(FindAll(DollarPattern, Upper(t), 0)) + Elements(FindAll(ExchangePattern, Upper(t), 0)));
    == { NasdaqUpper(); NasdaqScans(); }
      Kept(Elements([]) + Elements(["MSFT"]));
    == { assert Elements([]) + Elements(["MSFT"]) == NasdaqTickers; }
      Kept(NasdaqTickers);
    == { assert "MSFT" !in FalsePositives; }
      NasdaqTickers;
    }
  }

  lemma NasdaqUpper()
    ensures Upper("nasdaq:msft") == NasdaqUpperText
  {
    assert |Upper("nasdaq:msft")| == 11;
  }

  // ---------------------------------------------------------------------
  // Where a reported ticker comes from

  /** The pattern matches at k with group g. */
  predicate MatchesAt(p: Pattern, s: string, k: nat, g: string) {
    k < |s| && MatchAt(p, s, k).Some? && MatchAt(p, s, k).value.group == g
  }

  /** Every group `FindAll` reports is the group of a match at some position
      of the scanned range. */
  lemma {:induction false} FindAllSound(p: Pattern, s: string, i: nat)
    requires i <= |s|
    ensures forall g :: g in FindAll(p, s, i) ==> exists k :: i <= k && MatchesAt(p, s, k, g)
    decreases |s| - i
  {
    if i < |s| {
      match MatchAt(p, s, i)
      case Some(m) =>
        FindAllSound(p, s, m.end);
        assert MatchesAt(p, s, i, m.group);
      case None =>
        FindAllSound(p, s, i + 1);
    }
  }

  /** t is the maximal capital run right after a `$` at k. */
  predicate DollarTickerAt(u: string, k: nat, t: string) {
    k + 1 + |t| <= |u| && u[k] == '$' && u[k + 1..k + 1 + |t|] == t && MaximalRun(u, k + 1, k + 1 + |t|)
  }

  /** t is the maximal capital run right after `NASDAQ:` or `NYSE:` at a word
      boundary k. */
  predicate ExchangeTickerAt(u: string, k: nat, t: string) {
    var p := ExchangePrefixLength(u, k);
    && k + p + |t| <= |u| && AtWordBoundary(u, k) && p > 0
    && u[k + p..k + p + |t|] == t && MaximalRun(u, k + p, k + p + |t|)
  }

  /** Every group of the dollar scan follows a `$`. */
  lemma DollarGroupsSound(u: string)
    ensures forall t :: t in FindAll(DollarPattern, u, 0) ==> exists k :: DollarTickerAt(u, k, t)
  {
    FindAllSound(DollarPattern, u, 0);
    forall t | t in FindAll(DollarPattern, u, 0)
      ensures exists k :: DollarTickerAt(u, k, t)
    {
      var k :| MatchesAt(DollarPattern, u, k, t);
      DollarTicker(u, k, t);
    }
  }

  lemma DollarTicker(u: string, k: nat, t: string)
    requires MatchesAt(DollarPattern, u, k, t)
    ensures DollarTickerAt(u, k, t)
  {
    DollarMatchSpec(u, k);
  }

  /** Every group of the exchange scan follows an exchange prefix. */
  lemma ExchangeGroupsSound(u: string)
    ensures forall t :: t in FindAll(ExchangePattern, u, 0) ==> exists k :: ExchangeTickerAt(u, k, t)
  {
    FindAllSound(ExchangePattern, u, 0);
    forall t | t in FindAll(ExchangePattern, u, 0)
      ensures exists k :: ExchangeTickerAt(u, k, t)
    {
      var k :| MatchesAt(ExchangePattern, u, k, t);
      ExchangeTicker(u, k, t);
    }
  }

  lemma ExchangeTicker(u: string, k: nat, t: string)
    requires MatchesAt(ExchangePattern, u, k, t)
    ensures ExchangeTickerAt(u, k, t)
  {
    ExchangeMatchSpec(u, k);
  }

  /** Every reported ticker is, in the upper-cased text, the greedy run of
      capitals after a `$` or after an exchange prefix at a word boundary. */
  lemma TickerSetSound(text: string)
    ensures forall t :: t in TickerSet(text) ==>
      exists k :: DollarTickerAt(Upper(text), k, t) || ExchangeTickerAt(Upper(text), k, t)
  {
    var u := Upper(text);
    TickersFromMarkers(text);
    DollarGroupsSound(u);
    ExchangeGroupsSound(u);
  }

  // ---------------------------------------------------------------------
  // Which matches are reported

  /** A match at k is reported by a scan from i when no match the scan could
      meet before k runs past k. */
  lemma {:induction false} FindAllComplete(p: Pattern, s: string, i: nat, k: nat)
    requires i <= k < |s| && MatchAt(p, s, k).Some?
    requires forall j :: i <= j < k && MatchAt(p, s, j).Some? ==> MatchAt(p, s, j).value.end <= k
    ensures MatchAt(p, s, k).value.group in FindAll(p, s, i)
    decreases |s| - i
  {
    if i < k {
      match MatchAt(p, s, i)
      case Some(m) =>
        FindAllComplete(p, s, m.end, k);
      case None =>
        FindAllComplete(p, s, i + 1, k);
    }
  }

  /** Dollar matches never overlap: an earlier one ends at a capital letter
      run, which cannot contain the `$` of a later one. So the scan from i
      reports every dollar match at or after i. */
  lemma DollarComplete(s: string, i: nat, k: nat)
    requires i <= k < |s| && DollarMatchAt(s, k).Some?
    ensures DollarMatchAt(s, k).value.group in FindAll(DollarPattern, s, i)
  {
    forall j | i <= j < k && MatchAt(DollarPattern, s, j).Some?
      ensures MatchAt(DollarPattern, s, j).value.end <= k
    {
      DollarMatchSpec(s, j);
    }
    FindAllComplete(DollarPattern, s, i, k);
  }

  /** The greedy run of capitals from a given start has one length. */
  lemma RunUnique(s: string, start: nat, e1: nat, e2: nat)
    requires start <= e1 <= |s| && start <= e2 <= |s|
    requires e1 - start <= MaxTickerLength && e2 - start <= MaxTickerLength
    requires forall q :: start <= q < e1 ==> IsCapital(s[q])
    requires forall q :: start <= q < e2 ==> IsCapital(s[q])
    requires MaximalRun(s, start, e1) && MaximalRun(s, start, e2)
    ensures e1 == e2
  {
  }

  /** A ticker-shaped run of capitals after `$` is the group of the dollar
      match there. */
  lemma DollarGroupIs(u: string, k: nat, t: string)
    requires IsTickerShaped(t) && DollarTickerAt(u, k, t)
    ensures DollarMatchAt(u, k).Some? && DollarMatchAt(u, k).value.group == t
  {
    assert forall q :: k + 1 <= q < k + 1 + |t| ==> IsCapital(u[q]) by {
      forall q | k + 1 <= q < k + 1 + |t| ensures IsCapital(u[q]) {
        assert u[q] == t[q - k - 1];
      }
    }
    DollarMatchSpec(u, k);
    var m := DollarMatchAt(u, k).value;
    RunUnique(u, k + 1, m.end, k + 1 + |t|);
  }

  /** A ticker-shaped run of capitals after `$` is a group of the dollar
      scan. */
  lemma DollarRunFound(u: string, k: nat, t: string)
    requires IsTickerShaped(t) && DollarTickerAt(u, k, t)
    ensures t in FindAll(DollarPattern, u, 0)
  {
    DollarGroupIs(u, k, t);
    DollarComplete(u, 0, k);
  }

  /** A ticker-shaped run of capitals after `$` in the upper-cased text is
      reported unless it is a common word. */
  lemma DollarTickerReported(text: string, k: nat, t: string)
    requires IsTickerShaped(t) && DollarTickerAt(Upper(text), k, t) && t !in FalsePositives
    ensures t in TickerSet(text)
  {
    DollarRunFound(Upper(text), k, t);
    TickersFromMarkers(text);
  }

  /** An exchange match at k is reported when no earlier exchange match runs
      past k (one can: in `NYSE:NYSE:AB` the first match takes the second
      `NYSE` as its group). */
  lemma ExchangeComplete(s: string, i: nat, k: nat)
    requires i <= k < |s| && ExchangeMatchAt(s, k).Some?
    requires forall j :: i <= j < k && ExchangeMatchAt(s, j).Some? ==> ExchangeMatchAt(s, j).value.end <= k
    ensures ExchangeMatchAt(s, k).value.group in FindAll(ExchangePattern, s, i)
  {
    FindAllComplete(ExchangePattern, s, i, k);
  }

  /** A ticker-shaped run of capitals after an exchange prefix at a word
      boundary is the group of the exchange match there. */
  lemma ExchangeGroupIs(u: string, k: nat, t: string)
    requires IsTickerShaped(t) && ExchangeTickerAt(u, k, t)
    ensures ExchangeMatchAt(u, k).Some? && ExchangeMatchAt(u, k).value.group == t
  {
    var p := ExchangePrefixLength(u, k);
    assert forall q :: k + p <= q < k + p + |t| ==> IsCapital(u[q]) by {
      forall q | k + p <= q < k + p + |t| ensures IsCapital(u[q]) {
        assert u[q] == t[q - k - p];
      }
    }
    ExchangeMatchSpec(u, k);
    var m := ExchangeMatchAt(u, k).value;
    RunUnique(u, k + p, m.end, k + p + |t|);
  }

  /** A ticker-shaped run of capitals after an exchange prefix at a word
      boundary is a group of the exchange scan when no earlier exchange match
      runs past the prefix. */
  lemma ExchangeRunFound(u: string, k: nat, t: string)
    requires IsTickerShaped(t) && ExchangeTickerAt(u, k, t)
    requires forall j: nat :: j < k && ExchangeMatchAt(u, j).Some? ==> ExchangeMatchAt(u, j).value.end <= k
    ensures t in FindAll(ExchangePattern, u, 0)
  {
    ExchangeGroupIs(u, k, t);
    ExchangeComplete(u, 0, k);
  }

  /** A ticker-shaped run of capitals after an exchange prefix at a word
      boundary of the upper-cased text is reported, unless it is a common
      word or an earlier exchange match ran past its prefix. */
  lemma ExchangeTickerReported(text: string, k: nat, t: string)
    requires IsTickerShaped(t) && ExchangeTickerAt(Upper(text), k, t) && t !in FalsePositives
    requires forall j: nat :: j < k && ExchangeMatchAt(Upper(text), j).Some? ==> ExchangeMatchAt(Upper(text), j).value.end <= k
    ensures t in TickerSet(text)
  {
    ExchangeRunFound(Upper(text), k, t);
    TickersFromMarkers(text);
  }

  /** `_detect_ticker_symbols`: the sorted list of `TickerSet(text)`. */
  method DetectTickerSymbols(text: string) returns (tickers: seq<string>)
    ensures StrictlyAscending(tickers)
    ensures forall t :: t in tickers <==> t in TickerSet(text)
  {
    var upper := Upper(text);
    var found: set<string> := {};
    for k := 0 to |Patterns|
      invariant found == CandidatesUpTo(upper, k)
    {
      var matches := FindAll(Patterns[k], upper, 0);
      found := found + Elements(matches);
    }
    var kept := Kept(found);
    tickers := [];
    var rest := kept;
    while rest != {}
      invariant rest <= kept
      invariant StrictlyAscending(tickers)
      invariant forall t :: t in tickers <==> t in kept && t !in rest
      decreases |rest|
    {
      var t :| t in rest;
      tickers := Insert(tickers, t);
      rest := rest - {t};
    }
  }
}
