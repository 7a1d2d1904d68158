/** The Python string built-ins the core relies on (`str.isspace`, `strip`,
    `split`, `join`, `upper`), written out over `seq<char>`. */
module Text {

  /** `str.isspace` for one character: the ASCII whitespace, the information
      separators U+001C..U+001F and the Unicode space separators. */
  predicate IsSpace(c: char) {
    c == ' ' || ('\t' <= c <= '\r') || ('\U{1c}' <= c <= '\U{1f}')
    || c == '\U{85}' || c == '\U{a0}' || c == '\U{1680}'
    || ('\U{2000}' <= c <= '\U{200a}') || c == '\U{2028}' || c == '\U{2029}'
    || c == '\U{202f}' || c == '\U{205f}' || c == '\U{3000}'
  }

  /** The characters at which `str.splitlines` ends a line. */
  predicate IsLineBreak(c: char) {
    ('\n' <= c <= '\r') || ('\U{1c}' <= c <= '\U{1e}')
    || c == '\U{85}' || c == '\U{2028}' || c == '\U{2029}'
  }

  predicate NoLineBreaks(s: string) {
    forall i :: 0 <= i < |s| ==> !IsLineBreak(s[i])
  }

  /** No two adjacent ASCII spaces, i.e. `"  " not in s`. */
  predicate NoDoubleSpace(s: string) {
    forall i :: 0 <= i < |s| - 1 ==> !(s[i] == ' ' && s[i + 1] == ' ')
  }

  /** Neither end of `s` is whitespace: `s.strip() == s`. */
  predicate IsStripped(s: string) {
    s == [] || (!IsSpace(s[0]) && !IsSpace(s[|s| - 1]))
  }

  predicate AllSpace(s: string) {
    forall i :: 0 <= i < |s| ==> IsSpace(s[i])
  }

  lemma NoDoubleSpaceSlice(s: string, i: nat, j: nat)
    requires i <= j <= |s| && NoDoubleSpace(s)
    ensures NoDoubleSpace(s[i..j])
  {
    forall k | 0 <= k < j - i - 1
      ensures !(s[i..j][k] == ' ' && s[i..j][k + 1] == ' ')
    {
      assert s[i..j][k] == s[i + k] && s[i..j][k + 1] == s[i + k + 1];
    }
  }

  // ---------------------------------------------------------------------
  // upper

  /** `str.upper` on one character, ASCII letters only. */
  function UpperChar(c: char): char {
    if 'a' <= c <= 'z' then (c as int - 32) as char else c
  }

  /** Each lower-case ASCII letter becomes its capital, 32 code points
      lower; every other character is kept. */
  function Upper(s: string): (r: string)
    ensures |r| == |s|
    ensures forall i :: 0 <= i < |s| ==>
      if 'a' <= s[i] <= 'z' then r[i] as int == s[i] as int - 32 else r[i] == s[i]
    ensures NoLowercase(r)
  {
    seq(|s|, i requires 0 <= i < |s| => UpperChar(s[i]))
  }

  predicate NoLowercase(s: string) {
    forall i :: 0 <= i < |s| ==> !('a' <= s[i] <= 'z')
  }

  lemma UpperWithoutLowercase(s: string)
    requires NoLowercase(s)
    ensures Upper(s) == s
  {
  }

  lemma UpperIdempotent(s: string)
    ensures Upper(Upper(s)) == Upper(s)
  {
    assert forall i :: 0 <= i < |s| ==> Upper(Upper(s))[i] == Upper(s)[i];
  }

  // ---------------------------------------------------------------------
  // strip

  /** The index of the first non-whitespace character at or after i. */
  function SkipSpace(s: string, i: nat): (j: nat)
    requires i <= |s|
    ensures i <= j <= |s|
    ensures forall k :: i <= k < j ==> IsSpace(s[k])
    ensures j < |s| ==> !IsSpace(s[j])
    decreases |s| - i
  {
    if i < |s| && IsSpace(s[i]) then SkipSpace(s, i + 1) else i
  }

  /** The end of the last non-whitespace character in s[lo..j]. */
  function TrimEnd(s: string, lo: nat, j: nat): (e: nat)
    requires lo <= j <= |s|
    ensures lo <= e <= j
    ensures forall k :: e <= k < j ==> IsSpace(s[k])
    ensures e > lo ==> !IsSpace(s[e - 1])
    decreases j - lo
  {
    if j > lo && IsSpace(s[j - 1]) then TrimEnd(s, lo, j - 1) else j
  }

  /** `str.strip()` with no argument. */
  function Strip(s: string): (r: string)
    ensures IsStripped(r)
    ensures r == [] <==> AllSpace(s)
    ensures IsStripped(s) ==> r == s
    ensures NoLineBreaks(s) ==> NoLineBreaks(r)
    ensures NoDoubleSpace(s) ==> NoDoubleSpace(r)
    ensures forall c :: c in r ==> c in s
    ensures exists i, j :: 0 <= i <= j <= |s| && r == s[i..j] && AllSpace(s[..i]) && AllSpace(s[j..])
  {
    var lo := SkipSpace(s, 0);
    var hi := TrimEnd(s, lo, |s|);
    StripShape(s, lo, hi);
    StripKeeps(s, lo, hi);
    s[lo..hi]
  }

  /** The slice `Strip` returns has no whitespace at either end, is empty
      exactly for an all-whitespace input and is the input when that is
      already stripped. */
  lemma StripShape(s: string, lo: nat, hi: nat)
    requires lo == SkipSpace(s, 0) && hi == TrimEnd(s, lo, |s|)
    ensures IsStripped(s[lo..hi])
    ensures s[lo..hi] == [] <==> AllSpace(s)
    ensures IsStripped(s) ==> s[lo..hi] == s
  {
    StripEmpty(s, lo, hi);
    StripFixed(s);
  }

  /** The slice `Strip` returns keeps what the input avoids, and only
      whitespace is cut from either side. */
  lemma StripKeeps(s: string, lo: nat, hi: nat)
    requires lo == SkipSpace(s, 0) && hi == TrimEnd(s, lo, |s|)
    ensures NoLineBreaks(s) ==> NoLineBreaks(s[lo..hi])
    ensures NoDoubleSpace(s) ==> NoDoubleSpace(s[lo..hi])
    ensures forall c :: c in s[lo..hi] ==> c in s
    ensures exists i, j :: 0 <= i <= j <= |s| && s[lo..hi] == s[i..j] && AllSpace(s[..i]) && AllSpace(s[j..])
  {
    SliceKeeps(s, lo, hi);
    StripSurround(s, lo, hi);
  }

  /** What strip removes is whitespace on either side. */
  lemma StripSurround(s: string, lo: nat, hi: nat)
    requires lo == SkipSpace(s, 0) && hi == TrimEnd(s, lo, |s|)
    ensures exists i, j :: 0 <= i <= j <= |s| && s[lo..hi] == s[i..j] && AllSpace(s[..i]) && AllSpace(s[j..])
  {
    assert AllSpace(s[..lo]) && AllSpace(s[hi..]);
  }

  lemma StripEmpty(s: string, lo: nat, hi: nat)
    requires lo == SkipSpace(s, 0) && hi == TrimEnd(s, lo, |s|)
    ensures lo == hi <==> AllSpace(s)
  {
  }

  lemma StripFixed(s: string)
    ensures IsStripped(s) ==> s[SkipSpace(s, 0)..TrimEnd(s, SkipSpace(s, 0), |s|)] == s
  {
  }

  lemma SliceKeeps(s: string, i: nat, j: nat)
    requires i <= j <= |s|
    ensures NoDoubleSpace(s) ==> NoDoubleSpace(s[i..j])
    ensures NoLineBreaks(s) ==> NoLineBreaks(s[i..j])
    ensures forall c :: c in s[i..j] ==> c in s
  {
    if NoDoubleSpace(s) {
      NoDoubleSpaceSlice(s, i, j);
    }
  }

  // ---------------------------------------------------------------------
  // split and join

  /** `s.split(sep)` for a non-empty separator: cut at each leftmost,
      non-overlapping occurrence of `sep`. */
  function Split(s: string, sep: string): (parts: seq<string>)
    requires sep != []
    ensures |parts| >= 1
    ensures |parts[0]| <= |s| && parts[0] == s[..|parts[0]|]
    decreases |s|
  {
    if |s| < |sep| then [s]
    else if s[..|sep|] == sep then [[]] + Split(s[|sep|..], sep)
    else
      var rest := Split(s[1..], sep);
      [[s[0]] + rest[0]] + rest[1..]
  }

  /** `sep.join(parts)`. */
  function Join(parts: seq<string>, sep: string): string
    decreases |parts|
  {
    if parts == [] then []
    else if |parts| == 1 then parts[0]
    else parts[0] + sep + Join(parts[1..], sep)
  }

  /** A piece of `s.split(c)` never contains `c`. */
  lemma {:induction false} SplitPartsAvoid(s: string, c: char)
    ensures forall p :: p in Split(s, [c]) ==> c !in p
    decreases |s|
  {
    if |s| >= 1 {
      if s[..1] == [c] {
        SplitPartsAvoid(s[1..], c);
      } else {
        SplitPartsAvoid(s[1..], c);
        var rest := Split(s[1..], [c]);
        assert s[0] != c;
        assert forall p :: p in rest[1..] ==> p in rest;
      }
    }
  }

  lemma {:induction false} SplitWithoutSeparator(s: string, c: char)
    requires c !in s
    ensures Split(s, [c]) == [s]
    decreases |s|
  {
    if |s| >= 1 {
      assert s[0] in s;
      assert s[..1] == [s[0]] && s[0] != c;
      SplitWithoutSeparator(s[1..], c);
      assert [s[0]] + s[1..] == s;
    }
  }

  lemma {:induction false} SplitAfterPiece(p: string, c: char, rest: string)
    requires c !in p
    ensures Split(p + [c] + rest, [c]) == [p] + Split(rest, [c])
    decreases |p|
  {
    var s := p + [c] + rest;
    if p == [] {
      assert s[..1] == [c];
      assert s[1..] == rest;
    } else {
      assert s[..1] == [p[0]] && p[0] != c;
      assert s[1..] == p[1..] + [c] + rest;
      SplitAfterPiece(p[1..], c, rest);
      assert [p[0]] + p[1..] == p;
    }
  }

  /** Splitting a join on a one-character separator that no piece contains
      gives the pieces back. */
  lemma {:induction false} SplitJoinRoundTrip(parts: seq<string>, c: char)
    requires parts != []
    requires forall p :: p in parts ==> c !in p
    ensures Split(Join(parts, [c]), [c]) == parts
    decreases |parts|
  {
    if |parts| == 1 {
      SplitWithoutSeparator(parts[0], c);
    } else {
      SplitJoinRoundTrip(parts[1..], c);
      SplitAfterPiece(parts[0], c, Join(parts[1..], [c]));
      assert [parts[0]] + parts[1..] == parts;
    }
  }

  // ---------------------------------------------------------------------
  // whitespace tokens

  /** Length of the leading run of non-whitespace characters. */
  function TokenLength(t: string): (k: nat)
    ensures k <= |t|
    ensures forall i :: 0 <= i < k ==> !IsSpace(t[i])
    ensures k < |t| ==> IsSpace(t[k])
  {
    if t == [] || IsSpace(t[0]) then 0 else 1 + TokenLength(t[1..])
  }

  /** A non-empty run without whitespace. */
  predicate IsToken(w: string) {
    w != [] && forall i :: 0 <= i < |w| ==> !IsSpace(w[i])
  }

  /** `s.split()` with no argument: the maximal runs of non-whitespace, in
      order. */
  function Words(s: string): seq<string>
    decreases |s|
  {
    if s == [] then []
    else if IsSpace(s[0]) then Words(s[1..])
    else
      var k := TokenLength(s);
      [s[..k]] + Words(s[k..])
  }

  /** Every word is a token, and there are none exactly when `s` is all
      whitespace. */
  lemma {:induction false} WordsAreTokens(s: string)
    ensures forall w :: w in Words(s) ==> IsToken(w)
    ensures Words(s) == [] <==> AllSpace(s)
    decreases |s|
  {
    if s != [] {
      if IsSpace(s[0]) {
        WordsAreTokens(s[1..]);
        assert AllSpace(s) <==> AllSpace(s[1..]) by {
          assert forall i :: 0 < i < |s| ==> s[i] == s[1..][i - 1];
        }
      } else {
        var k := TokenLength(s);
        WordsAreTokens(s[k..]);
        assert IsToken(s[..k]);
      }
    }
  }

  lemma TokenLengthIs(t: string, k: nat)
    requires k <= |t|
    requires forall i :: 0 <= i < k ==> !IsSpace(t[i])
    requires k < |t| ==> IsSpace(t[k])
    ensures TokenLength(t) == k
  {
  }

  /** Leading whitespace does not change the words. */
  lemma {:induction false} WordsDropSpace(s: string, i: nat)
    requires i <= |s|
    requires forall k :: 0 <= k < i ==> IsSpace(s[k])
    ensures Words(s) == Words(s[i..])
    decreases i
  {
    if i > 0 {
      assert IsSpace(s[0]);
      WordsDropSpace(s[1..], i - 1);
      assert s[1..][i - 1..] == s[i..];
    }
  }

  /** A single token is a single word. */
  lemma WordsOfToken(t: string)
    requires IsToken(t)
    ensures Words(t) == [t]
  {
    TokenLengthIs(t, |t|);
    assert t[..|t|] == t;
    assert t[|t|..] == [];
  }

  /** A non-empty whitespace run separates the words on either side. */
  lemma {:induction false} WordsAcrossSpace(a: string, w: string, b: string)
    requires w != [] && AllSpace(w)
    ensures Words(a + w + b) == Words(a) + Words(b)
    decreases |a|
  {
    if a == [] {
      assert a + w + b == w + b;
      WordsDropSpace(w + b, |w|);
      assert (w + b)[|w|..] == b;
    } else if IsSpace(a[0]) {
      WordsAcrossSpace(a[1..], w, b);
      WordsAcrossLeadingSpace(a, w, b);
    } else {
      WordsAcrossSpace(a[TokenLength(a)..], w, b);
      WordsAcrossToken(a, w, b);
    }
  }

  /** The step of `WordsAcrossSpace` past one leading whitespace character. */
  lemma WordsAcrossLeadingSpace(a: string, w: string, b: string)
    requires a != [] && IsSpace(a[0])
    requires Words(a[1..] + w + b) == Words(a[1..]) + Words(b)
    ensures Words(a + w + b) == Words(a) + Words(b)
  {
    SuffixOfConcat(a, w, b, 1);
  }

  /** The step of `WordsAcrossSpace` past the leading token of `a`. */
  lemma WordsAcrossToken(a: string, w: string, b: string)
    requires a != [] && !IsSpace(a[0]) && w != [] && AllSpace(w)
    requires Words(a[TokenLength(a)..] + w + b) == Words(a[TokenLength(a)..]) + Words(b)
    ensures Words(a + w + b) == Words(a) + Words(b)
  {
    TokenBeforeSpace(a, w, b);
    SuffixOfConcat(a, w, b, TokenLength(a));
  }

  /** The token at the front of `a` stays the token at the front of `a + w + b`
      when `w` starts with whitespace. */
  lemma TokenBeforeSpace(a: string, w: string, b: string)
    requires w != [] && AllSpace(w)
    ensures TokenLength(a + w + b) == TokenLength(a)
    ensures (a + w + b)[..TokenLength(a)] == a[..TokenLength(a)]
  {
    var s := a + w + b;
    var k := TokenLength(a);
    assert k < |a| ==> IsSpace(s[k]);
    assert k == |a| ==> s[k] == w[0];
    TokenLengthIs(s, k);
    assert s[..k] == a[..k];
  }

  /** Cutting a string at i and j and gluing the three pieces back. */
  lemma ThreeSlices(s: string, i: nat, j: nat)
    requires i <= j <= |s|
    ensures s == s[..i] + s[i..j] + s[j..]
  {
    assert s[..j] == s[..i] + s[i..j];
  }

  lemma SuffixOfConcat(a: string, w: string, b: string, k: nat)
    requires k <= |a|
    ensures (a + w + b)[k..] == a[k..] + w + b
  {
    assert forall m :: 0 <= m < |a| - k + |w| + |b| ==> (a + w + b)[k..][m] == (a[k..] + w + b)[m];
  }

  /** Trailing whitespace never makes a word. */
  lemma WordsTrailingSpace(r: string, t: string)
    requires AllSpace(t)
    ensures Words(r + t) == Words(r)
  {
    if t == [] {
      assert r + t == r;
    } else {
      WordsAcrossSpace(r, t, []);
      assert r + t + [] == r + t;
    }
  }

  /** Stripping keeps the words. */
  lemma WordsOfStrip(s: string)
    ensures Words(Strip(s)) == Words(s)
  {
    var r := Strip(s);
    var i, j :| 0 <= i <= j <= |s| && r == s[i..j] && AllSpace(s[..i]) && AllSpace(s[j..]);
    WordsOfSlice(s, i, j);
  }

  /** A slice with only whitespace around it has the words of the whole. */
  lemma WordsOfSlice(s: string, i: nat, j: nat)
    requires i <= j <= |s| && AllSpace(s[..i]) && AllSpace(s[j..])
    ensures Words(s[i..j]) == Words(s)
  {
    assert forall k :: 0 <= k < i ==> s[k] == s[..i][k];
    WordsDropSpace(s, i);
    assert s[i..] == s[i..j] + s[j..];
    WordsTrailingSpace(s[i..j], s[j..]);
  }

  /** The words of each string in turn. */
  function WordsOf(ps: seq<string>): seq<string>
    decreases |ps|
  {
    if ps == [] then [] else Words(ps[0]) + WordsOf(ps[1..])
  }

  lemma {:induction false} WordsOfAppend(a: seq<string>, b: seq<string>)
    ensures WordsOf(a + b) == WordsOf(a) + WordsOf(b)
    decreases |a|
  {
    if a != [] {
      assert (a + b)[0] == a[0] && (a + b)[1..] == a[1..] + b;
      WordsOfAppend(a[1..], b);
    } else {
      assert a + b == b;
    }
  }

  /** Joining on a whitespace separator keeps the words of the pieces. */
  lemma {:induction false} WordsOfJoin(ps: seq<string>, sep: string)
    requires sep != [] && AllSpace(sep)
    ensures Words(Join(ps, sep)) == WordsOf(ps)
    decreases |ps|
  {
    if |ps| == 1 {
      assert WordsOf(ps) == Words(ps[0]) + [];
    } else if |ps| > 1 {
      WordsOfJoin(ps[1..], sep);
      WordsAcrossSpace(ps[0], sep, Join(ps[1..], sep));
    }
  }

  /** Putting a character in front of the first piece puts it in front of
      the join. */
  lemma JoinPrepend(c: char, parts: seq<string>, sep: string)
    requires parts != []
    ensures Join([[c] + parts[0]] + parts[1..], sep) == [c] + Join(parts, sep)
  {
    var q := [[c] + parts[0]] + parts[1..];
    assert q[0] == [c] + parts[0] && q[1..] == parts[1..];
    if |parts| > 1 {
      assert [c] + parts[0] + sep + Join(parts[1..], sep) == [c] + (parts[0] + sep + Join(parts[1..], sep));
    }
  }

  /** `sep.join(s.split(sep)) == s`. */
  lemma {:induction false} SplitJoin(s: string, sep: string)
    requires sep != []
    ensures Join(Split(s, sep), sep) == s
    decreases |s|
  {
    if |s| >= |sep| {
      if s[..|sep|] == sep {
        var rest := Split(s[|sep|..], sep);
        SplitJoin(s[|sep|..], sep);
        assert ([[]] + rest)[1..] == rest;
        assert s == sep + s[|sep|..];
      } else {
        var rest := Split(s[1..], sep);
        SplitJoin(s[1..], sep);
        JoinPrepend(s[0], rest, sep);
        assert s == [s[0]] + s[1..];
      }
    }
  }

  // ---------------------------------------------------------------------
  // counting words

  /** Position i begins a maximal run of non-whitespace. */
  predicate IsRunStart(s: string, i: nat)
    requires i < |s|
  {
    !IsSpace(s[i]) && (i == 0 || IsSpace(s[i - 1]))
  }

  /** The number of run starts at or after i. */
  function RunStarts(s: string, i: nat): nat
    requires i <= |s|
    decreases |s| - i
  {
    if i == |s| then 0 else (if IsRunStart(s, i) then 1 else 0) + RunStarts(s, i + 1)
  }

  lemma {:induction false} RunStartsSkip(s: string, i: nat, j: nat)
    requires i <= j <= |s|
    requires forall m :: i <= m < j ==> !IsRunStart(s, m)
    ensures RunStarts(s, i) == RunStarts(s, j)
    decreases j - i
  {
    if i < j {
      RunStartsSkip(s, i + 1, j);
    }
  }

  /** Past its first position, a suffix has the same run starts. */
  lemma {:induction false} RunStartsShift(s: string, i: nat, j: nat)
    requires i < j <= |s|
    ensures RunStarts(s, j) == RunStarts(s[i..], j - i)
    decreases |s| - j
  {
    if j < |s| {
      assert s[i..][j - i] == s[j] && s[i..][j - i - 1] == s[j - 1];
      RunStartsShift(s, i, j + 1);
    }
  }

  /** `len(s.split())` is the number of maximal non-whitespace runs. */
  lemma {:induction false} WordCount(s: string)
    ensures |Words(s)| == RunStarts(s, 0)
    decreases |s|
  {
    if s != [] {
      if IsSpace(s[0]) {
        WordCount(s[1..]);
        RunStartsAfterSpace(s, 0);
      } else {
        var k := TokenLength(s);
        WordCount(s[k..]);
        RunStartsOfToken(s);
      }
    }
  }

  /** A whitespace character at i is not a run start, and the runs after it
      start where they start in the suffix beginning after it. */
  lemma RunStartsAfterSpace(s: string, i: nat)
    requires i < |s| && IsSpace(s[i])
    ensures RunStarts(s, i) == RunStarts(s[i + 1..], 0)
  {
    if i + 1 < |s| {
      RunStartsShift(s, i + 1, i + 2);
    }
  }

  /** A string that starts with a token has one run start for it, then those
      of what follows. */
  lemma RunStartsOfToken(s: string)
    requires s != [] && !IsSpace(s[0])
    ensures RunStarts(s, 0) == 1 + RunStarts(s[TokenLength(s)..], 0)
  {
    var k := TokenLength(s);
    RunStartsSkip(s, 1, k);
    if k < |s| {
      RunStartsAfterSpace(s, k);
      assert RunStarts(s[k + 1..], 0) == RunStarts(s[k..], 0) by {
        RunStartsAfterSpace(s[k..], 0);
        assert s[k..][1..] == s[k + 1..];
      }
    }
  }
}
