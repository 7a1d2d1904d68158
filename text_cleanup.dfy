/** The whitespace clean-up at the end of `_extract_text_content`: split the
    extracted text into lines, strip each line, cut each line at every
    double space, strip the pieces and join the non-empty ones with one
    space. The HTML parsing that produces the text is not modelled. */
module TextCleanup {
  import opened Text

  /** First index at or after i that ends a line, or |s|. */
  function LineEnd(s: string, i: nat): (j: nat)
    requires i <= |s|
    ensures i <= j <= |s|
    ensures forall k :: i <= k < j ==> !IsLineBreak(s[k])
    ensures j < |s| ==> IsLineBreak(s[j])
    decreases |s| - i
  {
    if i == |s| || IsLineBreak(s[i]) then i else LineEnd(s, i + 1)
  }

  /** How many characters the line break at i takes: "\r\n" is one break. */
  function BreakLength(s: string, i: nat): (n: nat)
    requires i < |s|
    ensures 1 <= n <= 2 && i + n <= |s|
  {
    if s[i] == '\r' && i + 1 < |s| && s[i + 1] == '\n' then 2 else 1
  }

  /** `str.splitlines()`: no trailing empty line, and "\r\n" ends one line. */
  function SplitLines(s: string): (lines: seq<string>)
    ensures forall l :: l in lines ==> NoLineBreaks(l)
    ensures NoLineBreaks(s) ==> lines == if s == [] then [] else [s]
    decreases |s|
  {
    if s == [] then []
    else
      var i := LineEnd(s, 0);
      if i == |s| then [s]
      else [s[..i]] + SplitLines(s[i + BreakLength(s, i)..])
  }

  /** The line endings `SplitLines` drops, one per line; the last line may
      have none. */
  function LineEnds(s: string): seq<string>
    decreases |s|
  {
    if s == [] then []
    else
      var i := LineEnd(s, 0);
      if i == |s| then [[]]
      else [s[i..i + BreakLength(s, i)]] + LineEnds(s[i + BreakLength(s, i)..])
  }

  /** "\r\n" or one line-break character. */
  predicate IsLineEnding(e: string) {
    e == "\r\n" || (|e| == 1 && IsLineBreak(e[0]))
  }

  /** Each line followed by its ending, in order. */
  function Interleave(lines: seq<string>, ends: seq<string>): string
    requires |lines| == |ends|
    decreases |lines|
  {
    if lines == [] then [] else lines[0] + ends[0] + Interleave(lines[1..], ends[1..])
  }

  /** Every line but the last ends in a line break; the last ends in one or
      is a non-empty unterminated line; and a lone "\r" is never followed
      by an empty line ended by "\n" (that would be one "\r\n"). */
  predicate WellEnded(lines: seq<string>, ends: seq<string>)
    requires |lines| == |ends|
  {
    && (forall k :: 0 <= k < |ends| ==>
          IsLineEnding(ends[k]) || (k == |ends| - 1 && ends[k] == [] && lines[k] != []))
    && (forall k :: 0 <= k < |ends| - 1 && ends[k] == "\r" ==> !(lines[k + 1] == [] && ends[k + 1] == "\n"))
  }

  /** The lines of `s`, each followed by the ending `splitlines` dropped,
      are `s` again; the endings are line breaks throughout. */
  lemma {:induction false} SplitLinesRebuild(s: string)
    ensures |LineEnds(s)| == |SplitLines(s)|
    ensures Interleave(SplitLines(s), LineEnds(s)) == s
    ensures WellEnded(SplitLines(s), LineEnds(s))
    decreases |s|
  {
    if s != [] {
      var i := LineEnd(s, 0);
      if i == |s| {
        assert s + [] + [] == s;
      } else {
        var n := BreakLength(s, i);
        var u := s[i + n..];
        SplitLinesRebuild(u);
        BreakIsEnding(s, i);
        RebuildCons(s, i, n, SplitLines(u), LineEnds(u));
      }
    }
  }

  /** The break `SplitLines` cuts at is a line ending, and a lone "\r" is
      not followed by "\n". */
  lemma BreakIsEnding(s: string, i: nat)
    requires i == LineEnd(s, 0) < |s|
    ensures IsLineEnding(s[i..i + BreakLength(s, i)])
    ensures s[i..i + BreakLength(s, i)] == "\r" ==>
      !(i + 1 < |s| && s[i + 1] == '\n')
  {
  }

  /** One more line and its ending in front of a rebuilt suffix. */
  lemma RebuildCons(s: string, i: nat, n: nat, lines: seq<string>, ends: seq<string>)
    requires i + n <= |s| && |lines| == |ends|
    requires Interleave(lines, ends) == s[i + n..] && WellEnded(lines, ends)
    requires IsLineEnding(s[i..i + n])
    requires s[i..i + n] == "\r" ==> !(i + 1 < |s| && s[i + 1] == '\n')
    ensures Interleave([s[..i]] + lines, [s[i..i + n]] + ends) == s
    ensures WellEnded([s[..i]] + lines, [s[i..i + n]] + ends)
  {
    InterleaveCons(s[..i], s[i..i + n], lines, ends);
    ThreeSlices(s, i, i + n);
    var u := s[i + n..];
    assert s[i..i + n] == "\r" && u != [] ==> u[0] == s[i + 1];
    WellEndedCons(s[..i], s[i..i + n], lines, ends, u);
  }

  lemma InterleaveCons(l: string, e: string, lines: seq<string>, ends: seq<string>)
    requires |lines| == |ends|
    ensures Interleave([l] + lines, [e] + ends) == l + e + Interleave(lines, ends)
  {
    assert ([l] + lines)[1..] == lines && ([e] + ends)[1..] == ends;
  }

  lemma WellEndedCons(l: string, e: string, lines: seq<string>, ends: seq<string>, u: string)
    requires |lines| == |ends| && IsLineEnding(e) && WellEnded(lines, ends)
    requires Interleave(lines, ends) == u
    requires e == "\r" ==> !(u != [] && u[0] == '\n')
    ensures WellEnded([l] + lines, [e] + ends)
  {
    var ls, es := [l] + lines, [e] + ends;
    forall k | 0 <= k < |es|
      ensures IsLineEnding(es[k]) || (k == |es| - 1 && es[k] == [] && ls[k] != [])
    {
      if k > 0 {
        assert es[k] == ends[k - 1] && ls[k] == lines[k - 1];
      }
    }
    forall k | 0 <= k < |es| - 1 && es[k] == "\r"
      ensures !(ls[k + 1] == [] && es[k + 1] == "\n")
    {
      if k > 0 {
        assert es[k] == ends[k - 1] && ls[k + 1] == lines[k] && es[k + 1] == ends[k];
      }
    }
  }

  /** The pieces of `s.split("  ")` contain no double space and no line
      break that `s` does not have. */
  lemma {:induction false} DoubleSpacePieces(s: string)
    ensures forall p :: p in Split(s, "  ") ==>
      NoDoubleSpace(p) && (NoLineBreaks(s) ==> NoLineBreaks(p))
    decreases |s|
  {
    var parts := Split(s, "  ");
    if |s| >= 2 {
      DoubleSpacePieces(s[2..]);
      DoubleSpacePieces(s[1..]);
      if s[..2] != "  " {
        var rest := Split(s[1..], "  ");
        var first := [s[0]] + rest[0];
        assert parts == [first] + rest[1..];
        assert rest[0] in rest;
        assert rest[0] == s[1..][..|rest[0]|];
        assert first == s[..|first|];
        forall k | 0 <= k < |first| - 1
          ensures !(first[k] == ' ' && first[k + 1] == ' ')
        {
          if k == 0 {
            assert first[0] == s[0] && first[1] == s[1];
            assert s[..2] == [s[0], s[1]];
          } else {
            assert first[k] == rest[0][k - 1] && first[k + 1] == rest[0][k];
          }
        }
        assert forall p :: p in rest[1..] ==> p in rest;
      }
    }
  }

  lemma {:induction false} SplitWithoutDoubleSpace(s: string)
    requires NoDoubleSpace(s)
    ensures Split(s, "  ") == [s]
    decreases |s|
  {
    if |s| >= 2 {
      assert s[..2] == [s[0], s[1]];
      NoDoubleSpaceSlice(s, 1, |s|);
      SplitWithoutDoubleSpace(s[1..]);
      assert [s[0]] + s[1..] == s;
    }
  }

  /** One piece of the cleaned text: non-empty, on one line, stripped, and
      without a double space. */
  predicate IsFragment(f: string) {
    f != [] && NoLineBreaks(f) && NoDoubleSpace(f) && IsStripped(f)
  }

  /** The form of the cleaned text: one line, no double space, no leading or
      trailing whitespace. */
  predicate IsCleanText(s: string) {
    NoLineBreaks(s) && NoDoubleSpace(s) && IsStripped(s)
  }

  /** `phrase.strip()` for each phrase, keeping the non-empty ones. */
  function PhraseFragments(phrases: seq<string>): (fs: seq<string>)
    requires forall p :: p in phrases ==> NoLineBreaks(p) && NoDoubleSpace(p)
    ensures forall f :: f in fs ==> IsFragment(f)
    ensures |fs| <= |phrases|
  {
    if phrases == [] then []
    else
      var f := Strip(phrases[0]);
      (if f != [] then [f] else []) + PhraseFragments(phrases[1..])
  }

  /** The fragments of every stripped line, in order. */
  function Fragments(lines: seq<string>): (fs: seq<string>)
    requires forall l :: l in lines ==> NoLineBreaks(l)
    ensures forall f :: f in fs ==> IsFragment(f)
  {
    if lines == [] then []
    else
      var line := Strip(lines[0]);
      DoubleSpacePieces(line);
      PhraseFragments(Split(line, "  ")) + Fragments(lines[1..])
  }

  lemma JoinAroundSpace(a: string, b: string)
    requires IsFragment(a) && IsCleanText(b) && b != []
    ensures IsCleanText(a + " " + b)
  {
    var s := a + " " + b;
    forall k | 0 <= k < |s| - 1
      ensures !(s[k] == ' ' && s[k + 1] == ' ')
    {
      if k < |a| - 1 {
        assert s[k] == a[k] && s[k + 1] == a[k + 1];
      } else if k == |a| - 1 {
        assert s[k] == a[|a| - 1];
      } else if k == |a| {
        assert s[k + 1] == b[0];
      } else {
        assert s[k] == b[k - |a| - 1] && s[k + 1] == b[k - |a|];
      }
    }
    assert s[0] == a[0] && s[|s| - 1] == b[|b| - 1];
    forall k | 0 <= k < |s| ensures !IsLineBreak(s[k]) {
      if k < |a| {
        assert s[k] == a[k];
      } else if k > |a| {
        assert s[k] == b[k - |a| - 1];
      }
    }
  }

  /** Joining fragments with one space gives clean text. */
  lemma {:induction false} JoinFragments(fs: seq<string>)
    requires forall f :: f in fs ==> IsFragment(f)
    ensures IsCleanText(Join(fs, " "))
    ensures fs != [] ==> Join(fs, " ") != []
    decreases |fs|
  {
    if |fs| == 1 {
      assert fs[0] in fs;
    } else if |fs| > 1 {
      assert fs[0] in fs;
      assert forall f :: f in fs[1..] ==> f in fs;
      JoinFragments(fs[1..]);
      JoinAroundSpace(fs[0], Join(fs[1..], " "));
    }
  }

  /** The clean-up as a whole: `' '.join(chunk for chunk in chunks if chunk)`. */
  function CleanWhitespace(text: string): (r: string)
    ensures IsCleanText(r)
  {
    var fs := Fragments(SplitLines(text));
    JoinFragments(fs);
    Join(fs, " ")
  }

  // ---------------------------------------------------------------------
  // the clean-up keeps the words

  /** Line breaks are whitespace, so the lines carry all the words. */
  lemma {:induction false} WordsOfLines(lines: seq<string>, ends: seq<string>)
    requires |lines| == |ends| && WellEnded(lines, ends)
    ensures Words(Interleave(lines, ends)) == WordsOf(lines)
    decreases |lines|
  {
    if lines != [] {
      var rest := Interleave(lines[1..], ends[1..]);
      WellEndedTail(lines, ends);
      WordsOfLines(lines[1..], ends[1..]);
      if ends[0] != [] {
        assert IsLineEnding(ends[0]);
        WordsAcrossSpace(lines[0], ends[0], rest);
      } else {
        assert lines[0] + ends[0] + rest == lines[0];
        assert WordsOf(lines) == Words(lines[0]) + [];
      }
    }
  }

  lemma WellEndedTail(lines: seq<string>, ends: seq<string>)
    requires |lines| == |ends| && lines != [] && WellEnded(lines, ends)
    ensures WellEnded(lines[1..], ends[1..])
  {
    var ls, es := lines[1..], ends[1..];
    forall k | 0 <= k < |es|
      ensures IsLineEnding(es[k]) || (k == |es| - 1 && es[k] == [] && ls[k] != [])
    {
      assert es[k] == ends[k + 1] && ls[k] == lines[k + 1];
    }
    forall k | 0 <= k < |es| - 1 && es[k] == "\r"
      ensures !(ls[k + 1] == [] && es[k + 1] == "\n")
    {
      assert es[k] == ends[k + 1] && ls[k + 1] == lines[k + 2] && es[k + 1] == ends[k + 2];
    }
  }

  /** `str.splitlines` loses no word. */
  lemma WordsOfSplitLines(s: string)
    ensures WordsOf(SplitLines(s)) == Words(s)
  {
    SplitLinesRebuild(s);
    WordsOfLines(SplitLines(s), LineEnds(s));
  }

  /** Stripping the phrases and dropping the empty ones loses no word. */
  lemma {:induction false} WordsOfPhraseFragments(phrases: seq<string>)
    requires forall p :: p in phrases ==> NoLineBreaks(p) && NoDoubleSpace(p)
    ensures WordsOf(PhraseFragments(phrases)) == WordsOf(phrases)
    decreases |phrases|
  {
    if phrases != [] {
      var p := phrases[0];
      var f := Strip(p);
      assert forall q :: q in phrases[1..] ==> q in phrases;
      WordsOfPhraseFragments(phrases[1..]);
      WordsOfStrip(p);
      WordsOfAppend(if f != [] then [f] else [], PhraseFragments(phrases[1..]));
      if f == [] {
        WordsAreTokens(p);
      } else {
        assert WordsOf([f]) == Words(f) + [];
      }
    }
  }

  /** Cutting each stripped line at its double spaces loses no word. */
  lemma {:induction false} WordsOfFragments(lines: seq<string>)
    requires forall l :: l in lines ==> NoLineBreaks(l)
    ensures WordsOf(Fragments(lines)) == WordsOf(lines)
    decreases |lines|
  {
    if lines != [] {
      var line := Strip(lines[0]);
      DoubleSpacePieces(line);
      assert forall l :: l in lines[1..] ==> l in lines;
      WordsOfFragments(lines[1..]);
      WordsOfLineFragments(lines[0]);
      WordsOfAppend(PhraseFragments(Split(line, "  ")), Fragments(lines[1..]));
    }
  }

  /** The fragments of one line carry its words. */
  lemma WordsOfLineFragments(l: string)
    requires NoLineBreaks(l)
    ensures forall p :: p in Split(Strip(l), "  ") ==> NoLineBreaks(p) && NoDoubleSpace(p)
    ensures WordsOf(PhraseFragments(Split(Strip(l), "  "))) == Words(l)
  {
    var line := Strip(l);
    var phrases := Split(line, "  ");
    DoubleSpacePieces(line);
    WordsOfPhraseFragments(phrases);
    WordsOfJoin(phrases, "  ");
    SplitJoin(line, "  ");
    WordsOfStrip(l);
  }

  /** The clean-up changes only the whitespace: `text.split()` is the same
      before and after. */
  lemma CleanWhitespaceKeepsWords(text: string)
    ensures Words(CleanWhitespace(text)) == Words(text)
  {
    var lines := SplitLines(text);
    var fs := Fragments(lines);
    WordsOfJoin(fs, " ");
    WordsOfFragments(lines);
    WordsOfSplitLines(text);
  }

  /** Clean text is left as it is. */
  lemma CleanTextIsFixedPoint(s: string)
    requires IsCleanText(s)
    ensures CleanWhitespace(s) == s
  {
    if s != [] {
      assert SplitLines(s) == [s];
      assert Strip(s) == s;
      SplitWithoutDoubleSpace(s);
      assert PhraseFragments([s]) == [s];
      assert Fragments([s]) == [s];
    }
  }

  /** Cleaning twice is cleaning once. */
  lemma CleanWhitespaceIdempotent(text: string)
    ensures CleanWhitespace(CleanWhitespace(text)) == CleanWhitespace(text)
  {
    CleanTextIsFixedPoint(CleanWhitespace(text));
  }
}
