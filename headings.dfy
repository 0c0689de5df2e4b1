/** Splitting a list heading such as `12. Du Hast (Sehnsucht, 1997)` into
    a title and an album (kerrang_to_spotify.py). The album is the last
    top-level parenthesised group; it may hold parentheses of its own. */
module Headings {
  import opened Wrappers
  import opened Text
  import Tracks

  /** The `ValueError` raised for a heading whose parentheses never balance. */
  datatype ParseError = UnbalancedParentheses

  /** The title and album a heading splits into. */
  datatype Heading = Heading(title: string, album: string)

  /** What one character adds to the depth counter of the backward scan. */
  function Delta(c: char): int
  {
    if c == ')' then 1 else if c == '(' then -1 else 0
  }

  /** The number of `)` minus the number of `(` in `s`. */
  function Depth(s: string): int
  {
    if s == [] then 0 else Delta(s[0]) + Depth(s[1..])
  }

  /** The counter of the backward scan after it has read the last `r + 1`
      characters of `text`, that is after reverse offset `r`. */
  function SuffixDepth(text: string, r: nat): int
    requires r < |text|
  {
    Depth(text[|text| - 1 - r..])
  }

  /** Reverse offset `r` closes the last group: it is not the last
      character itself and the counter is back to zero there. */
  predicate ClosesGroup(text: string, r: nat)
  {
    1 <= r < |text| && SuffixDepth(text, r) == 0
  }

  /** The backward scan from reverse offset `index` on, with the counter at
      `count`: the first offset after the last character where the counter,
      updated by the character at that offset, is zero. */
  function ScanFrom(text: string, index: nat, count: int): (o: Option<nat>)
    ensures o.Some? ==> 1 <= o.value < |text|
    decreases |text| - index
  {
    if index >= |text| then None
    else if index > 0 && count + Delta(text[|text| - 1 - index]) == 0 then Some(index)
    else ScanFrom(text, index + 1, count + Delta(text[|text| - 1 - index]))
  }

  /** One backward step: the depth of `text[k..]` is that of `text[k+1..]`
      plus what `text[k]` adds. */
  lemma DepthStep(text: string, k: nat)
    requires k < |text|
    ensures Depth(text[k..]) == Delta(text[k]) + Depth(text[k + 1..])
  {
    assert text[k..][1..] == text[k + 1..];
  }

  /** While its counter is the depth of what it has read, the scan returns
      the smallest closing offset from `index` on, if there is one. */
  lemma {:induction false} ScanFindsFirstClosing(text: string, index: nat, count: int)
    requires index <= |text| && count == Depth(text[|text| - index..])
    ensures ScanFrom(text, index, count).None? ==>
      forall q :: index <= q < |text| ==> !ClosesGroup(text, q)
    ensures ScanFrom(text, index, count).Some? ==>
      (index <= ScanFrom(text, index, count).value &&
       ClosesGroup(text, ScanFrom(text, index, count).value) &&
       forall q :: index <= q < ScanFrom(text, index, count).value ==> !ClosesGroup(text, q))
    decreases |text| - index
  {
    if index < |text| {
      DepthStep(text, |text| - 1 - index);
      var next := count + Delta(text[|text| - 1 - index]);
      assert next == SuffixDepth(text, index);
      if !(index > 0 && next == 0) {
        ScanFindsFirstClosing(text, index + 1, next);
      }
    }
  }

  /** `get_start_of_album_index`: the forward index `|text| - 1 - r` of the
      offset `r` where the scan stops, or `UnbalancedParentheses` when it
      never does. It fails exactly when no offset in 1..|text|-1 brings the
      counter back to zero; on success `r` is the smallest such offset, so
      the index lies in 0..|text|-2. */
  function AlbumStart(text: string): (res: Result<nat, ParseError>)
    ensures res.Failure? <==> forall r :: 1 <= r < |text| ==> SuffixDepth(text, r) != 0
    ensures res.Success? ==>
      (res.value <= |text| - 2 &&
       ClosesGroup(text, |text| - 1 - res.value) &&
       forall q :: 1 <= q < |text| - 1 - res.value ==> !ClosesGroup(text, q))
  {
    assert text[|text| - 0..] == [];
    ScanFindsFirstClosing(text, 0, 0);
    match ScanFrom(text, 0, 0)
    case None =>
      assert forall r :: 1 <= r < |text| ==> SuffixDepth(text, r) != 0 by {
        forall r | 1 <= r < |text|
          ensures SuffixDepth(text, r) != 0
        {
          assert !ClosesGroup(text, r);
        }
      }
      Failure(UnbalancedParentheses)
    case Some(r) =>
      assert !ClosesGroup(text, 0);
      Success(|text| - 1 - r)
  }

  /** The scan of `get_start_of_album_index`: it walks `text` from the end,
      counting `)` up and `(` down, and stops at the first offset after the
      last character where the count is zero. */
  method StartOfAlbumIndex(text: string) returns (res: Result<nat, ParseError>)
    ensures res == AlbumStart(text)
  {
    var bracketsCount := 0;
    var index := 0;
    while index < |text|
      invariant 0 <= index <= |text|
      invariant ScanFrom(text, 0, 0) == ScanFrom(text, index, bracketsCount)
    {
      var c := text[|text| - 1 - index];
      if c == ')' {
        bracketsCount := bracketsCount + 1;
      } else if c == '(' {
        bracketsCount := bracketsCount - 1;
      }
      if index > 0 && bracketsCount == 0 {
        return Success(|text| - index - 1);
      }
      index := index + 1;
    }
    return Failure(UnbalancedParentheses);
  }

  /** Before the scan closes the last group of a heading that ends in `)`,
      its counter stays positive. */
  lemma {:induction false} DepthPositiveBeforeClosing(text: string, r: nat, q: nat)
    requires |text| >= 1 && text[|text| - 1] == ')'
    requires q < r < |text|
    requires forall p :: 1 <= p < r ==> !ClosesGroup(text, p)
    ensures SuffixDepth(text, q) > 0
    decreases q
  {
    if q == 0 {
      DepthStep(text, |text| - 1);
    } else {
      DepthPositiveBeforeClosing(text, r, q - 1);
      DepthStep(text, |text| - 1 - q);
      assert !ClosesGroup(text, q);
    }
  }

  /** A heading whose last two characters are not parentheses splits just
      before its last character, because the counter is already zero at
      offset 1. Such a heading raises nothing, even when it holds an
      unclosed `(`. */
  lemma SplitBeforeLastCharacter(text: string)
    requires |text| >= 2 && Delta(text[|text| - 1]) == 0 && Delta(text[|text| - 2]) == 0
    ensures AlbumStart(text) == Success(|text| - 2)
  {
    DepthStep(text, |text| - 2);
    DepthStep(text, |text| - 1);
    assert text[|text|..] == [];
    assert ClosesGroup(text, 1);
  }

  /** A heading that ends in `)` with no other parenthesis never brings
      the counter back to zero, so it raises. */
  lemma UnopenedGroupUnbalanced(p: string)
    requires '(' !in p && ')' !in p
    ensures AlbumStart(p + ")") == Failure(UnbalancedParentheses)
  {
    var text := p + ")";
    forall r | 1 <= r < |text|
      ensures SuffixDepth(text, r) == 1
    {
      var k := |text| - 1 - r;
      assert text[k..] == p[k..] + ")";
      assert forall c :: c in p[k..] ==> c in p;
      DepthWithoutParentheses(p[k..]);
      DepthAppend(p[k..], ")");
      assert ")"[1..] == [];
    }
  }

  /** A heading that ends in `(` with no other parenthesis keeps the
      counter at -1 from its first step on, so it raises. */
  lemma UnclosedGroupUnbalanced(p: string)
    requires '(' !in p && ')' !in p
    ensures AlbumStart(p + "(") == Failure(UnbalancedParentheses)
  {
    var text := p + "(";
    forall r | 1 <= r < |text|
      ensures SuffixDepth(text, r) == -1
    {
      var k := |text| - 1 - r;
      assert text[k..] == p[k..] + "(";
      assert forall c :: c in p[k..] ==> c in p;
      DepthWithoutParentheses(p[k..]);
      DepthAppend(p[k..], "(");
      assert "("[1..] == [];
    }
  }

  /** Headings of fewer than two characters never balance. */
  lemma ShortTextUnbalanced(text: string)
    requires |text| <= 1
    ensures AlbumStart(text) == Failure(UnbalancedParentheses)
  {
  }

  lemma {:induction false} DepthAppend(a: string, b: string)
    ensures Depth(a + b) == Depth(a) + Depth(b)
    decreases |a|
  {
    if a == [] {
      assert a + b == b;
    } else {
      assert (a + b)[1..] == a[1..] + b;
      DepthAppend(a[1..], b);
    }
  }

  /** Characters other than parentheses leave the depth as it is. */
  lemma DepthIgnoresOtherCharacters(a: string, c: char, b: string)
    requires c != '(' && c != ')'
    ensures Depth(a + [c] + b) == Depth(a + b)
  {
    DepthAppend(a + [c], b);
    DepthAppend(a, [c]);
    DepthAppend(a, b);
    assert [c][1..] == [];
  }

  lemma {:induction false} DepthWithoutParentheses(s: string)
    requires '(' !in s && ')' !in s
    ensures Depth(s) == 0
    decreases |s|
  {
    if s != [] {
      assert s[0] in s;
      assert forall c :: c in s[1..] ==> c in s;
      DepthWithoutParentheses(s[1..]);
    }
  }

  /** `g` is a complete top-level parenthesised group: it opens with `(`,
      balances, and every shorter non-empty suffix of it has more `)` than
      `(`. */
  predicate IsTopLevelGroup(g: string)
  {
    |g| >= 2 && g[0] == '(' && Depth(g) == 0 &&
    forall k :: 0 < k < |g| ==> Depth(g[k..]) > 0
  }

  /** For a heading that ends in `)`, a successful scan finds the `(` that
      opens the last top-level group. */
  lemma LastTopLevelGroup(text: string)
    requires |text| >= 1 && text[|text| - 1] == ')'
    requires AlbumStart(text).Success?
    ensures IsTopLevelGroup(text[AlbumStart(text).value..])
  {
    var f := AlbumStart(text).value;
    var r := |text| - 1 - f;
    var g := text[f..];
    forall k | 0 < k < |g|
      ensures Depth(g[k..]) > 0
    {
      assert g[k..] == text[f + k..];
      DepthPositiveBeforeClosing(text, r, |text| - 1 - (f + k));
    }
    DepthPositiveBeforeClosing(text, r, r - 1);
    DepthStep(text, f);
  }

  /** Conversely, a heading that ends in a top-level group splits where
      that group opens, whatever comes before it. */
  lemma AlbumStartAtGroup(p: string, g: string)
    requires IsTopLevelGroup(g)
    ensures AlbumStart(p + g) == Success(|p|)
  {
    var text := p + g;
    var last := |g| - 1;
    SuffixInGroup(p, g, last);
    assert g[0..] == g;
    assert ClosesGroup(text, last);
    forall q | 1 <= q < last
      ensures !ClosesGroup(text, q)
    {
      SuffixInGroup(p, g, q);
    }
  }

  /** The last `r + 1` characters of `p + g` lie inside `g`. */
  lemma SuffixInGroup(p: string, g: string, r: nat)
    requires r < |g|
    ensures SuffixDepth(p + g, r) == Depth(g[|g| - 1 - r..])
  {
    assert (p + g)[|p + g| - 1 - r..] == g[|g| - 1 - r..];
  }

  /** `s` ends the scan where it started: it balances, and no suffix of it
      has more `(` than `)`. */
  predicate Closed(s: string)
  {
    Depth(s) == 0 && forall k :: 0 <= k <= |s| ==> Depth(s[k..]) >= 0
  }

  lemma ClosedWithoutParentheses(s: string)
    requires '(' !in s && ')' !in s
    ensures Closed(s)
  {
    forall k | 0 <= k <= |s|
      ensures Depth(s[k..]) == 0
    {
      assert forall c :: c in s[k..] ==> c in s;
      DepthWithoutParentheses(s[k..]);
    }
    assert s[0..] == s;
  }

  lemma ClosedConcat(a: string, b: string)
    requires Closed(a) && Closed(b)
    ensures Closed(a + b)
  {
    DepthAppend(a, b);
    forall k | 0 <= k <= |a + b|
      ensures Depth((a + b)[k..]) >= 0
    {
      if k <= |a| {
        assert (a + b)[k..] == a[k..] + b;
        DepthAppend(a[k..], b);
      } else {
        assert (a + b)[k..] == b[k - |a|..];
      }
    }
  }

  lemma GroupIsClosed(g: string)
    requires IsTopLevelGroup(g)
    ensures Closed(g)
  {
    assert g[0..] == g;
    assert Depth(g[|g|..]) == 0 by { assert g[|g|..] == []; }
  }

  /** A closed text in parentheses is a top-level group. */
  lemma ParenthesisedClosedIsGroup(x: string)
    requires Closed(x)
    ensures IsTopLevelGroup("(" + x + ")")
  {
    var g := "(" + x + ")";
    DepthAppend("(" + x, ")");
    DepthAppend("(", x);
    ParenthesisDepths();
    forall k | 0 < k < |g|
      ensures Depth(g[k..]) > 0
    {
      ParenthesisedSuffix(x, k);
    }
  }

  lemma ParenthesisDepths()
    ensures Depth(")") == 1 && Depth("(") == -1
  {
    assert ")"[1..] == [] && "("[1..] == [];
  }

  /** A proper suffix of `(x)` is a suffix of the closed `x` followed by
      `)`, so its depth is positive. */
  lemma ParenthesisedSuffix(x: string, k: nat)
    requires Closed(x) && 0 < k < |x| + 2
    ensures Depth(("(" + x + ")")[k..]) > 0
  {
    assert ("(" + x + ")")[k..] == x[k - 1..] + ")";
    DepthAppend(x[k - 1..], ")");
    ParenthesisDepths();
    assert Depth(x[k - 1..]) >= 0;
  }

  /** The number of leading ASCII digits of `s`. */
  function LeadingDigits(s: string): (n: nat)
    ensures n <= |s|
    ensures forall i :: 0 <= i < n ==> IsDigit(s[i])
    ensures n < |s| ==> !IsDigit(s[n])
  {
    if s == [] || !IsDigit(s[0]) then 0 else 1 + LeadingDigits(s[1..])
  }

  /** `^\d{1,3}\.\s` matches `t` with `m` digits. */
  predicate RankPatternAt(t: string, m: nat)
  {
    1 <= m <= 3 && m + 1 < |t| && (forall i :: 0 <= i < m ==> IsDigit(t[i])) &&
    t[m] == '.' && IsSpace(t[m + 1])
  }

  /** The length of the rank prefix `^\d{1,3}\.\s` at the start of `t`:
      the digits are exactly the leading digits of `t`. */
  function RankPrefixLength(t: string): (n: Option<nat>)
    ensures n.Some? ==> n.value >= 3 && RankPatternAt(t, n.value - 2)
  {
    var k := LeadingDigits(t);
    if 1 <= k <= 3 && k + 1 < |t| && t[k] == '.' && IsSpace(t[k + 1]) then Some(k + 2) else None
  }

  /** The regular expression matches with `m` digits exactly when the rank
      prefix has length `m + 2`: no backtracking choice of fewer digits can
      succeed, because a digit is never a dot. */
  lemma RankPrefixIsRegexMatch(t: string, m: nat)
    ensures RankPrefixLength(t) == Some(m + 2) <==> RankPatternAt(t, m)
  {
    if RankPatternAt(t, m) {
      assert LeadingDigits(t) == m;
    }
  }

  /** A rank of four or more digits is not a rank prefix. */
  lemma LongRankNotStripped(t: string)
    requires |t| >= 4 && IsDigit(t[0]) && IsDigit(t[1]) && IsDigit(t[2]) && IsDigit(t[3])
    ensures RankPrefixLength(t).None?
  {
    assert LeadingDigits(t) >= 4 by {
      assert LeadingDigits(t[1..]) >= 3 by {
        assert LeadingDigits(t[2..]) >= 2 by {
          assert t[2..][1..] == t[3..];
        }
      }
    }
  }

  /** The rank strip of `create_track`: when the rank prefix of length `n`
      matches, only `n - 1` characters are dropped, so the title keeps the
      whitespace character that followed the dot. */
  function StripRank(t: string): (title: string)
    ensures RankPrefixLength(t).None? ==> title == t
    ensures RankPrefixLength(t).Some? ==>
      |title| == |t| - RankPrefixLength(t).value + 1 &&
      title[0] == t[RankPrefixLength(t).value - 1] && IsSpace(title[0]) &&
      title[1..] == t[RankPrefixLength(t).value..]
  {
    match RankPrefixLength(t)
    case None => t
    case Some(n) => t[n - 1..]
  }

  /** Where `\)$` must end: at the end of `s`, or just before a final
      newline. */
  function MatchEnd(s: string): (e: nat)
    ensures e <= |s|
  {
    if |s| > 0 && s[|s| - 1] == '\n' then |s| - 1 else |s|
  }

  /** `,.*\d{4}\)$` matches `s` from index `i` to `MatchEnd(s)`: a comma,
      then characters other than a newline, then four digits and `)`. */
  predicate YearSuffixAt(s: string, i: nat)
  {
    var e := MatchEnd(s);
    i + 6 <= e && s[i] == ',' &&
    (forall k :: i < k < e - 5 ==> s[k] != '\n') &&
    (forall k :: e - 5 <= k < e - 1 ==> IsDigit(s[k])) &&
    s[e - 1] == ')'
  }

  /** The leftmost index from `i` on where the year suffix matches. */
  function FirstYearSuffix(s: string, i: nat): (o: Option<nat>)
    ensures o.None? ==> forall j :: i <= j ==> !YearSuffixAt(s, j)
    ensures o.Some? ==>
      (i <= o.value && YearSuffixAt(s, o.value) &&
       forall j :: i <= j < o.value ==> !YearSuffixAt(s, j))
    decreases |s| - i
  {
    if i + 6 > MatchEnd(s) then None
    else if YearSuffixAt(s, i) then Some(i)
    else FirstYearSuffix(s, i + 1)
  }

  /** `re.sub(r',.*\d{4}\)$', '', s)`: the leftmost match, if any, removed;
      there can be no second match after it. */
  function RemoveYearSuffix(s: string): (r: string)
    ensures FirstYearSuffix(s, 0).None? ==> r == s
    ensures FirstYearSuffix(s, 0).Some? ==>
      r == s[..FirstYearSuffix(s, 0).value] + s[MatchEnd(s)..] && |r| <= |s| - 6
  {
    match FirstYearSuffix(s, 0)
    case None => s
    case Some(i) => s[..i] + s[MatchEnd(s)..]
  }

  /** Without a comma there is nothing for the year pattern to match. */
  lemma NoCommaNoYearSuffix(s: string)
    requires ',' !in s
    ensures RemoveYearSuffix(s) == s
  {
  }

  /** A year suffix after the only comma is removed, and nothing else is. */
  lemma YearSuffixRemoved(a: string, b: string, year: string)
    requires ',' !in a && '\n' !in b
    requires |year| == 4 && IsDigit(year[0]) && IsDigit(year[1]) && IsDigit(year[2]) && IsDigit(year[3])
    ensures RemoveYearSuffix(a + "," + b + year + ")") == a
  {
    var s := a + "," + b + year + ")";
    assert MatchEnd(s) == |s|;
    assert forall k :: |a| < k < |s| - 5 ==> s[k] == b[k - |a| - 1];
    assert forall k :: |s| - 5 <= k < |s| - 1 ==> s[k] == year[k - (|s| - 5)];
    assert YearSuffixAt(s, |a|);
    assert s[..|a|] == a;
  }

  /** The title of `create_track`: the text before the album's `(`,
      stripped, with its rank prefix removed. */
  function TitleOf(text: string, f: nat): string
    requires f <= |text|
  {
    StripRank(Strip(text[..f]))
  }

  /** The album of `create_track`: the text after the album's `(`, with the
      year suffix removed, stripped. */
  function AlbumOf(text: string, f: nat): string
    requires f < |text|
  {
    Strip(RemoveYearSuffix(text[f + 1..]))
  }

  /** `create_track` on a heading: it fails exactly when the album start
      cannot be found, and otherwise splits at that start. */
  function ParseHeading(text: string): (h: Result<Heading, ParseError>)
    ensures h.Failure? <==> AlbumStart(text).Failure?
    ensures h.Failure? ==> h.error == UnbalancedParentheses
    ensures h.Success? ==> h.value.title == TitleOf(text, AlbumStart(text).value)
    ensures h.Success? ==> h.value.album == AlbumOf(text, AlbumStart(text).value)
  {
    match AlbumStart(text)
    case Failure(e) => Failure(e)
    case Success(f) => Success(Heading(TitleOf(text, f), AlbumOf(text, f)))
  }

  /** A heading made of a text `p` and a final top-level group `(x)`
      parses to the title made from `p` and the album made from `x)`. */
  lemma ParseAtGroup(p: string, x: string)
    requires IsTopLevelGroup("(" + x + ")")
    ensures ParseHeading(p + ("(" + x + ")")) ==
      Success(Heading(StripRank(Strip(p)), Strip(RemoveYearSuffix(x + ")"))))
  {
    var text := p + ("(" + x + ")");
    AlbumStartAtGroup(p, "(" + x + ")");
    assert text[..|p|] == p;
    assert text[|p| + 1..] == x + ")";
  }

  /** Without a year suffix the album keeps the closing `)` of a heading
      that ends in one. */
  lemma AlbumKeepsParenWithoutYear(text: string)
    requires |text| >= 1 && text[|text| - 1] == ')'
    requires AlbumStart(text).Success?
    requires FirstYearSuffix(text[AlbumStart(text).value + 1..], 0).None?
    ensures var album := AlbumOf(text, AlbumStart(text).value);
      album != [] && album[|album| - 1] == ')'
  {
    var s := text[AlbumStart(text).value + 1..];
    assert s[|s| - 1] == ')';
    StripKeepsLast(s);
  }

  /** `create_track`: splits the heading and builds an unresolved track
      with the given artist and the default threshold; the parse error
      propagates. */
  method CreateTrack(text: string, artist: Option<string> := None) returns (res: Result<Tracks.Track, ParseError>)
    ensures res.Failure? <==> ParseHeading(text).Failure?
    ensures res.Failure? ==> res.error == UnbalancedParentheses
    ensures res.Success? ==>
      fresh(res.value) &&
      res.value.title == ParseHeading(text).value.title &&
      res.value.album == Some(ParseHeading(text).value.album) &&
      res.value.artist == artist &&
      res.value.fuzzyThreshold == Tracks.DefaultFuzzyThreshold &&
      res.value.spotifyId == None
  {
    var start := StartOfAlbumIndex(text);
    if start.Failure? {
      return Failure(start.error);
    }
    var f := start.value;
    var track := new Tracks.Track(TitleOf(text, f), artist, Some(AlbumOf(text, f)));
    return Success(track);
  }
}
