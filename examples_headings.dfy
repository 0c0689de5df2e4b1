/** Worked headings: what `create_track` makes of the headings its
    docstring and the list pages show. Each heading is written as the
    concatenation of its parts (the text before the album group, the group
    and the pieces inside it), which is the same string. A single long
    literal would make the verifier unfold `Depth`, `Strip` and the scan
    character by character; the parts let the general lemmas do the work.
    For the same reason some helpers take a literal as a parameter fixed
    by their precondition. */
module HeadingExamples {
  import opened Wrappers
  import opened Text
  import opened Headings

  /** A group that holds one nested group: `(before (words) after)`. */
  lemma NestedGroup(before: string, words: string, after: string)
    requires '(' !in before && ')' !in before
    requires '(' !in words && ')' !in words
    requires '(' !in after && ')' !in after
    ensures IsTopLevelGroup("(" + (before + ("(" + words + ")") + after) + ")")
  {
    ClosedWithoutParentheses(words);
    ParenthesisedClosedIsGroup(words);
    GroupIsClosed("(" + words + ")");
    ClosedWithoutParentheses(before);
    ClosedWithoutParentheses(after);
    ClosedConcat(before, "(" + words + ")");
    ClosedConcat(before + ("(" + words + ")"), after);
    ParenthesisedClosedIsGroup(before + ("(" + words + ")") + after);
  }

  /** A group with no parentheses inside. */
  lemma PlainGroup(x: string)
    requires '(' !in x && ')' !in x
    ensures IsTopLevelGroup("(" + x + ")")
  {
    ClosedWithoutParentheses(x);
    ParenthesisedClosedIsGroup(x);
  }

  /** "Vermilion (Vol. 3: (The Subliminal Verses), 2004)": the album group
      holds a group of its own, and the split is at the `(` after
      "Vermilion ", index 10. */
  lemma VermilionAlbumStart()
    ensures AlbumStart("Vermilion " + ("(" + ("Vol. 3: " + ("(" + "The Subliminal Verses" + ")") + ", 2004") + ")"))
      == Success(10)
  {
    NestedGroup("Vol. 3: ", "The Subliminal Verses", ", 2004");
    AlbumStartAtGroup("Vermilion ", "(" + ("Vol. 3: " + ("(" + "The Subliminal Verses" + ")") + ", 2004") + ")");
  }

  /** The same heading parses to the title "Vermilion" and the album
      "Vol. 3: (The Subliminal Verses)": the nested group stays in the
      album, the year goes. */
  lemma VermilionHeading()
    ensures ParseHeading("Vermilion " + ("(" + ("Vol. 3: " + ("(" + "The Subliminal Verses" + ")") + ", 2004") + ")"))
      == Success(Heading("Vermilion", "Vol. 3: " + ("(" + "The Subliminal Verses" + ")")))
  {
    var album := "Vol. 3: " + ("(" + "The Subliminal Verses" + ")");
    NestedGroup("Vol. 3: ", "The Subliminal Verses", ", 2004");
    ParseAtGroup("Vermilion ", album + ", 2004");
    VermilionTitle();
    VermilionAlbum(album);
  }

  lemma VermilionTitle()
    ensures StripRank(Strip("Vermilion ")) == "Vermilion"
  {
    assert "Vermilion " == "Vermilion" + " ";
    StripTrailingSpace("Vermilion", ' ');
    assert LeadingDigits("Vermilion") == 0;
  }

  lemma VermilionAlbum(album: string)
    requires album == "Vol. 3: " + ("(" + "The Subliminal Verses" + ")")
    ensures Strip(RemoveYearSuffix(album + ", 2004" + ")")) == album
  {
    assert album + ", 2004" + ")" == album + "," + " " + "2004" + ")";
    YearSuffixRemoved(album, " ", "2004");
    StripUnchanged(album);
  }

  /** "12. Du Hast (Sehnsucht, 1997)": the rank prefix "12. " loses only
      "12.", so the title keeps the space after the dot; the album loses
      its year. */
  lemma RankedHeading()
    ensures ParseHeading("12. Du Hast " + ("(" + "Sehnsucht, 1997" + ")")) == Success(Heading(" Du Hast", "Sehnsucht"))
  {
    PlainGroup("Sehnsucht, 1997");
    ParseAtGroup("12. Du Hast ", "Sehnsucht, 1997");
    RankedTitle();
    DatedAlbum();
  }

  lemma RankedTitle()
    ensures StripRank(Strip("12. Du Hast ")) == " Du Hast"
  {
    assert "12. Du Hast " == "12. Du Hast" + " ";
    StripTrailingSpace("12. Du Hast", ' ');
    RankPrefixIsRegexMatch("12. Du Hast", 2);
    assert "12. Du Hast"[3..] == " Du Hast";
  }

  lemma DatedAlbum()
    ensures Strip(RemoveYearSuffix("Sehnsucht, 1997" + ")")) == "Sehnsucht"
  {
    assert "Sehnsucht, 1997" + ")" == "Sehnsucht" + "," + " " + "1997" + ")";
    YearSuffixRemoved("Sehnsucht", " ", "1997");
    StripUnchanged("Sehnsucht");
  }

  /** "1234. Song (Album)": a four-digit rank is not stripped, and without
      a year the album keeps its closing `)`. */
  lemma UnrankedHeadingWithoutYear()
    ensures ParseHeading("1234. Song " + ("(" + "Album" + ")")) == Success(Heading("1234. Song", "Album)"))
  {
    PlainGroup("Album");
    assert "1234. Song " == "1234. Song" + " ";
    ParseAtGroup("1234. Song ", "Album");
    FourDigitTitle("1234. Song");
    UndatedAlbum();
  }

  /** `t` is a parameter so that the literal is not unfolded. */
  lemma FourDigitTitle(t: string)
    requires t == "1234. Song"
    ensures StripRank(Strip(t + " ")) == t
  {
    StripTrailingSpace(t, ' ');
    LongRankNotStripped(t);
  }

  lemma UndatedAlbum()
    ensures Strip(RemoveYearSuffix("Album" + ")")) == "Album)"
  {
    NoCommaNoYearSuffix("Album)");
    StripUnchanged("Album)");
  }

  /** "Song (Album": the unclosed `(` raises nothing; the scan stops after
      two characters and the heading splits before its last letter. The
      heading is written as the title part "Song (Alb" and the rest "um". */
  lemma UnclosedHeading()
    ensures AlbumStart("Song (Alb" + "um") == Success(9)
    ensures ParseHeading("Song (Alb" + "um") == Success(Heading("Song (Alb", "m"))
  {
    UnclosedAlbumStart("Song (Alb" + "um");
    UnclosedParts("Song (Alb" + "um");
  }

  lemma UnclosedAlbumStart(text: string)
    requires text == "Song (Alb" + "um"
    ensures AlbumStart(text) == Success(9)
  {
    SplitBeforeLastCharacter(text);
  }

  lemma UnclosedParts(text: string)
    requires text == "Song (Alb" + "um"
    ensures TitleOf(text, 9) == "Song (Alb" && AlbumOf(text, 9) == "m"
  {
    assert text[..9] == "Song (Alb";
    StripUnchanged("Song (Alb");
    assert LeadingDigits("Song (Alb") == 0;
    assert text[10..] == "m";
    NoCommaNoYearSuffix("m");
  }

  /** "Song Album)": a closing `)` with no opening one raises. */
  lemma UnopenedHeading()
    ensures ParseHeading("Song Album" + ")") == Failure(UnbalancedParentheses)
  {
    UnopenedGroupUnbalanced("Song Album");
  }
}
