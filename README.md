# Kerrang list headings to Spotify tracks

The program reads a "greatest songs" list article and turns each list
heading into a track, e.g. `12. Du Hast (Sehnsucht, 1997)`. It then
resolves each track to a Spotify catalogue id by fuzzy matching against
search results. This project models the two pieces of logic behind that.

- **The heading splitter** (`Headings`).
  - `get_start_of_album_index` scans the heading backwards with a signed
    parenthesis counter. For a heading that ends in `)`, it finds the `(`
    that opens the last top-level group, so album names that contain
    parentheses still split correctly.
  - `create_track` slices the title and the album at that index. It drops
    a one-to-three digit rank prefix from the title and a `, … YYYY)`
    year suffix from the album.
  - The scan is an imperative method (`StartOfAlbumIndex`), proved equal
    to the specification function `AlbumStart`. Lemmas then characterise
    that function: when it raises, the last top-level group, and which
    characters do not affect the depth counter.
  - The two regular expressions are explicit string predicates.
  - `HeadingExamples` works through concrete headings.
- **The track and its resolver** (`Tracks`).
  - `Track` is a class with the source's five fields.
  - `get_fuzzy_match_score` is a method with the best-artist loop. It is
    proved equal to the function `MatchScore`, the mean of the truthy
    ratios.
  - `set_spotify_id` is a method with the candidate loop. It is proved
    against `Resolution`, first-above-threshold over the ordered items.
    Lemmas cover:
    - the choice of the first accepted item;
    - when `NotFound` is raised;
    - when a scoring error escapes;
    - the threshold test as an integer comparison;
    - the effect of absent, empty and zero-ratio fields.
  - `uri` and `__str__` are functions.
- `Text` holds the string primitives the source relies on:
  - Python's whitespace set;
  - `str.strip()`;
  - ASCII `str.lower()`;
  - `\d` digits.
- `Wrappers` holds `Option`, `Result` and `Outcome`.

Modelling choices:

- `fuzz.ratio` is a parameter of type `(string, string) -> Ratio`, where a
  ratio lies in 0..100. The model always applies it to lower-cased
  arguments, as the source does.
- The Spotify search result is an input value, `SearchResult`:
  - `tracks` is `None` when the result's `tracks` entry is falsy;
  - otherwise `tracks` holds the ordered items.
- Errors are values:
  - the `ValueError` of the splitter is `ParseError.UnbalancedParentheses`;
  - `NotFound` is `ResolveError.NotFound`;
  - the error `statistics.mean` raises when no ratio survives is
    `ResolveError.NoRatios`. It propagates out of `set_spotify_id`
    unchanged, as in the source.
- The mean is a `real`. `ReachesThresholdIff` shows that the threshold
  test is the integer comparison `sum >= threshold * count`.
- Regular expression semantics as modelled:
  - `.` does not match a newline;
  - `$` matches at the end or just before a final newline;
  - `\s` is the set `str.isspace()` accepts;
  - `re.sub` removes the leftmost match of the year pattern, and no second
    match can follow it.

Where the code's behaviour departs from what the docstring of
`get_start_of_album_index` (kerrang_to_spotify.py:14-25) describes, or
from what its comments suggest, the model follows the code:

- **A heading with an unclosed `(` is not always rejected.** The scan stops at
  the first offset after the last character where its counter is zero.
  When the last two characters are not parentheses, that happens
  immediately (`SplitBeforeLastCharacter`). So `Song (Album` raises
  nothing: it splits into the title `Song (Alb` and the album `m`
  (`HeadingExamples.UnclosedHeading`). `Song (` does raise, because the
  counter is negative from its first step on (`UnclosedGroupUnbalanced`). A heading that ends in `)` and has
  no other parenthesis, such as `Song Album)`, raises too
  (`UnopenedGroupUnbalanced`). A stray `)` elsewhere does not always raise:
  `Song) Album` splits before its last character, like `Song (Album`
  (`SplitBeforeLastCharacter`).
- **The rank strip keeps a space.** It drops only `len(prefix) - 1`
  characters, so the title of `12. Du Hast (…)` is ` Du Hast`, with the
  leading space (`StripRank`, `HeadingExamples.RankedHeading`).
- **Without a year suffix the album keeps its `)`.** `1234. Song (Album)`
  gives the album `Album)` (`AlbumKeepsParenWithoutYear`).

## Model

| member | source | states |
|---|---|---|
| Headings.StartOfAlbumIndex | kerrang_to_spotify.py:28-45 | The backward scan, with its counter, early exit and error, returns exactly `AlbumStart(text)` |
| Headings.AlbumStart | kerrang_to_spotify.py:28-45 | Raises exactly when no reverse offset `r` in 1..len-1 brings the depth of the last `r+1` characters to zero. Otherwise returns `len-1-r` for the smallest such `r`, so the index lies in 0..len-2 and the last character is never chosen |
| Headings.ScanFrom | kerrang_to_spotify.py:31-39 | The backward loop as recursion: a stop is always at a reverse offset in 1..len-1, never at the last character |
| Headings.ScanFindsFirstClosing | kerrang_to_spotify.py:31-39 | While its counter equals the depth of what has been read, the loop stops at the smallest closing offset, or finds none |
| Headings.UnclosedGroupUnbalanced | kerrang_to_spotify.py:31-42 | Text without parentheses followed by `(` raises: the counter never returns to zero |
| Headings.ShortTextUnbalanced | kerrang_to_spotify.py:31-42 | Headings of length 0 or 1 always raise |
| Headings.SplitBeforeLastCharacter | kerrang_to_spotify.py:31-45 | When the last two characters are not parentheses, the scan stops at offset 1 and the result is `len-2`, even with an unclosed `(` |
| Headings.UnopenedGroupUnbalanced | kerrang_to_spotify.py:31-42 | Text without parentheses followed by `)` raises |
| Headings.LastTopLevelGroup | kerrang_to_spotify.py:31-45 | For a heading ending in `)` whose scan succeeds, `text[f:]` starts with `(`, balances, and every proper non-empty suffix has positive depth: it is the last top-level group |
| Headings.AlbumStartAtGroup | kerrang_to_spotify.py:31-45 | Conversely, any prefix followed by a top-level group splits exactly where that group opens |
| Headings.DepthIgnoresOtherCharacters | kerrang_to_spotify.py:32-35 | Inserting a character other than `(` or `)` does not change the depth |
| Headings.RankPrefixLength | kerrang_to_spotify.py:54 | A found rank prefix is 1-3 digits, a dot and a whitespace character |
| Headings.RankPrefixIsRegexMatch | kerrang_to_spotify.py:54 | `^\d{1,3}\.\s` matches with `m` digits if and only if the prefix length is `m+2` |
| Headings.LongRankNotStripped | kerrang_to_spotify.py:54-55 | A title starting with four digits has no rank prefix |
| Headings.StripRank | kerrang_to_spotify.py:53-57 | With no match the title is unchanged. With a match of length `n`, exactly `n-1` characters are dropped: the title starts with the match's last character `t[n-1]`, a whitespace character, followed by the text after the match |
| Headings.FirstYearSuffix | kerrang_to_spotify.py:61 | Finds the leftmost index where `,.*\d{4}\)$` matches, or shows that none exists |
| Headings.RemoveYearSuffix | kerrang_to_spotify.py:61 | `re.sub` with that pattern: unchanged without a match. Otherwise the text before the leftmost match plus what follows the match end, at least six characters shorter |
| Headings.NoCommaNoYearSuffix | kerrang_to_spotify.py:61 | Without a comma the album text is not changed |
| Headings.YearSuffixRemoved | kerrang_to_spotify.py:61 | `a, …YYYY)` with no comma in `a` loses everything from the comma on |
| Headings.AlbumKeepsParenWithoutYear | kerrang_to_spotify.py:61 | Without a year suffix, the album of a heading ending in `)` still ends in `)` |
| Headings.ParseHeading | kerrang_to_spotify.py:49-61 | Fails exactly when the album start is not found, with the splitter's error. Otherwise, for the index `f` the scan returns, the title is the stripped, rank-stripped text before index `f`, and the album is the stripped, year-stripped text after index `f`. The character at `f` is dropped, whether or not it is a `(` |
| Headings.ParseAtGroup | kerrang_to_spotify.py:49-61 | A heading `p(x)` whose `(x)` is a top-level group parses to the title made from `p` and the album made from `x)` |
| Headings.CreateTrack | kerrang_to_spotify.py:48-62 | The parse error propagates. On success it returns a fresh track with the parsed title and album, the given artist unchanged, threshold 90 and no id |
| HeadingExamples.VermilionAlbumStart | kerrang_to_spotify.py:20-45 | `Vermilion (Vol. 3: (The Subliminal Verses), 2004)` splits at index 10 |
| HeadingExamples.VermilionHeading | kerrang_to_spotify.py:48-61 | That heading gives the title `Vermilion` and the album `Vol. 3: (The Subliminal Verses)` |
| HeadingExamples.RankedHeading | kerrang_to_spotify.py:48-61 | `12. Du Hast (Sehnsucht, 1997)` gives the title ` Du Hast` and the album `Sehnsucht` |
| HeadingExamples.UnrankedHeadingWithoutYear | kerrang_to_spotify.py:48-61 | `1234. Song (Album)` keeps its four-digit rank, and its album is `Album)` |
| HeadingExamples.UnclosedHeading | kerrang_to_spotify.py:28-61 | `Song (Album` does not raise: the index is 9, the title `Song (Alb`, the album `m` |
| HeadingExamples.UnopenedHeading | kerrang_to_spotify.py:28-49 | `Song Album)` raises the splitter's error |
| Text.Lower | track.py:39-47 | `str.lower()` on ASCII letters: same length, each character lowered on its own |
| Text.Strip | kerrang_to_spotify.py:51 | `str.strip()`: the result is a slice of the input with whitespace on both sides of it and no whitespace at its own ends |
| Tracks.Track.constructor | track.py:13-19 | Stores title, artist, album and threshold as given (threshold 90 and artist and album `None` by default) and sets no id |
| Tracks.BestArtistRatio | track.py:43-49 | The artist loop's result is absent exactly when there are no candidate artists. Otherwise it is the maximum ratio over all of them, even though the loop replaces a current value of 0 |
| Tracks.ScoreRatios | track.py:39-51 | The ratios `if ratio` keeps: at most three (name, album, artist), each above 0 |
| Tracks.Mean | track.py:51 | `statistics.mean`: fails with its error exactly when given no values |
| Tracks.MatchScore | track.py:34-51 | When the score exists it lies in (0, 100]. Its only error is the mean's error on no values |
| Tracks.Track.FuzzyMatchScore | track.py:34-51 | The method with the artist loop computes exactly `MatchScore` of the track's fields |
| Tracks.MatchScoreFailsIff | track.py:39-51 | Scoring fails exactly when the name ratio is 0, the album ratio is 0 or not computed, and every artist ratio is 0 or none is computed |
| Tracks.ReachesThresholdIff | track.py:68 | `mean >= threshold` holds if and only if `sum >= threshold * count` |
| Tracks.NameOnlyScore | track.py:39-51 | With no truthy album or artist, the score is the name ratio itself |
| Tracks.ZeroAlbumRatioLikeAbsent | track.py:40-51 | An album ratio of 0 gives the same score as no album |
| Tracks.ZeroArtistRatiosLikeAbsent | track.py:43-51 | Artist ratios that are all 0 give the same score as no artist |
| Tracks.SingleRatioScore | track.py:51 | When exactly one ratio survives, the score is that ratio |
| Tracks.EmptyAlbumLikeAbsent | track.py:40 | An empty album gives the same score as no album |
| Tracks.ScoreIgnoresCase | track.py:39-47 | Fields that differ only in letter case score alike |
| Tracks.FirstMatch | track.py:66-72 | The candidate loop: `NotFound` on no items; a chosen id is the id of an item whose score reaches the threshold |
| Tracks.Resolution | track.py:58-72 | No tracks, or no items, gives `NotFound`. A resolved id is the id of one of the items |
| Tracks.FirstAcceptedIsChosen | track.py:66-70 | The first item whose score reaches the threshold is chosen, whatever later items would score |
| Tracks.FirstMatchSucceeds | track.py:66-70 | A chosen id belongs to an accepted item whose predecessors all scored below the threshold |
| Tracks.NotFoundIffAllRejected | track.py:66-72 | `NotFound` from the loop happens if and only if every item has a score below the threshold |
| Tracks.NoRatiosIffUnscoredReached | track.py:66-68 | The scoring error escapes if and only if an unscorable item is reached before any item is accepted |
| Tracks.Track.SetSpotifyId | track.py:58-72 | On success, stores the chosen id and its `uri` is `spotify:track:<id>`. On failure, returns the error and leaves the id unchanged. Nothing else on the track changes |
| Tracks.ShownOr | track.py:22-24 | A truthy field is shown as itself; a falsy one as its placeholder |
| Tracks.Describe | track.py:21-25 | The rendering is title, artist, album and id joined by ` - `, each optional field shown as itself when truthy and as its `Unknown …` placeholder otherwise. So it starts with `title - ` and ends with ` - <id>` or ` - Unknown spotify id` |
| Tracks.DescribeEmptyLikeAbsent | track.py:22-24 | An empty artist, album or id renders exactly as an absent one |
| Tracks.Track.ToString | track.py:21-25 | `__str__` of the track: its title, artist, album and id rendered as `Describe` states |
| Tracks.UriOf | track.py:30-32 | `spotify:track:` followed by the id, or by `None` while unresolved |
| Tracks.Track.Uri | track.py:30-32 | `spotify:track:` followed by the track's id, or by `None` while it is unresolved |

## Left out

- Fetching the page (`get_html`), the HTML queries (`get_tracks`, `get_artist`) and the command-line entry point: network I/O and DOM glue around the core.
- Building the `spotipy` client and the `spotify.search` call, including its query text: the search result is an input instead.
- The internals of `fuzz.ratio`: a library Levenshtein ratio, taken as a function parameter with results in 0..100.
- A search result without a `tracks` key, or a truthy `tracks` entry without an `items` key, raises `KeyError` in the source. The model's search result always has both.
- `__repr__`: it only returns `__str__`.
- Text.LowerChar: lowers ASCII letters only. Python's `str.lower()` also lowers other Unicode letters.
- Text.IsDigit: accepts ASCII digits only. Python's `\d` on a `str` also matches other Unicode decimal digits.
- Tracks.Mean: a `real` mean, not a floating-point one; rounding of `statistics.mean` is not modelled.
