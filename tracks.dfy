/** A track parsed from a list heading, and its resolution against the
    ranked items of a catalogue search by fuzzy matching (track.py). */
module Tracks {
  import opened Wrappers
  import opened Text

  /** A similarity percentage, as `fuzz.ratio` returns it. */
  type Ratio = x: int | 0 <= x <= 100

  /** `fuzz.ratio`, supplied by the caller: any total similarity measure
      with results in 0..100. */
  type RatioFunction = (string, string) -> Ratio

  /** The threshold a track gets when none is given. */
  const DefaultFuzzyThreshold: int := 90

  /** One search result item: its catalogue id, its name, the name of its
      album and the names of its artists, in the order the search gives. */
  datatype Item = Item(id: string, name: string, albumName: string, artists: seq<string>)

  /** A search result. `tracks` is `None` when the result's `tracks` entry
      is falsy (`None` or empty); otherwise it holds the ordered `items`. */
  datatype SearchResult = SearchResult(tracks: Option<seq<Item>>)

  /** `NotFound` is the source's own exception; `NoRatios` is the error
      `statistics.mean` raises when it is given no values. */
  datatype ResolveError = NotFound | NoRatios

  /** The fields of a track that scoring reads. */
  datatype TrackInfo = TrackInfo(title: string, artist: Option<string>, album: Option<string>, fuzzyThreshold: int)

  /** Python truthiness of an optional string: present and non-empty. */
  predicate Truthy(o: Option<string>)
  {
    o.Some? && o.value != ""
  }

  /** `fuzz.ratio(a.lower(), b.lower())`. */
  function RatioOf(ratio: RatioFunction, a: string, b: string): Ratio
  {
    ratio(Lower(a), Lower(b))
  }

  /** The artist ratio the scoring loop ends with: absent for an empty list
      of candidate artists, otherwise the best ratio over all of them. The
      body follows the loop's update rule, which also replaces a current
      value of 0 (`not artist_ratio`); the contract shows that this is the
      maximum all the same. */
  function BestArtistRatio(artists: seq<string>, artist: string, ratio: RatioFunction): (best: Option<Ratio>)
    ensures best.None? <==> artists == []
    ensures best.Some? ==> forall i :: 0 <= i < |artists| ==> RatioOf(ratio, artists[i], artist) <= best.value
    ensures best.Some? ==> exists i :: 0 <= i < |artists| && RatioOf(ratio, artists[i], artist) == best.value
    decreases |artists|
  {
    if artists == [] then None
    else
      var last := |artists| - 1;
      var x := RatioOf(ratio, artists[last], artist);
      var earlier := artists[..last];
      assert forall i :: 0 <= i < last ==> artists[i] == earlier[i];
      match BestArtistRatio(earlier, artist, ratio)
      case None => Some(x)
      case Some(m) => if m == 0 || x > m then Some(x) else Some(m)
  }

  /** The ratio kept by `if ratio` in the mean: present and non-zero. */
  function Kept(o: Option<Ratio>): (kept: seq<Ratio>)
  {
    if o.Some? && o.value != 0 then [o.value] else []
  }

  /** The name ratio, the album ratio when the track's album is truthy, and
      the artist ratio when the track's artist is truthy, each kept only
      when it is truthy itself. */
  function ScoreRatios(t: TrackInfo, item: Item, ratio: RatioFunction): (kept: seq<Ratio>)
    ensures |kept| <= 3
    ensures forall i :: 0 <= i < |kept| ==> kept[i] > 0
  {
    var nameRatio := RatioOf(ratio, item.name, t.title);
    var albumRatio := if Truthy(t.album) then Some(RatioOf(ratio, item.albumName, t.album.value)) else None;
    var artistRatio := if Truthy(t.artist) then BestArtistRatio(item.artists, t.artist.value, ratio) else None;
    Kept(Some(nameRatio)) + Kept(albumRatio) + Kept(artistRatio)
  }

  function Sum(xs: seq<Ratio>): int
  {
    if xs == [] then 0 else xs[0] + Sum(xs[1..])
  }

  /** `statistics.mean`: the arithmetic mean, or an error on no values. */
  function Mean(xs: seq<Ratio>): (m: Result<real, ResolveError>)
    ensures m.Failure? <==> xs == []
    ensures m.Failure? ==> m.error == NoRatios
  {
    if xs == [] then Failure(NoRatios) else Success(Sum(xs) as real / |xs| as real)
  }

  /** `get_fuzzy_match_score`: the mean of the surviving ratios; when it
      exists it is a percentage above zero. */
  function MatchScore(t: TrackInfo, item: Item, ratio: RatioFunction): (score: Result<real, ResolveError>)
    ensures score.Failure? ==> score.error == NoRatios
    ensures score.Success? ==> 0.0 < score.value <= 100.0
  {
    var xs := ScoreRatios(t, item, ratio);
    SumBounds(xs);
    if xs != [] then MeanBounds(xs); Mean(xs) else Mean(xs)
  }

  /** Scoring fails exactly when no ratio survives: the name ratio is 0,
      the album ratio is 0 or not computed, and every artist ratio is 0 or
      none is computed. */
  lemma MatchScoreFailsIff(t: TrackInfo, item: Item, ratio: RatioFunction)
    ensures MatchScore(t, item, ratio).Failure? <==>
      RatioOf(ratio, item.name, t.title) == 0 &&
      (Truthy(t.album) ==> RatioOf(ratio, item.albumName, t.album.value) == 0) &&
      (Truthy(t.artist) ==> forall i :: 0 <= i < |item.artists| ==> RatioOf(ratio, item.artists[i], t.artist.value) == 0)
  {
  }

  lemma {:induction false} SumBounds(xs: seq<Ratio>)
    requires forall i :: 0 <= i < |xs| ==> xs[i] > 0
    ensures |xs| <= Sum(xs) <= 100 * |xs|
  {
    if xs != [] {
      SumBounds(xs[1..]);
    }
  }

  lemma MeanBounds(xs: seq<Ratio>)
    requires xs != [] && |xs| <= Sum(xs) <= 100 * |xs|
    ensures 0.0 < Sum(xs) as real / |xs| as real <= 100.0
  {
    var s, n := Sum(xs) as real, |xs| as real;
    assert (100 * |xs|) as real == 100.0 * n;
    QuotientAtMost(s, n, 100.0);
    QuotientPositive(s, n);
  }

  /** Dividing by a positive number keeps an upper bound `t` when `t` is
      multiplied instead. */
  lemma QuotientAtMost(s: real, n: real, t: real)
    requires n > 0.0
    ensures s / n <= t <==> s <= t * n
  {
    var q := s / n;
    assert q * n == s;
    if q <= t {
      assert (t - q) * n >= 0.0;
    } else {
      assert (q - t) * n > 0.0;
    }
  }

  lemma QuotientPositive(s: real, n: real)
    requires s > 0.0 && n > 0.0
    ensures s / n > 0.0
  {
    var q := s / n;
    assert q * n == s;
  }

  /** The threshold test `score >= fuzzy_threshold` on a mean is the test
      `sum >= threshold * count` on integers: no rounding is involved. */
  lemma ReachesThresholdIff(xs: seq<Ratio>, threshold: int)
    requires xs != []
    ensures Mean(xs).value >= threshold as real <==> Sum(xs) >= threshold * |xs|
  {
    QuotientAtLeast(Sum(xs) as real, |xs| as real, threshold as real);
    assert (threshold * |xs|) as real == threshold as real * |xs| as real;
  }

  /** Dividing by a positive number keeps the comparison with `t` when `t`
      is multiplied instead. */
  lemma QuotientAtLeast(s: real, n: real, t: real)
    requires n > 0.0
    ensures s / n >= t <==> s >= t * n
  {
    var q := s / n;
    assert q * n == s;
    if q >= t {
      assert (q - t) * n >= 0.0;
    } else {
      assert (t - q) * n > 0.0;
    }
  }

  /** A track with neither a truthy album nor a truthy artist is scored on
      its name ratio alone: the mean of one value is that value, and the
      missing fields add no zero. */
  lemma NameOnlyScore(t: TrackInfo, item: Item, ratio: RatioFunction)
    requires !Truthy(t.album) && !Truthy(t.artist)
    requires RatioOf(ratio, item.name, t.title) > 0
    ensures MatchScore(t, item, ratio) == Success(RatioOf(ratio, item.name, t.title) as real)
  {
    var x := RatioOf(ratio, item.name, t.title);
    assert ScoreRatios(t, item, ratio) == [x];
    assert Sum([x]) == x;
  }

  /** An album ratio of 0 is dropped exactly as an absent album is. */
  lemma ZeroAlbumRatioLikeAbsent(t: TrackInfo, item: Item, ratio: RatioFunction)
    requires Truthy(t.album) && RatioOf(ratio, item.albumName, t.album.value) == 0
    ensures MatchScore(t, item, ratio) == MatchScore(t.(album := None), item, ratio)
  {
    assert ScoreRatios(t, item, ratio) == ScoreRatios(t.(album := None), item, ratio);
  }

  /** Artist ratios that are all 0 are dropped exactly as an absent artist
      is. */
  lemma ZeroArtistRatiosLikeAbsent(t: TrackInfo, item: Item, ratio: RatioFunction)
    requires Truthy(t.artist)
    requires forall i :: 0 <= i < |item.artists| ==> RatioOf(ratio, item.artists[i], t.artist.value) == 0
    ensures MatchScore(t, item, ratio) == MatchScore(t.(artist := None), item, ratio)
  {
    assert ScoreRatios(t, item, ratio) == ScoreRatios(t.(artist := None), item, ratio);
  }

  /** When exactly one ratio survives, the score is that ratio itself. */
  lemma SingleRatioScore(t: TrackInfo, item: Item, ratio: RatioFunction)
    requires |ScoreRatios(t, item, ratio)| == 1
    ensures MatchScore(t, item, ratio) == Success(ScoreRatios(t, item, ratio)[0] as real)
  {
    var xs := ScoreRatios(t, item, ratio);
    assert xs == [xs[0]];
    assert Sum(xs) == xs[0] + Sum([]);
  }

  /** An empty album string counts as no album. */
  lemma EmptyAlbumLikeAbsent(t: TrackInfo, item: Item, ratio: RatioFunction)
    ensures MatchScore(t.(album := Some("")), item, ratio) == MatchScore(t.(album := None), item, ratio)
  {
    assert ScoreRatios(t.(album := Some("")), item, ratio) == ScoreRatios(t.(album := None), item, ratio);
  }

  /** Scoring looks at the track's fields only through their lower-cased
      forms: spellings that differ only in ASCII letter case score alike. */
  lemma ScoreIgnoresCase(t: TrackInfo, u: TrackInfo, item: Item, ratio: RatioFunction)
    requires Lower(t.title) == Lower(u.title)
    requires Truthy(t.album) == Truthy(u.album) && (Truthy(t.album) ==> Lower(t.album.value) == Lower(u.album.value))
    requires Truthy(t.artist) == Truthy(u.artist) && (Truthy(t.artist) ==> Lower(t.artist.value) == Lower(u.artist.value))
    ensures MatchScore(t, item, ratio) == MatchScore(u, item, ratio)
  {
    if Truthy(t.artist) {
      BestArtistRatioIgnoresCase(item.artists, t.artist.value, u.artist.value, ratio);
    }
    assert ScoreRatios(t, item, ratio) == ScoreRatios(u, item, ratio);
  }

  lemma {:induction false} BestArtistRatioIgnoresCase(artists: seq<string>, a: string, b: string, ratio: RatioFunction)
    requires Lower(a) == Lower(b)
    ensures BestArtistRatio(artists, a, ratio) == BestArtistRatio(artists, b, ratio)
    decreases |artists|
  {
    if artists != [] {
      BestArtistRatioIgnoresCase(artists[..|artists| - 1], a, b, ratio);
    }
  }

  /** A scoring of search items, as `get_fuzzy_match_score` is for one track. */
  type Scoring = Item -> Result<real, ResolveError>

  /** A scoring whose only error is the one `statistics.mean` raises. */
  ghost predicate FailsOnlyForNoRatios(score: Scoring)
  {
    forall item :: score(item).Failure? ==> score(item).error == NoRatios
  }

  /** The scoring a track applies to every item. */
  function ScoringOf(t: TrackInfo, ratio: RatioFunction): (score: Scoring)
    ensures forall item :: score(item) == MatchScore(t, item, ratio)
    ensures FailsOnlyForNoRatios(score)
  {
    item => MatchScore(t, item, ratio)
  }

  /** The item is accepted: its score exists and reaches the threshold. */
  predicate Accepts(score: Scoring, threshold: int, item: Item)
  {
    score(item).Success? && score(item).value >= threshold as real
  }

  /** The item is passed over: its score exists and is below the threshold. */
  predicate Rejects(score: Scoring, threshold: int, item: Item)
  {
    score(item).Success? && score(item).value < threshold as real
  }

  /** The candidate loop of `set_spotify_id`: the id of the first item
      whose score reaches the threshold; `NotFound` when none does; the
      scoring error of the first item that has no score, if one is met
      before any item is accepted. */
  function FirstMatch(items: seq<Item>, score: Scoring, threshold: int): (r: Result<string, ResolveError>)
    ensures items == [] ==> r == Failure(NotFound)
    ensures r.Success? ==> exists k :: 0 <= k < |items| && items[k].id == r.value && Accepts(score, threshold, items[k])
    decreases |items|
  {
    if items == [] then Failure(NotFound)
    else match score(items[0])
      case Failure(e) => Failure(e)
      case Success(s) =>
        if s >= threshold as real then Success(items[0].id)
        else
          var rest := FirstMatch(items[1..], score, threshold);
          assert forall k :: 0 <= k < |items| - 1 ==> items[1..][k] == items[k + 1];
          rest
  }

  /** `set_spotify_id` on a search result: `NotFound` when the result has no
      tracks or no items, otherwise the candidate loop over the items with
      the track's scoring and threshold. */
  function Resolution(t: TrackInfo, result: SearchResult, ratio: RatioFunction): (r: Result<string, ResolveError>)
    ensures result.tracks.None? ==> r == Failure(NotFound)
    ensures result.tracks.Some? && result.tracks.value == [] ==> r == Failure(NotFound)
    ensures r.Success? ==>
      exists i :: 0 <= i < |result.tracks.value| && result.tracks.value[i].id == r.value
  {
    match result.tracks
    case None => Failure(NotFound)
    case Some(items) =>
      FirstMatch(items, ScoringOf(t, ratio), t.fuzzyThreshold)
  }

  /** First above threshold: the item at index `k` is chosen when every
      item before it is passed over and it is accepted, whatever the items
      after it would score. */
  lemma {:induction false} FirstAcceptedIsChosen(items: seq<Item>, score: Scoring, threshold: int, k: nat)
    requires k < |items| && Accepts(score, threshold, items[k])
    requires forall j :: 0 <= j < k ==> Rejects(score, threshold, items[j])
    ensures FirstMatch(items, score, threshold) == Success(items[k].id)
    decreases k
  {
    if k > 0 {
      assert Rejects(score, threshold, items[0]);
      assert forall j :: 0 <= j < k - 1 ==> items[1..][j] == items[j + 1];
      FirstAcceptedIsChosen(items[1..], score, threshold, k - 1);
    }
  }

  /** Conversely, a chosen id is that of an accepted item all of whose
      predecessors are passed over. */
  lemma {:induction false} FirstMatchSucceeds(items: seq<Item>, score: Scoring, threshold: int)
    requires FirstMatch(items, score, threshold).Success?
    ensures
      exists k :: 0 <= k < |items| && items[k].id == FirstMatch(items, score, threshold).value &&
        Accepts(score, threshold, items[k]) &&
        (forall j :: 0 <= j < k ==> Rejects(score, threshold, items[j]))
    decreases |items|
  {
    if !Accepts(score, threshold, items[0]) {
      var rest := items[1..];
      FirstMatchSucceeds(rest, score, threshold);
      var k :| 0 <= k < |rest| && rest[k].id == FirstMatch(rest, score, threshold).value &&
        Accepts(score, threshold, rest[k]) &&
        (forall j :: 0 <= j < k ==> Rejects(score, threshold, rest[j]));
      assert items[k + 1] == rest[k];
      assert forall j :: 1 <= j < k + 1 ==> items[j] == rest[j - 1];
    }
  }

  /** `NotFound` is raised by the candidate loop exactly when every item
      has a score and every score is below the threshold; in particular on
      an empty list. */
  lemma {:induction false} NotFoundIffAllRejected(items: seq<Item>, score: Scoring, threshold: int)
    requires FailsOnlyForNoRatios(score)
    ensures FirstMatch(items, score, threshold) == Failure(NotFound) <==>
      forall j :: 0 <= j < |items| ==> Rejects(score, threshold, items[j])
    decreases |items|
  {
    if items != [] {
      NotFoundIffAllRejected(items[1..], score, threshold);
      assert forall j :: 1 <= j < |items| ==> items[j] == items[1..][j - 1];
    }
  }

  /** The scoring error escapes the loop exactly when some item has no
      score and every item before it is passed over. */
  lemma {:induction false} NoRatiosIffUnscoredReached(items: seq<Item>, score: Scoring, threshold: int)
    ensures FirstMatch(items, score, threshold) == Failure(NoRatios) <==>
      exists k :: 0 <= k < |items| && score(items[k]) == Failure(NoRatios) &&
        (forall j :: 0 <= j < k ==> Rejects(score, threshold, items[j]))
    decreases |items|
  {
    if items != [] {
      var rest := items[1..];
      NoRatiosIffUnscoredReached(rest, score, threshold);
      if Rejects(score, threshold, items[0]) {
        if FirstMatch(items, score, threshold) == Failure(NoRatios) {
          var k :| 0 <= k < |rest| && score(rest[k]) == Failure(NoRatios) &&
            (forall j :: 0 <= j < k ==> Rejects(score, threshold, rest[j]));
          assert items[k + 1] == rest[k];
          assert forall j :: 1 <= j < k + 1 ==> items[j] == rest[j - 1];
        }
        if exists k :: 0 <= k < |items| && score(items[k]) == Failure(NoRatios) &&
            (forall j :: 0 <= j < k ==> Rejects(score, threshold, items[j])) {
          var k :| 0 <= k < |items| && score(items[k]) == Failure(NoRatios) &&
            (forall j :: 0 <= j < k ==> Rejects(score, threshold, items[j]));
          assert k > 0;
          assert rest[k - 1] == items[k];
          assert forall j :: 0 <= j < k - 1 ==> rest[j] == items[j + 1];
        }
      }
    }
  }

  /** The text of an optional field in `__str__`: the field when truthy,
      the placeholder otherwise. */
  function ShownOr(o: Option<string>, placeholder: string): (shown: string)
    ensures Truthy(o) ==> shown == o.value
    ensures !Truthy(o) ==> shown == placeholder
  {
    if Truthy(o) then o.value else placeholder
  }

  /** The separator and the placeholders `__str__` uses. */
  const Separator := " - "
  const UnknownArtist := "Unknown artist"
  const UnknownAlbum := "Unknown album"
  const UnknownId := "Unknown spotify id"

  /** `s` is a suffix of `t`. */
  predicate EndsWith(t: string, s: string)
  {
    |s| <= |t| && t[|t| - |s|..] == s
  }

  lemma EndsWithConcat(a: string, b: string)
    ensures EndsWith(a + b, b)
  {
    assert (a + b)[|a|..] == b;
  }

  /** `__str__`: title, artist, album and id separated by " - "; each
      optional field appears as itself when truthy and as its placeholder
      otherwise. The title comes first and the id last. */
  function Describe(t: TrackInfo, spotifyId: Option<string>): (r: string)
    ensures r == t.title + Separator + ShownOr(t.artist, UnknownArtist) + Separator +
                 ShownOr(t.album, UnknownAlbum) + Separator + ShownOr(spotifyId, UnknownId)
    ensures |r| >= |t.title| + 3 * |Separator| && r[..|t.title| + |Separator|] == t.title + Separator
    ensures Truthy(spotifyId) ==> EndsWith(r, Separator + spotifyId.value)
    ensures !Truthy(spotifyId) ==> EndsWith(r, Separator + UnknownId)
  {
    var front := t.title + Separator + ShownOr(t.artist, UnknownArtist) + Separator + ShownOr(t.album, UnknownAlbum);
    var last := Separator + ShownOr(spotifyId, UnknownId);
    assert (front + last)[..|t.title| + |Separator|] == t.title + Separator;
    EndsWithConcat(front, last);
    front + last
  }

  /** A field that is present but empty renders as the placeholder, just
      as an absent one does. */
  lemma DescribeEmptyLikeAbsent(t: TrackInfo, spotifyId: Option<string>)
    ensures Describe(t.(artist := Some("")), spotifyId) == Describe(t.(artist := None), spotifyId)
    ensures Describe(t.(album := Some("")), spotifyId) == Describe(t.(album := None), spotifyId)
    ensures Describe(t, Some("")) == Describe(t, None)
  {
  }

  /** `uri`: the id after the "spotify:track:" prefix, rendered as "None"
      while the track is unresolved. */
  function UriOf(spotifyId: Option<string>): (u: string)
    ensures |u| >= 14 && u[..14] == "spotify:track:"
    ensures spotifyId.Some? ==> u[14..] == spotifyId.value
    ensures spotifyId.None? ==> u[14..] == "None"
  {
    "spotify:track:" + match spotifyId case Some(id) => id case None => "None"
  }

  /** A track: its parsed fields, its fuzzy threshold, and the catalogue id
      that a successful resolution sets. */
  class Track {
    var title: string
    var artist: Option<string>
    var album: Option<string>
    var fuzzyThreshold: int
    var spotifyId: Option<string>

    constructor (title: string, artist: Option<string> := None, album: Option<string> := None,
                 fuzzyThreshold: int := DefaultFuzzyThreshold)
      ensures this.title == title && this.artist == artist && this.album == album
      ensures this.fuzzyThreshold == fuzzyThreshold
      ensures spotifyId == None
    {
      this.title := title;
      this.artist := artist;
      this.album := album;
      this.fuzzyThreshold := fuzzyThreshold;
      spotifyId := None;
    }

    function Info(): TrackInfo
      reads this
    {
      TrackInfo(title, artist, album, fuzzyThreshold)
    }

    /** `get_fuzzy_match_score`, keeping the best artist ratio in a loop. */
    method FuzzyMatchScore(item: Item, ratio: RatioFunction) returns (score: Result<real, ResolveError>)
      ensures score == MatchScore(Info(), item, ratio)
    {
      var nameRatio := ratio(Lower(item.name), Lower(title));
      var albumRatio: Option<Ratio> := None;
      if Truthy(album) {
        albumRatio := Some(ratio(Lower(item.albumName), Lower(album.value)));
      }
      var artistRatio: Option<Ratio> := None;
      if Truthy(artist) {
        var i := 0;
        while i < |item.artists|
          invariant 0 <= i <= |item.artists|
          invariant artistRatio == BestArtistRatio(item.artists[..i], artist.value, ratio)
        {
          var r := ratio(Lower(item.artists[i]), Lower(artist.value));
          assert item.artists[..i + 1][..i] == item.artists[..i];
          if artistRatio.None? || artistRatio.value == 0 || r > artistRatio.value {
            artistRatio := Some(r);
          }
          i := i + 1;
        }
        assert item.artists[..i] == item.artists;
      }
      score := Mean(Kept(Some(nameRatio)) + Kept(albumRatio) + Kept(artistRatio));
    }

    /** `set_spotify_id` given the search result: on success the id of the
        first accepted item is stored; on any failure the id is left as it
        was. Nothing else on the track changes. */
    method SetSpotifyId(result: SearchResult, ratio: RatioFunction) returns (outcome: Outcome<ResolveError>)
      modifies this`spotifyId
      ensures Resolution(Info(), result, ratio).Success? ==>
        outcome == Pass && spotifyId == Some(Resolution(Info(), result, ratio).value)
      ensures Resolution(Info(), result, ratio).Failure? ==>
        outcome == Fail(Resolution(Info(), result, ratio).error) && spotifyId == old(spotifyId)
      ensures outcome == Pass ==> Uri() == "spotify:track:" + Resolution(Info(), result, ratio).value
    {
      if result.tracks.None? {
        return Fail(NotFound);
      }
      var items := result.tracks.value;
      if items == [] {
        return Fail(NotFound);
      }
      var i := 0;
      while i < |items|
        invariant 0 <= i <= |items|
        invariant FirstMatch(items, ScoringOf(Info(), ratio), fuzzyThreshold) ==
                  FirstMatch(items[i..], ScoringOf(Info(), ratio), fuzzyThreshold)
        invariant spotifyId == old(spotifyId)
      {
        var score := FuzzyMatchScore(items[i], ratio);
        if score.Failure? {
          return Fail(score.error);
        }
        if score.value >= fuzzyThreshold as real {
          spotifyId := Some(items[i].id);
          return Pass;
        }
        assert items[i..][1..] == items[i + 1..];
        i := i + 1;
      }
      return Fail(NotFound);
    }

    /** `uri`: `UriOf` of the track's id. */
    function Uri(): (u: string)
      reads this
      ensures |u| >= 14 && u[..14] == "spotify:track:"
      ensures spotifyId.Some? ==> u == "spotify:track:" + spotifyId.value
      ensures spotifyId.None? ==> u[14..] == "None"
    {
      UriOf(spotifyId)
    }

    /** `__str__`: `Describe` of the track's fields, whose contract the
        ensures below repeat over the fields. */
    function ToString(): (r: string)
      reads this
      ensures r == title + Separator + ShownOr(artist, UnknownArtist) + Separator +
                   ShownOr(album, UnknownAlbum) + Separator + ShownOr(spotifyId, UnknownId)
      ensures |r| >= |title| + 3 * |Separator| && r[..|title| + |Separator|] == title + Separator
      ensures Truthy(spotifyId) ==> EndsWith(r, Separator + spotifyId.value)
      ensures !Truthy(spotifyId) ==> EndsWith(r, Separator + UnknownId)
    {
      Describe(Info(), spotifyId)
    }
  }
}
