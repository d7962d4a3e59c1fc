/** The movie and series records the current view-models hold, how one TMDB
    result record becomes one of them, and the favourite toggle. Movie and
    Series have the same fields and differ only in the type of `id`
    (Movie.id is the decimal text of the TMDB id, Series.id the Int), so
    both are one generic record. */
module Media {
  import opened Wrappers
  import opened Json
  import Text
  import Tmdb

  /** A movie or a series. `voteAverage` and `popularity` are Kotlin
      Doubles that nothing computes with. `isFavorite` is not passed by the
      mapping loops, so it takes its declared default, false. */
  datatype MediaItem<Id> = MediaItem(
    id: Id,
    title: string,
    overview: string,
    posterPath: string,
    thumbsUp: int,
    voteAverage: real,
    voteCount: int,
    popularity: real,
    isFavorite: bool)

  type Movie = MediaItem<string>
  type Series = MediaItem<int>

  /** One record of a movie `results` array as a Movie: the id is the
      decimal text of optInt("id", -1), the title comes from "title", a
      missing text field reads "N/A", a missing count 0. */
  function MovieFromJson(rec: Record): (m: Movie)
    ensures m.thumbsUp == 0 && !m.isFavorite
    ensures IsInt32(m.voteCount)
    ensures Text.ParseDecimal(m.id) == Some(OptInt(rec, "id", -1))
  {
    var id := OptInt(rec, "id", -1);
    Text.DecimalRoundTrip(id);
    MediaItem(
      Text.DecimalString(id),
      OptString(rec, "title", "N/A"),
      OptString(rec, "overview", "N/A"),
      Tmdb.PosterUrl(OptString(rec, "poster_path", "")),
      0,
      OptDouble(rec, "vote_average", 0.0),
      OptInt(rec, "vote_count", 0),
      OptDouble(rec, "popularity", 0.0),
      false)
  }

  /** One record of a TV `results` array as a Series: the id is
      optInt("id", -1) itself and the title comes from "name". */
  function SeriesFromJson(rec: Record): (s: Series)
    ensures s.thumbsUp == 0 && !s.isFavorite
    ensures IsInt32(s.id) && IsInt32(s.voteCount)
  {
    MediaItem(
      OptInt(rec, "id", -1),
      OptString(rec, "name", "N/A"),
      OptString(rec, "overview", "N/A"),
      Tmdb.PosterUrl(OptString(rec, "poster_path", "")),
      0,
      OptDouble(rec, "vote_average", 0.0),
      OptInt(rec, "vote_count", 0),
      OptDouble(rec, "popularity", 0.0),
      false)
  }

  /** Each key missing from a movie record gives its own default, whatever
      the other keys hold. */
  lemma MovieDefaults(rec: Record)
    ensures "id" !in rec ==> MovieFromJson(rec).id == "-1"
    ensures "title" !in rec ==> MovieFromJson(rec).title == "N/A"
    ensures "overview" !in rec ==> MovieFromJson(rec).overview == "N/A"
    ensures "poster_path" !in rec ==> MovieFromJson(rec).posterPath == Tmdb.PlaceholderImage
    ensures "vote_average" !in rec ==> MovieFromJson(rec).voteAverage == 0.0
    ensures "vote_count" !in rec ==> MovieFromJson(rec).voteCount == 0
    ensures "popularity" !in rec ==> MovieFromJson(rec).popularity == 0.0
  {
    assert Text.DigitChar(1) == '1';
    assert Text.DecimalString(-1) == "-1";
  }

  /** Each key missing from a series record gives its own default, whatever
      the other keys hold. */
  lemma SeriesDefaults(rec: Record)
    ensures "id" !in rec ==> SeriesFromJson(rec).id == -1
    ensures "name" !in rec ==> SeriesFromJson(rec).title == "N/A"
    ensures "overview" !in rec ==> SeriesFromJson(rec).overview == "N/A"
    ensures "poster_path" !in rec ==> SeriesFromJson(rec).posterPath == Tmdb.PlaceholderImage
    ensures "vote_average" !in rec ==> SeriesFromJson(rec).voteAverage == 0.0
    ensures "vote_count" !in rec ==> SeriesFromJson(rec).voteCount == 0
    ensures "popularity" !in rec ==> SeriesFromJson(rec).popularity == 0.0
  {
  }

  /** A well-typed TMDB movie record is carried over field by field, the
      poster path behind the image base URL. */
  lemma MovieFromTmdbRecord(rec: Record, id: int, title: string, overview: string, poster: string,
                            average: real, votes: int, popularity: real)
    requires IsInt32(id) && IsInt32(votes) && poster != ""
    requires "id" in rec && rec["id"] == JInt(id)
    requires "title" in rec && rec["title"] == JString(title)
    requires "overview" in rec && rec["overview"] == JString(overview)
    requires "poster_path" in rec && rec["poster_path"] == JString(poster)
    requires "vote_average" in rec && rec["vote_average"].JDouble? && rec["vote_average"].d == average
    requires "vote_count" in rec && rec["vote_count"] == JInt(votes)
    requires "popularity" in rec && rec["popularity"].JDouble? && rec["popularity"].d == popularity
    ensures Text.ParseDecimal(MovieFromJson(rec).id) == Some(id)
    ensures MovieFromJson(rec).title == title && MovieFromJson(rec).overview == overview
    ensures MovieFromJson(rec).posterPath == Tmdb.ImageBaseUrl + poster
    ensures MovieFromJson(rec).voteAverage == average && MovieFromJson(rec).popularity == popularity
    ensures MovieFromJson(rec).voteCount == votes
  {
  }

  /** TMDB sends "poster_path": null for a title without a poster; optString
      renders it as "null", so the poster URL ends in "null" and the
      placeholder is not used. */
  lemma NullPosterPath(rec: Record)
    requires "poster_path" in rec && rec["poster_path"] == JNull
    ensures MovieFromJson(rec).posterPath == Tmdb.ImageBaseUrl + "null"
    ensures MovieFromJson(rec).posterPath != Tmdb.PlaceholderImage
  {
    Tmdb.PosterUrlIsPlaceholderIff("null");
  }

  /** A series takes its title from "name"; a "title" key changes nothing. */
  lemma SeriesTitleFromName(rec: Record, name: string, title: JValue)
    requires "name" in rec && rec["name"] == JString(name)
    ensures SeriesFromJson(rec).title == name
    ensures SeriesFromJson(rec["title" := title]) == SeriesFromJson(rec)
  {
  }

  /** Records with different TMDB ids give movies with different ids, so the
      toggle, which matches on id, never confuses them. */
  lemma MovieIdsDistinct(a: Record, b: Record)
    requires OptInt(a, "id", -1) != OptInt(b, "id", -1)
    ensures MovieFromJson(a).id != MovieFromJson(b).id
  {
  }

  /** Kotlin's copy(isFavorite = !isFavorite). */
  function Flipped<Id>(x: MediaItem<Id>): MediaItem<Id> {
    x.(isFavorite := !x.isFavorite)
  }

  /** The list toggleFavorite stores: `map` over the held list, flipping
      every item whose id equals the given one. */
  function Toggled<Id(==)>(items: seq<MediaItem<Id>>, id: Id): (r: seq<MediaItem<Id>>)
    ensures |r| == |items|
    ensures forall k :: 0 <= k < |items| ==>
      && r[k].id == items[k].id
      && (r[k].isFavorite != items[k].isFavorite <==> items[k].id == id)
      && r[k].(isFavorite := items[k].isFavorite) == items[k]
  {
    if items == [] then []
    else
      var head := if items[0].id == id then Flipped(items[0]) else items[0];
      [head] + Toggled(items[1..], id)
  }

  /** Toggling the same id twice gives back the list. */
  lemma ToggledTwice<Id>(items: seq<MediaItem<Id>>, id: Id)
    ensures Toggled(Toggled(items, id), id) == items
  {
  }

  /** Toggles of two ids can be done in either order. */
  lemma ToggledCommute<Id>(items: seq<MediaItem<Id>>, a: Id, b: Id)
    ensures Toggled(Toggled(items, a), b) == Toggled(Toggled(items, b), a)
  {
  }

  /** An id no item carries leaves the list as it is. */
  lemma ToggledAbsentId<Id>(items: seq<MediaItem<Id>>, id: Id)
    requires forall k :: 0 <= k < |items| ==> items[k].id != id
    ensures Toggled(items, id) == items
  {
  }

  /** On a freshly fetched list, where nothing is a favourite yet, one
      toggle marks exactly the items with the given id. */
  lemma ToggledFreshList<Id>(items: seq<MediaItem<Id>>, id: Id)
    requires forall k :: 0 <= k < |items| ==> !items[k].isFavorite
    ensures forall k :: 0 <= k < |items| ==> (Toggled(items, id)[k].isFavorite <==> items[k].id == id)
    ensures Toggled(Toggled(items, id), id) == items
  {
    ToggledTwice(items, id);
  }
}
