/** The earlier movie view-model: a three-field Movie and the
    recommendations fetch only. Its poster path is the raw "poster_path"
    text, without the image base URL and without a placeholder. */
module LegacyMovieVM {
  import opened Wrappers
  import opened Json
  import opened Tmdb

  datatype Movie = Movie(title: string, overview: string, posterPath: string)

  /** One record of `results` as a Movie. */
  function MovieFromJson(rec: Record): (m: Movie)
    ensures "title" !in rec ==> m.title == "N/A"
    ensures "overview" !in rec ==> m.overview == "N/A"
    ensures "poster_path" !in rec ==> m.posterPath == ""
  {
    Movie(
      OptString(rec, "title", "N/A"),
      OptString(rec, "overview", "N/A"),
      OptString(rec, "poster_path", ""))
  }

  /** The poster path is the record's text as it is: an empty path stays
      empty and a non-empty one gets no prefix. */
  lemma PosterPathIsRaw(rec: Record, path: string)
    requires "poster_path" in rec && rec["poster_path"] == JString(path)
    ensures MovieFromJson(rec).posterPath == path
    ensures path != "" ==> MovieFromJson(rec).posterPath != PosterUrl(path)
  {
  }

  class MovieViewModel {
    var movies: Option<seq<Movie>>

    /** Creating the view-model fetches the recommendations. */
    constructor(recommendations: Response)
      ensures movies == Fetched(recommendations, MovieFromJson)
    {
      movies := None;
      new;
      FetchMovieRecommendations(recommendations);
    }

    /** Posts the movies built from the answer's `results`, or leaves
        `movies` as it was when the request fails. */
    method FetchMovieRecommendations(response: Response)
      modifies this
      ensures movies == if Fetched(response, MovieFromJson).Some? then Fetched(response, MovieFromJson) else old(movies)
    {
      var posted := Fetch(response, MovieFromJson);
      if posted.Some? {
        movies := posted;
      }
    }
  }

  /** A well-formed answer posts one Movie per result, in order, each with
      the record's title, overview and raw poster path. */
  lemma FetchedOnePerResult(response: Response, items: seq<JValue>)
    requires RootObject(response).Some?
    requires OptArray(RootObject(response).value, "results") == Some(items)
    requires AllRecords(items)
    ensures Fetched(response, MovieFromJson).Some?
    ensures var list := Fetched(response, MovieFromJson).value;
      && |list| == |items|
      && forall k :: 0 <= k < |items| ==>
           list[k].posterPath == OptString(items[k].fields, "poster_path", "")
  {
  }
}
