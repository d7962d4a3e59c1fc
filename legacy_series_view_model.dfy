/** The earlier series view-model: a four-field Series and the
    recommendations fetch only. Its poster rule is the current one. */
module LegacySeriesVM {
  import opened Wrappers
  import opened Json
  import opened Tmdb

  /** `voteAverage` is a Kotlin Double that nothing computes with. */
  datatype Series = Series(title: string, overview: string, posterPath: string, voteAverage: real)

  /** One record of `results` as a Series, its title from "name". */
  function SeriesFromJson(rec: Record): (s: Series)
    ensures "name" !in rec ==> s.title == "N/A"
    ensures "overview" !in rec ==> s.overview == "N/A"
    ensures s.posterPath == PlaceholderImage <==> OptString(rec, "poster_path", "") == ""
  {
    PosterUrlIsPlaceholderIff(OptString(rec, "poster_path", ""));
    Series(
      OptString(rec, "name", "N/A"),
      OptString(rec, "overview", "N/A"),
      PosterUrl(OptString(rec, "poster_path", "")),
      OptDouble(rec, "vote_average", 0.0))
  }

  class SeriesViewModel {
    var series: Option<seq<Series>>

    /** Creating the view-model fetches the recommendations. */
    constructor(recommendations: Response)
      ensures series == Fetched(recommendations, SeriesFromJson)
    {
      series := None;
      new;
      FetchSeriesRecommendations(recommendations);
    }

    /** Posts the series built from the answer's `results`, or leaves
        `series` as it was when the request fails. */
    method FetchSeriesRecommendations(response: Response)
      modifies this
      ensures series == if Fetched(response, SeriesFromJson).Some? then Fetched(response, SeriesFromJson) else old(series)
    {
      var posted := Fetch(response, SeriesFromJson);
      if posted.Some? {
        series := posted;
      }
    }
  }

  /** A well-formed answer posts one Series per result, in order, each
      titled from the record's "name". */
  lemma FetchedOnePerResult(response: Response, items: seq<JValue>)
    requires RootObject(response).Some?
    requires OptArray(RootObject(response).value, "results") == Some(items)
    requires AllRecords(items)
    ensures Fetched(response, SeriesFromJson).Some?
    ensures var list := Fetched(response, SeriesFromJson).value;
      && |list| == |items|
      && forall k :: 0 <= k < |items| ==> list[k].title == OptString(items[k].fields, "name", "N/A")
  {
  }
}
