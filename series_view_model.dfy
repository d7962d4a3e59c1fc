/** The current series view-model: the recommended series, the series
    search results and the favourite toggle. Unlike the movie search, the
    series search has no blank-query guard. */
module SeriesVM {
  import opened Wrappers
  import opened Tmdb
  import opened Media

  class SeriesViewModel {
    var series: Option<seq<Series>>
    var searchResults: Option<seq<Series>>

    /** Creating the view-model fetches the recommendations. */
    constructor(recommendations: Response)
      ensures series == Fetched(recommendations, SeriesFromJson)
      ensures searchResults == None
    {
      series := None;
      searchResults := None;
      new;
      FetchSeriesRecommendations(recommendations);
    }

    /** Posts the series built from the answer's `results`, or leaves
        `series` as it was when the request fails. */
    method FetchSeriesRecommendations(response: Response)
      modifies this
      ensures series == if Fetched(response, SeriesFromJson).Some? then Fetched(response, SeriesFromJson) else old(series)
      ensures searchResults == old(searchResults)
    {
      var posted := Fetch(response, SeriesFromJson);
      if posted.Some? {
        series := posted;
      }
    }

    /** Flips the favourite mark of every held series with the id of
        `item`; a list that was never set stays unset. */
    method ToggleFavorite(item: Series)
      modifies this
      ensures series == if old(series).Some? then Some(Toggled(old(series).value, item.id)) else None
      ensures old(series).Some? ==> |series.value| == |old(series).value|
      ensures searchResults == old(searchResults)
    {
      if series.Some? {
        series := Some(Toggled(series.value, item.id));
      }
    }

    /** Every query is sent, a blank one included; the answer is handled
        like a recommendations answer but posted to `searchResults`. */
    method SearchSeries(query: string, response: Response)
      modifies this
      ensures searchResults == if Fetched(response, SeriesFromJson).Some? then Fetched(response, SeriesFromJson) else old(searchResults)
      ensures series == old(series)
    {
      var posted := Fetch(response, SeriesFromJson);
      if posted.Some? {
        searchResults := posted;
      }
    }
  }

  /** Every posted series is fresh and carries an Int id. */
  lemma FetchedSeriesAreFresh(response: Response, list: seq<Series>)
    requires Fetched(response, SeriesFromJson) == Some(list)
    ensures forall k :: 0 <= k < |list| ==>
        list[k].thumbsUp == 0 && !list[k].isFavorite && Json.IsInt32(list[k].id)
  {
  }

  /** After a fetch, toggling a series marks as favourite exactly the
      posted series with its id, and a second toggle undoes it. */
  lemma {:induction false} ToggleAfterFetch(response: Response, list: seq<Series>, item: Series)
    requires Fetched(response, SeriesFromJson) == Some(list)
    ensures forall k :: 0 <= k < |list| ==> (Toggled(list, item.id)[k].isFavorite <==> list[k].id == item.id)
    ensures Toggled(Toggled(list, item.id), item.id) == list
  {
    FetchedSeriesAreFresh(response, list);
    ToggledFreshList(list, item.id);
  }
}
