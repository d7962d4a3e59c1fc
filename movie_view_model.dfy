/** The current movie view-model: the recommended movies, the movie search
    results, the favourite toggle and the blank-query guard of the search. */
module MovieVM {
  import opened Wrappers
  import opened Tmdb
  import opened Media
  import Text

  /** The two LiveData fields, each None until a value is set. Each request
      is an input: the answer the server gives it. */
  class MovieViewModel {
    var movies: Option<seq<Movie>>
    var searchResults: Option<seq<Movie>>

    /** Creating the view-model fetches the recommendations. */
    constructor(recommendations: Response)
      ensures movies == Fetched(recommendations, MovieFromJson)
      ensures searchResults == None
    {
      movies := None;
      searchResults := None;
      new;
      FetchMovieRecommendations(recommendations);
    }

    /** Posts the movies built from the answer's `results`, or leaves
        `movies` as it was when the request fails. */
    method FetchMovieRecommendations(response: Response)
      modifies this
      ensures movies == if Fetched(response, MovieFromJson).Some? then Fetched(response, MovieFromJson) else old(movies)
      ensures searchResults == old(searchResults)
    {
      var posted := Fetch(response, MovieFromJson);
      if posted.Some? {
        movies := posted;
      }
    }

    /** Flips the favourite mark of every held movie with the id of `movie`;
        a list that was never set stays unset. */
    method ToggleFavorite(movie: Movie)
      modifies this
      ensures movies == if old(movies).Some? then Some(Toggled(old(movies).value, movie.id)) else None
      ensures old(movies).Some? ==> |movies.value| == |old(movies).value|
      ensures searchResults == old(searchResults)
    {
      if movies.Some? {
        movies := Some(Toggled(movies.value, movie.id));
      }
    }

    /** A blank query posts the empty list and sends nothing; any other
        query is sent, and its answer handled like a recommendations
        answer but posted to `searchResults`. */
    method SearchMovies(query: string, response: Response) returns (requested: bool)
      modifies this
      ensures requested <==> !Text.IsBlank(query)
      ensures !requested ==> searchResults == Some([])
      ensures requested ==>
                searchResults == if Fetched(response, MovieFromJson).Some? then Fetched(response, MovieFromJson) else old(searchResults)
      ensures movies == old(movies)
    {
      if Text.IsBlank(query) {
        searchResults := Some([]);
        return false;
      }
      requested := true;
      var posted := Fetch(response, MovieFromJson);
      if posted.Some? {
        searchResults := posted;
      }
    }
  }

  /** Every posted movie is fresh: no thumbs up, not a favourite. */
  lemma FetchedMoviesAreFresh(response: Response, list: seq<Movie>)
    requires Fetched(response, MovieFromJson) == Some(list)
    ensures forall k :: 0 <= k < |list| ==> list[k].thumbsUp == 0 && !list[k].isFavorite
  {
  }

  /** After a fetch, toggling a movie marks as favourite exactly the posted
      movies with its id, and a second toggle undoes it. */
  lemma {:induction false} ToggleAfterFetch(response: Response, list: seq<Movie>, movie: Movie)
    requires Fetched(response, MovieFromJson) == Some(list)
    ensures forall k :: 0 <= k < |list| ==> (Toggled(list, movie.id)[k].isFavorite <==> list[k].id == movie.id)
    ensures Toggled(Toggled(list, movie.id), movie.id) == list
  {
    FetchedMoviesAreFresh(response, list);
    ToggledFreshList(list, movie.id);
  }
}
