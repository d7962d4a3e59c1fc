# MyGeekDB view-models in Dafny

MyGeekDB is an Android client for browsing TMDB movie and TV-series
recommendations, searching titles and marking favourites. This project
models the part of it with stateful list logic: the movie and series
view-models. The current pair lives in `viewmodel/` and an earlier pair in
the package root. Four pieces are modelled:

- **Fetch handlers.** A fetch handles the server's answer. An unsuccessful
  status, a missing body, text that is not a JSON object, a `results`
  element that is not an object, or a request that throws all post
  nothing. The LiveData field keeps its value. A successful object without
  a `results` array posts the empty list.
- **Mapping loop.** The loop over `results` builds one item per record,
  in array order. Each missing field takes its default: `"N/A"`, `-1`,
  `0` or `""`. `thumbsUp` is always 0 and `isFavorite` is false.
- **Poster rule.** A non-empty `poster_path` is appended to
  `https://image.tmdb.org/t/p/w500`. An empty one is replaced by the
  bundled placeholder resource URI (the legacy movie view-model keeps the
  raw `poster_path`). A movie takes its title from
  `"title"` and a series from `"name"`. A movie's id is the decimal text
  of the TMDB integer id, while a series keeps the integer.
- **`toggleFavorite`.** It maps the held list, flipping `isFavorite` on
  every item whose id matches. A list that was never set stays unset.
- **Blank-query guard.** The movie search posts the empty list for a blank
  query and sends no request. The series search has no such guard.

Module layout:

| file | module | models |
|---|---|---|
| wrappers.dfy | Wrappers | Option, for Kotlin's nullable values |
| text.dfy | Text | Kotlin's `isBlank`, Java's `Int.toString`, the reading of numeric text |
| json.dfy | Json | parsed JSON values and the `optString`/`optInt`/`optDouble`/`optJSONArray` accessors |
| tmdb.dfy | Tmdb | the poster rule, the HTTP answer, the `results` loop and the whole fetch handler |
| media.dfy | Media | Movie and Series, the record-to-item mapping and the favourite toggle |
| movie_view_model.dfy | MovieVM | `viewmodel/MovieViewModel.kt` |
| series_view_model.dfy | SeriesVM | `viewmodel/SeriesViewModel.kt` |
| legacy_movie_view_model.dfy | LegacyMovieVM | the root-package `MovieViewModel.kt` |
| legacy_series_view_model.dfy | LegacySeriesVM | the root-package `SeriesViewModel.kt` |

Modelling choices:

- **One item type.** `Movie` and `Series` have identical fields except for
  the type of `id`. Both are the one datatype `Media.MediaItem<Id>`:
  `Movie = MediaItem<string>` and `Series = MediaItem<int>`. The Kotlin
  `model/Movie.kt` and `model/Series.kt` have no `isFavorite`, yet
  `toggleFavorite` copies with `isFavorite = …` and the mapping loops never
  pass it. The model therefore gives the item a `bool isFavorite` that
  starts false.
- **View-models as classes.** Each view-model is a class whose LiveData
  fields are `Option<seq<…>>` fields, where `None` means never set. Each
  fetch is a sequential method that takes the HTTP answer as a parameter.
  `Tmdb.Fetch` and its loop `Tmdb.Collect` are written once and called by
  all six fetches. Their specifications are `Tmdb.Fetched` and
  `Tmdb.Collected`.
- **JSON accessors.** The accessors follow the Android platform's org.json,
  which is what runs on a device. `app/build.gradle.kts:83` also declares
  `org.json:json:20210307`, whose `optString` treats JSON `null` as
  missing, but on a device the platform's copy of the `org.json` classes
  takes precedence over the bundled one.
  - `optString` returns the fallback only for a missing key. JSON
    `null` reads as the text `"null"`, so a `"poster_path": null` gives
    the base URL followed by `null`, not the placeholder.
  - `optInt` narrows an Integer or Long to its low 32 bits. It truncates a
    double toward zero and clamps it to the Int range. It reads numeric
    text as a double, then narrows it.
  - A double, an array or an object carries the text the library's
    `toString` gives it (`shown`). `optString` is the only accessor that
    can return that text.

## Model

| member | source | states |
|---|---|---|
| Text.IsBlank | app/src/main/java/ie/matlesz/mygeekdb/viewmodel/MovieViewModel.kt:108 | the empty text is blank, and a blank text is whitespace throughout |
| Text.DecimalString | app/src/main/java/ie/matlesz/mygeekdb/viewmodel/MovieViewModel.kt:54 | the text is non-empty, starts with `-` exactly for a negative number, and is otherwise decimal digits |
| Text.ParseDecimal | app/src/main/java/ie/matlesz/mygeekdb/viewmodel/MovieViewModel.kt:54 | a number is read only from text that starts with a digit or a sign, and a negative one only from text that starts with `-` |
| Text.Digits | app/src/main/java/ie/matlesz/mygeekdb/viewmodel/MovieViewModel.kt:54 | the decimal digits of a natural number are digits only, with no leading zero |
| Text.DecimalRoundTrip | app/src/main/java/ie/matlesz/mygeekdb/viewmodel/MovieViewModel.kt:54 | reading back the `toString` of any integer id gives that integer |
| Text.DecimalStringInjective | app/src/main/java/ie/matlesz/mygeekdb/viewmodel/MovieViewModel.kt:54 | distinct integers have distinct decimal texts |
| Json.LowBits32 | app/src/main/java/ie/matlesz/mygeekdb/viewmodel/MovieViewModel.kt:54-62 | `Long.intValue`: the result is an Int congruent to the value modulo 2^32, and an Int is kept as is |
| Json.Clamp32 | app/src/main/java/ie/matlesz/mygeekdb/viewmodel/MovieViewModel.kt:54-62 | the saturation of Java's `(int)` cast: an Int is kept, a value below or above the Int range gives `Int.MIN_VALUE` or `Int.MAX_VALUE` |
| Json.TruncateToward0 | app/src/main/java/ie/matlesz/mygeekdb/viewmodel/MovieViewModel.kt:54-62 | Java's `(int)` cast drops the fraction toward zero: a non-negative value gives the largest integer not above it, a negative one the smallest integer not below it |
| Json.OptString | app/src/main/java/ie/matlesz/mygeekdb/viewmodel/MovieViewModel.kt:55-58 | a missing key gives the fallback, a string gives itself, an integer gives its canonical decimal text (which reads back as that integer), a double, an array or an object gives its `toString` text, and JSON null gives the text `"null"` and a boolean `"true"` or `"false"` |
| Json.OptInt | app/src/main/java/ie/matlesz/mygeekdb/viewmodel/MovieViewModel.kt:54-62 | a missing key, null, a boolean, an array or an object gives the fallback; an integer gives its low 32 bits, an Int congruent to it modulo 2^32; a double is truncated toward zero and clamped to the Int range; numeric text is read and clamped, other text falls back; an Int fallback always gives an Int |
| Json.OptDouble | app/src/main/java/ie/matlesz/mygeekdb/viewmodel/MovieViewModel.kt:61-63 | a missing key gives the fallback; a double gives itself and an integer its value; numeric text gives the number it reads, other text the fallback; null, a boolean, an array or an object gives the fallback |
| Json.OptArray | app/src/main/java/ie/matlesz/mygeekdb/viewmodel/MovieViewModel.kt:48 | `optJSONArray` gives a value exactly when the key holds an array, that value being the array's elements, and null otherwise |
| Json.MissingKeyFallsBack | app/src/main/java/ie/matlesz/mygeekdb/viewmodel/MovieViewModel.kt:54-63 | a missing key makes every accessor return its fallback |
| Json.TypedValuesReadBack | app/src/main/java/ie/matlesz/mygeekdb/viewmodel/MovieViewModel.kt:54-63 | an Int-sized JSON integer and a JSON string are read back exactly |
| Json.NumericTextReadsAsNumber | app/src/main/java/ie/matlesz/mygeekdb/viewmodel/MovieViewModel.kt:54 | an id sent as the decimal text of an Int is read as that Int |
| Tmdb.PosterUrl | app/src/main/java/ie/matlesz/mygeekdb/viewmodel/MovieViewModel.kt:57-60 | a non-empty path gives the base URL followed by exactly that path; an empty path gives the placeholder URI |
| Tmdb.PosterUrlIsPlaceholderIff | app/src/main/java/ie/matlesz/mygeekdb/viewmodel/MovieViewModel.kt:57-60 | the placeholder URI is used if and only if the poster path is empty |
| Tmdb.PosterUrlInjective | app/src/main/java/ie/matlesz/mygeekdb/viewmodel/MovieViewModel.kt:57-60 | distinct poster paths give distinct poster URLs, so the base-URL prefix loses nothing |
| Tmdb.Collected | app/src/main/java/ie/matlesz/mygeekdb/viewmodel/MovieViewModel.kt:51-77 | the loop builds a list exactly when every element is an object; it has one item per element, in array order, each built from its element |
| Tmdb.Collect | app/src/main/java/ie/matlesz/mygeekdb/viewmodel/MovieViewModel.kt:52-76 | the index loop appending to the mutable list computes `Collected` |
| Tmdb.Fetch | app/src/main/java/ie/matlesz/mygeekdb/viewmodel/MovieViewModel.kt:45-90 | the handler posts exactly `Fetched`: nothing on failure, the empty list without `results`, otherwise the collected list |
| Tmdb.Fetched | app/src/main/java/ie/matlesz/mygeekdb/viewmodel/MovieViewModel.kt:45-90 | no root object posts nothing; a root without a `results` array posts the empty list; a posted list from a `results` array has one item per element |
| Tmdb.FetchedPostsIff | app/src/main/java/ie/matlesz/mygeekdb/viewmodel/MovieViewModel.kt:45-90 | a fetch posts if and only if the answer is a successful JSON object whose `results`, when it is an array, holds only objects |
| Tmdb.FetchedNothingOnFailure | app/src/main/java/ie/matlesz/mygeekdb/viewmodel/MovieViewModel.kt:45-90 | an unsuccessful status, a missing body or a failed request posts nothing |
| Tmdb.FetchedEmptyWithoutResults | app/src/main/java/ie/matlesz/mygeekdb/viewmodel/MovieViewModel.kt:48-83 | a successful object without a `results` array still posts the empty list |
| Tmdb.FetchedOnePerResult | app/src/main/java/ie/matlesz/mygeekdb/viewmodel/MovieViewModel.kt:51-77 | with a `results` array of objects, the posted list has one item per element, in order |
| Media.MovieFromJson | app/src/main/java/ie/matlesz/mygeekdb/viewmodel/MovieViewModel.kt:53-76 | a built movie has `thumbsUp` 0, is not a favourite, has an Int vote count, and its id text reads back as the record's `optInt("id", -1)` |
| Media.SeriesFromJson | app/src/main/java/ie/matlesz/mygeekdb/viewmodel/SeriesViewModel.kt:52-74 | a built series has `thumbsUp` 0, is not a favourite, and has an Int id and vote count |
| Media.MovieDefaults | app/src/main/java/ie/matlesz/mygeekdb/viewmodel/MovieViewModel.kt:54-63 | each key on its own: a missing `id` gives `"-1"`, a missing `title` or `overview` gives `"N/A"`, a missing `poster_path` gives the placeholder, and a missing `vote_average`, `vote_count` or `popularity` gives zero, whatever the other keys hold |
| Media.SeriesDefaults | app/src/main/java/ie/matlesz/mygeekdb/viewmodel/SeriesViewModel.kt:53-62 | each key on its own: a missing `id` gives -1, a missing `name` or `overview` gives `"N/A"`, a missing `poster_path` gives the placeholder, and a missing `vote_average`, `vote_count` or `popularity` gives zero, whatever the other keys hold |
| Media.MovieFromTmdbRecord | app/src/main/java/ie/matlesz/mygeekdb/viewmodel/MovieViewModel.kt:53-76 | a well-typed record is carried over field by field: the id reads back, title, overview, vote average, vote count and popularity are kept, and the poster sits behind the base URL |
| Media.NullPosterPath | app/src/main/java/ie/matlesz/mygeekdb/viewmodel/MovieViewModel.kt:57-60 | a `"poster_path": null` gives the base URL followed by `null`, not the placeholder |
| Media.SeriesTitleFromName | app/src/main/java/ie/matlesz/mygeekdb/viewmodel/SeriesViewModel.kt:54 | a series' title is its `"name"`; a `"title"` key changes nothing |
| Media.MovieIdsDistinct | app/src/main/java/ie/matlesz/mygeekdb/viewmodel/MovieViewModel.kt:54 | records with different TMDB ids give movies with different id texts |
| Media.Toggled | app/src/main/java/ie/matlesz/mygeekdb/viewmodel/MovieViewModel.kt:95-101 | same length and order; ids kept; `isFavorite` flips exactly on the items with the given id; no other field changes |
| Media.ToggledTwice | app/src/main/java/ie/matlesz/mygeekdb/viewmodel/MovieViewModel.kt:93-102 | toggling the same id twice restores the list |
| Media.ToggledCommute | app/src/main/java/ie/matlesz/mygeekdb/viewmodel/MovieViewModel.kt:93-102 | toggles of two ids commute |
| Media.ToggledAbsentId | app/src/main/java/ie/matlesz/mygeekdb/viewmodel/MovieViewModel.kt:96-100 | toggling an id no item carries leaves the list unchanged |
| Media.ToggledFreshList | app/src/main/java/ie/matlesz/mygeekdb/viewmodel/MovieViewModel.kt:96-97 | on a list with no favourites, one toggle marks exactly the items with that id |
| MovieVM.MovieViewModel.constructor | app/src/main/java/ie/matlesz/mygeekdb/viewmodel/MovieViewModel.kt:23-25 | construction fetches the recommendations; search results start unset |
| MovieVM.MovieViewModel.FetchMovieRecommendations | app/src/main/java/ie/matlesz/mygeekdb/viewmodel/MovieViewModel.kt:30-92 | `movies` becomes the posted list, or keeps its value when nothing is posted; search results are untouched |
| MovieVM.MovieViewModel.ToggleFavorite | app/src/main/java/ie/matlesz/mygeekdb/viewmodel/MovieViewModel.kt:93-102 | `movies` becomes the toggled list, of the same length; an unset list stays unset |
| MovieVM.MovieViewModel.SearchMovies | app/src/main/java/ie/matlesz/mygeekdb/viewmodel/MovieViewModel.kt:107-172 | a request is sent if and only if the query is not blank; a blank query sets the empty list; `movies` is untouched |
| MovieVM.FetchedMoviesAreFresh | app/src/main/java/ie/matlesz/mygeekdb/viewmodel/MovieViewModel.kt:65-76 | every fetched movie has no thumbs up and is not a favourite |
| MovieVM.ToggleAfterFetch | app/src/main/java/ie/matlesz/mygeekdb/viewmodel/MovieViewModel.kt:93-102 | after a fetch, a toggle marks exactly the movies with that id, and a second toggle undoes it |
| SeriesVM.SeriesViewModel.constructor | app/src/main/java/ie/matlesz/mygeekdb/viewmodel/SeriesViewModel.kt:22-24 | construction fetches the recommendations; search results start unset |
| SeriesVM.SeriesViewModel.FetchSeriesRecommendations | app/src/main/java/ie/matlesz/mygeekdb/viewmodel/SeriesViewModel.kt:29-89 | `series` becomes the posted list, or keeps its value when nothing is posted |
| SeriesVM.SeriesViewModel.ToggleFavorite | app/src/main/java/ie/matlesz/mygeekdb/viewmodel/SeriesViewModel.kt:90-99 | `series` becomes the toggled list, of the same length; an unset list stays unset |
| SeriesVM.SeriesViewModel.SearchSeries | app/src/main/java/ie/matlesz/mygeekdb/viewmodel/SeriesViewModel.kt:104-164 | every query is sent, a blank one too; the answer is posted to `searchResults`; `series` is untouched |
| SeriesVM.FetchedSeriesAreFresh | app/src/main/java/ie/matlesz/mygeekdb/viewmodel/SeriesViewModel.kt:51-75 | every fetched series has no thumbs up, is not a favourite and has an Int id |
| SeriesVM.ToggleAfterFetch | app/src/main/java/ie/matlesz/mygeekdb/viewmodel/SeriesViewModel.kt:90-99 | after a fetch, a toggle marks exactly the series with that id, and a second toggle undoes it |
| LegacyMovieVM.MovieFromJson | app/src/main/java/ie/matlesz/mygeekdb/MovieViewModel.kt:64-68 | a missing title or overview reads `"N/A"`; a missing poster path reads `""` |
| LegacyMovieVM.PosterPathIsRaw | app/src/main/java/ie/matlesz/mygeekdb/MovieViewModel.kt:67 | the poster path is the record's text as is, with no base URL and no placeholder |
| LegacyMovieVM.MovieViewModel.constructor | app/src/main/java/ie/matlesz/mygeekdb/MovieViewModel.kt:28-30 | construction fetches the recommendations |
| LegacyMovieVM.MovieViewModel.FetchMovieRecommendations | app/src/main/java/ie/matlesz/mygeekdb/MovieViewModel.kt:40-82 | `movies` becomes the posted list, or keeps its value when nothing is posted |
| LegacyMovieVM.FetchedOnePerResult | app/src/main/java/ie/matlesz/mygeekdb/MovieViewModel.kt:62-70 | one movie per result, in order, each with the raw poster path |
| LegacySeriesVM.SeriesFromJson | app/src/main/java/ie/matlesz/mygeekdb/SeriesViewModel.kt:52-60 | a missing name or overview reads `"N/A"`; the placeholder is used if and only if the poster path is empty |
| LegacySeriesVM.SeriesViewModel.constructor | app/src/main/java/ie/matlesz/mygeekdb/SeriesViewModel.kt:25-27 | construction fetches the recommendations |
| LegacySeriesVM.SeriesViewModel.FetchSeriesRecommendations | app/src/main/java/ie/matlesz/mygeekdb/SeriesViewModel.kt:29-74 | `series` becomes the posted list, or keeps its value when nothing is posted |
| LegacySeriesVM.FetchedOnePerResult | app/src/main/java/ie/matlesz/mygeekdb/SeriesViewModel.kt:50-62 | one series per result, in order, each titled from `"name"` |

## Left out

- **HTTP.** Request building and execution are not modelled: the URLs, the
  bearer header, the query interpolated into the URL, OkHttp. Each request
  is a `Tmdb.Response` parameter.
- **Threading.** `viewModelScope.launch(Dispatchers.IO)` and
  `postValue` are modelled as a method that assigns the field at once.
  Interleavings of concurrent fetches and toggles are not modelled.
- **Logging.** `Log.d` and `Log.e` calls are left out. They change no
  state.
- **JSON parsing.** Parsing text into JSON values belongs to the org.json
  library. The model starts from the parsed value. A body that is not
  JSON is `Payload(None)`.
- Text.ParseDecimal, Json.OptInt, Json.OptDouble: numeric text is read only
  when it is an optional sign and decimal digits. `Double.parseDouble` also
  accepts fractions, exponents, surrounding whitespace, `NaN`, `Infinity`,
  the type suffixes `d`, `D`, `f` and `F` (`"12d"`) and hexadecimal floats
  (`"0x1p3"`). The model falls back for those.
- **Floating point.** `voteAverage` and `popularity` are exact `real`s.
  Rounding a Long above 2^53 to a double is not modelled, because nothing
  computes with these values.
- **`shown` text.** The library's `toString` text of a double, an array
  or an object is carried as data, not computed.
- **Missing members.** `isFavorite`, `favorites` and `removeFavorite`
  are called from `views/HomePage.kt` but defined in none of the
  view-models. They are not part of this model.
- **Other files.** The user, login and splash view-models, Firebase
  authentication and storage, and every Compose screen are not part of
  this model.
