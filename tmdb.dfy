/** What every fetch in the view-models does with a TMDB answer: the
    poster-URL rule, and the handler that walks the `results` array of a
    successful answer and builds one item per record, in order. The HTTP
    exchange itself is an input: the answer the server would give. */
module Tmdb {
  import opened Wrappers
  import opened Json

  const Https: string := "https://"
  const AndroidResource: string := "android.resource://"
  const ImageBaseUrl: string := Https + "image.tmdb.org/t/p/w500"
  const PlaceholderImage: string := AndroidResource + "ie.matlesz.mygeekdb/drawable/placeholder_image"

  /** The poster of an item: a non-empty poster path is appended to the
      image base URL, an empty one is replaced by the bundled placeholder. */
  function PosterUrl(path: string): (url: string)
    ensures |path| > 0 ==> |url| == |ImageBaseUrl| + |path| && url[..|ImageBaseUrl|] == ImageBaseUrl && url[|ImageBaseUrl|..] == path
    ensures |path| == 0 ==> url == PlaceholderImage
  {
    if |path| > 0 then ImageBaseUrl + path else PlaceholderImage
  }

  /** The placeholder appears exactly for an empty poster path. */
  lemma PosterUrlIsPlaceholderIff(path: string)
    ensures PosterUrl(path) == PlaceholderImage <==> path == ""
  {
    if |path| > 0 {
      assert PosterUrl(path)[0] == ImageBaseUrl[0] == Https[0];
      assert PlaceholderImage[0] == AndroidResource[0];
    }
  }

  /** Distinct poster paths give distinct poster URLs. */
  lemma PosterUrlInjective(p: string, q: string)
    requires p != q
    ensures PosterUrl(p) != PosterUrl(q)
  {
    PosterUrlIsPlaceholderIff(p);
    PosterUrlIsPlaceholderIff(q);
    if |p| > 0 && |q| > 0 {
      var n := |ImageBaseUrl|;
      assert PosterUrl(p)[n..] == p;
      assert PosterUrl(q)[n..] == q;
    }
  }

  /** The body of an HTTP answer: absent, or text that either parses as
      JSON (Some) or does not (None). */
  datatype Body = NoBody | Payload(document: Option<JValue>)

  /** The outcome of executing a request: it threw before any answer
      (no connection, a time-out), or the server answered with a status. */
  datatype Response = Unreachable | Answered(code: int, body: Body)

  /** OkHttp's Response.isSuccessful. */
  predicate IsSuccessful(code: int) {
    200 <= code < 300
  }

  /** The JSON object of a successful answer. Every other outcome ends in a
      log line, or in an exception the handler catches, and posts nothing:
      an unsuccessful status, no body, text that is not JSON, or JSON that
      is not an object (JSONObject's constructor throws). */
  function RootObject(response: Response): Option<Record> {
    match response
    case Answered(code, Payload(Some(JObject(root, _)))) =>
      if IsSuccessful(code) then Some(root) else None
    case _ => None
  }

  predicate AllRecords(items: seq<JValue>) {
    forall k :: 0 <= k < |items| ==> items[k].JObject?
  }

  /** The list the loop over `results` builds: one item per element, in
      order, or None when some element is not an object (getJSONObject
      throws, and the list built so far is dropped). */
  function Collected<T>(items: seq<JValue>, build: Record -> T): (r: Option<seq<T>>)
    ensures r.Some? <==> AllRecords(items)
    ensures r.Some? ==> |r.value| == |items|
    ensures r.Some? ==> forall k :: 0 <= k < |items| ==> r.value[k] == build(items[k].fields)
    decreases |items|
  {
    if items == [] then Some([])
    else
      var last := items[|items| - 1];
      match Collected(items[..|items| - 1], build)
      case None => None
      case Some(prefix) =>
        if last.JObject? then Some(prefix + [build(last.fields)]) else None
  }

  /** The `for (i in 0 until results.length())` loop: fetch element i as an
      object, build its item and append it to the mutable list. */
  method Collect<T>(items: seq<JValue>, build: Record -> T) returns (list: Option<seq<T>>)
    ensures list == Collected(items, build)
  {
    var built: seq<T> := [];
    var i := 0;
    while i < |items|
      invariant 0 <= i <= |items|
      invariant Collected(items[..i], build) == Some(built)
    {
      assert items[..i + 1][..i] == items[..i];
      if !items[i].JObject? {
        assert !AllRecords(items);
        return None;
      }
      built := built + [build(items[i].fields)];
      i := i + 1;
    }
    assert items[..i] == items;
    return Some(built);
  }

  /** The list a fetch hands to its LiveData field, or None when it posts
      nothing. A successful object without a `results` array still posts
      the empty list. */
  function Fetched<T>(response: Response, build: Record -> T): (r: Option<seq<T>>)
    ensures RootObject(response).None? ==> r.None?
    ensures RootObject(response).Some? && OptArray(RootObject(response).value, "results").None? ==> r == Some([])
    ensures r.Some? && OptArray(RootObject(response).value, "results").Some? ==>
      |r.value| == |OptArray(RootObject(response).value, "results").value|
  {
    match RootObject(response)
    case None => None
    case Some(root) =>
      match OptArray(root, "results")
      case None => Some([])
      case Some(items) => Collected(items, build)
  }

  /** The handler run on the IO dispatcher: check the status and the body,
      parse the root object, find `results`, loop over it. */
  method Fetch<T>(response: Response, build: Record -> T) returns (posted: Option<seq<T>>)
    ensures posted == Fetched(response, build)
  {
    if !response.Answered? || !IsSuccessful(response.code) {
      return None;
    }
    if !response.body.Payload? || response.body.document.None? || !response.body.document.value.JObject? {
      return None;
    }
    var root := response.body.document.value.fields;
    var results := OptArray(root, "results");
    if results.None? {
      return Some([]);
    }
    posted := Collect(results.value, build);
  }

  /** A fetch posts exactly when the server answered successfully with a
      JSON object whose `results`, if it is an array, holds only objects. */
  lemma FetchedPostsIff<T>(response: Response, build: Record -> T)
    ensures Fetched(response, build).Some? <==>
      RootObject(response).Some? &&
      (OptArray(RootObject(response).value, "results").Some? ==>
         AllRecords(OptArray(RootObject(response).value, "results").value))
  {
  }

  /** An unsuccessful status, a missing body or a failed request posts
      nothing: the field keeps what it held. */
  lemma FetchedNothingOnFailure<T>(response: Response, build: Record -> T)
    requires response.Unreachable? || !IsSuccessful(response.code) || response.body.NoBody?
    ensures Fetched(response, build) == None
  {
  }

  /** A successful object without a `results` array posts the empty list. */
  lemma FetchedEmptyWithoutResults<T>(response: Response, build: Record -> T)
    requires RootObject(response).Some?
    requires "results" !in RootObject(response).value || !RootObject(response).value["results"].JArray?
    ensures Fetched(response, build) == Some([])
  {
  }

  /** With a `results` array of objects, the posted list has one item per
      element, built from that element, in array order. */
  lemma FetchedOnePerResult<T>(response: Response, build: Record -> T, items: seq<JValue>)
    requires RootObject(response).Some?
    requires OptArray(RootObject(response).value, "results") == Some(items)
    requires AllRecords(items)
    ensures Fetched(response, build).Some?
    ensures |Fetched(response, build).value| == |items|
    ensures forall k :: 0 <= k < |items| ==> Fetched(response, build).value[k] == build(items[k].fields)
  {
  }
}
