/** The catalogue client's string building: image URLs with their placeholder,
    the query of every API request (the key first, then the call's parameters
    in order) and the path and parameters of each endpoint wrapper. */
module Tmdb {
  import opened Media
  import opened Decimal

  const ImageBaseUrl := "https://image.tmdb.org/t/p"
  const PlaceholderImage := "/placeholder-movie.jpg"
  const DefaultApiBaseUrl := "https://api.themoviedb.org/3"

  /** `!value`: a null or empty string (an image path or a configured setting). */
  predicate NullOrEmpty(value: Option<string>) {
    value.None? || value.value == ""
  }

  /** The image URL of `path` at `size`, or the placeholder when there is no path. */
  function GetImageUrl(path: Option<string>, size: string := "original"): (url: string)
    ensures url == PlaceholderImage <==> NullOrEmpty(path)
    ensures !NullOrEmpty(path) ==> url == ImageBaseUrl + "/" + size + path.value
  {
    if NullOrEmpty(path) then PlaceholderImage
    else
      var url := ImageBaseUrl + "/" + size + path.value;
      assert url[0] == 'h' != PlaceholderImage[0];
      url
  }

  /** Recovers the image path from a URL built for `size`. */
  function ImagePathOf(url: string, size: string): Option<string> {
    var prefix := ImageBaseUrl + "/" + size;
    if |url| > |prefix| && url[..|prefix|] == prefix then Some(url[|prefix|..]) else None
  }

  /** The path can be read back from every image URL, and the placeholder is
      never mistaken for an image: different paths give different URLs. */
  lemma ImageUrlRoundTrip(path: Option<string>, size: string)
    ensures ImagePathOf(GetImageUrl(path, size), size) == if NullOrEmpty(path) then None else path
  {
    var prefix := ImageBaseUrl + "/" + size;
    if !NullOrEmpty(path) {
      assert GetImageUrl(path, size) == prefix + path.value;
      assert (prefix + path.value)[..|prefix|] == prefix;
      assert (prefix + path.value)[|prefix|..] == path.value;
    }
  }

  /** The 500-pixel-wide poster of `path`. */
  function GetPosterUrl(path: Option<string>): (url: string)
    ensures url == PlaceholderImage <==> NullOrEmpty(path)
    ensures ImagePathOf(url, "w500") == if NullOrEmpty(path) then None else path
  {
    ImageUrlRoundTrip(path, "w500");
    GetImageUrl(path, "w500")
  }

  /** The full-size backdrop of `path`. */
  function GetBackdropUrl(path: Option<string>): (url: string)
    ensures url == PlaceholderImage <==> NullOrEmpty(path)
    ensures ImagePathOf(url, "original") == if NullOrEmpty(path) then None else path
  {
    ImageUrlRoundTrip(path, "original");
    GetImageUrl(path, "original")
  }

  /** `process.env.NEXT_PUBLIC_TMDB_BASE_URL || 'https://api.themoviedb.org/3'`. */
  function ApiBaseUrl(configured: Option<string>): (base: string)
    ensures NullOrEmpty(configured) ==> base == DefaultApiBaseUrl
    ensures !NullOrEmpty(configured) ==> base == configured.value
  {
    if NullOrEmpty(configured) then DefaultApiBaseUrl else configured.value
  }

  /** One `name=value` pair of a query string, before encoding. */
  type Param = (string, string)

  /** A request URL: the address of the endpoint and its query pairs in order. */
  datatype Url = Url(address: string, query: seq<Param>)

  /** `URLSearchParams.get`: the value of the first pair with that name. */
  function Lookup(query: seq<Param>, name: string): (r: Option<string>)
    ensures r.Some? ==> exists i :: 0 <= i < |query| && query[i] == (name, r.value)
    ensures r.None? ==> forall i :: 0 <= i < |query| ==> query[i].0 != name
  {
    if query == [] then None
    else if query[0].0 == name then Some(query[0].1)
    else
      var r := Lookup(query[1..], name);
      assert forall i :: 1 <= i < |query| ==> query[i] == query[1..][i - 1];
      r
  }

  /** `buildUrl`: the API key goes first (empty when none is configured), then
      each parameter in the order the call lists them. */
  method BuildUrl(baseUrl: string, apiKey: Option<string>, endpoint: string, params: Option<seq<Param>>)
    returns (url: Url)
    ensures url.address == baseUrl + endpoint
    ensures url.query == [("api_key", if apiKey.Some? then apiKey.value else "")]
                         + (if params.Some? then params.value else [])
    ensures Lookup(url.query, "api_key") == Some(if apiKey.Some? then apiKey.value else "")
  {
    var query := [("api_key", if apiKey.Some? then apiKey.value else "")];
    if params.Some? {
      var entries := params.value;
      var i := 0;
      while i < |entries|
        invariant 0 <= i <= |entries|
        invariant query == [("api_key", if apiKey.Some? then apiKey.value else "")] + entries[..i]
      {
        query := query + [entries[i]];
        i := i + 1;
        assert entries[..i] == entries[..i - 1] + [entries[i - 1]];
      }
      assert entries[..i] == entries;
    }
    url := Url(baseUrl + endpoint, query);
  }

  datatype TimeWindow = Day | Week

  function WindowName(window: TimeWindow): string {
    match window
    case Day => "day"
    case Week => "week"
  }

  /** The catalogue calls, with the defaults of the wrappers that take them. */
  datatype Endpoint =
    | TrendingMovies(window: TimeWindow := Week)
    | TrendingTvShows(window: TimeWindow := Week)
    | PopularMovies(page: int := 1)
    | TopRatedMovies(page: int := 1)
    | UpcomingMovies(page: int := 1)
    | NowPlayingMovies(page: int := 1)
    | MoviesByGenre(genreId: int, page: int := 1)
    | SearchMovies(text: string, page: int := 1)
    | MovieDetails(movieId: int)
    | MovieVideos(movieId: int)
    | MovieGenres
    | PopularTvShows(page: int := 1)
    | TopRatedTvShows(page: int := 1)
    | AiringTodayTvShows(page: int := 1)
    | OnTheAirTvShows(page: int := 1)
    | TvShowDetails(tvId: int)
    | TvShowVideos(tvId: int)

  /** The endpoint path and the parameters a wrapper hands to the fetch helper. */
  datatype Request = Request(endpoint: string, params: Option<seq<Param>>)

  const DetailsAppend: Param := ("append_to_response", "videos,credits")

  function PageParam(page: int): Param {
    ("page", IntToString(page))
  }

  function RequestOf(e: Endpoint): Request {
    match e
    case TrendingMovies(w) => Request("/trending/movie/" + WindowName(w), None)
    case TrendingTvShows(w) => Request("/trending/tv/" + WindowName(w), None)
    case PopularMovies(p) => Request("/movie/popular", Some([PageParam(p)]))
    case TopRatedMovies(p) => Request("/movie/top_rated", Some([PageParam(p)]))
    case UpcomingMovies(p) => Request("/movie/upcoming", Some([PageParam(p)]))
    case NowPlayingMovies(p) => Request("/movie/now_playing", Some([PageParam(p)]))
    case MoviesByGenre(g, p) => Request("/discover/movie", Some([("with_genres", IntToString(g)), PageParam(p)]))
    case SearchMovies(q, p) => Request("/search/movie", Some([("query", q), PageParam(p)]))
    case MovieDetails(id) => Request("/movie/" + IntToString(id), Some([DetailsAppend]))
    case MovieVideos(id) => Request("/movie/" + IntToString(id) + "/videos", None)
    case MovieGenres => Request("/genre/movie/list", None)
    case PopularTvShows(p) => Request("/tv/popular", Some([PageParam(p)]))
    case TopRatedTvShows(p) => Request("/tv/top_rated", Some([PageParam(p)]))
    case AiringTodayTvShows(p) => Request("/tv/airing_today", Some([PageParam(p)]))
    case OnTheAirTvShows(p) => Request("/tv/on_the_air", Some([PageParam(p)]))
    case TvShowDetails(id) => Request("/tv/" + IntToString(id), Some([DetailsAppend]))
    case TvShowVideos(id) => Request("/tv/" + IntToString(id) + "/videos", None)
  }

  predicate IsPaged(e: Endpoint) {
    e.PopularMovies? || e.TopRatedMovies? || e.UpcomingMovies? || e.NowPlayingMovies?
    || e.MoviesByGenre? || e.SearchMovies?
    || e.PopularTvShows? || e.TopRatedTvShows? || e.AiringTodayTvShows? || e.OnTheAirTvShows?
  }

  /** Every paged call sends its page as a decimal string that reads back as the page. */
  lemma PagedRequestsSendPage(e: Endpoint)
    requires IsPaged(e)
    ensures RequestOf(e).params.Some?
    ensures Lookup(RequestOf(e).params.value, "page") == Some(IntToString(e.page))
    ensures IsIntString(IntToString(e.page)) && ParseInt(IntToString(e.page)) == e.page
  {
    IntToStringRoundTrip(e.page);
  }

  /** The URL an endpoint is fetched from, given the configured base URL and
      key: the address falls back to the public API when no base URL is set,
      the query starts with the API key, a paged call carries its page under
      `page`, and both detail calls ask for the videos and the credits in the
      same response. */
  method EndpointUrl(e: Endpoint, configured: Option<string>, apiKey: Option<string>) returns (url: Url)
    ensures url.address == ApiBaseUrl(configured) + RequestOf(e).endpoint
    ensures NullOrEmpty(configured) ==> url.address == DefaultApiBaseUrl + RequestOf(e).endpoint
    ensures !NullOrEmpty(configured) ==> url.address == configured.value + RequestOf(e).endpoint
    ensures |url.query| >= 1 && url.query[0] == ("api_key", if apiKey.Some? then apiKey.value else "")
    ensures IsPaged(e) ==> Lookup(url.query, "page") == Some(IntToString(e.page))
    ensures e.SearchMovies? ==> Lookup(url.query, "query") == Some(e.text)
    ensures e.MovieDetails? || e.TvShowDetails? ==>
      url.query[1..] == [("append_to_response", "videos,credits")]
  {
    var request := RequestOf(e);
    url := BuildUrl(ApiBaseUrl(configured), apiKey, request.endpoint, request.params);
    if IsPaged(e) {
      PagedRequestsSendPage(e);
    }
    if request.params.Some? {
      assert url.query[1..] == request.params.value;
    }
  }
}
