/** The movie-database client's string helpers: poster image URLs and the
    ordered query-parameter list every request carries. */
module TmdbService {
  import opened Common

  const ImageBaseUrl := "https://image.tmdb.org/t/p"
  const Language := "ru-RU"
  const SearchEndpoint := "/search/multi"

  /** The poster widths the image server offers. */
  datatype PosterSize = W92 | W154 | W185 | W342 | W500 | W780 | Original

  function SizeName(size: PosterSize): string {
    match size
    case W92 => "w92"
    case W154 => "w154"
    case W185 => "w185"
    case W342 => "w342"
    case W500 => "w500"
    case W780 => "w780"
    case Original => "original"
  }

  /** The part of every poster URL of one size that precedes the path. */
  function PosterPrefix(size: PosterSize): string {
    ImageBaseUrl + "/" + SizeName(size)
  }

  /** `getPosterUrl(path, size = 'w500')`: `''` for a null or empty path. */
  function PosterUrl(path: Option<string>, size: PosterSize := W500): string {
    if path.None? || path.value == "" then "" else PosterPrefix(size) + path.value
  }

  /** Recovers the path from a poster URL of the given size. */
  function PosterPath(url: string, size: PosterSize): Option<string> {
    var prefix := PosterPrefix(size);
    if |prefix| < |url| && url[..|prefix|] == prefix then Some(url[|prefix|..]) else None
  }

  /** A poster URL is non-empty exactly when there is a path, and then it is
      the image server's address, the size and the path, so it ends with the path. */
  lemma PosterUrlShape(path: Option<string>, size: PosterSize)
    ensures PosterUrl(path, size) != "" <==> path.Some? && path.value != ""
    ensures path.Some? && path.value != "" ==>
      var r := PosterUrl(path, size);
      && r == ImageBaseUrl + "/" + SizeName(size) + path.value
      && ImageBaseUrl <= r
      && |path.value| <= |r| && r[|r| - |path.value|..] == path.value
  {
    if path.Some? && path.value != "" {
      var r := PosterUrl(path, size);
      assert r == ImageBaseUrl + ("/" + SizeName(size) + path.value);
      assert r[|r| - |path.value|..] == path.value;
    }
  }

  /** The path can be read back from the URL, so distinct paths give distinct URLs. */
  lemma PosterUrlRoundTrip(path: string, size: PosterSize)
    requires path != ""
    ensures PosterPath(PosterUrl(Some(path), size), size) == Some(path)
  {
    var prefix := PosterPrefix(size);
    var r := PosterUrl(Some(path), size);
    assert r[..|prefix|] == prefix;
    assert r[|prefix|..] == path;
  }

  /** Leaving the size out asks for the 500-pixel width. */
  lemma PosterUrlDefaultSize(path: string)
    requires path != ""
    ensures PosterUrl(Some(path)) == ImageBaseUrl + "/w500" + path
  {
  }

  /** A query parameter: name and value. */
  type Param = (string, string)

  /** The parameter-list construction of `fetchTMDB`: the API key, then the
      language, then the caller's parameters in their given order. */
  method BuildQueryParams(apiKey: Option<string>, params: seq<Param>) returns (query: seq<Param>)
    ensures |query| == |params| + 2
    ensures query[0] == ("api_key", OrEmpty(apiKey))
    ensures query[1] == ("language", Language)
    ensures query[2..] == params
  {
    query := [];
    query := query + [("api_key", OrEmpty(apiKey))];
    query := query + [("language", Language)];
    for i := 0 to |params|
      invariant |query| == i + 2
      invariant query[0] == ("api_key", OrEmpty(apiKey)) && query[1] == ("language", Language)
      invariant query[2..] == params[..i]
    {
      query := query + [params[i]];
    }
  }

  /** `searchMedia(query)`: the search endpoint with exactly one caller parameter. */
  method SearchMedia(apiKey: Option<string>, q: string) returns (endpoint: string, query: seq<Param>)
    ensures endpoint == SearchEndpoint
    ensures query == [("api_key", OrEmpty(apiKey)), ("language", Language), ("query", q)]
  {
    endpoint := SearchEndpoint;
    query := BuildQueryParams(apiKey, [("query", q)]);
  }
}
