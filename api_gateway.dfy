/**
 * `get` and `post` of src/main/achievement/api.ts: each asks the token cache for
 * an access token, then sends one request carrying it as a bearer header. They
 * sit apart from module Api because the token cache itself sends its requests
 * through `sendRequest`.
 */
module ApiGateway {
  import opened Wrappers
  import opened Api
  import opened Models
  import opened TokenHandler

  /** The request `get(path)` sends with the token it was given. */
  function GetRequest(settings: AppSettings, path: string, token: Option<string>): Request {
    Request(settings.apiUrl + "/" + path, "GET", [("Authorization", AuthorizationHeader(token))], None)
  }

  /** The request `post(path, data)` sends with the token it was given. */
  function PostRequest(settings: AppSettings, path: string, data: seq<(string, string)>, token: Option<string>): Request {
    Request(settings.apiUrl + "/" + path, "POST", JsonHeaders + [("Authorization", AuthorizationHeader(token))], Some(data))
  }

  /** The header a request carries is the bearer form of the token, or empty without one. */
  lemma BearerHeaderOfRequests(settings: AppSettings, path: string, data: seq<(string, string)>, token: Option<string>)
    ensures GetRequest(settings, path, token).headers == [("Authorization", AuthorizationHeader(token))]
    ensures PostRequest(settings, path, data, token).headers[2] == ("Authorization", AuthorizationHeader(token))
    ensures token.Some? && token.value != "" ==> AuthorizationHeader(token) == "Bearer " + token.value
    ensures token.None? || token.value == "" ==> AuthorizationHeader(token) == ""
  {
  }

  /**
   * `get(path)`: a failed token request or missing credentials stop before the
   * GET, with that error; otherwise the GET carries the token just obtained
   * and its outcome, success or API error, is the result.
   */
  method Get(cache: TokenCache, path: string, now: int, instant: string -> Option<int>, settings: AppSettings,
             achievement: Result<AchievementConfig>, fetch: Request -> FetchOutcome)
    returns (r: Result<JsonBody>, sent: seq<Request>)
    modifies cache
    ensures var p := ChoosePath(old(cache.tokens), now, instant);
      match RequestFor(p, settings, achievement)
      case None =>
        && cache.tokens == old(cache.tokens) && sent == [GetRequest(settings, path, old(cache.tokens).accessToken)]
        && r == SendRequest(fetch(sent[0]))
      case Some(Err(e)) => cache.tokens == old(cache.tokens) && sent == [] && r == Err(e)
      case Some(Ok(tokenRequest)) =>
        match SendRequest(fetch(tokenRequest))
        case Err(e) => cache.tokens == old(cache.tokens) && sent == [tokenRequest] && r == Err(e)
        case Ok(b) =>
          && cache.tokens == TokensOf(b) && sent == [tokenRequest, GetRequest(settings, path, TokensOf(b).accessToken)]
          && r == SendRequest(fetch(sent[1]))
    ensures ChoosePath(old(cache.tokens), now, instant) == UseCached ==>
      && cache.tokens == old(cache.tokens) && sent == [GetRequest(settings, path, old(cache.tokens).accessToken)]
      && r == SendRequest(fetch(sent[0]))
    ensures |sent| <= 2
  {
    var token, tokenSent := cache.GetToken(now, instant, settings, achievement, fetch);
    if token.Err? {
      return Err(token.message), tokenSent;
    }
    var req := GetRequest(settings, path, token.value);
    sent := tokenSent + [req];
    r := SendRequest(fetch(req));
  }

  /** `post(path, data)`, built the same way with the JSON headers and the data as body. */
  method Post(cache: TokenCache, path: string, data: seq<(string, string)>, now: int, instant: string -> Option<int>,
              settings: AppSettings, achievement: Result<AchievementConfig>, fetch: Request -> FetchOutcome)
    returns (r: Result<JsonBody>, sent: seq<Request>)
    modifies cache
    ensures var p := ChoosePath(old(cache.tokens), now, instant);
      match RequestFor(p, settings, achievement)
      case None =>
        && cache.tokens == old(cache.tokens) && sent == [PostRequest(settings, path, data, old(cache.tokens).accessToken)]
        && r == SendRequest(fetch(sent[0]))
      case Some(Err(e)) => cache.tokens == old(cache.tokens) && sent == [] && r == Err(e)
      case Some(Ok(tokenRequest)) =>
        match SendRequest(fetch(tokenRequest))
        case Err(e) => cache.tokens == old(cache.tokens) && sent == [tokenRequest] && r == Err(e)
        case Ok(b) =>
          && cache.tokens == TokensOf(b) && sent == [tokenRequest, PostRequest(settings, path, data, TokensOf(b).accessToken)]
          && r == SendRequest(fetch(sent[1]))
    ensures ChoosePath(old(cache.tokens), now, instant) == UseCached ==>
      && cache.tokens == old(cache.tokens) && sent == [PostRequest(settings, path, data, old(cache.tokens).accessToken)]
      && r == SendRequest(fetch(sent[0]))
    ensures |sent| <= 2
  {
    var token, tokenSent := cache.GetToken(now, instant, settings, achievement, fetch);
    if token.Err? {
      return Err(token.message), tokenSent;
    }
    var req := PostRequest(settings, path, data, token.value);
    sent := tokenSent + [req];
    r := SendRequest(fetch(req));
  }
}
