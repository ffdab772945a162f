/**
 * The access-token cache of src/main/achievement/tokenHandler.ts. The clock,
 * the parsing of expiration strings into instants and the network are oracles:
 * `now` and `instant` are milliseconds since the epoch, and `fetch` answers each
 * request.
 */
module TokenHandler {
  import opened Wrappers
  import opened Text
  import opened Api
  import opened Models

  /** The module-level `tokens` record; `None` is null or undefined. */
  datatype Tokens = Tokens(
    accessToken: Option<string>,
    refreshToken: Option<string>,
    accessTokenExpiration: Option<string>,
    refreshTokenExpiration: Option<string>)

  const EmptyTokens: Tokens := Tokens(None, None, None, None)

  /** What `AppSettingsManager.getInstance()` supplies. */
  datatype AppSettings = AppSettings(apiUrl: string, clientId: string, clientSecret: string)

  /** The path `getActiveTokens` takes. */
  datatype TokenPath = UseCached | Refresh(token: string) | Credentials

  /** `isNullOrWhiteSpace` on a cache field. */
  predicate IsBlankField(s: Option<string>) {
    s.None? || IsBlank(s.value)
  }

  /**
   * `!isNullOrWhiteSpace(token) && !isNullOrWhiteSpace(expiration) && new Date() < new Date(expiration)`:
   * an expiration that does not parse is an invalid date, with which `<` is false.
   */
  predicate Unexpired(token: Option<string>, expiration: Option<string>, now: int, instant: string -> Option<int>) {
    !IsBlankField(token) && !IsBlankField(expiration)
    && instant(expiration.value).Some? && now < instant(expiration.value).value
  }

  function ChoosePath(t: Tokens, now: int, instant: string -> Option<int>): (p: TokenPath)
    ensures p == UseCached <==> Unexpired(t.accessToken, t.accessTokenExpiration, now, instant)
    ensures p.Refresh? <==> !Unexpired(t.accessToken, t.accessTokenExpiration, now, instant)
                            && Unexpired(t.refreshToken, t.refreshTokenExpiration, now, instant)
    ensures p.Refresh? ==> Some(p.token) == t.refreshToken
  {
    if Unexpired(t.accessToken, t.accessTokenExpiration, now, instant) then UseCached
    else if Unexpired(t.refreshToken, t.refreshTokenExpiration, now, instant) then Refresh(t.refreshToken.value)
    else Credentials
  }

  const JsonHeaders: seq<(string, string)> := [("Accept", "application/json"), ("Content-Type", "application/json")]

  /** The request `getToken(email, password)` sends: the e-mail goes as `userName`. */
  function TokenRequest(settings: AppSettings, email: string, password: string): Request {
    Request(settings.apiUrl + "/ttw/token", "POST", JsonHeaders, Some([("userName", email), ("password", password)]))
  }

  /** The request `refreshToken(token)` sends: the refresh token as bearer, the client credentials as body. */
  function RefreshRequest(settings: AppSettings, token: string): Request {
    Request(settings.apiUrl + "/ttw/refresh", "POST", JsonHeaders + [("Authorization", "Bearer " + token)],
      Some([("clientId", settings.clientId), ("clientSecret", settings.clientSecret)]))
  }

  /** A property of the token response; a missing one reads as undefined. */
  function Field(b: JsonBody, name: string): Option<string> {
    if name in b.fields then Some(b.fields[name]) else None
  }

  /** The four cache fields as the response gives them. */
  function TokensOf(b: JsonBody): (t: Tokens)
    ensures t.accessToken == Field(b, "accessToken") && t.refreshToken == Field(b, "refreshToken")
    ensures t.accessTokenExpiration == Field(b, "accessTokenExpiration")
    ensures t.refreshTokenExpiration == Field(b, "refreshTokenExpiration")
  {
    Tokens(Field(b, "accessToken"), Field(b, "refreshToken"), Field(b, "accessTokenExpiration"), Field(b, "refreshTokenExpiration"))
  }

  /** The request the chosen path sends, if any; the credential path reads the configuration first. */
  function RequestFor(p: TokenPath, settings: AppSettings, achievement: Result<AchievementConfig>): (r: Option<Result<Request>>)
    ensures p == UseCached <==> r.None?
  {
    match p
    case UseCached => None
    case Refresh(token) => Some(Ok(RefreshRequest(settings, token)))
    case Credentials =>
      match achievement
      case Err(e) => Some(Err(e))
      case Ok(a) => Some(Ok(TokenRequest(settings, a.email, a.password)))
  }

  /** The cache starts empty, so the first call always authenticates with the configured credentials. */
  lemma FirstCallUsesCredentials(now: int, instant: string -> Option<int>)
    ensures ChoosePath(EmptyTokens, now, instant) == Credentials
  {
  }

  /** An expiration equal to now counts as expired, for both tokens. */
  lemma ExpiryIsStrict(t: Tokens, now: int, instant: string -> Option<int>)
    requires t.accessTokenExpiration.Some? && instant(t.accessTokenExpiration.value) == Some(now)
    requires t.refreshTokenExpiration.Some? && instant(t.refreshTokenExpiration.value) == Some(now)
    ensures ChoosePath(t, now, instant) == Credentials
  {
  }

  /** Tokens with a later expiration stay usable for as long as a cached token is. */
  lemma CachedStaysCached(t: Tokens, earlier: int, now: int, instant: string -> Option<int>)
    requires earlier <= now && ChoosePath(t, now, instant) == UseCached
    ensures ChoosePath(t, earlier, instant) == UseCached
  {
  }

  /** A response with a usable access token makes the next call before its expiration reuse the cache. */
  lemma ReplyIsReused(b: JsonBody, later: int, instant: string -> Option<int>)
    requires !IsBlankField(Field(b, "accessToken")) && !IsBlankField(Field(b, "accessTokenExpiration"))
    requires instant(Field(b, "accessTokenExpiration").value).Some?
    requires later < instant(Field(b, "accessTokenExpiration").value).value
    ensures ChoosePath(TokensOf(b), later, instant) == UseCached
  {
  }

  class TokenCache {
    var tokens: Tokens

    constructor()
      ensures tokens == EmptyTokens
    {
      tokens := EmptyTokens;
    }

    /**
     * `getActiveTokens()`: returns the cache, or sends exactly one request (a
     * refresh or a credential call, never both) and copies the four fields of the
     * reply into the cache. A failed call leaves the cache as it was, and a failed
     * refresh does not fall back to the credentials.
     */
    method GetActiveTokens(now: int, instant: string -> Option<int>, settings: AppSettings,
                           achievement: Result<AchievementConfig>, fetch: Request -> FetchOutcome)
      returns (r: Result<Tokens>, sent: seq<Request>)
      modifies this
      ensures var p := ChoosePath(old(tokens), now, instant);
        match RequestFor(p, settings, achievement)
        case None => sent == [] && r == Ok(old(tokens)) && tokens == old(tokens)
        case Some(Err(e)) => sent == [] && r == Err(e) && tokens == old(tokens)
        case Some(Ok(req)) =>
          && sent == [req]
          && match SendRequest(fetch(req))
            case Err(e) => r == Err(e) && tokens == old(tokens)
            case Ok(b) => tokens == TokensOf(b) && r == Ok(tokens)
    {
      var p := ChoosePath(tokens, now, instant);
      var next := RequestFor(p, settings, achievement);
      if next.None? {
        return Ok(tokens), [];
      }
      if next.value.Err? {
        return Err(next.value.message), [];
      }
      var req := next.value.value;
      sent := [req];
      var reply := SendRequest(fetch(req));
      if reply.Err? {
        return Err(reply.message), sent;
      }
      tokens := TokensOf(reply.value);
      r := Ok(tokens);
    }

    /** `tokenHandler.getToken()`: the access token of the cache after `getActiveTokens`. */
    method GetToken(now: int, instant: string -> Option<int>, settings: AppSettings,
                    achievement: Result<AchievementConfig>, fetch: Request -> FetchOutcome)
      returns (r: Result<Option<string>>, sent: seq<Request>)
      modifies this
      ensures r.Ok? ==> r.value == tokens.accessToken
      ensures var p := ChoosePath(old(tokens), now, instant);
        match RequestFor(p, settings, achievement)
        case None => sent == [] && r == Ok(old(tokens).accessToken) && tokens == old(tokens)
        case Some(Err(e)) => sent == [] && r == Err(e) && tokens == old(tokens)
        case Some(Ok(req)) =>
          && sent == [req]
          && match SendRequest(fetch(req))
            case Err(e) => r == Err(e) && tokens == old(tokens)
            case Ok(b) => tokens == TokensOf(b) && r == Ok(Field(b, "accessToken"))
    {
      var active;
      active, sent := GetActiveTokens(now, instant, settings, achievement, fetch);
      if active.Err? {
        return Err(active.message), sent;
      }
      r := Ok(active.value.accessToken);
    }
  }
}
