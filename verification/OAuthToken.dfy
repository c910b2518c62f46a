/** The OAuth token cache shared by every clone of a configuration. Times are in nanoseconds. */
module OAuthToken {
  import opened Results

  const MARGIN: int := 5 * 60 * 1_000_000_000

  /** The test both checks make: there is a token, and more than the margin is left of it. */
  predicate Fresh(token: string, expiry: int, now: int) {
    token != "" && now < expiry - MARGIN
  }

  predicate FreshAtEither(token: string, expiry: int, firstAt: int, secondAt: int) {
    Fresh(token, expiry, firstAt) || Fresh(token, expiry, secondAt)
  }

  datatype Reply = Granted(token: string, expiry: int) | Refused(error: string)

  datatype Error = NoCache | Provider(error: string)

  class TokenCache {
    var token: string
    var expiry: int

    constructor ()
      ensures token == "" && expiry == 0
    {
      token, expiry := "", 0;
    }
  }

  class Config {
    var oAuthToken: TokenCache?
    var oAuthIssuer: string

    constructor (cache: TokenCache?, issuer: string)
      ensures oAuthToken == cache && oAuthIssuer == issuer
    {
      oAuthToken, oAuthIssuer := cache, issuer;
    }

    /** A shallow copy: the token cache is the same object. */
    method Clone() returns (c: Config)
      ensures fresh(c) && c.oAuthToken == oAuthToken && c.oAuthIssuer == oAuthIssuer
    {
      c := new Config(oAuthToken, oAuthIssuer);
    }

    /** `getOAuthToken` by a caller that nobody interferes with, checking at the two given times. */
    method GetOAuthToken(firstAt: int, secondAt: int, reply: Reply) returns (r: Result<string, Error>)
      modifies if oAuthToken == null then {} else {oAuthToken}
      ensures oAuthToken == null ==> r == Err(NoCache)
      ensures oAuthToken != null && old(FreshAtEither(oAuthToken.token, oAuthToken.expiry, firstAt, secondAt)) ==>
        r == Ok(old(oAuthToken.token)) && unchanged(oAuthToken)
      ensures oAuthToken != null && !old(FreshAtEither(oAuthToken.token, oAuthToken.expiry, firstAt, secondAt)) ==>
        match reply
        case Granted(token, expiry) => r == Ok(token) && oAuthToken.token == token && oAuthToken.expiry == expiry
        case Refused(e) => r == Err(Provider(e)) && unchanged(oAuthToken)
    {
      var cache := oAuthToken;
      if cache == null {
        return Err(NoCache);
      }
      if cache.token != "" && firstAt < cache.expiry - MARGIN {
        return Ok(cache.token);
      }
      if cache.token != "" && secondAt < cache.expiry - MARGIN {
        return Ok(cache.token);
      }
      match reply
      case Refused(e) => return Err(Provider(e));
      case Granted(token, expiry) =>
        cache.token := token;
        cache.expiry := expiry;
        return Ok(cache.token);
    }
  }
}
