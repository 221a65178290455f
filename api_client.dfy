/** The client's request interceptor: before each request it reads the
    stored session and, when that holds a token, sets the `Authorization`
    header to `Bearer <token>` on the outgoing request configuration, which
    it changes in place and hands on. */
module Api {

  import opened Common
  import opened AuthMiddleware

  /** `JSON.parse(localStorage.getItem('user'))` when something is stored:
      the session's token, "" when it has none. */
  datatype Session = Session(token: string)

  const AuthorizationKey := "Authorization"

  /** The header value the interceptor builds. */
  function BearerHeader(token: string): (v: string)
    ensures |v| == |Scheme| + 1 + |token| && v[|Scheme|] == ' '
    ensures v[..|Scheme|] == Scheme && v[|Scheme| + 1..] == token
  {
    Scheme + " " + token
  }

  /** The guard recovers from the built header exactly the token that went in,
      for any non-empty token without spaces. */
  lemma BearerRoundTrip(token: string)
    requires token != "" && ' ' !in token
    ensures ExtractToken(Some(BearerHeader(token))) == Some(token)
  {
    ExtractBearer(token);
  }

  /** Whether the interceptor writes a header for the stored session. */
  predicate HasToken(stored: Option<Session>) {
    stored.Some? && stored.value.token != ""
  }

  /** An outgoing request configuration. */
  class RequestConfig {
    var url: string
    var data: string
    var headers: map<string, string>

    constructor (url: string, data: string, headers: map<string, string>)
      ensures this.url == url && this.data == data && this.headers == headers
    {
      this.url := url;
      this.data := data;
      this.headers := headers;
    }

    /** The interceptor: with a token, `headers.Authorization` becomes the
        bearer header (any previous value replaced); without one the headers
        stay as they were; nothing else in the configuration changes. */
    method Intercept(stored: Option<Session>)
      modifies this
      ensures url == old(url) && data == old(data)
      ensures HasToken(stored) ==> headers == old(headers)[AuthorizationKey := BearerHeader(stored.value.token)]
      ensures !HasToken(stored) ==> headers == old(headers)
    {
      if stored.Some? && stored.value.token != "" {
        headers := headers[AuthorizationKey := BearerHeader(stored.value.token)];
      }
    }
  }
}
