/**
 * The redirect URLs the auth module sends a browser back to: an `error`
 * query parameter after a failed sign-in, and the `/auth` path with the
 * session token after a successful one.
 *
 * A `URL` is its prefix, path, query parameters and fragment; the query is
 * written as the `application/x-www-form-urlencoded` serialisation of the
 * parameter list, as `URLSearchParams` does once it has been changed.
 */
module AuthRedirect {
  import opened Wrappers
  import opened JsValues
  import opened AppErrors
  import opened ParseErrors
  import opened AiHelpers
  import opened UrlEncoding

  /** One `name=value` pair of a serialised query. */
  function Pair(p: (string, string)): (r: string)
    ensures '&' !in r
  {
    NoDelimiters(p.0);
    NoDelimiters(p.1);
    FormEncode(p.0) + "=" + FormEncode(p.1)
  }

  function Pairs(params: seq<(string, string)>): (r: seq<string>)
    ensures |r| == |params| && forall i :: 0 <= i < |params| ==> r[i] == Pair(params[i])
  {
    seq(|params|, i requires 0 <= i < |params| => Pair(params[i]))
  }

  /** `URLSearchParams.toString()`: the pairs joined by `&`. */
  function Serialize(params: seq<(string, string)>): string {
    Join(Pairs(params), "&")
  }

  /** Every parameter stays a parameter of its own: splitting the query on `&` gives one pair per parameter. */
  lemma {:induction false} SerializeSplits(params: seq<(string, string)>)
    requires params != []
    ensures SplitOn(Serialize(params), '&') == Pairs(params)
  {
    SplitJoin(Pairs(params), '&');
  }

  /** A URL whose path and query the helpers change in place. */
  class Url {
    /** Everything before the path: scheme, user info, host and port, as serialised (not the WHATWG `origin`, which drops the user info). */
    var prefix: string
    var pathname: string
    var searchParams: seq<(string, string)>
    var hash: string

    constructor(prefix: string, pathname: string, searchParams: seq<(string, string)>, hash: string)
      ensures this.prefix == prefix && this.pathname == pathname
      ensures this.searchParams == searchParams && this.hash == hash
    {
      this.prefix := prefix;
      this.pathname := pathname;
      this.searchParams := searchParams;
      this.hash := hash;
    }

    /** `url.toString()` */
    function Href(): string
      reads this
    {
      prefix + pathname + (if searchParams == [] then "" else "?" + Serialize(searchParams)) + hash
    }
  }

  /** The `error` value a failed sign-in reports. */
  function AuthErrorCode(error: Caught): (r: string)
    ensures r == "session_expired" <==> error.App? && error.e.typ == Str("NOT_FOUND")
    ensures r == "invalid_request" <==> error.App? && error.e.typ == Str("BAD_REQUEST")
    ensures r == "auth_failed" <==> !(error.App? && error.e.typ in {Str("NOT_FOUND"), Str("BAD_REQUEST")})
  {
    match error
    case App(e) =>
      if e.typ == Str("NOT_FOUND") then "session_expired"
      else if e.typ == Str("BAD_REQUEST") then "invalid_request"
      else "auth_failed"
    case Value(_) => "auth_failed"
  }

  /** `appendErrorToRedirectUrl(error, redirectUrl)`: one `error` parameter goes on the end; nothing else changes. */
  method AppendErrorToRedirectUrl(error: Caught, redirectUrl: Url)
    modifies redirectUrl
    ensures redirectUrl.searchParams == old(redirectUrl.searchParams) + [("error", AuthErrorCode(error))]
    ensures redirectUrl.prefix == old(redirectUrl.prefix) && redirectUrl.pathname == old(redirectUrl.pathname)
    ensures redirectUrl.hash == old(redirectUrl.hash)
  {
    var code: string;
    match error {
      case App(e) =>
        if e.typ == Str("NOT_FOUND") {
          code := "session_expired";
        } else if e.typ == Str("BAD_REQUEST") {
          code := "invalid_request";
        } else {
          code := "auth_failed";
        }
      case Value(_) =>
        code := "auth_failed";
    }
    redirectUrl.searchParams := redirectUrl.searchParams + [("error", code)];
  }

  /** The `error` parameter is written as `error=<code>`, with nothing escaped. */
  lemma {:induction false} ErrorPair(error: Caught)
    ensures Pair(("error", AuthErrorCode(error))) == "error=" + AuthErrorCode(error)
  {
    CodeIsPlain(error);
    PlainPair("error", AuthErrorCode(error));
  }

  /** Appending a parameter appends its pair to the query, after a `&` when there was one before. */
  lemma {:induction false} SerializeSnoc(params: seq<(string, string)>, p: (string, string))
    ensures Serialize(params + [p]) == if params == [] then Pair(p) else Serialize(params) + "&" + Pair(p)
  {
    PairsSnoc(params, p);
    JoinSnoc(Pairs(params), Pair(p), "&");
  }

  lemma {:induction false} PairsSnoc(params: seq<(string, string)>, p: (string, string))
    ensures Pairs(params + [p]) == Pairs(params) + [Pair(p)]
  {
    var l, r := Pairs(params + [p]), Pairs(params) + [Pair(p)];
    assert forall i :: 0 <= i < |l| ==> l[i] == r[i];
  }

  lemma {:induction false} CodeIsPlain(error: Caught)
    ensures Plain("error") && Plain(AuthErrorCode(error))
  {
    var code := AuthErrorCode(error);
    if code == "session_expired" {
      assert Plain("session_expired");
    } else if code == "invalid_request" {
      assert Plain("invalid_request");
    } else {
      assert Plain("auth_failed");
    }
  }

  /** A pair of lower-case words is written as it is. */
  lemma {:induction false} PlainPair(name: string, value: string)
    requires Plain(name) && Plain(value)
    ensures Pair((name, value)) == name + "=" + value
  {
    PlainFormEncode(name);
    PlainFormEncode(value);
  }

  /** `pathname.replace(/\/$/, "")`: at most one `/` at the very end goes. */
  function StripTrailingSlash(p: string): (r: string)
    ensures p != [] && p[|p| - 1] == '/' ==> r + "/" == p
    ensures (p == [] || p[|p| - 1] != '/') ==> r == p
  {
    if p != [] && p[|p| - 1] == '/' then p[..|p| - 1] else p
  }

  /**
   * `getSuccessRedirectUrl(url, authToken)`: the path gets `/auth` in place
   * of a trailing slash, an `authToken` parameter goes on the end, and the
   * result is the new `url.toString()`.
   */
  method GetSuccessRedirectUrl(url: Url, authToken: string) returns (href: string)
    modifies url
    ensures url.pathname == StripTrailingSlash(old(url.pathname)) + "/auth"
    ensures url.searchParams == old(url.searchParams) + [("authToken", authToken)]
    ensures url.prefix == old(url.prefix) && url.hash == old(url.hash)
    ensures href == url.Href()
  {
    url.pathname := StripTrailingSlash(url.pathname) + "/auth";
    url.searchParams := url.searchParams + [("authToken", authToken)];
    href := url.Href();
  }

  /**
   * The success path is the old one with `/auth` added, whether or not it
   * ended in a slash: only that one trailing slash is dropped.
   */
  lemma {:induction false} SuccessPath(p: string)
    requires p == [] || p[|p| - 1] != '/'
    ensures StripTrailingSlash(p + "/") + "/auth" == p + "/auth"
    ensures StripTrailingSlash(p) + "/auth" == p + "/auth"
  {
    assert (p + "/")[..|p|] == p;
  }

  /** The token comes back out of the success URL's query: the last pair is `authToken=` and the encoded token, which decodes to the token. */
  lemma {:induction false} TokenRecoverable(params: seq<(string, string)>, authToken: string)
    ensures var ps := params + [("authToken", authToken)];
      SplitOn(Serialize(ps), '&') == Pairs(params) + [FormEncode("authToken") + "=" + FormEncode(authToken)] &&
      Decode(FormEncode(authToken), Form) == Some(authToken)
  {
    var ps := params + [("authToken", authToken)];
    SerializeSplits(ps);
    PairsSnoc(params, ("authToken", authToken));
    EncodeRoundTrip(authToken);
  }
}
