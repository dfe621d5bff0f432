/** The callback URL the server prints into its landing pages, and the desktop loopback
    listener that parses the browser's request for it. */
module CallbackUrl {
  import opened Wrappers
  import opened Text
  import opened Utf8

  const MAGIC_LINK_PATH := "/auth/magic-link/callback"
  const OAUTH_PATH := "/auth/oauth/callback"

  datatype Payload =
    | MagicLink(email: string, token: string, baseUrl: string)
    | OAuth(code: string, baseUrl: string)

  datatype ParsedRequest = ParsedRequest(method_: string, origin: Option<string>, payload: Option<Payload>)

  // ---- The server's side

  /** One `name=value` entry of a query string. */
  function Param(name: string, value: string): string { name + "=" + PercentEncode(value) }

  function MagicLinkQuery(email: string, token: string, baseUrl: string): string {
    Param("email", email) + "&" + (Param("token", token) + "&" + Param("baseUrl", baseUrl))
  }

  function OAuthQuery(code: string, baseUrl: string): string {
    Param("code", code) + "&" + Param("baseUrl", baseUrl)
  }

  /** The base URL as the landing pages print it. */
  function PrintedBase(publicBaseUrl: string): string { TrimEndMatches(publicBaseUrl, '/') }

  /** Path and query of the magic-link callback URL. */
  function MagicLinkTarget(email: string, token: string, publicBaseUrl: string): string {
    MAGIC_LINK_PATH + "?" + MagicLinkQuery(email, token, PrintedBase(publicBaseUrl))
  }

  /** Path and query of the OAuth callback URL. */
  function OAuthTarget(code: string, publicBaseUrl: string): string {
    OAUTH_PATH + "?" + OAuthQuery(code, PrintedBase(publicBaseUrl))
  }

  // ---- The desktop's side

  /** `str::split(c)` */
  function Split(s: string, c: char): seq<string>
    decreases |s|
  {
    var i := IndexOf(s, c);
    if i == |s| then [s] else [s[..i]] + Split(s[i + 1..], c)
  }

  /** The value of the first part that has the name and decodes. */
  function FindParam(parts: seq<string>, name: string): Option<string> {
    if parts == [] then None
    else
      var i := IndexOf(parts[0], '=');
      if i < |parts[0]| && parts[0][..i] == name && PercentDecode(parts[0][i + 1..]).Some?
      then PercentDecode(parts[0][i + 1..])
      else FindParam(parts[1..], name)
  }

  /** `query_param` */
  function QueryParam(query: string, name: string): Option<string> { FindParam(Split(query, '&'), name) }

  /** `normalize_base_url` */
  function NormalizeBaseUrl(input: string): Option<string> {
    var base := TrimEndMatches(Trim(input), '/');
    if StartsWith(base, "http://") || StartsWith(base, "https://") then Some(base) else None
  }

  /** `parse_callback_path` */
  function ParseCallbackPath(path: string): Option<Payload> {
    match SplitOnce(path, '?')
    case None => None
    case Some((route, query)) =>
      if route == MAGIC_LINK_PATH then MagicLinkPayload(QueryParam(query, "email"), QueryParam(query, "token"), QueryParam(query, "baseUrl"))
      else if route == OAUTH_PATH then OAuthPayload(QueryParam(query, "code"), QueryParam(query, "baseUrl"))
      else None
  }

  function MagicLinkPayload(email: Option<string>, token: Option<string>, baseUrl: Option<string>): Option<Payload> {
    if email.None? || token.None? || baseUrl.None? || NormalizeBaseUrl(baseUrl.value).None?
       || Trim(email.value) == "" || Trim(token.value) == "" then None
    else Some(MagicLink(Trim(email.value), Trim(token.value), NormalizeBaseUrl(baseUrl.value).value))
  }

  function OAuthPayload(code: Option<string>, baseUrl: Option<string>): Option<Payload> {
    if code.None? || baseUrl.None? || NormalizeBaseUrl(baseUrl.value).None? || Trim(code.value) == "" then None
    else Some(OAuth(Trim(code.value), NormalizeBaseUrl(baseUrl.value).value))
  }

  /** `eq_ignore_ascii_case("origin")` */
  predicate IsOriginKey(key: string) {
    |key| == 6 && Lower(key[0]) == 'o' && Lower(key[1]) == 'r' && Lower(key[2]) == 'i'
    && Lower(key[3]) == 'g' && Lower(key[4]) == 'i' && Lower(key[5]) == 'n'
  }

  function OriginHeader(line: string): Option<string> {
    match SplitOnce(line, ':')
    case None => None
    case Some((key, value)) => if IsOriginKey(key) then Some(TrimEndMatches(Trim(value), '/')) else None
  }

  /** The last `Origin` header among the lines. */
  function LastOrigin(lines: seq<string>): Option<string> {
    if lines == [] then None
    else
      var last := OriginHeader(lines[|lines| - 1]);
      if last.Some? then last else LastOrigin(lines[..|lines| - 1])
  }

  /** Length of the leading run of characters that are no whitespace. */
  function WordEnd(s: string): (i: nat)
    ensures i <= |s|
  {
    if s == "" || IsWhitespace(s[0]) then 0 else 1 + WordEnd(s[1..])
  }

  /** The first two items of `str::split_whitespace`. */
  function FirstTwoWords(line: string): Option<(string, string)> {
    var s := TrimStart(line);
    var t := TrimStart(s[WordEnd(s)..]);
    if s == "" || t == "" then None else Some((s[..WordEnd(s)], t[..WordEnd(t)]))
  }

  /** `parse_request` */
  method ParseRequest(raw: string) returns (r: Option<ParsedRequest>)
    ensures r == Parsed(Lines(raw))
  {
    var lines := Lines(raw);
    if lines == [] {
      return None;
    }
    var first := FirstTwoWords(lines[0]);
    if first.None? {
      return None;
    }
    var origin: Option<string> := None;
    var rest := lines[1..];
    for k := 0 to |rest|
      invariant origin == LastOrigin(rest[..k])
    {
      assert rest[..k + 1][..k] == rest[..k];
      match SplitOnce(rest[k], ':') {
        case None =>
        case Some((key, value)) =>
          if IsOriginKey(key) {
            origin := Some(TrimEndMatches(Trim(value), '/'));
          }
      }
    }
    assert rest[..|rest|] == rest;
    return Some(ParsedRequest(first.value.0, origin, ParseCallbackPath(first.value.1)));
  }

  function Parsed(lines: seq<string>): Option<ParsedRequest> {
    if lines == [] then None
    else
      match FirstTwoWords(lines[0])
      case None => None
      case Some((m, path)) => Some(ParsedRequest(m, LastOrigin(lines[1..]), ParseCallbackPath(path)))
  }

  /** Position of the first `://`, or the length when there is none. */
  function SchemeEnd(s: string): (i: nat)
    ensures i <= |s|
    ensures i < |s| ==> i + 3 <= |s|
  {
    if s == "" then 0
    else if StartsWith(s, "://") then 0
    else
      var k := SchemeEnd(s[1..]);
      1 + k
  }

  /** `origin_from_base_url` */
  function OriginFromBaseUrl(baseUrl: string): Option<string> {
    var i := SchemeEnd(baseUrl);
    if i == |baseUrl| then None
    else
      var rest := baseUrl[i + 3..];
      var host := TrimEndMatches(rest[..IndexOf(rest, '/')], '/');
      if i == 0 || host == "" then None else Some(baseUrl[..i] + "://" + host)
  }

  /** `origin_allowed` */
  predicate OriginAllowed(origin: Option<string>, baseUrl: string) {
    origin.Some? && Trim(origin.value) != ""
    && TrimEndMatches(Trim(origin.value), '/')
       == (if OriginFromBaseUrl(baseUrl).Some? then OriginFromBaseUrl(baseUrl).value else "")
  }

  /** What the loopback server does with a request: drop it without a response, or respond with a
      status and hand a payload to the app. */
  datatype Outcome = Dropped | Responded(status: int, delivered: Option<Payload>)

  /** `handle_connection` after the request text is read. */
  function Handled(raw: string): Outcome {
    match Parsed(Lines(raw))
    case None => Dropped
    case Some(request) =>
      var allowed := request.payload.Some? && OriginAllowed(request.origin, request.payload.value.baseUrl);
      if request.method_ == "OPTIONS" then Responded(if allowed then 204 else 403, None)
      else if request.method_ != "GET" then Responded(405, None)
      else Got(request.origin, request.payload)
  }

  /** The response to a GET request. */
  function Got(origin: Option<string>, payload: Option<Payload>): Outcome {
    if payload.None? then Responded(404, None)
    else if !OriginAllowed(origin, payload.value.baseUrl) then Responded(403, None)
    else Responded(200, payload)
  }

  // ---- Encoded text carries no separator

  predicate IsSeparator(c: char) { c == '&' || c == '=' || c == '?' || c == '\n' || c == '\r' || IsWhitespace(c) }

  ghost predicate Clean(s: string) { forall c :: c in s ==> !IsSeparator(c) }

  lemma EncodedIsClean(s: string)
    ensures Clean(PercentEncode(s))
  {
    PercentEncodedIsSafe(Encode(s));
  }

  lemma SplitFirst(s: string, c: char, rest: string)
    requires c !in s
    ensures Split(s, c) == [s]
    ensures Split(s + [c] + rest, c) == [s] + Split(rest, c)
  {
    var whole := s + [c] + rest;
    assert whole[..|s|] == s && whole[|s| + 1..] == rest;
    IndexOfIs(whole, c, |s|);
    IndexOfIs(s, c, |s|);
  }

  lemma ParamSplit(name: string, value: string)
    requires '=' !in name
    ensures IndexOf(name + "=" + value, '=') == |name|
    ensures (name + "=" + value)[..|name|] == name && (name + "=" + value)[|name| + 1..] == value
  {
    var part := name + "=" + value;
    assert part[..|name|] == name && part[|name| + 1..] == value;
    IndexOfIs(part, '=', |name|);
  }

  /** A list of parameters finds its first entry of a name, or looks further. */
  lemma FindEncoded(name: string, value: string, rest: seq<string>, wanted: string)
    requires '=' !in name
    ensures FindParam([Param(name, value)] + rest, wanted)
         == if name == wanted then Some(value) else FindParam(rest, wanted)
  {
    ParamSplit(name, PercentEncode(value));
    PercentRoundTrip(value);
    var parts := [Param(name, value)] + rest;
    assert parts[1..] == rest;
  }

  /** The part is `name=` and an encoding of `value`. */
  ghost predicate IsParam(part: string, name: string, value: string) {
    exists raw :: part == name + "=" + raw && PercentDecode(raw) == Some(value)
  }

  /** The i-th part is the first that gives the name a value. */
  ghost predicate FirstParam(parts: seq<string>, i: nat, name: string, value: string) {
    i < |parts| && IsParam(parts[i], name, value) && forall k, v :: 0 <= k < i ==> !IsParam(parts[k], name, v)
  }

  lemma ParamOf(part: string, name: string)
    requires '=' !in name
    ensures var i := IndexOf(part, '=');
      forall value :: IsParam(part, name, value)
        <==> i < |part| && part[..i] == name && PercentDecode(part[i + 1..]) == Some(value)
  {
    var i := IndexOf(part, '=');
    forall value | IsParam(part, name, value)
      ensures i < |part| && part[..i] == name && PercentDecode(part[i + 1..]) == Some(value)
    {
      var raw :| part == name + "=" + raw && PercentDecode(raw) == Some(value);
      ParamSplit(name, raw);
    }
    if i < |part| && part[..i] == name { assert part == name + "=" + part[i + 1..]; }
  }

  /** How the first part decides. */
  lemma FindParamHere(parts: seq<string>, name: string)
    requires '=' !in name && parts != []
    ensures forall v :: IsParam(parts[0], name, v) ==> FindParam(parts, name) == Some(v)
    ensures (forall v :: !IsParam(parts[0], name, v)) ==> FindParam(parts, name) == FindParam(parts[1..], name)
  {
    ParamOf(parts[0], name);
    var i := IndexOf(parts[0], '=');
    if i < |parts[0]| && parts[0][..i] == name && PercentDecode(parts[0][i + 1..]).Some? {
      assert IsParam(parts[0], name, PercentDecode(parts[0][i + 1..]).value);
    }
  }

  /** A name's value is that of the first part that has the name and decodes. */
  lemma {:induction false} FindParamIs(parts: seq<string>, name: string, i: nat, value: string)
    requires '=' !in name && FirstParam(parts, i, name, value)
    ensures FindParam(parts, name) == Some(value)
  {
    FindParamHere(parts, name);
    if i > 0 {
      assert FirstParam(parts[1..], i - 1, name, value) by {
        forall k, v | 0 <= k < i - 1 ensures !IsParam(parts[1..][k], name, v) { assert !IsParam(parts[k + 1], name, v); }
      }
      FindParamIs(parts[1..], name, i - 1, value);
    }
  }

  /** There is none if no part has the name and decodes. */
  lemma {:induction false} NoParamNone(parts: seq<string>, name: string)
    requires '=' !in name && forall k, v :: 0 <= k < |parts| ==> !IsParam(parts[k], name, v)
    ensures FindParam(parts, name) == None
  {
    if parts != [] {
      FindParamHere(parts, name);
      forall k, v | 0 <= k < |parts[1..]| ensures !IsParam(parts[1..][k], name, v) { assert !IsParam(parts[k + 1], name, v); }
      NoParamNone(parts[1..], name);
    }
  }

  lemma ParamIsOnePart(name: string, value: string)
    requires '&' !in name
    ensures '&' !in Param(name, value)
  {
    EncodedIsClean(value);
    assert IsSeparator('&');
  }

  lemma MagicLinkSplit(email: string, token: string, baseUrl: string)
    ensures Split(MagicLinkQuery(email, token, baseUrl), '&')
         == [Param("email", email)] + ([Param("token", token)] + [Param("baseUrl", baseUrl)])
  {
    ParamIsOnePart("email", email);
    ParamIsOnePart("token", token);
    ParamIsOnePart("baseUrl", baseUrl);
    SplitThree(Param("email", email), Param("token", token), Param("baseUrl", baseUrl));
  }

  lemma SplitThree(p: string, q: string, r: string)
    requires '&' !in p && '&' !in q && '&' !in r
    ensures Split(p + "&" + (q + "&" + r), '&') == [p] + ([q] + [r])
  {
    SplitFirst(p, '&', q + "&" + r);
    SplitFirst(q, '&', r);
    SplitFirst(r, '&', "");
  }

  lemma FindThree(a: string, x: string, b: string, y: string, c: string, z: string, wanted: string)
    requires '=' !in a && '=' !in b && '=' !in c
    ensures FindParam([Param(a, x)] + ([Param(b, y)] + [Param(c, z)]), wanted)
         == if wanted == a then Some(x) else if wanted == b then Some(y) else if wanted == c then Some(z) else None
  {
    var q, r := [Param(b, y)], [Param(c, z)];
    FindEncoded(a, x, q + r, wanted);
    FindEncoded(b, y, r, wanted);
    FindEncoded(c, z, [], wanted);
    assert r + [] == r;
  }

  lemma MagicLinkParams(email: string, token: string, baseUrl: string, wanted: string)
    ensures QueryParam(MagicLinkQuery(email, token, baseUrl), wanted)
         == if wanted == "email" then Some(email) else if wanted == "token" then Some(token)
            else if wanted == "baseUrl" then Some(baseUrl) else None
  {
    MagicLinkSplit(email, token, baseUrl);
    FindThree("email", email, "token", token, "baseUrl", baseUrl, wanted);
  }

  lemma OAuthParams(code: string, baseUrl: string, wanted: string)
    ensures QueryParam(OAuthQuery(code, baseUrl), wanted)
         == if wanted == "code" then Some(code) else if wanted == "baseUrl" then Some(baseUrl) else None
  {
    var p, r := [Param("code", code)], [Param("baseUrl", baseUrl)];
    ParamIsOnePart("code", code);
    ParamIsOnePart("baseUrl", baseUrl);
    SplitFirst(Param("code", code), '&', Param("baseUrl", baseUrl));
    SplitFirst(Param("baseUrl", baseUrl), '&', "");
    FindEncoded("code", code, r, wanted);
    FindEncoded("baseUrl", baseUrl, [], wanted);
    assert r + [] == r;
  }

  /** The printed targets as text: the routes and parameter names are those the landing pages use. */
  lemma PrintedTargets(email: string, token: string, code: string, publicBaseUrl: string)
    ensures var base := PercentEncode(PrintedBase(publicBaseUrl));
      && MagicLinkTarget(email, token, publicBaseUrl)
         == "/auth/magic-link/callback?email=" + PercentEncode(email) + "&token=" + PercentEncode(token) + "&baseUrl=" + base
      && OAuthTarget(code, publicBaseUrl) == "/auth/oauth/callback?code=" + PercentEncode(code) + "&baseUrl=" + base
  {
    MagicLinkText(PercentEncode(email), PercentEncode(token), PercentEncode(PrintedBase(publicBaseUrl)));
    OAuthText(PercentEncode(code), PercentEncode(PrintedBase(publicBaseUrl)));
  }

  lemma MagicLinkText(e: string, t: string, b: string)
    ensures MAGIC_LINK_PATH + "?" + ("email" + "=" + e + "&" + ("token" + "=" + t + "&" + ("baseUrl" + "=" + b)))
         == "/auth/magic-link/callback?email=" + e + "&token=" + t + "&baseUrl=" + b
  {
    assert MAGIC_LINK_PATH + "?" + ("email" + "=") == "/auth/magic-link/callback?email=";
    assert "&" + ("token" + "=") == "&token=" && "&" + ("baseUrl" + "=") == "&baseUrl=";
  }

  lemma OAuthText(c: string, b: string)
    ensures OAUTH_PATH + "?" + ("code" + "=" + c + "&" + ("baseUrl" + "=" + b)) == "/auth/oauth/callback?code=" + c + "&baseUrl=" + b
  {
    assert OAUTH_PATH + "?" + ("code" + "=") == "/auth/oauth/callback?code=";
    assert "&" + ("baseUrl" + "=") == "&baseUrl=";
  }

  lemma RouteAndQuery(route: string, query: string)
    requires '?' !in route
    ensures SplitOnce(route + "?" + query, '?') == Some((route, query))
  {
    var whole := route + "?" + query;
    assert whole[..|route|] == route && whole[|route| + 1..] == query;
    IndexOfIs(whole, '?', |route|);
  }

  /** What the parser makes of any magic-link callback URL: each value arrives as printed. */
  lemma MagicLinkParsed(email: string, token: string, publicBaseUrl: string)
    ensures ParseCallbackPath(MagicLinkTarget(email, token, publicBaseUrl))
         == MagicLinkPayload(Some(email), Some(token), Some(PrintedBase(publicBaseUrl)))
  {
    var base := PrintedBase(publicBaseUrl);
    RouteAndQuery(MAGIC_LINK_PATH, MagicLinkQuery(email, token, base));
    MagicLinkParams(email, token, base, "email");
    MagicLinkParams(email, token, base, "token");
    MagicLinkParams(email, token, base, "baseUrl");
  }

  lemma OAuthParsed(code: string, publicBaseUrl: string)
    ensures ParseCallbackPath(OAuthTarget(code, publicBaseUrl)) == OAuthPayload(Some(code), Some(PrintedBase(publicBaseUrl)))
  {
    var base := PrintedBase(publicBaseUrl);
    assert MAGIC_LINK_PATH[6] != OAUTH_PATH[6];
    RouteAndQuery(OAUTH_PATH, OAuthQuery(code, base));
    OAuthParams(code, base, "code");
    OAuthParams(code, base, "baseUrl");
  }

  // ---- Trimming

  lemma {:induction false} TrimEndShortens(s: string)
    ensures |TrimEnd(s)| <= |s|
    ensures |TrimEnd(s)| == |s| <==> (s == "" || !IsWhitespace(s[|s| - 1]))
    ensures |TrimEnd(s)| == |s| ==> TrimEnd(s) == s
  {
    if s != "" { TrimEndShortens(s[..|s| - 1]); }
  }

  lemma {:induction false} TrimStartShortens(s: string)
    ensures |TrimStart(s)| <= |s|
    ensures |TrimStart(s)| == |s| <==> (s == "" || !IsWhitespace(s[0]))
    ensures |TrimStart(s)| == |s| ==> TrimStart(s) == s
  {
    if s != "" { TrimStartShortens(s[1..]); }
  }

  lemma {:induction false} TrimEndMatchesShortens(s: string, c: char)
    ensures |TrimEndMatches(s, c)| <= |s|
    ensures |TrimEndMatches(s, c)| == |s| <==> (s == "" || s[|s| - 1] != c)
    ensures |TrimEndMatches(s, c)| == |s| ==> TrimEndMatches(s, c) == s
    ensures var t := TrimEndMatches(s, c); t == "" || t[|t| - 1] != c
  {
    if s != "" { TrimEndMatchesShortens(s[..|s| - 1], c); }
  }

  lemma TrimmedIff(s: string)
    ensures |Trim(s)| <= |s|
    ensures Trim(s) == s <==> Trimmed(s)
    ensures |Trim(s)| == |s| ==> Trim(s) == s
  {
    TrimStartShortens(s);
    TrimEndShortens(TrimStart(s));
  }

  predicate IsHttpUrl(s: string) { StartsWith(s, "http://") || StartsWith(s, "https://") }

  /** The base URLs that `normalize_base_url` leaves alone. */
  lemma NormalIff(base: string)
    ensures NormalizeBaseUrl(base) == Some(base) <==> IsHttpUrl(base) && Trimmed(base) && base[|base| - 1] != '/'
  {
    TrimmedIff(base);
    TrimEndMatchesShortens(Trim(base), '/');
    if Trim(base) == base { TrimEndMatchesShortens(base, '/'); }
  }

  /** The magic-link values come back unchanged exactly when they are trimmed, email and token are
      not empty, and the printed base URL is a trimmed http(s) URL. */
  lemma MagicLinkRoundTrip(email: string, token: string, publicBaseUrl: string)
    ensures var base := PrintedBase(publicBaseUrl);
      ParseCallbackPath(MagicLinkTarget(email, token, publicBaseUrl)) == Some(MagicLink(email, token, base))
      <==> email != "" && Trimmed(email) && token != "" && Trimmed(token) && IsHttpUrl(base) && Trimmed(base)
  {
    MagicLinkParsed(email, token, publicBaseUrl);
    TrimmedIff(email);
    TrimmedIff(token);
    NormalIff(PrintedBase(publicBaseUrl));
    TrimEndMatchesShortens(publicBaseUrl, '/');
  }

  lemma OAuthRoundTrip(code: string, publicBaseUrl: string)
    ensures var base := PrintedBase(publicBaseUrl);
      ParseCallbackPath(OAuthTarget(code, publicBaseUrl)) == Some(OAuth(code, base))
      <==> code != "" && Trimmed(code) && IsHttpUrl(base) && Trimmed(base)
  {
    OAuthParsed(code, publicBaseUrl);
    TrimmedIff(code);
    NormalIff(PrintedBase(publicBaseUrl));
    TrimEndMatchesShortens(publicBaseUrl, '/');
  }

  // ---- The origin derived from the base URL

  /** The derived origin is accepted exactly when whitespace is at neither of its ends. */
  lemma DerivedOriginAllowedIff(baseUrl: string)
    requires OriginFromBaseUrl(baseUrl).Some?
    ensures OriginAllowed(OriginFromBaseUrl(baseUrl), baseUrl) <==> Trimmed(OriginFromBaseUrl(baseUrl).value)
  {
    var origin := OriginFromBaseUrl(baseUrl).value;
    OriginEnd(baseUrl);
    TrimmedIff(origin);
    TrimEndMatchesShortens(Trim(origin), '/');
    TrimEndMatchesShortens(origin, '/');
  }

  lemma OriginEnd(baseUrl: string)
    requires OriginFromBaseUrl(baseUrl).Some?
    ensures var origin := OriginFromBaseUrl(baseUrl).value;
      origin != "" && origin[0] == baseUrl[0] && origin[|origin| - 1] != '/'
  {
    var rest := baseUrl[SchemeEnd(baseUrl) + 3..];
    TrimEndMatchesShortens(rest[..IndexOf(rest, '/')], '/');
  }

  // ---- Targets are one word

  /** No whitespace anywhere, line ends included. */
  ghost predicate NoWhitespace(s: string) { forall c :: c in s ==> !IsWhitespace(c) }

  lemma ParamIsOneWord(name: string, value: string)
    requires NoWhitespace(name)
    ensures NoWhitespace(Param(name, value))
  {
    EncodedIsClean(value);
  }

  lemma JoinedIsOneWord(route: string, p: string, q: string)
    requires NoWhitespace(route) && NoWhitespace(p) && NoWhitespace(q)
    ensures NoWhitespace(p + "&" + q) && NoWhitespace(route + "?" + q)
  {
  }

  lemma MagicLinkRouteIsOneWord()
    ensures NoWhitespace(MAGIC_LINK_PATH)
  {
  }

  lemma OAuthRouteIsOneWord()
    ensures NoWhitespace(OAUTH_PATH)
  {
  }

  lemma ThreeAreOneWord(p: string, q: string, r: string)
    requires NoWhitespace(p) && NoWhitespace(q) && NoWhitespace(r)
    ensures NoWhitespace(p + "&" + (q + "&" + r))
  {
    JoinedIsOneWord("", q, r);
    JoinedIsOneWord("", p, q + "&" + r);
  }

  lemma MagicLinkQueryIsOneWord(email: string, token: string, base: string)
    ensures NoWhitespace(MagicLinkQuery(email, token, base))
  {
    ParamIsOneWord("email", email);
    ParamIsOneWord("token", token);
    ParamIsOneWord("baseUrl", base);
    ThreeAreOneWord(Param("email", email), Param("token", token), Param("baseUrl", base));
  }

  lemma MagicLinkTargetIsOneWord(email: string, token: string, publicBaseUrl: string)
    ensures NoWhitespace(MagicLinkTarget(email, token, publicBaseUrl))
  {
    var query := MagicLinkQuery(email, token, PrintedBase(publicBaseUrl));
    MagicLinkQueryIsOneWord(email, token, PrintedBase(publicBaseUrl));
    MagicLinkRouteIsOneWord();
    JoinedIsOneWord(MAGIC_LINK_PATH, "", query);
  }

  lemma OAuthTargetIsOneWord(code: string, publicBaseUrl: string)
    ensures NoWhitespace(OAuthTarget(code, publicBaseUrl))
  {
    var base := PrintedBase(publicBaseUrl);
    ParamIsOneWord("code", code);
    ParamIsOneWord("baseUrl", base);
    OAuthRouteIsOneWord();
    JoinedIsOneWord(OAUTH_PATH, Param("code", code), Param("baseUrl", base));
    JoinedIsOneWord(OAUTH_PATH, Param("code", code), OAuthQuery(code, base));
  }
}
