/** The loopback server's answer to a whole HTTP request: any method, any header lines. */
module CallbackRequest {
  import opened Wrappers
  import opened Text
  import opened CallbackUrl

  // ---- Origin lines

  /** The line is an Origin header with this value; the name may be in any case. */
  ghost predicate IsOriginLine(line: string, value: string) {
    exists key :: ':' !in key && LowerAll(key) == "origin" && line == key + ":" + value
  }

  lemma OriginKeyIff(key: string)
    ensures IsOriginKey(key) <==> LowerAll(key) == "origin"
  {
    if key != "" { LowerAt(key, 0); }
    if |key| == 6 {
      forall k | 0 <= k < 6 ensures LowerAll(key)[k] == Lower(key[k]) { LowerAt(key, k); }
    }
  }

  /** Without whitespace around it and without the slashes at its end. */
  function Stripped(header: string): string { TrimEndMatches(Trim(header), '/') }

  lemma OriginLine(line: string, value: string)
    requires IsOriginLine(line, value)
    ensures OriginHeader(line) == Some(Stripped(value))
  {
    var key :| ':' !in key && LowerAll(key) == "origin" && line == key + ":" + value;
    OriginKeyIff(key);
    assert line[..|key|] == key && line[|key| + 1..] == value;
    IndexOfIs(line, ':', |key|);
  }

  /** What a header line tells about the origin, if it is an Origin line. */
  lemma OriginHeaderIff(line: string)
    ensures OriginHeader(line).Some? <==> exists value :: IsOriginLine(line, value)
    ensures forall value :: IsOriginLine(line, value) ==> OriginHeader(line) == Some(Stripped(value))
  {
    forall value | IsOriginLine(line, value) ensures OriginHeader(line) == Some(Stripped(value)) {
      OriginLine(line, value);
    }
    if OriginHeader(line).Some? {
      var i := IndexOf(line, ':');
      OriginKeyIff(line[..i]);
      assert line == line[..i] + ":" + line[i + 1..];
      assert IsOriginLine(line, line[i + 1..]);
    }
  }

  /** No line from the `from`-th on is an Origin header. */
  ghost predicate NoOrigin(lines: seq<string>, from: nat) {
    forall k, value :: from <= k < |lines| ==> !IsOriginLine(lines[k], value)
  }

  /** The k-th line is the last Origin header and has this value. */
  ghost predicate LastOriginAt(lines: seq<string>, k: nat, value: string) {
    k < |lines| && IsOriginLine(lines[k], value) && NoOrigin(lines, k + 1)
  }

  /** Of several Origin lines the last one counts; other lines do not matter. */
  lemma {:induction false} LastOriginIs(lines: seq<string>)
    ensures LastOrigin(lines) == None <==> NoOrigin(lines, 0)
    ensures forall k: nat, value :: LastOriginAt(lines, k, value) ==> LastOrigin(lines) == Some(Stripped(value))
  {
    if lines != [] {
      var n := |lines| - 1;
      LastOriginIs(lines[..n]);
      OriginHeaderIff(lines[n]);
      forall k: nat, value | LastOriginAt(lines, k, value) ensures LastOrigin(lines) == Some(Stripped(value)) {
        if k < n { assert LastOriginAt(lines[..n], k, value); }
      }
      if NoOrigin(lines, 0) {
        assert NoOrigin(lines[..n], 0);
      } else if OriginHeader(lines[n]) == None {
        assert NoOrigin(lines[..n], 0) ==> NoOrigin(lines, 0);
      }
    }
  }

  // ---- The request text

  /** The text can stand in one header line. */
  predicate SingleLine(s: string) { '\n' !in s && (s == "" || s[|s| - 1] != '\r') }

  ghost predicate AllSingle(lines: seq<string>) { forall k :: 0 <= k < |lines| ==> SingleLine(lines[k]) }

  function HeaderText(lines: seq<string>): string {
    if lines == [] then "" else lines[0] + "\r\n" + HeaderText(lines[1..])
  }

  /** The text of a request without a body. */
  function RequestText(verb: string, target: string, headers: seq<string>): string {
    verb + " " + target + " HTTP/1.1" + "\r\n" + (HeaderText(headers) + "\r\n")
  }

  predicate OneWord(s: string) { s != "" && forall k :: 0 <= k < |s| ==> !IsWhitespace(s[k]) }

  lemma {:induction false} WordEndIs(word: string, rest: string)
    requires forall k :: 0 <= k < |word| ==> !IsWhitespace(word[k])
    requires rest != "" ==> IsWhitespace(rest[0])
    ensures WordEnd(word + rest) == |word|
  {
    if word == "" {
      assert word + rest == rest;
    } else {
      assert (word + rest)[1..] == word[1..] + rest;
      WordEndIs(word[1..], rest);
    }
  }

  lemma RequestLine(verb: string, target: string)
    requires OneWord(verb) && OneWord(target)
    ensures FirstTwoWords(verb + " " + target + " HTTP/1.1") == Some((verb, target))
  {
    var tail := " " + (target + " HTTP/1.1");
    var s := verb + tail;
    assert verb + " " + target + " HTTP/1.1" == s;
    WordEndIs(verb, tail);
    assert TrimStart(s) == s && s[..|verb|] == verb && s[|verb|..] == tail;
    assert tail[1..] == target + " HTTP/1.1";
    assert TrimStart(tail) == TrimStart(target + " HTTP/1.1") == target + " HTTP/1.1";
    WordEndIs(target, " HTTP/1.1");
    assert (target + " HTTP/1.1")[..|target|] == target;
  }

  lemma {:induction false} TrimStartBehind(blank: string, s: string)
    requires Blank(blank) && (s == "" || !IsWhitespace(s[0]))
    ensures TrimStart(blank + s) == s
  {
    if blank == "" {
      assert blank + s == s;
    } else {
      assert (blank + s)[1..] == blank[1..] + s;
      TrimStartBehind(blank[1..], s);
    }
  }

  /** The first two words of a line, whatever whitespace stands around them. */
  lemma FirstTwoWordsIs(w0: string, a: string, w1: string, b: string, rest: string)
    requires Blank(w0) && OneWord(a) && Blank(w1) && w1 != "" && OneWord(b)
    requires rest != "" ==> IsWhitespace(rest[0])
    ensures FirstTwoWords(w0 + (a + (w1 + (b + rest)))) == Some((a, b))
  {
    var t := b + rest;
    var s := a + (w1 + t);
    TrimStartBehind(w0, s);
    WordEndIs(a, w1 + t);
    assert s[..|a|] == a && s[|a|..] == w1 + t;
    TrimStartBehind(w1, t);
    WordEndIs(b, rest);
    assert t[..|b|] == b;
  }

  /** A line of fewer than two words has none. */
  lemma NoTwoWords(w0: string, a: string, w1: string)
    requires Blank(w0) && (forall k :: 0 <= k < |a| ==> !IsWhitespace(a[k])) && Blank(w1)
    ensures FirstTwoWords(w0 + (a + w1)) == None
  {
    if a == "" {
      assert w0 + (a + w1) == (w0 + w1) + "";
      TrimStartBehind(w0 + w1, "");
    } else {
      TrimStartBehind(w0, a + w1);
      WordEndIs(a, w1);
      assert (a + w1)[|a|..] == w1 + "";
      TrimStartBehind(w1, "");
    }
  }

  lemma FirstLine(line: string, rest: string)
    requires SingleLine(line)
    ensures Lines(line + "\r\n" + rest) == [line] + Lines(rest)
  {
    var whole := line + "\r\n" + rest;
    assert whole[..|line| + 1] == line + "\r" && whole[|line| + 2..] == rest;
    assert (line + "\r")[..|line|] == line;
    IndexOfIs(whole, '\n', |line| + 1);
  }

  lemma NoHeaderLines()
    ensures Lines("\r\n") == [""]
  {
    FirstLine("", "");
    assert "" + "\r\n" + "" == "\r\n";
  }

  lemma HeaderTextFirst(lines: seq<string>)
    requires lines != []
    ensures HeaderText(lines) + "\r\n" == lines[0] + "\r\n" + (HeaderText(lines[1..]) + "\r\n")
  {
  }

  lemma LineInFront(line: string, rest: string, later: seq<string>, text: string, lines: seq<string>)
    requires SingleLine(line) && Lines(rest) == later + [""]
    requires text == line + "\r\n" + rest && lines == [line] + later
    ensures Lines(text) == lines + [""]
  {
    FirstLine(line, rest);
    assert lines + [""] == [line] + (later + [""]);
  }

  lemma {:induction false} HeaderLines(lines: seq<string>)
    requires AllSingle(lines)
    ensures Lines(HeaderText(lines) + "\r\n") == lines + [""]
  {
    if lines == [] {
      NoHeaderLines();
      assert HeaderText(lines) + "\r\n" == "\r\n";
      assert lines + [""] == [""];
    } else {
      var text, rest := HeaderText(lines) + "\r\n", HeaderText(lines[1..]) + "\r\n";
      HeaderTextFirst(lines);
      HeaderLines(lines[1..]);
      LineInFront(lines[0], rest, lines[1..], text, lines);
    }
  }

  lemma OneWordIsSingle(verb: string, target: string)
    requires OneWord(verb) && OneWord(target)
    ensures SingleLine(verb + " " + target + " HTTP/1.1")
  {
    assert IsWhitespace('\n');
    var line := verb + " " + target + " HTTP/1.1";
    assert line[|line| - 1] == '1';
  }

  lemma EmptyLineIsNoOrigin(lines: seq<string>)
    ensures LastOrigin(lines + [""]) == LastOrigin(lines)
  {
    assert (lines + [""])[..|lines|] == lines;
    assert OriginHeader("") == None;
  }

  /** A request line and any header lines parse to their method, the payload of their target and
      the origin of the last Origin line. */
  lemma RequestParsed(verb: string, target: string, headers: seq<string>)
    requires OneWord(verb) && OneWord(target) && AllSingle(headers)
    ensures Parsed(Lines(RequestText(verb, target, headers)))
         == Some(ParsedRequest(verb, LastOrigin(headers), ParseCallbackPath(target)))
  {
    var line := verb + " " + target + " HTTP/1.1";
    OneWordIsSingle(verb, target);
    FirstLine(line, HeaderText(headers) + "\r\n");
    HeaderLines(headers);
    RequestLine(verb, target);
    EmptyLineIsNoOrigin(headers);
    assert ([line] + (headers + [""]))[1..] == headers + [""];
  }

  // ---- Which Origin headers are accepted

  /** The header, stripped twice, is the origin of the base URL; for a base URL without a host,
      only slashes are left after stripping once. */
  predicate Names(header: string, baseUrl: string) {
    var once := Stripped(header);
    if OriginFromBaseUrl(baseUrl).Some? then Stripped(once) == OriginFromBaseUrl(baseUrl).value
    else Trim(once) != "" && Stripped(once) == ""
  }

  lemma AllowedIff(header: string, baseUrl: string)
    ensures OriginAllowed(Some(Stripped(header)), baseUrl) <==> Names(header, baseUrl)
  {
    if OriginFromBaseUrl(baseUrl).Some? { OriginEnd(baseUrl); }
  }

  /** An origin as a browser writes it: nothing around it, no slash at its end. */
  predicate Bare(origin: string) { SingleLine(origin) && Trimmed(origin) && origin != "" && origin[|origin| - 1] != '/' }

  /** A bare origin behind "Origin: " is accepted exactly when it is, letter by letter, the origin of
      the base URL. */
  lemma BareNamesIff(header: string, baseUrl: string)
    requires Bare(header)
    ensures Names(" " + header, baseUrl) <==> OriginFromBaseUrl(baseUrl) == Some(header)
  {
    assert (" " + header)[1..] == header;
    assert Trim(" " + header) == Trim(header);
    StrippedShortens(header);
  }

  /** The derived origin itself is accepted exactly when whitespace is at neither of its ends. */
  lemma OwnNameIff(baseUrl: string)
    requires OriginFromBaseUrl(baseUrl).Some?
    ensures Names(OriginFromBaseUrl(baseUrl).value, baseUrl) <==> Trimmed(OriginFromBaseUrl(baseUrl).value)
  {
    var origin := OriginFromBaseUrl(baseUrl).value;
    OriginEnd(baseUrl);
    StrippedShortens(origin);
    StrippedShortens(Stripped(origin));
  }

  lemma StrippedShortens(s: string)
    ensures |Stripped(s)| <= |s|
    ensures Stripped(s) == s <==> Trimmed(s) && (s == "" || s[|s| - 1] != '/')
    ensures |Stripped(s)| == |s| ==> Stripped(s) == s
  {
    TrimmedIff(s);
    TrimEndMatchesShortens(Trim(s), '/');
    TrimEndMatchesShortens(s, '/');
  }

  // ---- The answers

  /** Some payload is at the target and the last Origin line names the origin of its base URL. */
  ghost predicate Welcome(target: string, headers: seq<string>) {
    ParseCallbackPath(target).Some?
    && exists k: nat, value :: LastOriginAt(headers, k, value) && Names(value, ParseCallbackPath(target).value.baseUrl)
  }

  lemma WelcomeIff(target: string, headers: seq<string>)
    requires ParseCallbackPath(target).Some?
    ensures OriginAllowed(LastOrigin(headers), ParseCallbackPath(target).value.baseUrl) <==> Welcome(target, headers)
  {
    var base := ParseCallbackPath(target).value.baseUrl;
    LastOriginIs(headers);
    if LastOrigin(headers).Some? {
      var k, value := SomeLastOrigin(headers);
      AllowedIff(value, base);
    }
    forall k: nat, value | LastOriginAt(headers, k, value)
      ensures OriginAllowed(LastOrigin(headers), base) <==> Names(value, base)
    {
      AllowedIff(value, base);
    }
  }

  lemma {:induction false} SomeLastOrigin(lines: seq<string>) returns (k: nat, value: string)
    requires !NoOrigin(lines, 0)
    ensures LastOriginAt(lines, k, value)
  {
    var n := |lines| - 1;
    if v :| IsOriginLine(lines[n], v) {
      k, value := n, v;
    } else {
      assert !NoOrigin(lines[..n], 0);
      k, value := SomeLastOrigin(lines[..n]);
    }
  }

  /** Every well-formed request: a page of the right origin may ask by OPTIONS and is handed nothing
      then; by GET its payload goes to the app. Other methods are refused, and so are other
      origins and targets without a payload. */
  lemma HandledExactly(verb: string, target: string, headers: seq<string>)
    requires OneWord(verb) && OneWord(target) && AllSingle(headers)
    ensures Handled(RequestText(verb, target, headers)) ==
      if verb == "OPTIONS" then Responded(if Welcome(target, headers) then 204 else 403, None)
      else if verb != "GET" then Responded(405, None)
      else if ParseCallbackPath(target) == None then Responded(404, None)
      else if Welcome(target, headers) then Responded(200, ParseCallbackPath(target))
      else Responded(403, None)
  {
    RequestParsed(verb, target, headers);
    if ParseCallbackPath(target).Some? { WelcomeIff(target, headers); }
  }

  /** The request for a printed callback URL, whatever lines come before and after its last Origin
      line: the app is handed exactly the printed values if and only if those round-trip and that
      line names the origin of the base URL. */
  lemma MagicLinkDeliveredIff(email: string, token: string, publicBaseUrl: string,
                              before: seq<string>, line: string, value: string, after: seq<string>)
    requires AllSingle(before) && SingleLine(line) && AllSingle(after)
    requires IsOriginLine(line, value) && NoOrigin(after, 0)
    ensures var base := PrintedBase(publicBaseUrl);
      Handled(RequestText("GET", MagicLinkTarget(email, token, publicBaseUrl), before + [line] + after))
        == Responded(200, Some(MagicLink(email, token, base)))
      <==> email != "" && Trimmed(email) && token != "" && Trimmed(token)
           && IsHttpUrl(base) && Trimmed(base) && Names(value, base)
  {
    var target := MagicLinkTarget(email, token, publicBaseUrl);
    MagicLinkTargetIsOneWord(email, token, publicBaseUrl);
    GetAnswered(target, before, line, value, after);
    MagicLinkRoundTrip(email, token, publicBaseUrl);
  }

  lemma OAuthDeliveredIff(code: string, publicBaseUrl: string,
                          before: seq<string>, line: string, value: string, after: seq<string>)
    requires AllSingle(before) && SingleLine(line) && AllSingle(after)
    requires IsOriginLine(line, value) && NoOrigin(after, 0)
    ensures var base := PrintedBase(publicBaseUrl);
      Handled(RequestText("GET", OAuthTarget(code, publicBaseUrl), before + [line] + after))
        == Responded(200, Some(OAuth(code, base)))
      <==> code != "" && Trimmed(code) && IsHttpUrl(base) && Trimmed(base) && Names(value, base)
  {
    OAuthTargetIsOneWord(code, publicBaseUrl);
    GetAnswered(OAuthTarget(code, publicBaseUrl), before, line, value, after);
    OAuthRoundTrip(code, publicBaseUrl);
  }

  lemma GetAnswered(target: string, before: seq<string>, line: string, value: string, after: seq<string>)
    requires OneWord(target) && AllSingle(before) && SingleLine(line) && AllSingle(after)
    requires IsOriginLine(line, value) && NoOrigin(after, 0)
    ensures var payload := ParseCallbackPath(target);
      Handled(RequestText("GET", target, before + [line] + after)) ==
        if payload == None then Responded(404, None)
        else if Names(value, payload.value.baseUrl) then Responded(200, payload)
        else Responded(403, None)
  {
    var headers := before + [line] + after;
    HeadersSingle(before, line, after);
    RequestParsed("GET", target, headers);
    LastOriginOf(before, line, value, after);
    if ParseCallbackPath(target).Some? { AllowedIff(value, ParseCallbackPath(target).value.baseUrl); }
  }

  lemma HeadersSingle(before: seq<string>, line: string, after: seq<string>)
    requires AllSingle(before) && SingleLine(line) && AllSingle(after)
    ensures AllSingle(before + [line] + after)
  {
  }

  lemma LastOriginOf(before: seq<string>, line: string, value: string, after: seq<string>)
    requires IsOriginLine(line, value) && NoOrigin(after, 0)
    ensures LastOrigin(before + [line] + after) == Some(Stripped(value))
  {
    var headers := before + [line] + after;
    LastOriginIs(headers);
    forall k, v | |before| + 1 <= k < |headers| ensures !IsOriginLine(headers[k], v) {
      assert headers[k] == after[k - |before| - 1];
    }
    assert LastOriginAt(headers, |before|, value);
  }

  /** Without an Origin line nothing is handed over. */
  lemma NoOriginRefused(target: string, headers: seq<string>)
    requires OneWord(target) && AllSingle(headers) && NoOrigin(headers, 0)
    ensures Handled(RequestText("GET", target, headers)) == Responded(if ParseCallbackPath(target) == None then 404 else 403, None)
  {
    RequestParsed("GET", target, headers);
    LastOriginIs(headers);
  }

  // ---- Browsers serialise origins

  /** The origin of a URL is its scheme and host, whatever path follows. */
  lemma OriginOfUrl(scheme: string, host: string, path: string)
    requires scheme != "" && ':' !in scheme && '/' !in host && (path == "" || path[0] == '/')
    ensures OriginFromBaseUrl(scheme + "://" + host + path) == if host == "" then None else Some(scheme + "://" + host)
  {
    var url, rest := scheme + "://" + host + path, host + path;
    assert url == scheme + "://" + rest;
    SchemeEndIs(scheme, rest);
    assert url[..|scheme|] == scheme && url[|scheme| + 3..] == rest;
    assert rest[..|host|] == host;
    IndexOfIs(rest, '/', |host|);
    TrimEndMatchesShortens(host, '/');
    if host != "" { assert host[|host| - 1] in host; }
  }

  predicate SchemeEndsAt(url: string, k: nat) { k + 3 <= |url| && url[k..k + 3] == "://" }

  /** Without a scheme there is no origin. */
  lemma NoSchemeNoOrigin(url: string)
    requires SchemeEndsAt(url, 0) || forall k :: !SchemeEndsAt(url, k)
    ensures OriginFromBaseUrl(url) == None
  {
    SchemeEndFound(url);
  }

  lemma {:induction false} SchemeEndFound(url: string)
    ensures SchemeEnd(url) < |url| ==> SchemeEndsAt(url, SchemeEnd(url))
    ensures SchemeEndsAt(url, 0) ==> SchemeEnd(url) == 0
  {
    if url != "" && !StartsWith(url, "://") {
      SchemeEndFound(url[1..]);
      var i := SchemeEnd(url[1..]);
      if i < |url[1..]| { assert url[1..][i..i + 3] == url[i + 1..i + 4]; }
    }
  }

  lemma HostOrigin(host: string)
    requires host != "" && '/' !in host
    ensures OriginFromBaseUrl("https://" + host) == Some("https://" + host)
  {
    assert "https" + "://" + host == "https://" + host && "https" + "://" + host + "" == "https://" + host;
    OriginOfUrl("https", host, "");
  }

  lemma {:induction false} SchemeEndIs(scheme: string, rest: string)
    requires ':' !in scheme
    ensures SchemeEnd(scheme + "://" + rest) == |scheme|
  {
    var url := scheme + "://" + rest;
    if scheme == "" {
      assert url[..3] == "://";
    } else {
      assert url[0] == scheme[0] && scheme[0] in scheme;
      assert url[1..] == scheme[1..] + "://" + rest;
      assert !StartsWith(url, "://") by {
        assert |url| >= 3 ==> url[..3][0] == url[0];
      }
      SchemeEndIs(scheme[1..], rest);
    }
  }

  lemma HeaderLineIsOrigin(header: string)
    ensures IsOriginLine("Origin: " + header, " " + header)
  {
    assert LowerAll("Origin") == "origin" by {
      forall k | 0 <= k < 6 ensures LowerAll("Origin")[k] == "origin"[k] { LowerAt("Origin", k); }
    }
    assert "Origin: " + header == "Origin" + ":" + (" " + header);
  }

  /** A browser lower-cases the host and drops a default port. With a base URL configured in any
      other spelling the values still parse, but its page is refused. */
  lemma OtherSpellingRefused(email: string, token: string, host: string, header: string, before: seq<string>, after: seq<string>)
    requires email != "" && Trimmed(email) && token != "" && Trimmed(token)
    requires host != "" && '/' !in host && Trimmed("https://" + host)
    requires Bare(header) && header != "https://" + host
    requires AllSingle(before) && AllSingle(after) && NoOrigin(after, 0)
    ensures Handled(RequestText("GET", MagicLinkTarget(email, token, "https://" + host), before + ["Origin: " + header] + after))
         == Responded(403, None)
  {
    var base := "https://" + host;
    HostBase(host);
    MagicLinkRoundTrip(email, token, base);
    MagicLinkTargetIsOneWord(email, token, base);
    HeaderLineIsOrigin(header);
    BareLineIsSingle(header);
    GetAnswered(MagicLinkTarget(email, token, base), before, "Origin: " + header, " " + header, after);
    HostOrigin(host);
    BareNamesIff(header, base);
  }

  lemma BareLineIsSingle(header: string)
    requires Bare(header)
    ensures SingleLine("Origin: " + header)
  {
    var line := "Origin: " + header;
    assert line[|line| - 1] == header[|header| - 1];
  }

  lemma HostBase(host: string)
    requires host != "" && '/' !in host
    ensures PrintedBase("https://" + host) == "https://" + host && IsHttpUrl("https://" + host)
  {
    var base := "https://" + host;
    assert base[|base| - 1] == host[|host| - 1] && host[|host| - 1] in host;
    TrimEndMatchesShortens(base, '/');
    assert base[..8] == "https://";
  }

  lemma CapitalHostRefused(email: string, token: string)
    requires email != "" && Trimmed(email) && token != "" && Trimmed(token)
    ensures Handled(RequestText("GET", MagicLinkTarget(email, token, "https://Example.com"), ["Origin: https://example.com"]))
         == Responded(403, None)
  {
    assert "https://" + "Example.com" == "https://Example.com";
    assert "https://Example.com"[8] != "https://example.com"[8];
    assert "Origin: " + "https://example.com" == "Origin: https://example.com";
    assert [] + ["Origin: https://example.com"] + [] == ["Origin: https://example.com"];
    OtherSpellingRefused(email, token, "Example.com", "https://example.com", [], []);
  }
}
