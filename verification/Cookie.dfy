/** Session cookies: what `Set-Cookie` prints is what `Cookie` is read back as. */
module Cookie {
  import opened Prelude
  import opened Text

  const SESSION := "aionui-session"
  const CSRF := "aionui-csrf-token"
  /** 30 days in seconds. */
  const MAX_AGE := "2592000"

  datatype CookieConfig = CookieConfig(secure: bool, sameSite: string)

  /** `from_env`: how the application is reached. */
  function FromEnvironment(https: bool): CookieConfig {
    CookieConfig(https, if https then "Strict" else "Lax")
  }

  function Attributes(c: CookieConfig, maxAge: string): string {
    "SameSite=" + c.sameSite + (if c.secure then "; Secure" else "") + "; Max-Age=" + maxAge
  }

  function BuildSessionCookie(c: CookieConfig, token: string): string {
    SESSION + "=" + token + "; Path=/; HttpOnly; " + Attributes(c, MAX_AGE)
  }

  function ClearSessionCookie(c: CookieConfig): string {
    SESSION + "=" + "; Path=/; HttpOnly; " + Attributes(c, "0")
  }

  function BuildCsrfCookie(c: CookieConfig, token: string): string {
    CSRF + "=" + token + "; Path=/; " + Attributes(c, MAX_AGE)
  }

  /** The name-value pair a browser keeps: the text before the first semicolon (section 5.2 of RFC 6265). */
  function Pair(setCookie: string): string {
    match SplitOnce(setCookie, ';')
    case None => setCookie
    case Some((pair, _)) => pair
  }

  // ---------------------------------------------------------------------------------------
  // Reading
  // ---------------------------------------------------------------------------------------

  /** What one part of a header says about `name`: nothing if malformed, named otherwise, or empty. */
  function Value(part: string, name: string): Option<string> {
    match SplitOnce(Trim(part), '=')
    case None => None
    case Some((key, value)) => if Trim(key) == name && Trim(value) != "" then Some(Trim(value)) else None
  }

  function FirstValue(parts: seq<string>, name: string): Option<string> {
    if parts == [] then None else Or(Value(parts[0], name), FirstValue(parts[1..], name))
  }

  /** `extract_cookie_value`; no header and a header that is no text are both `None`. */
  function ExtractCookieValue(header: Option<string>, name: string): Option<string> {
    if header.None? then None else FirstValue(Split(header.value, ';'), name)
  }

  function ExtractBearer(authorization: Option<string>): Option<string> {
    if authorization.Some? && "Bearer " < authorization.value then Some(authorization.value[|"Bearer "|..]) else None
  }

  /** The bearer token first, then the session cookie. */
  function ExtractToken(authorization: Option<string>, cookie: Option<string>): Option<string> {
    Or(ExtractBearer(authorization), ExtractCookieValue(cookie, SESSION))
  }

  /** For a WebSocket upgrade also the first offered protocol. */
  function ExtractWsToken(
      authorization: Option<string>, cookie: Option<string>, protocols: Option<string>): Option<string> {
    var first := if protocols.Some? then Trim(Split(protocols.value, ',')[0]) else "";
    Or(ExtractToken(authorization, cookie), if first != "" then Some(first) else None)
  }

  // ---------------------------------------------------------------------------------------
  // Texts
  // ---------------------------------------------------------------------------------------

  /** Tokens that survive the trip. */
  predicate Printable(token: string) {
    token != "" && Trimmed(token) && Lacks(token, ';')
  }

  lemma {:induction false} TrimStartCuts(s: string)
    ensures TrimStart(s) == [] || !IsSpace(TrimStart(s)[0])
    ensures forall c :: Lacks(s, c) ==> Lacks(TrimStart(s), c)
  {
    if s != [] && IsSpace(s[0]) { TrimStartCuts(s[1..]); }
  }

  lemma {:induction false} TrimEndCuts(s: string)
    ensures var t := TrimEnd(s);
            && t <= s && (t == [] || !IsSpace(t[|t| - 1]))
    decreases |s|
  {
    if s != [] && IsSpace(s[|s| - 1]) { TrimEndCuts(s[..|s| - 1]); }
  }

  lemma TrimCuts(s: string)
    ensures Trimmed(Trim(s))
    ensures forall c :: Lacks(s, c) ==> Lacks(Trim(s), c)
  {
    TrimStartCuts(s);
    TrimEndCuts(TrimStart(s));
  }

  // ---------------------------------------------------------------------------------------
  // The round trip
  // ---------------------------------------------------------------------------------------

  lemma SessionPair(c: CookieConfig, token: string)
    requires Lacks(token, ';')
    ensures Pair(BuildSessionCookie(c, token)) == SESSION + "=" + token
  {
    var rest := " Path=/; HttpOnly; " + Attributes(c, MAX_AGE);
    assert BuildSessionCookie(c, token) == (SESSION + "=" + token) + [';'] + rest;
    SplitOnceAt(SESSION + "=" + token, ';', rest);
  }

  lemma ClearedPair(c: CookieConfig)
    ensures Pair(ClearSessionCookie(c)) == SESSION + "="
  {
    var rest := " Path=/; HttpOnly; " + Attributes(c, "0");
    assert ClearSessionCookie(c) == (SESSION + "=") + [';'] + rest;
    SplitOnceAt(SESSION + "=", ';', rest);
  }

  /** A part `name=value` with white space around it. */
  lemma NamedPartValue(before: string, name: string, value: string, after: string)
    requires AllSpace(before) && AllSpace(after)
    requires name != "" && Trimmed(name) && Lacks(name, '=') && Trimmed(value)
    ensures Value(before + (name + "=" + value) + after, name) == if value == "" then None else Some(value)
  {
    var pair := name + "=" + value;
    assert Trimmed(pair);
    TrimPadded(before, pair, after);
    assert pair == name + ['='] + value;
    SplitOnceAt(name, '=', value);
    TrimPadded("", name, "");
    TrimPadded("", value, "");
    assert "" + name + "" == name && "" + value + "" == value;
  }

  /** Parts without an equals sign, or with another name, say nothing. */
  lemma OtherPartsSayNothing(part: string, name: string)
    ensures Lacks(Trim(part), '=') ==> Value(part, name) == None
    ensures forall key, value :: Trim(part) == key + ['='] + value && Lacks(key, '=') && Trim(key) != name ==>
            Value(part, name) == None
  {
    SplitOnceParts(Trim(part), '=');
    forall key, value | Trim(part) == key + ['='] + value && Lacks(key, '=') && Trim(key) != name
      ensures Value(part, name) == None
    {
      SplitOnceAt(key, '=', value);
    }
    match SplitOnce(Trim(part), '=')
    case None =>
    case Some((a, _)) => assert Trim(part)[|a|] == '=';
  }

  lemma {:induction false} FirstValueSkips(quiet: seq<string>, rest: seq<string>, name: string)
    requires forall p :: p in quiet ==> Value(p, name) == None
    ensures FirstValue(quiet + rest, name) == FirstValue(rest, name)
  {
    if quiet == [] {
      assert quiet + rest == rest;
    } else {
      assert (quiet + rest)[1..] == quiet[1..] + rest;
      FirstValueSkips(quiet[1..], rest, name);
    }
  }

  /** Parts that can stand in a header beside the session cookie. */
  predicate Quiet(parts: seq<string>) {
    forall p :: p in parts ==> Lacks(p, ';') && Value(p, SESSION) == None
  }

  /** `pair` with white space around it, among parts that say nothing about the session. */
  function Header(before: seq<string>, pad: string, pair: string, tail: string, after: seq<string>): string {
    Join(before + [pad + pair + tail] + after, ';')
  }

  lemma HeaderValue(before: seq<string>, pad: string, pair: string, tail: string, after: seq<string>)
    requires Quiet(before) && Quiet(after) && AllSpace(pad) && AllSpace(tail) && Lacks(pair, ';')
    ensures ExtractCookieValue(Some(Header(before, pad, pair, tail, after)), SESSION)
            == Value(pad + pair + tail, SESSION)
  {
    var part := pad + pair + tail;
    var parts := before + [part] + after;
    assert Lacks(part, ';') by {
      assert forall i :: 0 <= i < |pad| ==> IsSpace(pad[i]);
      assert forall i :: 0 <= i < |tail| ==> IsSpace(tail[i]);
    }
    assert forall p :: p in parts ==> p in before || p == part || p in after;
    SplitJoin(parts, ';');
    FirstValueSkips(before, [part] + after, SESSION);
    assert parts == before + ([part] + after);
    assert ([part] + after)[1..] == after;
    FirstValueSkips(after, [], SESSION);
    assert after + [] == after;
  }

  /**
   A printed session cookie, cut at its first semicolon and sent back anywhere among parts that are
   malformed, differently named or empty, is read as exactly the token.
   */
  lemma SessionCookieRoundTrip(
      c: CookieConfig, token: string, before: seq<string>, pad: string, tail: string, after: seq<string>)
    requires Printable(token) && Quiet(before) && Quiet(after) && AllSpace(pad) && AllSpace(tail)
    ensures ExtractCookieValue(Some(Header(before, pad, Pair(BuildSessionCookie(c, token)), tail, after)), SESSION)
            == Some(token)
  {
    SessionPair(c, token);
    assert Trimmed(SESSION) && Lacks(SESSION, '=') && Lacks(SESSION, ';');
    HeaderValue(before, pad, SESSION + "=" + token, tail, after);
    NamedPartValue(pad, SESSION, token, tail);
  }

  /** The cleared cookie reads as none. */
  lemma ClearedCookieIsNone(c: CookieConfig, before: seq<string>, pad: string, tail: string, after: seq<string>)
    requires Quiet(before) && Quiet(after) && AllSpace(pad) && AllSpace(tail)
    ensures ExtractCookieValue(Some(Header(before, pad, Pair(ClearSessionCookie(c)), tail, after)), SESSION) == None
  {
    ClearedPair(c);
    assert Trimmed(SESSION) && Lacks(SESSION, '=') && Lacks(SESSION, ';');
    HeaderValue(before, pad, SESSION + "=", tail, after);
    assert SESSION + "=" == SESSION + "=" + "";
    NamedPartValue(pad, SESSION, "", tail);
  }

  lemma CsrfPair(c: CookieConfig, token: string)
    requires Lacks(token, ';')
    ensures Pair(BuildCsrfCookie(c, token)) == CSRF + "=" + token && Lacks(CSRF + "=" + token, ';')
  {
    var rest := " Path=/; " + Attributes(c, MAX_AGE);
    assert BuildCsrfCookie(c, token) == (CSRF + "=" + token) + [';'] + rest;
    assert Lacks(CSRF, ';');
    SplitOnceAt(CSRF + "=" + token, ';', rest);
  }

  /** A trimmed pair says nothing about another name. */
  lemma OtherPairSaysNothing(key: string, value: string, name: string)
    requires key != "" && Trimmed(key) && Lacks(key, '=') && Trimmed(value) && key != name
    ensures Value(key + "=" + value, name) == None
  {
    var pair := key + "=" + value;
    assert Trimmed(pair);
    TrimPadded("", pair, "");
    assert "" + pair + "" == pair;
    TrimPadded("", key, "");
    assert "" + key + "" == key;
    assert pair == key + ['='] + value;
    OtherPartsSayNothing(pair, name);
  }

  /** The CSRF cookie beside it says nothing about the session, whatever its token. */
  lemma CsrfCookieIsQuiet(c: CookieConfig, token: string)
    requires Lacks(token, ';') && Trimmed(token)
    ensures var pair := Pair(BuildCsrfCookie(c, token));
            pair == CSRF + "=" + token && Quiet([pair])
  {
    CsrfPair(c, token);
    assert CSRF[7] != SESSION[7];
    OtherPairSaysNothing(CSRF, token, SESSION);
  }

  lemma ValueIsPrintable(part: string, name: string)
    requires Lacks(part, ';') && Value(part, name).Some?
    ensures Printable(Value(part, name).value)
  {
    TrimCuts(part);
    SplitOnceParts(Trim(part), '=');
    var (key, value) := SplitOnce(Trim(part), '=').value;
    assert forall i :: 0 <= i < |value| ==> value[i] == Trim(part)[|key| + 1 + i];
    TrimCuts(value);
  }

  lemma {:induction false} FirstValueIsPrintable(parts: seq<string>, name: string)
    requires forall p :: p in parts ==> Lacks(p, ';')
    ensures FirstValue(parts, name).Some? ==> Printable(FirstValue(parts, name).value)
  {
    if parts != [] {
      FirstValueIsPrintable(parts[1..], name);
      if Value(parts[0], name).Some? { ValueIsPrintable(parts[0], name); }
    }
  }

  /** No header at all makes the reader return a token that is empty, padded or has a semicolon. */
  lemma ExtractedIsPrintable(header: string, name: string)
    ensures var v := ExtractCookieValue(Some(header), name);
            v.Some? ==> Printable(v.value)
  {
    JoinSplit(header, ';');
    FirstValueIsPrintable(Split(header, ';'), name);
  }

  /** So a token makes the trip iff it is non-empty, trimmed and free of semicolons. */
  lemma TokenSurvivesIff(c: CookieConfig, token: string)
    ensures ExtractCookieValue(Some(Pair(BuildSessionCookie(c, token))), SESSION) == Some(token) <==> Printable(token)
  {
    if Printable(token) {
      var pair := Pair(BuildSessionCookie(c, token));
      SessionCookieRoundTrip(c, token, [], "", "", []);
      assert "" + pair + "" == pair;
      assert [] + [pair] + [] == [pair];
      assert Header([], "", pair, "", []) == pair;
    }
    ExtractedIsPrintable(Pair(BuildSessionCookie(c, token)), SESSION);
  }

  /** A cookie authenticates exactly the requests without a bearer token, WebSocket upgrades included. */
  lemma SessionCookieAuthenticates(
      c: CookieConfig, token: string, authorization: Option<string>, protocols: Option<string>, before: seq<string>,
      after: seq<string>)
    requires Printable(token) && Quiet(before) && Quiet(after)
    requires ExtractBearer(authorization) != Some(token)
    ensures var cookie := Some(Header(before, " ", Pair(BuildSessionCookie(c, token)), "", after));
            && (ExtractToken(authorization, cookie) == Some(token) <==> ExtractBearer(authorization) == None)
            && ExtractWsToken(authorization, cookie, protocols) == ExtractToken(authorization, cookie)
  {
    SessionCookieRoundTrip(c, token, before, " ", "", after);
  }

  // ---------------------------------------------------------------------------------------
  // The attributes, and the other places a token can come from
  // ---------------------------------------------------------------------------------------

  /** The number a text of decimal digits stands for. */
  function Decimal(digits: string): int {
    if digits == "" then 0 else Decimal(digits[..|digits| - 1]) * 10 + (digits[|digits| - 1] as int - '0' as int)
  }

  /** The cookies live for 30 days. */
  lemma MaxAgeIsThirtyDays()
    ensures Decimal(MAX_AGE) == 30 * 24 * 60 * 60
  {
    assert MAX_AGE[..6] == "259200" && "259200"[..5] == "25920" && "25920"[..4] == "2592";
    assert "2592"[..3] == "259" && "259"[..2] == "25" && "25"[..1] == "2" && "2"[..0] == "";
  }

  lemma AttributesSpelled(maxAge: string)
    ensures Attributes(FromEnvironment(true), maxAge) == "SameSite=" + "Strict" + "; Secure" + "; Max-Age=" + maxAge
    ensures Attributes(FromEnvironment(false), maxAge) == "SameSite=" + "Lax" + "; Max-Age=" + maxAge
  {
    var site := "SameSite=" + "Lax";
    assert site + "" == site;
  }

  /**
   The cookies as they are sent: only the CSRF cookie can be read by scripts, the cleared one expires at once,
   and over HTTPS every one is strict and secure.
   */
  lemma CookiesSpelled(https: bool, token: string)
    ensures var c := FromEnvironment(https);
            var policy := if https then "SameSite=" + "Strict" + "; Secure" else "SameSite=" + "Lax";
            && BuildSessionCookie(c, token)
               == "aionui-session" + "=" + token + "; Path=/; HttpOnly; " + (policy + "; Max-Age=" + "2592000")
            && ClearSessionCookie(c) == "aionui-session" + "=" + "; Path=/; HttpOnly; " + (policy + "; Max-Age=" + "0")
            && BuildCsrfCookie(c, token)
               == "aionui-csrf-token" + "=" + token + "; Path=/; " + (policy + "; Max-Age=" + "2592000")
  {
    AttributesSpelled(MAX_AGE);
    AttributesSpelled("0");
  }

  /** Exactly which headers carry which bearer token. */
  lemma BearerIff(authorization: Option<string>, token: string)
    ensures ExtractBearer(authorization) == Some(token) <==> token != "" && authorization == Some("Bearer " + token)
  {
    if ExtractBearer(authorization) == Some(token) {
      assert authorization.value == "Bearer " + authorization.value[|"Bearer "|..];
    }
    if authorization == Some("Bearer " + token) {
      assert ("Bearer " + token)[|"Bearer "|..] == token;
    }
  }

  /** A WebSocket upgrade without either authenticates by the first protocol it offers, trimmed. */
  lemma FirstProtocolAuthenticates(
      authorization: Option<string>, cookie: Option<string>, pad: string, token: string, tail: string,
      more: Option<string>)
    requires ExtractBearer(authorization) == None && ExtractCookieValue(cookie, SESSION) == None
    requires AllSpace(pad) && AllSpace(tail) && Trimmed(token) && Lacks(token, ',')
    ensures ExtractWsToken(authorization, cookie,
                           Some(pad + token + tail + if more.Some? then "," + more.value else ""))
            == if token == "" then None else Some(token)
    ensures ExtractWsToken(authorization, cookie, None) == None
  {
    var first := pad + token + tail;
    assert Lacks(first, ',') by {
      assert forall i :: 0 <= i < |pad| ==> IsSpace(pad[i]);
      assert forall i :: 0 <= i < |tail| ==> IsSpace(tail[i]);
    }
    TrimPadded(pad, token, tail);
    if more.Some? {
      SplitAtFirst(first, ',', more.value);
      assert first + ("," + more.value) == first + [','] + more.value;
    } else {
      SplitLacks(first, ',');
      assert first + "" == first;
    }
  }
}
