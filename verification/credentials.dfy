/**
  Bearer-token extraction and the JWT-versus-refresh-token classification of
  `src/api/controllers/chat-v2.ts`. Base64 decoding and `JSON.parse` of the middle
  segment are one abstract `decode` function that yields `None` where they would throw
  or where the result is not an object.
 */
module Credentials {
  import opened Wrappers
  import opened Text
  import opened Protocol

  /** The claims of a token payload that the controller reads. */
  datatype Payload = Payload(appId: Option<string>, typ: Option<string>, deviceId: Option<string>, ssid: Option<string>, sub: Option<string>)

  datatype TokenKind = Jwt | Refresh

  /** Whether `/^Bearer\s+/i` matches: the scheme in any letter case, then white space. */
  predicate HasScheme(header: string) {
    |header| >= 7 && LowerAscii(header[..6]) == "bearer" && IsSpace(header[6])
  }

  /** `header.replace(/^Bearer\s+/i, '')`: the scheme and all the white space after it go. */
  function StripBearer(header: string): string {
    if HasScheme(header) then TrimStart(header[6..]) else header
  }

  /**
    What remains of a header value once the scheme is removed and the result trimmed;
    the header is malformed exactly when nothing but white space follows the scheme.
   */
  function TokenFrom(header: string): (r: Result<string, Error>)
    ensures r.Success? ==> r.value != "" && IsTrimmed(r.value)
    ensures r.Failure? ==> r.error == MalformedCredential
    ensures r.Failure? <==> AllSpace(StripBearer(header))
  {
    var t := Trim(StripBearer(header));
    TrimIsTrimmed(StripBearer(header));
    TrimEmpty(StripBearer(header));
    if t == "" then Failure(MalformedCredential) else Success(t)
  }

  /**
    `extractAuthToken`: the `authorization` header wins; a truthy `x-goog-api-key` is used
    only in its absence, as if it had been sent as `Bearer <key>`.
   */
  function ExtractAuthToken(authorization: Option<string>, apiKey: Option<string>): (r: Result<string, Error>)
    ensures r.Success? ==> r.value != "" && IsTrimmed(r.value)
    ensures r == Failure(MissingCredential) <==> !Truthy(authorization) && !Truthy(apiKey)
    ensures r.Failure? ==> r.error == MissingCredential || r.error == MalformedCredential
  {
    if Truthy(authorization) then TokenFrom(authorization.value)
    else if Truthy(apiKey) then TokenFrom("Bearer " + apiKey.value)
    else Failure(MissingCredential)
  }

  /**
    An `authorization` header made of a scheme spelled `bearer` in any letter case, white
    space, and any rest yields the rest trimmed, whatever API key accompanies it; a rest
    of white space only (`"Bearer   "`) is malformed.
   */
  lemma ExtractBearerToken(scheme: string, ws: string, rest: string, apiKey: Option<string>)
    requires |scheme| == 6 && LowerAscii(scheme) == "bearer"
    requires |ws| > 0 && AllSpace(ws)
    ensures ExtractAuthToken(Some(scheme + ws + rest), apiKey)
         == if Trim(rest) == "" then Failure(MalformedCredential) else Success(Trim(rest))
  {
    StripSchemeHeader(scheme, ws, rest);
    TrimOfTrimStart(rest);
  }

  lemma StripSchemeHeader(scheme: string, ws: string, rest: string)
    requires |scheme| == 6 && LowerAscii(scheme) == "bearer"
    requires |ws| > 0 && AllSpace(ws)
    ensures StripBearer(scheme + ws + rest) == TrimStart(rest)
  {
    var h := scheme + ws + rest;
    assert h[..6] == scheme;
    assert h[6] == ws[0];
    assert h[6..] == ws + rest;
    TrimStartSkipsSpace(ws, rest);
  }

  /**
    An `authorization` header that does not start with the scheme and white space (a
    bare token, or `Bearer` with nothing after it) is used as it is, trimmed.
   */
  lemma ExtractPlainHeader(header: string, apiKey: Option<string>)
    requires header != "" && !HasScheme(header)
    ensures ExtractAuthToken(Some(header), apiKey)
         == if Trim(header) == "" then Failure(MalformedCredential) else Success(Trim(header))
  {
  }

  /** A bare JWT in `authorization` is taken as it is. */
  lemma ExtractBareToken(token: string, apiKey: Option<string>)
    requires StartsWith(token, "eyJ") && IsTrimmed(token)
    ensures ExtractAuthToken(Some(token), apiKey) == Success(token)
  {
    assert token[..3] == "eyJ";
    assert !HasScheme(token) by {
      if |token| >= 7 {
        assert token[..6][..3] == "eyJ";
        assert LowerAscii(token[..6])[0] == 'e';
      }
    }
    ExtractPlainHeader(token, apiKey);
    TrimOfTrimmed(token);
  }

  /** Without an `authorization` header, the API key is used trimmed, and must not trim to nothing. */
  lemma ExtractApiKey(authorization: Option<string>, key: string)
    requires !Truthy(authorization) && key != ""
    ensures ExtractAuthToken(authorization, Some(key))
         == if Trim(key) == "" then Failure(MalformedCredential) else Success(Trim(key))
  {
    StripKeyHeader(key);
    TrimStartOfNonSpace(TrimStart(key));
    assert Trim(StripBearer("Bearer " + key)) == Trim(key);
  }

  /** The header built from an API key loses its scheme and the key's leading white space. */
  lemma StripKeyHeader(key: string)
    ensures StripBearer("Bearer " + key) == TrimStart(key)
  {
    var h := "Bearer " + key;
    assert h[..6] == "Bearer" && IsSpace(h[6]);
    BearerFolds();
    assert HasScheme(h);
    assert h[6..] == " " + key;
    TrimStartSkipsSpace(" ", key);
  }

  lemma BearerFolds()
    ensures LowerAscii("Bearer") == "bearer"
  {
  }

  /** The claims that identify a Kimi access token. */
  predicate Accepted(p: Option<Payload>) {
    p.Some? && p.value.appId == Some("kimi") && p.value.typ == Some("access")
  }

  /** `token.split('.')[1]`, absent when the token has no dot. */
  function MiddleSegment(token: string): Option<string> {
    var parts := Split(token, '.');
    if |parts| >= 2 then Some(parts[1]) else None
  }

  /**
    `detectTokenType`: `Jwt` only for an `eyJ`-prefixed token with exactly three
    dot-separated segments whose middle segment decodes to accepted claims; anything
    else, including an undecodable payload, is `Refresh`.
   */
  function DetectTokenType(token: string, decode: string -> Option<Payload>): (k: TokenKind)
    ensures k == Jwt ==> StartsWith(token, "eyJ") && Count(token, '.') == 2
    ensures k == Jwt ==> Accepted(decode(MiddleSegment(token).value))
  {
    var parts := Split(token, '.');
    if StartsWith(token, "eyJ") && |parts| == 3 && Accepted(decode(parts[1])) then Jwt else Refresh
  }

  /**
    For a token assembled from three dot-free segments with an `eyJ` header, the
    classification is `Jwt` exactly when the middle segment decodes to accepted claims.
   */
  lemma JwtFromSegments(header: string, payload: string, signature: string, decode: string -> Option<Payload>)
    requires '.' !in header && '.' !in payload && '.' !in signature
    requires StartsWith(header, "eyJ")
    ensures DetectTokenType(header + "." + payload + "." + signature, decode) == Jwt
        <==> Accepted(decode(payload))
  {
    var token := header + "." + payload + "." + signature;
    var parts := [header, payload, signature];
    assert parts[1..] == [payload, signature] && parts[1..][1..] == [signature];
    assert Join(parts[1..], ".") == payload + "." + signature;
    assert Join(parts, ".") == header + "." + (payload + "." + signature);
    assert Join(parts, ".") == token;
    SplitJoin(parts, '.');
    assert token[..3] == header[..3];
  }

  /** A token whose dot count is not two is never a JWT, however it decodes. */
  lemma RefreshUnlessTwoDots(token: string, decode: string -> Option<Payload>)
    requires Count(token, '.') != 2
    ensures DetectTokenType(token, decode) == Refresh
  {
  }
}
