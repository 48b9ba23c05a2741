/** Issuing, decoding and reading bearer tokens (app/services/jwt_service.py). */
module JwtService {
  import opened Errors
  import opened PyText

  /** A JSON value among a token's claims. */
  datatype Claim = CStr(s: string) | CBool(b: bool) | CNum(n: int) | CNull

  /** A token payload; a claim name appears at most once. */
  type Claims = map<string, Claim>

  /** What the JOSE library's `jwt.decode` does with a token and the configured key: the payload, a
      `JWTError` (bad signature, expired, malformed), or some other exception. */
  datatype Decoded = Payload(claims: Claims) | JwtError(msg: string) | Raised(exc: Exc)

  const AccessTokenExpireMinutes := 60
  const SecondsPerMinute := 60
  const BearerPrefix := "Bearer "

  /** The "exp" time in seconds. `if expires_delta:` treats a missing and a zero delta alike and then uses
      the default lifetime; a negative delta is truthy and is used as given. */
  function Expiry(now: int, delta: Option<int>): int
  {
    if delta.Some? && delta.value != 0 then now + delta.value
    else now + AccessTokenExpireMinutes * SecondsPerMinute
  }

  /** The copy of `data`, with "exp" set, that `create_access_token` encodes. */
  function ClaimsToEncode(data: Claims, now: int, delta: Option<int>): Claims
  {
    data["exp" := CNum(Expiry(now, delta))]
  }

  /** `create_access_token`, with `encode` standing for `jwt.encode` under the configured key and algorithm.
      Any encoding error is re-raised as a ValueError. */
  function CreateAccessToken(data: Claims, now: int, delta: Option<int>, encode: Claims -> Result<string>): Result<string>
  {
    var token := encode(ClaimsToEncode(data, now, delta));
    if token.Err? then Err(ValueErr("Token creation failed: " + ExcText(token.exc))) else token
  }

  /** `decode_token`: a JWTError becomes a ValueError; other exceptions pass through. */
  function DecodeToken(token: string, decode: string -> Decoded): Result<Claims>
  {
    match decode(token)
    case Payload(claims) => Ok(claims)
    case JwtError(msg) => Err(ValueErr("Invalid token: " + msg))
    case Raised(e) => Err(e)
  }

  /** `verify_token`: a JWTError becomes `False`; other exceptions pass through. */
  function VerifyToken(token: string, decode: string -> Decoded): Result<bool>
  {
    match decode(token)
    case Payload(_) => Ok(true)
    case JwtError(_) => Ok(false)
    case Raised(e) => Err(e)
  }

  /** `extract_token_from_header` */
  function ExtractTokenFromHeader(header: string): Result<string>
  {
    if header == "" || !StartsWith(header, BearerPrefix) then Err(ValueErr("Invalid authorization header format"))
    else
      var token := Strip(RemoveAll(header, BearerPrefix));
      if token == "" then Err(ValueErr("Token is empty after stripping")) else Ok(token)
  }

  /** The header a client sends for a token. */
  function BearerHeader(token: string): string
  {
    BearerPrefix + token
  }

  // ---------------------------------------------------------------- lemmas

  /** Without a (non-zero) delta a token lives 60 minutes; otherwise exactly `delta` seconds. */
  lemma ExpirySpec(now: int, delta: Option<int>)
    ensures (delta == None || delta == Some(0)) ==> Expiry(now, delta) == now + 3600
    ensures delta.Some? && delta.value != 0 ==> Expiry(now, delta) - now == delta.value
  {
  }

  /** The encoded claims are the caller's claims plus "exp"; a caller's own "exp" is overwritten and every other
      claim is kept with its value. */
  lemma ClaimsSpec(data: Claims, now: int, delta: Option<int>)
    ensures var c := ClaimsToEncode(data, now, delta);
            && c.Keys == data.Keys + {"exp"}
            && c["exp"] == CNum(Expiry(now, delta))
            && (forall k :: k in data && k != "exp" ==> c[k] == data[k])
  {
  }

  /** Creation fails exactly when encoding fails, and then with a ValueError saying so. */
  lemma CreateAccessTokenSpec(data: Claims, now: int, delta: Option<int>, encode: Claims -> Result<string>)
    ensures var r := CreateAccessToken(data, now, delta, encode);
            var e := encode(ClaimsToEncode(data, now, delta));
            && (r.Ok? <==> e.Ok?)
            && (r.Ok? ==> r.value == e.value)
            && (r.Err? ==> r.exc.ValueErr? && StartsWith(r.exc.msg, "Token creation failed: "))
  {
    var r := CreateAccessToken(data, now, delta, encode);
    if r.Err? {
      assert r.exc.msg == "Token creation failed: " + ExcText(encode(ClaimsToEncode(data, now, delta)).exc);
    }
  }

  /** `verify_token` answers `True` exactly when `decode_token` returns a payload, and `False` exactly when
      `decode_token` raises a ValueError of its own; any other exception is the same for both. */
  lemma DecodeVerifyAgree(token: string, decode: string -> Decoded)
    ensures VerifyToken(token, decode) == Ok(true) <==> DecodeToken(token, decode).Ok?
    ensures VerifyToken(token, decode) == Ok(false) <==> decode(token).JwtError?
    ensures decode(token).JwtError? ==>
              DecodeToken(token, decode).Err? && DecodeToken(token, decode).exc.ValueErr? &&
              StartsWith(DecodeToken(token, decode).exc.msg, "Invalid token: ")
    ensures VerifyToken(token, decode).Err? <==> decode(token).Raised?
    ensures decode(token).Raised? ==> VerifyToken(token, decode).exc == DecodeToken(token, decode).exc
  {
    if decode(token).JwtError? {
      assert DecodeToken(token, decode).exc.msg == "Invalid token: " + decode(token).msg;
    }
  }

  /** The header must start with "Bearer "; the token is the header with every "Bearer " removed and then
      stripped, it must not be empty, and it is shorter than the header by at least the prefix. */
  lemma ExtractTokenSpec(header: string)
    ensures var r := ExtractTokenFromHeader(header);
            && (!StartsWith(header, "Bearer ") ==> r == Err(ValueErr("Invalid authorization header format")))
            && (StartsWith(header, "Bearer ") ==>
                  var token := Strip(RemoveAll(header, "Bearer "));
                  && (token == "" ==> r == Err(ValueErr("Token is empty after stripping")))
                  && (token != "" ==> r == Ok(token)))
            && (r.Ok? ==>
                  && r.value != ""
                  && !IsSpace(r.value[0]) && !IsSpace(r.value[|r.value| - 1])
                  && |r.value| <= |header| - 7)
  {
    if StartsWith(header, BearerPrefix) {
      assert header != "";
      RemoveAllPrefix(header, BearerPrefix);
      RemoveAllShorter(header[7..], BearerPrefix);
      StripShorter(RemoveAll(header, BearerPrefix));
    }
  }

  /** Extraction inverts `BearerHeader` for a token with no surrounding whitespace and no "Bearer " inside. */
  lemma {:induction false} BearerRoundTrip(token: string)
    requires token != "" && !IsSpace(token[0]) && !IsSpace(token[|token| - 1])
    requires !Contains(token, "Bearer ")
    ensures ExtractTokenFromHeader(BearerHeader(token)) == Ok(token)
  {
    var header := BearerHeader(token);
    assert header[..7] == BearerPrefix;
    assert header[7..] == token;
    RemoveAllPrefix(header, BearerPrefix);
    RemoveAllAbsent(token, BearerPrefix);
    StripStripped(token);
  }

  /** A compact JWT has no whitespace at all, so every such token survives the round trip. */
  lemma JwtRoundTrip(token: string)
    requires IsWord(token)
    ensures ExtractTokenFromHeader(BearerHeader(token)) == Ok(token)
  {
    NoSpaceNoBearer(token);
    BearerRoundTrip(token);
  }

  lemma {:induction false} NoSpaceNoBearer(s: string)
    requires forall i :: 0 <= i < |s| ==> !IsSpace(s[i])
    ensures !Contains(s, "Bearer ")
    decreases |s|
  {
    if |s| >= 7 {
      assert s[..7][6] == s[6] && !IsSpace(s[6]);
    }
    if s != [] {
      NoSpaceNoBearer(s[1..]);
    }
  }

  lemma RemoveAllPrefix(s: string, pat: string)
    requires pat != [] && StartsWith(s, pat)
    ensures RemoveAll(s, pat) == RemoveAll(s[|pat|..], pat)
  {
  }

  lemma {:induction false} RemoveAllShorter(s: string, pat: string)
    requires pat != []
    ensures |RemoveAll(s, pat)| <= |s|
    decreases |s|
  {
    if |s| < |pat| {
    } else if s[..|pat|] == pat {
      RemoveAllShorter(s[|pat|..], pat);
    } else {
      RemoveAllShorter(s[1..], pat);
    }
  }

  lemma StripShorter(s: string)
    ensures |Strip(s)| <= |s|
  {
  }
}
