/** Extraction of the access token from an `Authorization: Bearer <token>` header
    (the header form of section 2.1 of RFC 6750, scheme compared case-insensitively
    as section 2.1 of RFC 7235 requires). */
module BearerHeader {
  import opened Wrappers
  import opened PyStrings
  import opened AuthErrors

  /** What `get_token_from_auth_header` can raise: the module's own authentication
      failure, or the `IndexError` Python raises when a non-empty header holds only
      whitespace and so has no first part. */
  datatype HeaderError = Rejected(failure: AuthenticationFailed) | IndexError

  const HeaderMissing :=
    AuthenticationFailed("authorization_header_missing", "Authorization header is expected", None, Unauthorized)
  const SchemeNotBearer :=
    AuthenticationFailed("invalid_header", "Authorization header must start with Bearer", None, Unauthorized)
  const TokenNotFound :=
    AuthenticationFailed("invalid_header", "Token not found", None, Unauthorized)
  const NotBearerToken :=
    AuthenticationFailed("invalid_header", "Authorization header must be Bearer token", None, Unauthorized)

  /** `scheme.lower() == "bearer"`: only a six-character scheme can pass. */
  predicate IsBearer(scheme: string)
    ensures IsBearer(scheme) ==> |scheme| == 6
  {
    Lower(scheme) == "bearer"
  }

  /** The token carried by an optional `Authorization` header value. Every rejection
      answers 401; a token handed back is the second whitespace-separated part, is
      non-empty and holds no whitespace. */
  function GetTokenFromAuthHeader(header: Option<string>): (r: Result<string, HeaderError>)
    ensures r.Err? && r.error.Rejected? ==> r.error.failure.status == 401
    ensures r.Ok? ==> |r.value| > 0 && NoSpace(r.value)
    ensures r.Ok? <==> header.Some? && |Words(header.value)| == 2 && IsBearer(Words(header.value)[0])
    ensures r.Ok? ==> r.value == Words(header.value)[1]
  {
    if header.None? || header.value == "" then Err(Rejected(HeaderMissing))
    else
      var parts := Words(header.value);
      if |parts| == 0 then Err(IndexError)
      else if !IsBearer(parts[0]) then Err(Rejected(SchemeNotBearer))
      else if |parts| == 1 then Err(Rejected(TokenNotFound))
      else if |parts| > 2 then Err(Rejected(NotBearerToken))
      else Ok(parts[1])
  }

  /** Any well-formed header, whatever the case of its scheme and whatever
      whitespace surrounds and separates its two parts, yields its token verbatim. */
  lemma BearerTokenRoundTrip(lead: string, scheme: string, gap: string, token: string, trail: string)
    requires IsBearer(scheme)
    requires AllSpace(lead) && AllSpace(gap) && |gap| > 0 && AllSpace(trail)
    requires |token| > 0 && NoSpace(token)
    ensures GetTokenFromAuthHeader(Some(lead + scheme + gap + token + trail)) == Ok(token)
  {
    LowerKeepsSpace(scheme);
    TwoWords(lead, scheme, gap, token, trail);
  }

  /** An absent header and an empty header are both "header missing", 401. */
  lemma MissingHeader(header: Option<string>)
    requires header == None || header == Some("")
    ensures GetTokenFromAuthHeader(header) == Err(Rejected(HeaderMissing))
    ensures GetTokenFromAuthHeader(header).error.failure.code == "authorization_header_missing"
    ensures GetTokenFromAuthHeader(header).error.failure.status == 401
  {
  }

  /** A non-empty header made only of whitespace has no first part: Python raises
      `IndexError`, not an authentication failure. */
  lemma WhitespaceOnlyHeader(h: string)
    requires |h| > 0 && AllSpace(h)
    ensures GetTokenFromAuthHeader(Some(h)) == Err(IndexError)
  {
    WordsEmptyIff(h);
  }

  /** The scheme is checked before the part count, then a lone scheme is caught,
      then a surplus of parts; each failure is `invalid_header` with status 401. */
  lemma HeaderErrorPrecedence(h: string)
    requires |Words(h)| > 0
    ensures !IsBearer(Words(h)[0]) ==> GetTokenFromAuthHeader(Some(h)) == Err(Rejected(SchemeNotBearer))
    ensures IsBearer(Words(h)[0]) && |Words(h)| == 1 ==> GetTokenFromAuthHeader(Some(h)) == Err(Rejected(TokenNotFound))
    ensures IsBearer(Words(h)[0]) && |Words(h)| > 2 ==> GetTokenFromAuthHeader(Some(h)) == Err(Rejected(NotBearerToken))
    ensures GetTokenFromAuthHeader(Some(h)).Err? ==>
              GetTokenFromAuthHeader(Some(h)).error.Rejected? &&
              GetTokenFromAuthHeader(Some(h)).error.failure.code == "invalid_header"
  {
    WordsEmptyIff(h);
    assert h != "";
  }

  /** A lone bearer scheme, whatever whitespace surrounds it, lacks its token. */
  lemma SchemeOnlyHeader(lead: string, scheme: string, trail: string)
    requires IsBearer(scheme) && AllSpace(lead) && AllSpace(trail)
    ensures GetTokenFromAuthHeader(Some(lead + scheme + trail)) == Err(Rejected(TokenNotFound))
  {
    LowerKeepsSpace(scheme);
    assert |scheme| == 6;
    OneWord(scheme, trail);
    WordsSkipSpace(lead, scheme + trail);
    assert lead + scheme + trail == lead + (scheme + trail);
  }

  /** A bearer scheme followed by two or more words is rejected as not a Bearer token. */
  lemma ExtraPartsHeader(scheme: string, gap: string, token: string, more: string)
    requires IsBearer(scheme) && AllSpace(gap) && |gap| > 0 && |token| > 0 && NoSpace(token)
    requires |more| > 0 && IsSpace(more[0]) && !AllSpace(more)
    ensures GetTokenFromAuthHeader(Some(scheme + gap + token + more)) == Err(Rejected(NotBearerToken))
  {
    LowerKeepsSpace(scheme);
    assert |scheme| == 6;
    WordsEmptyIff(more);
    WordsOfWordThen(token, more);
    WordsAfterWord(scheme, gap, token + more);
    assert scheme + gap + token + more == scheme + (gap + (token + more));
  }

  /** A first part that is not the bearer scheme is rejected whatever follows it. */
  lemma WrongSchemeHeader(scheme: string, rest: string)
    requires |scheme| > 0 && NoSpace(scheme) && !IsBearer(scheme)
    requires rest == [] || IsSpace(rest[0])
    ensures GetTokenFromAuthHeader(Some(scheme + rest)) == Err(Rejected(SchemeNotBearer))
  {
    WordsOfWordThen(scheme, rest);
  }

  // ---------------------------------------------------------------------------
  // A whitespace-only header

  /** The parse as its docstring describes it: every parsing error is an
      authentication failure with status 401. A header holding only whitespace is
      treated like an empty one instead of raising `IndexError`. */
  function GetTokenFromAuthHeaderCorrected(header: Option<string>): (r: Result<string, AuthenticationFailed>)
    ensures r.Err? ==> r.error.status == 401
    ensures r.Ok? <==> header.Some? && |Words(header.value)| == 2 && IsBearer(Words(header.value)[0])
    ensures r.Ok? ==> r.value == Words(header.value)[1]
  {
    if header.None? || Words(header.value) == [] then Err(HeaderMissing)
    else
      var parts := Words(header.value);
      if !IsBearer(parts[0]) then Err(SchemeNotBearer)
      else if |parts| == 1 then Err(TokenNotFound)
      else if |parts| > 2 then Err(NotBearerToken)
      else Ok(parts[1])
  }

  /** The corrected parse differs from the source only where the source raises
      `IndexError`, and there it reports a missing header. */
  lemma CorrectedAgrees(header: Option<string>)
    ensures GetTokenFromAuthHeader(header) == Err(IndexError) ==>
            GetTokenFromAuthHeaderCorrected(header) == Err(HeaderMissing)
    ensures GetTokenFromAuthHeader(header).Ok? ==>
            GetTokenFromAuthHeaderCorrected(header) == Ok(GetTokenFromAuthHeader(header).value)
    ensures GetTokenFromAuthHeader(header).Err? && GetTokenFromAuthHeader(header).error.Rejected? ==>
            GetTokenFromAuthHeaderCorrected(header) == Err(GetTokenFromAuthHeader(header).error.failure)
  {
    if header.Some? && header.value == "" {
      WordsEmptyIff(header.value);
    }
  }

  /** A single space is a header for which the source raises `IndexError`. */
  lemma SingleSpaceHeader(h: string)
    requires h == " "
    ensures GetTokenFromAuthHeader(Some(h)) == Err(IndexError)
    ensures GetTokenFromAuthHeaderCorrected(Some(h)) == Err(HeaderMissing)
  {
    WhitespaceOnlyHeader(h);
    CorrectedAgrees(Some(h));
  }
}
