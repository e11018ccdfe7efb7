/** Concrete headers, and what GetTokenFromAuthHeader gives for them. Each example
    is split into a helper lemma that settles the spelling of its literal strings,
    which is no property of the parser, and a lemma that applies the general
    results of module BearerHeader. */
module HeaderExamples {
  import opened Wrappers
  import opened PyStrings
  import opened BearerHeader

  /** Helper: `Bearer` passes the scheme test. */
  lemma BearerSpelling(scheme: string)
    requires scheme == "Bearer"
    ensures IsBearer(scheme)
  {
    assert Lower(scheme) == "bearer";
  }

  /** "Bearer" alone lacks its token. */
  lemma SchemeOnlyExample(h: string)
    requires h == "Bearer"
    ensures GetTokenFromAuthHeader(Some(h)) == Err(Rejected(TokenNotFound))
  {
    BearerSpelling(h);
    SchemeOnlyHeader("", h, "");
    assert "" + h + "" == h;
  }

  /** Helper: `Bearer a b` cut into scheme, gap, token and the extra part. */
  lemma ThreePartsSpelling(h: string, scheme: string, gap: string, token: string, more: string)
    requires h == "Bearer a b" && scheme == "Bearer" && gap == " " && token == "a" && more == " b"
    ensures h == scheme + gap + token + more
    ensures AllSpace(gap) && |gap| > 0 && |token| > 0 && NoSpace(token)
    ensures |more| > 0 && IsSpace(more[0]) && !AllSpace(more)
  {
    assert !IsSpace(more[1]);
  }

  /** "Bearer a b" has one part too many. */
  lemma ThreePartsExample(h: string)
    requires h == "Bearer a b"
    ensures GetTokenFromAuthHeader(Some(h)) == Err(Rejected(NotBearerToken))
  {
    var scheme, gap, token, more := "Bearer", " ", "a", " b";
    BearerSpelling(scheme);
    ThreePartsSpelling(h, scheme, gap, token, more);
    ExtraPartsHeader(scheme, gap, token, more);
  }

  /** Helper: `Basic abc` cut into a scheme that is not bearer and the rest. */
  lemma OtherSchemeSpelling(h: string, scheme: string, rest: string)
    requires h == "Basic abc" && scheme == "Basic" && rest == " abc"
    ensures h == scheme + rest && |scheme| > 0 && NoSpace(scheme) && IsSpace(rest[0])
    ensures !IsBearer(scheme)
  {
    assert Lower(scheme)[1] == 'a';
  }

  /** "Basic abc" has the wrong scheme. */
  lemma OtherSchemeExample(h: string)
    requires h == "Basic abc"
    ensures GetTokenFromAuthHeader(Some(h)) == Err(Rejected(SchemeNotBearer))
  {
    var scheme, rest := "Basic", " abc";
    OtherSchemeSpelling(h, scheme, rest);
    WrongSchemeHeader(scheme, rest);
  }

  /** Helper: `bEaReR xyz` cut into scheme, gap and token. */
  lemma MixedCaseSpelling(h: string, scheme: string, gap: string, token: string)
    requires h == "bEaReR xyz" && scheme == "bEaReR" && gap == " " && token == "xyz"
    ensures h == "" + scheme + gap + token + ""
    ensures IsBearer(scheme) && AllSpace(gap) && |gap| > 0 && |token| > 0 && NoSpace(token)
  {
    assert Lower(scheme) == "bearer";
  }

  /** "bEaReR xyz" yields "xyz": the scheme is compared without regard to case. */
  lemma MixedCaseExample(h: string)
    requires h == "bEaReR xyz"
    ensures GetTokenFromAuthHeader(Some(h)) == Ok("xyz")
  {
    var scheme, gap, token := "bEaReR", " ", "xyz";
    MixedCaseSpelling(h, scheme, gap, token);
    BearerTokenRoundTrip("", scheme, gap, token, "");
  }
}
