/** The OIDC bearer-token validator: construction checks, issuer
    normalisation, JWKS location, the order of the checks in `Validate` and
    the exact-token scope test. Signature checking, claim decoding, audience
    and expiry checking and the key-set fetch belong to the JWT library and
    the network; they enter as the `JwtLibrary` and `fetch` oracles. */
module OidcAuth {
  import opened Wrappers
  import opened GoStrings
  import opened AppErrors

  /** Appended to the normalised issuer to locate its signing keys. */
  const JwksSuffix := "/.well-known/jwks.json"

  /** A fetched signing-key set, seen through its key identifiers. */
  datatype KeySet = KeySet(keyIds: seq<string>)

  /** A claim value as decoded from the token: a JSON string or anything else. */
  datatype ClaimValue = StringClaim(s: string) | OtherClaim

  /** A parsed and verified token: its `iss` claim and its private claims. */
  datatype Token = Token(issuer: string, claims: map<string, ClaimValue>)

  /** The validator's configuration, set once at construction. */
  datatype OIDCValidator = OIDCValidator(issuer: string, audience: string, scope: string, keySet: KeySet)

  /** The JWT library: `jwt.Parse` with a key set (signature, decoding and
      time checks) and `jwt.Validate` with an audience. */
  datatype JwtLibrary = JwtLibrary(
    parse: (string, KeySet) -> Result<Token, Err>,
    validateAudience: (Token, string) -> Option<Err>)

  /** The outcome of `NewOIDCValidator`, with the URI it fetched keys from,
      if it got that far. */
  datatype Construction = Construction(fetchedFrom: Option<string>, result: Result<OIDCValidator, Err>)

  /** `normalizeIssuer`: trailing slashes removed. */
  function NormalizeIssuer(issuer: string): (r: string)
    ensures r == [] || r[|r| - 1] != '/'
    ensures |r| <= |issuer| && r == issuer[..|r|] && forall i :: |r| <= i < |issuer| ==> issuer[i] == '/'
  {
    TrimRightSpec(issuer, '/');
    TrimRight(issuer, '/')
  }

  /** Normalising twice is normalising once, an issuer without a trailing
      slash is already normal, and adding slashes changes nothing. */
  lemma NormalizeIssuerIdempotent(issuer: string)
    ensures NormalizeIssuer(NormalizeIssuer(issuer)) == NormalizeIssuer(issuer)
    ensures issuer == [] || issuer[|issuer| - 1] != '/' ==> NormalizeIssuer(issuer) == issuer
    ensures NormalizeIssuer(issuer + "/") == NormalizeIssuer(issuer)
  {
    assert (issuer + "/")[..|issuer|] == issuer;
  }

  /** `NewOIDCValidator`: rejects an empty issuer, audience or scope, in that
      order and before any fetch; fetches the key set from the normalised
      issuer plus the well-known suffix; refuses an empty key set. */
  function NewOIDCValidator(issuer: string, audience: string, scope: string,
                            fetch: string -> Result<KeySet, Err>): (c: Construction)
    ensures issuer == "" ==> c == Construction(None, Failure(Plain("authority is required")))
    ensures issuer != "" && audience == "" ==> c == Construction(None, Failure(Plain("audience is required")))
    ensures issuer != "" && audience != "" && scope == "" ==> c == Construction(None, Failure(Plain("scope is required")))
    ensures c.fetchedFrom.Some? <==> issuer != "" && audience != "" && scope != ""
    ensures c.fetchedFrom.Some? ==> c.fetchedFrom.value == NormalizeIssuer(issuer) + JwksSuffix
    ensures c.result.Success? <==>
      c.fetchedFrom.Some? && fetch(c.fetchedFrom.value).Success? && |fetch(c.fetchedFrom.value).value.keyIds| > 0
    ensures c.result.Success? ==>
      c.result.value == OIDCValidator(NormalizeIssuer(issuer), audience, scope, fetch(c.fetchedFrom.value).value)
  {
    if issuer == "" then Construction(None, Failure(Plain("authority is required")))
    else if audience == "" then Construction(None, Failure(Plain("audience is required")))
    else if scope == "" then Construction(None, Failure(Plain("scope is required")))
    else
      var normalizedIssuer := NormalizeIssuer(issuer);
      var jwksUri := normalizedIssuer + JwksSuffix;
      match fetch(jwksUri)
      case Failure(e) => Construction(Some(jwksUri), Failure(Wrapped("failed to fetch jwks: ", e, "")))
      case Success(keySet) =>
        if |keySet.keyIds| == 0 then Construction(Some(jwksUri), Failure(Plain("jwks is empty")))
        else Construction(Some(jwksUri), Success(OIDCValidator(normalizedIssuer, audience, scope, keySet)))
  }

  /** Issuers that differ only in a trailing slash construct the same
      validator from the same key-set location. */
  lemma ConstructionIgnoresTrailingSlash(issuer: string, audience: string, scope: string,
                                         fetch: string -> Result<KeySet, Err>)
    requires issuer != ""
    ensures NewOIDCValidator(issuer + "/", audience, scope, fetch) == NewOIDCValidator(issuer, audience, scope, fetch)
  {
    NormalizeIssuerIdempotent(issuer);
  }

  /** `%q` formatting, escaping quotes and backslashes. */
  function Quote(s: string): string {
    "\"" + Escape(s) + "\""
  }

  function Escape(s: string): string {
    if s == [] then []
    else (if s[0] == '"' then "\\\"" else if s[0] == '\\' then "\\\\" else [s[0]]) + Escape(s[1..])
  }

  /** Reading escapes back: a backslash takes the next character literally. */
  function Unescape(t: string): string
    decreases |t|
  {
    if t == [] then []
    else if t[0] == '\\' && |t| >= 2 then [t[1]] + Unescape(t[2..])
    else [t[0]] + Unescape(t[1..])
  }

  lemma {:induction false} EscapeRoundTrip(s: string)
    ensures Unescape(Escape(s)) == s
    decreases |s|
  {
    if s != [] {
      var rest := Escape(s[1..]);
      EscapeRoundTrip(s[1..]);
      var e := Escape(s);
      if s[0] == '"' || s[0] == '\\' {
        assert e == ['\\', s[0]] + rest;
        assert e[2..] == rest;
      } else {
        assert e == [s[0]] + rest;
        assert e[1..] == rest;
      }
      assert s == [s[0]] + s[1..];
    }
  }

  /** `%q` output is enclosed in double quotes, and reading the escapes
      between them back gives the original string. */
  lemma QuoteRoundTrip(s: string)
    ensures var q := Quote(s);
      |q| >= 2 && q[0] == '"' && q[|q| - 1] == '"' && Unescape(q[1..|q| - 1]) == s
  {
    var q := Quote(s);
    assert q[1..|q| - 1] == Escape(s);
    EscapeRoundTrip(s);
  }

  /** `hasRequiredScope`: the `scope` claim must be present, be a string,
      and have `required` as one of its white-space-separated fields. */
  predicate HasRequiredScope(token: Token, required: string) {
    if "scope" !in token.claims then false
    else match token.claims["scope"]
      case StringClaim(scope) => required in Fields(scope)
      case OtherClaim => false
  }

  /** The scope test is exact: it holds when and only when `required`
      stands in the scope string as a whole field, bounded by white space or
      the ends of the string. */
  lemma HasRequiredScopeExact(token: Token, required: string)
    ensures HasRequiredScope(token, required) <==>
      "scope" in token.claims && token.claims["scope"].StringClaim? &&
      IsField(token.claims["scope"].s, required)
  {
    if "scope" in token.claims && token.claims["scope"].StringClaim? {
      FieldsExact(token.claims["scope"].s, required);
    }
  }

  /** An empty required scope, or one holding white space, is never met. */
  lemma RequiredScopeMustBeOneWord(token: Token, required: string)
    requires required == [] || !NoSpace(required)
    ensures !HasRequiredScope(token, required)
  {
    if HasRequiredScope(token, required) {
      FieldsAreWords(token.claims["scope"].s, required);
    }
  }

  /** A longer scope that merely starts with the required one does not
      satisfy it. */
  lemma ScopeExampleNoPrefixMatch(issuer: string)
    ensures !HasRequiredScope(Token(issuer, map["scope" := StringClaim("pdf#create2")]), "pdf#create")
  {
    var s := "pdf#create2";
    HasRequiredScopeExact(Token(issuer, map["scope" := StringClaim(s)]), "pdf#create");
    assert s[0] == 'p' && s[10] == '2';
    forall p | 0 <= p <= |s| ensures !FieldAt(s, "pdf#create", p) {
    }
  }

  /** The required scope set off by white space (or the ends of the
      string) among any other scopes satisfies it. */
  lemma ScopeAmongOthers(issuer: string, before: string, required: string, after: string)
    requires required != [] && NoSpace(required)
    requires before == [] || IsSpace(before[|before| - 1])
    requires after == [] || IsSpace(after[0])
    ensures HasRequiredScope(Token(issuer, map["scope" := StringClaim(before + required + after)]), required)
  {
    var s := before + required + after;
    HasRequiredScopeExact(Token(issuer, map["scope" := StringClaim(s)]), required);
    var p := |before|;
    assert s[p..p + |required|] == required;
    forall x | p <= x < p + |required| ensures !IsSpace(s[x]) {
      assert s[x] == required[x - p];
    }
    if p > 0 { assert s[p - 1] == before[p - 1]; }
    if after != [] { assert s[p + |required|] == after[0]; }
    assert FieldAt(s, required, p);
  }

  /** `Validate`: signature and decoding, then audience, then issuer (with
      trailing slashes ignored on the token side; the stored issuer is
      already normal), then scope. Only the scope failure is `ErrForbidden`. */
  function Validate(v: OIDCValidator, token: string, jwt: JwtLibrary): (r: Option<Err>)
    ensures r.None? <==>
      jwt.parse(token, v.keySet).Success? &&
      jwt.validateAudience(jwt.parse(token, v.keySet).value, v.audience).None? &&
      NormalizeIssuer(jwt.parse(token, v.keySet).value.issuer) == v.issuer &&
      HasRequiredScope(jwt.parse(token, v.keySet).value, v.scope)
    ensures var p := jwt.parse(token, v.keySet);
      p.Failure? ==> r.Some? && Chain(r.value)[1..] == Chain(p.error) &&
                     Text(r.value) == "token verification failed: " + Text(p.error)
    ensures var p := jwt.parse(token, v.keySet);
      p.Success? && jwt.validateAudience(p.value, v.audience).Some? ==>
        var e := jwt.validateAudience(p.value, v.audience).value;
        r.Some? && Chain(r.value)[1..] == Chain(e) && Text(r.value) == "token claims validation failed: " + Text(e)
    ensures var p := jwt.parse(token, v.keySet);
      p.Success? && jwt.validateAudience(p.value, v.audience).None? && NormalizeIssuer(p.value.issuer) != v.issuer ==>
        r.Some? && Chain(r.value) == [r.value] && Text(r.value) == "token claims validation failed: issuer mismatch"
    ensures var p := jwt.parse(token, v.keySet);
      p.Success? && jwt.validateAudience(p.value, v.audience).None? && NormalizeIssuer(p.value.issuer) == v.issuer &&
      !HasRequiredScope(p.value, v.scope) ==>
        r.Some? && Chain(r.value) == [r.value, Forbidden] &&
        Text(r.value) == Text(Forbidden) + ": required scope " + Quote(v.scope) + " missing"
  {
    match jwt.parse(token, v.keySet)
    case Failure(e) => Some(Wrapped("token verification failed: ", e, ""))
    case Success(parsed) =>
      match jwt.validateAudience(parsed, v.audience)
      case Some(e) => Some(Wrapped("token claims validation failed: ", e, ""))
      case None =>
        if NormalizeIssuer(parsed.issuer) != v.issuer then
          Some(Plain("token claims validation failed: issuer mismatch"))
        else if !HasRequiredScope(parsed, v.scope) then
          Some(Wrapped("", Forbidden, ": required scope " + Quote(v.scope) + " missing"))
        else None
  }

  /** The library's own errors do not carry this package's sentinel. */
  predicate LibraryErrorsPlain(v: OIDCValidator, token: string, jwt: JwtLibrary) {
    (jwt.parse(token, v.keySet).Failure? ==> !Is(jwt.parse(token, v.keySet).error, Forbidden)) &&
    (jwt.parse(token, v.keySet).Success? &&
     jwt.validateAudience(jwt.parse(token, v.keySet).value, v.audience).Some? ==>
       !Is(jwt.validateAudience(jwt.parse(token, v.keySet).value, v.audience).value, Forbidden))
  }

  /** A validation failure is `ErrForbidden` exactly when the token passed the
      signature, audience and issuer checks and lacks the required scope;
      every other failure is an authentication failure. */
  lemma ForbiddenOnlyForMissingScope(v: OIDCValidator, token: string, jwt: JwtLibrary)
    requires LibraryErrorsPlain(v, token, jwt)
    ensures var r := Validate(v, token, jwt);
      r.Some? && Is(r.value, Forbidden) <==>
        jwt.parse(token, v.keySet).Success? &&
        jwt.validateAudience(jwt.parse(token, v.keySet).value, v.audience).None? &&
        NormalizeIssuer(jwt.parse(token, v.keySet).value.issuer) == v.issuer &&
        !HasRequiredScope(jwt.parse(token, v.keySet).value, v.scope)
  {
  }

  /** For a validator built by `NewOIDCValidator`, the issuer check compares
      both issuers with their trailing slashes removed. */
  lemma IssuerCheckIgnoresTrailingSlashes(issuer: string, audience: string, scope: string,
                                          fetch: string -> Result<KeySet, Err>, tokenIssuer: string)
    requires NewOIDCValidator(issuer, audience, scope, fetch).result.Success?
    ensures var v := NewOIDCValidator(issuer, audience, scope, fetch).result.value;
      (NormalizeIssuer(tokenIssuer) == v.issuer) <==> (NormalizeIssuer(tokenIssuer) == NormalizeIssuer(issuer))
  {
  }
}
