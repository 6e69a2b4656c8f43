/** The authorization-code exchange of section 4.1.3 of RFC 6749
    (`Authenticate` in spapi.go), as a pure transition of the engine. The
    HTTP round trip is a function parameter from the request sent to the
    outcome observed. */
module OAuth {
  import opened Wrappers
  import opened Spapi
  import Lwa

  const TokenEndpoint := "https://api.amazon.com/auth/o2/token"

  /** A form-encoded POST: the target URL and its form fields, one value per key. */
  datatype PostRequest = PostRequest(url: string, form: map<string, string>)

  /** What the transport reports: no response at all, or a status code with
      the body text and what decoding the body as a token payload produced.
      A decode that fails part-way still produces a record, with the fields
      it did not reach left at their zero values. */
  datatype Outcome =
    | TransportFailure
    | Responded(statusCode: int, body: string, decoded: OAuthSPAPI, decodeOk: bool)

  /** The value returned to the caller and the engine after the call. */
  datatype Exchange = Exchange(result: Result<OAuthSPAPI, Error>, engine: Engine)

  /** The token request for an authorization code: the client's callback URL,
      client id and secret go out with the code; the AWS keys do not. */
  function TokenRequest(engine: Engine, code: string): (req: PostRequest)
    ensures req.url == TokenEndpoint
    ensures req.form.Keys == {"grant_type", "code", "redirect_uri", "client_id", "client_secret"}
    ensures req.form["grant_type"] == "authorization_code"
    ensures req.form["code"] == code
    ensures req.form["redirect_uri"] == FieldValue(engine.config.credentials, SPAPICallbackURL)
    ensures req.form["client_id"] == FieldValue(engine.config.credentials, ClientID)
    ensures req.form["client_secret"] == FieldValue(engine.config.credentials, SPAPIClientSecret)
  {
    var c := engine.config.credentials;
    PostRequest(TokenEndpoint, map[
      "grant_type" := "authorization_code",
      "code" := code,
      "redirect_uri" := c.spapiCallbackUrl,
      "client_id" := c.clientId,
      "client_secret" := c.spapiClientSecret])
  }

  /** The four token fields of a credential bundle. */
  function Tokens(c: Credentials): OAuthSPAPI {
    OAuthSPAPI(c.accessToken, c.refreshToken, c.tokenType, c.expiresIn)
  }

  /** The six static fields agree. */
  predicate SameStatic(c1: Credentials, c2: Credentials) {
    forall f: Field :: FieldValue(c1, f) == FieldValue(c2, f)
  }

  /** A bundle is its static fields plus its tokens: nothing else is stored. */
  lemma CredentialsDeterminedBy(c1: Credentials, c2: Credentials)
    requires SameStatic(c1, c2) && Tokens(c1) == Tokens(c2)
    ensures c1 == c2
  {
    assert FieldValue(c1, ClientID) == FieldValue(c2, ClientID);
    assert FieldValue(c1, SPAPIClientID) == FieldValue(c2, SPAPIClientID);
    assert FieldValue(c1, SPAPIClientSecret) == FieldValue(c2, SPAPIClientSecret);
    assert FieldValue(c1, SPAPICallbackURL) == FieldValue(c2, SPAPICallbackURL);
    assert FieldValue(c1, AWSAccessKeyID) == FieldValue(c2, AWSAccessKeyID);
    assert FieldValue(c1, AWSAccessKey) == FieldValue(c2, AWSAccessKey);
  }

  /** Overwrites the four token fields of a bundle with a token payload. */
  function WithTokens(c: Credentials, t: OAuthSPAPI): (c': Credentials)
    ensures Tokens(c') == t
    ensures SameStatic(c, c')
  {
    c.(accessToken := t.accessToken, refreshToken := t.refreshToken,
       tokenType := t.tokenType, expiresIn := t.expiresIn)
  }

  /** Region, flags and static credentials agree: only tokens may differ. */
  predicate SameSettings(e1: Engine, e2: Engine) {
    && e1.config.region == e2.config.region
    && e1.config.sandBox == e2.config.sandBox
    && e1.config.beta == e2.config.beta
    && SameStatic(e1.config.credentials, e2.config.credentials)
  }

  /** Exchanges an authorization code for tokens. A transport failure or a
      status other than 200 is an error and leaves the engine as it was; a
      200 stores the decoded record in the four token fields and returns
      it, whether or not decoding succeeded. */
  function Authenticate(engine: Engine, code: string, post: PostRequest -> Outcome): (x: Exchange)
    ensures SameSettings(engine, x.engine)
    ensures x.result.Failure? ==> x.engine == engine
    ensures post(TokenRequest(engine, code)).TransportFailure? ==> x.result == Failure(PostFailed)
    ensures var o := post(TokenRequest(engine, code));
            o.Responded? && o.statusCode != 200 ==>
              x.result == Failure(TokenRejected(o.body)) && Message(x.result.error) == TokenRejectedPrefix + o.body
    ensures var o := post(TokenRequest(engine, code));
            x.result.Success? <==> o.Responded? && o.statusCode == 200
    ensures x.result.Success? ==>
              x.result.value == post(TokenRequest(engine, code)).decoded
              && Tokens(x.engine.config.credentials) == x.result.value
  {
    match post(TokenRequest(engine, code))
    case TransportFailure => Exchange(Failure(PostFailed), engine)
    case Responded(status, body, decoded, _) =>
      if status != 200 then Exchange(Failure(TokenRejected(body)), engine)
      else
        var c := WithTokens(engine.config.credentials, decoded);
        Exchange(Success(decoded), Engine(engine.config.(credentials := c)))
  }

  /** Exactly the four token fields change: after a successful exchange the
      engine is the old one with the returned record as its tokens. */
  lemma AuthenticateChangesOnlyTokens(engine: Engine, code: string, post: PostRequest -> Outcome)
    ensures var x := Authenticate(engine, code, post);
            x.result.Success? ==>
              x.engine == Engine(engine.config.(credentials := WithTokens(engine.config.credentials, x.result.value)))
  {
  }

  /** An engine that `New` would accept stays acceptable after any exchange. */
  lemma AuthenticatePreservesValid(engine: Engine, code: string, post: PostRequest -> Outcome)
    requires Valid(engine.config)
    ensures Valid(Authenticate(engine, code, post).engine.config)
  {
  }

  /** The decode error is discarded: whether decoding succeeded makes no
      difference to what is returned or stored. */
  lemma DecodeFailureIgnored(engine: Engine, code: string, post: PostRequest -> Outcome,
                             post': PostRequest -> Outcome)
    requires var o, o' := post(TokenRequest(engine, code)), post'(TokenRequest(engine, code));
             o.Responded? && o' == o.(decodeOk := !o.decodeOk)
    ensures Authenticate(engine, code, post) == Authenticate(engine, code, post')
  {
  }

  /** An exchange leaves both URLs the engine builds unchanged. */
  lemma AuthenticateKeepsURLs(engine: Engine, code: string, post: PostRequest -> Outcome)
    ensures var e' := Authenticate(engine, code, post).engine;
            Lwa.GetSellerCentralURLForRegion(e') == Lwa.GetSellerCentralURLForRegion(engine)
            && Lwa.GetLWAURL(e') == Lwa.GetLWAURL(engine)
  {
  }

  /** A later exchange sends exactly the request an earlier one sent for
      the same code: the fields that go out are never overwritten. */
  lemma AuthenticateKeepsRequest(engine: Engine, code: string, code': string, post: PostRequest -> Outcome)
    ensures TokenRequest(Authenticate(engine, code, post).engine, code') == TokenRequest(engine, code')
  {
  }

  /** A new exchange simply overwrites the tokens: after two successful
      exchanges the engine holds the second record, whatever the first was. */
  lemma LastExchangeWins(engine: Engine, code1: string, post1: PostRequest -> Outcome,
                         code2: string, post2: PostRequest -> Outcome)
    ensures var x1 := Authenticate(engine, code1, post1);
            var x2 := Authenticate(x1.engine, code2, post2);
            x2.result.Success? ==>
              x2.engine == Engine(engine.config.(credentials := WithTokens(engine.config.credentials, x2.result.value)))
  {
  }
}
