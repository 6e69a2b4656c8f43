# spapi in Dafny

A model of the `spapi` Go package (one file, `spapi.go`): a small client for the
Selling Partner API's Login-with-Amazon authorization flow. The package

- validates a configuration when an engine is built (`New`): the region must
  match the unanchored pattern `(eu|na|fe)`, then six static credential fields
  must be non-empty, checked in a fixed order with the first failure reported;
- resolves the Seller Central base URL of the region and builds the consent URL
  a seller visits (`GetSellerCentralURLForRegion`, `GetLWAURL`);
- exchanges an authorization code for tokens (`Authenticate`, the
  authorization-code grant of section 4.1.3 of RFC 6749) and stores the four
  token fields in the engine.

Layout:

- `wrappers.dfy` — `Result`, the `(value, error)` pair.
- `text.dfy` — prefix, suffix and substring predicates on strings.
- `spapi.dfy` — module `Spapi`: the `Config`, `Credentials`, `Engine` and
  `OAuthSPAPI` records, the error kinds and their texts, the region check and
  `New`.
- `lwa.dfy` — module `Lwa`: region resolution and the consent URL.
- `oauth.dfy` — module `OAuth`: the token request and `Authenticate` as a pure
  transition `(engine, code, transport) -> (result, engine')`.

The engine is an immutable value; the Go method that mutates the engine in
place returns the new engine instead. The HTTP round trip is a parameter
`post: PostRequest -> Outcome`: the outcome is a transport failure, or a status
code with the body text, the record the JSON decoder produced and whether
decoding succeeded. The `regexp` search is the leftmost scan `MatchFrom`,
proved to decide the predicate `RegionMatches` (the region contains `eu`, `na`
or `fe`). `int64` is the newtype `Int64`.

## Model

| member | source | states |
|---|---|---|
| Spapi.MatchFrom | spapi.go:83 | the leftmost scan from an index reports a match exactly when one of `eu`, `na`, `fe` starts at some later index |
| Spapi.ScanDecidesPattern | spapi.go:83 | the scan from the start matches exactly when `eu`, `na` or `fe` occurs anywhere in the region, which is what the unanchored search decides |
| Spapi.CheckRegion | spapi.go:82-88 | `checkRegion` fails, with the region error, exactly when none of the three literals occurs in the region |
| Spapi.New | spapi.go:44-80 | an invalid region gives the region error whatever the credentials; otherwise the first empty static field in the order ClientID, SPAPIClientID, SPAPIClientSecret, SPAPICallbackURL, AWSAccessKeyID, AWSAccessKey is the error; success exactly when the region matches and all six are non-empty, and then the engine holds the configuration unchanged, tokens included |
| Spapi.FirstMissing | spapi.go:53-75 | the reference credential scan: every field before the returned index is non-empty and the field at it, if any, is empty |
| Spapi.NewAgreesWithReference | spapi.go:44-80 | `New` equals the region check followed by the reference scan of the required fields in order |
| Spapi.NewIgnoresLaterFields | spapi.go:53-75 | fields after the first empty one are not consulted: configurations agreeing up to that field get the same result |
| Spapi.Message | spapi.go:54-131 | the error texts are the region message, `Credentials.<field> cannot be empty` for each field, `Error creating post request`, and `Fail to generate token. ` followed by the body |
| Spapi.MessageInjective | spapi.go:54-131 | the error texts (region message, `Credentials.<field> cannot be empty`, the post-failure text, `Fail to generate token. ` plus body) tell every error apart, including which field and which body |
| Lwa.GetSellerCentralURLForRegion | spapi.go:90-100 | the EU placeholder exactly for `"eu"`, the FE placeholder exactly for `"fe"`, the North American URL for every other region |
| Lwa.GetLWAURL | spapi.go:102-111 | the consent URL starts with the base URL and the consent path, ends with `&version=beta` in beta mode, and is exactly as long as its parts |
| Lwa.ApplicationIdRoundTrip | spapi.go:102-111 | the client id can be read back out of the consent URL given the base URL and the beta flag |
| Lwa.LWAURLInjective | spapi.go:102-111 | for a fixed region and beta flag, equal consent URLs mean equal client ids |
| Lwa.BetaExtendsPlain | spapi.go:102-111 | the beta URL is the plain URL plus `&version=beta`, so the plain URL is its prefix |
| Lwa.LWAURLDependsOnlyOn | spapi.go:90-111 | the consent URL depends only on region, beta flag and client id, so repeated calls on an unchanged engine agree |
| Lwa.UnescapedClientIdAmbiguous | spapi.go:104-108 | since the client id is not escaped, a plain URL whose client id ends in `&version=beta` equals the beta URL of the shorter id |
| Lwa.NonDefaultRegionsAreValid | spapi.go:82-100 | the two regions the resolver singles out both pass the region check |
| Lwa.SubstringRegionResolvesToDefault | spapi.go:82-100 | a region that contains `eu` or `fe` without being exactly that name (such as `xeu` or `fex`) passes the region check yet resolves to the North American URL |
| Lwa.NaRegionsResolveToDefault | spapi.go:82-100 | every region containing `na` passes the region check and resolves to the North American URL |
| OAuth.TokenRequest | spapi.go:114-119 | the POST goes to the token endpoint with exactly the five fields grant type, code, callback URL, client id and client secret |
| OAuth.WithTokens | spapi.go:138-141 | overwriting the tokens stores the given record and keeps the six static fields |
| OAuth.CredentialsDeterminedBy | spapi.go:24-35 | a credential bundle is determined by its six static fields and its four token fields |
| OAuth.Authenticate | spapi.go:113-144 | a transport failure gives the post error and a non-200 status gives `Fail to generate token. ` plus the body, both leaving the engine unchanged; a 200 returns the decoded record and stores it as the tokens; region, flags and static fields never change |
| OAuth.AuthenticateChangesOnlyTokens | spapi.go:134-143 | after a successful exchange the engine is the old one with exactly the four token fields replaced by the returned record |
| OAuth.AuthenticatePreservesValid | spapi.go:44-80 | an engine that `New` accepts stays acceptable after any exchange |
| OAuth.DecodeFailureIgnored | spapi.go:134-143 | whether decoding succeeded makes no difference to the result or the stored tokens |
| OAuth.AuthenticateKeepsURLs | spapi.go:90-143 | an exchange changes neither the base URL nor the consent URL |
| OAuth.AuthenticateKeepsRequest | spapi.go:113-141 | after an exchange, a request for any code carries the same fields as before it |
| OAuth.LastExchangeWins | spapi.go:134-143 | after two exchanges of which the second succeeds, the engine holds the second record and the original static settings |

## Left out

- The HTTP transport (`http.PostForm`, closing and buffering the body): the round trip is the `post` parameter.
- JSON decoding: the decoded record and the decode-ok flag are part of the outcome the transport reports, not computed from the body.
- URL encoding of the form body: the form is a map from field name to its one value.
- The `regexp` library: replaced by the substring predicate it decides for the pattern `(eu|na|fe)`.
- The `SandBox` flag is stored and carried through, but nothing reads it.
- Concurrency: the package has no synchronisation and is modelled as sequential value transitions.
- Pointer identity: Go returns `*Engine` and `*OAuthSPAPI`; the model returns values, and a failed `New` returns no engine at all.
- Go strings are byte strings; the model uses Dafny `string`, a sequence of characters, so invalid UTF-8 cannot be represented and lengths count characters rather than bytes. Every literal the package compares or concatenates is ASCII, where the two agree.
