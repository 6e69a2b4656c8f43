/** The records of the client and its construction-time validation gate
    (`New` and `checkRegion` in spapi.go). */
module Spapi {
  import opened Wrappers
  import opened Text

  /** Go's `int64`, the type of the token lifetime in seconds. */
  newtype Int64 = x: int | -0x8000_0000_0000_0000 <= x < 0x8000_0000_0000_0000

  /** The credential bundle: six static fields the caller supplies and four
      token fields that only a successful code exchange fills in. */
  datatype Credentials = Credentials(
    clientId: string,
    spapiClientId: string,
    spapiClientSecret: string,
    spapiCallbackUrl: string,
    awsAccessKeyId: string,
    awsAccessKey: string,
    accessToken: string,
    refreshToken: string,
    tokenType: string,
    expiresIn: Int64)

  /** The configuration handed to `New`. `sandBox` is stored and never read. */
  datatype Config = Config(region: string, sandBox: bool, beta: bool, credentials: Credentials)

  /** A constructed client; it owns its configuration. */
  datatype Engine = Engine(config: Config)

  /** The token payload of the token endpoint (`access_token`, `refresh_token`,
      `token_type`, `expires_in`). */
  datatype OAuthSPAPI = OAuthSPAPI(accessToken: string, refreshToken: string, tokenType: string, expiresIn: Int64)

  /** The six static credential fields, each of which must be non-empty. */
  datatype Field = ClientID | SPAPIClientID | SPAPIClientSecret | SPAPICallbackURL | AWSAccessKeyID | AWSAccessKey

  /** The order in which `New` inspects the static fields. */
  const RequiredFields: seq<Field> :=
    [ClientID, SPAPIClientID, SPAPIClientSecret, SPAPICallbackURL, AWSAccessKeyID, AWSAccessKey]

  function FieldValue(c: Credentials, f: Field): string {
    match f
    case ClientID => c.clientId
    case SPAPIClientID => c.spapiClientId
    case SPAPIClientSecret => c.spapiClientSecret
    case SPAPICallbackURL => c.spapiCallbackUrl
    case AWSAccessKeyID => c.awsAccessKeyId
    case AWSAccessKey => c.awsAccessKey
  }

  /** The field's name as the Go struct spells it. */
  function FieldName(f: Field): string {
    match f
    case ClientID => "ClientID"
    case SPAPIClientID => "SPAPIClientID"
    case SPAPIClientSecret => "SPAPIClientSecret"
    case SPAPICallbackURL => "SPAPICallbackURL"
    case AWSAccessKeyID => "AWSAccessKeyID"
    case AWSAccessKey => "AWSAccessKey"
  }

  /** Every error the client returns. */
  datatype Error =
    | InvalidRegion
    | MissingCredential(field: Field)
    | PostFailed
    | TokenRejected(body: string)

  const RegionMessage := "Please provide one of: \"eu\", \"na\" or \"fe\""
  const PostFailedMessage := "Error creating post request"
  const TokenRejectedPrefix := "Fail to generate token. "

  /** The text of each error, as `err.Error()` would return it. */
  function Message(e: Error): (m: string)
    ensures e.InvalidRegion? ==> m == "Please provide one of: \"eu\", \"na\" or \"fe\""
    ensures e.MissingCredential? ==> m == "Credentials." + FieldName(e.field) + " cannot be empty"
    ensures e.PostFailed? ==> m == "Error creating post request"
    ensures e.TokenRejected? ==> m == "Fail to generate token. " + e.body
  {
    match e
    case InvalidRegion => RegionMessage
    case MissingCredential(f) => "Credentials." + FieldName(f) + " cannot be empty"
    case PostFailed => PostFailedMessage
    case TokenRejected(body) => TokenRejectedPrefix + body
  }

  /** Distinct errors have distinct texts: a caller that only sees the
      message can still tell which check failed, which field was missing,
      and what body the token endpoint sent back. */
  lemma MessageInjective(e1: Error, e2: Error)
    requires Message(e1) == Message(e2)
    ensures e1 == e2
  {
    var m := Message(e1);
    assert |m| > 0;
    // The first character separates the four kinds.
    assert e1.InvalidRegion? <==> m[0] == 'P';
    assert e1.MissingCredential? <==> m[0] == 'C';
    assert e1.PostFailed? <==> m[0] == 'E';
    assert e1.TokenRejected? <==> m[0] == 'F';
    assert e2.InvalidRegion? <==> m[0] == 'P';
    assert e2.MissingCredential? <==> m[0] == 'C';
    assert e2.PostFailed? <==> m[0] == 'E';
    assert e2.TokenRejected? <==> m[0] == 'F';
    if e1.MissingCredential? {
      var n1, n2 := FieldName(e1.field), FieldName(e2.field);
      assert |n1| == |n2|;
      assert m[12..12 + |n1|] == n1;
      assert m[12..12 + |n2|] == n2;
    } else if e1.TokenRejected? {
      assert m[|TokenRejectedPrefix|..] == e1.body;
      assert m[|TokenRejectedPrefix|..] == e2.body;
    }
  }

  /** The region pattern `(eu|na|fe)`, searched for anywhere in the region
      since the expression is not anchored. */
  predicate RegionMatches(region: string) {
    Contains(region, "eu") || Contains(region, "na") || Contains(region, "fe")
  }

  /** One of the three alternatives starts at index `i`. */
  predicate AlternativeAt(region: string, i: nat) {
    OccursAt("eu", region, i) || OccursAt("na", region, i) || OccursAt("fe", region, i)
  }

  /** The leftmost-first scan of the regular-expression engine from index
      `i` on: try the three alternatives at each starting index in turn, and
      stop at the first hit. */
  function MatchFrom(region: string, i: nat): (matched: bool)
    requires i <= |region|
    ensures matched <==> exists j: nat :: i <= j <= |region| && AlternativeAt(region, j)
    decreases |region| - i
  {
    if i == |region| then false
    else AlternativeAt(region, i) || MatchFrom(region, i + 1)
  }

  /** The scan from the start finds a hit exactly when the pattern occurs. */
  lemma ScanDecidesPattern(region: string)
    ensures MatchFrom(region, 0) <==> RegionMatches(region)
  {
    if RegionMatches(region) {
      var t := if Contains(region, "eu") then "eu" else if Contains(region, "na") then "na" else "fe";
      var j: nat :| j <= |region| && OccursAt(t, region, j);
      assert AlternativeAt(region, j);
    } else {
      forall j: nat | j <= |region| ensures !AlternativeAt(region, j) {
        assert !OccursAt("eu", region, j) && !OccursAt("na", region, j) && !OccursAt("fe", region, j);
      }
    }
  }

  /** `checkRegion`: run the scan, and report the region error exactly when
      the pattern is not found. */
  function CheckRegion(region: string): (r: Result<(), Error>)
    ensures r.Failure? <==> !RegionMatches(region)
    ensures r.Failure? ==> r.error == InvalidRegion
  {
    ScanDecidesPattern(region);
    if MatchFrom(region, 0) then Success(()) else Failure(InvalidRegion)
  }

  /** The configurations `New` accepts: the region passes the pattern test
      and none of the six static credential fields is empty. */
  predicate Valid(config: Config) {
    && RegionMatches(config.region)
    && forall f: Field :: FieldValue(config.credentials, f) != ""
  }

  /** `New`: the region test first, then the static fields in order; the
      first violation is the error, and on success the engine holds the
      configuration exactly as given. */
  function New(config: Config): (r: Result<Engine, Error>)
    ensures !RegionMatches(config.region) ==> r == Failure(InvalidRegion)
    ensures RegionMatches(config.region) ==>
              forall k :: 0 <= k < |RequiredFields| && FieldValue(config.credentials, RequiredFields[k]) == ""
                          && (forall j :: 0 <= j < k ==> FieldValue(config.credentials, RequiredFields[j]) != "")
                          ==> r == Failure(MissingCredential(RequiredFields[k]))
    ensures r.Success? <==> Valid(config)
    ensures r.Success? ==> r.value.config == config
  {
    var c := config.credentials;
    if CheckRegion(config.region).Failure? then Failure(InvalidRegion)
    else if c.clientId == "" then
      assert FieldValue(c, RequiredFields[0]) == "";
      Failure(MissingCredential(ClientID))
    else if c.spapiClientId == "" then
      assert FieldValue(c, RequiredFields[1]) == "";
      Failure(MissingCredential(SPAPIClientID))
    else if c.spapiClientSecret == "" then
      assert FieldValue(c, RequiredFields[2]) == "";
      Failure(MissingCredential(SPAPIClientSecret))
    else if c.spapiCallbackUrl == "" then
      assert FieldValue(c, RequiredFields[3]) == "";
      Failure(MissingCredential(SPAPICallbackURL))
    else if c.awsAccessKeyId == "" then
      assert FieldValue(c, RequiredFields[4]) == "";
      Failure(MissingCredential(AWSAccessKeyID))
    else if c.awsAccessKey == "" then
      assert FieldValue(c, RequiredFields[5]) == "";
      Failure(MissingCredential(AWSAccessKey))
    else Success(Engine(config))
  }

  /** Reference definition of the credential check: the index, in
      `fields`, of the first empty field, or `|fields|` when none is empty. */
  function FirstMissing(c: Credentials, fields: seq<Field>): (k: nat)
    ensures k <= |fields|
    ensures forall j :: 0 <= j < k ==> FieldValue(c, fields[j]) != ""
    ensures k < |fields| ==> FieldValue(c, fields[k]) == ""
    decreases |fields|
  {
    if |fields| == 0 then 0
    else if FieldValue(c, fields[0]) == "" then 0
    else 1 + FirstMissing(c, fields[1..])
  }

  /** `New` is the region check followed by a scan of the static fields in
      their fixed order, with the first empty one reported. */
  lemma NewAgreesWithReference(config: Config)
    ensures New(config) ==
      if !RegionMatches(config.region) then Failure(InvalidRegion)
      else
        var k := FirstMissing(config.credentials, RequiredFields);
        if k < |RequiredFields| then Failure(MissingCredential(RequiredFields[k]))
        else Success(Engine(config))
  {
  }

  /** Fields after the first empty one are never consulted: two
      configurations that agree on the region and on every field up to and
      including an empty one are treated identically by `New`. */
  lemma NewIgnoresLaterFields(c1: Config, c2: Config, k: nat)
    requires c1.region == c2.region
    requires k < |RequiredFields|
    requires forall j :: 0 <= j <= k ==>
               FieldValue(c1.credentials, RequiredFields[j]) == FieldValue(c2.credentials, RequiredFields[j])
    requires FieldValue(c1.credentials, RequiredFields[k]) == ""
    ensures New(c1) == New(c2)
  {
    NewAgreesWithReference(c1);
    NewAgreesWithReference(c2);
    FirstMissingPrefix(c1.credentials, c2.credentials, RequiredFields, k);
  }

  /** The first empty field depends only on the fields up to an empty one. */
  lemma FirstMissingPrefix(c1: Credentials, c2: Credentials, fields: seq<Field>, k: nat)
    requires k < |fields|
    requires forall j :: 0 <= j <= k ==> FieldValue(c1, fields[j]) == FieldValue(c2, fields[j])
    requires FieldValue(c1, fields[k]) == ""
    ensures FirstMissing(c1, fields) == FirstMissing(c2, fields)
  {
  }
}
