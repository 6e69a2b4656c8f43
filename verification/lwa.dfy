/** Region resolution and the Login-with-Amazon consent URL
    (`GetSellerCentralURLForRegion` and `GetLWAURL` in spapi.go). */
module Lwa {
  import opened Text
  import opened Spapi

  const EuPlaceholder := "url EU to be defined"
  const FePlaceholder := "url FE to be defined"
  const DefaultSellerCentral := "https://sellercentral.amazon.com"
  const ConsentPath := "/apps/authorize/consent?application_id="
  const BetaSuffix := "&version=beta"

  /** The Seller Central base URL of the engine's region: an exact match on
      `"eu"` and `"fe"`, and the North American URL for every other region. */
  function GetSellerCentralURLForRegion(engine: Engine): (url: string)
    ensures url == EuPlaceholder <==> engine.config.region == "eu"
    ensures url == FePlaceholder <==> engine.config.region == "fe"
    ensures url == DefaultSellerCentral <==> engine.config.region != "eu" && engine.config.region != "fe"
  {
    match engine.config.region
    case "eu" => EuPlaceholder
    case "fe" => FePlaceholder
    case _ => DefaultSellerCentral
  }

  /** The consent URL a seller visits to authorize the application: the base
      URL, the consent path and the unescaped client id, then the beta
      marker when the engine is in beta mode. */
  function GetLWAURL(engine: Engine): (url: string)
    ensures IsPrefix(GetSellerCentralURLForRegion(engine) + ConsentPath, url)
    ensures engine.config.beta ==> IsSuffix(BetaSuffix, url)
    ensures |url| == |GetSellerCentralURLForRegion(engine)| + |ConsentPath| + |engine.config.credentials.clientId|
                     + (if engine.config.beta then |BetaSuffix| else 0)
  {
    var url := GetSellerCentralURLForRegion(engine) + ConsentPath + engine.config.credentials.clientId;
    if engine.config.beta then url + BetaSuffix else url
  }

  /** Reads the application id back out of a consent URL, given the base URL
      and the beta flag it was built with. */
  function ApplicationId(url: string, base: string, beta: bool): string
    requires |base| + |ConsentPath| + (if beta then |BetaSuffix| else 0) <= |url|
  {
    url[|base| + |ConsentPath|..|url| - (if beta then |BetaSuffix| else 0)]
  }

  /** The consent URL carries the client id intact: it can be read back. */
  lemma ApplicationIdRoundTrip(engine: Engine)
    ensures ApplicationId(GetLWAURL(engine), GetSellerCentralURLForRegion(engine), engine.config.beta)
            == engine.config.credentials.clientId
  {
  }

  /** For a fixed region and beta flag, distinct client ids give distinct
      consent URLs. */
  lemma LWAURLInjective(e1: Engine, e2: Engine)
    requires e1.config.region == e2.config.region && e1.config.beta == e2.config.beta
    requires GetLWAURL(e1) == GetLWAURL(e2)
    ensures e1.config.credentials.clientId == e2.config.credentials.clientId
  {
    ApplicationIdRoundTrip(e1);
    ApplicationIdRoundTrip(e2);
  }

  /** The beta URL is the plain URL with the beta marker appended, so the
      plain URL is a prefix of it. */
  lemma BetaExtendsPlain(engine: Engine)
    ensures var plain := Engine(engine.config.(beta := false));
            var beta := Engine(engine.config.(beta := true));
            GetLWAURL(beta) == GetLWAURL(plain) + BetaSuffix && IsPrefix(GetLWAURL(plain), GetLWAURL(beta))
  {
  }

  /** The consent URL depends on nothing but the region, the beta flag and
      the client id: the sandbox flag, the other credentials and the tokens
      do not affect it, so repeated calls agree. */
  lemma LWAURLDependsOnlyOn(e1: Engine, e2: Engine)
    requires e1.config.region == e2.config.region
    requires e1.config.beta == e2.config.beta
    requires e1.config.credentials.clientId == e2.config.credentials.clientId
    ensures GetLWAURL(e1) == GetLWAURL(e2)
  {
  }

  /** Because the client id is not escaped, a plain URL whose client id ends
      in the beta marker is the same string as the beta URL of the shorter
      id: the beta flag cannot be read off the URL in general. */
  lemma UnescapedClientIdAmbiguous(engine: Engine, id: string)
    requires engine.config.credentials.clientId == id + BetaSuffix
    requires !engine.config.beta
    ensures var other := Engine(engine.config.(beta := true, credentials := engine.config.credentials.(clientId := id)));
            GetLWAURL(engine) == GetLWAURL(other) && other.config.credentials.clientId != engine.config.credentials.clientId
  {
  }

  /** The resolver only singles out the exact names `"eu"` and `"fe"`, and
      both pass the region check. */
  lemma NonDefaultRegionsAreValid(engine: Engine)
    requires GetSellerCentralURLForRegion(engine) != DefaultSellerCentral
    ensures RegionMatches(engine.config.region)
  {
    var r := engine.config.region;
    ContainsSameLength(r, r);
  }

  /** Any region that merely contains `"eu"` or `"fe"` passes the region
      check yet, unless it is exactly that name, resolves to the North
      American URL: `"xeu"` and `"fex"` are examples. */
  lemma SubstringRegionResolvesToDefault(engine: Engine, a: string, t: string, b: string)
    requires t == "eu" || t == "fe"
    requires engine.config.region == a + t + b
    requires |a| + |b| > 0
    ensures RegionMatches(engine.config.region)
    ensures GetSellerCentralURLForRegion(engine) == DefaultSellerCentral
  {
    ContainsInside(a, t, b);
  }

  /** Every region containing `"na"`, including `"na"` itself and `"xna"`,
      passes the region check and resolves to the North American URL. */
  lemma NaRegionsResolveToDefault(engine: Engine)
    requires Contains(engine.config.region, "na")
    ensures RegionMatches(engine.config.region)
    ensures GetSellerCentralURLForRegion(engine) == DefaultSellerCentral
  {
  }
}
