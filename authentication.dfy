/**
 * The identity-provider settings (Authentication/AuthenticationConfig.cs). Each
 * settings object derives its OIDC authority URL from its current field on
 * every read; the URL is never stored.
 */
module Authentication {
  import opened Wrappers

  const OktaAuthorityPrefix := "https://"
  const OktaAuthoritySuffix := "/oauth2/default"
  const MicrosoftAuthorityPrefix := "https://login.microsoftonline.com/"
  const MicrosoftAuthoritySuffix := "/v2.0"

  datatype OktaSettings = OktaSettings(domain: string, clientId: string, clientSecret: string) {
    /** "https://{Domain}/oauth2/default": the domain is exactly the text between the fixed prefix and suffix. */
    function Authority(): (r: string)
      ensures Between(r, OktaAuthorityPrefix, OktaAuthoritySuffix) == Some(domain)
    {
      BetweenRoundTrip(OktaAuthorityPrefix, domain, OktaAuthoritySuffix);
      OktaAuthorityPrefix + domain + OktaAuthoritySuffix
    }
  }

  datatype MicrosoftSettings = MicrosoftSettings(tenantId: string, clientId: string, clientSecret: string) {
    /** "https://login.microsoftonline.com/{TenantId}/v2.0": the tenant is exactly the text between the fixed parts. */
    function Authority(): (r: string)
      ensures Between(r, MicrosoftAuthorityPrefix, MicrosoftAuthoritySuffix) == Some(tenantId)
    {
      BetweenRoundTrip(MicrosoftAuthorityPrefix, tenantId, MicrosoftAuthoritySuffix);
      MicrosoftAuthorityPrefix + tenantId + MicrosoftAuthoritySuffix
    }
  }

  /** Both settings objects are always present. */
  datatype AuthenticationConfig = AuthenticationConfig(okta: OktaSettings, microsoft: MicrosoftSettings)

  /** Every string property defaults to the empty string. */
  const DefaultOktaSettings := OktaSettings("", "", "")
  const DefaultMicrosoftSettings := MicrosoftSettings("", "", "")
  const DefaultAuthenticationConfig := AuthenticationConfig(DefaultOktaSettings, DefaultMicrosoftSettings)

  /** The text between `prefix` and `suffix`, when `s` has that shape. */
  function Between(s: string, prefix: string, suffix: string): (r: Option<string>)
    ensures r.Some? ==> s == prefix + r.value + suffix
  {
    if |s| >= |prefix| + |suffix| && s[..|prefix|] == prefix && s[|s| - |suffix|..] == suffix then
      var middle := s[|prefix|..|s| - |suffix|];
      assert s == s[..|prefix|] + middle + s[|s| - |suffix|..];
      Some(middle)
    else None
  }

  /** Reads the Okta domain back out of an authority URL. */
  function OktaDomainOf(authority: string): (r: Option<string>)
    ensures r.Some? ==> OktaSettings(r.value, "", "").Authority() == authority
  {
    Between(authority, OktaAuthorityPrefix, OktaAuthoritySuffix)
  }

  /** Reads the Microsoft tenant back out of an authority URL. */
  function MicrosoftTenantOf(authority: string): (r: Option<string>)
    ensures r.Some? ==> MicrosoftSettings(r.value, "", "").Authority() == authority
  {
    Between(authority, MicrosoftAuthorityPrefix, MicrosoftAuthoritySuffix)
  }

  lemma {:induction false} BetweenRoundTrip(prefix: string, middle: string, suffix: string)
    ensures Between(prefix + middle + suffix, prefix, suffix) == Some(middle)
  {
    var s := prefix + middle + suffix;
    assert s[..|prefix|] == prefix;
    assert s[|s| - |suffix|..] == suffix;
    assert s[|prefix|..|s| - |suffix|] == middle;
  }

  /**
   * The authority determines the domain (and the tenant): reading it back gives
   * the configured value, so distinct domains give distinct authorities.
   */
  lemma AuthorityRoundTrips(okta: OktaSettings, microsoft: MicrosoftSettings)
    ensures OktaDomainOf(okta.Authority()) == Some(okta.domain)
    ensures MicrosoftTenantOf(microsoft.Authority()) == Some(microsoft.tenantId)
  {
    BetweenRoundTrip(OktaAuthorityPrefix, okta.domain, OktaAuthoritySuffix);
    BetweenRoundTrip(MicrosoftAuthorityPrefix, microsoft.tenantId, MicrosoftAuthoritySuffix);
  }

  /** The authority depends on the domain (tenant) alone, never on the client id or secret. */
  lemma AuthorityDependsOnlyOnHost(a: OktaSettings, b: OktaSettings, c: MicrosoftSettings, d: MicrosoftSettings)
    ensures a.Authority() == b.Authority() <==> a.domain == b.domain
    ensures c.Authority() == d.Authority() <==> c.tenantId == d.tenantId
  {
    AuthorityRoundTrips(a, c);
    AuthorityRoundTrips(b, d);
  }

  /** An unconfigured application still yields authorities: with an empty host part. */
  lemma DefaultAuthorities()
    ensures DefaultAuthenticationConfig.okta.Authority() == "https:///oauth2/default"
    ensures DefaultAuthenticationConfig.microsoft.Authority() == "https://login.microsoftonline.com//v2.0"
  {
  }
}
