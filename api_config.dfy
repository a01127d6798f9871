/**
 * Building the API client from the stored preferences: the server base URL
 * loses one trailing slash; the e-mail and API secret pass through.
 */
module ApiConfig {
  import opened Wrappers

  /** What the client is constructed with; a null e-mail or secret is `None`. */
  datatype ApiClient = ApiClient(baseUrl: string, email: Option<string>, apiSecret: Option<string>)

  /** The server used when no base URL is stored. */
  const DefaultBaseUrl := "http://zeitgeist.li"

  /** Whether `s` ends with a slash (`endsWith("/")`). */
  predicate EndsWithSlash(s: string) {
    |s| > 0 && s[|s| - 1] == '/'
  }

  /** Drops the last character when it is a slash, and only that one. */
  function StripTrailingSlash(url: string): (r: string)
    ensures EndsWithSlash(url) ==> r + "/" == url
    ensures !EndsWithSlash(url) ==> r == url
  {
    if EndsWithSlash(url) then url[..|url| - 1] else url
  }

  /** A stored string preference, or null when unset. */
  function Lookup(prefs: map<string, string>, key: string): (r: Option<string>)
    ensures r.Some? <==> key in prefs
    ensures r.Some? ==> r.value == prefs[key]
  {
    if key in prefs then Some(prefs[key]) else None
  }

  /** A stored string preference, or `default` when unset. */
  function LookupOr(prefs: map<string, string>, key: string, default: string): (r: string)
    ensures key in prefs ==> r == prefs[key]
    ensures key !in prefs ==> r == default
  {
    if key in prefs then prefs[key] else default
  }

  /**
   * `ZeitgeistApiFactory.createInstance`: the base URL has no default, so an unset
   * one makes `endsWith` throw; e-mail and secret may be null.
   */
  function CreateInstance(prefs: map<string, string>): (r: Result<ApiClient>)
    ensures r.Err? <==> "baseUrl" !in prefs
    ensures r.Ok? ==> r.value.email == Lookup(prefs, "eMail") && r.value.apiSecret == Lookup(prefs, "apiSecret")
    ensures r.Ok? ==> r.value.baseUrl == StripTrailingSlash(prefs["baseUrl"])
  {
    match Lookup(prefs, "baseUrl")
    case None => Err("NullPointerException")
    case Some(baseUrl) =>
      Ok(ApiClient(StripTrailingSlash(baseUrl), Lookup(prefs, "eMail"), Lookup(prefs, "apiSecret")))
  }

  /**
   * `ZeitgeistApp.getApi`: the base URL defaults to the public server, e-mail and
   * secret to the empty string; the base URL then loses one trailing slash.
   */
  function GetApi(prefs: map<string, string>): (r: ApiClient)
    ensures r.email.Some? && r.apiSecret.Some?
  {
    ApiClient(
      StripTrailingSlash(LookupOr(prefs, "baseUrl", DefaultBaseUrl)),
      Some(LookupOr(prefs, "eMail", "")),
      Some(LookupOr(prefs, "apiSecret", "")))
  }

  /** Stripping undoes appending one slash. */
  lemma StripAppended(url: string)
    ensures StripTrailingSlash(url + "/") == url
  {
  }

  /** Only one slash goes: "x//" becomes "x/". */
  lemma StripOnlyOne(url: string)
    ensures StripTrailingSlash(url + "//") == url + "/"
  {
    assert url + "//" == (url + "/") + "/";
  }

  /** A stripped URL is a prefix of the stored one, at most one character shorter. */
  lemma StripPrefix(url: string)
    ensures var r := StripTrailingSlash(url);
      |url| - 1 <= |r| <= |url| && r == url[..|r|]
  {
  }

  /** With nothing stored, the client talks to the public server with empty credentials. */
  lemma GetApiDefaults()
    ensures GetApi(map[]) == ApiClient(DefaultBaseUrl, Some(""), Some(""))
  {
    assert !EndsWithSlash(DefaultBaseUrl);
  }

  /** With all three preferences stored, both ways of building the client agree. */
  lemma CreateInstanceAgrees(prefs: map<string, string>)
    requires "baseUrl" in prefs && "eMail" in prefs && "apiSecret" in prefs
    ensures CreateInstance(prefs) == Ok(GetApi(prefs))
  {
  }
}
