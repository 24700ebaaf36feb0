/**
 * The model builder: it fills a per-request rendering model, one named
 * section at a time, from the parameters cache (global, page-owned and
 * URI-owned parameters), from the project's locales and from the request's
 * base URL. The builder's own source is not part of this model; what is
 * modelled is the behaviour its unit tests pin down, and the smallest rule
 * that agrees with what its tests expect.
 */
module Engine {
  import opened Wrappers
  import opened JavaText
  import LocalMessages

  /** `PARAMETER_NO_TYPE`, `PARAMETER_LOCALE_LANGUAGE`, `PARAMETER_LOCALE_COUNTRY`. */
  datatype LocaleType = NoType | LanguageCarrier | CountryCarrier

  /** A parameter record as the parameters cache hands it out. */
  datatype Parameter = Parameter(
    name: string,
    value: string,
    ownerExternalKey: string,
    overwriteFromUrl: bool,
    localeType: LocaleType)

  /** A (language, country) pair; the country may be empty. */
  datatype Locale = Locale(language: string, country: string)

  /** The named sections of the rendering model. */
  datatype Section = LocaleSection | Globals | UriParameters | PageParameters | RequestSection

  /** The WPBLocaleException. */
  datatype LocaleError = LocaleNotSupported

  /** What the model's request section says about the site's base URL. */
  datatype StaticParameters = StaticParameters(
    protocol: string,
    domain: string,
    contextPath: string,
    baseUrl: string)

  /** The parts of the servlet request the model builder reads. */
  datatype Request = Request(
    baseUrlHeader: Option<string>,   // the forwarded base-URL header, if sent
    requestUrl: string,              // getRequestURL()
    contextPath: string)             // the context-path request attribute

  /* Keys inside the locale and request sections. They stand for constants of
     WPBModel, which is not part of this model; only their distinctness matters. */
  const LocaleLanguageKey: string := "language"
  const LocaleCountryKey: string := "country"
  const ProtocolKey: string := "protocol"
  const DomainKey: string := "domain"
  const ContextPathKey: string := "contextPath"
  const BaseUrlKey: string := "baseUrl"

  // ------------------------------------------------------ name -> value maps

  /** `getAllForOwner(owner)`: the parameters owned by `owner`, in cache order. */
  function ForOwner(ps: seq<Parameter>, owner: string): (r: seq<Parameter>)
    ensures |r| <= |ps|
    ensures forall p :: p in r <==> p in ps && p.ownerExternalKey == owner
  {
    if ps == [] then []
    else ForOwner(ps[..|ps| - 1], owner)
         + (if ps[|ps| - 1].ownerExternalKey == owner then [ps[|ps| - 1]] else [])
  }

  /** Selecting by owner keeps the cache order: it distributes over concatenation. */
  lemma {:induction false} ForOwnerAppend(a: seq<Parameter>, b: seq<Parameter>, owner: string)
    ensures ForOwner(a + b, owner) == ForOwner(a, owner) + ForOwner(b, owner)
  {
    if b == [] {
      assert a + b == a;
    } else {
      assert (a + b)[..|a + b| - 1] == a + b[..|b| - 1];
      assert (a + b)[|a + b| - 1] == b[|b| - 1];
      ForOwnerAppend(a, b[..|b| - 1], owner);
    }
  }

  /** Puts each pair into a hash map in turn, so a later name overwrites an earlier one. */
  function ToMap(pairs: seq<(string, string)>): map<string, string>
  {
    if pairs == [] then map[]
    else ToMap(pairs[..|pairs| - 1])[pairs[|pairs| - 1].0 := pairs[|pairs| - 1].1]
  }

  lemma {:induction false} ToMapKeys(pairs: seq<(string, string)>)
    ensures forall name :: name in ToMap(pairs) <==> exists i :: 0 <= i < |pairs| && pairs[i].0 == name
  {
    if pairs != [] {
      var front := pairs[..|pairs| - 1];
      ToMapKeys(front);
      forall name | exists i :: 0 <= i < |pairs| && pairs[i].0 == name
        ensures name in ToMap(pairs)
      {
        var i :| 0 <= i < |pairs| && pairs[i].0 == name;
        if i < |pairs| - 1 {
          assert front[i].0 == name;
        }
      }
      forall name | name in ToMap(pairs)
        ensures exists i :: 0 <= i < |pairs| && pairs[i].0 == name
      {
        if name != pairs[|pairs| - 1].0 {
          assert name in ToMap(front);
          var i :| 0 <= i < |front| && front[i].0 == name;
          assert pairs[i].0 == name;
        }
      }
    }
  }

  /** The value under a name is that of the last pair carrying the name. */
  lemma {:induction false} ToMapLast(pairs: seq<(string, string)>, i: int)
    requires 0 <= i < |pairs|
    requires forall j :: i < j < |pairs| ==> pairs[j].0 != pairs[i].0
    ensures pairs[i].0 in ToMap(pairs) && ToMap(pairs)[pairs[i].0] == pairs[i].1
  {
    if i < |pairs| - 1 {
      var front := pairs[..|pairs| - 1];
      ToMapLast(front, i);
    }
  }

  /** The name -> stored value map of a list of parameters. */
  function ParameterMap(ps: seq<Parameter>): map<string, string>
  {
    ToMap(seq(|ps|, i requires 0 <= i < |ps| => (ps[i].name, ps[i].value)))
  }

  /** A parameter takes the value the URL pattern matched for its name when it is flagged so. */
  function EffectiveValue(p: Parameter, pattern: map<string, string>): string
  {
    if p.overwriteFromUrl && p.name in pattern then pattern[p.name] else p.value
  }

  /** The URI parameters section: the name -> effective value map. */
  function UriSection(ps: seq<Parameter>, pattern: map<string, string>): map<string, string>
  {
    ToMap(seq(|ps|, i requires 0 <= i < |ps| => (ps[i].name, EffectiveValue(ps[i], pattern))))
  }

  /** `ps[i]` is the last parameter named as it is. */
  predicate LastNamed(ps: seq<Parameter>, i: int)
  {
    0 <= i < |ps| && forall j :: i < j < |ps| ==> ps[j].name != ps[i].name
  }

  /**
   * A globals or page section names exactly the parameters given to it, and
   * gives each name the stored value of the last parameter carrying it.
   */
  lemma ParameterMapMeaning(ps: seq<Parameter>)
    ensures forall name :: name in ParameterMap(ps) <==> exists p :: p in ps && p.name == name
    ensures forall i :: LastNamed(ps, i) ==> ParameterMap(ps)[ps[i].name] == ps[i].value
  {
    var pairs := seq(|ps|, i requires 0 <= i < |ps| => (ps[i].name, ps[i].value));
    ToMapKeys(pairs);
    assert forall i :: 0 <= i < |ps| ==> pairs[i].0 == ps[i].name;
    forall i | LastNamed(ps, i)
      ensures ParameterMap(ps)[ps[i].name] == ps[i].value
    {
      ToMapLast(pairs, i);
    }
  }

  /**
   * The URI parameters section names exactly the URI's parameters; the last
   * parameter of a name gives it the URL-matched value when it is flagged
   * overwrite-from-url and the pattern matched that name, and its stored
   * value otherwise.
   */
  lemma UriSectionMeaning(ps: seq<Parameter>, pattern: map<string, string>)
    ensures forall name :: name in UriSection(ps, pattern) <==> exists p :: p in ps && p.name == name
    ensures forall i :: LastNamed(ps, i) ==>
              UriSection(ps, pattern)[ps[i].name]
              == if ps[i].overwriteFromUrl && ps[i].name in pattern then pattern[ps[i].name] else ps[i].value
  {
    var pairs := seq(|ps|, i requires 0 <= i < |ps| => (ps[i].name, EffectiveValue(ps[i], pattern)));
    ToMapKeys(pairs);
    assert forall i :: 0 <= i < |ps| ==> pairs[i].0 == ps[i].name;
    forall i | LastNamed(ps, i)
      ensures UriSection(ps, pattern)[ps[i].name] == EffectiveValue(ps[i], pattern)
    {
      ToMapLast(pairs, i);
    }
  }

  // ------------------------------------------------------------------ locale

  /** Some locale carrier flagged overwrite-from-url got no value from the URL pattern. */
  predicate MissingCarrier(ps: seq<Parameter>, pattern: map<string, string>)
  {
    exists p :: p in ps && p.localeType != NoType && p.overwriteFromUrl && p.name !in pattern
  }

  /** `ps[i]` is the last parameter carrying locale part `t`. */
  predicate LastCarrier(ps: seq<Parameter>, t: LocaleType, i: int)
  {
    0 <= i < |ps| && ps[i].localeType == t && forall j :: i < j < |ps| ==> ps[j].localeType != t
  }

  /** The position of the last parameter carrying locale part `t`, if any. */
  function LastCarrierIndex(ps: seq<Parameter>, t: LocaleType): (r: Option<nat>)
    ensures r.Some? ==> LastCarrier(ps, t, r.value)
    ensures r.None? ==> forall i :: 0 <= i < |ps| ==> ps[i].localeType != t
  {
    if ps == [] then None
    else if ps[|ps| - 1].localeType == t then Some(|ps| - 1)
    else
      var r := LastCarrierIndex(ps[..|ps| - 1], t);
      assert forall i :: 0 <= i < |ps| - 1 ==> ps[..|ps| - 1][i] == ps[i];
      r
  }

  /** The effective value of the last parameter carrying locale part `t`, if any. */
  function CarriedValue(ps: seq<Parameter>, t: LocaleType, pattern: map<string, string>): (r: Option<string>)
    ensures r.None? <==> forall i :: 0 <= i < |ps| ==> ps[i].localeType != t
    ensures r.Some? ==> exists i :: LastCarrier(ps, t, i) && r.value == EffectiveValue(ps[i], pattern)
    ensures forall i :: LastCarrier(ps, t, i) ==> r == Some(EffectiveValue(ps[i], pattern))
  {
    match LastCarrierIndex(ps, t)
    case None => None
    case Some(i) => Some(EffectiveValue(ps[i], pattern))
  }

  /** The locale the URI's parameters ask for, each part falling back on the default. */
  function RequestedLocale(ps: seq<Parameter>, pattern: map<string, string>, defaultLocale: Locale): (r: Locale)
    ensures (forall i :: 0 <= i < |ps| ==> ps[i].localeType != LanguageCarrier) ==> r.language == defaultLocale.language
    ensures (forall i :: 0 <= i < |ps| ==> ps[i].localeType != CountryCarrier) ==> r.country == defaultLocale.country
    ensures forall i :: LastCarrier(ps, LanguageCarrier, i) ==> r.language == EffectiveValue(ps[i], pattern)
    ensures forall i :: LastCarrier(ps, CountryCarrier, i) ==> r.country == EffectiveValue(ps[i], pattern)
  {
    var language := CarriedValue(ps, LanguageCarrier, pattern);
    var country := CarriedValue(ps, CountryCarrier, pattern);
    Locale(if language.Some? then language.value else defaultLocale.language,
           if country.Some? then country.value else defaultLocale.country)
  }

  /** The locale id of a locale, as the project lists its supported locales. */
  function LcidOf(l: Locale): string
  {
    LocalMessages.LcidFromLocale(l.language, l.country)
  }

  /**
   * The locale a URI resolves to: an error when a locale carrier expected
   * from the URL is missing from it, or when the requested locale id is not
   * one the project supports (there is no fallback to the bare language).
   */
  function ResolveLocale(ps: seq<Parameter>, pattern: map<string, string>,
                         defaultLocale: Locale, supported: set<string>): (r: Result<Locale, LocaleError>)
    ensures r.Success? <==> !MissingCarrier(ps, pattern) && LcidOf(RequestedLocale(ps, pattern, defaultLocale)) in supported
    ensures r.Success? ==> r.value == RequestedLocale(ps, pattern, defaultLocale) && LcidOf(r.value) in supported
  {
    if MissingCarrier(ps, pattern) then Failure(LocaleNotSupported)
    else
      var l := RequestedLocale(ps, pattern, defaultLocale);
      if LcidOf(l) in supported then Success(l) else Failure(LocaleNotSupported)
  }

  // ------------------------------------------------------------ base URL

  /** A URL cut into `scheme://host` and the path that follows the host. */
  datatype UrlParts = UrlParts(scheme: string, host: string, path: string)

  /** Cuts the text after `://` at its first `/`: the host, then the path. */
  function SplitHost(rest: string): (r: (string, string))
    ensures rest == r.0 + r.1
    ensures '/' !in r.0 && (r.1 == [] || r.1[0] == '/')
  {
    match IndexOf(rest, '/')
    case None => (rest, "")
    case Some(j) =>
      assert rest == rest[..j] + rest[j..];
      (rest[..j], rest[j..])
  }

  /**
   * Splits `scheme://host[/path]`: the scheme runs to the first `:`, which
   * must start `://`; the host runs to the next `/` or to the end.
   */
  function SplitUrl(url: string): (r: Option<UrlParts>)
    ensures r.Some? ==> url == r.value.scheme + "://" + r.value.host + r.value.path
    ensures r.Some? ==> ':' !in r.value.scheme && '/' !in r.value.host
                        && (r.value.path == [] || r.value.path[0] == '/')
  {
    match IndexOf(url, ':')
    case None => None
    case Some(i) =>
      if i + 3 <= |url| && url[i..i + 3] == "://" then
        var hp := SplitHost(url[i + 3..]);
        JoinAtSeparator(url, i, hp.0, hp.1);
        Some(UrlParts(url[..i], hp.0, hp.1))
      else None
  }

  lemma JoinAtSeparator(url: string, i: nat, host: string, path: string)
    requires i + 3 <= |url| && url[i..i + 3] == "://" && url[i + 3..] == host + path
    ensures url == url[..i] + "://" + host + path
  {
    assert url == url[..i] + url[i..i + 3] + url[i + 3..];
  }

  /** Every well-formed `scheme://host path` splits back into its parts. */
  lemma SplitUrlOfParts(scheme: string, host: string, path: string)
    requires ':' !in scheme && '/' !in host && (path == [] || path[0] == '/')
    ensures SplitUrl(scheme + "://" + host + path) == Some(UrlParts(scheme, host, path))
  {
    var url := scheme + "://" + host + path;
    var i := |scheme|;
    SchemeOfParts(scheme, host + path);
    assert url == scheme + "://" + (host + path);
    SplitHostOfParts(host, path);
  }

  lemma SchemeOfParts(scheme: string, rest: string)
    requires ':' !in scheme
    ensures var url := scheme + "://" + rest;
            IndexOf(url, ':') == Some(|scheme|) && |scheme| + 3 <= |url|
            && url[..|scheme|] == scheme && url[|scheme|..|scheme| + 3] == "://" && url[|scheme| + 3..] == rest
  {
    var url := scheme + "://" + rest;
    assert url == scheme + [':'] + ("//" + rest);
    IndexOfAfter(scheme, ':', "//" + rest);
  }

  lemma SplitHostOfParts(host: string, path: string)
    requires '/' !in host && (path == [] || path[0] == '/')
    ensures SplitHost(host + path) == (host, path)
  {
    var rest := host + path;
    if path == [] {
      assert rest == host;
    } else {
      assert rest == host + ['/'] + path[1..];
      IndexOfAfter(host, '/', path[1..]);
      assert rest[..|host|] == host && rest[|host|..] == path;
    }
  }

  /** Drops one trailing `/`, and only that. */
  function StripTrailingSlash(path: string): (r: string)
    ensures |path| > 0 && path[|path| - 1] == '/' ==> path == r + "/"
    ensures (|path| == 0 || path[|path| - 1] != '/') ==> r == path
  {
    if |path| > 0 && path[|path| - 1] == '/' then path[..|path| - 1] else path
  }

  lemma AppendStripped(prefix: string, path: string)
    ensures prefix + path == prefix + StripTrailingSlash(path)
            || prefix + path == prefix + StripTrailingSlash(path) + "/"
  {
    if StripTrailingSlash(path) != path {
      assert path == StripTrailingSlash(path) + "/";
      assert prefix + path == prefix + StripTrailingSlash(path) + "/";
    }
  }

  /**
   * The request section derived from a base URL: the scheme, the host in
   * lower case, the path without its trailing slash, and the base URL
   * rebuilt from them with the host's case kept.
   */
  function StaticParametersOf(baseUrl: string): (r: Option<StaticParameters>)
    ensures r.Some? <==> SplitUrl(baseUrl).Some?
    ensures r.Some? ==> baseUrl == r.value.baseUrl || baseUrl == r.value.baseUrl + "/"
    ensures r.Some? ==> var parts := SplitUrl(baseUrl).value;
              && r.value.protocol == parts.scheme
              && r.value.domain == LowerAscii(parts.host)
              && r.value.contextPath == StripTrailingSlash(parts.path)
              && (|parts.path| > 0 && parts.path[|parts.path| - 1] == '/' ==> baseUrl == r.value.baseUrl + "/")
              && (|parts.path| == 0 || parts.path[|parts.path| - 1] != '/' ==> baseUrl == r.value.baseUrl)
    ensures r.Some? ==> forall k :: 0 <= k < |r.value.domain| ==> !IsUpper(r.value.domain[k])
    ensures r.Some? ==> exists host :: LowerAscii(host) == r.value.domain
                          && r.value.baseUrl == r.value.protocol + "://" + host + r.value.contextPath
  {
    match SplitUrl(baseUrl)
    case None => None
    case Some(parts) =>
      var contextPath := StripTrailingSlash(parts.path);
      var base := parts.scheme + "://" + parts.host + contextPath;
      AppendStripped(parts.scheme + "://" + parts.host, parts.path);
      var r := StaticParameters(parts.scheme, LowerAscii(parts.host), contextPath, base);
      assert LowerAscii(parts.host) == r.domain && r.baseUrl == r.protocol + "://" + parts.host + r.contextPath;
      Some(r)
  }

  /**
   * Deriving the request section from a base URL built out of a scheme, a
   * host and a path gives those parts back, whether or not the URL ends in
   * a slash.
   */
  lemma StaticParametersRoundTrip(scheme: string, host: string, path: string, trailingSlash: bool)
    requires ':' !in scheme && '/' !in host
    requires path == [] || (path[0] == '/' && path[|path| - 1] != '/')
    ensures StaticParametersOf(scheme + "://" + host + path + (if trailingSlash then "/" else ""))
            == Some(StaticParameters(scheme, LowerAscii(host), path, scheme + "://" + host + path))
  {
    var full := path + (if trailingSlash then "/" else "");
    assert scheme + "://" + host + path + (if trailingSlash then "/" else "") == scheme + "://" + host + full;
    SplitUrlOfParts(scheme, host, full);
    if trailingSlash {
      assert full[..|full| - 1] == path;
    } else {
      assert full == path;
    }
    assert StripTrailingSlash(full) == path;
  }

  /**
   * The base URL the request section is derived from: the forwarded header
   * when sent, else the configured `baseModelUrlPath`, else the request's own
   * scheme and host followed by its context path.
   */
  function BaseUrlFor(request: Request, configured: Option<string>): (r: Option<string>)
    ensures request.baseUrlHeader.Some? ==> r == request.baseUrlHeader
    ensures request.baseUrlHeader.None? && configured.Some? ==> r == configured
    ensures request.baseUrlHeader.None? && configured.None? ==>
              (r.Some? <==> SplitUrl(request.requestUrl).Some?)
    ensures request.baseUrlHeader.None? && configured.None? && r.Some? ==>
              r.value == SplitUrl(request.requestUrl).value.scheme + "://"
                         + SplitUrl(request.requestUrl).value.host + request.contextPath
  {
    if request.baseUrlHeader.Some? then request.baseUrlHeader
    else if configured.Some? then configured
    else match SplitUrl(request.requestUrl)
      case None => None
      case Some(parts) => Some(parts.scheme + "://" + parts.host + request.contextPath)
  }

  /** A URL derived from the request keeps its scheme and host and takes the context path. */
  lemma BaseUrlFromRequest(requestUrl: string, scheme: string, host: string, path: string, contextPath: string)
    requires ':' !in scheme && '/' !in host && (path == [] || path[0] == '/')
    requires requestUrl == scheme + "://" + host + path
    ensures BaseUrlFor(Request(None, requestUrl, contextPath), None) == Some(scheme + "://" + host + contextPath)
  {
    SplitUrlOfParts(scheme, host, path);
  }

  /** The request section as a name -> value map. */
  function StaticMap(sp: StaticParameters): (r: map<string, string>)
    ensures r.Keys == {ProtocolKey, DomainKey, ContextPathKey, BaseUrlKey}
    ensures r[ProtocolKey] == sp.protocol && r[DomainKey] == sp.domain
            && r[ContextPathKey] == sp.contextPath && r[BaseUrlKey] == sp.baseUrl
  {
    map[ProtocolKey := sp.protocol, DomainKey := sp.domain,
        ContextPathKey := sp.contextPath, BaseUrlKey := sp.baseUrl]
  }

  /** The locale section as a name -> value map. */
  function LocaleMap(language: string, country: string): (r: map<string, string>)
    ensures r.Keys == {LocaleLanguageKey, LocaleCountryKey}
    ensures r[LocaleLanguageKey] == language && r[LocaleCountryKey] == country
  {
    map[LocaleLanguageKey := language, LocaleCountryKey := country]
  }

  // ------------------------------------------------------------ the model

  /** The rendering model of one request: named sections of name -> value maps. */
  class InternalModel {
    var cmsModel: map<Section, map<string, string>>

    constructor ()
      ensures cmsModel == map[]
    {
      cmsModel := map[];
    }
  }

  /**
   * The model builder, holding what it reads: the parameters cache, the
   * project's default and supported locales, and the configured base URL.
   */
  class ModelBuilder {
    /** The parameters cache, in cache order. */
    const parameters: seq<Parameter>
    const defaultLocale: Locale
    const supportedLocales: set<string>
    /** `baseModelUrlPath` of the model configurator section, if set. */
    const baseModelUrlPath: Option<string>

    constructor (parameters: seq<Parameter>, defaultLocale: Locale,
                 supportedLocales: set<string>, baseModelUrlPath: Option<string>)
      ensures this.parameters == parameters && this.defaultLocale == defaultLocale
      ensures this.supportedLocales == supportedLocales && this.baseModelUrlPath == baseModelUrlPath
    {
      this.parameters := parameters;
      this.defaultLocale := defaultLocale;
      this.supportedLocales := supportedLocales;
      this.baseModelUrlPath := baseModelUrlPath;
    }

    /** Writes the globals section: the parameters owned by the empty key. */
    method PopulateGlobalParameters(model: InternalModel)
      modifies model
      ensures model.cmsModel == old(model.cmsModel)[Globals := ParameterMap(ForOwner(parameters, ""))]
    {
      model.cmsModel := model.cmsModel[Globals := ParameterMap(ForOwner(parameters, ""))];
    }

    /** Writes the page parameters section: the parameters the page owns. */
    method PopulateModelForWebPage(pageExternalKey: string, model: InternalModel)
      modifies model
      ensures model.cmsModel == old(model.cmsModel)[PageParameters := ParameterMap(ForOwner(parameters, pageExternalKey))]
    {
      model.cmsModel := model.cmsModel[PageParameters := ParameterMap(ForOwner(parameters, pageExternalKey))];
    }

    /** Writes the locale section. */
    method PopulateLocale(language: string, country: string, model: InternalModel)
      modifies model
      ensures model.cmsModel == old(model.cmsModel)[LocaleSection := LocaleMap(language, country)]
    {
      model.cmsModel := model.cmsModel[LocaleSection := LocaleMap(language, country)];
    }

    /**
     * Writes the URI parameters section and the locale section the URI
     * resolves to; on a locale error the model is left as it was.
     */
    method PopulateUriParameters(uriExternalKey: string, patternParams: map<string, string>, model: InternalModel)
      returns (outcome: Outcome<LocaleError>)
      modifies model
      ensures outcome.Pass? <==> ResolveLocale(ForOwner(parameters, uriExternalKey), patternParams,
                                               defaultLocale, supportedLocales).Success?
      ensures outcome.Fail? ==> model.cmsModel == old(model.cmsModel)
      ensures outcome.Pass? ==>
                var ps := ForOwner(parameters, uriExternalKey);
                var l := ResolveLocale(ps, patternParams, defaultLocale, supportedLocales).value;
                model.cmsModel == old(model.cmsModel)[UriParameters := UriSection(ps, patternParams)]
                                                     [LocaleSection := LocaleMap(l.language, l.country)]
    {
      var ps := ForOwner(parameters, uriExternalKey);
      match ResolveLocale(ps, patternParams, defaultLocale, supportedLocales)
      case Failure(e) =>
        outcome := Fail(e);
      case Success(l) =>
        model.cmsModel := model.cmsModel[UriParameters := UriSection(ps, patternParams)];
        PopulateLocale(l.language, l.country, model);
        outcome := Pass;
    }

    /**
     * Writes the request section from the base URL; `ok` is false, and the
     * model unchanged, when that URL does not have the `scheme://host` form.
     */
    method PopulateStaticParameters(request: Request, model: InternalModel) returns (ok: bool)
      modifies model
      ensures ok <==> BaseUrlFor(request, baseModelUrlPath).Some?
                      && StaticParametersOf(BaseUrlFor(request, baseModelUrlPath).value).Some?
      ensures !ok ==> model.cmsModel == old(model.cmsModel)
      ensures ok ==> model.cmsModel == old(model.cmsModel)[RequestSection :=
                       StaticMap(StaticParametersOf(BaseUrlFor(request, baseModelUrlPath).value).value)]
    {
      var baseUrl := BaseUrlFor(request, baseModelUrlPath);
      if baseUrl.Some? && StaticParametersOf(baseUrl.value).Some? {
        model.cmsModel := model.cmsModel[RequestSection := StaticMap(StaticParametersOf(baseUrl.value).value)];
        ok := true;
      } else {
        ok := false;
      }
    }

    /**
     * The part of the model that depends on the matched URI: its parameters
     * and locale, then the globals and the request section. A locale error
     * stops the build before anything is written.
     */
    method PopulateModelForUriData(request: Request, uriExternalKey: string,
                                   patternParams: map<string, string>, model: InternalModel)
      returns (outcome: Outcome<LocaleError>)
      modifies model
      ensures outcome.Pass? <==> ResolveLocale(ForOwner(parameters, uriExternalKey), patternParams,
                                               defaultLocale, supportedLocales).Success?
      ensures outcome.Fail? ==> model.cmsModel == old(model.cmsModel)
      ensures outcome.Pass? ==>
                var ps := ForOwner(parameters, uriExternalKey);
                var l := ResolveLocale(ps, patternParams, defaultLocale, supportedLocales).value;
                var written := old(model.cmsModel)[UriParameters := UriSection(ps, patternParams)]
                                                  [LocaleSection := LocaleMap(l.language, l.country)]
                                                  [Globals := ParameterMap(ForOwner(parameters, ""))];
                var baseUrl := BaseUrlFor(request, baseModelUrlPath);
                model.cmsModel
                == if baseUrl.Some? && StaticParametersOf(baseUrl.value).Some?
                   then written[RequestSection := StaticMap(StaticParametersOf(baseUrl.value).value)]
                   else written
    {
      outcome := PopulateUriParameters(uriExternalKey, patternParams, model);
      if outcome.Pass? {
        PopulateGlobalParameters(model);
        var _ := PopulateStaticParameters(request, model);
      }
    }
  }
}
