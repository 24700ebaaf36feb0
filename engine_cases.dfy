/**
 * The cases the model builder's unit tests assert, stated against the
 * model: locale resolution and the URI parameters section for each URL
 * pattern the tests try, and the request section for each base URL.
 */
module ModelBuilderCases {
  import opened Wrappers
  import opened JavaText
  import opened Engine

  /** The project the URI-parameter tests share: default `en`, supported {en_GB, en}. */
  const FixtureDefault: Locale := Locale("en", "")
  const FixtureSupported: set<string> := {"en_GB", "en"}

  /** A locale carrier owned by URI `abc`, flagged overwrite-from-url. */
  function Carrier(name: string, value: string, t: LocaleType): Parameter
  {
    Parameter(name, value, "abc", true, t)
  }

  lemma ToMapOfOne(a: (string, string))
    ensures ToMap([a]) == map[a.0 := a.1]
  {
    assert [a][..0] == [];
  }

  lemma ToMapOfTwo(a: (string, string), b: (string, string))
    ensures ToMap([a, b]) == map[a.0 := a.1][b.0 := b.1]
  {
    assert [a, b][..1] == [a];
    ToMapOfOne(a);
  }

  /** Language `en` and country `GB` from the URL resolve, and both reach the URI section. */
  lemma LanguageAndCountryFromUrl()
    ensures var ps := [Carrier("language", "en", LanguageCarrier), Carrier("country", "GB", CountryCarrier)];
            var pattern := map["language" := "en", "country" := "GB"];
            ResolveLocale(ps, pattern, FixtureDefault, FixtureSupported) == Success(Locale("en", "GB"))
            && UriSection(ps, pattern) == pattern
  {
    var ps := [Carrier("language", "en", LanguageCarrier), Carrier("country", "GB", CountryCarrier)];
    var pattern := map["language" := "en", "country" := "GB"];
    assert LastCarrier(ps, LanguageCarrier, 0) && LastCarrier(ps, CountryCarrier, 1);
    assert LcidOf(Locale("en", "GB")) == "en_GB";
    var pairs := seq(|ps|, i requires 0 <= i < |ps| => (ps[i].name, EffectiveValue(ps[i], pattern)));
    assert pairs == [("language", "en"), ("country", "GB")];
    ToMapOfTwo(("language", "en"), ("country", "GB"));
  }

  /** Language `en` alone resolves with the default's empty country. */
  lemma OnlyLanguageFromUrl()
    ensures var ps := [Carrier("language", "en", LanguageCarrier)];
            var pattern := map["language" := "en"];
            ResolveLocale(ps, pattern, FixtureDefault, FixtureSupported) == Success(Locale("en", ""))
            && UriSection(ps, pattern) == pattern
  {
    var ps := [Carrier("language", "en", LanguageCarrier)];
    var pattern := map["language" := "en"];
    assert LastCarrier(ps, LanguageCarrier, 0);
    var pairs := seq(|ps|, i requires 0 <= i < |ps| => (ps[i].name, EffectiveValue(ps[i], pattern)));
    assert pairs == [("language", "en")];
    ToMapOfOne(("language", "en"));
  }

  /** A plain parameter keeps its stored value when the URL matched nothing. */
  lemma EmptyUrlMatch()
    ensures var ps := [Parameter("language", "en", "abc", false, NoType)];
            ResolveLocale(ps, map[], FixtureDefault, FixtureSupported) == Success(Locale("en", ""))
            && UriSection(ps, map[]) == map["language" := "en"]
  {
    var ps := [Parameter("language", "en", "abc", false, NoType)];
    var pairs := seq(|ps|, i requires 0 <= i < |ps| => (ps[i].name, EffectiveValue(ps[i], map[])));
    assert pairs == [("language", "en")];
    ToMapOfOne(("language", "en"));
  }

  /** `en_AU` is not supported, though `en` is: a locale error, not a fallback. */
  lemma UnsupportedCountryFromUrl()
    ensures ResolveLocale([Carrier("language", "en", LanguageCarrier), Carrier("country", "AU", CountryCarrier)],
                          map["language" := "en", "country" := "AU"], FixtureDefault, FixtureSupported)
            == Failure(LocaleNotSupported)
  {
    var ps := [Carrier("language", "en", LanguageCarrier), Carrier("country", "AU", CountryCarrier)];
    var pattern := map["language" := "en", "country" := "AU"];
    assert LastCarrier(ps, LanguageCarrier, 0) && LastCarrier(ps, CountryCarrier, 1);
    assert LcidOf(Locale("en", "AU")) == "en_AU";
  }

  /** A language carrier the URL pattern does not match is a locale error. */
  lemma LanguageMissingFromUrl()
    ensures ResolveLocale([Carrier("language", "en", LanguageCarrier), Parameter("xyz", "", "abc", false, NoType)],
                          map["xyz" := ""], FixtureDefault, FixtureSupported)
            == Failure(LocaleNotSupported)
  {
    var ps := [Carrier("language", "en", LanguageCarrier), Parameter("xyz", "", "abc", false, NoType)];
    assert ps[0] in ps;
  }

  /** So is a country carrier the URL pattern does not match. */
  lemma CountryMissingFromUrl()
    ensures ResolveLocale([Carrier("language", "en", LanguageCarrier), Carrier("country", "GB", CountryCarrier)],
                          map["language" := "en"], FixtureDefault, FixtureSupported)
            == Failure(LocaleNotSupported)
  {
    var ps := [Carrier("language", "en", LanguageCarrier), Carrier("country", "GB", CountryCarrier)];
    assert ps[1] in ps;
  }

  /** A base URL sent in the header, with a trailing slash. */
  lemma StaticFromHeaderHttp()
    ensures StaticParametersOf("http://www.example.com/test/")
            == Some(StaticParameters("http", "www.example.com", "/test", "http://www.example.com/test"))
  {
    LowerAsciiOfLower("www.example.com");
    var prefix := "http://www.example.com";
    assert prefix == "http" + "://" + "www.example.com";
    assert "http://www.example.com/test" == prefix + "/test";
    assert "http://www.example.com/test/" == prefix + "/test" + "/";
    StaticParametersRoundTrip("http", "www.example.com", "/test", true);
  }

  /** A base URL sent in the header, without a trailing slash. */
  lemma StaticFromHeaderHttps()
    ensures StaticParametersOf("https://www.example.com/test1/test2")
            == Some(StaticParameters("https", "www.example.com", "/test1/test2", "https://www.example.com/test1/test2"))
  {
    LowerAsciiOfLower("www.example.com");
    var prefix := "https://www.example.com";
    assert prefix == "https" + "://" + "www.example.com";
    assert "https://www.example.com/test1/test2" == prefix + "/test1/test2";
    assert "https://www.example.com/test1/test2" == prefix + "/test1/test2" + "";
    StaticParametersRoundTrip("https", "www.example.com", "/test1/test2", false);
  }

  /** Only the domain is lower-cased. */
  lemma StaticKeepsPathCase()
    ensures StaticParametersOf("http://www.EXAMPLE.com/test1/TEST2")
            == Some(StaticParameters("http", "www.example.com", "/test1/TEST2", "http://www.EXAMPLE.com/test1/TEST2"))
  {
    assert LowerAscii("www.EXAMPLE.com") == "www.example.com";
    var prefix := "http://www.EXAMPLE.com";
    assert prefix == "http" + "://" + "www.EXAMPLE.com";
    assert "http://www.EXAMPLE.com/test1/TEST2" == prefix + "/test1/TEST2";
    assert "http://www.EXAMPLE.com/test1/TEST2" == prefix + "/test1/TEST2" + "";
    StaticParametersRoundTrip("http", "www.EXAMPLE.com", "/test1/TEST2", false);
  }

  /** A bare domain gives an empty context path and the input as base URL. */
  lemma StaticJustDomain()
    ensures StaticParametersOf("http://EXAMPLE.com")
            == Some(StaticParameters("http", "example.com", "", "http://EXAMPLE.com"))
  {
    assert LowerAscii("EXAMPLE.com") == "example.com";
    assert "http://EXAMPLE.com" == "http" + "://" + "EXAMPLE.com" + "" + "";
    assert "http://EXAMPLE.com" == "http" + "://" + "EXAMPLE.com" + "";
    StaticParametersRoundTrip("http", "EXAMPLE.com", "", false);
  }

  /**
   * Without the header, the configured base URL is used, and it loses its
   * trailing slash.
   */
  lemma StaticFromConfiguration(requestUrl: string, contextPath: string)
    ensures BaseUrlFor(Request(None, requestUrl, contextPath), Some("https://www.example.com/test1/test2/"))
            == Some("https://www.example.com/test1/test2/")
    ensures StaticParametersOf("https://www.example.com/test1/test2/")
            == Some(StaticParameters("https", "www.example.com", "/test1/test2", "https://www.example.com/test1/test2"))
  {
    LowerAsciiOfLower("www.example.com");
    var prefix := "https://www.example.com";
    assert prefix == "https" + "://" + "www.example.com";
    assert "https://www.example.com/test1/test2" == prefix + "/test1/test2";
    assert "https://www.example.com/test1/test2/" == prefix + "/test1/test2" + "/";
    StaticParametersRoundTrip("https", "www.example.com", "/test1/test2", true);
  }

  /**
   * Without header or configuration, the request's scheme and host and its
   * context path are used, whatever page and query the request URL names
   * (`aaa.html?abc=1` in the test).
   */
  lemma BaseUrlFromRequestUrl(page: string)
    ensures BaseUrlFor(Request(None, "https://www.example.com" + "/test1/test2/" + page, "/test1/test2"), None)
            == Some("https://www.example.com" + "/test1/test2")
  {
    var prefix := "https://www.example.com";
    assert prefix == "https" + "://" + "www.example.com";
    var requestUrl := prefix + "/test1/test2/" + page;
    assert requestUrl == "https" + "://" + "www.example.com" + ("/test1/test2/" + page);
    BaseUrlFromRequest(requestUrl, "https", "www.example.com", "/test1/test2/" + page, "/test1/test2");
  }
}
