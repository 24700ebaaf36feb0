/**
 * The record importer (WPBImporter): builds typed records from the untyped
 * property maps an import archive holds. Every builder allocates a fresh
 * record and sets each field once:
 *  - a record without `externalKey` is not built (`null`), except a project;
 *  - a present string property is stored trimmed; an absent one leaves the
 *    field `null`, or `""` where the builder supplies a default;
 *  - numbers are parsed with `Long.valueOf` / `Integer.valueOf` and fall back
 *    to 0 when absent or malformed, except `resourceType`, whose
 *    NumberFormatException escapes;
 *  - flags are normalised to 0 or 1.
 * Property values are modelled as strings; `None` in a record field is a Java
 * `null`, and dates are milliseconds since the epoch.
 */
module Importer {
  import opened Wrappers
  import opened JavaText

  type Properties = map<string, string>

  /** `WPBProject.PROJECT_KEY`; WPBProject is not part of this model, so its value is left open. */
  const PROJECT_KEY: string

  /** The exception `Integer.valueOf` throws on a malformed `resourceType`. */
  datatype ImportError = NumberFormatException

  datatype Parameter = Parameter(
    externalKey: string, name: Option<string>, value: Option<string>,
    ownerExternalKey: Option<string>, lastModified: Long, localeType: Int32,
    overwriteFromUrl: Int32)

  datatype Uri = Uri(
    externalKey: string, uri: Option<string>, httpOperation: Option<string>,
    resourceExternalKey: Option<string>, lastModified: Long,
    controllerClass: Option<string>, enabled: int, resourceType: Int32)

  datatype WebPage = WebPage(
    externalKey: string, contentType: Option<string>, name: string,
    pageModelProvider: string, htmlSource: string, hash: Long,
    lastModified: Long, isTemplateSource: int)

  datatype File = File(
    externalKey: string, contentType: Option<string>,
    adjustedContentType: Option<string>, shortType: Option<string>,
    fileName: Option<string>, name: Option<string>, size: Long,
    blobKey: string, hash: Long, lastModified: Long)

  datatype WebPageModule = WebPageModule(
    externalKey: string, name: string, htmlSource: string,
    lastModified: Long, isTemplateSource: int)

  datatype Project = Project(
    defaultLanguage: string, supportedLanguages: string,
    lastModified: Long, privkey: string)

  datatype Article = Article(
    externalKey: string, title: string, htmlSource: string, lastModified: Long)

  datatype Message = Message(
    externalKey: string, name: Option<string>, value: Option<string>,
    lcid: Option<string>, isTranslated: int, lastModified: Long)

  // ------------------------------------------------------ property reading

  /** A stored string neither starts nor ends with a trimmable character. */
  predicate IsTrimmed(s: string)
  {
    s == [] || (!IsTrimmable(s[0]) && !IsTrimmable(s[|s| - 1]))
  }

  predicate IsTrimmedOrNull(s: Option<string>)
  {
    s.None? || IsTrimmed(s.value)
  }

  /** `properties.get(key).toString().trim()`, or `null` when the key is absent. */
  function Trimmed(p: Properties, key: string): (r: Option<string>)
    ensures key !in p ==> r == None
    ensures key in p ==> r == Some(Trim(p[key]))
    ensures IsTrimmedOrNull(r)
  {
    if key in p then Some(Trim(p[key])) else None
  }

  /** The trimmed property, or `""` when it is absent. */
  function TrimmedOrEmpty(p: Properties, key: string): (r: string)
    ensures key !in p ==> r == ""
    ensures key in p ==> Trimmed(p, key) == Some(r)
    ensures IsTrimmed(r)
  {
    if key in p then Trim(p[key]) else ""
  }

  /** The raw property, cast to String without trimming. */
  function Raw(p: Properties, key: string): Option<string>
  {
    if key in p then Some(p[key]) else None
  }

  /** `lastModified`: `Long.valueOf` of the property, 0 when absent or malformed. */
  function LastModified(p: Properties): (r: Long)
    ensures "lastModified" in p && LongValueOf(p["lastModified"]).Some? ==> r == LongValueOf(p["lastModified"]).value
    ensures r != 0 ==> "lastModified" in p && LongValueOf(p["lastModified"]) == Some(r)
  {
    if "lastModified" in p then
      match LongValueOf(p["lastModified"])
      case Some(v) => v
      case None => 0
    else 0
  }

  /**
   * `Integer.valueOf(str)` on a possibly `null` string:
   * `Integer.valueOf(null)` throws a NumberFormatException too.
   */
  function IntegerValueOfNullable(s: Option<string>): Option<Int32>
  {
    match s
    case None => None
    case Some(t) => IntegerValueOf(t)
  }

  /** `localeType`: guarded by a `null` test on the string, 0 when absent or malformed. */
  function LocaleType(p: Properties): (r: Int32)
    ensures "localeType" in p && IntegerValueOf(p["localeType"]).Some? ==> r == IntegerValueOf(p["localeType"]).value
    ensures r != 0 ==> "localeType" in p && IntegerValueOf(p["localeType"]) == Some(r)
  {
    if "localeType" in p then
      match IntegerValueOf(p["localeType"])
      case Some(v) => v
      case None => 0
    else 0
  }

  /**
   * `overwriteFromUrl`, as written: the `null` test looks at the Integer
   * variable (never `null`), so the string is always handed to
   * `Integer.valueOf`, and an absent property lands in the catch.
   */
  function OverwriteFromUrl(p: Properties): (r: Int32)
    ensures ("overwriteFromUrl" in p && IntegerValueOf(p["overwriteFromUrl"]).Some?)
              ==> r == IntegerValueOf(p["overwriteFromUrl"]).value
    ensures r != 0 ==> "overwriteFromUrl" in p && IntegerValueOf(p["overwriteFromUrl"]) == Some(r)
  {
    match IntegerValueOfNullable(Raw(p, "overwriteFromUrl"))
    case Some(v) => v
    case None => 0
  }

  /** `enabled` / `isTemplateSource`: 1 when present and not exactly "0". */
  function Flag(p: Properties, key: string): (r: int)
    ensures r == 0 || r == 1
    ensures r == 1 <==> key in p && p[key] != "0"
  {
    if key in p && p[key] != "0" then 1 else 0
  }

  // ---------------------------------------------------------------- builders

  function BuildParameter(p: Properties): (r: Option<Parameter>)
    ensures r.Some? <==> "externalKey" in p
    ensures r.Some? ==> r.value.externalKey == Trim(p["externalKey"])
    ensures r.Some? ==> r.value.name == Trimmed(p, "name") && r.value.value == Trimmed(p, "value")
                        && r.value.ownerExternalKey == Trimmed(p, "ownerExternalKey")
    ensures r.Some? ==> IsTrimmed(r.value.externalKey) && IsTrimmedOrNull(r.value.name)
                        && IsTrimmedOrNull(r.value.value) && IsTrimmedOrNull(r.value.ownerExternalKey)
    ensures r.Some? ==> r.value.lastModified == LastModified(p)
    ensures r.Some? ==> r.value.localeType == LocaleType(p) && r.value.overwriteFromUrl == OverwriteFromUrl(p)
  {
    if "externalKey" !in p then None
    else Some(Parameter(
      Trim(p["externalKey"]), Trimmed(p, "name"), Trimmed(p, "value"),
      Trimmed(p, "ownerExternalKey"), LastModified(p), LocaleType(p),
      OverwriteFromUrl(p)))
  }

  /**
   * `buildUri`; the Failure is the NumberFormatException of a malformed
   * `resourceType`, which no catch stops.
   */
  function BuildUri(p: Properties): (r: Result<Option<Uri>, ImportError>)
    ensures "externalKey" !in p ==> r == Success(None)
    ensures r.Success? && r.value.Some? ==> r.value.value.externalKey == Trim(p["externalKey"])
    ensures r.Success? && r.value.Some? ==>
              r.value.value.uri == Trimmed(p, "uri") && r.value.value.httpOperation == Trimmed(p, "httpOperation")
              && r.value.value.resourceExternalKey == Trimmed(p, "resourceExternalKey")
    ensures r.Success? && r.value.Some? ==>
              IsTrimmed(r.value.value.externalKey) && IsTrimmedOrNull(r.value.value.uri)
              && IsTrimmedOrNull(r.value.value.httpOperation) && IsTrimmedOrNull(r.value.value.resourceExternalKey)
    ensures r.Success? && r.value.Some? ==> r.value.value.controllerClass == Raw(p, "controllerClass")
    ensures r.Success? && r.value.Some? ==> r.value.value.lastModified == LastModified(p)
    ensures r.Success? && r.value.Some? ==> r.value.value.enabled == Flag(p, "enabled")
    ensures "externalKey" in p ==> (r.Failure? <==> "resourceType" in p && IntegerValueOf(p["resourceType"]).None?)
    ensures "externalKey" in p && r.Success? ==> r.value.Some?
    ensures r.Success? && r.value.Some? ==>
              if "resourceType" in p then IntegerValueOf(p["resourceType"]) == Some(r.value.value.resourceType)
              else r.value.value.resourceType == 0
  {
    if "externalKey" !in p then Success(None)
    else
      var resourceType: Option<Int32> :=
        if "resourceType" in p then IntegerValueOf(p["resourceType"]) else Some(0);
      if resourceType.None? then Failure(NumberFormatException)
      else Success(Some(Uri(
        Trim(p["externalKey"]), Trimmed(p, "uri"), Trimmed(p, "httpOperation"),
        Trimmed(p, "resourceExternalKey"), LastModified(p), Raw(p, "controllerClass"),
        Flag(p, "enabled"), resourceType.value)))
  }

  /** `buildWebPage`; `crc32` is the page's checksum of its HTML source. */
  function BuildWebPage(p: Properties, crc32: string -> Long): (r: Option<WebPage>)
    ensures r.Some? <==> "externalKey" in p
    ensures r.Some? ==> r.value.externalKey == Trim(p["externalKey"])
    ensures r.Some? ==> r.value.contentType == Trimmed(p, "contentType") && r.value.name == TrimmedOrEmpty(p, "name")
                        && r.value.pageModelProvider == TrimmedOrEmpty(p, "pageModelProvider")
                        && r.value.htmlSource == TrimmedOrEmpty(p, "htmlSource")
    ensures r.Some? ==> IsTrimmed(r.value.externalKey) && IsTrimmedOrNull(r.value.contentType)
                        && IsTrimmed(r.value.name) && IsTrimmed(r.value.pageModelProvider)
                        && IsTrimmed(r.value.htmlSource)
    ensures r.Some? ==> r.value.hash == crc32(r.value.htmlSource)
    ensures r.Some? ==> r.value.lastModified == LastModified(p)
    ensures r.Some? ==> r.value.isTemplateSource == Flag(p, "isTemplateSource")
  {
    if "externalKey" !in p then None
    else
      var htmlSource := TrimmedOrEmpty(p, "htmlSource");
      Some(WebPage(
        Trim(p["externalKey"]), Trimmed(p, "contentType"), TrimmedOrEmpty(p, "name"),
        TrimmedOrEmpty(p, "pageModelProvider"), htmlSource, crc32(htmlSource),
        LastModified(p), Flag(p, "isTemplateSource")))
  }

  function BuildFile(p: Properties): (r: Option<File>)
    ensures r.Some? <==> "externalKey" in p
    ensures r.Some? ==> r.value.externalKey == Trim(p["externalKey"])
    ensures r.Some? ==> r.value.contentType == Trimmed(p, "contentType")
                        && r.value.adjustedContentType == Trimmed(p, "adjustedContentType")
                        && r.value.shortType == Trimmed(p, "shortType")
                        && r.value.fileName == Trimmed(p, "fileName") && r.value.name == Trimmed(p, "name")
    ensures r.Some? ==> IsTrimmed(r.value.externalKey) && IsTrimmedOrNull(r.value.contentType)
                        && IsTrimmedOrNull(r.value.adjustedContentType) && IsTrimmedOrNull(r.value.shortType)
                        && IsTrimmedOrNull(r.value.fileName) && IsTrimmedOrNull(r.value.name)
    ensures r.Some? ==> r.value.size == 0 && r.value.blobKey == "" && r.value.hash == 0
    ensures r.Some? ==> r.value.lastModified == LastModified(p)
  {
    if "externalKey" !in p then None
    else Some(File(
      Trim(p["externalKey"]), Trimmed(p, "contentType"), Trimmed(p, "adjustedContentType"),
      Trimmed(p, "shortType"), Trimmed(p, "fileName"), Trimmed(p, "name"),
      0, "", 0, LastModified(p)))
  }

  function BuildWebPageModule(p: Properties): (r: Option<WebPageModule>)
    ensures r.Some? <==> "externalKey" in p
    ensures r.Some? ==> r.value.externalKey == Trim(p["externalKey"])
    ensures r.Some? ==> r.value.name == TrimmedOrEmpty(p, "name") && r.value.htmlSource == TrimmedOrEmpty(p, "htmlSource")
    ensures r.Some? ==> IsTrimmed(r.value.externalKey) && IsTrimmed(r.value.name) && IsTrimmed(r.value.htmlSource)
    ensures r.Some? ==> r.value.lastModified == LastModified(p)
    ensures r.Some? ==> r.value.isTemplateSource == Flag(p, "isTemplateSource")
  {
    if "externalKey" !in p then None
    else Some(WebPageModule(
      Trim(p["externalKey"]), TrimmedOrEmpty(p, "name"), TrimmedOrEmpty(p, "htmlSource"),
      LastModified(p), Flag(p, "isTemplateSource")))
  }

  /** `buildProject`: never `null`; the key is always PROJECT_KEY. */
  function BuildProject(p: Properties): (r: Project)
    ensures r.privkey == PROJECT_KEY
    ensures r.defaultLanguage == TrimmedOrEmpty(p, "defaultLanguage")
            && r.supportedLanguages == TrimmedOrEmpty(p, "supportedLanguages")
    ensures IsTrimmed(r.defaultLanguage) && IsTrimmed(r.supportedLanguages)
    ensures r.lastModified == LastModified(p)
  {
    Project(TrimmedOrEmpty(p, "defaultLanguage"), TrimmedOrEmpty(p, "supportedLanguages"),
            LastModified(p), PROJECT_KEY)
  }

  function BuildArticle(p: Properties): (r: Option<Article>)
    ensures r.Some? <==> "externalKey" in p
    ensures r.Some? ==> r.value.externalKey == Trim(p["externalKey"])
    ensures r.Some? ==> r.value.title == TrimmedOrEmpty(p, "title") && r.value.htmlSource == TrimmedOrEmpty(p, "htmlSource")
    ensures r.Some? ==> IsTrimmed(r.value.externalKey) && IsTrimmed(r.value.title) && IsTrimmed(r.value.htmlSource)
    ensures r.Some? ==> r.value.lastModified == LastModified(p)
  {
    if "externalKey" !in p then None
    else Some(Article(
      Trim(p["externalKey"]), TrimmedOrEmpty(p, "title"), TrimmedOrEmpty(p, "htmlSource"),
      LastModified(p)))
  }

  function BuildMessage(p: Properties): (r: Option<Message>)
    ensures r.Some? <==> "externalKey" in p
    ensures r.Some? ==> r.value.externalKey == Trim(p["externalKey"])
    ensures r.Some? ==> r.value.name == Trimmed(p, "name") && r.value.value == Trimmed(p, "value")
                        && r.value.lcid == Trimmed(p, "lcid")
    ensures r.Some? ==> IsTrimmed(r.value.externalKey) && IsTrimmedOrNull(r.value.name)
                        && IsTrimmedOrNull(r.value.value) && IsTrimmedOrNull(r.value.lcid)
    ensures r.Some? ==> r.value.lastModified == LastModified(p)
    ensures r.Some? ==> (r.value.isTranslated == 1 <==> "isTranslated" in p && p["isTranslated"] == "1")
    ensures r.Some? ==> r.value.isTranslated == 0 || r.value.isTranslated == 1
  {
    if "externalKey" !in p then None
    else Some(Message(
      Trim(p["externalKey"]), Trimmed(p, "name"), Trimmed(p, "value"), Trimmed(p, "lcid"),
      if "isTranslated" in p && p["isTranslated"] == "1" then 1 else 0,
      LastModified(p)))
  }

  // -------------------------------------------------------------- properties

  /**
   * A string property is stored as its trim: surrounding white space is
   * dropped and a value already trimmed is kept as it is.
   */
  lemma TrimmedKeepsTrimmedValues(p: Properties, key: string)
    requires key in p && IsTrimmed(p[key])
    ensures Trimmed(p, key) == Some(p[key]) && TrimmedOrEmpty(p, key) == p[key]
  {
    TrimOfUntrimmable(p[key]);
  }

  /**
   * `lastModified` becomes Date(0) when absent or not a valid long, and the
   * number written when it is one.
   */
  lemma LastModifiedRule(p: Properties)
    ensures "lastModified" !in p ==> LastModified(p) == 0
    ensures "lastModified" in p && LongValueOf(p["lastModified"]).None? ==> LastModified(p) == 0
    ensures forall n: Long :: "lastModified" in p && p["lastModified"] == IntToString(n)
              ==> LastModified(p) == n
  {
    forall n: Long | "lastModified" in p && p["lastModified"] == IntToString(n)
      ensures LastModified(p) == n
    {
      LongValueOfToString(n);
    }
  }

  /**
   * `localeType` and `overwriteFromUrl` are 0 when absent or malformed and
   * the number written otherwise: the misplaced `null` test of
   * `overwriteFromUrl` changes nothing, because the NumberFormatException
   * `Integer.valueOf(null)` throws is caught.
   */
  lemma ParameterNumbersRule(p: Properties)
    requires "externalKey" in p
    ensures var r := BuildParameter(p).value;
            && ("localeType" !in p || IntegerValueOf(p["localeType"]).None? ==> r.localeType == 0)
            && ("overwriteFromUrl" !in p || IntegerValueOf(p["overwriteFromUrl"]).None? ==> r.overwriteFromUrl == 0)
            && (forall n: Int32 :: "localeType" in p && p["localeType"] == IntToString(n) ==> r.localeType == n)
            && (forall n: Int32 :: "overwriteFromUrl" in p && p["overwriteFromUrl"] == IntToString(n)
                  ==> r.overwriteFromUrl == n)
  {
    forall n: Int32 | "localeType" in p && p["localeType"] == IntToString(n)
      ensures LocaleType(p) == n
    {
      IntegerValueOfToString(n);
    }
    forall n: Int32 | "overwriteFromUrl" in p && p["overwriteFromUrl"] == IntToString(n)
      ensures OverwriteFromUrl(p) == n
    {
      IntegerValueOfToString(n);
    }
  }

  /**
   * `resourceType` is 0 when absent, the number written when valid, and a
   * malformed value makes `buildUri` throw instead of defaulting.
   */
  lemma ResourceTypeRule(p: Properties)
    requires "externalKey" in p
    ensures BuildUri(p).Failure? <==> "resourceType" in p && IntegerValueOf(p["resourceType"]).None?
    ensures "resourceType" !in p ==> BuildUri(p).Success? && BuildUri(p).value.value.resourceType == 0
    ensures forall n: Int32 :: "resourceType" in p && p["resourceType"] == IntToString(n)
              ==> BuildUri(p).Success? && BuildUri(p).value.value.resourceType == n
  {
    forall n: Int32 | "resourceType" in p && p["resourceType"] == IntToString(n)
      ensures BuildUri(p).Success? && BuildUri(p).value.value.resourceType == n
    {
      IntegerValueOfToString(n);
    }
  }

}
