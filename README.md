# Web Page Bytes CMS: messages, import and model building, in Dafny

This project models four parts of the Web Page Bytes CMS (`com.webpagebytes.cms`), a Java content management system:

- **The local messages cache** (`WPBLocalMessagesCache`). It is an in-memory read cache of the message records, grouped by locale id (`lcid`) and then by message name. A refresh publishes a new snapshot together with a new cache-wide fingerprint. `LocalMessages.MessagesCache` is a class whose `Refresh` method loops over the stored records into a fresh map. A failed storage read publishes nothing.
- **The model builder**, as its unit tests (`TestModelBuilder`) pin it down. The builder fills the named sections of a per-request rendering model:
  - globals, page parameters and URI parameters;
  - the locale;
  - the request section derived from the site's base URL.

  `Engine.ModelBuilder` writes those sections into an `InternalModel` object. Locale resolution and base-URL parsing are pure functions. `ModelBuilderCases` states each test's expectation as a lemma about the model. For the three error tests, the expectation is the locale exception their names and `catch` blocks anticipate.
- **The record importer** (`WPBImporter`). It builds typed records from the untyped property maps of an import archive. `Importer` models it as pure functions returning `Option`/`Result`, since a missing `externalKey` gives `null` and a malformed `resourceType` throws.
- **The message administration controller** (`MessageController`), below its HTTP layer:
  - `getByCompare` compares the messages of one locale with those of a default locale, using three imperative loops;
  - the sort-parameter choice shared with `getAll`, as written, including the descending branch that records `asc` (see Findings);
  - the fields `create` and `update` store;
  - `notify`, the storage-listener hook that refreshes the cache.

Supporting modules:

- `JavaText` gives the meaning of the Java library calls the code relies on: `String.trim`, `indexOf`, ASCII `toLowerCase`/`equalsIgnoreCase`, and `Long.valueOf`/`Integer.valueOf` with `toString` as their inverse.
- `Storage` is the admin data store as the cache and the controller call it. It holds a sequence of message records and a flag saying whether the backend answers.
- `Wrappers` gives `Option`, `Result` and `Outcome`. A Java `null` becomes `None` and a thrown exception becomes `Failure`/`Fail`.

Other representations:

- Dates are integer milliseconds.
- The current time, the fresh unique id and the random fingerprint are method inputs.
- The validator's error map is an input of `Create` and `Update`.
- The page checksum `crc32` is a function parameter of `BuildWebPage`.

## Model

Source paths are relative to the repository root.

| member | source | states |
|---|---|---|
| JavaText.Trim | src/main/java/com/webpagebytes/cms/cmsdata/WPBImporter.java:12 | `trim()` never yields a string that starts or ends with a character at or below U+0020, and never lengthens its input |
| JavaText.TrimStart | src/main/java/com/webpagebytes/cms/cmsdata/WPBImporter.java:12 | the leading run of trimmable characters is dropped and nothing else: the result is a suffix of the input |
| JavaText.TrimEnd | src/main/java/com/webpagebytes/cms/cmsdata/WPBImporter.java:12 | the trailing run of trimmable characters is dropped and nothing else: the result is a prefix of the input |
| JavaText.TrimRemovesOnlyEnds | src/main/java/com/webpagebytes/cms/controllers/MessageController.java:74-75 | the trimmed string is a substring of the input surrounded on both sides only by trimmable characters |
| JavaText.TrimIdempotent | src/main/java/com/webpagebytes/cms/controllers/MessageController.java:74-75 | trimming twice equals trimming once |
| JavaText.TrimOfUntrimmable | src/main/java/com/webpagebytes/cms/cmsdata/WPBImporter.java:12 | a string without trimmable ends is its own trim |
| JavaText.LowerAscii | src/test/java/com/webpagebytes/cms/engine/TestModelBuilder.java:756-780 | lower-casing keeps the length, leaves no upper-case letter and changes only upper-case letters, each to its lower-case form |
| JavaText.LowerAsciiOfLower | src/test/java/com/webpagebytes/cms/engine/TestModelBuilder.java:646-671 | text without upper-case letters is unchanged by lower-casing |
| JavaText.ParseSigned | src/main/java/com/webpagebytes/cms/cmsdata/WPBImporter.java:33 | the parser accepts exactly an optional sign followed by one or more decimal digits and nothing else, with no white space |
| JavaText.LongValueOf | src/main/java/com/webpagebytes/cms/controllers/MessageController.java:322 | `Long.valueOf` succeeds exactly when the text parses and the value is within the 64-bit range, and then returns that value |
| JavaText.IntegerValueOf | src/main/java/com/webpagebytes/cms/cmsdata/WPBImporter.java:44 | `Integer.valueOf` succeeds exactly when the text parses and the value is within the 32-bit range, and then returns that value |
| JavaText.ParseSignedOfToString | src/main/java/com/webpagebytes/cms/cmsdata/WPBImporter.java:33 | parsing the decimal text of any integer gives the integer back |
| JavaText.LongValueOfToString | src/main/java/com/webpagebytes/cms/cmsdata/WPBImporter.java:33 | `Long.valueOf(Long.toString(n)) == n` for every long `n` |
| JavaText.IntegerValueOfToString | src/main/java/com/webpagebytes/cms/cmsdata/WPBImporter.java:44 | `Integer.valueOf(Integer.toString(n)) == n` for every int `n` |
| Storage.WithLcid | src/main/java/com/webpagebytes/cms/controllers/MessageController.java:212-213 | the `lcid` query holds exactly the stored records with that lcid |
| Storage.WithLcidAppend | src/main/java/com/webpagebytes/cms/controllers/MessageController.java:212-213 | the `lcid` query keeps the store order: selecting from two runs of records is selecting from each, in turn |
| Storage.FindByKey | src/main/java/com/webpagebytes/cms/controllers/MessageController.java:333 | `get(key)` finds a stored record with that key exactly when one exists |
| Storage.ReplaceByKey | src/main/java/com/webpagebytes/cms/controllers/MessageController.java:336 | `update(record)` replaces every record stored under the record's key and keeps all others, in place |
| Storage.AdminDataStorage.GetAllRecords | src/main/java/com/webpagebytes/cms/local/WPBLocalMessagesCache.java:82 | all records in storage order, or an I/O error when the backend is down |
| Storage.AdminDataStorage.GetAllRecordsSorted | src/main/java/com/webpagebytes/cms/controllers/MessageController.java:121 | a sorted listing holds exactly the stored records, or fails with an I/O error |
| Storage.AdminDataStorage.Query | src/main/java/com/webpagebytes/cms/controllers/MessageController.java:212-213 | the records of one lcid in storage order, or an I/O error |
| Storage.AdminDataStorage.QueryWithSort | src/main/java/com/webpagebytes/cms/controllers/MessageController.java:201-202 | a sorted query holds exactly the records of that lcid, or fails with an I/O error |
| Storage.AdminDataStorage.Get | src/main/java/com/webpagebytes/cms/controllers/MessageController.java:333 | the record under a key (`None` for `null`), or an I/O error |
| Storage.AdminDataStorage.Add | src/main/java/com/webpagebytes/cms/controllers/MessageController.java:78 | appends the record and returns it, or fails and changes nothing |
| Storage.AdminDataStorage.Update | src/main/java/com/webpagebytes/cms/controllers/MessageController.java:336 | overwrites the record stored under the same key, or fails and changes nothing |
| LocalMessages.LcidRoundTrip | src/main/java/com/webpagebytes/cms/local/WPBLocalMessagesCache.java:54-57 | `language_COUNTRY`, or the bare language when the country is empty, reads back as the (language, country) pair when the language holds no `_` |
| LocalMessages.LcidInjective | src/main/java/com/webpagebytes/cms/local/WPBLocalMessagesCache.java:54-57 | two locales whose languages hold no `_` share an lcid exactly when they are the same locale |
| LocalMessages.LcidFromLocale | src/main/java/com/webpagebytes/cms/local/WPBLocalMessagesCache.java:54-57 | the lcid starts with the language and is followed by `_` and the country exactly when the country is non-empty; `LcidRoundTrip` and `LcidInjective` show it identifies the locale |
| LocalMessages.PutMeaning | src/main/java/com/webpagebytes/cms/local/WPBLocalMessagesCache.java:85-92 | one loop step creates the lcid's partition when it is new and sets the message name to its value there, leaving every other entry as it was |
| LocalMessages.GroupKeys | src/main/java/com/webpagebytes/cms/local/WPBLocalMessagesCache.java:83-93 | the partitions a refresh builds are exactly the lcids of the records read |
| LocalMessages.GroupPartitionsNonEmpty | src/main/java/com/webpagebytes/cms/local/WPBLocalMessagesCache.java:85-92 | no partition of the cache is empty |
| LocalMessages.GroupValue | src/main/java/com/webpagebytes/cms/local/WPBLocalMessagesCache.java:83-93 | `cache[lcid][name] == value` exactly when the last record read with that lcid and name carries that value, so later duplicates win |
| LocalMessages.GroupNames | src/main/java/com/webpagebytes/cms/local/WPBLocalMessagesCache.java:83-93 | a name is in a partition exactly when some record read has that lcid and name |
| LocalMessages.PartitionMeaning | src/main/java/com/webpagebytes/cms/local/WPBLocalMessagesCache.java:83-93 | a partition names exactly the records of its lcid, and each value is the value of the last such record |
| LocalMessages.MessagesCache.constructor | src/main/java/com/webpagebytes/cms/local/WPBLocalMessagesCache.java:39-52 | refreshes once only when there is a store; a failed first refresh leaves the cache unbuilt with fingerprint 0 |
| LocalMessages.MessagesCache.GetAllMessages | src/main/java/com/webpagebytes/cms/local/WPBLocalMessagesCache.java:65-72 | returns an empty map before any refresh; afterwards, `null` for an lcid no record has, else a non-empty map naming exactly that lcid's records, each with the value of the last one read |
| LocalMessages.MessagesCache.GetAllMessagesForLocale | src/main/java/com/webpagebytes/cms/local/WPBLocalMessagesCache.java:59-63 | an empty map before any refresh; afterwards the partition of `language_COUNTRY` (or the bare language): `null` when no record has that lcid, else a non-empty map naming exactly those records, each with the value of the last one read |
| LocalMessages.MessagesCache.GetFingerPrint | src/main/java/com/webpagebytes/cms/local/WPBLocalMessagesCache.java:74-77 | one cache-wide value, whatever the locale |
| LocalMessages.MessagesCache.GetSupportedLocales | src/main/java/com/webpagebytes/cms/local/WPBLocalMessagesCache.java:101-104 | the lcids of the records read by the last successful refresh; `None` (the NullPointerException) while unbuilt |
| LocalMessages.MessagesCache.Refresh | src/main/java/com/webpagebytes/cms/local/WPBLocalMessagesCache.java:79-99 | on a successful read, publishes the grouping of every stored record and the new fingerprint; on an I/O error, the snapshot, the fingerprint and the records seen stay as they were; the cache invariant is kept either way |
| Importer.Trimmed | src/main/java/com/webpagebytes/cms/cmsdata/WPBImporter.java:16-27 | a present property is stored as `Trim` of its value, an absent one as `null`; the result never has trimmable ends |
| Importer.TrimmedOrEmpty | src/main/java/com/webpagebytes/cms/cmsdata/WPBImporter.java:125-130 | a present property is stored as `Trim` of its value, an absent one as `""`; the result never has trimmable ends |
| Importer.LastModified | src/main/java/com/webpagebytes/cms/cmsdata/WPBImporter.java:29-38 | a valid long property is the date; any other nonzero date must have come from a valid long property, so an absent or malformed one gives 0 |
| Importer.LocaleType | src/main/java/com/webpagebytes/cms/cmsdata/WPBImporter.java:40-49 | a valid int property is the locale type; an absent or malformed one gives 0 |
| Importer.OverwriteFromUrl | src/main/java/com/webpagebytes/cms/cmsdata/WPBImporter.java:51-60 | a valid int property is the flag; an absent or malformed one gives 0 |
| Importer.Flag | src/main/java/com/webpagebytes/cms/cmsdata/WPBImporter.java:100-102 | the flag is 0 or 1, and 1 exactly when the property is present and not `"0"` |
| Importer.BuildParameter | src/main/java/com/webpagebytes/cms/cmsdata/WPBImporter.java:8-63 | `null` exactly without `externalKey`; the key, name, value and owner key are the trimmed properties (`null` when absent); `lastModified`, `localeType` and `overwriteFromUrl` follow their parsing rules |
| Importer.BuildUri | src/main/java/com/webpagebytes/cms/cmsdata/WPBImporter.java:64-109 | `null` without `externalKey`; a malformed `resourceType` throws, otherwise a record is built; uri, HTTP operation and resource key are the trimmed properties; `controllerClass` is kept as given; `enabled` is the 0/1 flag; `resourceType` is the number written, 0 when absent; `lastModified` by its rule |
| Importer.BuildWebPage | src/main/java/com/webpagebytes/cms/cmsdata/WPBImporter.java:111-165 | `null` exactly without `externalKey`; content type is the trimmed property; name, model provider and HTML source are the trimmed properties or `""`; the hash is the checksum of the stored HTML; `isTemplateSource` is the 0/1 flag; `lastModified` by its rule |
| Importer.BuildFile | src/main/java/com/webpagebytes/cms/cmsdata/WPBImporter.java:167-215 | `null` exactly without `externalKey`; content type, adjusted content type, short type, file name and name are the trimmed properties; size 0, blob key `""` and hash 0; `lastModified` by its rule |
| Importer.BuildWebPageModule | src/main/java/com/webpagebytes/cms/cmsdata/WPBImporter.java:217-257 | `null` exactly without `externalKey`; name and HTML source are the trimmed properties or `""`; `isTemplateSource` is the 0/1 flag; `lastModified` by its rule |
| Importer.BuildProject | src/main/java/com/webpagebytes/cms/cmsdata/WPBImporter.java:259-285 | never `null`; key `PROJECT_KEY`; default and supported languages are the trimmed properties or `""`; `lastModified` by its rule |
| Importer.BuildArticle | src/main/java/com/webpagebytes/cms/cmsdata/WPBImporter.java:287-323 | `null` exactly without `externalKey`; title and HTML source are the trimmed properties or `""`; `lastModified` by its rule |
| Importer.BuildMessage | src/main/java/com/webpagebytes/cms/cmsdata/WPBImporter.java:325-365 | `null` exactly without `externalKey`; name, value and lcid are the trimmed properties (`null` when absent); `isTranslated` is 1 for `"1"`, else 0 (absent or any other value); `lastModified` by its rule |
| Importer.TrimmedKeepsTrimmedValues | src/main/java/com/webpagebytes/cms/cmsdata/WPBImporter.java:16-27 | a property value that is already trimmed is stored unchanged |
| Importer.LastModifiedRule | src/main/java/com/webpagebytes/cms/cmsdata/WPBImporter.java:29-38 | `lastModified` is `Date(0)` when absent or not a valid long, and the number written when it is one |
| Importer.ParameterNumbersRule | src/main/java/com/webpagebytes/cms/cmsdata/WPBImporter.java:40-60 | `localeType` and `overwriteFromUrl` are 0 when absent or malformed and the number written otherwise |
| Importer.ResourceTypeRule | src/main/java/com/webpagebytes/cms/cmsdata/WPBImporter.java:104-106 | `resourceType` is 0 when absent and the number written when valid; a malformed value makes `buildUri` throw |
| Engine.ForOwner | src/test/java/com/webpagebytes/cms/engine/TestModelBuilder.java:101-138 | the parameters of one owner are exactly the cached parameters with that owner |
| Engine.ForOwnerAppend | src/test/java/com/webpagebytes/cms/engine/TestModelBuilder.java:101-138 | the parameters of one owner keep the cache order, so a later same-named parameter stays later |
| Engine.ToMapKeys | src/test/java/com/webpagebytes/cms/engine/TestModelBuilder.java:603-644 | a section names exactly the names of the pairs put into it |
| Engine.ToMapLast | src/test/java/com/webpagebytes/cms/engine/TestModelBuilder.java:603-644 | a name takes the value of the last pair carrying it |
| Engine.ParameterMapMeaning | src/test/java/com/webpagebytes/cms/engine/TestModelBuilder.java:603-644 | the globals and page sections name exactly their parameters, each with the stored value of the last parameter of that name |
| Engine.UriSectionMeaning | src/test/java/com/webpagebytes/cms/engine/TestModelBuilder.java:140-212 | the URI section names exactly the URI's parameters; a parameter flagged overwrite-from-url whose name the URL matched takes the matched value, and any other keeps its stored value |
| Engine.LastCarrierIndex | src/test/java/com/webpagebytes/cms/engine/TestModelBuilder.java:214-277 | finds the last language (or country) parameter, or reports that there is none |
| Engine.CarriedValue | src/test/java/com/webpagebytes/cms/engine/TestModelBuilder.java:214-277 | the locale part is the effective value of the last parameter carrying it, and is absent exactly when no parameter carries it |
| Engine.RequestedLocale | src/test/java/com/webpagebytes/cms/engine/TestModelBuilder.java:214-277 | each locale part is the effective value of its last carrier, or the default locale's part when no parameter carries it |
| Engine.ResolveLocale | src/test/java/com/webpagebytes/cms/engine/TestModelBuilder.java:341-579 | resolution succeeds exactly when no URL-flagged locale parameter is missing from the URL and the requested lcid is supported, and then returns the requested locale |
| Engine.SplitHost | src/test/java/com/webpagebytes/cms/engine/TestModelBuilder.java:782-806 | cuts after the host: the host holds no `/` and the rest is empty or starts with `/` |
| Engine.SplitUrl | src/test/java/com/webpagebytes/cms/engine/TestModelBuilder.java:646-806 | a URL splits into scheme, host and path that rebuild it exactly |
| Engine.SplitUrlOfParts | src/test/java/com/webpagebytes/cms/engine/TestModelBuilder.java:646-806 | every well-formed `scheme://host/path` splits back into its parts |
| Engine.StripTrailingSlash | src/test/java/com/webpagebytes/cms/engine/TestModelBuilder.java:646-671 | a path ending in `/` loses exactly that one `/`; any other path is kept as it is |
| Engine.StaticParametersOf | src/test/java/com/webpagebytes/cms/engine/TestModelBuilder.java:646-806 | the request section exists exactly when the base URL splits into scheme, host and path; the protocol is the scheme, the domain the lower-cased host, the context path the path without one trailing slash; the recorded base URL is the input minus that slash, and the input itself when the path does not end in one |
| Engine.StaticParametersRoundTrip | src/test/java/com/webpagebytes/cms/engine/TestModelBuilder.java:646-806 | a base URL built from scheme, host and path gives those parts back, with the host lower-cased, whether or not it ends in `/` |
| Engine.BaseUrlFor | src/test/java/com/webpagebytes/cms/engine/TestModelBuilder.java:646-754 | the header wins, then the configured `baseModelUrlPath`, then the request URL's scheme and host plus the context path |
| Engine.BaseUrlFromRequest | src/test/java/com/webpagebytes/cms/engine/TestModelBuilder.java:727-754 | the request-derived base URL keeps scheme and host and drops the request's path in favour of the context path |
| Engine.LocaleMap | src/test/java/com/webpagebytes/cms/engine/TestModelBuilder.java:582-601 | the locale section holds exactly the language and country keys, with the given values |
| Engine.StaticMap | src/test/java/com/webpagebytes/cms/engine/TestModelBuilder.java:646-671 | the request section holds exactly the protocol, domain, context path and base URL keys, with the derived values |
| Engine.ModelBuilder.constructor | src/test/java/com/webpagebytes/cms/engine/TestModelBuilder.java:91 | a builder keeps the cached parameters, default locale, supported locales and configured base URL it is given |
| Engine.InternalModel.constructor | src/test/java/com/webpagebytes/cms/engine/TestModelBuilder.java:108 | a new model is empty |
| Engine.ModelBuilder.PopulateGlobalParameters | src/test/java/com/webpagebytes/cms/engine/TestModelBuilder.java:603-644 | writes the globals section, the parameters owned by `""`, and nothing else |
| Engine.ModelBuilder.PopulateModelForWebPage | src/test/java/com/webpagebytes/cms/engine/TestModelBuilder.java:101-138 | writes the page parameters section, the parameters the page owns, and nothing else |
| Engine.ModelBuilder.PopulateLocale | src/test/java/com/webpagebytes/cms/engine/TestModelBuilder.java:582-601 | writes the locale section, language and country, and nothing else |
| Engine.ModelBuilder.PopulateUriParameters | src/test/java/com/webpagebytes/cms/engine/TestModelBuilder.java:140-579 | fails with a locale error exactly when resolution fails, leaving the model as it was; otherwise writes the URI section and the resolved locale and nothing else |
| Engine.ModelBuilder.PopulateStaticParameters | src/test/java/com/webpagebytes/cms/engine/TestModelBuilder.java:646-806 | writes the request section derived from the chosen base URL, and nothing else |
| Engine.ModelBuilder.PopulateModelForUriData | src/test/java/com/webpagebytes/cms/engine/TestModelBuilder.java:81-99 | on a locale error the model is unchanged; otherwise the model gains exactly the URI section, the resolved locale section, the globals of owner `""` and, when the base URL splits, the request section derived from it |
| ModelBuilderCases.LanguageAndCountryFromUrl | src/test/java/com/webpagebytes/cms/engine/TestModelBuilder.java:140-212 | `en`/`GB` from the URL resolve against {en_GB, en}, and the URI section equals the URL's pattern |
| ModelBuilderCases.OnlyLanguageFromUrl | src/test/java/com/webpagebytes/cms/engine/TestModelBuilder.java:214-277 | `en` alone resolves to `en` with the default's empty country |
| ModelBuilderCases.EmptyUrlMatch | src/test/java/com/webpagebytes/cms/engine/TestModelBuilder.java:279-336 | a plain parameter keeps its stored value when the URL matched nothing |
| ModelBuilderCases.UnsupportedCountryFromUrl | src/test/java/com/webpagebytes/cms/engine/TestModelBuilder.java:341-417 | `en`/`AU` is a locale error, with no fallback to `en` |
| ModelBuilderCases.LanguageMissingFromUrl | src/test/java/com/webpagebytes/cms/engine/TestModelBuilder.java:422-498 | a URL-flagged language parameter the pattern does not match is a locale error |
| ModelBuilderCases.CountryMissingFromUrl | src/test/java/com/webpagebytes/cms/engine/TestModelBuilder.java:503-579 | a URL-flagged country parameter the pattern does not match is a locale error |
| ModelBuilderCases.StaticFromHeaderHttp | src/test/java/com/webpagebytes/cms/engine/TestModelBuilder.java:646-671 | `http://www.example.com/test/` gives `http`, `www.example.com`, `/test` and `http://www.example.com/test` |
| ModelBuilderCases.StaticFromHeaderHttps | src/test/java/com/webpagebytes/cms/engine/TestModelBuilder.java:673-697 | `https://www.example.com/test1/test2` gives `https`, `www.example.com`, `/test1/test2` and the input |
| ModelBuilderCases.StaticKeepsPathCase | src/test/java/com/webpagebytes/cms/engine/TestModelBuilder.java:756-780 | only the domain is lower-cased; path and base URL keep their case |
| ModelBuilderCases.StaticJustDomain | src/test/java/com/webpagebytes/cms/engine/TestModelBuilder.java:782-806 | `http://EXAMPLE.com` gives an empty context path and the input as base URL |
| ModelBuilderCases.StaticFromConfiguration | src/test/java/com/webpagebytes/cms/engine/TestModelBuilder.java:699-725 | without the header, the configured `https://www.example.com/test1/test2/` is the base URL, whatever the request, and it loses its trailing slash |
| ModelBuilderCases.BaseUrlFromRequestUrl | src/test/java/com/webpagebytes/cms/engine/TestModelBuilder.java:727-754 | without header or configuration, the request's scheme and host plus the context path are used, whatever page the request names |
| Messages.DescendingRecordedAsAscending | src/main/java/com/webpagebytes/cms/controllers/MessageController.java:123-126 | a `DSC` listing runs a descending query but records the direction `asc` |
| Messages.SortPlanAsWritten | src/main/java/com/webpagebytes/cms/controllers/MessageController.java:110-141 | the source's sort choice: a sorted query exactly when both parameters are present and the direction is ASC or DSC ignoring case, in that direction, always recording `asc` |
| Messages.SortPlanOf | src/main/java/com/webpagebytes/cms/controllers/MessageController.java:195-219 | a sorted query exactly when both parameters are present and the direction is ASC or DSC ignoring case; the order matches the direction, and the recorded direction is the one queried |
| Messages.SortPlanCorrection | src/main/java/com/webpagebytes/cms/controllers/MessageController.java:204-207 | the corrected choice runs the same queries as the written one and differs only in what a descending listing records |
| Messages.Tagged | src/main/java/com/webpagebytes/cms/controllers/MessageController.java:230-243 | each current record is kept once, in query order, tagged `both` exactly when a default record has its name, else `current` |
| Messages.Unmatched | src/main/java/com/webpagebytes/cms/controllers/MessageController.java:244-254 | appends no more records than the default locale has |
| Messages.UnmatchedElements | src/main/java/com/webpagebytes/cms/controllers/MessageController.java:244-254 | only default records whose name no current record has are appended, tagged `default` |
| Messages.UnmatchedCounts | src/main/java/com/webpagebytes/cms/controllers/MessageController.java:244-254 | each unmatched default record is appended as often as the default listing holds it; matched ones never are |
| Messages.MergedKeepsCurrent | src/main/java/com/webpagebytes/cms/controllers/MessageController.java:230-243 | the comparison starts with the current records, in order, each tagged `both` exactly when some default record shares its name |
| Messages.MergedAddsUnmatchedDefaults | src/main/java/com/webpagebytes/cms/controllers/MessageController.java:244-254 | after the current records come only unmatched default records, each tagged `default` and as often as the default listing holds it; no default record with a current name appears |
| Messages.MergedLength | src/main/java/com/webpagebytes/cms/controllers/MessageController.java:221-254 | when every default name is matched, nothing is appended; the length is the number of current records plus the number of unmatched default records |
| Messages.NothingUnmatched | src/main/java/com/webpagebytes/cms/controllers/MessageController.java:244 | with every default name matched, no record is left to append |
| Messages.CompareWithDefaults | src/main/java/com/webpagebytes/cms/controllers/MessageController.java:221-254 | the three loops of the comparison compute the merge specified by `Tagged` and `Unmatched` |
| Messages.IndexByName | src/main/java/com/webpagebytes/cms/controllers/MessageController.java:221-228 | the first loop keys the default records by exactly their names |
| Messages.TagCurrent | src/main/java/com/webpagebytes/cms/controllers/MessageController.java:230-243 | the second loop tags every current record and leaves exactly the default names no current record took |
| Messages.AppendUnmatched | src/main/java/com/webpagebytes/cms/controllers/MessageController.java:244-254 | the third loop appends, in default order, the default records whose name is left over |
| Messages.Created | src/main/java/com/webpagebytes/cms/controllers/MessageController.java:74-77 | `create` stores name and lcid trimmed, the creation time and a fresh external key, and keeps value, translation flag and key as received |
| Messages.CreatedIsStable | src/main/java/com/webpagebytes/cms/controllers/MessageController.java:74-75 | normalising an already created record again keeps its name and lcid |
| Messages.Revised | src/main/java/com/webpagebytes/cms/controllers/MessageController.java:333-336 | `update` changes only the value and the modification time of the stored message |
| Messages.MessageController.constructor | src/main/java/com/webpagebytes/cms/controllers/MessageController.java:37-45 | the controller's cache reads the controller's store |
| Messages.MessageController.Notify | src/main/java/com/webpagebytes/cms/controllers/MessageController.java:47-59 | a notification about message records refreshes the cache with the new fingerprint, whatever the operation; a failed refresh and notifications about other classes change nothing |
| Messages.MessageController.GetAll | src/main/java/com/webpagebytes/cms/controllers/MessageController.java:100-157 | sorted parameters list the records of `lcid` (or all records) in some order and record the sort as the code does (`asc` even for DSC); otherwise it lists every stored record; a storage failure answers `CantGetRecords` |
| Messages.MessageController.GetByCompare | src/main/java/com/webpagebytes/cms/controllers/MessageController.java:172-267 | a missing `lcid` or `dlcid` answers `BadQueryParam` before any query; a storage failure answers `CantGetRecords`; otherwise the reply is the merge of the two locales' listings, with the sort recorded as the code does (`asc` even for DSC) |
| Messages.MessageController.Create | src/main/java/com/webpagebytes/cms/controllers/MessageController.java:61-98 | validation errors are the reply and nothing is stored; otherwise the normalised record is appended and returned, or `CantCreateRecord` |
| Messages.MessageController.Update | src/main/java/com/webpagebytes/cms/controllers/MessageController.java:318-357 | a key that is not a long, a missing message or a storage failure answers `CantUpdateRecord`; validation errors are the reply; otherwise the stored message gets the new value and time in place |

## Left out

- Concurrency: the lock around `Refresh` is not modelled. A refresh is one sequential method that publishes its map with a single assignment.
- The fingerprint: `new Random().nextLong()` is an input of `Refresh` and `Notify`, and nothing is claimed about successive values.
- The storage engine: a store is a record sequence plus an "online" flag, and every call made while it is offline fails with an I/O error. How a store orders a listing by a named property is not modelled. A sorted listing is only known to hold exactly the matching records.
- HTTP and JSON: request parsing, JSON conversion, response writing and `filterPagination` are not modelled. Replies are `Reply` values, and request parameters arrive as `Option<string>`.
- `create` and `update` also write a companion resource record. Its errors are swallowed, so it is not modelled.
- `get` and `delete` of the controller are outside the modelled core.
- Validators: the validator's error map is an input. Its rules are not part of this model.
- Ids and time: `getUniqueId`, `Calendar.getInstance` and `crc32` are inputs. Dates are integer milliseconds.
- `null` fields of an incoming record (which would make `trim()` throw in `create`) are not modelled. Record fields are plain strings.
- `MessagesCache.Refresh` requires a store. A cache built without one would throw a NullPointerException on refresh; `Notify` keeps the store present through the controller's invariant.
- The factories, the servlet and the page module validator are not part of this model.
- The model builder's own source is not part of this model. `Engine` holds the smallest rule that agrees with what its tests expect:
  - a locale error when a locale-typed parameter flagged overwrite-from-url is missing from the URL pattern, or when the requested locale id is not supported;
  - no fallback to the bare language.

  What the builder writes on a locale error is not asserted by the tests. The model leaves the model object unchanged.
- `Engine.ModelBuilder.PopulateStaticParameters`: the tests only cover well-formed base URLs. For a URL without `scheme://`, this model writes nothing and returns `false`.
- `Engine.StaticParametersOf` strips a trailing slash from the path after the host only. A base URL that is just `scheme://` keeps its last `/`, which belongs to the separator; no test covers an empty host.
- The keys of the locale and request sections stand for `WPBModel` constants, and `asc`/`dsc` for `WBController` constants. Those classes are not part of this model, so only the keys' distinctness is used.
- `Importer.PROJECT_KEY`: `WPBProject` is not part of this model, so the key's value is left open.
- `Importer`: property values are Strings, as in a `java.util.Properties`. A value of another type would make the `(String)` casts (WPBImporter.java lines 29, 40, 51, 86, 97, 100, 104, 149, 160, 203, 241, 252 and 272) throw `ClassCastException`, and would make the `isTranslated` comparison at line 347 unequal; neither is modelled.
- `overwriteFromUrl` is a boolean flag in the model builder's parameters. A number different from 1 has no meaning the tests show.
- Text: a character is a Unicode scalar value, while a Java `char` is a UTF-16 code unit, so a character outside the Basic Multilingual Plane is one character here and two in Java. `trim` keeps such a character and the decimal parsers reject it, in both. Case folding and digits are ASCII only; `Character.isDigit` accepts other Unicode digits, which are not modelled.
- `Messages.Unmatched` states only a length bound in its own contract. Its meaning is in the lemmas `UnmatchedElements` and `UnmatchedCounts`, which keep the quantifiers out of every proof that unfolds it.
- `Messages.Created` does not restate in its own contract that name and lcid have no trimmable ends; that follows from `JavaText.Trim`.
- `Messages.CompareWithDefaults` runs the three loops of `getByCompare` as three helper methods (`IndexByName`, `TagCurrent`, `AppendUnmatched`), in the source's order and over the same variables.
- `Messages.MessageController.GetAll`: the unsorted branch lists every stored record even when `lcid` is given, as the code does (lines 136 and 140).
- `Storage.AdminDataStorage.Add`: the store's assignment of a key on `add` is not modelled. The record is stored as given, so the `privkey` of a record made by `Messages.MessageController.Create` is the one the client sent.
- `Messages.MessageController.GetAll` and `GetByCompare` record the sort as the code does, through `SortPlanAsWritten`. The corrected choice `SortPlanOf` (see Findings) runs the same queries and differs only in the direction recorded for a descending listing, as `SortPlanCorrection` shows.
- The three locale error tests (TestModelBuilder.java lines 397-410, 478-491 and 559-572) catch `WPBLocaleException` but do not fail when nothing is thrown. So the error in `ModelBuilderCases.UnsupportedCountryFromUrl`, `LanguageMissingFromUrl` and `CountryMissingFromUrl` is the tests' evident intent, not an assertion they check; a resolver that fell back to the bare language would also pass them.
- PopulateModelForUriData: its test suppresses all three steps, so the order (URI and locale, then globals, then the request section) and stopping before any write on a locale error are this model's choice.
- `LocalMessages.Group`, `Messages.Merged`, `Engine.ParameterMap` and `Engine.UriSection` carry no contract of their own. Their meaning is stated by the lemmas beside them (`GroupKeys`, `GroupValue`, `PartitionMeaning`, `PutMeaning`; `MergedKeepsCurrent`, `MergedAddsUnmatchedDefaults`, `MergedLength`; `ParameterMapMeaning`, `UriSectionMeaning`). This keeps the quantifiers out of the proofs that unfold them.

## Findings

| source | as written | input that shows it | evidently intended | confidence | as-written member | corrected member |
|---|---|---|---|---|---|---|
| src/main/java/com/webpagebytes/cms/controllers/MessageController.java:123-126 | the DSC branch of `getAll` (and of `getByCompare`, lines 204-207) puts `SORT_PARAMETER_DIRECTION_ASC` into the reply's additional data | sort direction `DSC`, property `name`: the query is descending, the reply says `asc` | record the direction that was queried, `dsc` | high, not executed | Messages.DescendingRecordedAsAscending | Messages.SortPlanOf |
