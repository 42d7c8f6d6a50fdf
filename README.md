# Serilog.Sinks.Logz.Io in Dafny

A model of how the Logz.io Serilog sinks turn log events into the bulk
payload they post to a Logz.io listener, with proofs of what the code
promises about it. Three layers are modelled:

- **Event formatting.**
  - `LogEventExtensions.Format` and its `FormattingOptions` are the current formatter.
  - The two older `LogzIoTextFormatter` classes (Logz.Io and Http.LogzIo) share their dictionary building in `LegacyTextFormatting`.
  - The legacy `LogzioSink.FormatLogEvent` is the third variant.
  - Each formatter seeds fixed fields and then assigns every property in order under its field name (last write wins). The field name comes from the rename table or a prefix, and then goes through the naming transform.
  - Property values are flattened (`Flattening`) and the dictionary is serialized. The current and the older text formatters drop an event that is too large or cannot be serialized. In the legacy `LogzioSink` a serializer exception escapes and aborts the whole batch.
- **Batch assembly.**
  - The three `LogzIoBatchFormatter` classes share the delimiter loop in `BatchFormatting`: skip blank entries, optionally rename `"RenderedMessage"`, drop oversized entries, write the rest separated by `",\n"`.
  - `LogzIoSink.FormatPayload` filters and joins the same way.
  - The legacy sink joins every event unfiltered.
- **Emission and URLs.**
  - `LogzIoSink.EmitBatchAsync` posts once per batch and reports every failure to the failure callback. An exception the callback throws is caught and handed to it once more, and only a second throw escapes.
  - The legacy `LogzioSink` throws instead and disposes its client once.
  - `LogzIoDefaults.GetUrl`, the two `LogzIoUrl.Format` variants and `CreateBatchingSinkOptions` build the target URL and the batching options.

**Modelling choices.**
- C# `null` is `Option`.
- A thrown exception is `Result.Failure`, or `Outcome.Fail` for members without a value.
- The object a ScalarValue holds is a `Primitive`: null, a bool, an integer, a string, an enum member (by name) or any other object (by its text).
- A `Dictionary<string, object>` is the list of its entries in insertion order (`Documents.Document`). Its indexer is `Get` and `Put`; assignment keeps an existing key's place (`Documents.PutKeepsPlace`).
- The JSON serializer, `ByteSize.From` and `LogEventPropertyValue.ToString()` are the fields of a `Codec` of total functions. `serialize` returns `None` where the serializer throws.
- A `TextWriter` is a class whose `text` the methods extend.
- An `IHttpClient` is a class that records its POSTs and disposals. It answers through a function of the URL and the body.
- A failure callback is a class that records the exceptions it receives. What it throws for each is a function of the exception (`throws`), `None` when it returns normally.

## Model

| member | source | states |
|---|---|---|
| Flattening.GetInternalValue | src/Serilog.Sinks.Logz.Io/LogEventExtensions.cs:104-111 | an enum becomes its name as a string, every other object is returned unchanged, so no enum is left |
| Flattening.GetPropertyInternalValue | src/Serilog.Sinks.Logz.Io/LogEventExtensions.cs:92-102 | a flattened value holds no enum at any depth; a sequence becomes an array of the same length, a dictionary or structure an object with one member per entry |
| Flattening.FlattenElements | src/Serilog.Sinks.Logz.Io/LogEventExtensions.cs:97 | the array has one item per element, in order, each the element's own flattening |
| Flattening.DictionaryMembers | src/Serilog.Sinks.Logz.Io/LogEventExtensions.cs:98 | each dictionary entry becomes a member with the same key and its flattened value, in order |
| Flattening.StructureMembers | src/Serilog.Sinks.Logz.Io/LogEventExtensions.cs:99 | each structure property becomes a member keyed by its name with its flattened value, in order |
| Flattening.FlattenSucceedsIff | src/Serilog.Sinks.Logz.Io/LogEventExtensions.cs:96-100 | flattening throws exactly when some nested dictionary has a null key or some structure a repeated property name (ToDictionary) |
| Flattening.ElementsSucceedIff | src/Serilog.Sinks.Logz.Io/LogEventExtensions.cs:97 | a sequence flattens exactly when each element does |
| Flattening.AddEntry | src/Serilog.Sinks.Logz.Io/LogEventExtensions.cs:98 | inserting a dictionary entry throws ArgumentNullException exactly on a null key, and otherwise appends the entry |
| Flattening.DictionarySucceedsIff | src/Serilog.Sinks.Logz.Io/LogEventExtensions.cs:98 | ToDictionary over a DictionaryValue's entries succeeds exactly when no key is null and every value flattens |
| Flattening.StructureSucceedsIff | src/Serilog.Sinks.Logz.Io/LogEventExtensions.cs:99 | ToDictionary over a structure succeeds exactly when names are distinct and every value flattens |
| Documents.Put | src/Serilog.Sinks.Logz.Io/LogEventExtensions.cs:48 | after `values[key] = v` the key maps to v, every other key keeps its value, a new key is appended at the end and an existing one adds no entry |
| Documents.PutKeepsPlace | src/Serilog.Sinks.Logz.Io/LogEventExtensions.cs:48 | assigning an existing key changes only the value of the entry that holds it, at the same position |
| Documents.PutKeepsDistinct | src/Serilog.Sinks.Logz.Io/LogEventExtensions.cs:48 | assignment never stores a key twice |
| Documents.OverrideFieldName | src/Serilog.Sinks.Logz.Io/LogEventExtensions.cs:69-90 | a rename is used exactly when the table exists, holds the key, and its entry is not null or blank; it is that entry |
| Documents.AddPropertiesInPlace | src/Serilog.Sinks.Logz.Io/LogEventExtensions.cs:38-49 | the foreach over properties yields the dictionary of the property-loop specification, or its first flattening exception |
| Documents.AddPropertiesSucceedsIff | src/Serilog.Sinks.Logz.Io/LogEventExtensions.cs:38-49 | the property loop throws exactly when some property value cannot be flattened |
| Documents.AddPropertiesKeys | src/Serilog.Sinks.Logz.Io/LogEventExtensions.cs:38-49 | the loop removes no key, adds only property field names, and keeps keys distinct |
| Documents.AddPropertiesFrame | src/Serilog.Sinks.Logz.Io/LogEventExtensions.cs:38-49 | a key no property is written under keeps its value |
| Documents.AddPropertiesLastWins | src/Serilog.Sinks.Logz.Io/LogEventExtensions.cs:38-49 | a property not followed by another with the same field name ends with its flattened value under that name |
| FieldNaming.Apply | src/Serilog.Sinks.Logz.Io/LogEventExtensions.cs:156-161 | every transform keeps the length of the name |
| FieldNaming.CurrentAndLegacyNaming | src/Serilog.Sinks.Logz.Io/LogEventExtensions.cs:154-161 | null naming means camelCase in FormattingOptions but identity in the older formatters; an unnamed value is identity in one and ArgumentOutOfRangeException in the other |
| FieldNaming.ApplyIdempotent | src/Serilog.Sinks.Logz.Io/LogEventExtensions.cs:158-159 | each transform is idempotent and lower-casing leaves no upper-case letter |
| FieldNaming.TransformAbsorbsPrefix | src/Serilog.Sinks.Logz.Io/LogzIoTextFormatter.cs:51 | transforming the prefix at construction and the prefixed name again equals transforming once |
| LogEventExtensions.FromTextFormatterOptions | src/Serilog.Sinks.Logz.Io/Sinks/LogzIoSink.cs:25-32 | flags copied, rename table taken as it is at construction, naming passed to FormattingOptions, an unset size limit becomes 261120 (255 KB) |
| LogEventExtensions.FixedKeysDistinct | src/Serilog.Sinks.Logz.Io/LogEventExtensions.cs:15-31 | the seeded keys are distinct whatever the transform, so the initializer and `Add("messageTemplate")` never throw |
| LogEventExtensions.Format | src/Serilog.Sinks.Logz.Io/LogEventExtensions.cs:9-67 | the step-by-step Format returns the specified result: a flattening exception escapes, a serializer exception or an oversized JSON gives null |
| LogEventExtensions.FixedFacts | src/Serilog.Sinks.Logz.Io/LogEventExtensions.cs:15-22 | the initializer holds @timestamp, message, the level field, traceId and spanId ("" when missing) with the event's values |
| LogEventExtensions.SeedFacts | src/Serilog.Sinks.Logz.Io/LogEventExtensions.cs:15-32 | the exception field is added only with an exception, "messageTemplate" only with IncludeMessageTemplate, and no key twice |
| LogEventExtensions.DocumentKeys | src/Serilog.Sinks.Logz.Io/LogEventExtensions.cs:15-49 | the document's keys are the seeded ones plus the property field names, with the exception and template keys present exactly when asked for or written by a property |
| LogEventExtensions.DocumentFixedValues | src/Serilog.Sinks.Logz.Io/LogEventExtensions.cs:15-32 | a fixed field keeps its seeded value unless a property is written under the same name |
| LogEventExtensions.DocumentProperties | src/Serilog.Sinks.Logz.Io/LogEventExtensions.cs:38-49 | each property not overwritten later sits under its field name with its flattened value |
| LogEventExtensions.FormatThrowsIff | src/Serilog.Sinks.Logz.Io/LogEventExtensions.cs:34-50 | Format throws exactly when some property cannot be flattened: a nested dictionary with a null key, or a structure with a repeated property name |
| LogEventExtensions.FormatNullIff | src/Serilog.Sinks.Logz.Io/LogEventExtensions.cs:52-126 | null exactly when the serializer throws or the limit is positive and exceeded; a limit of zero or less never drops |
| LogEventExtensions.DefaultSizeLimit | src/Serilog.Sinks.Logz.Io/Formatting/LogzIoTextFormatter.cs:40 | with no limit in the options an event over 261120 bytes is dropped and a smaller one kept |
| LogEventExtensions.DefaultNaming | src/Serilog.Sinks.Logz.Io/LogEventExtensions.cs:154-166 | null naming gives "level", "exception", "messageTemplate" and "properties." |
| LogEventExtensions.OtherNamings | src/Serilog.Sinks.Logz.Io/LogEventExtensions.cs:159-165 | lower-case naming gives "level" and "messagetemplate", identity keeps "Level" and "Exception" |
| LogEventExtensions.LevelLowercased | src/Serilog.Sinks.Logz.Io/LogEventExtensions.cs:11-13 | the level is its name, with no upper-case letter when LowercaseLevel is set ("information", "warning") |
| LogEventExtensions.CamelCasePrefixedName | src/Serilog.Sinks.Logz.Io/LogEventExtensions.cs:36-45 | without boost or rename, camelCase writes a property as "properties." + key |
| LogEventExtensions.CamelCaseBoostedName | src/Serilog.Sinks.Logz.Io/LogEventExtensions.cs:36-45 | with boost and no rename, camelCase lowers only the key's first letter |
| LogEventExtensions.CamelCaseBoostedExample | src/Serilog.Sinks.Logz.Io/LogEventExtensions.cs:36-45 | a boosted "EnrichedProperty" is written as "enrichedProperty" |
| LogEventExtensions.RenamedName | src/Serilog.Sinks.Logz.Io/LogEventExtensions.cs:40-45 | a non-blank rename replaces prefix and key and is still transformed |
| BatchFormatting.WriteEntries | src/Serilog.Sinks.Logz.Io/Formatting/LogzIoBatchFormatter.cs:37-59 | the delimiter loop appends exactly the accepted entries joined by ",\n", with no leading or trailing delimiter |
| BatchFormatting.RewriteSpec | src/Serilog.Sinks.Logz.Io/Formatting/LogzIoBatchFormatter.cs:46-51 | with renaming every "RenderedMessage" token is replaced by "message"; without it, or without the token, the entry is unchanged |
| BatchFormatting.RewriteKeeps | src/Serilog.Sinks.Logz.Io/Formatting/LogzIoBatchFormatter.cs:46-51 | the rewrite keeps a non-blank entry non-blank and adds no line feed |
| BatchFormatting.AcceptedConcat | src/Serilog.Sinks.Logz.Io/Formatting/LogzIoBatchFormatter.cs:39-59 | entries are filtered one by one: the entries written for a + b are those for a, then those for b |
| BatchFormatting.AcceptedEntries | src/Serilog.Sinks.Logz.Io/Formatting/LogzIoBatchFormatter.cs:41-58 | an entry is written exactly when non-blank and its rewritten form passes the size check |
| BatchFormatting.DroppedEntryInvisible | src/Serilog.Sinks.Logz.Io/Formatting/LogzIoBatchFormatter.cs:41-58 | a blank or oversized entry leaves no trace, not even a delimiter |
| BatchFormatting.PayloadSplits | src/Serilog.Sinks.Logz.Io/Formatting/LogzIoBatchFormatter.cs:37-58 | the output is empty exactly when nothing is accepted; splitting it on ",\n" gives back the accepted entries when none holds a line feed |
| FormattingBatchFormatter.LogzIoBatchFormatter.Format | src/Serilog.Sinks.Logz.Io/Formatting/LogzIoBatchFormatter.cs:32-60 | a null argument throws ArgumentNullException before anything is written; otherwise the accepted entries are appended joined by ",\n" |
| FormattingBatchFormatter.SizeLimits | src/Serilog.Sinks.Logz.Io/Formatting/LogzIoBatchFormatter.cs:26-75 | by default an entry is kept when non-blank and, after renaming, at most 262144 bytes; without a limit size never matters |
| SinkBatchFormatter.LogzIoBatchFormatter.Format | src/Serilog.Sinks.Logz.Io/LogzIoBatchFormatter.cs:30-58 | as above, with the size check inherited from the base class |
| SinkBatchFormatter.Default | src/Serilog.Sinks.Logz.Io/LogzIoBatchFormatter.cs:24-28 | defaults are a 262144-byte limit and renaming on |
| HttpBatchFormatter.LogzIoBatchFormatter.Format | src/Serilog.Sinks.Http.LogzIo/LogzIoBatchFormatter.cs:18-46 | as above, for the Http.LogzIo package |
| HttpBatchFormatter.Default | src/Serilog.Sinks.Http.LogzIo/LogzIoBatchFormatter.cs:12-16 | defaults are a 262144-byte limit and renaming on |
| FormattingTextFormatter.LogzIoTextFormatter.constructor | src/Serilog.Sinks.Logz.Io/Formatting/LogzIoTextFormatter.cs:31-42 | null options are replaced by the defaults, then mapped onto FormattingOptions |
| FormattingTextFormatter.LogzIoTextFormatter.Format | src/Serilog.Sinks.Logz.Io/Formatting/LogzIoTextFormatter.cs:44-51 | writes the content and a line terminator exactly when Format returns non-blank, else leaves the output alone; a flattening exception escapes |
| FormattingTextFormatter.LineIff | src/Serilog.Sinks.Logz.Io/Formatting/LogzIoTextFormatter.cs:44-51 | a line is written exactly when the event formats to a non-blank JSON, and it is that JSON plus the newline |
| LegacyTextFormatting.FormatDocument | src/Serilog.Sinks.Logz.Io/LogzIoTextFormatter.cs:72-110 | the step-by-step Format(LogEvent) gives the specified dictionary or the first flattening exception |
| LegacyTextFormatting.LegacySeedFacts | src/Serilog.Sinks.Logz.Io/LogzIoTextFormatter.cs:78-89 | the seed keys are distinct (the Add never throws), the exception field is always there, the template only when asked |
| LegacyTextFormatting.LegacyDocumentKeys | src/Serilog.Sinks.Logz.Io/LogzIoTextFormatter.cs:78-107 | keys are the seed keys plus property names; the exception key is always present, with the event's exception (possibly null) unless a property overwrote it |
| LegacyTextFormatting.LegacyDocumentProperties | src/Serilog.Sinks.Logz.Io/LogzIoTextFormatter.cs:95-106 | each property not overwritten later sits under its field name with its flattened value |
| LegacyTextFormatting.LegacyDocumentThrowsIff | src/Serilog.Sinks.Logz.Io/LogzIoTextFormatter.cs:135-145 | Format(LogEvent) throws exactly when some property cannot be flattened |
| LegacyTextFormatting.LegacyFieldNames | src/Serilog.Sinks.Logz.Io/LogzIoTextFormatter.cs:30-51 | the names derived at construction: "level", "exception", "messageTemplate", "properties." for camelCase, the same with "messagetemplate" for lower-case, the untransformed names without naming |
| LegacyTextFormatting.LegacyPrefixedName | src/Serilog.Sinks.Logz.Io/LogzIoTextFormatter.cs:93-102 | an unboosted, unrenamed property is written under the transform of "Properties." + key |
| LogzioLegacyTextFormatter.LogzIoTextFormatter.Settings | src/Serilog.Sinks.Logz.Io/LogzIoTextFormatter.cs:72-124 | Format reads the options object's current flags and rename table, with the transform chosen at construction |
| LogzioLegacyTextFormatter.LogzIoTextFormatter.constructor | src/Serilog.Sinks.Logz.Io/LogzIoTextFormatter.cs:27-52 | keeps the options object itself, not a copy, and the chosen transform |
| LogzioLegacyTextFormatter.LogzIoTextFormatter.Format | src/Serilog.Sinks.Logz.Io/LogzIoTextFormatter.cs:54-70 | under the options as they are at the call (limit included), writes the JSON and a line terminator when the dictionary is built, serialized and within the limit; otherwise nothing, and nothing is thrown |
| LogzioLegacyTextFormatter.Create | src/Serilog.Sinks.Logz.Io/LogzIoTextFormatter.cs:27-46 | null options become the defaults; an unnamed naming value throws ArgumentOutOfRangeException; the formatter keeps the options object it got, so later changes to it are seen |
| LogzioLegacyTextFormatter.WrittenIff | src/Serilog.Sinks.Logz.Io/LogzIoTextFormatter.cs:54-70 | a line is written exactly when built, serialized and at most the limit (261120 when unset) |
| LogzioLegacyTextFormatter.NonPositiveLimitDrops | src/Serilog.Sinks.Logz.Io/LogzIoTextFormatter.cs:166-181 | a limit of zero or less drops every event of positive size, unlike the current CheckEventBodySize |
| HttpLegacyTextFormatter.LogzIoTextFormatter.Settings | src/Serilog.Sinks.Http.LogzIo/LogzIoTextFormatter.cs:76-128 | Format reads the options object's current flags and rename table, with the transform chosen at construction |
| HttpLegacyTextFormatter.LogzIoTextFormatter.constructor | src/Serilog.Sinks.Http.LogzIo/LogzIoTextFormatter.cs:28-60 | keeps the options object itself, not a copy, and the chosen transform |
| HttpLegacyTextFormatter.LogzIoTextFormatter.Format | src/Serilog.Sinks.Http.LogzIo/LogzIoTextFormatter.cs:62-74 | under the options as they are at the call, writes any successfully serialized dictionary and a line terminator, with no size check; otherwise nothing |
| HttpLegacyTextFormatter.Create | src/Serilog.Sinks.Http.LogzIo/LogzIoTextFormatter.cs:28-54 | null options become the defaults; an unnamed naming value throws ArgumentOutOfRangeException; the formatter keeps the options object it got, so later changes to it are seen |
| HttpLegacyTextFormatter.WrittenIff | src/Serilog.Sinks.Http.LogzIo/LogzIoTextFormatter.cs:62-74 | a line is written exactly when the dictionary is built and serialized |
| StringFormat.FormatTemplate | src/Serilog.Sinks.Logz.Io/LogzIoUrl.cs:33 | string.Format succeeds exactly when every item names a given argument, else throws FormatException |
| StringFormat.FormatTemplateConcat | src/Serilog.Sinks.Logz.Io/LogzIoUrl.cs:33 | formatting distributes over concatenated templates |
| StringFormat.FormatItem | src/Serilog.Sinks.Logz.Io/LogzIoUrl.cs:33 | the item {i} formats as the i-th argument |
| StringFormat.FormatLiteral | src/Serilog.Sinks.Logz.Io/LogzIoUrl.cs:33 | literal text formats as itself |
| LogzIoUrls.LogzIoUrl.Port | src/Serilog.Sinks.Logz.Io/LogzIoUrl.cs:30-31 | a null or zero port becomes the default port, any other is used as given |
| LogzIoUrls.LogzIoUrl.Format | src/Serilog.Sinks.Logz.Io/LogzIoUrl.cs:28-34 | formatting succeeds exactly when the template names at most the four arguments (token, type, data center, port) |
| LogzIoUrls.FormatBinding | src/Serilog.Sinks.Logz.Io/LogzIoUrl.cs:28-33 | {0} receives the token, {1} the type, {2} the data center (null as ""), {3} the decimal text of the chosen port, which parses back to it; literal text is kept and parts concatenate |
| EcsLogzIoUrls.LogzIoUrl.Port | src/Serilog.Sinks.Logz.Io.Ecs/LogzIoUrl.cs:16-17 | only a null port becomes the default; 0 is kept |
| EcsLogzIoUrls.LogzIoUrl.Format | src/Serilog.Sinks.Logz.Io.Ecs/LogzIoUrl.cs:14-20 | formatting succeeds exactly when the template names at most the four arguments |
| EcsLogzIoUrls.FormatBinding | src/Serilog.Sinks.Logz.Io.Ecs/LogzIoUrl.cs:14-20 | {0} receives the token, {1} the type, {2} the data center (null as ""), {3} the decimal text of the chosen port, which parses back to it; literal text is kept and parts concatenate |
| EcsLogzIoUrls.VariantsDifferOnlyAtZero | src/Serilog.Sinks.Logz.Io.Ecs/LogzIoUrl.cs:16-19 | the two classes agree on every port but 0, which one defaults and the other writes as "0" |
| LogzIoDefaults.SubDomain | src/Serilog.Sinks.Logz.Io/LogzIoDefaults.cs:28-32 | a null or blank sub-domain becomes "listener" |
| LogzIoDefaults.DataCenterPort | src/Serilog.Sinks.Logz.Io/LogzIoDefaults.cs:34-36 | a null or zero port becomes 8071, so the port handed on is never 0 |
| LogzIoDefaults.GetUrl | src/Serilog.Sinks.Logz.Io/LogzIoDefaults.cs:15-26 | a non-blank override is returned as is; otherwise a blank token gives "" |
| LogzIoDefaults.FormatListenerTemplate | src/Serilog.Sinks.Logz.Io/LogzIoDefaults.cs:12-13 | the listener template formats as scheme + sub-domain + ".logz.io:" + port + "/?token=" + token + "&type=" + type |
| LogzIoDefaults.GetUrlShape | src/Serilog.Sinks.Logz.Io/LogzIoDefaults.cs:28-42 | with a token and no override the URL is {http or https}://{sub}.logz.io:{port}/?token={token}&type={type}, HTTPS when the data center is null |
| LogzIoDefaults.HttpDefaultPortUnused | src/Serilog.Sinks.Logz.Io/LogzIoDefaults.cs:12-42 | the HTTP template's default port 8070 never affects the URL |
| LogzIoDefaults.HttpWithoutPortUses8071 | src/Serilog.Sinks.Logz.Io/LogzIoDefaults.cs:34-42 | plain HTTP without a port is sent to port 8071 |
| LogzIoDefaults.CreateBatchingSinkOptions | src/Serilog.Sinks.Logz.Io/LogzIoDefaults.cs:45-52 | 1000 events and 2 seconds unless given, given values passed through |
| LogzIoSinks.Selected | src/Serilog.Sinks.Logz.Io/Sinks/LogzIoSink.cs:67-68 | one Format result per event, in order |
| LogzIoSinks.CollectValues | src/Serilog.Sinks.Logz.Io/Sinks/LogzIoSink.cs:67-70 | ToArray succeeds exactly when every Format does, giving their values in order |
| LogzIoSinks.CollectFirstFailure | src/Serilog.Sinks.Logz.Io/Sinks/LogzIoSink.cs:67-70 | the exception that escapes is the first event's |
| LogzIoSinks.Report | src/Serilog.Sinks.Logz.Io/Sinks/LogzIoSink.cs:49-60 | nothing is reported exactly on a success status; a failure status reports LoggingFailedException with status and URL, a thrown exception itself |
| LogzIoSinks.LogzIoSink.constructor | src/Serilog.Sinks.Logz.Io/Sinks/LogzIoSink.cs:18-33 | null options and text-formatter options are defaulted (the latter in the options object), the URL comes from GetUrl, a null client is replaced |
| LogzIoSinks.LogzIoSink.EmitBatch | src/Serilog.Sinks.Logz.Io/Sinks/LogzIoSink.cs:35-61 | a blank URL or a null callback lets nothing escape; a formatting exception reaches the callback with no POST; else exactly one POST, whose failure reaches the callback; an exception the callback throws is caught and handed to it again, and only a second throw escapes |
| LogzIoSinks.QuietCallback | src/Serilog.Sinks.Logz.Io/Sinks/LogzIoSink.cs:40-60 | with a callback that never throws, the callback receives exactly the failure report and nothing escapes |
| LogzIoSinks.AfterPostDelivers | src/Serilog.Sinks.Logz.Io/Sinks/LogzIoSink.cs:40-60 | after the POST the callback is called exactly when the status is a failure or the POST threw, first with that report and at most once more; what escapes is what its last call threw |
| LogzIoSinks.FormatPayloadFailsIff | src/Serilog.Sinks.Logz.Io/Sinks/LogzIoSink.cs:65-73 | the batch fails to format exactly when some event holds an unflattenable property |
| LogzIoSinks.FormatPayloadEntries | src/Serilog.Sinks.Logz.Io/Sinks/LogzIoSink.cs:65-73 | the payload is the non-blank results in order; empty exactly when all are null or blank; splits back on ",\n" |
| LogzIoSinks.CollectConcat | src/Serilog.Sinks.Logz.Io/Sinks/LogzIoSink.cs:67-70 | collecting concatenated results gives the first exception or the concatenated values |
| LogzIoSinks.DroppedEventInvisible | src/Serilog.Sinks.Logz.Io/Sinks/LogzIoSink.cs:67-72 | an event that formats to null leaves no trace in the payload |
| LogzIoSinks.AllDroppedEmptyPayload | src/Serilog.Sinks.Logz.Io/Sinks/LogzIoSink.cs:65-73 | when every event is dropped the payload is empty (and is still posted) |
| LegacyLogzioSinks.RequestUrl | src/Serilog.Sinks.Logz.Io/LogzioSink.cs:50-76 | https://listener.logz.io:8071 when useHttps, else http://listener.logz.io:8070, then "/?token=" + token + "&type=" + type |
| LegacyLogzioSinks.RawInternalValue | src/Serilog.Sinks.Logz.Io/LogzioSink.cs:152-162 | a scalar keeps its raw object (an enum stays an enum), sequences and dictionaries keep their element lists, anything else is its ToString() |
| LegacyLogzioSinks.Lookup | src/Serilog.Sinks.Logz.Io/LogzioSink.cs:138 | TryGetValue finds a value exactly when some property has the key, and gives the last one assigned |
| LegacyLogzioSinks.FormatLogEvent | src/Serilog.Sinks.Logz.Io/LogzioSink.cs:126-150 | the step-by-step dictionary and serialization give the specified JSON, or SerializationError |
| LegacyLogzioSinks.AddRawProperties | src/Serilog.Sinks.Logz.Io/LogzioSink.cs:143-146 | the foreach assigns every property under "Properties." + key with its raw value, as the loop specification says |
| LegacyLogzioSinks.Completion | src/Serilog.Sinks.Logz.Io/LogzioSink.cs:90-95 | EmitBatchAsync completes exactly on a success status; a failure status throws LoggingFailedException, a transport exception escapes |
| LegacyLogzioSinks.LogzioSink.constructor | src/Serilog.Sinks.Logz.Io/LogzioSink.cs:62-77 | stores the client and the request URL chosen by useHttps; an omitted useHttps means false, so plain HTTP on port 8070 |
| LegacyLogzioSinks.LogzioSink.EmitBatch | src/Serilog.Sinks.Logz.Io/LogzioSink.cs:85-96 | a serializer exception escapes before any POST; a disposed sink throws NullReferenceException; else one POST whose failure status throws |
| LegacyLogzioSinks.LogzioSink.Dispose | src/Serilog.Sinks.Logz.Io/LogzioSink.cs:105-113 | Dispose(true) disposes the client once and drops it; later calls and Dispose(false) do nothing |
| LegacyLogzioSinks.Create | src/Serilog.Sinks.Logz.Io/LogzioSink.cs:62-77 | a null token throws ArgumentNullException first, then a null client; otherwise the sink is built, with plain HTTP when useHttps is omitted |
| LegacyLogzioSinks.RawPropertiesKeys | src/Serilog.Sinks.Logz.Io/LogzioSink.cs:143-146 | the loop adds only "Properties." fields and keeps keys distinct |
| LegacyLogzioSinks.RawPropertiesFrame | src/Serilog.Sinks.Logz.Io/LogzioSink.cs:143-146 | a key that is no property's field keeps its value |
| LegacyLogzioSinks.RawPropertiesLastWins | src/Serilog.Sinks.Logz.Io/LogzioSink.cs:143-146 | a property not followed by one of the same name ends with its raw value under its field |
| LegacyLogzioSinks.FixedFacts | src/Serilog.Sinks.Logz.Io/LogzioSink.cs:128-134 | the initializer holds @timestamp, Level, Message and Exception with the event's values |
| LegacyLogzioSinks.SeedFacts | src/Serilog.Sinks.Logz.Io/LogzioSink.cs:128-141 | "Logger" is added exactly when a SourceContext property exists, holding its ToString() |
| LegacyLogzioSinks.DocumentKeys | src/Serilog.Sinks.Logz.Io/LogzioSink.cs:128-146 | keys are @timestamp, Level, Message, Exception (always, even when null), Logger exactly with a SourceContext, and one "Properties." field per property |
| LegacyLogzioSinks.DocumentFixedValues | src/Serilog.Sinks.Logz.Io/LogzioSink.cs:128-141 | no property can overwrite a fixed field: they keep the event's values |
| LegacyLogzioSinks.DocumentProperties | src/Serilog.Sinks.Logz.Io/LogzioSink.cs:143-146 | each property not followed by one with the same key sits under the untransformed "Properties." + key with its raw value |
| LegacyLogzioSinks.FormatAllValues | src/Serilog.Sinks.Logz.Io/LogzioSink.cs:119-121 | the batch formats exactly when every event does, in order, and otherwise with the first event's exception |
| LegacyLogzioSinks.FormatPayloadFailsIff | src/Serilog.Sinks.Logz.Io/LogzioSink.cs:117-124 | the payload fails exactly when the serializer throws on some event, with SerializationError |
| LegacyLogzioSinks.FormatPayloadSplits | src/Serilog.Sinks.Logz.Io/LogzioSink.cs:117-124 | nothing is filtered: one JSON per event in order, recovered by splitting on ",\n" |
| LegacyLogzioSinks.SmallPayloads | src/Serilog.Sinks.Logz.Io/LogzioSink.cs:123 | an empty batch posts "", a single event posts its JSON alone |
| HttpClients.HttpClient.PostAsync | src/Serilog.Sinks.Logz.Io/Sinks/LogzIoSink.cs:45-47 | a POST is recorded with its URL and body, and answers with the transport's response for that URL and body |
| HttpClients.HttpClient.Dispose | src/Serilog.Sinks.Logz.Io/LogzioSink.cs:111 | disposing counts one disposal and records no POST |
| HttpClients.FailureCallback.Invoke | src/Serilog.Sinks.Logz.Io/Sinks/LogzIoSink.cs:53 | the callback receives exactly the exception passed, after those received before, and throws what it throws for that exception |
| TextWriters.TextWriter.Write | src/Serilog.Sinks.Logz.Io/Formatting/LogzIoBatchFormatter.cs:55-56 | the text is appended to the output |
| TextWriters.TextWriter.WriteLine | src/Serilog.Sinks.Logz.Io/Formatting/LogzIoTextFormatter.cs:49 | the text and then the writer's line terminator are appended |

## Left out

- The periodic batching engine (timer, queue, batch-size triggering, concurrency) lives in Serilog.Sinks.PeriodicBatching. EmitBatch takes a finished batch. The legacy sink keeps the limit and period it would hand to the base class.
- The HTTP transport, StringContent and the UTF-8 encoding are out. A client is a recorded list of POSTs answering through a function of the URL and the body.
- Flattening.DictionaryMembers: a dictionary key is a `Primitive`, which keeps only an enum member's name and only the text of other objects, so two keys .NET tells apart may look alike in the model. Serilog's DictionaryValue already keys its entries by ScalarValue, whose equality is the held object's Equals, the same one ToDictionary uses. So no repeated key reaches ToDictionary, and the model checks dictionary keys only for null.
- The JSON serializers (Newtonsoft and System.Text.Json, their settings and converters) are opaque. `Codec.serialize` may fail, and its output is not constrained.
- ByteSize.From, RenderMessage, Timestamp.ToString("O") and LogEventPropertyValue.ToString() are opaque values or functions.
- ToLower is culture-sensitive in .NET. Here it is ASCII lower-casing.
- SelfLog output is not modelled. Where it accompanies a dropped event or a swallowed exception, only the drop or the swallowing is.
- ECS formatting and the ECS sinks are not modelled, because they depend on Elastic.CommonSchema. Only the ECS LogzIoUrl is modelled.
- LogzioOptions.cs in this snapshot does not declare the TextFormatterOptions, DataCenter and FailureCallback properties that Sinks/LogzIoSink.cs reads. The model's LogzIoSinks.LogzioOptions holds exactly those three.
- The property initializers of LogzioTextFormatterOptions are not modelled. Its defaults are a parameter (`defaults`). A LogzioDataCenter is only its sub-domain, port and HTTPS flag. A fresh LogzioOptions is taken to have no text-formatter options, data center or callback.
- LogzIoUrl templates are given as their parsed literal runs and argument indexes. Alignment and format specifiers in items are not modelled, and a template with malformed braces is not represented.
- LogEventExtensions.FromTextFormatterOptions: the rename table is taken as a value when the sink or the current text formatter is built. The C# copies a reference to the caller's Dictionary, so later in-place edits to it change the field names of later events; that aliasing is not modelled.
- The size check that SinkBatchFormatter and HttpBatchFormatter inherit from Serilog.Sinks.Http's BatchFormatter is not part of this model. It is the unconstrained parameter `inherited`, applied to the limit each constructor passes to the base class.
- LogzIoUrls.LogzIoUrl.Format: its own contract states only when string.Format succeeds. What each item receives is stated by LogzIoUrls.FormatBinding, and the whole URL for the listener templates by LogzIoDefaults.FormatListenerTemplate and GetUrlShape.
- EcsLogzIoUrls.LogzIoUrl.Format: its own contract states only when string.Format succeeds. What each item receives is stated by EcsLogzIoUrls.FormatBinding.
- The static, settable LogzIoDefaults.OverrideLogzIoUrl is an explicit parameter of GetUrl and of the sink's constructor.
- Sinks/LogzIoSink.cs checks `_requestUrl == null`. That branch is not modelled, because GetUrl never returns null.
- LogEvent.Properties is never null here. The `!= null` guards around the property loops are always taken.
- A property value's ToString() throwing, and TextWriter.Write throwing, are not modelled.
- LogzIoSinks.LogzIoSink.OnEmptyBatch: completes with no effect. It has no contract beyond that, because it does nothing.
- The legacy sink's StringContent and `await` are out. Its FormatPayload is stated over the JSON of each event, not over the HTTP body bytes.
- LegacyLogzioSinks.Lookup: a Serilog property dictionary has distinct keys. The model's property list may repeat a key, and then the last occurrence is the one found, matching last-write-wins assignment.
- LegacyLogzioSinks.LogzioSink.EmitBatch: the payload is computed from the `events` sequence. Lazy enumeration of an IEnumerable is not modelled.

## Where the code and its description differ

- In LogEventExtensions.Format the property loop (flattening) runs outside the `try`. A property that holds a dictionary with a null key, or a structure with a repeated property name, therefore makes Format throw rather than return null. In Sinks/LogzIoSink.cs that exception aborts the whole batch: it goes to the failure callback and nothing is posted. The model follows the code (LogEventExtensions.FormatThrowsIff, LogzIoSinks.FormatPayloadFailsIff).
- LogzIoDefaults.GetUrl replaces a missing or zero port by 8071 before choosing the scheme. Plain HTTP without a port therefore goes to port 8071, and the HTTP template's own default of 8070 is never used. The model follows the code (LogzIoDefaults.HttpWithoutPortUses8071, LogzIoDefaults.HttpDefaultPortUnused).
