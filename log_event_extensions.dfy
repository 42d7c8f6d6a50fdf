/**
  The current event formatter: LogEventExtensions.Format and the
  FormattingOptions it reads (src/Serilog.Sinks.Logz.Io/LogEventExtensions.cs),
  plus the option mapping LogzIoSink and the Formatting LogzIoTextFormatter
  share.
*/
module LogEventExtensions {
  import opened Wrappers
  import opened Exceptions
  import opened Text
  import opened Events
  import opened Flattening
  import opened FieldNaming
  import opened Documents
  import ByteSize

  /** The size limit used when the options leave it unset: 255 KB. */
  const DefaultEventSizeLimitBytes := 255 * ByteSize.KB

  /** FormattingOptions; the derived field names are functions of the transform. */
  datatype FormattingOptions = FormattingOptions(
    lowercaseLevel: bool,
    includeMessageTemplate: bool,
    boostProperties: bool,
    propertyTransformationMap: Option<map<string, Option<string>>>,
    transform: Transform,
    eventSizeLimitBytes: int)
  {
    function TransformFieldName(field: string): string {
      Apply(transform, field)
    }

    function MessageTemplateFieldName(): string {
      TransformFieldName("MessageTemplate")
    }

    function LevelFieldName(): string {
      TransformFieldName("Level")
    }

    function ExceptionFieldName(): string {
      TransformFieldName("Exception")
    }

    function PropertiesPrefix(): string {
      TransformFieldName("Properties.")
    }

    /** How Format names properties: note the literal "properties." prefix, not PropertiesPrefix(). */
    function Naming(): PropertyNaming {
      PropertyNaming(propertyTransformationMap, if boostProperties then "" else "properties.", transform)
    }
  }

  /** The FormattingOptions constructor; the settable properties start at their C# defaults. */
  function NewFormattingOptions(fieldNaming: Option<FieldNaming>): FormattingOptions {
    FormattingOptions(false, false, false, None, CurrentTransform(fieldNaming), 0)
  }

  /** The LogzioTextFormatterOptions properties the sink and the text formatter read. */
  datatype TextFormatterOptions = TextFormatterOptions(
    boostProperties: bool,
    includeMessageTemplate: bool,
    lowercaseLevel: bool,
    fieldNaming: Option<FieldNaming>,
    propertyTransformationMap: Option<map<string, Option<string>>>,
    eventSizeLimitBytes: Option<int>)

  /** The object initializer LogzIoSink and the Formatting LogzIoTextFormatter both use. */
  function FromTextFormatterOptions(t: TextFormatterOptions): (o: FormattingOptions)
    ensures o.boostProperties == t.boostProperties && o.includeMessageTemplate == t.includeMessageTemplate
    ensures o.lowercaseLevel == t.lowercaseLevel && o.propertyTransformationMap == t.propertyTransformationMap
    ensures o.transform == NewFormattingOptions(t.fieldNaming).transform
    ensures t.eventSizeLimitBytes.Some? ==> o.eventSizeLimitBytes == t.eventSizeLimitBytes.value
    ensures t.eventSizeLimitBytes.None? ==> o.eventSizeLimitBytes == 261120
  {
    NewFormattingOptions(t.fieldNaming).(
      boostProperties := t.boostProperties,
      includeMessageTemplate := t.includeMessageTemplate,
      lowercaseLevel := t.lowercaseLevel,
      propertyTransformationMap := t.propertyTransformationMap,
      eventSizeLimitBytes := t.eventSizeLimitBytes.GetOr(DefaultEventSizeLimitBytes))
  }

  /** The level as written: its name, lower-cased when asked. */
  function LevelText(level: Level, lowercase: bool): string {
    if lowercase then ToLower(LevelName(level)) else LevelName(level)
  }

  /** The dictionary before the property loop. */
  function Seed(e: LogEvent, o: FormattingOptions): Document {
    var fixed := Fixed(e, o);
    var withException := if e.exception.Some? then Put(fixed, o.ExceptionFieldName(), ExceptionValue(e.exception)) else fixed;
    if o.includeMessageTemplate then Put(withException, "messageTemplate", TextValue(e.messageTemplate)) else withException
  }

  /** The dictionary Format serializes; a failure is the exception flattening throws. */
  function EventDocument(e: LogEvent, o: FormattingOptions): Result<Document, Exception> {
    AddProperties(Seed(e, o), e.properties, o.Naming())
  }

  /** CheckEventBodySize: a limit of zero or less disables the check. */
  predicate CheckEventBodySize(json: string, eventSizeLimitBytes: int, byteSize: string -> int) {
    !(eventSizeLimitBytes > 0 && byteSize(json) > eventSizeLimitBytes)
  }

  /**
    What Format returns: Success(None) is a null result (the serializer threw
    or the event is too large), Failure an exception that escapes Format.
  */
  function Formatted(e: LogEvent, o: FormattingOptions, codec: Codec): Result<Option<string>, Exception> {
    match EventDocument(e, o)
    case Failure(x) => Failure(x)
    case Success(d) =>
      match codec.serialize(d)
      case None => Success(None)
      case Some(content) =>
        if CheckEventBodySize(content, o.eventSizeLimitBytes, codec.byteSize) then Success(Some(content)) else Success(None)
  }

  /** The fixed keys differ from each other and from "messageTemplate", whatever the transform. */
  lemma FixedKeysDistinct(o: FormattingOptions)
    ensures |o.LevelFieldName()| == 5 && |o.ExceptionFieldName()| == 9
    ensures var keys := ["@timestamp", "message", o.LevelFieldName(), "traceId", "spanId", o.ExceptionFieldName(), "messageTemplate"];
      forall i, j | 0 <= i < j < |keys| :: keys[i] != keys[j]
  {
  }

  /** LogEventExtensions.Format */
  method Format(loggingEvent: LogEvent, options: FormattingOptions, codec: Codec) returns (r: Result<Option<string>, Exception>)
    ensures r == Formatted(loggingEvent, options, codec)
  {
    var level := LevelName(loggingEvent.level);
    if options.lowercaseLevel {
      level := ToLower(level);
    }
    FixedKeysDistinct(options);
    var values: Document := [
      ("@timestamp", TextValue(loggingEvent.timestamp)),
      ("message", TextValue(loggingEvent.renderedMessage)),
      (options.LevelFieldName(), TextValue(level)),
      ("traceId", TextValue(loggingEvent.traceId.GetOr(""))),
      ("spanId", TextValue(loggingEvent.spanId.GetOr("")))];
    if loggingEvent.exception.Some? {
      values := Put(values, options.ExceptionFieldName(), ExceptionValue(loggingEvent.exception));
    }
    if options.includeMessageTemplate {
      // Dictionary.Add: the key is never present at this point
      assert !HasKey(values, "messageTemplate");
      values := values + [("messageTemplate", TextValue(loggingEvent.messageTemplate))];
    }
    assert values == Seed(loggingEvent, options);
    // flattening runs outside the try block, so its exceptions escape
    var document := AddPropertiesInPlace(values, loggingEvent.properties, options.Naming());
    if document.Failure? {
      return Failure(document.error);
    }
    var content := codec.serialize(document.value);
    if content.None? {
      return Success(None);
    }
    if CheckEventBodySize(content.value, options.eventSizeLimitBytes, codec.byteSize) {
      return Success(Some(content.value));
    }
    return Success(None);
  }

  /** The five keys every document starts with. */
  function FixedKeys(o: FormattingOptions): seq<string> {
    ["@timestamp", "message", o.LevelFieldName(), "traceId", "spanId"]
  }

  /** The keys Format writes before the property loop. */
  predicate SeedKey(e: LogEvent, o: FormattingOptions, k: string) {
    k in FixedKeys(o) || (k == o.ExceptionFieldName() && e.exception.Some?) || (k == "messageTemplate" && o.includeMessageTemplate)
  }

  /** The five fixed entries. */
  function Fixed(e: LogEvent, o: FormattingOptions): Document {
    [("@timestamp", TextValue(e.timestamp)),
     ("message", TextValue(e.renderedMessage)),
     (o.LevelFieldName(), TextValue(LevelText(e.level, o.lowercaseLevel))),
     ("traceId", TextValue(e.traceId.GetOr(""))),
     ("spanId", TextValue(e.spanId.GetOr("")))]
  }

  lemma FixedFacts(e: LogEvent, o: FormattingOptions)
    ensures DistinctKeys(Fixed(e, o))
    ensures forall k :: HasKey(Fixed(e, o), k) <==> k in FixedKeys(o)
    ensures Get(Fixed(e, o), "@timestamp") == Some(TextValue(e.timestamp))
    ensures Get(Fixed(e, o), "message") == Some(TextValue(e.renderedMessage))
    ensures Get(Fixed(e, o), o.LevelFieldName()) == Some(TextValue(LevelText(e.level, o.lowercaseLevel)))
    ensures Get(Fixed(e, o), "traceId") == Some(TextValue(e.traceId.GetOr("")))
    ensures Get(Fixed(e, o), "spanId") == Some(TextValue(e.spanId.GetOr("")))
  {
    FixedKeysDistinct(o);
    var fixed := Fixed(e, o);
    assert forall i | 0 <= i < 5 :: fixed[i].0 == FixedKeys(o)[i];
    FixedKeysOf(fixed, FixedKeys(o));
    assert fixed[1..][1..][1..][1..] == [fixed[4]];
  }

  /** A document whose keys are listed by `keys` has exactly those keys. */
  lemma FixedKeysOf(d: Document, keys: seq<string>)
    requires |d| == |keys| && forall i | 0 <= i < |d| :: d[i].0 == keys[i]
    ensures forall k :: HasKey(d, k) <==> k in keys
    ensures (forall i, j | 0 <= i < j < |keys| :: keys[i] != keys[j]) ==> DistinctKeys(d)
  {
    forall k ensures HasKey(d, k) <==> k in keys {
      if k in keys {
        var i :| 0 <= i < |keys| && keys[i] == k;
        assert d[i].0 == k;
      }
    }
  }

  lemma SeedKeys(e: LogEvent, o: FormattingOptions)
    ensures DistinctKeys(Seed(e, o))
    ensures forall k :: HasKey(Seed(e, o), k) <==> SeedKey(e, o, k)
  {
    SeedFacts(e, o);
  }

  lemma SeedFacts(e: LogEvent, o: FormattingOptions)
    ensures Seed(e, o) == (var withException :=
      if e.exception.Some? then Put(Fixed(e, o), o.ExceptionFieldName(), ExceptionValue(e.exception)) else Fixed(e, o);
      if o.includeMessageTemplate then Put(withException, "messageTemplate", TextValue(e.messageTemplate)) else withException)
    ensures DistinctKeys(Seed(e, o))
    ensures forall k :: HasKey(Seed(e, o), k) <==> SeedKey(e, o, k)
    ensures Get(Seed(e, o), "@timestamp") == Some(TextValue(e.timestamp))
    ensures Get(Seed(e, o), "message") == Some(TextValue(e.renderedMessage))
    ensures Get(Seed(e, o), o.LevelFieldName()) == Some(TextValue(LevelText(e.level, o.lowercaseLevel)))
    ensures Get(Seed(e, o), "traceId") == Some(TextValue(e.traceId.GetOr("")))
    ensures Get(Seed(e, o), "spanId") == Some(TextValue(e.spanId.GetOr("")))
    ensures e.exception.Some? ==> Get(Seed(e, o), o.ExceptionFieldName()) == Some(ExceptionValue(e.exception))
    ensures o.includeMessageTemplate ==> Get(Seed(e, o), "messageTemplate") == Some(TextValue(e.messageTemplate))
  {
    FixedKeysDistinct(o);
    FixedFacts(e, o);
    var fixed := Fixed(e, o);
    var withException := if e.exception.Some? then Put(fixed, o.ExceptionFieldName(), ExceptionValue(e.exception)) else fixed;
    if e.exception.Some? {
      PutKeepsDistinct(fixed, o.ExceptionFieldName(), ExceptionValue(e.exception));
    }
    if o.includeMessageTemplate {
      PutKeepsDistinct(withException, "messageTemplate", TextValue(e.messageTemplate));
    }
  }

  /**
    The document always holds @timestamp, message, the level field, traceId and
    spanId; it holds the exception field exactly when the event has an exception
    or a property is written under that name, "messageTemplate" exactly when the
    option is set or a property is written under it, and no key twice.
  */
  lemma DocumentKeys(e: LogEvent, o: FormattingOptions)
    requires EventDocument(e, o).Success?
    ensures DistinctKeys(EventDocument(e, o).value)
    ensures forall k :: HasKey(EventDocument(e, o).value, k) <==> SeedKey(e, o, k) || Named(e.properties, o.Naming(), k)
    ensures HasKey(EventDocument(e, o).value, o.ExceptionFieldName()) <==>
      e.exception.Some? || Named(e.properties, o.Naming(), o.ExceptionFieldName())
    ensures HasKey(EventDocument(e, o).value, "messageTemplate") <==>
      o.includeMessageTemplate || Named(e.properties, o.Naming(), "messageTemplate")
  {
    SeedKeys(e, o);
    AddPropertiesKeys(Seed(e, o), e.properties, o.Naming());
    FixedKeysDistinct(o);
    var d := EventDocument(e, o).value;
    assert SeedKey(e, o, o.ExceptionFieldName()) <==> e.exception.Some?;
    assert SeedKey(e, o, "messageTemplate") <==> o.includeMessageTemplate;
    assert HasKey(d, o.ExceptionFieldName()) <==> SeedKey(e, o, o.ExceptionFieldName()) || Named(e.properties, o.Naming(), o.ExceptionFieldName());
    assert HasKey(d, "messageTemplate") <==> SeedKey(e, o, "messageTemplate") || Named(e.properties, o.Naming(), "messageTemplate");
  }

  /** A fixed field keeps the value Format seeds it with unless some property is written under the same name. */
  lemma DocumentFixedValues(e: LogEvent, o: FormattingOptions)
    requires EventDocument(e, o).Success?
    ensures var d, n := EventDocument(e, o).value, o.Naming();
      (!Named(e.properties, n, "@timestamp") ==> Get(d, "@timestamp") == Some(TextValue(e.timestamp))) &&
      (!Named(e.properties, n, "message") ==> Get(d, "message") == Some(TextValue(e.renderedMessage))) &&
      (!Named(e.properties, n, o.LevelFieldName()) ==>
        Get(d, o.LevelFieldName()) == Some(TextValue(LevelText(e.level, o.lowercaseLevel)))) &&
      (!Named(e.properties, n, "traceId") ==> Get(d, "traceId") == Some(TextValue(e.traceId.GetOr("")))) &&
      (!Named(e.properties, n, "spanId") ==> Get(d, "spanId") == Some(TextValue(e.spanId.GetOr("")))) &&
      (e.exception.Some? && !Named(e.properties, n, o.ExceptionFieldName()) ==>
        Get(d, o.ExceptionFieldName()) == Some(ExceptionValue(e.exception))) &&
      (o.includeMessageTemplate && !Named(e.properties, n, "messageTemplate") ==>
        Get(d, "messageTemplate") == Some(TextValue(e.messageTemplate)))
  {
    SeedFacts(e, o);
    AddPropertiesFrame(Seed(e, o), e.properties, o.Naming());
  }

  /**
    Every property is written under its field name with its flattened value,
    unless a later property is written under the same name (last write wins,
    also over the fixed fields).
  */
  lemma DocumentProperties(e: LogEvent, o: FormattingOptions)
    requires EventDocument(e, o).Success?
    ensures var d, n := EventDocument(e, o).value, o.Naming();
      forall i | 0 <= i < |e.properties| && !Named(e.properties[i + 1..], n, PropertyFieldName(n, e.properties[i].0)) ::
        GetPropertyInternalValue(e.properties[i].1).Success? &&
        Get(d, PropertyFieldName(n, e.properties[i].0)) == Some(Flat(GetPropertyInternalValue(e.properties[i].1).value))
  {
    AddPropertiesLastWins(Seed(e, o), e.properties, o.Naming());
  }

  /** Format throws exactly when some property holds a dictionary with a null key or a structure with a repeated property name (at any depth). */
  lemma FormatThrowsIff(e: LogEvent, o: FormattingOptions, codec: Codec)
    ensures Formatted(e, o, codec).Failure? <==> exists i | 0 <= i < |e.properties| :: !WellKeyed(e.properties[i].1)
  {
    AddPropertiesSucceedsIff(Seed(e, o), e.properties, o.Naming());
  }

  /**
    Format returns null exactly when the serializer throws, or the limit is
    positive and the JSON is larger; otherwise it returns the serializer's text.
    A limit of zero or less therefore never drops an event.
  */
  lemma FormatNullIff(e: LogEvent, o: FormattingOptions, codec: Codec)
    requires EventDocument(e, o).Success?
    ensures var json := codec.serialize(EventDocument(e, o).value);
      Formatted(e, o, codec).Success? &&
      (Formatted(e, o, codec).value.None? <==>
        json.None? || (o.eventSizeLimitBytes > 0 && codec.byteSize(json.value) > o.eventSizeLimitBytes)) &&
      (Formatted(e, o, codec).value.Some? ==> Formatted(e, o, codec).value == json) &&
      (o.eventSizeLimitBytes <= 0 ==> Formatted(e, o, codec).value == json)
  {
  }

  /** With no limit in the text-formatter options, an event whose JSON is larger than 255 KB is dropped and a smaller one kept. */
  lemma DefaultSizeLimit(t: TextFormatterOptions, e: LogEvent, codec: Codec)
    requires t.eventSizeLimitBytes.None?
    requires EventDocument(e, FromTextFormatterOptions(t)).Success?
    requires codec.serialize(EventDocument(e, FromTextFormatterOptions(t)).value).Some?
    ensures var json := codec.serialize(EventDocument(e, FromTextFormatterOptions(t)).value).value;
      Formatted(e, FromTextFormatterOptions(t), codec) == if codec.byteSize(json) > 261120 then Success(None) else Success(Some(json))
  {
  }

  /** A null naming means camelCase: the level field is "level", the exception field "exception". */
  lemma DefaultNaming(fieldNaming: Option<FieldNaming>)
    requires fieldNaming.None? || fieldNaming == Some(CamelCase)
    ensures NewFormattingOptions(fieldNaming).LevelFieldName() == "level"
    ensures NewFormattingOptions(fieldNaming).ExceptionFieldName() == "exception"
    ensures NewFormattingOptions(fieldNaming).MessageTemplateFieldName() == "messageTemplate"
    ensures NewFormattingOptions(fieldNaming).PropertiesPrefix() == "properties."
  {
    assert ToLowerChar('L') == 'l' && ToLowerChar('E') == 'e' && ToLowerChar('M') == 'm' && ToLowerChar('P') == 'p';
  }

  /** LowerCase lowers whole names; an unnamed enum value keeps them as written. */
  lemma OtherNamings(o: FormattingOptions)
    ensures o.transform == Lower ==> o.LevelFieldName() == "level" && o.MessageTemplateFieldName() == "messagetemplate"
    ensures o.transform == Identity ==> o.LevelFieldName() == "Level" && o.ExceptionFieldName() == "Exception"
  {
    if o.transform == Lower {
      assert ToLower("Level") == "level";
      assert ToLower("MessageTemplate") == "messagetemplate";
    }
  }

  /** The level is written lower-cased when asked: "information", "warning". */
  lemma LevelLowercased(level: Level)
    ensures forall i | 0 <= i < |LevelText(level, true)| :: !IsUpper(LevelText(level, true)[i])
    ensures LevelText(Information, true) == "information" && LevelText(Warning, true) == "warning"
    ensures LevelText(level, false) == LevelName(level)
  {
    ToLowerIdempotent(LevelName(level));
    assert ToLower("Information") == "information";
    assert ToLower("Warning") == "warning";
  }

  /** Without boost and without a rename entry, camelCase writes a property as "properties." + its key. */
  lemma CamelCasePrefixedName(o: FormattingOptions, key: string)
    requires o.transform == Camel && !o.boostProperties
    requires OverrideFieldName(o.propertyTransformationMap, key).None?
    ensures PropertyFieldName(o.Naming(), key) == "properties." + key
  {
    assert ("properties." + key)[1..] == "roperties." + key;
  }

  /** With boost and no rename entry, camelCase writes the key with its first letter lowered. */
  lemma CamelCaseBoostedName(o: FormattingOptions, key: string)
    requires o.transform == Camel && o.boostProperties
    requires OverrideFieldName(o.propertyTransformationMap, key).None?
    ensures key != "" ==> PropertyFieldName(o.Naming(), key) == [ToLowerChar(key[0])] + key[1..]
  {
    var n := o.Naming();
    assert n.prefix + key == key;
    assert PropertyFieldName(n, key) == Apply(Camel, key);
  }

  /** A boosted "EnrichedProperty" is written as "enrichedProperty". */
  lemma CamelCaseBoostedExample(o: FormattingOptions)
    requires o.transform == Camel && o.boostProperties
    requires OverrideFieldName(o.propertyTransformationMap, "EnrichedProperty").None?
    ensures PropertyFieldName(o.Naming(), "EnrichedProperty") == "enrichedProperty"
  {
    var key := "EnrichedProperty";
    CamelCaseBoostedName(o, key);
    assert ToLowerChar(key[0]) == 'e';
    assert key[1..] == "nrichedProperty";
  }

  /** A non-blank rename entry replaces both prefix and key, and is transformed like any other name. */
  lemma RenamedName(o: FormattingOptions, key: string)
    requires o.propertyTransformationMap.Some? && key in o.propertyTransformationMap.value
    requires !IsNullOrWhiteSpace(o.propertyTransformationMap.value[key])
    ensures PropertyFieldName(o.Naming(), key) == o.TransformFieldName(o.propertyTransformationMap.value[key].value)
  {
  }
}
