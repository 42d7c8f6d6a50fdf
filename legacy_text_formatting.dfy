/**
  What the two older LogzIoTextFormatter classes share
  (src/Serilog.Sinks.Logz.Io/LogzIoTextFormatter.cs and
  src/Serilog.Sinks.Http.LogzIo/LogzIoTextFormatter.cs): field names fixed by
  the transform at construction and the protected Format(LogEvent) that
  fills the dictionary. The two files hold the same code for these parts.
*/
module LegacyTextFormatting {
  import opened Wrappers
  import opened Exceptions
  import opened Text
  import opened Events
  import opened Flattening
  import opened FieldNaming
  import opened Documents

  /** The message field: always lower-case, never transformed. */
  const MessageFieldName := "message"

  /** What Format(LogEvent) reads: the option flags, the rename table and the transform chosen at construction. */
  datatype LegacySettings = LegacySettings(
    lowercaseLevel: bool,
    includeMessageTemplate: bool,
    boostProperties: bool,
    fieldNameTransformationMap: Option<map<string, Option<string>>>,
    transform: Transform)
  {
    /** The field names the constructor transforms once. */
    function MessageTemplateFieldName(): string {
      Apply(transform, "MessageTemplate")
    }

    function LevelFieldName(): string {
      Apply(transform, "Level")
    }

    function ExceptionFieldName(): string {
      Apply(transform, "Exception")
    }

    function PropertiesPrefix(): string {
      Apply(transform, "Properties.")
    }

    /** Property naming: the transformed "Properties." prefix unless boosted, and the transform again on the whole name. */
    function Naming(): PropertyNaming {
      PropertyNaming(fieldNameTransformationMap, if boostProperties then "" else PropertiesPrefix(), transform)
    }
  }

  /** The dictionary before the property loop; the exception entry is there even when the event has none. */
  function LegacySeed(e: LogEvent, s: LegacySettings): Document {
    var level := if s.lowercaseLevel then ToLower(LevelName(e.level)) else LevelName(e.level);
    [("@timestamp", TextValue(e.timestamp)),
     (s.LevelFieldName(), TextValue(level)),
     (MessageFieldName, TextValue(e.renderedMessage)),
     (s.ExceptionFieldName(), ExceptionValue(e.exception))]
    + (if s.includeMessageTemplate then [(s.MessageTemplateFieldName(), TextValue(e.messageTemplate))] else [])
  }

  /** The dictionary Format(LogEvent) returns; a failure is the exception flattening throws. */
  function LegacyDocument(e: LogEvent, s: LegacySettings): Result<Document, Exception> {
    AddProperties(LegacySeed(e, s), e.properties, s.Naming())
  }

  /** The protected Format(LogEvent): seed the dictionary, then assign every property. */
  method FormatDocument(loggingEvent: LogEvent, s: LegacySettings) returns (r: Result<Document, Exception>)
    ensures r == LegacyDocument(loggingEvent, s)
  {
    var level := LevelName(loggingEvent.level);
    if s.lowercaseLevel {
      level := ToLower(level);
    }
    var values: Document := [
      ("@timestamp", TextValue(loggingEvent.timestamp)),
      (s.LevelFieldName(), TextValue(level)),
      (MessageFieldName, TextValue(loggingEvent.renderedMessage)),
      (s.ExceptionFieldName(), ExceptionValue(loggingEvent.exception))];
    if s.includeMessageTemplate {
      // Dictionary.Add: the transformed "MessageTemplate" is longer than every seeded key
      assert !HasKey(values, s.MessageTemplateFieldName());
      values := values + [(s.MessageTemplateFieldName(), TextValue(loggingEvent.messageTemplate))];
    }
    assert values == LegacySeed(loggingEvent, s);
    r := AddPropertiesInPlace(values, loggingEvent.properties, s.Naming());
  }

  /** The keys Format(LogEvent) writes before the property loop. */
  predicate LegacySeedKey(s: LegacySettings, k: string) {
    || k == "@timestamp" || k == s.LevelFieldName() || k == MessageFieldName || k == s.ExceptionFieldName()
    || (k == s.MessageTemplateFieldName() && s.includeMessageTemplate)
  }

  /** The seeded entries: distinct keys (so the initializer's Add never throws) with the values written. */
  lemma LegacySeedFacts(e: LogEvent, s: LegacySettings)
    ensures DistinctKeys(LegacySeed(e, s))
    ensures forall k :: HasKey(LegacySeed(e, s), k) <==> LegacySeedKey(s, k)
    ensures Get(LegacySeed(e, s), MessageFieldName) == Some(TextValue(e.renderedMessage))
    ensures Get(LegacySeed(e, s), s.ExceptionFieldName()) == Some(ExceptionValue(e.exception))
    ensures s.includeMessageTemplate ==> Get(LegacySeed(e, s), s.MessageTemplateFieldName()) == Some(TextValue(e.messageTemplate))
  {
    var d := LegacySeed(e, s);
    assert |d[0].0| == 10 && |d[1].0| == 5 && |d[2].0| == 7 && |d[3].0| == 9;
    assert s.includeMessageTemplate ==> |d[4].0| == 15;
    forall k ensures HasKey(d, k) <==> LegacySeedKey(s, k) {
      if LegacySeedKey(s, k) {
        if k == s.MessageTemplateFieldName() && s.includeMessageTemplate {
          assert d[4].0 == k;
        }
      }
    }
  }

  /**
    The document always holds @timestamp, the level field, "message" and the
    exception field (null when the event has none); it holds the template
    field exactly when the option is set or a property is written under that
    name; no key is stored twice.
  */
  lemma LegacyDocumentKeys(e: LogEvent, s: LegacySettings)
    requires LegacyDocument(e, s).Success?
    ensures DistinctKeys(LegacyDocument(e, s).value)
    ensures forall k :: HasKey(LegacyDocument(e, s).value, k) <==> LegacySeedKey(s, k) || Named(e.properties, s.Naming(), k)
    ensures HasKey(LegacyDocument(e, s).value, s.ExceptionFieldName())
    ensures !Named(e.properties, s.Naming(), s.ExceptionFieldName()) ==>
      Get(LegacyDocument(e, s).value, s.ExceptionFieldName()) == Some(ExceptionValue(e.exception))
    ensures HasKey(LegacyDocument(e, s).value, s.MessageTemplateFieldName()) <==>
      s.includeMessageTemplate || Named(e.properties, s.Naming(), s.MessageTemplateFieldName())
  {
    LegacySeedFacts(e, s);
    AddPropertiesKeys(LegacySeed(e, s), e.properties, s.Naming());
    AddPropertiesFrame(LegacySeed(e, s), e.properties, s.Naming());
    var t := s.MessageTemplateFieldName();
    assert |t| == 15 && |s.LevelFieldName()| == 5 && |s.ExceptionFieldName()| == 9;
    assert LegacySeedKey(s, t) <==> s.includeMessageTemplate;
  }

  /** Properties are written last-write-wins under their field names, as in the current formatter. */
  lemma LegacyDocumentProperties(e: LogEvent, s: LegacySettings)
    requires LegacyDocument(e, s).Success?
    ensures var d, n := LegacyDocument(e, s).value, s.Naming();
      forall i | 0 <= i < |e.properties| && !Named(e.properties[i + 1..], n, PropertyFieldName(n, e.properties[i].0)) ::
        GetPropertyInternalValue(e.properties[i].1).Success? &&
        Get(d, PropertyFieldName(n, e.properties[i].0)) == Some(Flat(GetPropertyInternalValue(e.properties[i].1).value))
  {
    AddPropertiesLastWins(LegacySeed(e, s), e.properties, s.Naming());
  }

  /** Format(LogEvent) throws exactly when some property holds a dictionary with a null key or a structure with a repeated property name, at any depth. */
  lemma LegacyDocumentThrowsIff(e: LogEvent, s: LegacySettings)
    ensures LegacyDocument(e, s).Failure? <==> exists i | 0 <= i < |e.properties| :: !WellKeyed(e.properties[i].1)
  {
    AddPropertiesSucceedsIff(LegacySeed(e, s), e.properties, s.Naming());
  }

  /**
    The names the constructor derives: camelCase gives "level", "exception",
    "messageTemplate" and "properties."; lower-case the same but
    "messagetemplate"; without a naming they stay as declared.
  */
  lemma LegacyFieldNames(s: LegacySettings)
    ensures s.transform == Camel ==>
      s.LevelFieldName() == "level" && s.ExceptionFieldName() == "exception" &&
      s.MessageTemplateFieldName() == "messageTemplate" && s.PropertiesPrefix() == "properties."
    ensures s.transform == Lower ==>
      s.LevelFieldName() == "level" && s.ExceptionFieldName() == "exception" &&
      s.MessageTemplateFieldName() == "messagetemplate" && s.PropertiesPrefix() == "properties."
    ensures s.transform == Identity ==>
      s.LevelFieldName() == "Level" && s.ExceptionFieldName() == "Exception" &&
      s.MessageTemplateFieldName() == "MessageTemplate" && s.PropertiesPrefix() == "Properties."
  {
    assert ToLowerChar('L') == 'l' && ToLowerChar('E') == 'e' && ToLowerChar('M') == 'm' && ToLowerChar('P') == 'p';
    if s.transform == Lower {
      assert ToLower("Level") == "level";
      assert ToLower("Exception") == "exception";
      assert ToLower("MessageTemplate") == "messagetemplate";
      assert ToLower("Properties.") == "properties.";
    }
  }

  /**
    A property without a rename entry and without boost is written under the
    transform of "Properties." + key: transforming the prefix at construction
    and the whole name again changes nothing.
  */
  lemma LegacyPrefixedName(s: LegacySettings, key: string)
    requires !s.boostProperties && OverrideFieldName(s.fieldNameTransformationMap, key).None?
    ensures PropertyFieldName(s.Naming(), key) == Apply(s.transform, "Properties." + key)
  {
    TransformAbsorbsPrefix(s.transform, "Properties.", key);
  }
}
