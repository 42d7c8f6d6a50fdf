/**
  The older LogzIoTextFormatter of src/Serilog.Sinks.Logz.Io/LogzIoTextFormatter.cs:
  a constructor that may throw on an unknown naming, and a Format that writes
  one line per event, drops events over the size limit and swallows every
  exception.
*/
module LogzioLegacyTextFormatter {
  import opened Wrappers
  import opened Exceptions
  import opened Events
  import opened FieldNaming
  import opened Documents
  import opened TextWriters
  import opened LegacyTextFormatting
  import ByteSize
  import LogEventExtensions

  /** The LogzioTextFormatterOptions properties this formatter reads; settable, and read again by every Format call. */
  class LogzioTextFormatterOptions {
    var boostProperties: bool
    var lowercaseLevel: bool
    var includeMessageTemplate: bool
    var fieldNaming: Option<FieldNaming>
    var fieldNameTransformationMap: Option<map<string, Option<string>>>
    var eventSizeLimitBytes: Option<int>

    constructor(boostProperties: bool, lowercaseLevel: bool, includeMessageTemplate: bool,
                fieldNaming: Option<FieldNaming>, fieldNameTransformationMap: Option<map<string, Option<string>>>,
                eventSizeLimitBytes: Option<int>)
      ensures this.boostProperties == boostProperties && this.lowercaseLevel == lowercaseLevel
      ensures this.includeMessageTemplate == includeMessageTemplate && this.fieldNaming == fieldNaming
      ensures this.fieldNameTransformationMap == fieldNameTransformationMap && this.eventSizeLimitBytes == eventSizeLimitBytes
    {
      this.boostProperties := boostProperties;
      this.lowercaseLevel := lowercaseLevel;
      this.includeMessageTemplate := includeMessageTemplate;
      this.fieldNaming := fieldNaming;
      this.fieldNameTransformationMap := fieldNameTransformationMap;
      this.eventSizeLimitBytes := eventSizeLimitBytes;
    }
  }

  /** CheckEventBodySize: the limit defaults to 255 KB, and there is no "limit > 0" guard. */
  predicate CheckEventBodySize(json: string, eventSizeLimitBytes: Option<int>, byteSize: string -> int) {
    !(byteSize(json) > eventSizeLimitBytes.GetOr(255 * ByteSize.KB))
  }

  /** The JSON Format writes for an event, or None when it writes nothing. */
  function Written(e: LogEvent, s: LegacySettings, eventSizeLimitBytes: Option<int>, codec: Codec): Option<string> {
    match LegacyDocument(e, s)
    case Failure(_) => None
    case Success(d) =>
      match codec.serialize(d)
      case None => None
      case Some(content) => if CheckEventBodySize(content, eventSizeLimitBytes, codec.byteSize) then Some(content) else None
  }

  class LogzIoTextFormatter {
    /** The caller's options object itself, not a copy. */
    const options: LogzioTextFormatterOptions
    /** The naming transform, chosen once from FieldNaming by the constructor. */
    const transform: Transform

    /** The constructor once the naming switch has chosen `transform`. */
    constructor(options: LogzioTextFormatterOptions, transform: Transform)
      ensures this.options == options && this.transform == transform
    {
      this.options := options;
      this.transform := transform;
    }

    /**
      What Format reads: the options' current flags and rename table, with the
      transform (and so the derived field names) fixed at construction.
    */
    function Settings(): (s: LegacySettings)
      reads options
      ensures s.transform == transform && s.fieldNameTransformationMap == options.fieldNameTransformationMap
      ensures s.boostProperties == options.boostProperties && s.lowercaseLevel == options.lowercaseLevel
      ensures s.includeMessageTemplate == options.includeMessageTemplate
    {
      LegacySettings(options.lowercaseLevel, options.includeMessageTemplate, options.boostProperties,
                     options.fieldNameTransformationMap, transform)
    }

    /**
      Format: every exception is caught (and reported to SelfLog, not
      modelled), so it writes a line or nothing, under the options as they
      are at the time of the call.
    */
    method Format(logEvent: LogEvent, output: TextWriter, codec: Codec)
      modifies output
      ensures Written(logEvent, Settings(), options.eventSizeLimitBytes, codec).None? ==> output.text == old(output.text)
      ensures Written(logEvent, Settings(), options.eventSizeLimitBytes, codec).Some? ==>
        output.text == old(output.text) + Written(logEvent, Settings(), options.eventSizeLimitBytes, codec).value + output.newLine
    {
      var values := FormatDocument(logEvent, Settings());
      if values.Failure? {
        return;
      }
      var content := codec.serialize(values.value);
      if content.None? {
        return;
      }
      if CheckEventBodySize(content.value, options.eventSizeLimitBytes, codec.byteSize) {
        output.WriteLine(content.value);
      }
    }
  }

  /**
    The constructor: null options become `defaults` (the object `new
    LogzioTextFormatterOptions()` creates); the formatter keeps that object.
    An unnamed naming value throws ArgumentOutOfRangeException.
  */
  method Create(options: LogzioTextFormatterOptions?, defaults: LogzioTextFormatterOptions)
    returns (r: Result<LogzIoTextFormatter, Exception>)
    ensures var o := if options != null then options else defaults;
      match LegacyTransform(o.fieldNaming)
      case Failure(x) => r == Failure(x)
      case Success(t) => r.Success? && fresh(r.value) && r.value.options == o && r.value.transform == t
  {
    var o := if options != null then options else defaults;
    var transform := LegacyTransform(o.fieldNaming);
    if transform.Failure? {
      return Failure(transform.error);
    }
    var formatter := new LogzIoTextFormatter(o, transform.value);
    return Success(formatter);
  }

  /**
    A line is written exactly when the dictionary is built, serialized, and
    no larger than the limit (255 KB when unset); it is then the JSON itself.
  */
  lemma WrittenIff(e: LogEvent, s: LegacySettings, eventSizeLimitBytes: Option<int>, codec: Codec)
    ensures Written(e, s, eventSizeLimitBytes, codec).Some? <==>
      LegacyDocument(e, s).Success? && codec.serialize(LegacyDocument(e, s).value).Some? &&
      codec.byteSize(codec.serialize(LegacyDocument(e, s).value).value) <= eventSizeLimitBytes.GetOr(261120)
    ensures Written(e, s, eventSizeLimitBytes, codec).Some? ==>
      Written(e, s, eventSizeLimitBytes, codec) == codec.serialize(LegacyDocument(e, s).value)
    ensures LegacyDocument(e, s).Failure? ==> Written(e, s, eventSizeLimitBytes, codec).None?
  {
  }

  /**
    Unlike the current formatter, a limit of zero or less does not disable the
    check: with limit 0 an event whose JSON has any bytes is dropped, where
    LogEventExtensions.CheckEventBodySize lets it through.
  */
  lemma NonPositiveLimitDrops(json: string, limit: int, byteSize: string -> int)
    requires limit <= 0 && byteSize(json) > limit
    ensures !CheckEventBodySize(json, Some(limit), byteSize)
    ensures LogEventExtensions.CheckEventBodySize(json, limit, byteSize)
  {
  }
}
