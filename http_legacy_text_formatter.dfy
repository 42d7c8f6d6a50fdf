/**
  LogzIoTextFormatter of src/Serilog.Sinks.Http.LogzIo/LogzIoTextFormatter.cs:
  the same dictionary as the older Logz.Io formatter, serialized with
  System.Text.Json and written without any size check.
*/
module HttpLegacyTextFormatter {
  import opened Wrappers
  import opened Exceptions
  import opened Events
  import opened FieldNaming
  import opened Documents
  import opened TextWriters
  import opened LegacyTextFormatting

  /** The LogzioTextFormatterOptions properties this formatter reads (this package has no size limit); settable, and read again by every Format call. */
  class LogzioTextFormatterOptions {
    var boostProperties: bool
    var lowercaseLevel: bool
    var includeMessageTemplate: bool
    var fieldNaming: Option<FieldNaming>
    var fieldNameTransformationMap: Option<map<string, Option<string>>>

    constructor(boostProperties: bool, lowercaseLevel: bool, includeMessageTemplate: bool,
                fieldNaming: Option<FieldNaming>, fieldNameTransformationMap: Option<map<string, Option<string>>>)
      ensures this.boostProperties == boostProperties && this.lowercaseLevel == lowercaseLevel
      ensures this.includeMessageTemplate == includeMessageTemplate && this.fieldNaming == fieldNaming
      ensures this.fieldNameTransformationMap == fieldNameTransformationMap
    {
      this.boostProperties := boostProperties;
      this.lowercaseLevel := lowercaseLevel;
      this.includeMessageTemplate := includeMessageTemplate;
      this.fieldNaming := fieldNaming;
      this.fieldNameTransformationMap := fieldNameTransformationMap;
    }
  }

  /** The JSON Format writes for an event, or None when it writes nothing. */
  function Written(e: LogEvent, s: LegacySettings, codec: Codec): Option<string> {
    match LegacyDocument(e, s)
    case Failure(_) => None
    case Success(d) => codec.serialize(d)
  }

  class LogzIoTextFormatter {
    /** The caller's options object itself, not a copy. */
    const options: LogzioTextFormatterOptions
    /** The naming transform, chosen once from FieldNaming by the constructor. */
    const transform: Transform

    /** The constructor once the naming switch has chosen `transform`. */
    constructor(options: LogzioTextFormatterOptions, transform: Transform)
      ensures this.options == options && this.transform == transform
    {
      this.options := options;
      this.transform := transform;
    }

    /**
      What Format reads: the options' current flags and rename table, with the
      transform (and so the derived field names) fixed at construction.
    */
    function Settings(): (s: LegacySettings)
      reads options
      ensures s.transform == transform && s.fieldNameTransformationMap == options.fieldNameTransformationMap
      ensures s.boostProperties == options.boostProperties && s.lowercaseLevel == options.lowercaseLevel
      ensures s.includeMessageTemplate == options.includeMessageTemplate
    {
      LegacySettings(options.lowercaseLevel, options.includeMessageTemplate, options.boostProperties,
                     options.fieldNameTransformationMap, transform)
    }

    /**
      Format: every exception is caught (and reported to SelfLog, not
      modelled), so it writes a line or nothing, under the options as they
      are at the time of the call.
    */
    method Format(logEvent: LogEvent, output: TextWriter, codec: Codec)
      modifies output
      ensures Written(logEvent, Settings(), codec).None? ==> output.text == old(output.text)
      ensures Written(logEvent, Settings(), codec).Some? ==>
        output.text == old(output.text) + Written(logEvent, Settings(), codec).value + output.newLine
    {
      var values := FormatDocument(logEvent, Settings());
      if values.Failure? {
        return;
      }
      var content := codec.serialize(values.value);
      if content.None? {
        return;
      }
      output.WriteLine(content.value);
    }
  }

  /**
    The constructor: null options become `defaults` (the object `new
    LogzioTextFormatterOptions()` creates); the formatter keeps that object.
    An unnamed naming value throws ArgumentOutOfRangeException.
  */
  method Create(options: LogzioTextFormatterOptions?, defaults: LogzioTextFormatterOptions)
    returns (r: Result<LogzIoTextFormatter, Exception>)
    ensures var o := if options != null then options else defaults;
      match LegacyTransform(o.fieldNaming)
      case Failure(x) => r == Failure(x)
      case Success(t) => r.Success? && fresh(r.value) && r.value.options == o && r.value.transform == t
  {
    var o := if options != null then options else defaults;
    var transform := LegacyTransform(o.fieldNaming);
    if transform.Failure? {
      return Failure(transform.error);
    }
    var formatter := new LogzIoTextFormatter(o, transform.value);
    return Success(formatter);
  }

  /**
    A line is written exactly when the dictionary is built and serialized,
    whatever its size, and it is then the JSON itself.
  */
  lemma WrittenIff(e: LogEvent, s: LegacySettings, codec: Codec)
    ensures Written(e, s, codec).Some? <==> LegacyDocument(e, s).Success? && codec.serialize(LegacyDocument(e, s).value).Some?
    ensures Written(e, s, codec).Some? ==> Written(e, s, codec) == codec.serialize(LegacyDocument(e, s).value)
  {
  }
}
