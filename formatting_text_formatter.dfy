/**
  LogzIoTextFormatter of src/Serilog.Sinks.Logz.Io/Formatting: an ITextFormatter
  that writes one event per line through LogEventExtensions.Format.
*/
module FormattingTextFormatter {
  import opened Wrappers
  import opened Exceptions
  import opened Text
  import opened Events
  import opened Documents
  import opened TextWriters
  import LogEventExtensions

  /** The text one call of Format appends: the event's JSON and a line terminator, or nothing. */
  function Line(e: LogEvent, o: LogEventExtensions.FormattingOptions, codec: Codec, newLine: string): Result<string, Exception> {
    match LogEventExtensions.Formatted(e, o, codec)
    case Failure(x) => Failure(x)
    case Success(content) => Success(if IsNullOrWhiteSpace(content) then "" else content.value + newLine)
  }

  class LogzIoTextFormatter {
    const formattingOptions: LogEventExtensions.FormattingOptions

    /**
      The constructor; `defaults` is what `new LogzioTextFormatterOptions()`
      holds, used when no options are given.
    */
    constructor(options: Option<LogEventExtensions.TextFormatterOptions>, defaults: LogEventExtensions.TextFormatterOptions)
      ensures formattingOptions == LogEventExtensions.FromTextFormatterOptions(options.GetOr(defaults))
    {
      var t := options.GetOr(defaults);
      formattingOptions := LogEventExtensions.FromTextFormatterOptions(t);
    }

    /** Format: an exception from LogEventExtensions.Format escapes; a null or blank result writes nothing. */
    method Format(logEvent: LogEvent, output: TextWriter, codec: Codec) returns (r: Outcome<Exception>)
      modifies output
      ensures match Line(logEvent, formattingOptions, codec, output.newLine)
        case Failure(x) => r == Fail(x) && output.text == old(output.text)
        case Success(line) => r == Pass && output.text == old(output.text) + line
    {
      var content := LogEventExtensions.Format(logEvent, formattingOptions, codec);
      LineOf(logEvent, formattingOptions, codec, output.newLine, content);
      r := WriteContent(content, output);
    }
  }

  /** The part of Format after LogEventExtensions.Format has returned `content`. */
  method WriteContent(content: Result<Option<string>, Exception>, output: TextWriter) returns (r: Outcome<Exception>)
    modifies output
    ensures content.Failure? ==> r == Fail(content.error) && output.text == old(output.text)
    ensures content.Success? && IsNullOrWhiteSpace(content.value) ==> r == Pass && output.text == old(output.text)
    ensures content.Success? && !IsNullOrWhiteSpace(content.value) ==>
      r == Pass && output.text == old(output.text) + content.value.value + output.newLine
  {
    if content.Failure? {
      return Fail(content.error);
    }
    if !IsNullOrWhiteSpace(content.value) {
      output.WriteLine(content.value.value);
    }
    return Pass;
  }

  /** Line in terms of the result Format gave. */
  lemma LineOf(e: LogEvent, o: LogEventExtensions.FormattingOptions, codec: Codec, newLine: string, content: Result<Option<string>, Exception>)
    requires content == LogEventExtensions.Formatted(e, o, codec)
    ensures Line(e, o, codec, newLine) ==
      if content.Failure? then Failure(content.error)
      else Success(if IsNullOrWhiteSpace(content.value) then "" else content.value.value + newLine)
  {
  }

  /**
    A line is written exactly when Format returns non-blank JSON, and then it is
    that JSON followed by the terminator; a null result writes nothing.
  */
  lemma LineIff(e: LogEvent, o: LogEventExtensions.FormattingOptions, codec: Codec, newLine: string)
    ensures Line(e, o, codec, newLine).Failure? <==> LogEventExtensions.Formatted(e, o, codec).Failure?
    ensures Line(e, o, codec, newLine).Success? && Line(e, o, codec, newLine).value != "" <==>
      LogEventExtensions.Formatted(e, o, codec).Success? && !IsNullOrWhiteSpace(LogEventExtensions.Formatted(e, o, codec).value)
    ensures Line(e, o, codec, newLine).Success? && Line(e, o, codec, newLine).value != "" ==>
      Line(e, o, codec, newLine).value == LogEventExtensions.Formatted(e, o, codec).value.value + newLine
  {
    var f := LogEventExtensions.Formatted(e, o, codec);
    if f.Success? && !IsNullOrWhiteSpace(f.value) {
      assert |f.value.value| > 0;
    }
  }
}
