/** The Serilog log event as the core sees it (produced upstream, consumed once). */
module Events {
  import opened Wrappers
  import opened Exceptions

  /** LogEventLevel */
  datatype Level = Verbose | Debug | Information | Warning | Error | Fatal

  /** LogEventLevel.ToString() */
  function LevelName(l: Level): string {
    match l
    case Verbose => "Verbose"
    case Debug => "Debug"
    case Information => "Information"
    case Warning => "Warning"
    case Error => "Error"
    case Fatal => "Fatal"
  }

  /** The object a ScalarValue holds. Floating-point numbers, dates and other objects are OtherObject. */
  datatype Primitive =
    | Null
    | Bool(b: bool)
    | Integer(i: int)
    | Str(s: string)
    | EnumConst(name: string)
    | OtherObject(text: string)

  /** LogEventPropertyValue and its four subclasses; OtherValue is any other subclass, with its ToString(). */
  datatype PropertyValue =
    | Scalar(value: Primitive)
    | Sequence(elements: seq<PropertyValue>)
    | Dictionary(entries: seq<(Primitive, PropertyValue)>)
    | Structure(typeTag: Option<string>, properties: seq<(string, PropertyValue)>)
    | OtherValue(text: string)

  /**
    A LogEvent. The timestamp is already the text of Timestamp.ToString("O"),
    renderedMessage that of RenderMessage(); properties are in enumeration order.
  */
  datatype LogEvent = LogEvent(
    timestamp: string,
    level: Level,
    renderedMessage: string,
    messageTemplate: string,
    exception: Option<Exception>,
    properties: seq<(string, PropertyValue)>,
    traceId: Option<string>,
    spanId: Option<string>)
}
