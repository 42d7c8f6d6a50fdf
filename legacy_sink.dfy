/**
  The legacy LogzioSink of src/Serilog.Sinks.Logz.Io/LogzioSink.cs: a batching
  sink that turns each event into a fixed-shape dictionary with raw property
  values, joins all of them with ",\n", posts the batch to a listener URL built
  from the token and the type, and throws when the POST is not a success.
*/
module LegacyLogzioSinks {
  import opened Wrappers
  import opened Exceptions
  import opened Text
  import opened Events
  import opened Flattening
  import opened Documents
  import opened HttpClients
  import opened StringFormat
  import opened BatchFormatting
  import LogzIoDefaults
  import LogzIoSinks
  import LogEventExtensions

  const DefaultBatchPostingLimit := 1000

  const DefaultPeriod := LogzIoDefaults.FromSeconds(2)

  /** "http://listener.logz.io:8070/?token={0}&type={1}" */
  const LogzIoHttpUrl: seq<Piece> := [Lit("http://listener.logz.io:8070/?token="), Arg(0), Lit("&type="), Arg(1)]

  /** "https://listener.logz.io:8071/?token={0}&type={1}" */
  const LogzIoHttpsUrl: seq<Piece> := [Lit("https://listener.logz.io:8071/?token="), Arg(0), Lit("&type="), Arg(1)]

  /**
    The request URL: the HTTPS template when asked for, else the HTTP one, with
    the token and the type (a null type formats as empty) in place; both
    templates name only two arguments, so string.Format cannot throw here.
  */
  function RequestUrl(authToken: string, logType: Option<string>, useHttps: bool): (r: string)
    ensures useHttps ==> r == "https://listener.logz.io:8071/?token=" + (authToken + ("&type=" + logType.GetOr("")))
    ensures !useHttps ==> r == "http://listener.logz.io:8070/?token=" + (authToken + ("&type=" + logType.GetOr("")))
  {
    var template := if useHttps then LogzIoHttpsUrl else LogzIoHttpUrl;
    var args := [authToken, logType.GetOr("")];
    assert ItemsWithin(template, |args|);
    var t1, t2, t3 := template[1..], template[2..], template[3..];
    assert t1[1..] == t2 && t2[1..] == t3 && t3[1..] == [];
    assert FormatTemplate(t3, args).value == args[1] + "" == args[1];
    assert FormatTemplate(t2, args).value == "&type=" + args[1];
    assert FormatTemplate(t1, args).value == authToken + ("&type=" + args[1]);
    FormatTemplate(template, args).value
  }

  /**
    This sink's own GetPropertyInternalValue: a scalar gives its object as is
    (an enum stays an enum), a sequence or a dictionary its element list
    unflattened, anything else its ToString(). It never throws.
  */
  function RawInternalValue(v: PropertyValue, codec: Codec): (r: RawValue)
    ensures r.RawText? <==> v.Structure? || v.OtherValue?
    ensures r.RawText? ==> r.text == codec.ToString(v)
    ensures v.Scalar? ==> r == RawScalar(v.value)
    ensures v.Sequence? ==> r == RawElements(v.elements)
    ensures v.Dictionary? ==> r == RawEntries(v.entries)
  {
    match v
    case Scalar(p) => RawScalar(p)
    case Sequence(elements) => RawElements(elements)
    case Dictionary(entries) => RawEntries(entries)
    case _ => RawText(codec.ToString(v))
  }

  /**
    Properties.TryGetValue on the event's property dictionary, which holds the
    value assigned last under a key.
  */
  function Lookup(properties: seq<(string, PropertyValue)>, key: string): (r: Option<PropertyValue>)
    ensures r.Some? <==> exists i | 0 <= i < |properties| :: properties[i].0 == key
    ensures r.Some? ==> exists i | 0 <= i < |properties| ::
      properties[i] == (key, r.value) && forall j | i < j < |properties| :: properties[j].0 != key
  {
    if properties == [] then None
    else
      var n := |properties| - 1;
      var init := properties[..n];
      assert forall i | 0 <= i < n :: init[i] == properties[i];
      if properties[n].0 == key then Some(properties[n].1)
      else Lookup(init, key)
  }

  /** The field a property is written under: "Properties." and its name, with no other naming rule. */
  function PropertyKey(key: string): string {
    "Properties." + key
  }

  /** Some property of `properties` is written under `k`. */
  predicate PropertyKeyOf(properties: seq<(string, PropertyValue)>, k: string) {
    exists i | 0 <= i < |properties| :: PropertyKey(properties[i].0) == k
  }

  /** The property loop: every property, in order, assigned under its field name with its raw value. */
  function RawProperties(d: Document, properties: seq<(string, PropertyValue)>, codec: Codec): Document
    decreases |properties|
  {
    if properties == [] then d
    else RawProperties(Put(d, PropertyKey(properties[0].0), Raw(RawInternalValue(properties[0].1, codec))), properties[1..], codec)
  }

  /** The four entries of the dictionary initializer. */
  function Fixed(e: LogEvent): Document {
    [("@timestamp", TextValue(e.timestamp)),
     ("Level", TextValue(LevelName(e.level))),
     ("Message", TextValue(e.renderedMessage)),
     ("Exception", ExceptionValue(e.exception))]
  }

  /** The fixed entries and, when the event has a SourceContext property, "Logger" holding its ToString(). */
  function Seed(e: LogEvent, codec: Codec): Document {
    match Lookup(e.properties, "SourceContext")
    case Some(sourceContext) => Put(Fixed(e), "Logger", TextValue(codec.ToString(sourceContext)))
    case None => Fixed(e)
  }

  /** The dictionary FormatLogEvent serializes. */
  function EventDocument(e: LogEvent, codec: Codec): Document {
    RawProperties(Seed(e, codec), e.properties, codec)
  }

  /** FormatLogEvent: the serialized dictionary; a serializer exception escapes. */
  function Formatted(e: LogEvent, codec: Codec): Result<string, Exception> {
    match codec.serialize(EventDocument(e, codec))
    case Some(json) => Success(json)
    case None => Failure(SerializationError)
  }

  /** FormatLogEvent as the sink runs it, filling the dictionary step by step. */
  method FormatLogEvent(loggingEvent: LogEvent, codec: Codec) returns (r: Result<string, Exception>)
    ensures r == Formatted(loggingEvent, codec)
  {
    var values := Fixed(loggingEvent);
    var sourceContext := Lookup(loggingEvent.properties, "SourceContext");
    if sourceContext.Some? {
      values := Put(values, "Logger", TextValue(codec.ToString(sourceContext.value)));
    }
    assert values == Seed(loggingEvent, codec);
    values := AddRawProperties(values, loggingEvent.properties, codec);
    var json := codec.serialize(values);
    if json.None? {
      return Failure(SerializationError);
    }
    return Success(json.value);
  }

  /** The foreach over the properties, assigning into the dictionary being filled. */
  method AddRawProperties(values: Document, properties: seq<(string, PropertyValue)>, codec: Codec) returns (d: Document)
    ensures d == RawProperties(values, properties, codec)
  {
    d := values;
    var i := 0;
    while i < |properties|
      invariant 0 <= i <= |properties|
      invariant RawProperties(d, properties[i..], codec) == RawProperties(values, properties, codec)
    {
      assert properties[i..][1..] == properties[i + 1..];
      d := Put(d, PropertyKey(properties[i].0), Raw(RawInternalValue(properties[i].1, codec)));
      i := i + 1;
    }
    assert properties[i..] == [];
  }

  /** The per-event formatter of a batch: FormatLogEvent with the sink's serializer. */
  type JsonFormatter = LogEvent -> Result<string, Exception>

  /** The lambda passed to Select; the ensures only exposes its body to callers' proofs. */
  function Formatter(codec: Codec): (f: JsonFormatter)
    ensures forall e :: f(e) == Formatted(e, codec)
  {
    e => Formatted(e, codec)
  }

  /** Select(FormatLogEvent).ToArray(): every event formatted in order, or the first exception. */
  function FormatAll(events: seq<LogEvent>, format: JsonFormatter): Result<seq<string>, Exception>
    decreases |events|
  {
    if events == [] then Success([])
    else
      match format(events[0])
      case Failure(x) => Failure(x)
      case Success(json) =>
        match FormatAll(events[1..], format)
        case Failure(x) => Failure(x)
        case Success(rest) => Success([json] + rest)
  }

  /** FormatPayload: every formatted event, none filtered out, joined with ",\n". */
  function FormatPayload(events: seq<LogEvent>, format: JsonFormatter): Result<string, Exception> {
    match FormatAll(events, format)
    case Failure(x) => Failure(x)
    case Success(jsons) => Success(Join(jsons, Delimiter))
  }

  /** What awaiting EmitBatchAsync gives once the POST has answered. */
  function Completion(response: HttpResponse, url: string): (r: Outcome<Exception>)
    ensures r.Pass? <==> response.Status? && IsSuccessStatusCode(response.code)
    ensures response.Status? && !IsSuccessStatusCode(response.code) ==> r == Fail(LoggingFailed(response.code, url))
    ensures response.Thrown? ==> r == Fail(response.error)
  {
    match LogzIoSinks.Report(response, url)
    case None => Pass
    case Some(x) => Fail(x)
  }

  class LogzioSink {
    /** The client; null once the sink is disposed. */
    var client: HttpClient?
    const requestUri: string
    /** What the constructor hands to the batching base class. */
    const batchPostingLimit: int
    const period: LogzIoDefaults.TimeSpan
    /** The JSON serializer and the ToString() of property values. */
    const codec: Codec

    /**
      The constructor once its null checks have passed; see Create. An
      omitted `useHttps` (None) is the C# default false: plain HTTP on 8070.
    */
    constructor(client: HttpClient, authToken: string, logType: Option<string>, batchPostingLimit: int,
                period: LogzIoDefaults.TimeSpan, useHttps: Option<bool>, codec: Codec)
      ensures this.client == client && requestUri == RequestUrl(authToken, logType, useHttps.GetOr(false))
      ensures useHttps.None? ==> requestUri == "http://listener.logz.io:8070/?token=" + (authToken + ("&type=" + logType.GetOr("")))
      ensures this.batchPostingLimit == batchPostingLimit && this.period == period && this.codec == codec
    {
      this.client := client;
      requestUri := RequestUrl(authToken, logType, useHttps.GetOr(false));
      this.batchPostingLimit := batchPostingLimit;
      this.period := period;
      this.codec := codec;
    }

    /**
      EmitBatchAsync: the payload is formatted first (a serializer exception
      escapes before any POST), then posted once through the client (a
      disposed sink throws NullReferenceException), and a failure status
      throws LoggingFailedException.
    */
    method EmitBatch(events: seq<LogEvent>) returns (r: Outcome<Exception>)
      modifies client
      ensures client == old(client)
      ensures client != null ==> client.disposals == old(client.disposals)
      ensures match FormatPayload(events, Formatter(codec))
        case Failure(x) => r == Fail(x) && (client != null ==> client.posts == old(client.posts))
        case Success(payload) =>
          && (client == null ==> r == Fail(NullReference))
          && (client != null ==> client.posts == old(client.posts) + [(requestUri, payload)])
          && (client != null ==> r == Completion(client.respond(requestUri, payload), requestUri))
    {
      var payload := FormatPayload(events, Formatter(codec));
      if payload.Failure? {
        return Fail(payload.error);
      }
      if client == null {
        return Fail(NullReference);
      }
      var result := client.PostAsync(requestUri, payload.value);
      return Completion(result, requestUri);
    }

    /** Dispose(disposing): the client is disposed once and dropped; any later call does nothing. */
    method Dispose(disposing: bool)
      modifies this, client
      ensures !disposing || old(client) == null ==> client == old(client)
      ensures !disposing && old(client) != null ==> old(client).disposals == old(client.disposals)
      ensures disposing && old(client) != null ==> client == null && old(client).disposals == old(client.disposals) + 1
      ensures old(client) != null ==> old(client).posts == old(client.posts)
    {
      if !disposing || client == null {
        return;
      }
      client.Dispose();
      client := null;
    }
  }

  /**
    The constructor's null checks: a null token throws first, then a null
    client; otherwise the sink posts through that client to the request URL,
    plain HTTP unless `useHttps` is given as true.
  */
  method Create(client: HttpClient?, authToken: Option<string>, logType: Option<string>, batchPostingLimit: int,
                period: LogzIoDefaults.TimeSpan, useHttps: Option<bool>, codec: Codec)
    returns (r: Result<LogzioSink, Exception>)
    ensures authToken.None? ==> r == Failure(ArgumentNull("authToken"))
    ensures authToken.Some? && client == null ==> r == Failure(ArgumentNull("client"))
    ensures authToken.Some? && client != null ==>
      && r.Success? && fresh(r.value) && r.value.client == client
      && r.value.requestUri == RequestUrl(authToken.value, logType, useHttps.GetOr(false))
      && r.value.batchPostingLimit == batchPostingLimit && r.value.period == period && r.value.codec == codec
    ensures authToken.Some? && client != null && useHttps.None? ==>
      r.Success? && r.value.requestUri == RequestUrl(authToken.value, logType, false)
  {
    if authToken.None? {
      return Failure(ArgumentNull("authToken"));
    }
    if client == null {
      return Failure(ArgumentNull("client"));
    }
    var sink := new LogzioSink(client, authToken.value, logType, batchPostingLimit, period, useHttps, codec);
    return Success(sink);
  }

  // ---------------------------------------------------------------------------
  // Properties of the dictionary

  lemma PropertyKeyOfShift(properties: seq<(string, PropertyValue)>)
    requires properties != []
    ensures forall k :: PropertyKeyOf(properties, k) <==> k == PropertyKey(properties[0].0) || PropertyKeyOf(properties[1..], k)
  {
    forall k ensures PropertyKeyOf(properties, k) <==> k == PropertyKey(properties[0].0) || PropertyKeyOf(properties[1..], k) {
      if PropertyKeyOf(properties, k) && k != PropertyKey(properties[0].0) {
        var i :| 0 <= i < |properties| && PropertyKey(properties[i].0) == k;
        assert properties[1..][i - 1] == properties[i];
      }
      if PropertyKeyOf(properties[1..], k) {
        var i :| 0 <= i < |properties[1..]| && PropertyKey(properties[1..][i].0) == k;
        assert properties[i + 1] == properties[1..][i];
      }
    }
  }

  /** The property loop only adds property fields, and keeps the keys distinct. */
  lemma {:induction false} RawPropertiesKeys(d: Document, properties: seq<(string, PropertyValue)>, codec: Codec)
    ensures forall k :: HasKey(RawProperties(d, properties, codec), k) <==> HasKey(d, k) || PropertyKeyOf(properties, k)
    ensures DistinctKeys(d) ==> DistinctKeys(RawProperties(d, properties, codec))
    decreases |properties|
  {
    if properties != [] {
      var value := Raw(RawInternalValue(properties[0].1, codec));
      var d' := Put(d, PropertyKey(properties[0].0), value);
      RawPropertiesKeys(d', properties[1..], codec);
      if DistinctKeys(d) {
        PutKeepsDistinct(d, PropertyKey(properties[0].0), value);
      }
      PropertyKeyOfShift(properties);
    }
  }

  /** A key that is no property's field keeps its value through the property loop. */
  lemma {:induction false} RawPropertiesFrame(d: Document, properties: seq<(string, PropertyValue)>, codec: Codec)
    ensures forall k | !PropertyKeyOf(properties, k) :: Get(RawProperties(d, properties, codec), k) == Get(d, k)
    decreases |properties|
  {
    if properties != [] {
      var d' := Put(d, PropertyKey(properties[0].0), Raw(RawInternalValue(properties[0].1, codec)));
      RawPropertiesFrame(d', properties[1..], codec);
      PropertyKeyOfShift(properties);
    }
  }

  /** A property not followed by another of the same name ends up with its raw value under its field. */
  lemma {:induction false} RawPropertiesLastWins(d: Document, properties: seq<(string, PropertyValue)>, codec: Codec)
    ensures forall i | 0 <= i < |properties| && !PropertyKeyOf(properties[i + 1..], PropertyKey(properties[i].0)) ::
      Get(RawProperties(d, properties, codec), PropertyKey(properties[i].0)) == Some(Raw(RawInternalValue(properties[i].1, codec)))
    decreases |properties|
  {
    if properties != [] {
      var d' := Put(d, PropertyKey(properties[0].0), Raw(RawInternalValue(properties[0].1, codec)));
      var rest := properties[1..];
      RawPropertiesLastWins(d', rest, codec);
      RawPropertiesFrame(d', rest, codec);
      forall i | 1 <= i < |properties| ensures properties[i + 1..] == rest[i..] && properties[i] == rest[i - 1] {
      }
    }
  }

  /** A property field is longer than every fixed field name, so no property overwrites one. */
  lemma PropertyKeysAreLong(properties: seq<(string, PropertyValue)>)
    ensures forall k | PropertyKeyOf(properties, k) :: |k| >= 11
  {
  }

  lemma FixedFacts(e: LogEvent)
    ensures DistinctKeys(Fixed(e))
    ensures forall k :: HasKey(Fixed(e), k) <==> k in ["@timestamp", "Level", "Message", "Exception"]
    ensures Get(Fixed(e), "@timestamp") == Some(TextValue(e.timestamp))
    ensures Get(Fixed(e), "Level") == Some(TextValue(LevelName(e.level)))
    ensures Get(Fixed(e), "Message") == Some(TextValue(e.renderedMessage))
    ensures Get(Fixed(e), "Exception") == Some(ExceptionValue(e.exception))
  {
    var fixed := Fixed(e);
    var keys := ["@timestamp", "Level", "Message", "Exception"];
    assert forall i | 0 <= i < 4 :: fixed[i].0 == keys[i];
    assert |keys[0]| == 10 && |keys[1]| == 5 && |keys[2]| == 7 && |keys[3]| == 9;
    LogEventExtensions.FixedKeysOf(fixed, keys);
    assert fixed[1..][1..][1..] == [fixed[3]];
  }

  lemma SeedFacts(e: LogEvent, codec: Codec)
    ensures DistinctKeys(Seed(e, codec))
    ensures forall k :: HasKey(Seed(e, codec), k) <==>
      k in ["@timestamp", "Level", "Message", "Exception"] || (k == "Logger" && Lookup(e.properties, "SourceContext").Some?)
    ensures Get(Seed(e, codec), "@timestamp") == Some(TextValue(e.timestamp))
    ensures Get(Seed(e, codec), "Level") == Some(TextValue(LevelName(e.level)))
    ensures Get(Seed(e, codec), "Message") == Some(TextValue(e.renderedMessage))
    ensures Get(Seed(e, codec), "Exception") == Some(ExceptionValue(e.exception))
    ensures Lookup(e.properties, "SourceContext").Some? ==>
      Get(Seed(e, codec), "Logger") == Some(TextValue(codec.ToString(Lookup(e.properties, "SourceContext").value)))
  {
    FixedFacts(e);
    var sourceContext := Lookup(e.properties, "SourceContext");
    if sourceContext.Some? {
      assert "Logger" !in ["@timestamp", "Level", "Message", "Exception"];
      PutKeepsDistinct(Fixed(e), "Logger", TextValue(codec.ToString(sourceContext.value)));
    }
  }

  /**
    The dictionary always holds @timestamp, Level, Message and Exception with
    the event's values (Exception is null when the event has none), "Logger"
    exactly when the event has a SourceContext property, and a "Properties."
    field per property; no key twice.
  */
  lemma DocumentKeys(e: LogEvent, codec: Codec)
    ensures var d := EventDocument(e, codec);
      DistinctKeys(d) &&
      forall k :: HasKey(d, k) <==>
        k in ["@timestamp", "Level", "Message", "Exception"] ||
        (k == "Logger" && Lookup(e.properties, "SourceContext").Some?) ||
        PropertyKeyOf(e.properties, k)
  {
    SeedFacts(e, codec);
    RawPropertiesKeys(Seed(e, codec), e.properties, codec);
  }

  lemma DocumentFixedValues(e: LogEvent, codec: Codec)
    ensures var d := EventDocument(e, codec);
      && Get(d, "@timestamp") == Some(TextValue(e.timestamp))
      && Get(d, "Level") == Some(TextValue(LevelName(e.level)))
      && Get(d, "Message") == Some(TextValue(e.renderedMessage))
      && Get(d, "Exception") == Some(ExceptionValue(e.exception))
      && (Lookup(e.properties, "SourceContext").Some? ==>
            Get(d, "Logger") == Some(TextValue(codec.ToString(Lookup(e.properties, "SourceContext").value))))
  {
    SeedFacts(e, codec);
    PropertyKeysAreLong(e.properties);
    assert |"@timestamp"| == 10 && |"Level"| == 5 && |"Message"| == 7 && |"Exception"| == 9 && |"Logger"| == 6;
    assert !PropertyKeyOf(e.properties, "@timestamp") && !PropertyKeyOf(e.properties, "Level");
    assert !PropertyKeyOf(e.properties, "Message") && !PropertyKeyOf(e.properties, "Exception");
    assert !PropertyKeyOf(e.properties, "Logger");
    RawPropertiesFrame(Seed(e, codec), e.properties, codec);
  }

  /** Each property, unless a later one has the same name, is written under "Properties." + name with its raw value. */
  lemma DocumentProperties(e: LogEvent, codec: Codec)
    ensures forall i | 0 <= i < |e.properties| && !PropertyKeyOf(e.properties[i + 1..], PropertyKey(e.properties[i].0)) ::
      Get(EventDocument(e, codec), PropertyKey(e.properties[i].0)) == Some(Raw(RawInternalValue(e.properties[i].1, codec)))
  {
    RawPropertiesLastWins(Seed(e, codec), e.properties, codec);
  }

  // ---------------------------------------------------------------------------
  // Properties of the batch

  /** Formatting a batch fails exactly when some event fails, and then with the first failure. */
  lemma {:induction false} FormatAllValues(events: seq<LogEvent>, format: JsonFormatter)
    ensures FormatAll(events, format).Success? <==> forall i | 0 <= i < |events| :: format(events[i]).Success?
    ensures FormatAll(events, format).Success? ==>
      |FormatAll(events, format).value| == |events| &&
      forall i | 0 <= i < |events| :: format(events[i]) == Success(FormatAll(events, format).value[i])
    ensures FormatAll(events, format).Failure? ==>
      exists i | 0 <= i < |events| :: format(events[i]) == Failure(FormatAll(events, format).error) &&
        forall j | 0 <= j < i :: format(events[j]).Success?
    decreases |events|
  {
    if events != [] {
      FormatAllValues(events[1..], format);
      assert forall i | 1 <= i < |events| :: events[i] == events[1..][i - 1];
      if format(events[0]).Success? && FormatAll(events[1..], format).Failure? {
        var i :| 0 <= i < |events[1..]| && format(events[1..][i]) == Failure(FormatAll(events[1..], format).error) &&
          forall j | 0 <= j < i :: format(events[1..][j]).Success?;
        assert format(events[i + 1]) == Failure(FormatAll(events, format).error);
      }
    }
  }

  /** A batch fails to format exactly when the serializer throws on some event's dictionary. */
  lemma FormatPayloadFailsIff(events: seq<LogEvent>, codec: Codec)
    ensures FormatPayload(events, Formatter(codec)).Failure? <==>
      exists i | 0 <= i < |events| :: codec.serialize(EventDocument(events[i], codec)).None?
    ensures FormatPayload(events, Formatter(codec)).Failure? ==> FormatPayload(events, Formatter(codec)).error == SerializationError
  {
    FormatAllValues(events, Formatter(codec));
  }

  /**
    Nothing is filtered: the payload holds one JSON per event, in order, and
    splitting it on ",\n" gives them all back when none holds a line feed.
  */
  lemma FormatPayloadSplits(events: seq<LogEvent>, format: JsonFormatter)
    requires FormatPayload(events, format).Success? && events != []
    requires forall i | 0 <= i < |events| :: format(events[i]).Success? ==> '\n' !in format(events[i]).value
    ensures var parts := Split(FormatPayload(events, format).value, Delimiter);
      |parts| == |events| && forall i | 0 <= i < |events| :: format(events[i]) == Success(parts[i])
  {
    FormatAllValues(events, format);
    var jsons := FormatAll(events, format).value;
    forall k | 0 <= k < |jsons| ensures FreeOf(jsons[k], Delimiter) {
      NoNewlineIsFreeOfDelimiter(jsons[k]);
    }
    SplitJoin(jsons, Delimiter);
  }

  /** An empty batch posts an empty payload; a batch of one posts that event's JSON alone. */
  lemma SmallPayloads(e: LogEvent, format: JsonFormatter)
    ensures FormatPayload([], format) == Success("")
    ensures format(e).Success? ==> FormatPayload([e], format) == Success(format(e).value)
  {
    assert [e][1..] == [];
  }
}
