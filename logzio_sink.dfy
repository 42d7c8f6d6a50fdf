/**
  LogzIoSink of src/Serilog.Sinks.Logz.Io/Sinks/LogzIoSink.cs: the batched sink
  that formats each event with LogEventExtensions.Format, joins the non-blank
  results with ",\n" and posts them once per batch, reporting every failure to
  the options' FailureCallback instead of throwing; only an exception the
  callback itself throws in the catch block escapes.
*/
module LogzIoSinks {
  import opened Wrappers
  import opened Exceptions
  import opened Text
  import opened Events
  import opened Flattening
  import opened Documents
  import opened HttpClients
  import opened BatchFormatting
  import opened LogzIoDefaults
  import LogEventExtensions

  /** The LogzioOptions properties the sink reads; the constructor assigns TextFormatterOptions. */
  class LogzioOptions {
    var textFormatterOptions: Option<LogEventExtensions.TextFormatterOptions>
    var dataCenter: Option<LogzioDataCenter>
    var failureCallback: FailureCallback?

    constructor(textFormatterOptions: Option<LogEventExtensions.TextFormatterOptions>, dataCenter: Option<LogzioDataCenter>, failureCallback: FailureCallback?)
      ensures this.textFormatterOptions == textFormatterOptions && this.dataCenter == dataCenter
      ensures this.failureCallback == failureCallback
    {
      this.textFormatterOptions := textFormatterOptions;
      this.dataCenter := dataCenter;
      this.failureCallback := failureCallback;
    }
  }

  /** The per-event formatter: LogEventExtensions.Format with the sink's options. */
  type EventFormatter = LogEvent -> Result<Option<string>, Exception>

  /** The lambda passed to Select; the ensures only exposes its body to callers' proofs. */
  function Formatter(o: LogEventExtensions.FormattingOptions, codec: Codec): (f: EventFormatter)
    ensures forall e :: f(e) == LogEventExtensions.Formatted(e, o, codec)
  {
    e => LogEventExtensions.Formatted(e, o, codec)
  }

  /** The Select step: what Format gives for each event, in order. */
  function Selected(events: seq<LogEvent>, format: EventFormatter): (r: seq<Result<Option<string>, Exception>>)
    ensures |r| == |events|
    ensures forall i | 0 <= i < |events| :: r[i] == format(events[i])
  {
    seq(|events|, i requires 0 <= i < |events| => format(events[i]))
  }

  /** ToArray: the results are taken in order, and the first exception escapes. */
  function Collect(results: seq<Result<Option<string>, Exception>>): Result<seq<Option<string>>, Exception> {
    if results == [] then Success([])
    else
      match results[0]
      case Failure(x) => Failure(x)
      case Success(content) =>
        var rest := Collect(results[1..]);
        if rest.Failure? then rest else Success([content] + rest.value)
  }

  /** Collect succeeds exactly when every result is a value, and then gives those values in order. */
  lemma {:induction false} CollectValues(results: seq<Result<Option<string>, Exception>>)
    ensures Collect(results).Success? <==> forall i | 0 <= i < |results| :: results[i].Success?
    ensures Collect(results).Success? ==> |Collect(results).value| == |results|
    ensures Collect(results).Success? ==> forall i | 0 <= i < |results| :: results[i] == Success(Collect(results).value[i])
  {
    if results != [] {
      CollectValues(results[1..]);
      assert forall i | 1 <= i < |results| :: results[i] == results[1..][i - 1];
    }
  }

  /** The exception Collect lets escape is the one of the first failed result. */
  lemma {:induction false} CollectFirstFailure(results: seq<Result<Option<string>, Exception>>, k: nat)
    requires k < |results| && results[k].Failure?
    requires forall j | 0 <= j < k :: results[j].Success?
    ensures Collect(results) == Failure(results[k].error)
    decreases k
  {
    if k > 0 {
      assert results[0].Success?;
      assert results[1..][k - 1] == results[k];
      CollectFirstFailure(results[1..], k - 1);
    }
  }

  /** Every event formatted, or the first exception. */
  function FormatEach(events: seq<LogEvent>, format: EventFormatter): Result<seq<Option<string>>, Exception> {
    Collect(Selected(events, format))
  }

  /** The Where step keeps every non-blank entry: the size check was already made per event. */
  function KeepAll(): string -> bool {
    _ => true
  }

  /** FormatPayload: the non-blank formatted events, in order, joined with ",\n". */
  function FormatPayload(events: seq<LogEvent>, format: EventFormatter): Result<string, Exception> {
    match FormatEach(events, format)
    case Failure(x) => Failure(x)
    case Success(formatted) => Success(Payload(formatted, false, KeepAll()))
  }

  /** What a POST's outcome reports to the callback: a non-success status or the exception thrown. */
  function Report(response: HttpResponse, url: string): (r: Option<Exception>)
    ensures r.None? <==> response.Status? && IsSuccessStatusCode(response.code)
    ensures response.Status? && !IsSuccessStatusCode(response.code) ==> r == Some(LoggingFailed(response.code, url))
    ensures response.Thrown? ==> r == Some(response.error)
  {
    match response
    case Status(code) => if IsSuccessStatusCode(code) then None else Some(LoggingFailed(code, url))
    case Thrown(e) => Some(e)
  }

  /** The callback's list after receiving the report, if any. */
  function After(received: seq<Exception>, report: Option<Exception>): seq<Exception> {
    match report
    case None => received
    case Some(e) => received + [e]
  }

  /** An exception the callback throws escapes EmitBatchAsync. */
  function Rethrown(thrown: Option<Exception>): Outcome<Exception> {
    match thrown
    case None => Pass
    case Some(x) => Fail(x)
  }

  /** The catch block: the callback receives `e`, and what it throws escapes. */
  function Catch(received: seq<Exception>, e: Exception, throws: Exception -> Option<Exception>): (seq<Exception>, Outcome<Exception>) {
    (received + [e], Rethrown(throws(e)))
  }

  /**
    The callback's list and what escapes, once the POST has answered: a
    success status reports nothing; a failure status is reported inside the
    try, and an exception the callback throws there is caught and reported
    again; a transport exception is caught and reported.
  */
  function AfterPost(received: seq<Exception>, response: HttpResponse, url: string, throws: Exception -> Option<Exception>): (seq<Exception>, Outcome<Exception>) {
    match response
    case Thrown(e) => Catch(received, e, throws)
    case Status(code) =>
      if IsSuccessStatusCode(code) then (received, Pass)
      else
        var failed := LoggingFailed(code, url);
        match throws(failed)
        case None => (received + [failed], Pass)
        case Some(y) => Catch(received + [failed], y, throws)
  }

  class LogzIoSink {
    const requestUrl: string
    const options: LogzioOptions
    const client: HttpClient
    const formattingOptions: LogEventExtensions.FormattingOptions
    /** LogzIoSerializer.Instance and the other foreign helpers Format calls. */
    const codec: Codec

    /**
      The constructor. Null options become a fresh LogzioOptions without text
      formatter options, data center or callback; null text formatter options
      are then replaced, in the options object itself, by `defaults` (what `new
      LogzioTextFormatterOptions()` holds); a null client becomes a new one
      over `transport`. `overrideLogzIoUrl` is the static
      LogzIoDefaults.OverrideLogzIoUrl.
    */
    constructor(overrideLogzIoUrl: Option<string>, authToken: Option<string>, logType: Option<string>,
                options: LogzioOptions?, client: HttpClient?, transport: (string, string) -> HttpResponse,
                defaults: LogEventExtensions.TextFormatterOptions, codec: Codec)
      modifies options
      ensures options != null ==> this.options == options && options.dataCenter == old(options.dataCenter)
      ensures options != null ==> options.failureCallback == old(options.failureCallback)
      ensures options != null ==> options.textFormatterOptions == Some(old(options.textFormatterOptions).GetOr(defaults))
      ensures options == null ==> fresh(this.options) && this.options.dataCenter.None? && this.options.failureCallback == null
      ensures options == null ==> this.options.textFormatterOptions == Some(defaults)
      ensures requestUrl == GetUrl(overrideLogzIoUrl, authToken, logType, this.options.dataCenter)
      ensures client != null ==> this.client == client
      ensures client == null ==> fresh(this.client) && this.client.respond == transport && this.client.posts == []
      ensures formattingOptions == LogEventExtensions.FromTextFormatterOptions(this.options.textFormatterOptions.value)
      ensures this.codec == codec
    {
      var o := options;
      if o == null {
        o := new LogzioOptions(None, None, null);
      }
      if o.textFormatterOptions.None? {
        o.textFormatterOptions := Some(defaults);
      }
      this.options := o;
      requestUrl := GetUrl(overrideLogzIoUrl, authToken, logType, o.dataCenter);
      var c := client;
      if c == null {
        c := new HttpClient(transport);
      }
      this.client := c;
      formattingOptions := LogEventExtensions.FromTextFormatterOptions(o.textFormatterOptions.value);
      this.codec := codec;
    }

    /**
      EmitBatchAsync: nothing happens without a URL; otherwise a formatting
      exception is reported with no POST, and else exactly one POST is made,
      whose failure status or exception is reported. Only an exception the
      callback throws while handling a caught exception escapes.
    */
    method EmitBatch(batch: seq<LogEvent>) returns (r: Outcome<Exception>)
      modifies client, options.failureCallback
      ensures client.disposals == old(client.disposals)
      ensures options.failureCallback == null ==> r == Pass
      ensures IsWhiteSpaceOnly(requestUrl) ==> r == Pass && client.posts == old(client.posts)
      ensures IsWhiteSpaceOnly(requestUrl) && options.failureCallback != null ==>
        options.failureCallback.received == old(options.failureCallback.received)
      ensures !IsWhiteSpaceOnly(requestUrl) ==>
        match FormatPayload(batch, Formatter(formattingOptions, codec))
        case Failure(x) =>
          && client.posts == old(client.posts)
          && (options.failureCallback != null ==>
                (options.failureCallback.received, r) ==
                Catch(old(options.failureCallback.received), x, options.failureCallback.throws))
        case Success(payload) =>
          && client.posts == old(client.posts) + [(requestUrl, payload)]
          && (options.failureCallback != null ==>
                (options.failureCallback.received, r) ==
                AfterPost(old(options.failureCallback.received), client.respond(requestUrl, payload), requestUrl,
                          options.failureCallback.throws))
    {
      if IsWhiteSpaceOnly(requestUrl) {
        return Pass;
      }
      var callback := options.failureCallback;
      var payload := FormatPayload(batch, Formatter(formattingOptions, codec));
      if payload.Failure? {
        if callback == null {
          return Pass;
        }
        var thrown := callback.Invoke(payload.error);
        return Rethrown(thrown);
      }
      var result := client.PostAsync(requestUrl, payload.value);
      if callback == null {
        return Pass;
      }
      match result
      case Thrown(e) =>
        var thrown := callback.Invoke(e);
        return Rethrown(thrown);
      case Status(code) =>
        if IsSuccessStatusCode(code) {
          return Pass;
        }
        var thrown := callback.Invoke(LoggingFailed(code, requestUrl));
        if thrown.None? {
          return Pass;
        }
        var again := callback.Invoke(thrown.value);
        return Rethrown(again);
    }

    /** OnEmptyBatchAsync: completes without any effect. */
    method OnEmptyBatch() {
    }
  }

  /** The batch fails to format exactly when some event's properties hold a dictionary with a null key or a structure with a repeated property name. */
  lemma FormatPayloadFailsIff(events: seq<LogEvent>, o: LogEventExtensions.FormattingOptions, codec: Codec)
    ensures FormatPayload(events, Formatter(o, codec)).Failure? <==>
      exists i, j | 0 <= i < |events| && 0 <= j < |events[i].properties| :: !WellKeyed(events[i].properties[j].1)
  {
    CollectValues(Selected(events, Formatter(o, codec)));
    forall i | 0 <= i < |events| {
      LogEventExtensions.FormatThrowsIff(events[i], o, codec);
    }
  }

  /**
    A formatted batch is the non-blank results in event order: splitting it on
    ",\n" gives them back when no JSON holds a line feed, and it is empty
    exactly when every event came back null or blank.
  */
  lemma FormatPayloadEntries(events: seq<LogEvent>, format: EventFormatter)
    requires FormatPayload(events, format).Success?
    ensures var formatted := FormatEach(events, format).value;
      |formatted| == |events| && forall i | 0 <= i < |events| :: format(events[i]) == Success(formatted[i])
    ensures var formatted := FormatEach(events, format).value;
      var payload := FormatPayload(events, format).value;
      (payload == "" <==> forall i | 0 <= i < |formatted| :: IsNullOrWhiteSpace(formatted[i])) &&
      (forall w :: w in Accepted(formatted, false, KeepAll()) <==>
        exists i | 0 <= i < |formatted| :: !IsNullOrWhiteSpace(formatted[i]) && w == formatted[i].value) &&
      ((payload != "" && forall i | 0 <= i < |formatted| && formatted[i].Some? :: '\n' !in formatted[i].value) ==>
        Split(payload, Delimiter) == Accepted(formatted, false, KeepAll()))
  {
    var formatted := FormatEach(events, format).value;
    CollectValues(Selected(events, format));
    PayloadSplits(formatted, false, KeepAll());
    AcceptedEntries(formatted, false, KeepAll());
    if Accepted(formatted, false, KeepAll()) != [] {
      var w := Accepted(formatted, false, KeepAll())[0];
      assert w in Accepted(formatted, false, KeepAll());
    }
  }

  /** Concatenation commutes with Collect: the fact, as a predicate of the two lists. */
  predicate CollectsConcat(a: seq<Result<Option<string>, Exception>>, b: seq<Result<Option<string>, Exception>>) {
    (Collect(a).Failure? ==> Collect(a + b) == Collect(a)) &&
    (Collect(a).Success? && Collect(b).Failure? ==> Collect(a + b) == Collect(b)) &&
    (Collect(a).Success? && Collect(b).Success? ==> Collect(a + b) == Success(Collect(a).value + Collect(b).value))
  }

  /** The inductive step: the fact for `rest` gives it for one more result in front. */
  lemma CollectConcatStep(r: Result<Option<string>, Exception>, rest: seq<Result<Option<string>, Exception>>, b: seq<Result<Option<string>, Exception>>)
    requires CollectsConcat(rest, b)
    ensures CollectsConcat([r] + rest, b)
  {
    var ab := [r] + rest + b;
    assert ab == [r] + (rest + b);
    assert ab[0] == r && ab[1..] == rest + b;
    assert ([r] + rest)[0] == r && ([r] + rest)[1..] == rest;
    if r.Success? && Collect(rest).Success? && Collect(b).Success? {
      var xa, xb := Collect(rest).value, Collect(b).value;
      assert [r.value] + (xa + xb) == ([r.value] + xa) + xb;
    }
  }

  /** Collecting concatenated results: the first exception escapes, else the values are concatenated. */
  lemma {:induction false} CollectConcat(a: seq<Result<Option<string>, Exception>>, b: seq<Result<Option<string>, Exception>>)
    ensures Collect(a).Failure? ==> Collect(a + b) == Collect(a)
    ensures Collect(a).Success? && Collect(b).Failure? ==> Collect(a + b) == Collect(b)
    ensures Collect(a).Success? && Collect(b).Success? ==> Collect(a + b) == Success(Collect(a).value + Collect(b).value)
  {
    if a == [] {
      assert a + b == b;
      if Collect(b).Success? {
        assert Collect(a).value + Collect(b).value == Collect(b).value;
      }
    } else {
      CollectConcat(a[1..], b);
      CollectConcatStep(a[0], a[1..], b);
      assert a == [a[0]] + a[1..];
    }
  }

  /** An event that formats to null (too large, or the serializer threw) leaves no trace in the batch, not even a delimiter. */
  lemma DroppedEventInvisible(a: seq<LogEvent>, e: LogEvent, b: seq<LogEvent>, format: EventFormatter)
    requires format(e) == Success(None)
    ensures FormatPayload(a + [e] + b, format) == FormatPayload(a + b, format)
  {
    var sa, sb := Selected(a, format), Selected(b, format);
    var dropped: seq<Result<Option<string>, Exception>> := [Success(None)];
    assert Selected(a + [e] + b, format) == sa + dropped + sb;
    assert Selected(a + b, format) == sa + sb;
    CollectConcat(sa + dropped, sb);
    CollectConcat(sa, dropped);
    CollectConcat(sa, sb);
    assert dropped[1..] == [];
    assert Collect(dropped[1..]) == Success([]);
    assert Collect(dropped).Success? && Collect(dropped).value == [None];
    var fa, fb := Collect(sa), Collect(sb);
    if fa.Success? && fb.Success? {
      DroppedEntryInvisible(fa.value, None, fb.value, false, KeepAll());
    }
  }

  /** When every event of a batch is dropped the payload is empty, yet EmitBatch still posts it. */
  lemma AllDroppedEmptyPayload(events: seq<LogEvent>, format: EventFormatter)
    requires forall i | 0 <= i < |events| :: format(events[i]) == Success(None)
    ensures FormatPayload(events, format) == Success("")
  {
    CollectValues(Selected(events, format));
    FormatPayloadEntries(events, format);
  }

  /**
    With a callback that never throws, the callback receives exactly the
    report of the POST and EmitBatchAsync completes.
  */
  lemma QuietCallback(received: seq<Exception>, response: HttpResponse, url: string, throws: Exception -> Option<Exception>)
    requires forall e :: throws(e).None?
    ensures AfterPost(received, response, url, throws) == (After(received, Report(response, url)), Pass)
  {
  }

  /**
    The callback first receives the POST's report, if any, and at most one more
    exception (what it threw on a failure status); whatever escapes is what it
    threw on the last exception it received.
  */
  lemma AfterPostDelivers(received: seq<Exception>, response: HttpResponse, url: string, throws: Exception -> Option<Exception>)
    ensures var (got, out) := AfterPost(received, response, url, throws);
      && got[..|received|] == received
      && (Report(response, url).None? <==> got == received)
      && (Report(response, url).None? ==> out == Pass)
      && (Report(response, url).Some? ==>
            |received| < |got| <= |received| + 2 && got[|received|] == Report(response, url).value)
      && (out.Fail? ==> |got| > 0 && throws(got[|got| - 1]) == Some(out.error))
  {
    var (got, out) := AfterPost(received, response, url, throws);
    assert got[..|received|] == received;
  }
}
