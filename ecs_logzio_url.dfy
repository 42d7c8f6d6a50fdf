/** LogzIoUrl of src/Serilog.Sinks.Logz.Io.Ecs/LogzIoUrl.cs: only a null port is defaulted. */
module EcsLogzIoUrls {
  import opened Wrappers
  import opened Exceptions
  import opened Text
  import opened StringFormat
  import LogzIoUrls

  datatype LogzIoUrl = LogzIoUrl(urlTemplate: seq<Piece>, defaultPort: int)
  {
    /** The port Format substitutes: only a null port becomes the default; 0 is kept. */
    function Port(port: Option<int>): (p: int)
      ensures port.None? ==> p == defaultPort
      ensures port.Some? ==> p == port.value
    {
      if port.None? then defaultPort else port.value
    }

    /** Format: {0} token, {1} type, {2} data center, {3} port; a null string argument formats as "". */
    function Format(token: Option<string>, logType: Option<string>, dataCenter: Option<string>, port: Option<int>): (r: Result<string, Exception>)
      ensures r.Success? <==> ItemsWithin(urlTemplate, 4)
    {
      FormatTemplate(urlTemplate, [token.GetOr(""), logType.GetOr(""), dataCenter.GetOr(""), IntToDecimal(Port(port))])
    }
  }

  /**
    What each item of a URL template receives: {0} the token, {1} the type,
    {2} the data center (a null string as ""), {3} the decimal text of the
    port Format chose, which reads back as that port; a template made of
    two parts formats as the two parts one after the other.
  */
  lemma FormatBinding(defaultPort: int, token: Option<string>, logType: Option<string>, dataCenter: Option<string>, port: Option<int>)
    ensures LogzIoUrl([Arg(0)], defaultPort).Format(token, logType, dataCenter, port) == Success(token.GetOr(""))
    ensures LogzIoUrl([Arg(1)], defaultPort).Format(token, logType, dataCenter, port) == Success(logType.GetOr(""))
    ensures LogzIoUrl([Arg(2)], defaultPort).Format(token, logType, dataCenter, port) == Success(dataCenter.GetOr(""))
    ensures var u := LogzIoUrl([Arg(3)], defaultPort);
      u.Format(token, logType, dataCenter, port) == Success(IntToDecimal(u.Port(port))) &&
      ParseInt(u.Format(token, logType, dataCenter, port).value) == u.Port(port)
    ensures forall text :: LogzIoUrl([Lit(text)], defaultPort).Format(token, logType, dataCenter, port) == Success(text)
    ensures forall a: seq<Piece>, b: seq<Piece> | ItemsWithin(a, 4) && ItemsWithin(b, 4) ::
      LogzIoUrl(a + b, defaultPort).Format(token, logType, dataCenter, port) ==
      Success(LogzIoUrl(a, defaultPort).Format(token, logType, dataCenter, port).value +
              LogzIoUrl(b, defaultPort).Format(token, logType, dataCenter, port).value)
  {
    var u := LogzIoUrl([Arg(3)], defaultPort);
    var args := [token.GetOr(""), logType.GetOr(""), dataCenter.GetOr(""), IntToDecimal(u.Port(port))];
    FormatItem(0, args);
    FormatItem(1, args);
    FormatItem(2, args);
    FormatItem(3, args);
    IntToDecimalRoundTrip(u.Port(port));
    forall text ensures LogzIoUrl([Lit(text)], defaultPort).Format(token, logType, dataCenter, port) == Success(text) {
      FormatLiteral(text, args);
    }
    forall a: seq<Piece>, b: seq<Piece> | ItemsWithin(a, 4) && ItemsWithin(b, 4)
      ensures LogzIoUrl(a + b, defaultPort).Format(token, logType, dataCenter, port) ==
        Success(LogzIoUrl(a, defaultPort).Format(token, logType, dataCenter, port).value +
                LogzIoUrl(b, defaultPort).Format(token, logType, dataCenter, port).value)
    {
      FormatTemplateConcat(a, b, args);
    }
  }

  /**
    The two LogzIoUrl classes format the same URL for every port except 0,
    which the Logz.Io one replaces by the default port and this one writes as "0".
  */
  lemma VariantsDifferOnlyAtZero(template: seq<Piece>, defaultPort: int,
                                 token: Option<string>, logType: Option<string>, dataCenter: Option<string>, port: Option<int>)
    ensures port != Some(0) ==>
      LogzIoUrl(template, defaultPort).Format(token, logType, dataCenter, port) ==
      LogzIoUrls.LogzIoUrl(template, defaultPort).Format(token, logType, dataCenter, port)
    ensures LogzIoUrls.LogzIoUrl(template, defaultPort).Format(token, logType, dataCenter, Some(0)) ==
      LogzIoUrls.LogzIoUrl(template, defaultPort).Format(token, logType, dataCenter, None)
    ensures LogzIoUrl(template, defaultPort).Format(token, logType, dataCenter, Some(0)) ==
      FormatTemplate(template, [token.GetOr(""), logType.GetOr(""), dataCenter.GetOr(""), "0"])
  {
  }
}
