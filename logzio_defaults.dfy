/** LogzIoDefaults of src/Serilog.Sinks.Logz.Io/LogzIoDefaults.cs: the listener URL and the batching defaults. */
module LogzIoDefaults {
  import opened Wrappers
  import opened Text
  import opened StringFormat
  import opened LogzIoUrls

  const DefaultBatchPostingLimit := 1000

  /** TimeSpan, as its count of 100-nanosecond ticks. */
  datatype TimeSpan = TimeSpan(ticks: int)

  const TicksPerSecond := 10_000_000

  function FromSeconds(seconds: int): (t: TimeSpan)
    ensures t.ticks == seconds * TicksPerSecond
  {
    TimeSpan(seconds * TicksPerSecond)
  }

  const DefaultPeriod := FromSeconds(2)

  /** "http://{2}.logz.io:{3}/?token={0}&type={1}" with default port 8070. */
  const LogzIoHttpUrl := LogzIoUrl(ListenerTemplate("http://"), 8070)

  /** "https://{2}.logz.io:{3}/?token={0}&type={1}" with default port 8071. */
  const LogzIoHttpsUrl := LogzIoUrl(ListenerTemplate("https://"), 8071)

  /** LogzioDataCenter */
  datatype LogzioDataCenter = LogzioDataCenter(subDomain: Option<string>, port: Option<int>, useHttps: bool)

  /** The sub-domain GetUrl uses: a null or blank one becomes "listener". */
  function SubDomain(dataCenter: Option<LogzioDataCenter>): (s: string)
    ensures dataCenter.Some? && !IsNullOrWhiteSpace(dataCenter.value.subDomain) ==> s == dataCenter.value.subDomain.value
    ensures dataCenter.None? || IsNullOrWhiteSpace(dataCenter.value.subDomain) ==> s == "listener"
  {
    var dataCenterSubDomain := if dataCenter.Some? then dataCenter.value.subDomain.GetOr("") else "";
    if IsWhiteSpaceOnly(dataCenterSubDomain) then "listener" else dataCenterSubDomain
  }

  /** The port GetUrl passes on: a null or zero port becomes 8071, before the scheme is known. */
  function DataCenterPort(dataCenter: Option<LogzioDataCenter>): (p: int)
    ensures p != 0
    ensures dataCenter.Some? && dataCenter.value.port.Some? && dataCenter.value.port.value != 0 ==> p == dataCenter.value.port.value
    ensures dataCenter.None? || dataCenter.value.port.None? || dataCenter.value.port == Some(0) ==> p == 8071
  {
    var dataCenterPort := if dataCenter.Some? then dataCenter.value.port.GetOr(0) else 0;
    if dataCenterPort == 0 then 8071 else dataCenterPort
  }

  /** HTTPS unless a data center says otherwise. */
  function UseHttps(dataCenter: Option<LogzioDataCenter>): bool {
    if dataCenter.Some? then dataCenter.value.useHttps else true
  }

  /**
    GetUrl: a non-blank override wins; otherwise without a token there is no
    URL (""); otherwise the data center's template is filled in.
  */
  function GetUrl(overrideLogzIoUrl: Option<string>, authToken: Option<string>, logType: Option<string>, dataCenter: Option<LogzioDataCenter>): (r: string)
    ensures !IsNullOrWhiteSpace(overrideLogzIoUrl) ==> r == overrideLogzIoUrl.value
    ensures IsNullOrWhiteSpace(overrideLogzIoUrl) && IsNullOrWhiteSpace(authToken) ==> r == ""
  {
    if !IsNullOrWhiteSpace(overrideLogzIoUrl) then overrideLogzIoUrl.value
    else if IsNullOrWhiteSpace(authToken) then ""
    else
      var url := if UseHttps(dataCenter) then LogzIoHttpsUrl else LogzIoHttpUrl;
      assert ItemsWithin(url.urlTemplate, 4);
      url.Format(authToken, logType, Some(SubDomain(dataCenter)), Some(DataCenterPort(dataCenter))).value
  }

  /** The listener template for a scheme prefix ("http://" or "https://"). */
  function ListenerTemplate(schemePrefix: string): seq<Piece> {
    [Lit(schemePrefix), Arg(2), Lit(".logz.io:"), Arg(3), Lit("/?token="), Arg(0), Lit("&type="), Arg(1)]
  }

  /** Filling in a listener template, piece by piece. */
  lemma FormatListenerTemplate(schemePrefix: string, args: seq<string>)
    requires |args| == 4
    ensures FormatTemplate(ListenerTemplate(schemePrefix), args) ==
      Success(schemePrefix + (args[2] + (".logz.io:" + (args[3] + ("/?token=" + (args[0] + ("&type=" + args[1])))))))
  {
    var t := ListenerTemplate(schemePrefix);
    assert FormatTemplate(t[8..], args) == Success("");
    assert args[1] + "" == args[1];
    assert FormatTemplate(t[7..], args) == Success(args[1]);
    assert FormatTemplate(t[6..], args) == Success("&type=" + args[1]);
    assert FormatTemplate(t[5..], args) == Success(args[0] + ("&type=" + args[1]));
    assert FormatTemplate(t[4..], args) == Success("/?token=" + (args[0] + ("&type=" + args[1])));
    assert FormatTemplate(t[3..], args) == Success(args[3] + ("/?token=" + (args[0] + ("&type=" + args[1]))));
    assert FormatTemplate(t[2..], args) == Success(".logz.io:" + (args[3] + ("/?token=" + (args[0] + ("&type=" + args[1])))));
    assert FormatTemplate(t[1..], args) == Success(args[2] + (".logz.io:" + (args[3] + ("/?token=" + (args[0] + ("&type=" + args[1]))))));
    assert t[0..] == t;
  }

  /**
    With a token and no override the URL is
    {http|https}://{sub-domain}.logz.io:{port}/?token={token}&type={type}.
  */
  lemma GetUrlShape(overrideLogzIoUrl: Option<string>, authToken: Option<string>, logType: Option<string>, dataCenter: Option<LogzioDataCenter>)
    requires IsNullOrWhiteSpace(overrideLogzIoUrl) && !IsNullOrWhiteSpace(authToken)
    ensures GetUrl(overrideLogzIoUrl, authToken, logType, dataCenter) ==
      (if UseHttps(dataCenter) then "https://" else "http://") + (SubDomain(dataCenter) + (".logz.io:" +
      (IntToDecimal(DataCenterPort(dataCenter)) + ("/?token=" + (authToken.value + ("&type=" + logType.GetOr("")))))))
  {
    var args := [authToken.value, logType.GetOr(""), SubDomain(dataCenter), IntToDecimal(DataCenterPort(dataCenter))];
    FormatListenerTemplate(if UseHttps(dataCenter) then "https://" else "http://", args);
  }

  /**
    GetUrl never hands the template a zero port, so the HTTP template's own
    default (8070) is never used.
  */
  lemma HttpDefaultPortUnused(authToken: Option<string>, logType: Option<string>, dataCenter: Option<LogzioDataCenter>, otherDefault: int)
    ensures LogzIoUrl(LogzIoHttpUrl.urlTemplate, otherDefault).Format(authToken, logType, Some(SubDomain(dataCenter)), Some(DataCenterPort(dataCenter))) ==
      LogzIoHttpUrl.Format(authToken, logType, Some(SubDomain(dataCenter)), Some(DataCenterPort(dataCenter)))
  {
  }

  lemma PortText8071()
    ensures IntToDecimal(8071) == "8071"
  {
    assert NatToDecimal(8) == "8";
    assert NatToDecimal(80) == "80";
    assert NatToDecimal(807) == "807";
  }

  /** Plain HTTP without a port gets port 8071, like HTTPS. */
  lemma HttpWithoutPortUses8071(authToken: Option<string>, logType: Option<string>, dataCenter: Option<LogzioDataCenter>)
    requires !IsNullOrWhiteSpace(authToken) && dataCenter.Some? && !dataCenter.value.useHttps && dataCenter.value.port.None?
    ensures GetUrl(None, authToken, logType, dataCenter) ==
      "http://" + (SubDomain(dataCenter) + (".logz.io:" + ("8071" + ("/?token=" + (authToken.value + ("&type=" + logType.GetOr("")))))))
  {
    GetUrlShape(None, authToken, logType, dataCenter);
    PortText8071();
  }

  /** PeriodicBatchingSinkOptions, reduced to the two properties set here. */
  datatype PeriodicBatchingSinkOptions = PeriodicBatchingSinkOptions(batchSizeLimit: int, period: TimeSpan)

  /** CreateBatchingSinkOptions: 1000 events and 2 seconds unless given. */
  function CreateBatchingSinkOptions(batchPostingLimit: Option<int>, period: Option<TimeSpan>): (r: PeriodicBatchingSinkOptions)
    ensures batchPostingLimit.Some? ==> r.batchSizeLimit == batchPostingLimit.value
    ensures batchPostingLimit.None? ==> r.batchSizeLimit == 1000
    ensures period.Some? ==> r.period == period.value
    ensures period.None? ==> r.period == TimeSpan(20_000_000)
  {
    PeriodicBatchingSinkOptions(batchPostingLimit.GetOr(DefaultBatchPostingLimit), period.GetOr(DefaultPeriod))
  }
}
