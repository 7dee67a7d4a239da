/**
 * The status endpoint (`createStatusServer`, index.js:261-287): what a
 * request gets back. The JSON text itself is not modelled; the response
 * carries the values the JSON would hold.
 */
module StatusServer {
  import opened Config
  import opened Text
  import Gateway
  import Resources
  import Heartbeat

  /** `STATE.monitors` as the endpoint shows it. */
  datatype Snapshot = Snapshot(
    gateway: Gateway.GatewayRecord,
    watchedFiles: seq<string>,
    resources: Resources.ResourcesRecord,
    heartbeat: Heartbeat.HeartbeatRecord)

  /** `CONFIG.thresholds`. */
  datatype Thresholds = Thresholds(gatewayFailures: nat, memoryFreeMin: nat, diskUsageMax: nat, heartbeatStaleMin: nat)

  const ConfiguredThresholds: Thresholds :=
    Thresholds(GatewayFailureThreshold, MemoryFreeMinPercent, DiskUsageMaxPercent, HeartbeatStaleMinutes)

  datatype StatusBody = StatusBody(
    status: string,
    uptime: real,
    monitors: Snapshot,
    thresholds: Thresholds,
    intervals: seq<(string, string)>)

  datatype Body = Json(content: StatusBody) | PlainText(text: string)

  datatype Response = Response(code: int, body: Body)

  /** The digits after the decimal point of f thousandths, trailing zeros dropped. */
  function FractionDigits(f: nat): string
    requires 0 < f < 1000
  {
    if f % 100 == 0 then [DigitChar(f / 100)]
    else if f % 10 == 0 then [DigitChar(f / 100), DigitChar(f / 10 % 10)]
    else [DigitChar(f / 100), DigitChar(f / 10 % 10), DigitChar(f % 10)]
  }

  /** `v / 1000 + 's'`: an interval in milliseconds written in seconds, as JavaScript prints the quotient. */
  function SecondsLabel(ms: nat): (shown: string)
    ensures |shown| >= 2 && shown[|shown| - 1] == 's'
    ensures '.' in shown <==> ms % 1000 != 0
  {
    var frac := ms % 1000;
    NatToString(ms / 1000) + (if frac == 0 then "" else "." + FractionDigits(frac)) + "s"
  }

  /** `parseInt` of a label gives back the interval's whole seconds. */
  lemma SecondsLabelReadsBack(ms: nat)
    ensures ParseIntJs(SecondsLabel(ms)) == Num(ms / 1000)
  {
    var frac := ms % 1000;
    var rest := (if frac == 0 then "" else "." + FractionDigits(frac)) + "s";
    assert SecondsLabel(ms) == NatToString(ms / 1000) + rest;
    ParseIntJsReadsLeadingNumber(ms / 1000, rest);
  }

  /** A whole number of seconds is written as its digits and an 's', and reads back as the interval. */
  lemma WholeSecondsLabel(ms: nat)
    requires ms % 1000 == 0
    ensures SecondsLabel(ms) == NatToString(ms / 1000) + "s"
    ensures var shown := SecondsLabel(ms);
      && |shown| >= 2 && shown[|shown| - 1] == 's'
      && AllDigits(shown[..|shown| - 1])
      && DigitsValue(shown[..|shown| - 1]) * 1000 == ms
  {
    var shown := SecondsLabel(ms);
    assert shown == NatToString(ms / 1000) + "s";
    assert shown[..|shown| - 1] == NatToString(ms / 1000);
    DigitsValueOfNatToString(ms / 1000);
  }

  const IntervalSettings: seq<(string, nat)> :=
    [("gatewayPing", GatewayPingMs), ("resourceCheck", ResourceCheckMs), ("heartbeatCheck", HeartbeatCheckMs)]

  /** `config.intervals` as the endpoint renders it. */
  function IntervalLabels(): (labels: seq<(string, string)>)
    ensures |labels| == |IntervalSettings|
    ensures forall k :: 0 <= k < |labels| ==> labels[k].0 == IntervalSettings[k].0
  {
    seq(|IntervalSettings|, k requires 0 <= k < |IntervalSettings| => (IntervalSettings[k].0, SecondsLabel(IntervalSettings[k].1)))
  }

  /** Each rendered interval keeps its setting's name, and `parseInt` of its label gives its whole seconds. */
  lemma IntervalLabelsReadBack()
    ensures forall k :: 0 <= k < |IntervalLabels()| ==>
      && IntervalLabels()[k].0 == IntervalSettings[k].0
      && ParseIntJs(IntervalLabels()[k].1) == Num(IntervalSettings[k].1 / 1000)
  {
    var labels := IntervalLabels();
    forall k | 0 <= k < |labels|
      ensures ParseIntJs(labels[k].1) == Num(IntervalSettings[k].1 / 1000)
    {
      SecondsLabelReadsBack(IntervalSettings[k].1);
    }
  }

  /** The three configured intervals read 60s, 300s and 600s. */
  lemma ConfiguredIntervalLabels()
    ensures IntervalLabels() == [("gatewayPing", "60s"), ("resourceCheck", "300s"), ("heartbeatCheck", "600s")]
  {
    var labels := IntervalLabels();
    WholeSecondsLabel(GatewayPingMs);
    WholeSecondsLabel(ResourceCheckMs);
    WholeSecondsLabel(HeartbeatCheckMs);
    assert NatToString(60) == "60";
    assert NatToString(300) == "300";
    assert NatToString(600) == "600";
    assert SecondsLabel(GatewayPingMs) == "60s";
    assert SecondsLabel(ResourceCheckMs) == "300s";
    assert SecondsLabel(HeartbeatCheckMs) == "600s";
    assert labels[0] == ("gatewayPing", "60s");
    assert labels[1] == ("resourceCheck", "300s");
    assert labels[2] == ("heartbeatCheck", "600s");
  }

  /** The only route: GET on "/". */
  predicate IsStatusRoute(verb: string, url: string)
  {
    url == "/" && verb == "GET"
  }
}
