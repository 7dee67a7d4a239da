/**
 * The gateway monitor (`checkGatewayHealth`, index.js:118-151) as a state
 * machine over the consecutive-failure count, the down flag and the
 * `monitors.gateway` record. A check ends in one of two ways: a response
 * with some status code, or a transport `error` event (a timeout counts only
 * once it surfaces as an error).
 */
module Gateway {
  import opened Options
  import opened Config
  import opened Text

  datatype GatewayStatus = Unknown | Healthy | Unhealthy

  /** `monitors.gateway`. */
  datatype GatewayRecord = GatewayRecord(status: GatewayStatus, lastCheck: Option<int>, failures: nat)

  /** `gatewayFailureCount`, `gatewayIsDown` and `monitors.gateway` together. */
  datatype GatewayState = GatewayState(failureCount: nat, isDown: bool, record: GatewayRecord)

  /** A transition that asks the notifier for a wake event. */
  datatype Alert = DownAlert(failures: nat) | RecoveryAlert

  datatype Step = Step(state: GatewayState, alert: Option<Alert>)

  /** How one health check ended, and when. */
  datatype Probe = Responded(code: int, at: int) | Errored(at: int)

  const Initial: GatewayState := GatewayState(0, false, GatewayRecord(Unknown, None, 0))

  /**
   * What every reachable state satisfies: down exactly when the count has
   * reached the threshold, the record mirrors the count, and the record says
   * unhealthy exactly while failures are outstanding.
   */
  predicate Inv(s: GatewayState)
  {
    && (s.isDown <==> s.failureCount >= GatewayFailureThreshold)
    && s.record.failures == s.failureCount
    && (s.record.status == Unhealthy <==> s.failureCount > 0)
  }

  const RecoveryMessage: string := "OpenClaw gateway has recovered and is responding normally"

  const DownWording: string := "OpenClaw gateway is unresponsive after "

  function DownMessage(failures: nat): string
  {
    DownWording + IntToString(failures) + " failed checks"
  }

  /** The down alert names the failure count: it reads back right after the fixed wording. */
  lemma DownMessageReadsBack(failures: nat)
    ensures var m := DownMessage(failures);
      |m| > |DownWording| && m[..|DownWording|] == DownWording && ParseIntJs(m[|DownWording|..]) == Num(failures)
  {
    IntAfterWording(DownWording, failures, " failed checks");
  }

  /**
   * A response arrives. Only status 200 does anything: it resets the count,
   * marks the record healthy, and asks for a recovery event when the gateway
   * was down. Any other status changes nothing.
   */
  function OnResponse(s: GatewayState, code: int, now: int): (r: Step)
    ensures code != 200 ==> r == Step(s, None)
    ensures code == 200 ==> r.state == GatewayState(0, false, GatewayRecord(Healthy, Some(now), 0))
    ensures code == 200 ==> (r.alert.Some? <==> s.isDown)
    ensures r.alert.Some? ==> r.alert.value == RecoveryAlert
    ensures Inv(s) ==> Inv(r.state)
  {
    if code == 200 then
      Step(GatewayState(0, false, GatewayRecord(Healthy, Some(now), 0)),
           if s.isDown then Some(RecoveryAlert) else None)
    else
      Step(s, None)
  }

  /**
   * A transport error arrives: the count goes up by one, the record turns
   * unhealthy with the new count, and the gateway is marked down, with a down
   * event, when the count has reached the threshold and it was not down yet.
   * From a reachable state that happens exactly when the count reaches 3.
   */
  function OnError(s: GatewayState, now: int): (r: Step)
    ensures r.state.failureCount == s.failureCount + 1
    ensures r.state.record == GatewayRecord(Unhealthy, Some(now), s.failureCount + 1)
    ensures r.state.isDown == (s.isDown || s.failureCount + 1 >= GatewayFailureThreshold)
    ensures r.alert.Some? <==> !s.isDown && s.failureCount + 1 >= GatewayFailureThreshold
    ensures r.alert.Some? ==> r.alert.value == DownAlert(r.state.failureCount)
    ensures Inv(s) ==> Inv(r.state)
    ensures Inv(s) ==> (r.alert.Some? <==> r.state.failureCount == GatewayFailureThreshold)
  {
    var count := s.failureCount + 1;
    var record := GatewayRecord(Unhealthy, Some(now), count);
    if count >= GatewayFailureThreshold && !s.isDown then
      Step(GatewayState(count, true, record), Some(DownAlert(count)))
    else
      Step(GatewayState(count, s.isDown, record), None)
  }

  function Apply(s: GatewayState, p: Probe): Step
  {
    match p
    case Responded(code, at) => OnResponse(s, code, at)
    case Errored(at) => OnError(s, at)
  }

  function AlertList(a: Option<Alert>): seq<Alert>
  {
    if a.Some? then [a.value] else []
  }

  datatype Trace = Trace(state: GatewayState, alerts: seq<Alert>)

  /** The state after a sequence of checks, and the alerts they raised in order. */
  function Run(s: GatewayState, probes: seq<Probe>): Trace
    decreases |probes|
  {
    if probes == [] then Trace(s, [])
    else
      var step := Apply(s, probes[0]);
      var rest := Run(step.state, probes[1..]);
      Trace(rest.state, AlertList(step.alert) + rest.alerts)
  }

  /** Every state reachable from a valid one is valid; in particular from Initial. */
  lemma {:induction false} RunKeepsInvariant(s: GatewayState, probes: seq<Probe>)
    requires Inv(s)
    ensures Inv(Run(s, probes).state)
    decreases |probes|
  {
    if probes != [] {
      RunKeepsInvariant(Apply(s, probes[0]).state, probes[1..]);
    }
  }

  /** The number of checks in a sequence that ended in a transport error. */
  function ErrorCount(probes: seq<Probe>): nat
    decreases |probes|
  {
    if probes == [] then 0 else (if probes[0].Errored? then 1 else 0) + ErrorCount(probes[1..])
  }

  /** A check that ended with status 200. */
  predicate Succeeded(p: Probe)
  {
    p.Responded? && p.code == 200
  }

  /**
   * A run of checks none of which got a 200 (transport errors, and non-200
   * responses, which count for nothing) raises at most one alert: a single
   * down event, carrying the count 3, exactly when the run takes a gateway that
   * was not down to the threshold; a gateway already down raises none.
   */
  lemma {:induction false} OutageAlertsOnce(s: GatewayState, probes: seq<Probe>)
    requires Inv(s)
    requires forall k :: 0 <= k < |probes| ==> !Succeeded(probes[k])
    ensures Run(s, probes).state.failureCount == s.failureCount + ErrorCount(probes)
    ensures Run(s, probes).state.isDown == (s.failureCount + ErrorCount(probes) >= GatewayFailureThreshold)
    ensures Run(s, probes).alerts ==
      if !s.isDown && s.failureCount + ErrorCount(probes) >= GatewayFailureThreshold
      then [DownAlert(GatewayFailureThreshold)] else []
    decreases |probes|
  {
    if probes != [] {
      var step := Apply(s, probes[0]);
      OutageAlertsOnce(step.state, probes[1..]);
    }
  }

  /**
   * Three failed checks from the start raise one down event with the message
   * naming 3; one successful check then raises one recovery event and leaves
   * the record healthy with no failures.
   */
  lemma ThreeFailuresThenRecovery(t1: int, t2: int, t3: int, t4: int)
    ensures Run(Initial, [Errored(t1), Errored(t2), Errored(t3), Responded(200, t4)])
         == Trace(GatewayState(0, false, GatewayRecord(Healthy, Some(t4), 0)), [DownAlert(3), RecoveryAlert])
    ensures DownMessage(3) == "OpenClaw gateway is unresponsive after 3 failed checks"
  {
    var s1 := OnError(Initial, t1).state;
    var s2 := OnError(s1, t2).state;
    var s3 := OnError(s2, t3).state;
    assert s3.isDown && s3.failureCount == 3;
    var ps := [Errored(t1), Errored(t2), Errored(t3), Responded(200, t4)];
    assert ps[1..] == [Errored(t2), Errored(t3), Responded(200, t4)];
    assert ps[2..] == [Errored(t3), Responded(200, t4)];
    assert ps[3..] == [Responded(200, t4)];
    assert Run(s3, ps[3..]) == Trace(GatewayState(0, false, GatewayRecord(Healthy, Some(t4), 0)), [RecoveryAlert]);
    assert Run(s2, ps[2..]).alerts == [DownAlert(3), RecoveryAlert];
    assert Run(s1, ps[1..]).alerts == [DownAlert(3), RecoveryAlert];
    DownMessageOfThree();
  }

  lemma DownMessageOfThree()
    ensures DownMessage(3) == "OpenClaw gateway is unresponsive after 3 failed checks"
  {
    assert IntToString(3) == "3";
  }
}
