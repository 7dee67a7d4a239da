/**
 * The daemon's global `STATE` (index.js:36-48) as an object, and each of the
 * source's handlers as a method over it. Time is a `now` parameter; every
 * I/O outcome (an HTTP answer, a probe's output, the heartbeat file, a timer
 * running) is an input of the step that handles it; and every method that
 * may wake the agent returns the requests it makes instead of sending them.
 * Each method's contract ties the new state and the requests to the pure
 * decision functions of the monitor modules, where the properties are proved.
 */
module Daemon {
  import opened Options
  import opened Config
  import Notifier
  import Gateway
  import Debounce
  import Resources
  import Heartbeat
  import StatusServer

  class Watcher {
    /** `STATE.hookToken`, loaded once at startup. */
    const hookToken: string
    var gatewayFailureCount: nat
    var gatewayIsDown: bool
    /** `STATE.monitors.gateway`. */
    var gatewayRecord: Gateway.GatewayRecord
    var lastWakeEvents: Notifier.Ledger
    var fileDebounceTimers: Debounce.Timers
    /** The next timer identity to hand out: stands for `setTimeout` returning a fresh handle. */
    var nextTimerId: nat
    /** The installed `fs.watch` callbacks: each watched path and the event type its callback sends. */
    var watches: map<string, EventType>
    /** `STATE.monitors.files.watchedFiles`. */
    var watchedFiles: seq<string>
    /** `STATE.monitors.resources`. */
    var resources: Resources.ResourcesRecord
    /** `STATE.monitors.heartbeat`. */
    var heartbeat: Heartbeat.HeartbeatRecord

    function GatewayState(): Gateway.GatewayState
      reads this`gatewayFailureCount, this`gatewayIsDown, this`gatewayRecord
    {
      Gateway.GatewayState(gatewayFailureCount, gatewayIsDown, gatewayRecord)
    }

    /**
     * The gateway invariant holds, and every stored timer handle was handed
     * out before, so the next one is fresh.
     */
    ghost predicate Valid()
      reads this
    {
      && Gateway.Inv(GatewayState())
      && forall p :: p in fileDebounceTimers ==> fileDebounceTimers[p].id < nextTimerId
    }

    /** The initial `STATE`, with the token already loaded. */
    constructor (token: string)
      ensures hookToken == token
      ensures GatewayState() == Gateway.Initial
      ensures lastWakeEvents == map[] && fileDebounceTimers == map[] && watches == map[]
      ensures watchedFiles == []
      ensures resources == Resources.InitialResources && heartbeat == Heartbeat.HeartbeatUnknown
      ensures Valid()
    {
      hookToken := token;
      gatewayFailureCount := 0;
      gatewayIsDown := false;
      gatewayRecord := Gateway.GatewayRecord(Gateway.Unknown, None, 0);
      lastWakeEvents := map[];
      fileDebounceTimers := map[];
      nextTimerId := 0;
      watches := map[];
      watchedFiles := [];
      resources := Resources.InitialResources;
      heartbeat := Heartbeat.HeartbeatUnknown;
    }

    // -------------------------------------------------------------------------
    // sendWakeEvent (index.js:77-115)

    /**
     * The attempt half of `sendWakeEvent`: nothing is sent while e is cooling
     * down, otherwise one request. It changes no state.
     */
    method SendWake(e: EventType, text: string, now: int) returns (sent: seq<Notifier.WakeRequest>)
      ensures sent == Notifier.Attempt(lastWakeEvents, hookToken, e, text, now)
    {
      var lastSent := if e in lastWakeEvents then lastWakeEvents[e] else 0;
      if now - lastSent < WakeCooldownMs {
        sent := [];
      } else {
        sent := [Notifier.WakeRequest(e, text, "now", "Bearer " + hookToken, now)];
      }
    }

    /** The response half: a 200 records the request's attempt time, anything else changes nothing. */
    method OnWakeResponse(request: Notifier.WakeRequest, response: Notifier.WakeResponse)
      modifies this`lastWakeEvents
      ensures lastWakeEvents == Notifier.Record(old(lastWakeEvents), request, response)
    {
      if response.HttpStatus? && response.code == 200 {
        lastWakeEvents := lastWakeEvents[request.event := request.attemptedAt];
      }
    }

    // -------------------------------------------------------------------------
    // checkGatewayHealth (index.js:118-151)

    /** The response callback of a health check. */
    method OnGatewayResponse(code: int, now: int) returns (sent: seq<Notifier.WakeRequest>)
      requires Valid()
      modifies this`gatewayFailureCount, this`gatewayIsDown, this`gatewayRecord
      ensures Valid()
      ensures var step := Gateway.OnResponse(old(GatewayState()), code, now);
        && GatewayState() == step.state
        && sent == if step.alert.Some?
                   then Notifier.Attempt(lastWakeEvents, hookToken, GatewayRecovery, Gateway.RecoveryMessage, now)
                   else []
    {
      sent := [];
      if code == 200 {
        if gatewayIsDown {
          sent := SendWake(GatewayRecovery, Gateway.RecoveryMessage, now);
          gatewayIsDown := false;
        }
        gatewayFailureCount := 0;
        gatewayRecord := Gateway.GatewayRecord(Gateway.Healthy, Some(now), 0);
      }
    }

    /** The `error` handler of a health check. */
    method OnGatewayError(now: int) returns (sent: seq<Notifier.WakeRequest>)
      requires Valid()
      modifies this`gatewayFailureCount, this`gatewayIsDown, this`gatewayRecord
      ensures Valid()
      ensures var step := Gateway.OnError(old(GatewayState()), now);
        && GatewayState() == step.state
        && sent == if step.alert.Some?
                   then Notifier.Attempt(lastWakeEvents, hookToken, GatewayDown, Gateway.DownMessage(step.state.failureCount), now)
                   else []
    {
      gatewayFailureCount := gatewayFailureCount + 1;
      gatewayRecord := Gateway.GatewayRecord(Gateway.Unhealthy, Some(now), gatewayFailureCount);
      sent := [];
      if gatewayFailureCount >= GatewayFailureThreshold && !gatewayIsDown {
        gatewayIsDown := true;
        sent := SendWake(GatewayDown, Gateway.DownMessage(gatewayFailureCount), now);
      }
    }

    // -------------------------------------------------------------------------
    // watchFile (index.js:154-176) and the timer sweep of shutdown (index.js:294)

    /**
     * Start watching path. When the watch is established its callback is
     * installed and the path's basename is listed; when `fs.watch` throws,
     * the error is logged and nothing changes.
     */
    method WatchFile(path: string, event: EventType, watchEstablished: bool)
      modifies this`watches, this`watchedFiles
      ensures watchEstablished ==> watches == old(watches)[path := event]
      ensures watchEstablished ==> watchedFiles == old(watchedFiles) + [Debounce.Basename(path)]
      ensures !watchEstablished ==> watches == old(watches) && watchedFiles == old(watchedFiles)
    {
      if watchEstablished {
        watches := watches[path := event];
        watchedFiles := watchedFiles + [Debounce.Basename(path)];
      }
    }

    /**
     * A change event on path: the path's watch callback clears its pending
     * timer and sets a fresh one. A path nobody watches has no callback.
     */
    method OnFileChange(path: string, now: int)
      requires Valid()
      modifies this`fileDebounceTimers, this`nextTimerId
      ensures Valid()
      ensures path in watches ==>
        && fileDebounceTimers == Debounce.Arm(old(fileDebounceTimers), path, watches[path], old(nextTimerId), now)
        && nextTimerId == old(nextTimerId) + 1
      ensures path !in watches ==>
        fileDebounceTimers == old(fileDebounceTimers) && nextTimerId == old(nextTimerId)
    {
      if path in watches {
        fileDebounceTimers := fileDebounceTimers[path := Debounce.Timer(nextTimerId, now + FileDebounceMs, true, watches[path])];
        nextTimerId := nextTimerId + 1;
      }
    }

    /**
     * Timer id of path runs at time now. If it is still the path's live timer
     * and is due, its callback asks for a wake event naming the file.
     */
    method OnDebounceTimer(path: string, id: nat, now: int) returns (sent: seq<Notifier.WakeRequest>)
      requires Valid()
      modifies this`fileDebounceTimers
      ensures Valid()
      ensures var f := Debounce.Fire(old(fileDebounceTimers), path, id, now);
        && fileDebounceTimers == f.timers
        && sent == if f.event.Some?
                   then Notifier.Attempt(lastWakeEvents, hookToken, f.event.value, Debounce.ChangedMessage(Debounce.Basename(path)), now)
                   else []
    {
      sent := [];
      if path in fileDebounceTimers {
        var timer := fileDebounceTimers[path];
        if timer.id == id && timer.armed && timer.due <= now {
          fileDebounceTimers := fileDebounceTimers[path := timer.(armed := false)];
          sent := SendWake(timer.event, Debounce.ChangedMessage(Debounce.Basename(path)), now);
        }
      }
    }

    /** Shutdown clears every stored timer, one at a time. */
    method Shutdown()
      requires Valid()
      modifies this`fileDebounceTimers
      ensures Valid()
      ensures fileDebounceTimers == Debounce.CancelAll(old(fileDebounceTimers))
    {
      var pending := fileDebounceTimers.Keys;
      while pending != {}
        invariant pending <= old(fileDebounceTimers).Keys
        invariant fileDebounceTimers.Keys == old(fileDebounceTimers).Keys
        invariant forall p :: p in fileDebounceTimers ==>
          fileDebounceTimers[p] == if p in pending then old(fileDebounceTimers)[p] else old(fileDebounceTimers)[p].(armed := false)
        decreases pending
      {
        var p :| p in pending;
        fileDebounceTimers := fileDebounceTimers[p := fileDebounceTimers[p].(armed := false)];
        pending := pending - {p};
      }
    }

    // -------------------------------------------------------------------------
    // checkSystemResources (index.js:179-220)

    /** The synchronous part of a resource check: the record is stamped at once. */
    method BeginResourceCheck(now: int)
      modifies this`resources
      ensures resources == Resources.StartCheck(old(resources), now)
    {
      resources := resources.(status := Resources.ResourcesChecked, lastCheck := Some(now));
    }

    /** The memory probe's callback. */
    method OnMemoryProbe(out: Resources.ProbeResult, now: int) returns (sent: seq<Notifier.WakeRequest>)
      modifies this`resources
      ensures var m := Resources.AfterMemoryProbe(old(resources), out);
        && resources == m.record
        && sent == if m.lowMemory.Some?
                   then Notifier.Attempt(lastWakeEvents, hookToken, LowMemory, Resources.LowMemoryMessage(m.lowMemory.value), now)
                   else []
    {
      sent := [];
      if out.ProbeOutput? {
        var free := Resources.ParseMemory(out.stdout);
        if free.Some? {
          resources := resources.(memory := free);
          if Resources.IsLowMemory(free.value) {
            sent := SendWake(LowMemory, Resources.LowMemoryMessage(free.value), now);
          }
        }
      }
    }

    /**
     * The disk probe's callback. `crashed` reports the uncaught exception of
     * a line 1 without field 4; the state is then left as it was.
     */
    method OnDiskProbe(out: Resources.ProbeResult, now: int) returns (sent: seq<Notifier.WakeRequest>, crashed: bool)
      modifies this`resources
      ensures var d := Resources.AfterDiskProbe(old(resources), out);
        && (crashed <==> d.DiskCrash?)
        && (d.DiskCrash? ==> resources == old(resources) && sent == [])
        && (d.DiskStep? ==>
              && resources == d.record
              && sent == if d.highDisk.Some?
                         then Notifier.Attempt(lastWakeEvents, hookToken, HighDiskUsage, Resources.HighDiskMessage(d.highDisk.value), now)
                         else [])
    {
      sent, crashed := [], false;
      if out.ProbeOutput? {
        var parsed := Resources.ParseDisk(out.stdout);
        if parsed.UsageFieldMissing? {
          crashed := true;
        } else if parsed.Usage? {
          var used := parsed.percent;
          resources := resources.(disk := Some(used));
          if Resources.IsHighDisk(used) {
            sent := SendWake(HighDiskUsage, Resources.HighDiskMessage(used.value), now);
          }
        }
      }
    }

    // -------------------------------------------------------------------------
    // checkHeartbeatStaleness (index.js:223-258)

    /** One heartbeat check, given what reading the heartbeat-state file gave. */
    method CheckHeartbeat(read: Heartbeat.HeartbeatRead, now: int) returns (sent: seq<Notifier.WakeRequest>)
      modifies this`heartbeat
      ensures var o := Heartbeat.Check(old(heartbeat), read, now);
        && heartbeat == o.record
        && sent == if o.alert
                   then Notifier.Attempt(lastWakeEvents, hookToken, StaleHeartbeat, Heartbeat.StaleMessage(o.record.ageMinutes), now)
                   else []
    {
      sent := [];
      if read.ReadFailed? {
        heartbeat := Heartbeat.HeartbeatError(now, read.message);
      } else if read.Parsed? {
        var last := Heartbeat.LastHeartbeatOf(read.lastHeartbeat);
        var age := now - last;
        var stale := Heartbeat.StaleFlag(heartbeat);
        if age > Heartbeat.StaleAfterMs {
          if !stale {
            sent := SendWake(StaleHeartbeat, Heartbeat.StaleMessage(Heartbeat.RoundMinutes(age)), now);
            stale := true;
          }
        } else {
          stale := false;
        }
        heartbeat := Heartbeat.HeartbeatChecked(now, stale, last, Heartbeat.RoundMinutes(age));
      }
    }

    // -------------------------------------------------------------------------
    // createStatusServer's request handler (index.js:261-280)

    /** `STATE.monitors`. */
    function Monitors(): StatusServer.Snapshot
      reads this
    {
      StatusServer.Snapshot(gatewayRecord, watchedFiles, resources, heartbeat)
    }

    /**
     * GET on "/" answers 200 with the status body; every other method or
     * path answers 404 with the text "Not Found". Nothing changes.
     */
    method HandleStatusRequest(verb: string, url: string, uptime: real) returns (response: StatusServer.Response)
      ensures response.code == 200 <==> url == "/" && verb == "GET"
      ensures response.code != 200 ==> response == StatusServer.Response(404, StatusServer.PlainText("Not Found"))
      ensures response.code == 200 ==> response.body == StatusServer.Json(StatusServer.StatusBody(
        "running", uptime, Monitors(), StatusServer.ConfiguredThresholds, StatusServer.IntervalLabels()))
    {
      if StatusServer.IsStatusRoute(verb, url) {
        var body := StatusServer.StatusBody("running", uptime, Monitors(), StatusServer.ConfiguredThresholds, StatusServer.IntervalLabels());
        response := StatusServer.Response(200, StatusServer.Json(body));
      } else {
        response := StatusServer.Response(404, StatusServer.PlainText("Not Found"));
      }
    }
  }
}
