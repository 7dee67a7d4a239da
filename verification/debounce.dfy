/**
 * The file watcher's debounce (`watchFile`, index.js:154-176, and the timer
 * sweep of `shutdown`, index.js:294): a map from watched path to the one
 * pending timer for it. A change event replaces the path's timer with a new
 * one due 5000 ms later; a timer fires only if it is still the path's current
 * one, has not been cleared and its due time has come.
 */
module Debounce {
  import opened Options
  import opened Config

  /**
   * A `setTimeout` handle: its identity, when it is due, whether it can still
   * fire, and the event type its callback sends.
   */
  datatype Timer = Timer(id: nat, due: int, armed: bool, event: EventType)

  /** `fileDebounceTimers`. */
  type Timers = map<string, Timer>

  /**
   * A change event on path: clear the path's timer (if any) and store a fresh
   * one, due FileDebounceMs after the event. Other paths keep theirs.
   */
  function Arm(timers: Timers, path: string, event: EventType, id: nat, now: int): (r: Timers)
    ensures path in r && r[path] == Timer(id, now + FileDebounceMs, true, event)
    ensures r.Keys == timers.Keys + {path}
    ensures forall p :: p in timers && p != path ==> r[p] == timers[p]
  {
    timers[path := Timer(id, now + FileDebounceMs, true, event)]
  }

  datatype Fired = Fired(timers: Timers, event: Option<EventType>)

  /**
   * Timer `id` of path is run at time now. Its callback runs only if it is
   * still the path's current timer, has not been cleared and is due (a
   * `setTimeout` callback never runs before its delay has passed); it then
   * cannot run again.
   */
  function Fire(timers: Timers, path: string, id: nat, now: int): (f: Fired)
    ensures f.event.Some? <==>
      path in timers && timers[path].id == id && timers[path].armed && timers[path].due <= now
    ensures f.event.Some? ==> f.event.value == timers[path].event
    ensures f.event.Some? ==> f.timers == timers[path := timers[path].(armed := false)]
    ensures f.event.None? ==> f.timers == timers
  {
    if path in timers && timers[path].id == id && timers[path].armed && timers[path].due <= now then
      Fired(timers[path := timers[path].(armed := false)], Some(timers[path].event))
    else
      Fired(timers, None)
  }

  /** Shutdown's sweep: every stored timer is cleared, none is removed. */
  function CancelAll(timers: Timers): (r: Timers)
    ensures r.Keys == timers.Keys
    ensures forall p :: p in r ==> r[p] == timers[p].(armed := false)
  {
    map p | p in timers :: timers[p].(armed := false)
  }

  /** After shutdown's sweep no timer fires. */
  lemma CancelledTimersStaySilent(timers: Timers, path: string, id: nat, now: int)
    ensures Fire(CancelAll(timers), path, id, now).event == None
  {
  }

  /** A burst of change events on one path at the given times, with consecutive timer ids. */
  function ArmBurst(timers: Timers, path: string, event: EventType, firstId: nat, times: seq<int>): Timers
    decreases |times|
  {
    if times == [] then timers
    else ArmBurst(Arm(timers, path, event, firstId, times[0]), path, event, firstId + 1, times[1..])
  }

  /**
   * After a burst, the path holds exactly one live timer: the last event's,
   * due FileDebounceMs after the last event. Other paths are untouched.
   */
  lemma {:induction false} BurstLeavesOneTimer(timers: Timers, path: string, event: EventType, firstId: nat, times: seq<int>)
    requires |times| >= 1
    ensures var r := ArmBurst(timers, path, event, firstId, times);
      && path in r
      && r[path] == Timer(firstId + |times| - 1, times[|times| - 1] + FileDebounceMs, true, event)
      && r.Keys == timers.Keys + {path}
      && forall p :: p in timers && p != path ==> r[p] == timers[p]
    decreases |times|
  {
    if |times| > 1 {
      BurstLeavesOneTimer(Arm(timers, path, event, firstId, times[0]), path, event, firstId + 1, times[1..]);
    }
  }

  /**
   * A burst yields one notification: each superseded timer of the burst finds
   * nothing to do whenever it runs, the last one notifies exactly when run
   * FileDebounceMs or more after the last event, and it notifies once.
   */
  lemma BurstNotifiesOnce(timers: Timers, path: string, event: EventType, firstId: nat, times: seq<int>, now: int, later: int)
    requires |times| >= 1
    ensures var r := ArmBurst(timers, path, event, firstId, times);
      var lastId := firstId + |times| - 1;
      && (forall id :: firstId <= id < lastId ==> Fire(r, path, id, now) == Fired(r, None))
      && (Fire(r, path, lastId, now).event == Some(event) <==> now >= times[|times| - 1] + FileDebounceMs)
      && Fire(Fire(r, path, lastId, now).timers, path, lastId, later).event ==
           if now >= times[|times| - 1] + FileDebounceMs then None else Fire(r, path, lastId, later).event
  {
    BurstLeavesOneTimer(timers, path, event, firstId, times);
  }

  /** `path.basename` drops trailing separators first. */
  function TrimTrailingSlashes(p: string): (q: string)
    ensures q <= p
    ensures q == [] || q[|q| - 1] != '/'
    ensures forall i :: |q| <= i < |p| ==> p[i] == '/'
    decreases |p|
  {
    if p != [] && p[|p| - 1] == '/' then TrimTrailingSlashes(p[..|p| - 1]) else p
  }

  /** The index just after the last '/', or 0 when there is none. */
  function AfterLastSlash(q: string): (k: nat)
    ensures k <= |q|
    ensures '/' !in q[k..]
    ensures k > 0 ==> q[k - 1] == '/'
    decreases |q|
  {
    if q == [] then 0
    else if q[|q| - 1] == '/' then |q|
    else
      var k := AfterLastSlash(q[..|q| - 1]);
      assert q[k..] == q[..|q| - 1][k..] + [q[|q| - 1]];
      k
  }

  /**
   * `path.basename(p)` on POSIX paths: the last segment, after trailing
   * separators are dropped; it holds no separator and is preceded by one
   * unless it is the whole trimmed path.
   */
  function Basename(p: string): (b: string)
    ensures '/' !in b
    ensures var q := TrimTrailingSlashes(p);
      |b| <= |q| && b == q[|q| - |b|..] && (|b| < |q| ==> q[|q| - |b| - 1] == '/')
  {
    var q := TrimTrailingSlashes(p);
    q[AfterLastSlash(q)..]
  }

  const ChangedWording: string := "File "
  const ChangedTail: string := " was modified and may need attention"

  /** The alert names the file: it reads back from between the fixed wordings. */
  function ChangedMessage(fileName: string): (m: string)
    ensures |m| == |ChangedWording| + |fileName| + |ChangedTail|
    ensures m[..|ChangedWording|] == ChangedWording && m[|m| - |ChangedTail|..] == ChangedTail
    ensures m[|ChangedWording|..|m| - |ChangedTail|] == fileName
  {
    var m := ChangedWording + fileName + ChangedTail;
    assert m[..|ChangedWording|] == ChangedWording;
    assert m[|m| - |ChangedTail|..] == ChangedTail;
    assert m[|ChangedWording|..|m| - |ChangedTail|] == fileName;
    m
  }
}
