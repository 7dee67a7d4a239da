/**
 * The heartbeat monitor (`checkHeartbeatStaleness`, index.js:223-258): from
 * what reading the heartbeat-state file gave, the new `monitors.heartbeat`
 * record and whether to ask for a stale-heartbeat event. Ages are integer
 * milliseconds; "older than 45 minutes" is an age above 2 700 000 ms.
 */
module Heartbeat {
  import opened Options
  import opened Config
  import opened Text

  /**
   * `monitors.heartbeat`. The error record has no `stale` field at all, which
   * the next check reads as false.
   */
  datatype HeartbeatRecord =
    | HeartbeatUnknown
    | HeartbeatChecked(lastCheck: int, stale: bool, lastHeartbeat: int, ageMinutes: int)
    | HeartbeatError(lastCheck: int, error: string)

  /** How `monitors.heartbeat.stale` reads: a missing field is falsy. */
  function StaleFlag(r: HeartbeatRecord): (stale: bool)
    ensures stale ==> r.HeartbeatChecked?
    ensures r.HeartbeatChecked? ==> stale == r.stale
  {
    match r
    case HeartbeatUnknown => false
    case HeartbeatChecked(_, stale, _, _) => stale
    case HeartbeatError(_, _) => false
  }

  /**
   * What reading the file gave: no file; an error while reading or parsing it
   * (with its message); or the parsed `lastHeartbeat` field, None standing for
   * every falsy value (absent, null, 0), which the source turns into 0.
   */
  datatype HeartbeatRead = NoFile | ReadFailed(message: string) | Parsed(lastHeartbeat: Option<int>)

  const StaleAfterMs: int := HeartbeatStaleMinutes * 60 * 1000

  /** `Math.round(ageMs / 60000)`: the nearest whole minute, halves rounded up. */
  function RoundMinutes(ageMs: int): (m: int)
    ensures m * 60000 - 30000 <= ageMs < m * 60000 + 30000
  {
    (ageMs + 30000) / 60000
  }

  const StaleWording: string := "Heartbeat system appears stale: last heartbeat was "

  const StaleTail: string := " minutes ago (threshold: " + NatToString(HeartbeatStaleMinutes) + " min)"

  function StaleMessage(ageMinutes: int): string
  {
    StaleWording + IntToString(ageMinutes) + StaleTail
  }

  /** The stale alert names the age in minutes: it reads back right after the fixed wording. */
  lemma StaleMessageReadsBack(ageMinutes: int)
    ensures var m := StaleMessage(ageMinutes);
      && |m| > |StaleWording| && m[..|StaleWording|] == StaleWording
      && ParseIntJs(m[|StaleWording|..]) == Num(ageMinutes)
  {
    IntAfterWording(StaleWording, ageMinutes, StaleTail);
  }

  function LastHeartbeatOf(field: Option<int>): int
  {
    if field.Some? then field.value else 0
  }

  datatype Outcome = Outcome(record: HeartbeatRecord, alert: bool)

  /**
   * One check. No file: nothing changes. A read or parse error: the record
   * becomes an error record and no alert is raised. A parsed heartbeat: the
   * record becomes a checked record whose stale flag says whether the age
   * exceeds the threshold, and an alert is raised exactly when it does and
   * the flag read false before.
   */
  function Check(r: HeartbeatRecord, read: HeartbeatRead, now: int): (o: Outcome)
    ensures read.NoFile? ==> o == Outcome(r, false)
    ensures read.ReadFailed? ==> o == Outcome(HeartbeatError(now, read.message), false)
    ensures read.Parsed? ==>
      var last := LastHeartbeatOf(read.lastHeartbeat);
      && o.record == HeartbeatChecked(now, now - last > StaleAfterMs, last, RoundMinutes(now - last))
      && (o.alert <==> now - last > StaleAfterMs && !StaleFlag(r))
  {
    match read
    case NoFile => Outcome(r, false)
    case ReadFailed(message) => Outcome(HeartbeatError(now, message), false)
    case Parsed(field) =>
      var last := LastHeartbeatOf(field);
      var age := now - last;
      // set when the heartbeat goes stale, kept while it stays stale, cleared once fresh
      var stale := age > StaleAfterMs;
      var alert := age > StaleAfterMs && !StaleFlag(r);
      Outcome(HeartbeatChecked(now, stale, last, RoundMinutes(age)), alert)
  }

  /** A raised alert always reports an age of at least 45 minutes. */
  lemma AlertAgeAtLeastThreshold(r: HeartbeatRecord, read: HeartbeatRead, now: int)
    requires Check(r, read, now).alert
    ensures Check(r, read, now).record.HeartbeatChecked?
    ensures Check(r, read, now).record.ageMinutes >= HeartbeatStaleMinutes
  {
    var last := LastHeartbeatOf(read.lastHeartbeat);
    var m := RoundMinutes(now - last);
    assert m * 60000 + 30000 > StaleAfterMs;
  }

  /**
   * An age of exactly 45 minutes is fresh: the flag is cleared and nothing
   * is raised, even if the heartbeat was stale before.
   */
  lemma ThresholdAgeIsFresh(r: HeartbeatRecord, now: int)
    ensures Check(r, Parsed(Some(now - StaleAfterMs)), now) ==
      Outcome(HeartbeatChecked(now, false, now - StaleAfterMs, HeartbeatStaleMinutes), false)
  {
  }

  /** While stale, further stale checks raise nothing; going fresh clears the flag silently. */
  lemma StaleAlertRaisedOnce(r: HeartbeatRecord, last: int, t1: int, t2: int, t3: int)
    requires t1 - last > StaleAfterMs && t2 - last > StaleAfterMs
    requires t3 - last <= StaleAfterMs
    ensures var o1 := Check(r, Parsed(Some(last)), t1);
      var o2 := Check(o1.record, Parsed(Some(last)), t2);
      var o3 := Check(o2.record, Parsed(Some(last)), t3);
      && StaleFlag(o1.record) && !o2.alert && StaleFlag(o2.record)
      && !o3.alert && !StaleFlag(o3.record)
  {
  }

  /**
   * A read error in the middle of a stale spell replaces the record by one
   * without a stale flag, so the next stale check raises the alert again.
   */
  lemma ErrorRecordReraisesStaleAlert(r: HeartbeatRecord, last: int, t1: int, t2: int, t3: int, message: string)
    requires t1 - last > StaleAfterMs && t3 - last > StaleAfterMs
    ensures var o1 := Check(r, Parsed(Some(last)), t1);
      var o2 := Check(o1.record, ReadFailed(message), t2);
      var o3 := Check(o2.record, Parsed(Some(last)), t3);
      && StaleFlag(o1.record) && !o2.alert && !StaleFlag(o2.record) && o3.alert
  {
  }

  /**
   * A heartbeat 50 minutes old, checked for the first time, raises one alert
   * and leaves the record stale with an age of 50 minutes.
   */
  lemma FiftyMinutesOld(now: int)
    ensures Check(HeartbeatUnknown, Parsed(Some(now - 50 * 60000)), now) ==
      Outcome(HeartbeatChecked(now, true, now - 50 * 60000, 50), true)
  {
  }
}
