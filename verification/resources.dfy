/**
 * The resource monitor (`checkSystemResources`, index.js:179-220): the two
 * probe-output parsers, the two thresholds, and the updates of
 * `monitors.resources`. The check itself stamps the record at once; each
 * probe's callback later stores its reading and may ask for a wake event.
 * There is no transition tracking: a reading past its threshold asks again
 * on every check.
 */
module Resources {
  import opened Options
  import opened Config
  import opened Text

  // ---------------------------------------------------------------------------
  // Memory: the first match of /System-wide memory free percentage: (\d+)%/

  const MemoryMarker: string := "System-wide memory free percentage: "

  /**
   * The pattern matches at index i: the marker, a non-empty run of digits and
   * a '%'. Since `\d+` is greedy and '%' is not a digit, the run is the whole
   * digit run after the marker.
   */
  predicate MemoryMatchAt(s: string, i: nat)
  {
    var d := i + |MemoryMarker|;
    && MarkerAt(s, i)
    && (var k := DigitRun(s, d); k > 0 && d + k < |s| && s[d + k] == '%')
  }

  /** The marker text starts at index i. */
  predicate MarkerAt(s: string, i: nat)
  {
    i + |MemoryMarker| <= |s| && s[i..i + |MemoryMarker|] == MemoryMarker
  }

  /** A non-empty run of k digits follows the marker's place at i, and a '%' follows the run. */
  predicate DigitsThenPercent(s: string, i: nat, k: nat)
  {
    var d := i + |MemoryMarker|;
    0 < k && d + k < |s| && AllDigits(s[d..d + k]) && s[d + k] == '%'
  }

  /**
   * MemoryMatchAt is the pattern as written: the marker at i, then some
   * non-empty run of digits closed by a '%'.
   */
  lemma MemoryMatchAtIsPattern(s: string, i: nat)
    ensures MemoryMatchAt(s, i) <==>
      MarkerAt(s, i) && exists k: nat :: DigitsThenPercent(s, i, k)
  {
    var d := i + |MemoryMarker|;
    if MemoryMatchAt(s, i) {
      var k := DigitRun(s, d);
      var run := s[d..d + k];
      forall j | 0 <= j < |run| ensures IsDigit(run[j]) {
        assert run[j] == s[d + j];
      }
      assert DigitsThenPercent(s, i, k);
    }
    if MarkerAt(s, i) && exists k: nat :: DigitsThenPercent(s, i, k) {
      var k: nat :| DigitsThenPercent(s, i, k);
      forall j | d <= j < d + k ensures IsDigit(s[j]) {
        assert s[d..d + k][j - d] == s[j];
      }
      DigitRunOfDigits(s, d, k);
    }
  }

  /** The captured group of a match at i. */
  function MemoryDigits(s: string, i: nat): (digits: string)
    requires MemoryMatchAt(s, i)
    ensures digits != [] && AllDigits(digits)
  {
    var d := i + |MemoryMarker|;
    s[d..d + DigitRun(s, d)]
  }

  /** The leftmost match at or after i. */
  function FirstMemoryMatch(s: string, i: nat): (r: Option<nat>)
    requires i <= |s|
    ensures r.Some? ==> i <= r.value < |s| && MemoryMatchAt(s, r.value)
    ensures forall j: nat :: i <= j && (r.None? || j < r.value) ==> !MemoryMatchAt(s, j)
    decreases |s| - i
  {
    if i == |s| then None
    else if MemoryMatchAt(s, i) then Some(i)
    else FirstMemoryMatch(s, i + 1)
  }

  /**
   * The free-memory percentage in the memory probe's output: the number
   * captured by the leftmost match, or None when the pattern matches nowhere.
   */
  function ParseMemory(stdout: string): (r: Option<nat>)
    ensures r.None? <==> forall i: nat :: !MemoryMatchAt(stdout, i)
    ensures r.Some? ==> exists i: nat ::
      && MemoryMatchAt(stdout, i)
      && (forall j: nat :: j < i ==> !MemoryMatchAt(stdout, j))
      && r.value == DigitsValue(MemoryDigits(stdout, i))
  {
    match FirstMemoryMatch(stdout, 0)
    case None => None
    case Some(i) => Some(DigitsValue(MemoryDigits(stdout, i)))
  }

  /**
   * No proper suffix of the marker is also a prefix of it (its first letter
   * 'S' occurs nowhere else), so two occurrences of it never overlap.
   */
  lemma MarkerHasNoBorder(t: nat)
    requires 0 < t < |MemoryMarker|
    ensures MemoryMarker[t..] != MemoryMarker[..|MemoryMarker| - t]
  {
    var m := MemoryMarker;
    assert m[t] != 'S' && m[0] == 'S';
    assert m[t..][0] == m[t] && m[..|m| - t][0] == m[0];
  }

  /** A marker that starts inside pre cannot run on into the marker that follows pre. */
  lemma NoMarkerAcrossReport(pre: string, tail: string, j: nat)
    requires j < |pre| < j + |MemoryMarker|
    ensures !MarkerAt(pre + MemoryMarker + tail, j)
  {
    var s := pre + MemoryMarker + tail;
    var m := |MemoryMarker|;
    var t := |pre| - j;
    MarkerHasNoBorder(t);
    assert s[|pre|..j + m] == MemoryMarker[..m - t];
    assert s[j..j + m][t..] == s[|pre|..j + m];
  }

  /**
   * A match that starts early enough in pre to hold its whole marker there is
   * a match of pre alone: its digits and '%' cannot reach the marker after pre.
   */
  lemma MatchBeforeReport(pre: string, tail: string, j: nat)
    requires j + |MemoryMarker| <= |pre|
    ensures MemoryMatchAt(pre + MemoryMarker + tail, j) ==> MemoryMatchAt(pre, j)
  {
    var s := pre + MemoryMarker + tail;
    var d := j + |MemoryMarker|;
    if MemoryMatchAt(s, j) {
      assert s[j..d] == pre[j..d];
      var k := DigitRun(s, d);
      assert s[|pre|] == 'S';
      assert d + k < |pre|;
      forall i | d <= i < d + k ensures IsDigit(pre[i]) {
        assert s[i] == pre[i];
      }
      assert pre[d + k] == s[d + k];
      DigitRunOfDigits(pre, d, k);
    }
  }

  /**
   * A report line `System-wide memory free percentage: N%` is read as N,
   * whatever follows it, when the text before it holds no match.
   */
  lemma MemoryReadsFirstReport(pre: string, n: nat, post: string)
    requires forall j: nat :: !MemoryMatchAt(pre, j)
    ensures ParseMemory(pre + MemoryMarker + NatToString(n) + "%" + post) == Some(n)
  {
    var tail := NatToString(n) + "%" + post;
    var s := pre + MemoryMarker + NatToString(n) + "%" + post;
    assert s == pre + MemoryMarker + tail;
    NoMatchInsidePre(pre, tail);
    ReportMatches(pre, n, post);
    DigitsValueOfNatToString(n);
  }

  /** When pre holds no match, no match of pre + marker + tail starts inside pre. */
  lemma NoMatchInsidePre(pre: string, tail: string)
    requires forall j: nat :: !MemoryMatchAt(pre, j)
    ensures forall j: nat :: j < |pre| ==> !MemoryMatchAt(pre + MemoryMarker + tail, j)
  {
    forall j: nat | j < |pre| ensures !MemoryMatchAt(pre + MemoryMarker + tail, j) {
      if j + |MemoryMarker| <= |pre| {
        MatchBeforeReport(pre, tail, j);
      } else {
        NoMarkerAcrossReport(pre, tail, j);
      }
    }
  }

  /** The report line right after pre is a match, and its captured group is the rendering of n. */
  lemma ReportMatches(pre: string, n: nat, post: string)
    ensures var s := pre + MemoryMarker + NatToString(n) + "%" + post;
      MemoryMatchAt(s, |pre|) && MemoryDigits(s, |pre|) == NatToString(n)
  {
    var digits := NatToString(n);
    var s := pre + MemoryMarker + digits + "%" + post;
    var d := |pre| + |MemoryMarker|;
    assert s[|pre|..d] == MemoryMarker;
    forall j | d <= j < d + |digits| ensures IsDigit(s[j]) {
      assert s[j] == digits[j - d];
    }
    assert s[d + |digits|] == '%';
    DigitRunOfDigits(s, d, |digits|);
    assert s[d..d + |digits|] == digits;
  }

  // ---------------------------------------------------------------------------
  // Disk: lines[1].split(/\s+/)[4].replace('%', ''), then parseInt

  /** How the disk probe's output reads: no line 1, a line 1 too short to have field 4, or a usage. */
  datatype DiskParse = NoUsageLine | UsageFieldMissing | Usage(percent: ParsedInt)

  /**
   * The used-disk percentage in the disk probe's output. When line 1 has
   * fewer than five fields the source reads a field that is not there and
   * throws; that is UsageFieldMissing.
   */
  function ParseDisk(stdout: string): (r: DiskParse)
    ensures r.NoUsageLine? <==> '\n' !in stdout
  {
    var lines := SplitOn(stdout, '\n');
    if |lines| <= 1 then NoUsageLine
    else
      var fields := SplitFields(lines[1]);
      if |fields| < 5 then UsageFieldMissing
      else Usage(ParseIntJs(RemoveFirst(fields[4], '%')))
  }

  /**
   * A line of a report as `df` prints it: fields without white space, only the
   * first and the last possibly empty, separated by runs of white space of any
   * length that hold no line break.
   */
  predicate WellFormedLine(fields: seq<string>, seps: seq<string>)
  {
    && |fields| >= 1 && |seps| == |fields| - 1
    && (forall k :: 0 <= k < |fields| ==> NoSpace(fields[k]))
    && (forall k :: 0 < k < |fields| - 1 ==> fields[k] != [])
    && (forall k :: 0 <= k < |seps| ==> IsSpaceRun(seps[k]) && '\n' !in seps[k])
  }

  lemma FieldsLineIsOneLine(fields: seq<string>, seps: seq<string>)
    requires WellFormedLine(fields, seps)
    ensures '\n' !in JoinWithRuns(fields, seps)
  {
    JoinWithRunsAvoids(fields, seps, '\n');
  }

  /**
   * A `df` report whose line 1 holds at least five fields, the fifth being
   * `N%`, is read as usage N, however wide the columns are padded.
   */
  lemma DiskReadsUsageColumn(header: string, fields: seq<string>, seps: seq<string>, n: nat, rest: string)
    requires '\n' !in header
    requires WellFormedLine(fields, seps) && |fields| >= 5
    requires fields[4] == NatToString(n) + "%"
    requires rest == [] || rest[0] == '\n'
    ensures ParseDisk(header + "\n" + JoinWithRuns(fields, seps) + rest) == Usage(Num(n))
  {
    var line := JoinWithRuns(fields, seps);
    FieldsLineIsOneLine(fields, seps);
    SecondLine(header, line, rest);
    SplitFieldsOfJoinRuns(fields, seps);
    var digits := NatToString(n);
    assert digits + "%" == digits + ['%'] + "";
    RemovesFirstOccurrence(digits, '%', "");
    assert RemoveFirst(fields[4], '%') == digits;
    ParseIntJsOfNatToString(n);
  }

  /** A line 1 with fewer than five fields leaves field 4 missing: the source throws. */
  lemma DiskShortLineThrows(header: string, fields: seq<string>, seps: seq<string>, rest: string)
    requires '\n' !in header
    requires WellFormedLine(fields, seps) && |fields| < 5
    requires rest == [] || rest[0] == '\n'
    ensures ParseDisk(header + "\n" + JoinWithRuns(fields, seps) + rest) == UsageFieldMissing
  {
    FieldsLineIsOneLine(fields, seps);
    SecondLine(header, JoinWithRuns(fields, seps), rest);
    SplitFieldsOfJoinRuns(fields, seps);
  }

  // ---------------------------------------------------------------------------
  // Thresholds

  /** Low memory: strictly below MemoryFreeMinPercent. */
  predicate IsLowMemory(freePercent: int)
  {
    freePercent < MemoryFreeMinPercent
  }

  /** High disk usage: strictly above DiskUsageMaxPercent; NaN compares false. */
  predicate IsHighDisk(usage: ParsedInt)
  {
    usage.Num? && usage.value > DiskUsageMaxPercent
  }

  /** 30 % free is not low and 29 % is; a reading below a low one is low too. */
  lemma LowMemoryBoundary(freePercent: int, lower: int)
    ensures !IsLowMemory(30) && IsLowMemory(29)
    ensures IsLowMemory(freePercent) && lower <= freePercent ==> IsLowMemory(lower)
  {
  }

  /** 90 % used is not high and 91 % is; NaN never is; a reading above a high one is high too. */
  lemma HighDiskBoundary(usedPercent: int, higher: int)
    ensures !IsHighDisk(Num(90)) && IsHighDisk(Num(91)) && !IsHighDisk(NaN)
    ensures IsHighDisk(Num(usedPercent)) && usedPercent <= higher ==> IsHighDisk(Num(higher))
  {
  }

  const LowMemoryWording: string := "System memory is low: only "
  const HighDiskWording: string := "Disk usage is high: "

  const LowMemoryTail: string := "% free (threshold: " + NatToString(MemoryFreeMinPercent) + "%)"
  const HighDiskTail: string := "% used (threshold: " + NatToString(DiskUsageMaxPercent) + "%)"

  function LowMemoryMessage(freePercent: nat): string
  {
    LowMemoryWording + IntToString(freePercent) + LowMemoryTail
  }

  function HighDiskMessage(usedPercent: int): string
  {
    HighDiskWording + IntToString(usedPercent) + HighDiskTail
  }

  /** The low-memory alert names the free percentage: it reads back right after the fixed wording. */
  lemma LowMemoryMessageReadsBack(freePercent: nat)
    ensures var m := LowMemoryMessage(freePercent);
      && |m| > |LowMemoryWording| && m[..|LowMemoryWording|] == LowMemoryWording
      && ParseIntJs(m[|LowMemoryWording|..]) == Num(freePercent)
  {
    IntAfterWording(LowMemoryWording, freePercent, LowMemoryTail);
  }

  /** The high-disk alert names the used percentage: it reads back right after the fixed wording. */
  lemma HighDiskMessageReadsBack(usedPercent: int)
    ensures var m := HighDiskMessage(usedPercent);
      && |m| > |HighDiskWording| && m[..|HighDiskWording|] == HighDiskWording
      && ParseIntJs(m[|HighDiskWording|..]) == Num(usedPercent)
  {
    IntAfterWording(HighDiskWording, usedPercent, HighDiskTail);
  }

  // ---------------------------------------------------------------------------
  // `monitors.resources` and its updates

  datatype ResourceStatus = ResourcesUnknown | ResourcesChecked

  /** `monitors.resources`; a NaN disk reading is stored as it is. */
  datatype ResourcesRecord = ResourcesRecord(status: ResourceStatus, lastCheck: Option<int>, memory: Option<nat>, disk: Option<ParsedInt>)

  const InitialResources: ResourcesRecord := ResourcesRecord(ResourcesUnknown, None, None, None)

  /** What a probe subprocess delivers: an error, or its standard output. */
  datatype ProbeResult = ProbeFailed | ProbeOutput(stdout: string)

  /** The check stamps the record at once, keeping the previous readings. */
  function StartCheck(r: ResourcesRecord, now: int): (r': ResourcesRecord)
    ensures r'.status == ResourcesChecked && r'.lastCheck == Some(now)
    ensures r'.memory == r.memory && r'.disk == r.disk
  {
    r.(status := ResourcesChecked, lastCheck := Some(now))
  }

  datatype MemoryStep = MemoryStep(record: ResourcesRecord, lowMemory: Option<nat>)

  /**
   * The memory probe's callback: a parsed reading is stored whether or not
   * it is low; a low one asks for a low-memory event. A failed probe or an
   * output without a match changes nothing.
   */
  function AfterMemoryProbe(r: ResourcesRecord, out: ProbeResult): (m: MemoryStep)
    ensures m.record == r.(memory := m.record.memory)
    ensures out.ProbeOutput? && ParseMemory(out.stdout).Some? ==> m.record.memory == ParseMemory(out.stdout)
    ensures !(out.ProbeOutput? && ParseMemory(out.stdout).Some?) ==> m == MemoryStep(r, None)
    ensures m.lowMemory.Some? <==> out.ProbeOutput? && ParseMemory(out.stdout).Some? && IsLowMemory(ParseMemory(out.stdout).value)
    ensures m.lowMemory.Some? ==> m.record.memory == m.lowMemory
  {
    if out.ProbeFailed? then MemoryStep(r, None)
    else
      match ParseMemory(out.stdout)
      case None => MemoryStep(r, None)
      case Some(free) => MemoryStep(r.(memory := Some(free)), if IsLowMemory(free) then Some(free) else None)
  }

  /** The disk probe's callback either completes or throws (field 4 missing). */
  datatype DiskStep = DiskStep(record: ResourcesRecord, highDisk: Option<int>) | DiskCrash

  /**
   * The disk probe's callback: a parsed usage (NaN included) is stored
   * whether or not it is high; a high one asks for a high-disk-usage event.
   * A failed probe or an output without line 1 changes nothing; a line 1
   * without field 4 throws.
   */
  function AfterDiskProbe(r: ResourcesRecord, out: ProbeResult): (d: DiskStep)
    ensures d.DiskCrash? <==> out.ProbeOutput? && ParseDisk(out.stdout).UsageFieldMissing?
    ensures d.DiskStep? ==> d.record == r.(disk := d.record.disk)
    ensures out.ProbeOutput? && ParseDisk(out.stdout).Usage? ==>
      d == DiskStep(r.(disk := Some(ParseDisk(out.stdout).percent)),
                    if IsHighDisk(ParseDisk(out.stdout).percent) then Some(ParseDisk(out.stdout).percent.value) else None)
    ensures out.ProbeFailed? || ParseDisk(out.stdout).NoUsageLine? ==> d == DiskStep(r, None)
  {
    if out.ProbeFailed? then DiskStep(r, None)
    else
      match ParseDisk(out.stdout)
      case NoUsageLine => DiskStep(r, None)
      case UsageFieldMissing => DiskCrash
      case Usage(used) => DiskStep(r.(disk := Some(used)), if IsHighDisk(used) then Some(used.value) else None)
  }
}
