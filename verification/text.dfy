/**
 * The JavaScript string built-ins the daemon relies on, on `string` (a
 * sequence of chars): decimal rendering of numbers, `parseInt`,
 * `split('\n')`, `split(/\s+/)` and `replace` with a one-character pattern.
 */
module Text {

  // ---------------------------------------------------------------------------
  // Decimal digits

  predicate IsDigit(c: char) { '0' <= c <= '9' }

  function DigitValue(c: char): (d: nat)
    requires IsDigit(c)
    ensures d < 10
  {
    c as int - '0' as int
  }

  function DigitChar(d: nat): (c: char)
    requires d < 10
    ensures IsDigit(c) && DigitValue(c) == d
  {
    (d + '0' as int) as char
  }

  predicate AllDigits(s: string)
  {
    forall i :: 0 <= i < |s| ==> IsDigit(s[i])
  }

  /** The number a string of decimal digits denotes, most significant digit first. */
  function DigitsValue(s: string): nat
    requires AllDigits(s)
  {
    if s == [] then 0 else 10 * DigitsValue(s[..|s| - 1]) + DigitValue(s[|s| - 1])
  }

  /**
   * `String(n)` for a non-negative integer: its decimal digits, never empty,
   * with no leading zero except for 0 itself.
   */
  function NatToString(n: nat): (s: string)
    ensures 1 <= |s| && AllDigits(s)
    ensures s[0] == '0' <==> n == 0
    decreases n
  {
    if n < 10 then [DigitChar(n)] else NatToString(n / 10) + [DigitChar(n % 10)]
  }

  /** `String(i)` for any integer. */
  function IntToString(i: int): string
  {
    if i < 0 then "-" + NatToString(-i) else NatToString(i)
  }

  /** Reading back the rendering of n gives n. */
  lemma {:induction false} DigitsValueOfNatToString(n: nat)
    ensures DigitsValue(NatToString(n)) == n
  {
    if n >= 10 {
      var s := NatToString(n);
      assert s[..|s| - 1] == NatToString(n / 10);
      DigitsValueOfNatToString(n / 10);
    }
  }

  /** The length of the run of decimal digits that starts at index i. */
  function DigitRun(s: string, i: nat): (k: nat)
    requires i <= |s|
    ensures i + k <= |s|
    ensures forall j :: i <= j < i + k ==> IsDigit(s[j])
    ensures i + k == |s| || !IsDigit(s[i + k])
    decreases |s| - i
  {
    if i < |s| && IsDigit(s[i]) then 1 + DigitRun(s, i + 1) else 0
  }

  /** A run of digits ended by the end of the string or a non-digit is exactly the run DigitRun finds. */
  lemma {:induction false} DigitRunOfDigits(s: string, i: nat, k: nat)
    requires i + k <= |s|
    requires forall j :: i <= j < i + k ==> IsDigit(s[j])
    requires i + k == |s| || !IsDigit(s[i + k])
    ensures DigitRun(s, i) == k
    decreases k
  {
    if k > 0 {
      DigitRunOfDigits(s, i + 1, k - 1);
    }
  }

  // ---------------------------------------------------------------------------
  // Hexadecimal digits (parseInt's "0x" form)

  predicate IsHexDigit(c: char)
  {
    IsDigit(c) || 'a' <= c <= 'f' || 'A' <= c <= 'F'
  }

  function HexDigitValue(c: char): (d: nat)
    requires IsHexDigit(c)
    ensures d < 16
  {
    if IsDigit(c) then DigitValue(c)
    else if 'a' <= c <= 'f' then c as int - 'a' as int + 10
    else c as int - 'A' as int + 10
  }

  predicate AllHexDigits(s: string)
  {
    forall i :: 0 <= i < |s| ==> IsHexDigit(s[i])
  }

  function HexDigitsValue(s: string): nat
    requires AllHexDigits(s)
  {
    if s == [] then 0 else 16 * HexDigitsValue(s[..|s| - 1]) + HexDigitValue(s[|s| - 1])
  }

  function HexRun(s: string, i: nat): (k: nat)
    requires i <= |s|
    ensures i + k <= |s|
    ensures forall j :: i <= j < i + k ==> IsHexDigit(s[j])
    decreases |s| - i
  {
    if i < |s| && IsHexDigit(s[i]) then 1 + HexRun(s, i + 1) else 0
  }

  // ---------------------------------------------------------------------------
  // White space: the characters of the regular-expression class `\s`, which
  // are also those `parseInt` skips before the number.

  predicate IsJsSpace(c: char)
  {
    || c == ' ' || c == '\t' || c == '\n' || c == '\r' || c == '\U{B}' || c == '\U{C}'
    || c == '\U{A0}' || c == '\U{1680}' || '\U{2000}' <= c <= '\U{200A}'
    || c == '\U{2028}' || c == '\U{2029}' || c == '\U{202F}' || c == '\U{205F}'
    || c == '\U{3000}' || c == '\U{FEFF}'
  }

  predicate NoSpace(s: string)
  {
    forall i :: 0 <= i < |s| ==> !IsJsSpace(s[i])
  }

  /** The index of the first white-space character, or |s| when there is none. */
  function FirstSpace(s: string): (k: nat)
    ensures k <= |s|
    ensures NoSpace(s[..k])
    ensures k < |s| ==> IsJsSpace(s[k])
  {
    if s == [] then 0
    else if IsJsSpace(s[0]) then 0
    else
      var k := 1 + FirstSpace(s[1..]);
      assert s[..k] == [s[0]] + s[1..][..k - 1];
      k
  }

  /** The length of the white-space run that starts at index i. */
  function SpaceRun(s: string, i: nat): (k: nat)
    requires i <= |s|
    ensures i + k <= |s|
    ensures forall j :: i <= j < i + k ==> IsJsSpace(s[j])
    ensures i + k == |s| || !IsJsSpace(s[i + k])
    ensures i < |s| && IsJsSpace(s[i]) ==> k >= 1
    decreases |s| - i
  {
    if i < |s| && IsJsSpace(s[i]) then 1 + SpaceRun(s, i + 1) else 0
  }

  // ---------------------------------------------------------------------------
  // Searching and splitting

  /** The index of the first occurrence of c, or |s| when c does not occur. */
  function IndexOf(s: string, c: char): (k: nat)
    ensures k <= |s|
    ensures c !in s[..k]
    ensures k < |s| ==> s[k] == c
  {
    if s == [] then 0
    else if s[0] == c then 0
    else
      var k := 1 + IndexOf(s[1..], c);
      assert s[..k] == [s[0]] + s[1..][..k - 1];
      k
  }

  /** The inverse of SplitOn: the parts glued back with the separator between them. */
  function JoinWith(parts: seq<string>, sep: char): string
    requires |parts| >= 1
    decreases |parts|
  {
    if |parts| == 1 then parts[0] else parts[0] + [sep] + JoinWith(parts[1..], sep)
  }

  /**
   * `s.split(sep)` for a one-character separator: the pieces between
   * separators, empty ones included.
   */
  function SplitOn(s: string, sep: char): (parts: seq<string>)
    ensures |parts| >= 1
    ensures forall k :: 0 <= k < |parts| ==> sep !in parts[k]
    ensures |parts| == 1 <==> sep !in s
    ensures JoinWith(parts, sep) == s
    ensures parts[0] == s[..IndexOf(s, sep)]
    decreases |s|
  {
    var k := IndexOf(s, sep);
    if k == |s| then
      assert s[..k] == s;
      [s]
    else
      var rest := SplitOn(s[k + 1..], sep);
      var parts := [s[..k]] + rest;
      assert parts[1..] == rest;
      assert s == s[..k] + [sep] + s[k + 1..];
      parts
  }

  /** A non-empty run of white space. */
  predicate IsSpaceRun(sep: string)
  {
    sep != [] && forall i :: 0 <= i < |sep| ==> IsJsSpace(sep[i])
  }

  /** Fields glued back together, each neighbouring pair separated by its own run of white space. */
  function JoinWithRuns(fields: seq<string>, seps: seq<string>): string
    requires |fields| >= 1 && |seps| == |fields| - 1
    decreases |fields|
  {
    if |fields| == 1 then fields[0] else fields[0] + seps[0] + JoinWithRuns(fields[1..], seps[1..])
  }

  /** Putting a first field and the run after it in front of a joined remainder. */
  lemma JoinFirstField(s: string, k: nat, j: nat, rest: seq<string>, restSeps: seq<string>)
    requires k < j <= |s| && IsSpaceRun(s[k..j])
    requires |rest| >= 1 && |restSeps| == |rest| - 1
    requires forall m :: 0 <= m < |restSeps| ==> IsSpaceRun(restSeps[m])
    requires JoinWithRuns(rest, restSeps) == s[j..]
    ensures var seps := [s[k..j]] + restSeps;
      && (forall m :: 0 <= m < |seps| ==> IsSpaceRun(seps[m]))
      && JoinWithRuns([s[..k]] + rest, seps) == s
  {
    var fields := [s[..k]] + rest;
    var seps := [s[k..j]] + restSeps;
    assert fields[1..] == rest;
    assert seps[1..] == restSeps;
    assert JoinWithRuns(fields, seps) == s[..k] + s[k..j] + s[j..];
    assert s == s[..k] + s[k..j] + s[j..];
  }

  /**
   * `s.split(/\s+/)`: the pieces between maximal runs of white space. A
   * leading or trailing run yields an empty first or last piece; every
   * piece in between is non-empty.
   */
  function SplitFields(s: string): (fields: seq<string>)
    ensures |fields| >= 1
    ensures forall k :: 0 <= k < |fields| ==> NoSpace(fields[k])
    ensures forall k :: 0 < k < |fields| - 1 ==> fields[k] != []
    ensures fields[0] == s[..FirstSpace(s)]
    decreases |s|
  {
    var k := FirstSpace(s);
    if k == |s| then
      assert s[..k] == s;
      [s]
    else
      var j := k + SpaceRun(s, k);
      var rest := SplitFields(s[j..]);
      assert |rest| >= 2 ==> rest[0] != [] by {
        if |rest| >= 2 {
          assert j < |s|;
          assert !IsJsSpace(s[j..][0]);
        }
      }
      [s[..k]] + rest
  }

  /** The runs of white space that `split(/\s+/)` drops, in order. */
  function SpaceRuns(s: string): (seps: seq<string>)
    ensures forall m :: 0 <= m < |seps| ==> IsSpaceRun(seps[m])
    decreases |s|
  {
    var k := FirstSpace(s);
    if k == |s| then []
    else
      var j := k + SpaceRun(s, k);
      [s[k..j]] + SpaceRuns(s[j..])
  }

  /** The pieces of `split(/\s+/)`, with the dropped runs put back between them, make up s. */
  lemma {:induction false} SplitFieldsJoinBack(s: string)
    ensures |SpaceRuns(s)| == |SplitFields(s)| - 1
    ensures JoinWithRuns(SplitFields(s), SpaceRuns(s)) == s
    decreases |s|
  {
    var k := FirstSpace(s);
    if k == |s| {
      assert s[..k] == s;
    } else {
      var j := k + SpaceRun(s, k);
      var rest, restSeps := SplitFields(s[j..]), SpaceRuns(s[j..]);
      assert SplitFields(s) == [s[..k]] + rest;
      assert SpaceRuns(s) == [s[k..j]] + restSeps;
      SplitFieldsJoinBack(s[j..]);
      JoinFirstField(s, k, j, rest, restSeps);
    }
  }

  /** IndexOf is determined by its contract. */
  lemma IndexOfIs(s: string, c: char, k: nat)
    requires k <= |s| && c !in s[..k] && (k < |s| ==> s[k] == c)
    ensures IndexOf(s, c) == k
  {
  }

  /** FirstSpace is determined by its contract. */
  lemma FirstSpaceIs(s: string, k: nat)
    requires k <= |s| && NoSpace(s[..k]) && (k < |s| ==> IsJsSpace(s[k]))
    ensures FirstSpace(s) == k
  {
    var j := FirstSpace(s);
    forall i | 0 <= i < k ensures !IsJsSpace(s[i]) {
      assert s[..k][i] == s[i];
    }
    forall i | 0 <= i < j ensures !IsJsSpace(s[i]) {
      assert s[..j][i] == s[i];
    }
  }

  /**
   * Line 1 of `split('\n')` (counting from 0) is the text between the first
   * and the second line break.
   */
  lemma SecondLine(header: string, line: string, rest: string)
    requires '\n' !in header && '\n' !in line
    requires rest == [] || rest[0] == '\n'
    ensures var lines := SplitOn(header + "\n" + line + rest, '\n');
      |lines| >= 2 && lines[1] == line
  {
    var tail := line + rest;
    assert tail[..|line|] == line;
    IndexOfIs(tail, '\n', |line|);
    var s := header + ['\n'] + tail;
    assert s[..|header|] == header;
    IndexOfIs(s, '\n', |header|);
    assert s[|header| + 1..] == tail;
    assert header + "\n" + line + rest == s;
  }

  /** A run of white space ended by the end of the string or another character is exactly the run SpaceRun finds. */
  lemma {:induction false} SpaceRunIs(s: string, i: nat, k: nat)
    requires i + k <= |s|
    requires forall j :: i <= j < i + k ==> IsJsSpace(s[j])
    requires i + k == |s| || !IsJsSpace(s[i + k])
    ensures SpaceRun(s, i) == k
    decreases k
  {
    if k > 0 {
      SpaceRunIs(s, i + 1, k - 1);
    }
  }

  /**
   * `split(/\s+/)` takes apart what joining space-free fields with runs of
   * white space put together, whatever the length of each run (the first
   * and the last field may be empty, the others may not).
   */
  lemma {:induction false} SplitFieldsOfJoinRuns(fields: seq<string>, seps: seq<string>)
    requires |fields| >= 1 && |seps| == |fields| - 1
    requires forall k :: 0 <= k < |fields| ==> NoSpace(fields[k])
    requires forall k :: 0 < k < |fields| - 1 ==> fields[k] != []
    requires forall k :: 0 <= k < |seps| ==> IsSpaceRun(seps[k])
    ensures SplitFields(JoinWithRuns(fields, seps)) == fields
    decreases |fields|
  {
    var s := JoinWithRuns(fields, seps);
    if |fields| == 1 {
      assert s[..|s|] == s;
      FirstSpaceIs(s, |s|);
    } else {
      var rest := JoinWithRuns(fields[1..], seps[1..]);
      SplitFieldsStep(fields[0], seps[0], rest);
      if rest != [] {
        assert fields[1] != [];
      }
      SplitFieldsOfJoinRuns(fields[1..], seps[1..]);
    }
  }

  /** One step of SplitFields on a field, a run of white space and a remainder starting with no white space. */
  lemma SplitFieldsStep(f: string, sep: string, rest: string)
    requires NoSpace(f) && IsSpaceRun(sep)
    requires rest == [] || !IsJsSpace(rest[0])
    ensures SplitFields(f + sep + rest) == [f] + SplitFields(rest)
  {
    var s := f + sep + rest;
    assert s[..|f|] == f;
    assert s[|f|] == sep[0];
    FirstSpaceIs(s, |f|);
    if rest != [] {
      assert s[|f| + |sep|] == rest[0];
    }
    forall j | |f| <= j < |f| + |sep| ensures IsJsSpace(s[j]) {
      assert s[j] == sep[j - |f|];
    }
    SpaceRunIs(s, |f|, |sep|);
    assert s[|f| + |sep|..] == rest;
  }


  /** Joining pieces that avoid c with runs that avoid c gives a string that avoids c. */
  lemma {:induction false} JoinWithRunsAvoids(fields: seq<string>, seps: seq<string>, c: char)
    requires |fields| >= 1 && |seps| == |fields| - 1
    requires forall k :: 0 <= k < |fields| ==> c !in fields[k]
    requires forall k :: 0 <= k < |seps| ==> c !in seps[k]
    ensures c !in JoinWithRuns(fields, seps)
    decreases |fields|
  {
    if |fields| > 1 {
      JoinWithRunsAvoids(fields[1..], seps[1..], c);
    }
  }

  /** `s.replace(c, "")` with a one-character pattern: only the first occurrence goes. */
  function RemoveFirst(s: string, c: char): (r: string)
    ensures c !in s ==> r == s
    ensures |r| == if c in s then |s| - 1 else |s|
  {
    var k := IndexOf(s, c);
    if k == |s| then s else s[..k] + s[k + 1..]
  }

  /** Exactly the first occurrence is removed: what precedes it and all that follows stay. */
  lemma RemovesFirstOccurrence(pre: string, c: char, post: string)
    requires c !in pre
    ensures RemoveFirst(pre + [c] + post, c) == pre + post
  {
    var s := pre + [c] + post;
    assert s[..|pre|] == pre;
    IndexOfIs(s, c, |pre|);
    assert s[|pre| + 1..] == post;
  }

  // ---------------------------------------------------------------------------
  // parseInt

  /** What `parseInt` returns: an integer, or NaN when no digit can be read. */
  datatype ParsedInt = NaN | Num(value: int)

  function LeadingSpaces(s: string): (k: nat)
    ensures k <= |s|
  {
    if s != [] && IsJsSpace(s[0]) then 1 + LeadingSpaces(s[1..]) else 0
  }

  function Signed(negative: bool, magnitude: nat): int
  {
    if negative then 0 - magnitude as int else magnitude
  }

  /**
   * `parseInt(s)` without a radix: skip leading white space, read an
   * optional sign, then hexadecimal digits after a "0x"/"0X" prefix or else
   * decimal digits, as many as there are; NaN when there are none.
   */
  function ParseIntJs(s: string): (r: ParsedInt)
    ensures var t := s[LeadingSpaces(s)..];
      var u := if t != [] && (t[0] == '-' || t[0] == '+') then t[1..] else t;
      r.NaN? <==>
        || u == [] || !IsDigit(u[0])
        || (|u| >= 2 && u[0] == '0' && (u[1] == 'x' || u[1] == 'X') && (|u| == 2 || !IsHexDigit(u[2])))
    ensures var t := s[LeadingSpaces(s)..];
      r.Num? ==> t != [] && (r.value < 0 ==> t[0] == '-') && (t[0] == '-' ==> r.value <= 0)
  {
    var t := s[LeadingSpaces(s)..];
    var negative := |t| > 0 && t[0] == '-';
    var u := if |t| > 0 && (t[0] == '-' || t[0] == '+') then t[1..] else t;
    if |u| >= 2 && u[0] == '0' && (u[1] == 'x' || u[1] == 'X') then
      var h := HexRun(u, 2);
      if h == 0 then NaN else Num(Signed(negative, HexDigitsValue(u[2..2 + h])))
    else
      var d := DigitRun(u, 0);
      if d == 0 then NaN else Num(Signed(negative, DigitsValue(u[..d])))
  }

  /** `parseInt(String(n))` is n. */
  lemma ParseIntJsOfNatToString(n: nat)
    ensures ParseIntJs(NatToString(n)) == Num(n)
  {
    ParseIntJsReadsLeadingNumber(n, "");
    assert NatToString(n) + "" == NatToString(n);
  }

  /**
   * `parseInt` reads the leading decimal number and ignores whatever follows
   * it, provided what follows neither continues the number nor turns a lone
   * "0" into a "0x" prefix.
   */
  lemma ParseIntJsReadsLeadingNumber(n: nat, rest: string)
    requires rest == [] || !IsDigit(rest[0])
    requires n == 0 && rest != [] ==> rest[0] != 'x' && rest[0] != 'X'
    ensures ParseIntJs(NatToString(n) + rest) == Num(n)
  {
    var digits := NatToString(n);
    var u := digits + rest;
    assert u[0] == digits[0];
    assert LeadingSpaces(u) == 0;
    assert u[0..] == u;
    if rest != [] {
      assert u[|digits|] == rest[0];
    }
    DigitRunOfDigits(u, 0, |digits|);
    assert u[..|digits|] == digits;
    DigitsValueOfNatToString(n);
  }

  /** `parseInt(String(i))` reads i back from the front of any text that does not continue the number. */
  lemma ParseIntJsReadsLeadingInt(i: int, rest: string)
    requires rest == [] || !IsDigit(rest[0])
    requires i == 0 && rest != [] ==> rest[0] != 'x' && rest[0] != 'X'
    ensures ParseIntJs(IntToString(i) + rest) == Num(i)
  {
    if i >= 0 {
      ParseIntJsReadsLeadingNumber(i, rest);
    } else {
      var digits := NatToString(-i);
      var s := IntToString(i) + rest;
      var u := digits + rest;
      assert s == "-" + u;
      assert LeadingSpaces(s) == 0;
      assert s[0..] == s && s[1..] == u;
      if rest != [] {
        assert u[|digits|] == rest[0];
      }
      DigitRunOfDigits(u, 0, |digits|);
      assert u[..|digits|] == digits;
      DigitsValueOfNatToString(-i);
    }
  }

  /**
   * A message that writes i after a fixed wording: the wording is its
   * prefix, and `parseInt` of what follows the wording gives back i.
   */
  lemma IntAfterWording(wording: string, i: int, rest: string)
    requires rest == [] || !IsDigit(rest[0])
    requires i == 0 && rest != [] ==> rest[0] != 'x' && rest[0] != 'X'
    ensures var m := wording + IntToString(i) + rest;
      |m| > |wording| && m[..|wording|] == wording && ParseIntJs(m[|wording|..]) == Num(i)
  {
    var m := wording + IntToString(i) + rest;
    assert m[..|wording|] == wording;
    assert m[|wording|..] == IntToString(i) + rest;
    ParseIntJsReadsLeadingInt(i, rest);
  }

  /** No digit where one is expected: an empty string or one starting with another character is NaN. */
  lemma ParseIntJsNaN(s: string)
    requires s == [] || (!IsDigit(s[0]) && !IsJsSpace(s[0]) && s[0] != '-' && s[0] != '+')
    ensures ParseIntJs(s) == NaN
  {
    assert s[0..] == s;
  }
}
