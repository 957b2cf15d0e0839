/**
 * The condition evaluator of `if`/`elseif` lines: a clock-time parser, the
 * parenthesis balancer, the single comparison `conditionMatch` and the strictly
 * left-to-right `and`/`or` fold `conditionMatchExtended`.
 */
module Conditions {
  import opened Wrappers
  import opened ArduinoString
  import opened Collaborators
  import opened MacroExpander

  // ---------------------------------------------------------------------------
  // timeStringToSeconds
  // ---------------------------------------------------------------------------

  const TIME_CAPTURE_MAX: nat := 8

  predicate IsTimeChar(ch: char)
  {
    IsDigit(ch) || ch == ':'
  }

  /**
   * The leading run of digits and ':' of `t`, at most `room` characters long:
   * the characters the capture loop appends to the time string.
   */
  function TimeCapture(t: string, room: nat): (r: string)
    ensures |r| <= room && |r| <= |t| && r == t[..|r|]
    ensures forall i :: 0 <= i < |r| ==> IsTimeChar(r[i])
    ensures |r| == room || |r| == |t| || !IsTimeChar(t[|r|])
  {
    if room == 0 || |t| == 0 || !IsTimeChar(t[0]) then ""
    else
      var rest := TimeCapture(t[1..], room - 1);
      assert [t[0]] + rest == t[..|rest| + 1];
      [t[0]] + rest
  }

  /** The three properties above determine the captured text. */
  lemma {:induction false} TimeCaptureUnique(t: string, room: nat, k: nat)
    requires k <= room && k <= |t|
    requires forall i :: 0 <= i < k ==> IsTimeChar(t[i])
    requires k == room || k == |t| || !IsTimeChar(t[k])
    ensures TimeCapture(t, room) == t[..k]
    decreases k
  {
    if k > 0 {
      TimeCaptureUnique(t[1..], room - 1, k - 1);
      assert [t[0]] + t[1..][..k - 1] == t[..k];
    }
  }

  /**
   * Hours, minutes and seconds of a captured time string, as `timeStringToSeconds`
   * reads them: the validity flag and the value left in `time_seconds`.
   */
  datatype TimeResult = TimeResult(valid: bool, seconds: int)

  function ParseTime(c: Capabilities, ts: string): TimeResult
  {
    var h := NextArgument(ts, 0, ':');
    if !h.found then TimeResult(false, -1)
    else match c.validInt(h.argument)
      case None => TimeResult(false, -1)
      case Some(hours) =>
        if hours < 0 || hours > 24 then TimeResult(false, -1)
        else AfterHours(c, ts, h.next, hours * 3600)
  }

  /** The rest of `timeStringToSeconds` once the hours, worth `seconds`, were read. */
  function AfterHours(c: Capabilities, ts: string, index: int, seconds: int): TimeResult
    requires index >= -1
  {
    var m := NextArgument(ts, index, ':');
    if !m.found then TimeResult(false, seconds)
    else match c.validInt(m.argument)
      case None => TimeResult(true, seconds)
      case Some(minutes) =>
        if minutes < 0 || minutes > 59 then TimeResult(false, seconds)
        else AfterMinutes(c, ts, m.next, seconds + minutes * 60)
  }

  /** The rest of `timeStringToSeconds` once hours and minutes, worth `seconds`, were read. */
  function AfterMinutes(c: Capabilities, ts: string, index: int, seconds: int): TimeResult
    requires index >= -1
  {
    var s := NextArgument(ts, index, ':');
    if !s.found then TimeResult(true, seconds)
    else match c.validInt(s.argument)
      case None => TimeResult(true, seconds)
      case Some(secs) =>
        if secs < 0 || secs > 59 then TimeResult(false, seconds)
        else TimeResult(true, seconds + secs)
  }

  /**
   * `timeStringToSeconds(tBuf, time_seconds, timeString)`, for the empty
   * `timeString` its caller passes: returns the flag, the seconds and the captured text.
   */
  method TimeStringToSeconds(c: Capabilities, tBuf: string) returns (valid: bool, timeSeconds: int, timeString: string)
    ensures timeString == TimeCapture(tBuf, TIME_CAPTURE_MAX)
    ensures TimeResult(valid, timeSeconds) == ParseTime(c, timeString)
  {
    timeString := "";
    var done := false;
    var pos := 0;
    while !done && |timeString| < TIME_CAPTURE_MAX && pos < |tBuf|
      invariant 0 <= pos <= |tBuf|
      invariant !done ==> timeString == tBuf[..pos]
      invariant done ==> 0 < pos && timeString == tBuf[..pos - 1] && !IsTimeChar(tBuf[pos - 1])
      invariant forall i :: 0 <= i < |timeString| ==> IsTimeChar(timeString[i])
      invariant |timeString| <= TIME_CAPTURE_MAX
      decreases |tBuf| - pos
    {
      var ch := tBuf[pos];
      if IsTimeChar(ch) {
        timeString := timeString + [ch];
      } else {
        done := true;
      }
      pos := pos + 1;
    }
    TimeCaptureUnique(tBuf, TIME_CAPTURE_MAX, |timeString|);
    var r := ParseTime(c, timeString);
    valid, timeSeconds := r.valid, r.seconds;
  }

  /** Capture of the example from the source: the `and` and what follows are left out. */
  lemma CaptureStopsAtLetters()
    ensures TimeCapture("7:07and10:11:12", TIME_CAPTURE_MAX) == "7:07"
  {
    TimeCaptureUnique("7:07and10:11:12", TIME_CAPTURE_MAX, 4);
    assert "7:07and10:11:12"[..4] == "7:07";
  }

  /** At most eight characters are captured, even from a longer time. */
  lemma CaptureIsBounded()
    ensures TimeCapture("10:11:12:13", TIME_CAPTURE_MAX) == "10:11:12"
  {
    TimeCaptureUnique("10:11:12:13", TIME_CAPTURE_MAX, 8);
    assert "10:11:12:13"[..8] == "10:11:12";
  }

  /** `ts[from..to]` is a field of digits that ends at a ':' or at the end of `ts`. */
  predicate FieldAt(ts: string, from: nat, to: nat)
  {
    from < to <= |ts| && AllDigits(ts[from..to]) && (to == |ts| || ts[to] == ':')
  }

  /** `get_next_argument` returns exactly such a field, and where the next one starts. */
  lemma FieldArgument(ts: string, from: nat, to: nat)
    requires FieldAt(ts, from, to)
    ensures NextArgument(ts, from, ':') == ArgumentStep(true, ts[from..to], if to == |ts| then -1 else to + 1)
  {
    forall k | from <= k < to ensures ts[k] != ':' {
      assert ts[k] == ts[from..to][k - from];
    }
    assert IndexOfChar(ts, ':', from) == (if to == |ts| then -1 else to);
  }

  /**
   * `HH:MM`, whose fields the number parser reads as `h` and `m`: valid when the
   * hours lie within 0..24 and the minutes within 0..59.
   */
  lemma HoursMinutes(c: Capabilities, ts: string, i: nat, h: int, m: int)
    requires FieldAt(ts, 0, i) && FieldAt(ts, i + 1, |ts|)
    requires c.validInt(ts[0..i]) == Some(h) && c.validInt(ts[i + 1..|ts|]) == Some(m)
    ensures ParseTime(c, ts) ==
      if h < 0 || h > 24 then TimeResult(false, -1)
      else if m < 0 || m > 59 then TimeResult(false, h * 3600)
      else TimeResult(true, h * 3600 + m * 60)
  {
    FieldArgument(ts, 0, i);
    FieldArgument(ts, i + 1, |ts|);
  }

  /** `HH:MM:SS` adds the seconds, which must lie within 0..59. */
  lemma HoursMinutesSeconds(c: Capabilities, ts: string, i: nat, j: nat, h: int, m: int, sec: int)
    requires FieldAt(ts, 0, i) && FieldAt(ts, i + 1, j) && FieldAt(ts, j + 1, |ts|)
    requires c.validInt(ts[0..i]) == Some(h) && c.validInt(ts[i + 1..j]) == Some(m)
    requires c.validInt(ts[j + 1..|ts|]) == Some(sec)
    ensures ParseTime(c, ts) ==
      if h < 0 || h > 24 then TimeResult(false, -1)
      else if m < 0 || m > 59 then TimeResult(false, h * 3600)
      else if sec < 0 || sec > 59 then TimeResult(false, h * 3600 + m * 60)
      else TimeResult(true, h * 3600 + m * 60 + sec)
  {
    FieldArgument(ts, 0, i);
    FieldArgument(ts, i + 1, j);
    FieldArgument(ts, j + 1, |ts|);
    if 0 <= h <= 24 && 0 <= m <= 59 {
      assert AfterHours(c, ts, i + 1, h * 3600) == AfterMinutes(c, ts, j + 1, h * 3600 + m * 60);
    }
  }

  /**
   * A bare hour is not a valid time (it could be a plain number), but it still
   * yields its number of seconds when it lies within 0..24.
   */
  lemma BareHour(c: Capabilities, ts: string, h: int)
    requires FieldAt(ts, 0, |ts|) && c.validInt(ts[0..|ts|]) == Some(h)
    ensures ParseTime(c, ts) == TimeResult(false, if 0 <= h <= 24 then h * 3600 else -1)
  {
    FieldArgument(ts, 0, |ts|);
  }

  /** With a parser that reads decimal digits, "10:11:12" is 36672 seconds. */
  lemma ClockExample(c: Capabilities)
    requires DecimalParser(c)
    ensures ParseTime(c, "10:11:12") == TimeResult(true, 36672)
  {
    var ts := "10:11:12";
    assert ts[0..2] == "10" && ts[3..5] == "11" && ts[6..8] == "12";
    TwoDigitValue("10");
    TwoDigitValue("11");
    TwoDigitValue("12");
    assert c.validInt("10") == Some(10) && c.validInt("11") == Some(11) && c.validInt("12") == Some(12);
    HoursMinutesSeconds(c, ts, 2, 5, 10, 11, 12);
  }

  lemma TwoDigitValue(s: string)
    requires |s| == 2 && AllDigits(s)
    ensures DecimalValue(s) == 10 * (s[0] as int - '0' as int) + (s[1] as int - '0' as int)
  {
    var first := s[..1];
    assert first[..0] == [];
    assert DecimalValue(first) == first[0] as int - '0' as int;
    assert s[..|s| - 1] == first;
  }

  // ---------------------------------------------------------------------------
  // balanceParentheses
  // ---------------------------------------------------------------------------

  function Repeat(ch: char, n: nat): (r: string)
    ensures |r| == n && forall i :: 0 <= i < n ==> r[i] == ch
  {
    seq(n, _ => ch)
  }

  lemma CountRepeat(ch: char, other: char, n: nat)
    ensures Count(ch, Repeat(ch, n)) == n
    ensures other != ch ==> Count(other, Repeat(ch, n)) == 0
    decreases n
  {
    if n > 0 {
      assert Repeat(ch, n)[1..] == Repeat(ch, n - 1);
      CountRepeat(ch, other, n - 1);
    }
  }

  lemma RepeatGrows(ch: char, n: nat)
    ensures Repeat(ch, n + 1) == Repeat(ch, n) + [ch] == [ch] + Repeat(ch, n)
  {
  }

  /** The string with the missing ')' appended or the missing '(' prepended. */
  function Balanced(s: string): string
  {
    var left, right := Count('(', s), Count(')', s);
    if left > right then s + Repeat(')', left - right)
    else if right > left then Repeat('(', right - left) + s
    else s
  }

  /** After balancing, the parentheses are equal in number, and nothing else changed. */
  lemma BalancedCounts(s: string)
    ensures Count('(', Balanced(s)) == Count(')', Balanced(s))
    ensures forall ch :: ch != '(' && ch != ')' ==> Count(ch, Balanced(s)) == Count(ch, s)
    ensures Count('(', s) == Count(')', s) ==> Balanced(s) == s
  {
    var left, right := Count('(', s), Count(')', s);
    if left > right {
      CountAppend('(', s, Repeat(')', left - right));
      CountAppend(')', s, Repeat(')', left - right));
      CountRepeat(')', '(', left - right);
      forall ch | ch != '(' && ch != ')' ensures Count(ch, Balanced(s)) == Count(ch, s) {
        CountAppend(ch, s, Repeat(')', left - right));
        CountRepeat(')', ch, left - right);
      }
    } else if right > left {
      CountAppend('(', Repeat('(', right - left), s);
      CountAppend(')', Repeat('(', right - left), s);
      CountRepeat('(', ')', right - left);
      forall ch | ch != '(' && ch != ')' ensures Count(ch, Balanced(s)) == Count(ch, s) {
        CountAppend(ch, Repeat('(', right - left), s);
        CountRepeat('(', ch, right - left);
      }
    }
  }

  lemma CountPrefixStep(ch: char, s: string, i: nat)
    requires i < |s|
    ensures Count(ch, s[..i + 1]) == Count(ch, s[..i]) + (if s[i] == ch then 1 else 0)
  {
    assert s[..i + 1] == s[..i] + [s[i]];
    CountAppend(ch, s[..i], [s[i]]);
  }

  /** `balanceParentheses(string)`: balances in place and returns left minus right as counted before. */
  method BalanceParentheses(s0: string) returns (s: string, diff: int)
    ensures s == Balanced(s0)
    ensures diff == Count('(', s0) - Count(')', s0)
    ensures Count('(', s) == Count(')', s)
  {
    s := s0;
    var left, right := 0, 0;
    for i := 0 to |s|
      invariant left == Count('(', s[..i]) && right == Count(')', s[..i])
    {
      CountPrefixStep('(', s, i);
      CountPrefixStep(')', s, i);
      if s[i] == '(' {
        left := left + 1;
      } else if s[i] == ')' {
        right := right + 1;
      }
    }
    assert s[..|s|] == s;
    if left > right {
      for i := 0 to left - right
        invariant s == s0 + Repeat(')', i)
      {
        RepeatGrows(')', i);
        s := s + ")";
      }
    } else if right > left {
      for i := 0 to right - left
        invariant s == Repeat('(', i) + s0
      {
        RepeatGrows('(', i);
        s := "(" + s;
      }
    }
    BalancedCounts(s0);
    diff := left - right;
  }

  // ---------------------------------------------------------------------------
  // conditionMatch
  // ---------------------------------------------------------------------------

  /** The right operand with anything from its first " and "/" or " on cut off. */
  function FirstOperand(t: string): string
  {
    var condAnd := IndexOf(t, " and ", 0);
    var condOr := IndexOf(t, " or ", 0);
    if condAnd > -1 || condOr > -1 then
      if condAnd > -1 && (condOr == -1 || condAnd < condOr) then Trim(Substring(t, 0, condAnd))
      else Trim(Substring(t, 0, condOr))
    else t
  }

  /** Position `k` is where the first " and " or " or " of `t` starts. */
  predicate FirstConnectiveAt(t: string, k: nat)
  {
    && (OccursAt(t, " and ", k) || OccursAt(t, " or ", k))
    && forall j :: 0 <= j < k ==> !OccursAt(t, " and ", j) && !OccursAt(t, " or ", j)
  }

  /**
   * The right operand is cut at the first position where " and " or " or "
   * starts, and trimmed; without either it is kept whole.
   */
  lemma FirstOperandCut(t: string)
    ensures (forall k :: 0 <= k < |t| ==> !OccursAt(t, " and ", k) && !OccursAt(t, " or ", k)) ==> FirstOperand(t) == t
    ensures forall k :: 0 <= k < |t| && FirstConnectiveAt(t, k) ==> FirstOperand(t) == Trim(t[..k])
  {
    var condAnd := IndexOf(t, " and ", 0);
    var condOr := IndexOf(t, " or ", 0);
    forall k | 0 <= k < |t| && FirstConnectiveAt(t, k)
      ensures FirstOperand(t) == Trim(t[..k])
    {
      if OccursAt(t, " and ", k) {
        assert condAnd == k;
        assert t[k + 1] == t[k..k + 5][1] == 'a';
        assert !OccursAt(t, " or ", k) by {
          assert t[k..k + 4][1] == 'a' != " or "[1];
        }
        assert condOr == -1 || condOr > k;
      } else {
        assert condOr == k;
        assert condAnd == -1 || condAnd > k;
      }
    }
  }

  /**
   * The comparison of two trimmed operands: as times in seconds when at least
   * one side is a valid time and both yield a number of seconds, and otherwise
   * as calculated numbers.
   */
  function CompareOperands(c: Capabilities, compare: Compare, t1: string, t2: string): bool
  {
    var r1 := ParseTime(c, TimeCapture(t1, TIME_CAPTURE_MAX));
    var r2 := ParseTime(c, TimeCapture(t2, TIME_CAPTURE_MAX));
    if (r1.valid || r2.valid) && r1.seconds != -1 && r2.seconds != -1 then IntCompare(compare, r1.seconds, r2.seconds)
    else c.numericCompare(compare, Balanced(t1), Balanced(FirstOperand(t2)))
  }

  /** `conditionMatch(check)` as a value. */
  function ConditionValue(c: Capabilities, check: string): bool
  {
    match c.findCompareCondition(check)
    case None => false
    case Some(split) =>
      CompareOperands(c, split.compare, Trim(Substring(check, 0, split.posStart)), Trim(SubstringFrom(check, split.posEnd)))
  }

  /** `conditionMatch(check)`. */
  method ConditionMatch(c: Capabilities, check: string) returns (result: bool)
    ensures result == ConditionValue(c, check)
  {
    var found := c.findCompareCondition(check);
    if found.None? {
      return false;
    }
    var split := found.value;
    var tmpCheck1 := Trim(Substring(check, 0, split.posStart));
    var tmpCheck2 := Trim(SubstringFrom(check, split.posEnd));
    var validTime1, timeInSec1, _ := TimeStringToSeconds(c, tmpCheck1);
    var validTime2, timeInSec2, _ := TimeStringToSeconds(c, tmpCheck2);
    if (validTime1 || validTime2) && timeInSec1 != -1 && timeInSec2 != -1 {
      result := IntCompare(split.compare, timeInSec1, timeInSec2);
    } else {
      result := CompareNumerically(c, split.compare, tmpCheck1, tmpCheck2);
    }
  }

  /**
   * The numeric branch of `conditionMatch`: cut the right operand at its first
   * " and "/" or ", balance the parentheses of both and compare the calculated values.
   */
  method CompareNumerically(c: Capabilities, compare: Compare, tmpCheck1: string, tmpCheck2: string) returns (result: bool)
    ensures result == c.numericCompare(compare, Balanced(tmpCheck1), Balanced(FirstOperand(tmpCheck2)))
  {
    var right := tmpCheck2;
    var condAnd := IndexOf(right, " and ", 0);
    var condOr := IndexOf(right, " or ", 0);
    if condAnd > -1 || condOr > -1 {
      if condAnd > -1 && (condOr == -1 || condAnd < condOr) {
        right := Substring(right, 0, condAnd);
      } else if condOr > -1 {
        right := Substring(right, 0, condOr);
      }
      right := Trim(right);
    }
    var left, added1, added2;
    left, added1 := BalanceParentheses(tmpCheck1);
    right, added2 := BalanceParentheses(right);
    result := c.numericCompare(compare, left, right);
  }

  /** Every character of a field is a digit, hence a time character. */
  lemma FieldChars(ts: string, from: nat, to: nat)
    requires FieldAt(ts, from, to)
    ensures forall k :: from <= k < to ==> IsTimeChar(ts[k])
  {
    forall k | from <= k < to ensures IsTimeChar(ts[k]) {
      assert ts[k] == ts[from..to][k - from];
    }
  }

  /** A short operand made only of digits and ':' is captured whole. */
  lemma CaptureAll(t: string)
    requires |t| <= TIME_CAPTURE_MAX && forall k :: 0 <= k < |t| ==> IsTimeChar(t[k])
    ensures TimeCapture(t, TIME_CAPTURE_MAX) == t
  {
    TimeCaptureUnique(t, TIME_CAPTURE_MAX, |t|);
    assert t[..|t|] == t;
  }

  /** A `HH:MM` operand of at most eight characters is captured whole. */
  lemma CaptureClock(t: string, i: nat)
    requires |t| <= TIME_CAPTURE_MAX && FieldAt(t, 0, i) && FieldAt(t, i + 1, |t|)
    ensures TimeCapture(t, TIME_CAPTURE_MAX) == t
  {
    FieldChars(t, 0, i);
    FieldChars(t, i + 1, |t|);
    assert forall k :: 0 <= k < |t| ==> IsTimeChar(t[k]) by {
      forall k | 0 <= k < |t| ensures IsTimeChar(t[k]) {
        if k == i { assert t[k] == ':'; }
      }
    }
    CaptureAll(t);
  }

  /** A bare number of at most eight digits is captured whole. */
  lemma CaptureNumber(t: string)
    requires |t| <= TIME_CAPTURE_MAX && FieldAt(t, 0, |t|)
    ensures TimeCapture(t, TIME_CAPTURE_MAX) == t
  {
    FieldChars(t, 0, |t|);
    CaptureAll(t);
  }

  /** The two branches of `conditionMatch`, once both operands have been read as times. */
  lemma CompareAsTimes(c: Capabilities, compare: Compare, t1: string, t2: string, r1: TimeResult, r2: TimeResult)
    requires TimeCapture(t1, TIME_CAPTURE_MAX) == t1 && ParseTime(c, t1) == r1
    requires TimeCapture(t2, TIME_CAPTURE_MAX) == t2 && ParseTime(c, t2) == r2
    ensures (r1.valid || r2.valid) && r1.seconds != -1 && r2.seconds != -1 ==>
      CompareOperands(c, compare, t1, t2) == IntCompare(compare, r1.seconds, r2.seconds)
    ensures !(r1.valid || r2.valid) ==>
      CompareOperands(c, compare, t1, t2) == c.numericCompare(compare, Balanced(t1), Balanced(FirstOperand(t2)))
  {
  }

  /** Two clock times compare as numbers of seconds. */
  lemma ClockTimesCompareAsSeconds(c: Capabilities, compare: Compare, t1: string, i: nat, h1: int, m1: int,
                                   t2: string, j: nat, h2: int, m2: int)
    requires |t1| <= TIME_CAPTURE_MAX && FieldAt(t1, 0, i) && FieldAt(t1, i + 1, |t1|)
    requires c.validInt(t1[0..i]) == Some(h1) && c.validInt(t1[i + 1..|t1|]) == Some(m1)
    requires |t2| <= TIME_CAPTURE_MAX && FieldAt(t2, 0, j) && FieldAt(t2, j + 1, |t2|)
    requires c.validInt(t2[0..j]) == Some(h2) && c.validInt(t2[j + 1..|t2|]) == Some(m2)
    requires 0 <= h1 <= 24 && 0 <= m1 <= 59 && 0 <= h2 <= 24 && 0 <= m2 <= 59
    ensures CompareOperands(c, compare, t1, t2) == IntCompare(compare, h1 * 3600 + m1 * 60, h2 * 3600 + m2 * 60)
  {
    CaptureClock(t1, i);
    CaptureClock(t2, j);
    HoursMinutes(c, t1, i, h1, m1);
    HoursMinutes(c, t2, j, h2, m2);
    CompareAsTimes(c, compare, t1, t2, ParseTime(c, t1), ParseTime(c, t2));
  }

  /** A clock time against a bare hour within 0..24 still compares as seconds. */
  lemma ClockTimeAgainstHour(c: Capabilities, compare: Compare, t1: string, i: nat, h1: int, m1: int, t2: string, h2: int)
    requires |t1| <= TIME_CAPTURE_MAX && FieldAt(t1, 0, i) && FieldAt(t1, i + 1, |t1|)
    requires c.validInt(t1[0..i]) == Some(h1) && c.validInt(t1[i + 1..|t1|]) == Some(m1)
    requires |t2| <= TIME_CAPTURE_MAX && FieldAt(t2, 0, |t2|) && c.validInt(t2[0..|t2|]) == Some(h2)
    requires 0 <= h1 <= 24 && 0 <= m1 <= 59 && 0 <= h2 <= 24
    ensures CompareOperands(c, compare, t1, t2) == IntCompare(compare, h1 * 3600 + m1 * 60, h2 * 3600)
  {
    CaptureClock(t1, i);
    CaptureNumber(t2);
    HoursMinutes(c, t1, i, h1, m1);
    BareHour(c, t2, h2);
    CompareAsTimes(c, compare, t1, t2, ParseTime(c, t1), ParseTime(c, t2));
  }

  /** Two bare numbers are never times: they go to the numeric comparison. */
  lemma NumbersCompareNumerically(c: Capabilities, compare: Compare, a: string, b: string)
    requires |a| <= TIME_CAPTURE_MAX && FieldAt(a, 0, |a|) && c.validInt(a[0..|a|]).Some?
    requires |b| <= TIME_CAPTURE_MAX && FieldAt(b, 0, |b|) && c.validInt(b[0..|b|]).Some?
    ensures CompareOperands(c, compare, a, b) == c.numericCompare(compare, Balanced(a), Balanced(FirstOperand(b)))
  {
    CaptureNumber(a);
    CaptureNumber(b);
    BareHour(c, a, c.validInt(a[0..|a|]).value);
    BareHour(c, b, c.validInt(b[0..|b|]).value);
    CompareAsTimes(c, compare, a, b, ParseTime(c, a), ParseTime(c, b));
  }

  // ---------------------------------------------------------------------------
  // conditionMatchExtended
  // ---------------------------------------------------------------------------

  /**
   * The fold `conditionMatchExtended` performs: from the accumulated value `left`,
   * repeatedly take whichever of " and "/" or " comes first, drop everything up to
   * and including it, and combine the condition of the remainder into `left`.
   */
  function Fold(c: Capabilities, left: bool, check: string): bool
    decreases |check|
  {
    var condAnd := IndexOf(check, " and ", 0);
    var condOr := IndexOf(check, " or ", 0);
    if condAnd > 0 || condOr > 0 then
      if condAnd > 0 && (condOr < 0 || (condOr > 0 && condOr > condAnd)) then
        var rest := SubstringFrom(check, condAnd + 5);
        Fold(c, left && ConditionValue(c, rest), rest)
      else
        var rest := SubstringFrom(check, condOr + 4);
        Fold(c, left || ConditionValue(c, rest), rest)
    else left
  }

  /** `conditionMatchExtended(check)` as a value. */
  function ExtendedValue(c: Capabilities, check: string): bool
  {
    Fold(c, ConditionValue(c, check), check)
  }

  /** `conditionMatchExtended(check)`. */
  method ConditionMatchExtended(c: Capabilities, check0: string) returns (leftcond: bool)
    ensures leftcond == ExtendedValue(c, check0)
  {
    var check := check0;
    leftcond := ConditionMatch(c, check);
    var condAnd := IndexOf(check, " and ", 0);
    var condOr := IndexOf(check, " or ", 0);
    while condAnd > 0 || condOr > 0
      invariant condAnd == IndexOf(check, " and ", 0) && condOr == IndexOf(check, " or ", 0)
      invariant Fold(c, leftcond, check) == ExtendedValue(c, check0)
      decreases |check|
    {
      if condAnd > 0 && (condOr < 0 || (condOr > 0 && condOr > condAnd)) {
        check := SubstringFrom(check, condAnd + 5);
        var rightcond := ConditionMatch(c, check);
        leftcond := leftcond && rightcond;
      } else {
        check := SubstringFrom(check, condOr + 4);
        var rightcond := ConditionMatch(c, check);
        leftcond := leftcond || rightcond;
      }
      condAnd := IndexOf(check, " and ", 0);
      condOr := IndexOf(check, " or ", 0);
    }
  }

  /** A suffix of a string whose `pat` never occurs has no occurrence either. */
  lemma AbsentInSuffix(s: string, pat: string, from: nat)
    requires from <= |s| && IndexOf(s, pat, 0) == -1
    ensures IndexOf(s[from..], pat, 0) == -1
  {
    var t := s[from..];
    var r := IndexOf(t, pat, 0);
    if r >= 0 {
      assert t[r..r + |pat|] == s[from + r..from + r + |pat|];
      assert OccursAt(s, pat, from + r);
    }
  }

  /** Without any " or ", a condition that is false at some step stays false: only conjunctions follow. */
  lemma {:induction false} FalseStaysFalseWithoutOr(c: Capabilities, check: string)
    requires IndexOf(check, " or ", 0) == -1
    ensures Fold(c, false, check) == false
    decreases |check|
  {
    var condAnd := IndexOf(check, " and ", 0);
    if condAnd > 0 {
      AbsentInSuffix(check, " or ", condAnd + 5);
      FalseStaysFalseWithoutOr(c, SubstringFrom(check, condAnd + 5));
    }
  }

  /** Without any " and ", a condition that is true at some step stays true: only disjunctions follow. */
  lemma {:induction false} TrueStaysTrueWithoutAnd(c: Capabilities, check: string)
    requires IndexOf(check, " and ", 0) == -1
    ensures Fold(c, true, check) == true
    decreases |check|
  {
    var condOr := IndexOf(check, " or ", 0);
    if condOr > 0 {
      AbsentInSuffix(check, " and ", condOr + 4);
      TrueStaysTrueWithoutAnd(c, SubstringFrom(check, condOr + 4));
    }
  }

  /**
   * No precedence of `and` over `or`: "a or b and c" is evaluated as
   * (a-or-b) and c, where each operand is the condition of the remaining text.
   */
  lemma LeftToRightExample(c: Capabilities)
    ensures ExtendedValue(c, "x or y and z") ==
      ((ConditionValue(c, "x or y and z") || ConditionValue(c, "y and z")) && ConditionValue(c, "z"))
  {
    ExampleFirstStep();
    ExampleSecondStep();
    ExampleLastStep();
    var s := "x or y and z";
    assert SubstringFrom(s, 5) == "y and z";
    assert SubstringFrom("y and z", 6) == "z";
  }

  lemma ExampleFirstStep()
    ensures IndexOf("x or y and z", " or ", 0) == 1
    ensures IndexOf("x or y and z", " and ", 0) == 6
  {
    var s := "x or y and z";
    assert OccursAt(s, " or ", 1) && OccursAt(s, " and ", 6);
    NotAt(s, " or ", 0, 0);
    NotAt(s, " and ", 0, 0);
    NotAt(s, " and ", 1, 1);
    NotAt(s, " and ", 2, 0);
    NotAt(s, " and ", 3, 0);
    NotAt(s, " and ", 4, 1);
    NotAt(s, " and ", 5, 0);
  }

  lemma ExampleSecondStep()
    ensures IndexOf("y and z", " and ", 0) == 1
    ensures IndexOf("y and z", " or ", 0) == -1
  {
    var r := "y and z";
    assert OccursAt(r, " and ", 1);
    NotAt(r, " and ", 0, 0);
    NotAt(r, " or ", 0, 0);
    NotAt(r, " or ", 1, 1);
    NotAt(r, " or ", 2, 0);
    assert forall k :: 3 <= k ==> !OccursAt(r, " or ", k);
  }

  lemma ExampleLastStep()
    ensures IndexOf("z", " and ", 0) == -1 && IndexOf("z", " or ", 0) == -1
  {
  }

  lemma NotAt(s: string, pat: string, k: nat, j: nat)
    requires j < |pat| && k + j < |s| && s[k + j] != pat[j]
    ensures !OccursAt(s, pat, k)
  {
    assert k + |pat| <= |s| ==> s[k..k + |pat|][j] == s[k + j];
  }
}
