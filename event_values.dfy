/**
 * Substitution of `%eventvalue%` and `%eventvalue1%` … `%eventvalue4%` in a
 * rules line by the comma-separated values that follow '=' in the event, and of
 * `%eventvalue%` by the whole event when the event starts with '!'.
 */
module EventValues {
  import opened Wrappers
  import opened ArduinoString
  import opened Collaborators

  const MARKER: string := "%eventvalue"

  /** The placeholder for argument `argc`: `%eventvalue%` for 0, `%eventvalueN%` otherwise. */
  function EventValueName(argc: nat): (r: string)
    ensures MARKER <= r && r[|r| - 1] == '%'
  {
    MARKER + (if argc == 0 then "" else NatToString(argc)) + "%"
  }

  /** The placeholders of the first two arguments are spelled `%eventvalue%` and `%eventvalue1%`. */
  lemma PlaceholderSpelling()
    ensures EventValueName(0) == "%eventvalue%" && EventValueName(1) == "%eventvalue1%"
  {
    assert NatToString(1) == "1";
  }

  /** Different arguments have different placeholders. */
  lemma PlaceholdersDistinct(a: nat, b: nat)
    requires a != b
    ensures EventValueName(a) != EventValueName(b)
  {
    if EventValueName(a) == EventValueName(b) {
      var n := |MARKER|;
      if a != 0 && b != 0 {
        assert EventValueName(a)[n..|EventValueName(a)| - 1] == NatToString(a);
        assert EventValueName(b)[n..|EventValueName(b)| - 1] == NatToString(b);
        DecimalRoundTrip(a);
        DecimalRoundTrip(b);
      }
    }
  }

  /** `%eventvalue%` is an older spelling of `%eventvalue1%`: both read the first argument. */
  function ArgumentNumber(argc: nat): (n: nat)
    ensures n >= 1 && (argc > 0 ==> n == argc)
  {
    if argc == 0 then 1 else argc
  }

  /** `replace_EventValueN_Argv(line, argString, argc)`. */
  function ReplaceEventValueN(c: Capabilities, line: string, argString: string, argc: nat): (r: string)
    ensures c.getArgv(argString, ArgumentNumber(argc)).None? ==> r == line
    ensures c.getArgv(argString, ArgumentNumber(argc)).Some? ==>
      r == ReplaceAll(line, EventValueName(argc), c.getArgv(argString, ArgumentNumber(argc)).value)
  {
    match c.getArgv(argString, ArgumentNumber(argc))
    case Some(param) => ReplaceAll(line, EventValueName(argc), param)
    case None => line
  }

  /** The line after `replace_EventValueN_Argv` for argc = 0, 1, …, n - 1 in turn. */
  function ReplaceFirstN(c: Capabilities, line: string, argString: string, n: nat): string
  {
    if n == 0 then line else ReplaceEventValueN(c, ReplaceFirstN(c, line, argString, n - 1), argString, n - 1)
  }

  /** The line after the optional callback hook. */
  function AfterCallback(c: Capabilities, line: string, event: string): string
  {
    match c.eventValueCallback
    case Some(f) => f(line, event)
    case None => line
  }

  /** The line `substitute_eventvalue(line, event)` leaves. */
  function SubstitutedLine(c: Capabilities, line: string, event: string): (r: string)
    ensures IndexOf(AfterCallback(c, line, event), MARKER, 0) == -1 ==> r == AfterCallback(c, line, event)
    ensures CharAt(event, 0) != '!' && IndexOfChar(event, '=', 0) <= 0 ==> r == AfterCallback(c, line, event)
    ensures IndexOf(AfterCallback(c, line, event), MARKER, 0) != -1 && CharAt(event, 0) == '!' ==>
      r == ReplaceAll(AfterCallback(c, line, event), EventValueName(0), event)
    ensures IndexOf(AfterCallback(c, line, event), MARKER, 0) != -1 && CharAt(event, 0) != '!' && IndexOfChar(event, '=', 0) > 0 ==>
      r == ReplaceFirstN(c, AfterCallback(c, line, event), event[IndexOfChar(event, '=', 0) + 1..], 5)
  {
    var l := AfterCallback(c, line, event);
    if IndexOf(l, MARKER, 0) == -1 then l
    else if CharAt(event, 0) == '!' then ReplaceAll(l, EventValueName(0), event)
    else
      var equalsPos := IndexOfChar(event, '=', 0);
      if equalsPos > 0 then ReplaceFirstN(c, l, event[equalsPos + 1..], 5) else l
  }

  /** `substitute_eventvalue(line, event)`. */
  method SubstituteEventValue(c: Capabilities, line0: string, event: string) returns (line: string)
    ensures line == SubstitutedLine(c, line0, event)
  {
    line := line0;
    if c.eventValueCallback.Some? {
      line := c.eventValueCallback.value(line, event);
    }
    if IndexOf(line, MARKER, 0) != -1 {
      if CharAt(event, 0) == '!' {
        line := ReplaceAll(line, EventValueName(0), event);
      } else {
        var equalsPos := IndexOfChar(event, '=', 0);
        if equalsPos > 0 {
          var argString := event[equalsPos + 1..];
          ghost var start := line;
          for argc := 0 to 5
            invariant line == ReplaceFirstN(c, start, argString, argc)
          {
            line := ReplaceEventValueN(c, line, argString, argc);
          }
        }
      }
    }
  }

  /** `%eventvalue%` and `%eventvalue1%` are replaced by the same first argument. */
  lemma LegacyNameReadsFirstArgument(c: Capabilities, line: string, argString: string)
    ensures c.getArgv(argString, 1).Some? ==>
      && ReplaceEventValueN(c, line, argString, 0) == ReplaceAll(line, "%eventvalue%", c.getArgv(argString, 1).value)
      && ReplaceEventValueN(c, line, argString, 1) == ReplaceAll(line, "%eventvalue1%", c.getArgv(argString, 1).value)
  {
    PlaceholderSpelling();
    assert ArgumentNumber(0) == ArgumentNumber(1) == 1;
  }

  /** A line without any `%eventvalue` placeholder is left as it is by the argument loop. */
  lemma {:induction false} NoPlaceholderUnchanged(c: Capabilities, line: string, argString: string, n: nat)
    requires forall k :: 0 <= k < |line| ==> !OccursAt(line, MARKER, k)
    ensures ReplaceFirstN(c, line, argString, n) == line
  {
    if n > 0 {
      NoPlaceholderUnchanged(c, line, argString, n - 1);
      AbsentPrefixAbsent(line, MARKER, EventValueName(n - 1));
      ReplaceAllAbsent(line, EventValueName(n - 1), if c.getArgv(argString, ArgumentNumber(n - 1)).Some? then c.getArgv(argString, ArgumentNumber(n - 1)).value else "");
    }
  }
  /** Text between two '%' that holds none itself. */
  lemma PercentPairCount(mid: string)
    requires '%' !in mid
    ensures Count('%', "%" + mid + "%") == 2
  {
    CountAppend('%', "%" + mid, "%");
    CountAppend('%', "%", mid);
    CountZero('%', mid);
  }

  /** `%eventvalue%` and `%eventvalueN%` each hold two '%'. */
  lemma EventValueNameCount(argc: nat)
    ensures Count('%', EventValueName(argc)) == 2
  {
    var digits := if argc == 0 then "" else NatToString(argc);
    var mid := "eventvalue" + digits;
    assert '%' !in mid by {
      assert forall i :: 0 <= i < |digits| ==> IsDigit(digits[i]);
      assert forall i :: 0 <= i < |mid| ==> mid[i] != '%' by {
        forall i | 0 <= i < |mid| ensures mid[i] != '%' {
          if i >= 10 { assert mid[i] == digits[i - 10]; }
        }
      }
    }
    assert EventValueName(argc) == "%" + mid + "%";
    PercentPairCount(mid);
  }

  /** The argument holds no '%' (an absent argument replaces nothing). */
  predicate PercentFree(arg: Option<string>)
  {
    arg.None? || '%' !in arg.value
  }

  /**
   * With an argument free of '%', every placeholder the replacement of
   * argument `argc` substitutes takes its two '%' out of the line; so a line
   * holding the placeholder loses at least two.
   */
  lemma ReplaceEventValueNCount(c: Capabilities, line: string, argString: string, argc: nat)
    requires c.getArgv(argString, ArgumentNumber(argc)).Some? && PercentFree(c.getArgv(argString, ArgumentNumber(argc)))
    ensures Count('%', ReplaceEventValueN(c, line, argString, argc)) + 2 * Occurrences(line, EventValueName(argc)) == Count('%', line)
    ensures forall k :: OccursAt(line, EventValueName(argc), k) ==> Count('%', ReplaceEventValueN(c, line, argString, argc)) + 2 <= Count('%', line)
  {
    var arg := c.getArgv(argString, ArgumentNumber(argc)).value;
    EventValueNameCount(argc);
    CountZero('%', arg);
    ReplaceAllCount('%', line, EventValueName(argc), arg);
    var n := Occurrences(line, EventValueName(argc));
    assert n * Count('%', EventValueName(argc)) == 2 * n && n * Count('%', arg) == 0;
    forall k | OccursAt(line, EventValueName(argc), k)
      ensures Count('%', ReplaceEventValueN(c, line, argString, argc)) + 2 <= Count('%', line)
    {
      OccursMeansReplaced(line, EventValueName(argc), k);
    }
  }

  /**
   * `String::replace` does not rescan what it has produced: a placeholder can
   * be formed anew from a substituted value and the text after it, here
   * `%eventvalue` + `1%`.
   */
  lemma PlaceholderCanReappear(c: Capabilities, argString: string)
    requires c.getArgv(argString, 1) == Some("%eventvalue")
    ensures ReplaceEventValueN(c, "%eventvalue1%1%", argString, 1) == "%eventvalue1%"
  {
    assert NatToString(1) == "1";
    var pat, tail := EventValueName(1), "1%";
    assert pat == "%eventvalue1%";
    assert pat + tail == "%eventvalue1%1%";
    assert ReplaceAll(tail, pat, "%eventvalue") == tail by {
      assert !(pat <= tail) && !(pat <= tail[1..]);
    }
    assert ReplaceAll(pat + tail, pat, "%eventvalue") == "%eventvalue" + tail by {
      assert (pat + tail)[|pat|..] == tail;
    }
  }

  /** The number of placeholders the argument loop substitutes in its first `n` rounds. */
  function Substituted(c: Capabilities, line: string, argString: string, n: nat): nat
  {
    if n == 0 then 0
    else
      var here := if c.getArgv(argString, ArgumentNumber(n - 1)).Some?
        then Occurrences(ReplaceFirstN(c, line, argString, n - 1), EventValueName(n - 1)) else 0;
      Substituted(c, line, argString, n - 1) + here
  }

  /** With arguments free of '%', each substituted placeholder takes two '%' out of the line. */
  lemma {:induction false} ReplaceFirstNCount(c: Capabilities, line: string, argString: string, n: nat)
    requires forall i :: 0 <= i < n ==> PercentFree(c.getArgv(argString, ArgumentNumber(i)))
    ensures Count('%', ReplaceFirstN(c, line, argString, n)) + 2 * Substituted(c, line, argString, n) == Count('%', line)
  {
    if n > 0 {
      ReplaceFirstNCount(c, line, argString, n - 1);
      var prev := ReplaceFirstN(c, line, argString, n - 1);
      if c.getArgv(argString, ArgumentNumber(n - 1)).Some? {
        ReplaceEventValueNCount(c, prev, argString, n - 1);
      }
    }
  }

  /** Each round can only add to the number of substituted placeholders. */
  lemma {:induction false} SubstitutedGrows(c: Capabilities, line: string, argString: string, m: nat, n: nat)
    requires m <= n
    ensures Substituted(c, line, argString, m) <= Substituted(c, line, argString, n)
    decreases n
  {
    if m < n {
      SubstitutedGrows(c, line, argString, m, n - 1);
    }
  }

  /**
   * `substitute_eventvalue` for an event `name=values` whose values hold no '%':
   * every placeholder substituted removes its two '%', and when the first value
   * is present a `%eventvalue%` in the line is always substituted.
   */
  lemma ValueEventConsumesPlaceholders(c: Capabilities, line: string, event: string)
    requires IndexOf(AfterCallback(c, line, event), MARKER, 0) != -1 && CharAt(event, 0) != '!' && IndexOfChar(event, '=', 0) > 0
    requires forall i :: 0 <= i < 5 ==> PercentFree(c.getArgv(event[IndexOfChar(event, '=', 0) + 1..], ArgumentNumber(i)))
    ensures var l, args := AfterCallback(c, line, event), event[IndexOfChar(event, '=', 0) + 1..];
      Count('%', SubstitutedLine(c, line, event)) + 2 * Substituted(c, l, args, 5) == Count('%', l)
    ensures var l, args := AfterCallback(c, line, event), event[IndexOfChar(event, '=', 0) + 1..];
      c.getArgv(args, 1).Some? ==>
        forall k :: OccursAt(l, EventValueName(0), k) ==> Count('%', SubstitutedLine(c, line, event)) + 2 <= Count('%', l)
  {
    var l, args := AfterCallback(c, line, event), event[IndexOfChar(event, '=', 0) + 1..];
    ReplaceFirstNCount(c, l, args, 5);
    SubstitutedGrows(c, l, args, 1, 5);
    assert ArgumentNumber(0) == 1;
    forall k | c.getArgv(args, 1).Some? && OccursAt(l, EventValueName(0), k)
      ensures Count('%', SubstitutedLine(c, line, event)) + 2 <= Count('%', l)
    {
      OccursMeansReplaced(l, EventValueName(0), k);
      assert Substituted(c, l, args, 1) == Occurrences(l, EventValueName(0));
    }
  }

  /** For an event starting with '!' and holding no '%', each `%eventvalue%` gives up its two '%'. */
  lemma BangEventConsumesPlaceholders(c: Capabilities, line: string, event: string)
    requires IndexOf(AfterCallback(c, line, event), MARKER, 0) != -1 && CharAt(event, 0) == '!' && '%' !in event
    ensures var l := AfterCallback(c, line, event);
      Count('%', SubstitutedLine(c, line, event)) + 2 * Occurrences(l, EventValueName(0)) == Count('%', l)
  {
    var l, pat := AfterCallback(c, line, event), EventValueName(0);
    EventValueNameCount(0);
    CountZero('%', event);
    ReplaceAllCount('%', l, pat, event);
    var n := Occurrences(l, pat);
    assert n * Count('%', pat) == 2 * n && n * Count('%', event) == 0;
    assert SubstitutedLine(c, line, event) == ReplaceAll(l, pat, event);
  }
}
