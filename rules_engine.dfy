/**
 * The rules interpreter's line-at-a-time state machine: `on <trigger> do … endon`
 * blocks, `if`/`elseif`/`else`/`endif` nesting kept in two bounded arrays plus
 * the counters `ifBlock` and `fakeIfBlock`, and the read loop of
 * `rulesProcessingFile` with its re-entrancy guard.
 *
 * Each state-changing routine is a method of `BlockState` whose postcondition
 * ties the new state to a pure step function on `Frame` snapshots; the
 * properties of the machine are lemmas about those step functions.
 */
module RulesEngine {
  import opened Wrappers
  import opened ArduinoString
  import opened Collaborators
  import opened EventValues
  import opened Conditions

  /** `fakeIfBlock` is a `uint8_t`: incrementing it wraps modulo 256. */
  const FAKE_LEVELS: nat := 256

  /**
   * The state threaded through the lines of one rules file: the flags, the
   * contents of `condition[]` and `ifBranche[]`, and both counters.
   */
  datatype Frame = Frame(matched: bool, codeBlock: bool, isCommand: bool,
                         condition: seq<bool>, ifBranche: seq<bool>,
                         ifBlock: nat, fakeIfBlock: nat)

  /** Both arrays hold `maxIf` levels, at most `maxIf` are in use, and the byte counter fits. */
  predicate FrameOk(f: Frame, maxIf: nat)
  {
    |f.condition| == maxIf && |f.ifBranche| == maxIf && f.ifBlock <= maxIf && f.fakeIfBlock < FAKE_LEVELS
  }

  // ---------------------------------------------------------------------------
  // parseCompleteNonCommentLine
  // ---------------------------------------------------------------------------

  /** What `parseCompleteNonCommentLine` hands back: the action and the new state. */
  datatype Parsed = Parsed(action: string, frame: Frame)

  /** The first three characters read "on " in any case. */
  predicate StartsWithOn(line: string)
  {
    EqualsIgnoreCase(Substring(line, 0, 3), "on ")
  }

  /**
   * The line after event values are substituted (inside a matched block that is
   * not in a skipped `if` level) and templates are expanded (inside a matched
   * block, or on an `on` line read outside a block).
   */
  function ExpandedLine(c: Capabilities, line: string, event: string, f: Frame): string
  {
    var substituted := if f.matched && f.fakeIfBlock == 0 then SubstitutedLine(c, line, event) else line;
    if f.matched || (!f.codeBlock && StartsWithOn(line)) then c.parseTemplate(substituted) else substituted
  }

  /**
   * An `on <trigger> do <action>` line: the trigger sits between "on " and the
   * first " do" from position 3 of the lower-cased line, the action follows it
   * in the original case.
   */
  function OnLine(c: Capabilities, line: string, event: string, f: Frame): (p: Parsed)
    ensures p.frame.ifBlock == 0 && p.frame.fakeIfBlock == 0
    ensures p.frame.codeBlock <==> p.action == ""
    ensures p.frame.isCommand <==> p.action != ""
    ensures p.frame.condition == f.condition && p.frame.ifBranche == f.ifBranche
  {
    var action := OnAction(line);
    Parsed(action, f.(matched := OnMatches(c, line, event), ifBlock := 0, fakeIfBlock := 0,
                      isCommand := |action| > 0, codeBlock := |action| == 0))
  }

  /** The action of an `on` line: what follows " do " in the original case, trimmed. */
  function OnAction(line: string): (action: string)
    ensures IndexOf(ToLower(line), " do", 3) == -1 ==> action == ""
  {
    var split := IndexOf(ToLower(line), " do", 3);
    if split != -1 then Trim(SubstringFrom(line, split + 4)) else ""
  }

  /** Whether an `on` line's trigger, between "on " and " do", matches the event. */
  function OnMatches(c: Capabilities, line: string, event: string): (m: bool)
    ensures IndexOf(ToLower(line), " do", 3) == -1 ==> !m
  {
    var lower := ToLower(line);
    var split := IndexOf(lower, " do", 3);
    split != -1 && c.ruleMatch(event, Trim(Substring(lower, 3, split)))
  }

  /** The trigger test and action extraction of an `on` line, as `parseCompleteNonCommentLine` does them. */
  method SplitOnLine(c: Capabilities, lineOrg: string, event: string) returns (found: bool, action: string)
    ensures found == OnMatches(c, lineOrg, event) && action == OnAction(lineOrg)
    ensures IndexOf(ToLower(lineOrg), " do", 3) == -1 ==> !found && action == ""
  {
    var line := ToLower(lineOrg);
    var split := IndexOf(line, " do", 3);
    found, action := false, "";
    if split != -1 {
      var eventTrigger := Trim(Substring(line, 3, split));
      action := Trim(SubstringFrom(lineOrg, split + 4));
      found := c.ruleMatch(event, eventTrigger);
    }
  }

  /** `parseCompleteNonCommentLine(line, event, action, match, codeBlock, …)`. */
  function ParseLine(c: Capabilities, line: string, event: string, f: Frame): (p: Parsed)
    ensures p.frame.condition == f.condition && p.frame.ifBranche == f.ifBranche
    ensures p.frame.ifBlock <= f.ifBlock && p.frame.fakeIfBlock <= f.fakeIfBlock
  {
    if |line| == 0 then Parsed("", f)
    else if !f.codeBlock && !f.matched && !StartsWithOn(line) then Parsed("", f)
    else if EqualsIgnoreCase(line, "endon") then
      Parsed("", f.(isCommand := false, codeBlock := false, matched := false, ifBlock := 0, fakeIfBlock := 0))
    else
      var expanded := ExpandedLine(c, line, event, f);
      var g := f.(isCommand := true);
      if f.codeBlock then Parsed(expanded, g)
      else if StartsWithOn(line) then OnLine(c, expanded, event, g)
      else Parsed("", g)
  }

  // ---------------------------------------------------------------------------
  // processMatchedRule
  // ---------------------------------------------------------------------------

  /** What `processMatchedRule` leaves: the new state and the command it executes, if any. */
  datatype Step = Step(frame: Frame, command: Option<string>)

  /**
   * A line may run: it is a command, no skipped `if` level is open, and the
   * innermost real level (if any) is in the branch its condition selects.
   */
  predicate Enabled(f: Frame)
    requires |f.condition| >= f.ifBlock && |f.ifBranche| >= f.ifBlock
  {
    f.isCommand && f.fakeIfBlock == 0 && (f.ifBlock == 0 || f.condition[f.ifBlock - 1] == f.ifBranche[f.ifBlock - 1])
  }

  /** The line opens, switches or closes a conditional level rather than being a command. */
  predicate IsControl(lcAction: string)
  {
    IndexOf(lcAction, "elseif ", 0) != -1 || IndexOf(lcAction, "if ", 0) != -1 || lcAction == "else" || lcAction == "endif"
  }

  /**
   * An `elseif ` line (found at `split`) in an open real level: if the taken
   * branch already ran the level is switched off, otherwise its condition is
   * re-evaluated from the text after "elseif ".
   */
  function ElseifStep(c: Capabilities, lcAction: string, split: nat, f: Frame): (g: Frame)
    requires |f.condition| >= f.ifBlock && |f.ifBranche| >= f.ifBlock
    ensures |g.condition| == |f.condition| && |g.ifBranche| == |f.ifBranche|
    ensures g.ifBlock == f.ifBlock && g.fakeIfBlock == f.fakeIfBlock && !g.isCommand
  {
    var g := f.(isCommand := false);
    if f.ifBlock > 0 && f.fakeIfBlock == 0 && f.ifBranche[f.ifBlock - 1] then
      if f.condition[f.ifBlock - 1] then g.(ifBranche := f.ifBranche[f.ifBlock - 1 := false])
      else g.(condition := f.condition[f.ifBlock - 1 := ExtendedValue(c, Trim(SubstringFrom(lcAction, split + 7)))])
    else g
  }

  /**
   * An `if ` line (found at `split`): an enabled line with a free level pushes
   * it in its `true` branch with the condition after "if "; otherwise a skipped
   * level is opened.
   */
  function IfStep(c: Capabilities, lcAction: string, split: nat, f: Frame, maxIf: nat): (g: Frame)
    requires FrameOk(f, maxIf)
    ensures FrameOk(g, maxIf) && !g.isCommand
  {
    if f.ifBlock < maxIf && f.isCommand then
      f.(ifBlock := f.ifBlock + 1,
         condition := f.condition[f.ifBlock := ExtendedValue(c, Trim(SubstringFrom(lcAction, split + 3)))],
         ifBranche := f.ifBranche[f.ifBlock := true],
         isCommand := false)
    else f.(fakeIfBlock := (f.fakeIfBlock + 1) % FAKE_LEVELS, isCommand := false)
  }

  /** The `elseif ` and `if ` handling of `processMatchedRule`: `elseif ` is looked for first. */
  function ConditionalStep(c: Capabilities, lcAction: string, f: Frame, maxIf: nat): (g: Frame)
    requires FrameOk(f, maxIf)
    ensures FrameOk(g, maxIf)
  {
    var split := IndexOf(lcAction, "elseif ", 0);
    if split != -1 then ElseifStep(c, lcAction, split, f)
    else
      var split := IndexOf(lcAction, "if ", 0);
      if split != -1 then IfStep(c, lcAction, split, f, maxIf) else f
  }

  /**
   * The `else` handling: the innermost real level switches to its other branch.
   * At the top level there is no level to switch and the line is only kept from
   * executing (see `ElseStepAsWritten`).
   */
  function ElseStep(lcAction: string, f: Frame): (g: Frame)
    requires f.ifBlock <= |f.ifBranche|
    ensures |g.ifBranche| == |f.ifBranche|
  {
    if lcAction == "else" && f.fakeIfBlock == 0 then
      f.(ifBranche := if f.ifBlock > 0 then f.ifBranche[f.ifBlock - 1 := false] else f.ifBranche,
         isCommand := false)
    else f
  }

  /**
   * The `else` handling as the firmware writes it: it stores into
   * `ifBranche[ifBlock - 1]` without checking that a level is open, so an
   * `else` outside any `if` writes before the start of the array.  `None`
   * stands for that out-of-bounds store.
   */
  function ElseStepAsWritten(lcAction: string, f: Frame): Option<Frame>
    requires f.ifBlock <= |f.ifBranche|
  {
    if lcAction == "else" && f.fakeIfBlock == 0 then
      if f.ifBlock - 1 < 0 then None
      else Some(f.(ifBranche := f.ifBranche[f.ifBlock - 1 := false], isCommand := false))
    else Some(f)
  }

  /** The `endif` handling: a skipped level is closed first, then a real one. */
  function EndifStep(lcAction: string, f: Frame): Frame
  {
    if lcAction == "endif" then
      if f.fakeIfBlock > 0 then f.(fakeIfBlock := f.fakeIfBlock - 1, isCommand := false)
      else if f.ifBlock > 0 then f.(ifBlock := f.ifBlock - 1, isCommand := false)
      else f.(isCommand := false)
    else f
  }

  /** `processMatchedRule(action, event, …)` with the corrected `else`. */
  function ProcessRule(c: Capabilities, action: string, event: string, f: Frame, maxIf: nat): (s: Step)
    requires FrameOk(f, maxIf)
    ensures FrameOk(s.frame, maxIf)
    ensures s.command.Some? ==> s.command.value == SubstitutedLine(c, action, event)
  {
    var lcAction := ToLower(action);
    var gated := f.(isCommand := Enabled(f));
    var g := EndifStep(lcAction, ElseStep(lcAction, ConditionalStep(c, lcAction, gated, maxIf)));
    Step(g, if g.isCommand then Some(SubstitutedLine(c, action, event)) else None)
  }

  // ---------------------------------------------------------------------------
  // Properties of the block machine
  // ---------------------------------------------------------------------------

  /** A pattern ending in a space never occurs in a string without spaces. */
  lemma NoSpaceNoMatch(s: string, pat: string)
    requires |pat| > 0 && pat[|pat| - 1] == ' ' && ' ' !in s
    ensures IndexOf(s, pat, 0) == -1
  {
    forall k | 0 <= k < |s|
      ensures !OccursAt(s, pat, k)
    {
      if k + |pat| <= |s| {
        assert s[k..k + |pat|][|pat| - 1] == s[k + |pat| - 1];
      }
    }
  }

  /** `else` and `endif` contain neither `if ` nor `elseif `. */
  lemma ElseEndifAreNoIf()
    ensures IndexOf("endif", "elseif ", 0) == -1 && IndexOf("endif", "if ", 0) == -1
    ensures IndexOf("else", "elseif ", 0) == -1 && IndexOf("else", "if ", 0) == -1
  {
    NoSpaceNoMatch("endif", "elseif ");
    NoSpaceNoMatch("endif", "if ");
    NoSpaceNoMatch("else", "elseif ");
    NoSpaceNoMatch("else", "if ");
  }

  /**
   * A whole-line `endon` closes the block: inside a block or a matched rule it
   * clears every flag and both counters; while searching for a block the line
   * is skipped and nothing was open anyway.
   */
  lemma EndonCloses(c: Capabilities, line: string, event: string, f: Frame)
    requires EqualsIgnoreCase(line, "endon")
    ensures var p := ParseLine(c, line, event, f);
      && p.action == "" && !p.frame.matched && !p.frame.codeBlock
      && (f.codeBlock || f.matched ==>
            p.frame == f.(isCommand := false, codeBlock := false, matched := false, ifBlock := 0, fakeIfBlock := 0))
  {
    assert ToLower(line)[0] == 'e';
  }

  /**
   * An `on` line read outside a block resets both counters; a non-empty action
   * after " do" makes it a single-line rule (a command, no block), an empty one
   * opens a block, and without " do" the rule does not match.
   */
  lemma OnLineOpensRuleOrBlock(c: Capabilities, line: string, event: string, f: Frame)
    requires !f.codeBlock && StartsWithOn(line)
    ensures var p := ParseLine(c, line, event, f);
      && p.frame.ifBlock == 0 && p.frame.fakeIfBlock == 0
      && (p.action != "" ==> !p.frame.codeBlock && p.frame.isCommand)
      && (p.action == "" ==> p.frame.codeBlock && !p.frame.isCommand)
      && (IndexOf(ToLower(ExpandedLine(c, line, event, f)), " do", 3) == -1 ==> !p.frame.matched && p.action == "")
  {
    assert |line| >= 3;
    assert ToLower(line)[0] == 'o';
  }

  /** While searching for a block, only an `on` line changes anything. */
  lemma SearchSkipsOtherLines(c: Capabilities, line: string, event: string, f: Frame)
    requires !f.codeBlock && !f.matched && !StartsWithOn(line)
    ensures ParseLine(c, line, event, f) == Parsed("", f)
  {
  }

  /**
   * Inside a block every line other than `endon` becomes the action, expanded
   * only when the block matched.
   */
  lemma BlockLineIsAction(c: Capabilities, line: string, event: string, f: Frame)
    requires f.codeBlock && |line| > 0 && !EqualsIgnoreCase(line, "endon")
    ensures ParseLine(c, line, event, f) == Parsed(ExpandedLine(c, line, event, f), f.(isCommand := true))
    ensures !f.matched ==> ExpandedLine(c, line, event, f) == line
  {
  }

  /** `if`, `elseif`, `else` and `endif` lines are never executed. */
  lemma ControlLinesNeverExecute(c: Capabilities, action: string, event: string, f: Frame, maxIf: nat)
    requires FrameOk(f, maxIf) && IsControl(ToLower(action))
    ensures ProcessRule(c, action, event, f, maxIf).command.None?
  {
    ElseEndifAreNoIf();
  }

  /**
   * Any other line executes exactly when it is enabled, leaves the levels
   * alone, and is executed with its event values substituted.
   */
  lemma OtherLinesRunWhenEnabled(c: Capabilities, action: string, event: string, f: Frame, maxIf: nat)
    requires FrameOk(f, maxIf) && !IsControl(ToLower(action))
    ensures var s := ProcessRule(c, action, event, f, maxIf);
      && (s.command.Some? <==> Enabled(f))
      && s.frame == f.(isCommand := Enabled(f))
  {
  }

  /**
   * An `if` line pushes a real level in its `true` branch only when a level is
   * free and the line itself is enabled; otherwise it opens a skipped level.
   */
  lemma IfPushesOrSkips(c: Capabilities, action: string, event: string, f: Frame, maxIf: nat)
    requires FrameOk(f, maxIf)
    requires IndexOf(ToLower(action), "elseif ", 0) == -1 && IndexOf(ToLower(action), "if ", 0) != -1
    ensures var s := ProcessRule(c, action, event, f, maxIf);
      var split := IndexOf(ToLower(action), "if ", 0);
      && s.command.None?
      && (Enabled(f) && f.ifBlock < maxIf ==>
            && s.frame.ifBlock == f.ifBlock + 1 && s.frame.fakeIfBlock == f.fakeIfBlock
            && s.frame.ifBranche == f.ifBranche[f.ifBlock := true]
            && s.frame.condition == f.condition[f.ifBlock := ExtendedValue(c, Trim(SubstringFrom(ToLower(action), split + 3)))])
      && (!(Enabled(f) && f.ifBlock < maxIf) ==>
            && s.frame.ifBlock == f.ifBlock && s.frame.fakeIfBlock == (f.fakeIfBlock + 1) % FAKE_LEVELS
            && s.frame.condition == f.condition && s.frame.ifBranche == f.ifBranche)
  {
    ElseEndifAreNoIf();
  }

  /** `endif` closes a skipped level first, then a real one, and never goes below zero. */
  lemma EndifPops(c: Capabilities, event: string, f: Frame, maxIf: nat)
    requires FrameOk(f, maxIf)
    ensures var s := ProcessRule(c, "endif", event, f, maxIf);
      && s.command.None?
      && s.frame.condition == f.condition && s.frame.ifBranche == f.ifBranche
      && (f.fakeIfBlock > 0 ==> s.frame.fakeIfBlock == f.fakeIfBlock - 1 && s.frame.ifBlock == f.ifBlock)
      && (f.fakeIfBlock == 0 && f.ifBlock > 0 ==> s.frame.fakeIfBlock == 0 && s.frame.ifBlock == f.ifBlock - 1)
      && (f.fakeIfBlock == 0 && f.ifBlock == 0 ==> s.frame.fakeIfBlock == 0 && s.frame.ifBlock == 0)
  {
    assert ToLower("endif") == "endif";
    ElseEndifAreNoIf();
  }

  /**
   * `elseif` in a level whose taken branch already ran clears that branch, so
   * neither this `elseif` nor any later one is evaluated.
   */
  lemma ElseifAfterTrueClears(c: Capabilities, action: string, event: string, f: Frame, maxIf: nat)
    requires FrameOk(f, maxIf) && IndexOf(ToLower(action), "elseif ", 0) != -1
    requires f.ifBlock > 0 && f.fakeIfBlock == 0 && f.condition[f.ifBlock - 1] && f.ifBranche[f.ifBlock - 1]
    ensures var s := ProcessRule(c, action, event, f, maxIf);
      && s.command.None?
      && s.frame.ifBlock == f.ifBlock && s.frame.fakeIfBlock == 0
      && s.frame.condition == f.condition
      && s.frame.ifBranche == f.ifBranche[f.ifBlock - 1 := false]
      && !Enabled(s.frame.(isCommand := true))
  {
  }

  /**
   * One line in a level whose condition held and whose branch was cleared,
   * while no skipped level is open above it: other than the level's `endif`,
   * it keeps the level as it is and does not run.  `ClearedLevelSilentUntilEndif`
   * extends this to every line up to the matching `endif`.
   */
  lemma ClearedLevelStaysSilent(c: Capabilities, action: string, event: string, f: Frame, maxIf: nat)
    requires FrameOk(f, maxIf) && ToLower(action) != "endif"
    requires f.ifBlock > 0 && f.fakeIfBlock == 0 && f.condition[f.ifBlock - 1] && !f.ifBranche[f.ifBlock - 1]
    ensures var s := ProcessRule(c, action, event, f, maxIf);
      && s.command.None?
      && s.frame.ifBlock == f.ifBlock
      && s.frame.condition == f.condition && s.frame.ifBranche == f.ifBranche
      && s.frame.fakeIfBlock == NextSkipDepth(ToLower(action), 0)
  {
  }

  /**
   * A line inside a skipped level never runs and leaves every real level alone;
   * only the skipped nesting moves.
   */
  lemma SkippedLevelStaysSilent(c: Capabilities, action: string, event: string, f: Frame, maxIf: nat)
    requires FrameOk(f, maxIf) && f.fakeIfBlock > 0
    ensures var s := ProcessRule(c, action, event, f, maxIf);
      && s.command.None?
      && s.frame.ifBlock == f.ifBlock && s.frame.condition == f.condition && s.frame.ifBranche == f.ifBranche
      && s.frame.fakeIfBlock == NextSkipDepth(ToLower(action), f.fakeIfBlock) % FAKE_LEVELS
  {
    ElseEndifAreNoIf();
  }

  /**
   * How one line moves the depth of skipped levels: an `if ` (that is not an
   * `elseif `) opens one, an `endif` closes one, nothing else changes it.
   * The depth is unbounded here; `fakeIfBlock` is this depth modulo 256.
   */
  function NextSkipDepth(lcAction: string, d: nat): nat
  {
    if IndexOf(lcAction, "elseif ", 0) != -1 then d
    else if IndexOf(lcAction, "if ", 0) != -1 then d + 1
    else if lcAction == "endif" && d > 0 then d - 1
    else d
  }

  /** The depth of skipped levels after a run of lines. */
  function SkipDepthAfter(d: nat, actions: seq<string>): nat
    decreases |actions|
  {
    if |actions| == 0 then d else SkipDepthAfter(NextSkipDepth(ToLower(actions[0]), d), actions[1..])
  }

  /**
   * The lines stay inside the level that was open when they started: every
   * `endif` among them closes a skipped level, and the skipped nesting never
   * reaches 256, where the byte counter would wrap.
   */
  predicate StaysInside(d: nat, actions: seq<string>)
    decreases |actions|
  {
    |actions| == 0 ||
      var lc := ToLower(actions[0]);
      var d' := NextSkipDepth(lc, d);
      && (lc == "endif" ==> d > 0)
      && d' < FAKE_LEVELS
      && StaysInside(d', actions[1..])
  }

  /** The final state and the command of each line, for a run of lines given to `processMatchedRule` one by one. */
  datatype Trace = Trace(frame: Frame, commands: seq<Option<string>>)

  /** `processMatchedRule` applied to each action in turn. */
  function ProcessRules(c: Capabilities, actions: seq<string>, event: string, f: Frame, maxIf: nat): (t: Trace)
    requires FrameOk(f, maxIf)
    ensures FrameOk(t.frame, maxIf) && |t.commands| == |actions|
    decreases |actions|
  {
    if |actions| == 0 then Trace(f, [])
    else
      var s := ProcessRule(c, actions[0], event, f, maxIf);
      var t := ProcessRules(c, actions[1..], event, s.frame, maxIf);
      Trace(t.frame, [s.command] + t.commands)
  }

  /**
   * One line of a cleared level, with or without skipped levels open above it,
   * other than the level's own `endif`: it does not run, keeps every real level,
   * and moves the skipped depth as `NextSkipDepth` says.
   */
  lemma ClearedLevelStep(c: Capabilities, action: string, event: string, f: Frame, maxIf: nat)
    requires FrameOk(f, maxIf) && f.ifBlock > 0 && f.condition[f.ifBlock - 1] && !f.ifBranche[f.ifBlock - 1]
    requires ToLower(action) == "endif" ==> f.fakeIfBlock > 0
    ensures var s := ProcessRule(c, action, event, f, maxIf);
      && s.command.None?
      && s.frame.ifBlock == f.ifBlock && s.frame.condition == f.condition && s.frame.ifBranche == f.ifBranche
      && s.frame.fakeIfBlock == NextSkipDepth(ToLower(action), f.fakeIfBlock) % FAKE_LEVELS
  {
    if f.fakeIfBlock > 0 {
      SkippedLevelStaysSilent(c, action, event, f, maxIf);
    } else {
      ClearedLevelStaysSilent(c, action, event, f, maxIf);
    }
  }

  /**
   * Once a level's condition held and its branch was cleared, every line up to
   * the matching `endif` keeps it that way and none of them runs: nested `if`s
   * only open skipped levels above it, and their `endif`s close them again.
   */
  lemma {:induction false} ClearedLevelSilentUntilEndif(c: Capabilities, actions: seq<string>, event: string, f: Frame, maxIf: nat)
    requires FrameOk(f, maxIf) && f.ifBlock > 0 && f.condition[f.ifBlock - 1] && !f.ifBranche[f.ifBlock - 1]
    requires StaysInside(f.fakeIfBlock, actions)
    ensures var t := ProcessRules(c, actions, event, f, maxIf);
      && (forall k :: 0 <= k < |t.commands| ==> t.commands[k].None?)
      && t.frame.ifBlock == f.ifBlock && t.frame.condition == f.condition && t.frame.ifBranche == f.ifBranche
      && t.frame.fakeIfBlock == SkipDepthAfter(f.fakeIfBlock, actions)
    decreases |actions|
  {
    if |actions| > 0 {
      var s := ProcessRule(c, actions[0], event, f, maxIf);
      var d' := NextSkipDepth(ToLower(actions[0]), f.fakeIfBlock);
      ClearedLevelStep(c, actions[0], event, f, maxIf);
      assert s.frame.fakeIfBlock == d' && StaysInside(d', actions[1..]);
      ClearedLevelSilentUntilEndif(c, actions[1..], event, s.frame, maxIf);
      var t := ProcessRules(c, actions[1..], event, s.frame, maxIf);
      assert ProcessRules(c, actions, event, f, maxIf) == Trace(t.frame, [s.command] + t.commands);
    }
  }

  /**
   * The byte counter wraps: the 256th nested skipped `if` brings `fakeIfBlock`
   * back to 0, so the next `endif` closes the real level instead of a skipped one.
   */
  lemma SkipCounterWrapClosesLevelEarly(c: Capabilities, action: string, event: string, f: Frame, maxIf: nat)
    requires FrameOk(f, maxIf) && f.ifBlock > 0 && f.fakeIfBlock == FAKE_LEVELS - 1
    requires IndexOf(ToLower(action), "elseif ", 0) == -1 && IndexOf(ToLower(action), "if ", 0) != -1
    ensures var s := ProcessRule(c, action, event, f, maxIf);
      && s.frame.fakeIfBlock == 0 && s.frame.ifBlock == f.ifBlock
      && ProcessRule(c, "endif", event, s.frame, maxIf).frame.ifBlock == f.ifBlock - 1
  {
    IfPushesOrSkips(c, action, event, f, maxIf);
    var s := ProcessRule(c, action, event, f, maxIf);
    EndifPops(c, event, s.frame, maxIf);
  }

  /** `else` in a real level switches to the other branch: later lines run iff the condition was false. */
  lemma ElseSelectsOtherBranch(c: Capabilities, event: string, f: Frame, maxIf: nat)
    requires FrameOk(f, maxIf) && f.ifBlock > 0 && f.fakeIfBlock == 0 && f.ifBranche[f.ifBlock - 1]
    ensures var s := ProcessRule(c, "else", event, f, maxIf);
      && s.command.None?
      && s.frame.ifBlock == f.ifBlock && s.frame.condition == f.condition
      && s.frame.ifBranche == f.ifBranche[f.ifBlock - 1 := false]
      && (Enabled(s.frame.(isCommand := true)) <==> !f.condition[f.ifBlock - 1])
  {
    assert ToLower("else") == "else";
    ElseEndifAreNoIf();
  }

  /** As written, an `else` outside any `if` (in a matched block) stores before the array. */
  lemma ElseAtTopLevelWritesOutOfBounds(f: Frame)
    requires f.ifBlock == 0 && f.fakeIfBlock == 0
    ensures ElseStepAsWritten("else", f).None?
  {
  }

  /** Wherever the firmware's `else` stays inside the array, the corrected step agrees with it. */
  lemma ElseCorrectionAgrees(lcAction: string, f: Frame)
    requires f.ifBlock <= |f.ifBranche|
    ensures ElseStepAsWritten(lcAction, f).Some? <==> !(lcAction == "else" && f.fakeIfBlock == 0 && f.ifBlock == 0)
    ensures ElseStepAsWritten(lcAction, f).Some? ==> ElseStepAsWritten(lcAction, f).value == ElseStep(lcAction, f)
  {
  }

  /** The corrected `else` at the top level changes no level and does not run. */
  lemma TopLevelElseIsInert(c: Capabilities, event: string, f: Frame, maxIf: nat)
    requires FrameOk(f, maxIf) && f.ifBlock == 0 && f.fakeIfBlock == 0
    ensures ProcessRule(c, "else", event, f, maxIf) == Step(f.(isCommand := false), None)
  {
    assert ToLower("else") == "else";
    ElseEndifAreNoIf();
  }

  // ---------------------------------------------------------------------------
  // The state as arrays and counters
  // ---------------------------------------------------------------------------

  /**
   * The locals of `rulesProcessingFile` that `parseCompleteNonCommentLine` and
   * `processMatchedRule` receive by reference.
   */
  class BlockState {
    /** `match`. */
    var matched: bool
    var codeBlock: bool
    var isCommand: bool
    const condition: array<bool>
    const ifBranche: array<bool>
    var ifBlock: nat
    var fakeIfBlock: nat
    /** `RULES_IF_MAX_NESTING_LEVEL`. */
    const maxIf: nat

    ghost predicate Valid()
      reads this
    {
      && condition.Length == maxIf && ifBranche.Length == maxIf && condition != ifBranche
      && 0 < maxIf < FAKE_LEVELS && ifBlock <= maxIf && fakeIfBlock < FAKE_LEVELS
    }

    function Snapshot(): (f: Frame)
      reads this, condition, ifBranche
      ensures Valid() ==> FrameOk(f, maxIf)
    {
      Frame(matched, codeBlock, isCommand, condition[..], ifBranche[..], ifBlock, fakeIfBlock)
    }

    constructor(maxIf: nat)
      requires 0 < maxIf < FAKE_LEVELS
      ensures Valid() && this.maxIf == maxIf
      ensures !matched && !codeBlock && !isCommand && ifBlock == 0 && fakeIfBlock == 0
      ensures fresh(condition) && fresh(ifBranche)
    {
      this.maxIf := maxIf;
      matched, codeBlock, isCommand := false, false, false;
      condition := new bool[maxIf];
      ifBranche := new bool[maxIf];
      ifBlock, fakeIfBlock := 0, 0;
    }

    /** `parseCompleteNonCommentLine(line, event, action, …)`. */
    method ParseCompleteNonCommentLine(c: Capabilities, line0: string, event: string) returns (action: string)
      requires Valid()
      modifies this
      ensures Valid()
      ensures Parsed(action, Snapshot()) == ParseLine(c, line0, event, old(Snapshot()))
    {
      var line := line0;
      action := "";
      if |line| == 0 {
        return;
      }
      var startsWithOn := StartsWithOn(line);
      if !codeBlock && !matched && !startsWithOn {
        return;
      }
      if EqualsIgnoreCase(line, "endon") {
        isCommand, codeBlock, matched := false, false, false;
        ifBlock, fakeIfBlock := 0, 0;
        return;
      }
      ghost var before := Snapshot();
      isCommand := true;
      if matched || !codeBlock {
        if matched && fakeIfBlock == 0 {
          line := SubstituteEventValue(c, line, event);
        }
        if matched || startsWithOn {
          line := c.parseTemplate(line);
        }
      }
      assert line == ExpandedLine(c, line0, event, before);
      if !codeBlock {
        if startsWithOn {
          action := ParseOnLine(c, line, event);
        }
      } else {
        action := line;
      }
    }

    /** The `on … do …` branch of `parseCompleteNonCommentLine`, on the state. */
    method ParseOnLine(c: Capabilities, lineOrg: string, event: string) returns (action: string)
      requires Valid()
      modifies this
      ensures Valid()
      ensures Parsed(action, Snapshot()) == OnLine(c, lineOrg, event, old(Snapshot()))
    {
      var found;
      found, action := SplitOnLine(c, lineOrg, event);
      matched := found;
      ifBlock := 0;
      fakeIfBlock := 0;
      if |action| > 0 {
        isCommand, codeBlock := true, false;
      } else {
        isCommand, codeBlock := false, true;
      }
    }

    /** `processMatchedRule(action, event, …)` with the corrected `else`. */
    method ProcessMatchedRule(c: Capabilities, action: string, event: string) returns (command: Option<string>)
      requires Valid()
      modifies this, condition, ifBranche
      ensures Valid()
      ensures Step(Snapshot(), command) == ProcessRule(c, action, event, old(Snapshot()), maxIf)
    {
      var lcAction := ToLower(action);
      Gate();
      var split := IndexOf(lcAction, "elseif ", 0);
      if split != -1 {
        Elseif(c, lcAction, split);
      } else {
        split := IndexOf(lcAction, "if ", 0);
        if split != -1 {
          If(c, lcAction, split);
        }
      }
      Else(lcAction);
      Endif(lcAction);
      command := None;
      if isCommand {
        var substituted := SubstituteEventValue(c, action, event);
        command := Some(substituted);
      }
    }

    /** A line inside a skipped level, or in the branch its level does not select, is no command. */
    method Gate()
      requires Valid()
      modifies this
      ensures Valid()
      ensures Snapshot() == old(Snapshot()).(isCommand := Enabled(old(Snapshot())))
    {
      if fakeIfBlock != 0 {
        isCommand := false;
      } else if ifBlock != 0 {
        if condition[ifBlock - 1] != ifBranche[ifBlock - 1] {
          isCommand := false;
        }
      }
    }

    /** The `elseif ` handling, on the arrays. */
    method Elseif(c: Capabilities, lcAction: string, split: nat)
      requires Valid()
      modifies this, condition, ifBranche
      ensures Valid()
      ensures Snapshot() == ElseifStep(c, lcAction, split, old(Snapshot()))
    {
      isCommand := false;
      if ifBlock != 0 && fakeIfBlock == 0 {
        if ifBranche[ifBlock - 1] {
          if condition[ifBlock - 1] {
            ifBranche[ifBlock - 1] := false;
          } else {
            var check := Trim(SubstringFrom(lcAction, split + 7));
            var value := ConditionMatchExtended(c, check);
            condition[ifBlock - 1] := value;
          }
        }
      }
    }

    /** The `if ` handling, on the arrays. */
    method If(c: Capabilities, lcAction: string, split: nat)
      requires Valid()
      modifies this, condition, ifBranche
      ensures Valid()
      ensures Snapshot() == IfStep(c, lcAction, split, old(Snapshot()), maxIf)
    {
      if ifBlock < maxIf {
        if isCommand {
          ifBlock := ifBlock + 1;
          var check := Trim(SubstringFrom(lcAction, split + 3));
          var value := ConditionMatchExtended(c, check);
          condition[ifBlock - 1] := value;
          ifBranche[ifBlock - 1] := true;
        } else {
          fakeIfBlock := (fakeIfBlock + 1) % FAKE_LEVELS;
        }
      } else {
        fakeIfBlock := (fakeIfBlock + 1) % FAKE_LEVELS;
      }
      isCommand := false;
    }

    /** The corrected `else` handling: only an open real level is switched. */
    method Else(lcAction: string)
      requires Valid()
      modifies this, ifBranche
      ensures Valid()
      ensures Snapshot() == ElseStep(lcAction, old(Snapshot()))
    {
      if lcAction == "else" && fakeIfBlock == 0 {
        if ifBlock > 0 {
          ifBranche[ifBlock - 1] := false;
        }
        isCommand := false;
      }
    }

    /** The `endif` handling. */
    method Endif(lcAction: string)
      requires Valid()
      modifies this
      ensures Valid()
      ensures Snapshot() == EndifStep(lcAction, old(Snapshot()))
    {
      if lcAction == "endif" {
        if fakeIfBlock != 0 {
          fakeIfBlock := fakeIfBlock - 1;
        } else if ifBlock != 0 {
          ifBlock := ifBlock - 1;
        }
        isCommand := false;
      }
    }

    /**
     * One pass of the read loop's body: parse the line and, when a rule
     * matched, process it; `handled` reports that a matched rule just ended.
     */
    method ProcessLine(c: Capabilities, line: string, event: string, ghost step: (string, Frame) -> LineResult)
      returns (handled: bool, command: Option<string>)
      requires Valid() && IsLoopBody(step, c, event, maxIf)
      modifies this, condition, ifBranche
      ensures Valid()
      ensures step(line, old(Snapshot())) == LineResult(Step(Snapshot(), command), handled)
    {
      var matchedBeforeParse := matched;
      var action := ParseCompleteNonCommentLine(c, line, event);
      handled := matchedBeforeParse && !matched;
      command := None;
      if matched {
        command := ProcessMatchedRule(c, action, event);
      }
      assert Step(Snapshot(), command) == LineOutcome(c, line, event, old(Snapshot()), maxIf);
    }
  }

  // ---------------------------------------------------------------------------
  // rulesProcessingFile
  // ---------------------------------------------------------------------------

  /** What one pass over a rules file reports: whether the event was handled, and the commands run. */
  datatype Outcome = Outcome(handled: bool, dispatched: seq<string>)

  /** The line the reader yields at position `next`; an exhausted file yields the empty line. */
  function ReadLine(lines: seq<string>, next: nat): string
  {
    if next < |lines| then lines[next] else ""
  }

  /** The state before the first line. */
  function InitialFrame(condition: seq<bool>, ifBranche: seq<bool>): Frame
  {
    Frame(false, false, false, condition, ifBranche, 0, 0)
  }

  /** One line of the read loop: parse it, then process it when a rule matched. */
  function LineOutcome(c: Capabilities, line: string, event: string, f: Frame, maxIf: nat): (s: Step)
    requires FrameOk(f, maxIf)
    ensures FrameOk(s.frame, maxIf)
  {
    var p := ParseLine(c, line, event, f);
    if p.frame.matched then ProcessRule(c, p.action, event, p.frame, maxIf) else Step(p.frame, None)
  }

  /** The line closes the rule that had matched (an `endon`, or an `on` line that does not match). */
  predicate LineEndsRule(c: Capabilities, line: string, event: string, f: Frame)
  {
    f.matched && !ParseLine(c, line, event, f).frame.matched
  }

  /** The command a line runs, as a list of zero or one commands. */
  function Commands(command: Option<string>): seq<string>
  {
    if command.Some? then [command.value] else []
  }

  /** Commands already run, followed by the outcome of the rest of the file. */
  function Prefixed(done: seq<string>, rest: Outcome): Outcome
  {
    Outcome(rest.handled, done + rest.dispatched)
  }

  lemma PrefixedTwice(done: seq<string>, more: seq<string>, rest: Outcome)
    ensures Prefixed(done, Prefixed(more, rest)) == Prefixed(done + more, rest)
  {
    assert done + (more + rest.dispatched) == done + more + rest.dispatched;
  }

  /** What the loop body makes of one line: the state after it, its command, and whether a matched rule ended. */
  datatype LineResult = LineResult(step: Step, ends: bool)

  /**
   * The loop body of `rulesProcessingFile` as a function of the line and the
   * state before it.  Every state the loop reaches is well formed, so the
   * second alternative only makes the function total.
   */
  function LineSteps(c: Capabilities, event: string, maxIf: nat): (string, Frame) -> LineResult
  {
    (line: string, f: Frame) =>
      if FrameOk(f, maxIf) then LineResult(LineOutcome(c, line, event, f, maxIf), LineEndsRule(c, line, event, f))
      else LineResult(Step(f, None), true)
  }

  /** `step` agrees with `LineOutcome` and `LineEndsRule` on every well-formed state. */
  ghost predicate IsLoopBody(step: (string, Frame) -> LineResult, c: Capabilities, event: string, maxIf: nat)
  {
    forall line, f {:trigger LineOutcome(c, line, event, f, maxIf)} :: FrameOk(f, maxIf) ==>
      step(line, f) == LineResult(LineOutcome(c, line, event, f, maxIf), LineEndsRule(c, line, event, f))
  }

  /**
   * The read loop from line `next` on, for the loop body `step`: it stops
   * after the last line or when a matched rule ends.
   */
  function Run(step: (string, Frame) -> LineResult, lines: seq<string>, next: nat, f: Frame): Outcome
    decreases |lines| - next
  {
    var r := step(ReadLine(lines, next), f);
    if r.ends || next + 1 >= |lines| then Outcome(r.ends, Commands(r.step.command))
    else Prefixed(Commands(r.step.command), Run(step, lines, next + 1, r.step.frame))
  }

  /** The static re-entrancy counter of `rulesProcessingFile`, and the file processing itself. */
  class RulesProcessor {
    /** The `static uint8_t nestingLevel`. */
    var nestingLevel: nat
    /** `RULES_MAX_NESTING_LEVEL`. */
    const maxNesting: nat
    /** `RULES_IF_MAX_NESTING_LEVEL`. */
    const maxIf: nat

    ghost predicate Valid()
      reads this
    {
      nestingLevel <= maxNesting && maxNesting + 1 < FAKE_LEVELS && 0 < maxIf < FAKE_LEVELS
    }

    constructor(maxNesting: nat, maxIf: nat)
      requires maxNesting + 1 < FAKE_LEVELS && 0 < maxIf < FAKE_LEVELS
      ensures Valid() && nestingLevel == 0 && this.maxNesting == maxNesting && this.maxIf == maxIf
    {
      nestingLevel := 0;
      this.maxNesting := maxNesting;
      this.maxIf := maxIf;
    }

    /**
     * `rulesProcessingFile(fileName, event, pos)`: `file` is `None` when the file
     * does not exist and otherwise the lines the reader yields from `pos` on;
     * `useRules` is `Settings.UseRules`.  The commands the file runs are returned
     * in order instead of being executed.
     */
    method RulesProcessingFile(c: Capabilities, useRules: bool, file: Option<seq<string>>, event: string)
      returns (handled: bool, dispatched: seq<string>)
      requires Valid()
      modifies this
      ensures Valid() && nestingLevel == old(nestingLevel)
      ensures !useRules || file.None? || old(nestingLevel) + 1 > maxNesting ==> !handled && dispatched == []
      ensures useRules && file.Some? && old(nestingLevel) + 1 <= maxNesting ==>
        exists condition, ifBranche :: |condition| == maxIf && |ifBranche| == maxIf &&
          Outcome(handled, dispatched) == Run(LineSteps(c, event, maxIf), file.value, 0, InitialFrame(condition, ifBranche))
    {
      if !useRules || file.None? {
        return false, [];
      }
      nestingLevel := nestingLevel + 1;
      if nestingLevel > maxNesting {
        nestingLevel := nestingLevel - 1;
        return false, [];
      }
      var st := new BlockState(maxIf);
      assert st.Snapshot() == InitialFrame(st.condition[..], st.ifBranche[..]);
      handled, dispatched := ReadLoop(c, file.value, event, st, LineSteps(c, event, maxIf));
      nestingLevel := nestingLevel - 1;
    }
  }

  /**
   * The read loop of `rulesProcessingFile`: one line at a time until the file
   * is exhausted or a matched rule has ended.  `step` is the loop body as a
   * function, as `LineSteps` defines it.
   */
  method ReadLoop(c: Capabilities, lines: seq<string>, event: string, st: BlockState, ghost step: (string, Frame) -> LineResult)
    returns (handled: bool, dispatched: seq<string>)
    requires st.Valid() && IsLoopBody(step, c, event, st.maxIf)
    modifies st, st.condition, st.ifBranche
    ensures Outcome(handled, dispatched) == Run(step, lines, 0, old(st.Snapshot()))
  {
    ghost var f := st.Snapshot();
    ghost var total := Run(step, lines, 0, f);
    var moreAvailable := true;
    handled := false;
    var next := 0;
    dispatched := [];
    while moreAvailable && !handled
      invariant st.Valid() && f == st.Snapshot()
      invariant moreAvailable ==> next < |lines| || (next == 0 && lines == [])
      invariant moreAvailable && !handled ==> total == Prefixed(dispatched, Run(step, lines, next, f))
      invariant !(moreAvailable && !handled) ==> total == Outcome(handled, dispatched)
      decreases |lines| - next, !handled
    {
      var line := ReadLine(lines, next);
      next := next + 1;
      moreAvailable := next < |lines|;
      var command;
      handled, command := st.ProcessLine(c, line, event, step);
      f := st.Snapshot();
      PrefixedTwice(dispatched, Commands(command), Run(step, lines, next, f));
      dispatched := dispatched + Commands(command);
    }
  }

  // ---------------------------------------------------------------------------
  // Properties of the read loop
  // ---------------------------------------------------------------------------

  /** Each line runs at most one command. */
  lemma {:induction false} AtMostOneCommandPerLine(step: (string, Frame) -> LineResult, lines: seq<string>, next: nat, f: Frame)
    requires next < |lines|
    ensures |Run(step, lines, next, f).dispatched| <= |lines| - next
    decreases |lines| - next
  {
    var r := step(ReadLine(lines, next), f);
    if !r.ends && next + 1 < |lines| {
      AtMostOneCommandPerLine(step, lines, next + 1, r.step.frame);
    }
  }

  /** A line read outside a matched rule leaves it unmatched when no trigger matches the event. */
  lemma UnmatchedStaysUnmatched(c: Capabilities, line: string, event: string, f: Frame, maxIf: nat)
    requires FrameOk(f, maxIf) && !f.matched
    requires forall trigger :: !c.ruleMatch(event, trigger)
    ensures var s := LineOutcome(c, line, event, f, maxIf); !s.frame.matched && s.command.None?
  {
  }

  /** When no rule's trigger matches the event, the file runs nothing and does not handle it. */
  lemma {:induction false} NoMatchRunsNothing(c: Capabilities, lines: seq<string>, event: string, next: nat, f: Frame, maxIf: nat)
    requires FrameOk(f, maxIf) && !f.matched
    requires forall trigger :: !c.ruleMatch(event, trigger)
    ensures Run(LineSteps(c, event, maxIf), lines, next, f) == Outcome(false, [])
    decreases |lines| - next
  {
    UnmatchedStaysUnmatched(c, ReadLine(lines, next), event, f, maxIf);
    var s := LineOutcome(c, ReadLine(lines, next), event, f, maxIf);
    if next + 1 < |lines| {
      NoMatchRunsNothing(c, lines, event, next + 1, s.frame, maxIf);
    }
  }
}
