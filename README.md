# ESPEasy rules engine and helpers in Dafny

This project models the core of the ESPEasy firmware's rules interpreter and
proves properties about it. The interpreter is a line-at-a-time state machine
over user scripts of the form `on <trigger> do … endon`, with
`if`/`elseif`/`else`/`endif` nesting. The model also covers several small
data structures and plugin helpers that sit beside it.

- **Rule file names** (`RuleFileNames`): an event name maps to a rules file
  name, and a file name maps back to an event name.
- **Macro expander** (`MacroExpander`, `Bits`):
  - `{func:a:b:c}` macros, found innermost-first;
  - the 64-bit bit functions;
  - masking of unsupported macros with 0x02/0x03, undone at the end.
- **Event values** (`EventValues`): `%eventvalue%` and `%eventvalueN%`
  substitution.
- **Conditions** (`Conditions`):
  - the time parser;
  - the parenthesis balancer;
  - the time-or-number comparison of `conditionMatch`;
  - the strictly left-to-right `and`/`or` fold of `conditionMatchExtended`.
- **Block machine and driver** (`RulesEngine`):
  - `parseCompleteNonCommentLine` and `processMatchedRule`, which work on the
    flags `match`/`codeBlock`/`isCommand`, the arrays `condition[]` and
    `ifBranche[]`, and the counters `ifBlock` and `fakeIfBlock`;
  - the read loop of `rulesProcessingFile`, with its static re-entrancy
    counter.
- **Rule event cache** (`RulesEventCache`): an append-only list of rule lines
  and a first-match lookup.
- **Log entry** (`LogEntry`): a truncated message, its level and time stamp,
  and expiry across a wrap-around of the millisecond counter.
- **AXP2101 form selectors** (`Axp2101Selectors`, `FormSelector`):
  - the index-to-value maps;
  - option text, option values and selection in `FormSelectorOptions`;
  - the derived selector classes, modelled as a `Kind` tag.
- **AXP192 plugin** (`Axp192`):
  - the signed/unsigned setting encoding and the register packing;
  - the board presets;
  - the value and range bookkeeping of the `axp,…` write command;
  - the config-value name lookup.

Routines that update state in place are Dafny methods on classes or arrays.
Each method's postcondition ties the new state to a pure function of the old
state, and the properties are proved as lemmas about those functions.

Helpers the firmware calls but whose code is not part of this model are
function-valued fields of the `Capabilities` datatype (`Collaborators`) and of
`Axp192.Helpers`. They are:

- `ruleMatch`, `findCompareCondition`, `parseTemplate`, `GetArgv`;
- `parseString`, `parseStringKeepCase`, the `valid*FromString` family;
- `ull2String`, `strtoul`, `URLEncode`, `getEventFromRulesLine`;
- Arduino `map`, `GetCommandCode`;
- the numeric comparison done with `Calculate`.

Their results are left open, except where a lemma states an assumption about
them explicitly (`DecimalParser`, `NoBraceOutputs`, `FindsExactly`). The model
does not copy the firmware's Arduino `String` operations from the source.
`ArduinoString` defines them: `indexOf`, `substring` clamping, `replace`,
`trim`, `toLowerCase` and `equalsIgnoreCase`.

## Model

| member | source | states |
|---|---|---|
| RuleFileNames.EventNamePart | src/src/ESPEasyCore/ESPEasyRules.cpp:35-40 | The part of a file name taken from the event stops before the first '=' and is the whole name when there is none. |
| RuleFileNames.EventToFileName | src/src/ESPEasyCore/ESPEasyRules.cpp:34-51 | The file name is the platform's rules directory followed by the name part, lower-cased and with every '#' turned into the separator. With a lower-case separator other than '#', it holds no '#'. |
| RuleFileNames.FileNameToEvent | src/src/ESPEasyCore/ESPEasyRules.cpp:53-62 | The event name is the file name after the directory prefix, with every separator turned back into '#'. The prefix is dropped without being checked, and a name no longer than it gives the empty event. |
| RuleFileNames.FileNameIgnoresValue | src/src/ESPEasyCore/ESPEasyRules.cpp:34-51 | `name=value` events share the rules file of `name`. |
| RuleFileNames.RoundTrip | src/src/ESPEasyCore/ESPEasyRules.cpp:34-62 | The file name of a lower-case event name without '=' or separator maps back to that event name. |
| MacroExpander.InnerBracket | src/src/ESPEasyCore/ESPEasyRules.cpp:244-275 | Lines of length ≤ 1 and unknown bracket types give no result. A result is the first closing bracket after `startIndex + 1` together with the nearest opening bracket before it, strictly after `startIndex`. When nothing is found, no opening bracket lies between them. |
| MacroExpander.BracketAtLineStartSkipped | src/src/ESPEasyCore/ESPEasyRules.cpp:260-274 | A `{…}` that starts at position 0 is never found by a search from 0. |
| MacroExpander.SearchFromOpeningEnds | src/src/ESPEasyCore/ESPEasyRules.cpp:261-274 | Searching again from a found opening bracket finds nothing, so a span left in place stops the loop. |
| MacroExpander.NextArgument | src/src/ESPEasyCore/ESPEasyRules.cpp:277-301 | The argument is the text up to the next separator and holds no separator. `found` holds exactly when it is non-empty, and `next` is just past the separator or -1. |
| MacroExpander.BitwiseFunction | src/src/ESPEasyCore/ESPEasyRules.cpp:325-391 | With valid numbers, `bitread`, `bitset`, `bitclear`, `bitwrite`, `xor`, `and` and `or` give that operation's value, and `bitwrite` writes the low bit of its third argument. A result comes only from these names. A name shorter than 2, an invalid number, or a `bitwrite` without a valid third argument gives none. |
| MacroExpander.BitwriteUsesLowBit | src/src/ESPEasyCore/ESPEasyRules.cpp:351-358 | `bitwrite` depends only on the lowest bit of its third argument. |
| MacroExpander.UnknownBitFunction | src/src/ESPEasyCore/ESPEasyRules.cpp:363-366 | A name that starts with "bit" but is none of the four bit functions fails. |
| MacroExpander.BitReadMacroExample | src/src/ESPEasyCore/ESPEasyRules.cpp:340-342 | `{bitread:0:123}` gives 1. |
| MacroExpander.BitSetMacroExample | src/src/ESPEasyCore/ESPEasyRules.cpp:343-346 | `{bitset:0:122}` gives 123. |
| MacroExpander.BitClearMacroExample | src/src/ESPEasyCore/ESPEasyRules.cpp:347-350 | `{bitclear:0:123}` gives 122. |
| MacroExpander.BitWriteMacroExample | src/src/ESPEasyCore/ESPEasyRules.cpp:351-358 | `{bitwrite:0:122:1}` gives 123. |
| MacroExpander.XorMacroExample | src/src/ESPEasyCore/ESPEasyRules.cpp:378-380 | `{xor:127:15}` gives 112. |
| MacroExpander.AndMacroExample | src/src/ESPEasyCore/ESPEasyRules.cpp:381-383 | `{and:254:15}` gives 14. |
| MacroExpander.OrMacroExample | src/src/ESPEasyCore/ESPEasyRules.cpp:384-386 | `{or:254:15}` gives 255. |
| MacroExpander.ReplacementHasNoCloseBrace | src/src/ESPEasyCore/ESPEasyRules.cpp:436-507 | When the capabilities produce no braces, a macro's replacement holds no '}'. |
| MacroExpander.Mask | src/src/ESPEasyCore/ESPEasyRules.cpp:514-516 | The masked copy of a span has the same length and no braces. |
| MacroExpander.Unmask | src/src/ESPEasyCore/ESPEasyRules.cpp:531-536 | Unmasking turns every 0x02 back into '{' and every 0x03 into '}' and changes no other character. |
| MacroExpander.UnmaskMask | src/src/ESPEasyCore/ESPEasyRules.cpp:509-536 | Unmasking undoes masking. |
| MacroExpander.MaskedReplaceInvisible | src/src/ESPEasyCore/ESPEasyRules.cpp:514-521 | After unmasking, replacing a span by its masked copy leaves no trace. |
| MacroExpander.SpanHasOneCloseBrace | src/src/ESPEasyCore/ESPEasyRules.cpp:428-430 | A found span holds exactly one '}', its last character. |
| MacroExpander.StepRemovesCloseBrace | src/src/ESPEasyCore/ESPEasyRules.cpp:521 | Replacing the span by a text without '}' lowers the number of '}' in the line. |
| MacroExpander.MacroAtHasNoCloseBrace | src/src/ESPEasyCore/ESPEasyRules.cpp:428-507 | The macro at a found span never yields a '}'. |
| MacroExpander.SpanReplacement | src/src/ESPEasyCore/ESPEasyRules.cpp:509-521 | An empty command leaves the line alone. Otherwise the replacement is non-empty and brings no new '}'. |
| MacroExpander.PassProgresses | src/src/ESPEasyCore/ESPEasyRules.cpp:428-529 | Each pass of the loop either removes a '}' or leaves the line with nothing more to find, so the loop terminates. |
| MacroExpander.UnsupportedMacrosUnchanged | src/src/ESPEasyCore/ESPEasyRules.cpp:509-536 | A line comes out unchanged when it holds no 0x02/0x03 and every macro the search visits names an unknown command, one that is neither built in nor a math function. Such macros are masked, and the final pass unmasks them again. |
| MacroExpander.UnknownCommandIsUnsupported | src/src/ESPEasyCore/ESPEasyRules.cpp:436-507 | A macro whose command is neither built in nor a math function yields no text. |
| MacroExpander.SingleUnknownMacroUnchanged | src/src/ESPEasyCore/ESPEasyRules.cpp:422-537 | A line with one `{fc}` whose command is unknown, and no other brace or mask byte, comes out of the expansion unchanged. |
| MacroExpander.ReplaceMacro | src/src/ESPEasyCore/ESPEasyRules.cpp:509-521 | One loop pass on the line is exactly the pass function, including the "something was masked" flag. |
| MacroExpander.ParseStringCommands | src/src/ESPEasyCore/ESPEasyRules.cpp:422-537 | The expanded line is the recursive expansion from position 0. A line with no 0x02/0x03 whose visited macros all name unknown commands comes out unchanged. |
| Bits.BitRead | src/src/ESPEasyCore/ESPEasyRules.cpp:342 | `bitRead` is 0 or 1 and reads bit `bit` of the value. |
| Bits.BitSet | src/src/ESPEasyCore/ESPEasyRules.cpp:330 | `bitSetULL` sets bit `bit` and keeps every other bit of the 64. |
| Bits.BitClear | src/src/ESPEasyCore/ESPEasyRules.cpp:331 | `bitClearULL` clears bit `bit` and keeps every other bit of the 64. |
| Bits.BitwiseU64 | src/src/ESPEasyCore/ESPEasyRules.cpp:380-386 | Each bit of `^`, `&` or `|` on 64-bit values is that operation on the two input bits. |
| Bits.ClearUndoesSet | src/src/ESPEasyCore/ESPEasyRules.cpp:330-331 | Clearing a bit that was clear before being set restores the value. |
| EventValues.EventValueName | src/src/ESPEasyCore/ESPEasyRules.cpp:544-553 | Every placeholder starts with `%eventvalue` and ends with '%'. |
| EventValues.PlaceholderSpelling | src/src/ESPEasyCore/ESPEasyRules.cpp:544-553 | The placeholders of arguments 0 and 1 are `%eventvalue%` and `%eventvalue1%`. |
| EventValues.PlaceholdersDistinct | src/src/ESPEasyCore/ESPEasyRules.cpp:544-553 | Different argument numbers have different placeholders. |
| EventValues.ArgumentNumber | src/src/ESPEasyCore/ESPEasyRules.cpp:546-550 | Argument 0 reads the first argument, and any other argument reads itself. |
| EventValues.ReplaceEventValueN | src/src/ESPEasyCore/ESPEasyRules.cpp:539-559 | When the argument exists, the line is the left-to-right replacement of the placeholder by it. Otherwise the line is unchanged. |
| EventValues.ReplaceEventValueNCount | src/src/ESPEasyCore/ESPEasyRules.cpp:539-559 | With an argument free of '%', each replaced placeholder takes its two '%' out of the line. A line holding the placeholder therefore loses at least two. |
| EventValues.PlaceholderCanReappear | src/src/ESPEasyCore/ESPEasyRules.cpp:556-558 | A value can form a new placeholder with the text after it, so the line can still hold the placeholder after the replacement. |
| EventValues.SubstitutedLine | src/src/ESPEasyCore/ESPEasyRules.cpp:561-585 | After the callback, a line without `%eventvalue` is kept. An event starting with '!' replaces `%eventvalue%` by the whole event. An event with a '=' after its first character runs the argument rounds 0..4 over the text after the '='. Any other event keeps the line. |
| EventValues.SubstituteEventValue | src/src/ESPEasyCore/ESPEasyRules.cpp:561-585 | The loop over arguments 0..4 gives the substituted line. |
| EventValues.LegacyNameReadsFirstArgument | src/src/ESPEasyCore/ESPEasyRules.cpp:546-549 | `%eventvalue%` and `%eventvalue1%` are both replaced by the first argument. |
| EventValues.NoPlaceholderUnchanged | src/src/ESPEasyCore/ESPEasyRules.cpp:577-581 | The argument loop leaves a line without placeholders unchanged. |
| EventValues.ReplaceFirstNCount | src/src/ESPEasyCore/ESPEasyRules.cpp:577-581 | With arguments free of '%', each placeholder that the first n rounds substitute takes two '%' out of the line. |
| EventValues.ValueEventConsumesPlaceholders | src/src/ESPEasyCore/ESPEasyRules.cpp:572-582 | For a `name=values` event whose values hold no '%', the substituted line loses two '%' per substituted placeholder. When the first value is present, a `%eventvalue%` in the line is always substituted. |
| EventValues.BangEventConsumesPlaceholders | src/src/ESPEasyCore/ESPEasyRules.cpp:566-570 | For an event starting with '!' and holding no '%', each `%eventvalue%` gives up its two '%'. |
| Conditions.TimeCapture | src/src/ESPEasyCore/ESPEasyRules.cpp:952-959 | The captured text is the longest prefix of digits and ':' that has at most 8 characters. |
| Conditions.TimeCaptureUnique | src/src/ESPEasyCore/ESPEasyRules.cpp:952-959 | Those properties determine the captured text. |
| Conditions.CaptureStopsAtLetters | src/src/ESPEasyCore/ESPEasyRules.cpp:947-950 | From "7:07and10:11:12" only "7:07" is captured. |
| Conditions.CaptureIsBounded | src/src/ESPEasyCore/ESPEasyRules.cpp:952 | At most 8 characters are captured. |
| Conditions.TimeStringToSeconds | src/src/ESPEasyCore/ESPEasyRules.cpp:945-1011 | The captured text and the validity and seconds are the capture and parse of the input. |
| Conditions.HoursMinutes | src/src/ESPEasyCore/ESPEasyRules.cpp:971-987 | `HH:MM` is valid with `h*3600 + m*60` exactly when hours are within 0..24 and minutes within 0..59. Bad hours give -1 and bad minutes keep `h*3600`. |
| Conditions.HoursMinutesSeconds | src/src/ESPEasyCore/ESPEasyRules.cpp:989-997 | `HH:MM:SS` adds the seconds, which must lie within 0..59. |
| Conditions.BareHour | src/src/ESPEasyCore/ESPEasyRules.cpp:1002-1006 | A bare hour is not a valid time but still yields `h*3600` when it lies within 0..24. |
| Conditions.ClockExample | src/src/ESPEasyCore/ESPEasyRules.cpp:945-1011 | "10:11:12" is a valid time of 36672 seconds. |
| Conditions.BalancedCounts | src/src/ESPEasyCore/ESPEasyRules.cpp:1028-1039 | After balancing, the '(' and ')' counts are equal and every other character count is unchanged. An already balanced string is untouched. |
| Conditions.BalanceParentheses | src/src/ESPEasyCore/ESPEasyRules.cpp:1015-1041 | The string becomes its balanced form, and the result is left minus right as counted before. |
| Conditions.FirstOperandCut | src/src/ESPEasyCore/ESPEasyRules.cpp:1077-1086 | The right operand is cut at the first position where " and " or " or " starts, and trimmed. Without either it is kept whole. |
| Conditions.ConditionMatch | src/src/ESPEasyCore/ESPEasyRules.cpp:1043-1124 | The result is the condition's value: false without a comparison operator, and otherwise the comparison of the trimmed operands. |
| Conditions.CompareNumerically | src/src/ESPEasyCore/ESPEasyRules.cpp:1076-1094 | The numeric branch compares the balanced left operand with the balanced first right operand. |
| Conditions.CompareAsTimes | src/src/ESPEasyCore/ESPEasyRules.cpp:1068-1095 | When one side is a valid time and both have seconds, the comparison is on seconds. When neither side is valid, the comparison is numeric. |
| Conditions.ClockTimesCompareAsSeconds | src/src/ESPEasyCore/ESPEasyRules.cpp:1062-1073 | Two `HH:MM` operands compare as their numbers of seconds. |
| Conditions.ClockTimeAgainstHour | src/src/ESPEasyCore/ESPEasyRules.cpp:1062-1073 | A clock time against a bare hour within 0..24 compares in seconds. |
| Conditions.NumbersCompareNumerically | src/src/ESPEasyCore/ESPEasyRules.cpp:1068-1094 | Two bare numbers always go to the numeric comparison. |
| Conditions.ConditionMatchExtended | src/src/ESPEasyCore/ESPEasyRules.cpp:843-913 | The do-while loop computes the left-to-right fold of the whole-string condition. |
| Conditions.FalseStaysFalseWithoutOr | src/src/ESPEasyCore/ESPEasyRules.cpp:871-876 | Without " or ", a false accumulated value stays false. |
| Conditions.TrueStaysTrueWithoutAnd | src/src/ESPEasyCore/ESPEasyRules.cpp:884-887 | Without " and ", a true accumulated value stays true. |
| Conditions.LeftToRightExample | src/src/ESPEasyCore/ESPEasyRules.cpp:857-904 | "x or y and z" evaluates as (x-or-y) and z, with no precedence of `and`. |
| RulesEngine.OnLine | src/src/ESPEasyCore/ESPEasyRules.cpp:641-673 | An `on` line resets both counters. A non-empty action makes it a command, and an empty one opens a block. |
| RulesEngine.OnAction | src/src/ESPEasyCore/ESPEasyRules.cpp:647-653 | Without " do" there is no action. |
| RulesEngine.OnMatches | src/src/ESPEasyCore/ESPEasyRules.cpp:651-664 | Without " do" the rule does not match. |
| RulesEngine.SplitOnLine | src/src/ESPEasyCore/ESPEasyRules.cpp:642-664 | The trigger test and the action extraction agree with the `on`-line function. |
| RulesEngine.ParseLine | src/src/ESPEasyCore/ESPEasyRules.cpp:587-700 | Parsing a line never changes the arrays and never raises a counter. |
| RulesEngine.ElseifStep | src/src/ESPEasyCore/ESPEasyRules.cpp:718-748 | `elseif` keeps both counters and the array sizes, and it is never a command. |
| RulesEngine.IfStep | src/src/ESPEasyCore/ESPEasyRules.cpp:751-787 | `if` keeps the state well formed and is never a command. |
| RulesEngine.ConditionalStep | src/src/ESPEasyCore/ESPEasyRules.cpp:718-788 | The `elseif`/`if` handling keeps the state well formed. |
| RulesEngine.ElseStep | src/src/ESPEasyCore/ESPEasyRules.cpp:790-806 | The corrected `else` keeps the size of `ifBranche`. |
| RulesEngine.ProcessRule | src/src/ESPEasyCore/ESPEasyRules.cpp:702-833 | `processMatchedRule` keeps the state well formed, and any command it runs is the action with its event values substituted. |
| RulesEngine.EndonCloses | src/src/ESPEasyCore/ESPEasyRules.cpp:605-614 | A whole-line `endon` in any case clears `match`, `codeBlock`, `isCommand` and both counters. |
| RulesEngine.OnLineOpensRuleOrBlock | src/src/ESPEasyCore/ESPEasyRules.cpp:641-673 | `on … do X` with a non-empty X is a single-line rule, and with an empty X it opens a block. A missing " do" means no match. |
| RulesEngine.SearchSkipsOtherLines | src/src/ESPEasyCore/ESPEasyRules.cpp:597-603 | While searching for a block, a line that does not start with "on " changes nothing. |
| RulesEngine.BlockLineIsAction | src/src/ESPEasyCore/ESPEasyRules.cpp:617-634 | Inside a block, every line other than `endon` becomes the action. It is expanded only when the block matched. |
| RulesEngine.ControlLinesNeverExecute | src/src/ESPEasyCore/ESPEasyRules.cpp:718-817 | `if`, `elseif`, `else` and `endif` lines never run. |
| RulesEngine.OtherLinesRunWhenEnabled | src/src/ESPEasyCore/ESPEasyRules.cpp:710-717 | Any other line runs exactly when no skipped level is open and the innermost level is in its selected branch. |
| RulesEngine.IfPushesOrSkips | src/src/ESPEasyCore/ESPEasyRules.cpp:751-787 | `if` pushes a real level with `ifBranche = true` and its condition only when a level is free and the line is enabled. Otherwise `fakeIfBlock` grows by one, modulo 256. |
| RulesEngine.EndifPops | src/src/ESPEasyCore/ESPEasyRules.cpp:808-817 | `endif` closes a skipped level first, then a real one, and never goes below 0. |
| RulesEngine.ElseifAfterTrueClears | src/src/ESPEasyCore/ESPEasyRules.cpp:725-729 | `elseif` after a taken true branch clears that branch, so nothing after it runs. |
| RulesEngine.ClearedLevelStaysSilent | src/src/ESPEasyCore/ESPEasyRules.cpp:710-788 | One line in a cleared level, with no skipped level open and other than `endif`, runs nothing. It keeps every real level, and opens one skipped level exactly when it is an `if`. |
| RulesEngine.SkippedLevelStaysSilent | src/src/ESPEasyCore/ESPEasyRules.cpp:710-817 | A line read while a skipped level is open never runs and keeps every real level. Only `fakeIfBlock` moves: up by one, modulo 256, for an `if`, down by one for an `endif`. |
| RulesEngine.ClearedLevelStep | src/src/ESPEasyCore/ESPEasyRules.cpp:710-817 | One line of a cleared level, other than the level's own `endif`, runs nothing and keeps every real level, whether or not skipped levels are open. |
| RulesEngine.ClearedLevelSilentUntilEndif | src/src/ESPEasyCore/ESPEasyRules.cpp:710-817 | Every line up to a cleared level's matching `endif` runs nothing, and the level stays as it was. This holds while the skipped nesting stays below 256. At the end the skipped depth is what the `if`s and `endif`s on the way give. |
| RulesEngine.SkipCounterWrapClosesLevelEarly | src/src/ESPEasyCore/ESPEasyRules.cpp:774-777 | At the 256th nested skipped `if`, the 8-bit `fakeIfBlock` wraps to 0. The next `endif` then closes the real level instead of a skipped one. |
| RulesEngine.ElseSelectsOtherBranch | src/src/ESPEasyCore/ESPEasyRules.cpp:790-806 | `else` in a real level switches it to the other branch, so later lines run exactly when the condition was false. |
| RulesEngine.ElseAtTopLevelWritesOutOfBounds | src/src/ESPEasyCore/ESPEasyRules.cpp:794 | As written, an `else` outside any `if` stores before the start of `ifBranche`. |
| RulesEngine.ElseCorrectionAgrees | src/src/ESPEasyCore/ESPEasyRules.cpp:790-806 | The corrected `else` equals the firmware's on every state where the firmware stays inside the array. |
| RulesEngine.TopLevelElseIsInert | src/src/ESPEasyCore/ESPEasyRules.cpp:790-806 | A corrected top-level `else` changes no level and does not run. |
| RulesEngine.BlockState.constructor | src/src/ESPEasyCore/ESPEasyRules.cpp:185-191 | The flags start false, both counters start at 0, and the arrays hold `RULES_IF_MAX_NESTING_LEVEL` levels. |
| RulesEngine.BlockState.ParseCompleteNonCommentLine | src/src/ESPEasyCore/ESPEasyRules.cpp:587-700 | The action and the new flags, arrays and counters are exactly the line-parsing function applied to the old state. |
| RulesEngine.BlockState.ParseOnLine | src/src/ESPEasyCore/ESPEasyRules.cpp:641-673 | The `on`-line branch on the state agrees with the `on`-line function. |
| RulesEngine.BlockState.ProcessMatchedRule | src/src/ESPEasyCore/ESPEasyRules.cpp:702-833 | The new state and the command run are exactly `ProcessRule` of the old state. |
| RulesEngine.BlockState.Gate | src/src/ESPEasyCore/ESPEasyRules.cpp:710-717 | Only `isCommand` changes, and it becomes whether the line is enabled. |
| RulesEngine.BlockState.Elseif | src/src/ESPEasyCore/ESPEasyRules.cpp:718-748 | The arrays and counters become the `elseif` step of the old state. |
| RulesEngine.BlockState.If | src/src/ESPEasyCore/ESPEasyRules.cpp:751-787 | The arrays and counters become the `if` step of the old state. |
| RulesEngine.BlockState.Else | src/src/ESPEasyCore/ESPEasyRules.cpp:790-806 | The state becomes the corrected `else` step. |
| RulesEngine.BlockState.Endif | src/src/ESPEasyCore/ESPEasyRules.cpp:808-817 | The state becomes the `endif` step. |
| RulesEngine.BlockState.ProcessLine | src/src/ESPEasyCore/ESPEasyRules.cpp:197-223 | One pass of the read loop's body agrees with the loop-body function. |
| RulesEngine.LineOutcome | src/src/ESPEasyCore/ESPEasyRules.cpp:205-223 | Parsing then processing a line keeps the state well formed. |
| RulesEngine.RulesProcessor.constructor | src/src/ESPEasyCore/ESPEasyRules.cpp:174 | The static nesting counter starts at 0. |
| RulesEngine.RulesProcessor.RulesProcessingFile | src/src/ESPEasyCore/ESPEasyRules.cpp:158-238 | It returns false and runs nothing when rules are off, the file is missing, or `RULES_MAX_NESTING_LEVEL` would be exceeded. Otherwise the result is the read loop from a fresh state. The nesting counter is always restored. |
| RulesEngine.ReadLoop | src/src/ESPEasyCore/ESPEasyRules.cpp:194-224 | The `while` loop reads lines until the file is exhausted or a matched rule has ended, and its result equals the recursive `Run`. |
| RulesEngine.AtMostOneCommandPerLine | src/src/ESPEasyCore/ESPEasyRules.cpp:196-224 | A file runs at most one command per line. |
| RulesEngine.UnmatchedStaysUnmatched | src/src/ESPEasyCore/ESPEasyRules.cpp:597-673 | When no trigger matches, a line never makes the rule match or run. |
| RulesEngine.NoMatchRunsNothing | src/src/ESPEasyCore/ESPEasyRules.cpp:196-224 | When no trigger matches, the file runs nothing and does not handle the event. |
| RulesEventCache.FirstMatch | src/src/DataStructs/RulesEventCache.cpp:66-101 | The index is the first entry at or after `from` whose trigger matches, or the end. |
| RulesEventCache.RulesEventCache.constructor | src/src/DataStructs/RulesEventCache.cpp:24-28 | A new cache is empty and not initialized. |
| RulesEventCache.RulesEventCache.Clear | src/src/DataStructs/RulesEventCache.cpp:24-28 | The cache becomes empty and not initialized. |
| RulesEventCache.RulesEventCache.Initialize | src/src/DataStructs/RulesEventCache.cpp:30-33 | The cache becomes initialized and keeps its entries. |
| RulesEventCache.RulesEventCache.AddLine | src/src/DataStructs/RulesEventCache.cpp:35-53 | One entry with the file, position, trigger and action is appended exactly when the line parses as a rule. Otherwise nothing changes. The flag is kept. |
| RulesEventCache.RulesEventCache.FindMatchingRule | src/src/DataStructs/RulesEventCache.cpp:55-102 | The result is the first matching entry in insertion order, or the end, and the cache is not modified whatever `optimize` is. |
| RulesEventCache.AppendKeepsEarlierMatch | src/src/DataStructs/RulesEventCache.cpp:49 | Appending never changes an existing first match. Otherwise only the new entry can match. |
| LogEntry.StoredMessage | src/src/DataStructs/LogEntry.cpp:28-33 | The stored message is a prefix of the line, of length `min(|line|, 127)`. |
| LogEntry.TimePassedSince | src/src/DataStructs/LogEntry.cpp:68-71 | The elapsed time is a signed 32-bit value. |
| LogEntry.LogEntry.constructor | src/src/DataStructs/LogEntry.cpp:61-66 | A new entry is empty with level and time 0. |
| LogEntry.LogEntry.Add | src/src/DataStructs/LogEntry.cpp:15-59 | It returns true exactly for a non-empty line and then stores the truncated message, the level and the time. An empty line changes nothing. |
| LogEntry.LogEntry.Clear | src/src/DataStructs/LogEntry.cpp:61-66 | The message becomes empty and the level and time become 0. |
| LogEntry.LogEntry.IsExpired | src/src/DataStructs/LogEntry.cpp:8-12 | Expired exactly when the elapsed time reaches `LOG_BUFFER_EXPIRE`, which is 30000 on the ESP32 and 5000 otherwise. |
| LogEntry.ExpiresAfterBufferTime | src/src/DataStructs/LogEntry.cpp:68-71 | Across a counter wrap-around, an entry added `elapsed < 2^31` ms ago has elapsed time `elapsed` and is expired exactly when that reaches the limit. |
| Axp2101Selectors.ChargeLed | src/src/PluginStructs/P139_data_struct_formselectors.cpp:18-25 | Negative gives `Off`, indexes up to `Steady_On` give themselves, and anything larger gives `Protected`. |
| Axp2101Selectors.ZeroTo200mA | src/src/PluginStructs/P139_data_struct_formselectors.cpp:50-56 | The current lies within 0..200 mA and is a multiple of 25. |
| Axp2101Selectors.ConstChargeCurrent | src/src/PluginStructs/P139_data_struct_formselectors.cpp:82-90 | The current lies within 0..1000 mA and is a multiple of 25. |
| Axp2101Selectors.CvChargerVoltage | src/src/PluginStructs/P139_data_struct_formselectors.cpp:138-146 | The result is `reserved`, or the enum at index + `limit_4_00V` when that is below `MAX`. |
| Axp2101Selectors.VsysOptionString | src/src/PluginStructs/P139_data_struct_formselectors.cpp:171-179 | The text is empty exactly outside 0..MAX-1, and is "4." followed by i+1 inside. |
| Axp2101Selectors.InputCurrentLimitOptionString | src/src/PluginStructs/P139_data_struct_formselectors.cpp:217-228 | The text is empty exactly outside 0..MAX-1. Inside, it is the decimal current limit. |
| Axp2101Selectors.ConstChargeMatchesTable | src/src/PluginStructs/P139_data_struct_formselectors.cpp:73-90 | Each of the 17 options equals the explicit table 0, 25, …, 200, 300, …, 1000. |
| Axp2101Selectors.ConstChargeMonotone | src/src/PluginStructs/P139_data_struct_formselectors.cpp:82-90 | A higher index never gives a lower current. |
| Axp2101Selectors.ZeroTo200mASteps | src/src/PluginStructs/P139_data_struct_formselectors.cpp:50-56 | The current is monotone, is `25*i` for i up to 8, and is 200 from 8 on. |
| Axp2101Selectors.InputCurrentLimitValues | src/src/PluginStructs/P139_data_struct_formselectors.cpp:217-228 | The limits are 100, 500, 900, 1000, 1500 and 2000 mA, strictly increasing. |
| Axp2101Selectors.VsysOptionStrings | src/src/PluginStructs/P139_data_struct_formselectors.cpp:171-179 | With 8 options the texts run from "4.1" to "4.8", and out of range they are empty. |
| FormSelector.CopyPrefix | src/src/DataTypes/FormSelectorOptions.cpp:23-29 | The copy is a fresh array holding the first `n` entries. |
| FormSelector.FormSelectorOptions.constructor | src/src/DataTypes/FormSelectorOptions.cpp:5-9 | Only the option count is set, and no arrays exist. |
| FormSelector.FormSelectorOptions.WithIndices | src/src/DataTypes/FormSelectorOptions.cpp:11-30 | The values and, when given, the attributes are copied for every k below the option count. |
| FormSelector.FormSelectorOptions.WithNames | src/src/DataTypes/FormSelectorOptions.cpp:32-91 | The names and, when given, the values and attributes are copied. Null values stay null. |
| FormSelector.FormSelectorOptions.Axp2101 | src/src/PluginStructs/P139_data_struct_formselectors.cpp:9-16 | Each AXP2101 selector has the option count its constructor passes to the base class. |
| FormSelector.FormSelectorOptions.BaseOptionString | src/src/DataTypes/FormSelectorOptions.cpp:103-121 | The text is empty past the last option. Otherwise it is the flash name, else the `String` name, else the decimal value, else the decimal index, in that order. |
| FormSelector.FormSelectorOptions.BaseIndexValue | src/src/DataTypes/FormSelectorOptions.cpp:123-133 | The value is -1 past the last option. Otherwise it is the stored value at that index when a values array exists, and the index itself when none does. |
| FormSelector.FormSelectorOptions.AddFormSelector | src/src/DataTypes/FormSelectorOptions.cpp:182-193 | One item per option, in order, with that option's text, value and attribute. It is marked selected exactly when its value equals `selectedIndex`. |
| FormSelector.NoIndicesMeansIdentity | src/src/DataTypes/FormSelectorOptions.cpp:123-133 | Without a values array, `getIndexValue` is the identity below the count and -1 from it on. |
| FormSelector.ValuesOnlyShowValues | src/src/DataTypes/FormSelectorOptions.cpp:103-121 | A selector with values but no names shows each value as its text. |
| FormSelector.NumericSelectorsShowValues | src/src/PluginStructs/P139_data_struct_formselectors.cpp:58-123 | For the current selectors, `getOptionString(i)` is the decimal form of `getIndexValue(i)`. |
| Axp192.ToI16 | src/src/PluginStructs/P137_data_struct.cpp:7-13 | The conversion to `int16_t` keeps values in range and is congruent modulo 2^16. |
| Axp192.SettingToValue | src/src/PluginStructs/P137_data_struct.cpp:7-13 | Above the threshold the value is `threshold - data`, which is negative. Otherwise it is `data`. |
| Axp192.ValueToSetting | src/src/PluginStructs/P137_data_struct.cpp:15-21 | A negative value is stored as `threshold - data`, above the threshold. Any other value is stored as itself. |
| Axp192.SettingRoundTrip | src/src/PluginStructs/P137_data_struct.cpp:7-21 | Decoding the encoding of any `d <= t` that fits gives `d` back, and -1 is stored as `t + 1`. |
| Axp192.AboveThresholdReadsNegative | src/src/PluginStructs/P137_data_struct.cpp:7-21 | A positive value above the threshold does not survive the round trip and reads back as `t - d`. |
| Axp192.PackHalves | src/src/PluginStructs/P137_data_struct.cpp:51-52 | `(hi << 16) \| lo` puts `hi` in the upper and `lo` in the lower 16 bits of a 32-bit value. |
| Axp192.Settings.CheckPredefinedParameters | src/src/PluginStructs/P137_data_struct.cpp:39-89 | It does nothing when no board is selected. Otherwise it records the board, resets GPIO flags 0..4 to `Default` (Core2 then sets GPIO1 and GPIO4 high) and writes the board's preset. |
| Axp192.PresetContents | src/src/PluginStructs/P137_data_struct.cpp:48-83 | Every preset turns DCDC2 off (it reads back -1). Core2 sets LDO2 to 3300 mV, and its disable bits turn off GPIO3 (bit 6) and DCDC2 (bit 8) but leave LDOIO (bit 2) on. |
| Axp192.BootStatesOfCore2 | src/src/PluginStructs/P137_data_struct.cpp:44-65 | Only Core2 differs from the default, and only on GPIO1 and GPIO4, which are `Output_high`. |
| Axp192.DirectRail | src/src/PluginStructs/P137_data_struct.cpp:371-439 | A direct subcommand's rail is checked against the disable bit with its own number. |
| Axp192.Axp192Plugin.constructor | src/src/PluginStructs/P137_data_struct.cpp:148-175 | With a driver, the rails' values start from the configured settings. |
| Axp192.Axp192Plugin.PercentCommand | src/src/PluginStructs/P137_data_struct.cpp:271-324 | The percentage branch agrees with its specification function. |
| Axp192.Axp192Plugin.MapCommand | src/src/PluginStructs/P137_data_struct.cpp:325-369 | The range branch agrees with its specification function. |
| Axp192.Axp192Plugin.DirectCommand | src/src/PluginStructs/P137_data_struct.cpp:370-445 | The direct-value branch agrees with its specification function. |
| Axp192.Axp192Plugin.PluginWrite | src/src/PluginStructs/P137_data_struct.cpp:255-449 | Success, the new values and ranges, and the driver calls are the command's specification, using the corrected subcommand list. |
| Axp192.DisabledRailUntouched | src/src/PluginStructs/P137_data_struct.cpp:271-445 | A rail whose disable bit is set keeps its value and its range, and is never set on the driver. |
| Axp192.OnlyNamedRailChanges | src/src/PluginStructs/P137_data_struct.cpp:271-445 | A command changes at most the rail that its subcommand names. |
| Axp192.MapBranchSetsRange | src/src/PluginStructs/P137_data_struct.cpp:325-369 | A `*map` command succeeds and sets `<low>,<high>` exactly when the rail is enabled, `ldoiomap`'s low is at least the minimum, and `dcdc2map`'s high is at most DCDC2's maximum. Otherwise nothing changes. |
| Axp192.PercentBranch | src/src/PluginStructs/P137_data_struct.cpp:271-324 | Three arguments with 0..100 always take the percentage branch. A value above 0 maps through the range and 0 gives 0. `ldoioperc` with 0 changes nothing. Non-`*perc` subcommands fail. |
| Axp192.OtherCommandsIgnored | src/src/PluginStructs/P137_data_struct.cpp:257-260 | A non-`axp` line, or a plugin without a driver, fails and changes nothing. |
| Axp192.CorrectedListFindsEveryCode | src/src/PluginStructs/P137_data_struct.cpp:231-253 | In the corrected list every subcommand name is found at its enum code. |
| Axp192.Ldo3PercentAsWritten | src/src/PluginStructs/P137_data_struct.cpp:229-230 | `axp,ldo3perc,50` fails with the list as written and succeeds with the corrected list. |
| Axp192.AsWrittenLacksLdo3Perc | src/src/PluginStructs/P137_data_struct.cpp:229-230 | The list as written does not hold "ldo3perc". |
| Axp192.CorrectedListHasLdo3Perc | src/src/PluginStructs/P137_data_struct.cpp:231-253 | The corrected list finds "ldo3perc" at code 11. |
| Axp192.PercentCommandWrite | src/src/PluginStructs/P137_data_struct.cpp:257-274 | An `axp` command with a 0..100 percentage goes to the percentage branch with the looked-up code. |
| Axp192.ConfigValueOption | src/src/PluginStructs/P137_data_struct.cpp:479-488 | An unknown name (-1) gives nothing. With positive DCDC options, every known name gives an option above 0, so `None` is never selected. |
| Axp192.ConfigValuesMatchList | src/src/PluginStructs/P137_data_struct.cpp:454-488 | The k-th name selects the k-th of 1..13, 0x12, 0x13. |
| Axp192.UnknownValueNameNotHandled | src/src/PluginStructs/P137_data_struct.cpp:476-479 | The lookup fails exactly for a name that is not in the list. |

## Left out

- Numeric comparison: the branch of `conditionMatch` evaluates both sides with `Calculate` in double precision, which the model does not do. It is an abstract comparison `numericCompare` over the balanced operand texts.
- Floating-point macros: `parse_math_functions` (`constrain`) and `doubleToString` are an abstract `mathMacro`.
- AXP2101 `Vin_DPM` option string: it is floating-point text and is not modelled.
- Rules reading and I/O: `rulesProcessing`, file existence, `readLn` and the serial debug output are not modelled. A rules file is the sequence of lines the reader yields, and `None` when the file is missing.
- Timers and cooperative yields: timers, `backgroundtasks`, `delay(0)` and all logging are omitted, because they do not affect the state.
- `ExecuteCommand_all`: commands are appended, in order, to the returned `dispatched` list instead of being executed, so any recursion into further rule files is not modelled.
- Nesting limits: `RULES_MAX_NESTING_LEVEL` and `RULES_IF_MAX_NESTING_LEVEL` are constructor parameters, because their header is not part of this model.
- Uninitialized arrays: `condition[]` and `ifBranche[]` are uninitialized C arrays. The model starts from arbitrary contents (the `exists` in `RulesProcessingFile`).
- RulesEngine.LineSteps: its alternative for ill-formed states exists only to make the function total. The read loop never reaches it.
- RulesEngine.ClearedLevelSilentUntilEndif: it requires skipped nesting below 256 (`StaysInside`). At that depth the byte counter `fakeIfBlock` wraps to 0, as in the firmware. An `endif` then closes the cleared level early, and the lines after it run in the enclosing level (`SkipCounterWrapClosesLevelEarly`). So "silent until its `endif`" holds in the firmware only below that depth.
- RulesEngine.ElseStep: it is the corrected `else` (see Findings). The firmware's out-of-bounds store at the top level is modelled separately by `ElseStepAsWritten`.
- `createRuleEvents` is not modelled: it depends on task settings, value formatting and the event queue, none of which is shown.
- `processNextEvent` is not modelled either.
- ArduinoString.Trim: its own contract states only that the result is no longer than the input, so that callers stay cheap. Which characters are removed (a slice of the input, with white space removed from both ends) is stated by the lemma `TrimStrips`.
- Arduino `String::replace`: the model replaces occurrences left to right. The firmware works right to left when the replacement is longer. The two orders differ only on overlapping occurrences. The `{…}` spans replaced in `parse_string_commands` cannot overlap, but `%eventvalueN%` placeholders can share a '%', as in `%eventvalue1%eventvalue1%`. For such a line with a longer value, `substitute_eventvalue` in the firmware may give a different line from the model's.
- Bits.BitSet: a shift by 64 or more is undefined in C. The model takes it to change nothing, and `bitRead` to read 0.
- Bits.BitClear: the same convention holds for a shift by 64 or more.
- `ull2String`, `URLEncode` and `strtoul`: their text is abstract.
- `ord`: reads `arg1[0]` as a byte and gives 0 for an empty argument (the terminating NUL).
- LogEntry.LogEntry.Add: the copy and the move overload of `add` are one method, since they store the same message for the same line. Moving the argument out is not modelled.
- LogEntry.TimePassedSince: `millis()` is a parameter, and the difference is the signed 32-bit reading of the wrapped difference.
- Enum values: values of `AXP2101_*_e`, `P137_PredefinedDevices_e`, `P137_GPIOBootState_e` and `P137_valueOptions_e`, and the `P137_CONST_*` limits, are symbolic (`Enums`, `Codes`, `Limits`), because their headers are not part of this model. The `toString` switches are omitted for the same reason.
- Axp192.PackHalves: the integer promotion of `uint16_t << 16` to a 32-bit `int` is not modelled. The packed value is the mathematical `hi * 2^16 + lo`.
- Axp192.ToU16: the configuration slots are 16-bit, and the model takes the conversion modulo 2^16.
- Axp192 rail values: the `*_value` fields and the `*_range` pairs of the five rails are held as `PerRail` values rather than ten separate fields.
- Axp192 driver calls: calls to the `axp192` driver are returned as a list of `DeviceCall`s.
- Axp192 `map`: Arduino `map` is an abstract helper.
- Axp192.CorrectedListFindsEveryCode: `GetCommandCode` is abstract, so the lookup property is a hypothesis (`FindsExactly`) and not a fact about the helper.
- `plugin_read`, `read_value` and the config-value string: they read the device, and the `toString(float)` of the value is not modelled.
- Hardware-bound code: the constructor's `axp192->begin` and the destructor.
- HTML emission: `addFormSelector`'s output (`addSelector_Head`/`Foot`, `addUnit`) and `delay(0)` are omitted. The model returns the option items.
- The P139 plugin outside its form selectors, the HLW8012 library and the controllers are not part of this model.

## Findings

| source | as written | input that shows it | evidently intended | confidence | as-written member | corrected member |
|---|---|---|---|---|---|---|
| src/src/ESPEasyCore/ESPEasyRules.cpp:790-794 | `else` stores `ifBranche[ifBlock - 1] = false` whenever `fakeIfBlock` is 0, also when `ifBlock` is 0 | a matched block `on e do` / `else` / `endon`, processed with `ifBlock == 0`, writes `ifBranche[-1]` | an `else` outside any `if` only keeps itself from executing and changes no level | high (not executed) | RulesEngine.ElseAtTopLevelWritesOutOfBounds (on RulesEngine.ElseStepAsWritten) | RulesEngine.TopLevelElseIsInert (on RulesEngine.ElseStep, with RulesEngine.ElseCorrectionAgrees) |
| src/src/PluginStructs/P137_data_struct.cpp:229-230 | the subcommand list spells `lco3perc`, `dcdc3pers` and `lco3map`, while the enum has `ldo3perc`, `dcdc3perc` and `ldo3map` (codes 11, 14, 16) | `axp,ldo3perc,50` finds no code (-1), so the command fails | every enum name is found at its own code, so `axp,ldo3perc,50` sets LDO3 to 50 % | high (not executed) | Axp192.Ldo3PercentAsWritten (on Axp192.P137_SUBCOMMANDS) | Axp192.CorrectedListFindsEveryCode (on Axp192.SUBCOMMAND_NAMES, used by Axp192.Axp192Plugin.PluginWrite) |
