/**
 * Firmware helpers that the rules interpreter calls but whose code is not part
 * of this model.  Each one is a field of `Capabilities`, so every operation that
 * needs one receives it as a parameter and nothing is assumed about it beyond
 * what a predicate below states explicitly where a property needs it.
 */
module Collaborators {
  import opened Wrappers
  import opened ArduinoString
  import opened Bits

  type U32 = x: nat | x < 0x1_0000_0000

  const INT32_MAX: nat := 0x7FFF_FFFF

  /** The comparison operator `findCompareCondition` recognises between two operands. */
  datatype Compare = Equal | NotEqual | Less | LessEqual | Greater | GreaterEqual

  /** What `findCompareCondition` reports: the operator and where it starts and ends. */
  datatype CompareSplit = CompareSplit(compare: Compare, posStart: nat, posEnd: nat)

  datatype Capabilities = Capabilities(
    /** `ruleMatch(event, trigger)`. */
    ruleMatch: (string, string) -> bool,
    /** `parseTemplate(line)`: `[task#value]` and `%sysvar%` expansion. */
    parseTemplate: string -> string,
    /** The optional `substitute_eventvalue_CallBack_ptr(line, event)`, returning the new line. */
    eventValueCallback: Option<(string, string) -> string>,
    /** `GetArgv(argString, tmpParam, n)`: the n-th comma-separated argument, when present. */
    getArgv: (string, nat) -> Option<string>,
    /** `findCompareCondition(check, compare, posStart, posEnd)`. */
    findCompareCondition: string -> Option<CompareSplit>,
    /**
     * `Calculate` on both balanced operands followed by `compareDoubleValues`;
     * false when either calculation reports an error.
     */
    numericCompare: (Compare, string, string) -> bool,
    /** `parseString(s, k, ':')`: the k-th ':'-separated field, lower-cased. */
    parseString: (string, nat) -> string,
    /** `parseStringKeepCase(s, k, ':')`. */
    parseStringKeepCase: (string, nat) -> string,
    /** `validIntFromString`. */
    validInt: string -> Option<int>,
    /** `validUIntFromString` (32-bit). */
    validUInt: string -> Option<U32>,
    /** `validUInt64FromString`. */
    validUInt64: string -> Option<U64>,
    /** `ull2String(value, base)`. */
    ull2String: (U64, nat) -> string,
    /** `URLEncode`. */
    urlEncode: string -> string,
    /** `strtoul(s, nullptr, base)`; `unsigned long` is 32 bits wide on the targets. */
    strtoul: (string, U64) -> U32,
    /**
     * `parse_math_functions` followed by `doubleToString`: the rendered result of a
     * math macro such as `{sqrt:16}`, or `None` when the name is not a math function.
     */
    mathMacro: (string, string, string, string) -> Option<string>,
    /** `getEventFromRulesLine(line, event, action)`. */
    getEventFromRulesLine: string -> Option<(string, string)>
  )

  /**
   * The number parsers read a non-empty string of decimal digits as its value
   * whenever that value fits the target type.
   */
  ghost predicate DecimalParser(c: Capabilities)
  {
    && (forall s {:trigger c.validInt(s)} :: AllDigits(s) && |s| > 0 && DecimalValue(s) <= INT32_MAX ==> c.validInt(s) == Some(DecimalValue(s) as int))
    && (forall s {:trigger c.validUInt(s)} :: AllDigits(s) && |s| > 0 && DecimalValue(s) < 0x1_0000_0000 ==> c.validUInt(s) == Some(DecimalValue(s) as U32))
    && (forall s {:trigger c.validUInt64(s)} :: AllDigits(s) && |s| > 0 && DecimalValue(s) < 0x1_0000_0000_0000_0000 ==> c.validUInt64(s) == Some(DecimalValue(s) as U64))
  }

  /**
   * No helper whose output lands inside a rules line during macro expansion ever
   * produces a '}' that its input did not hold.
   */
  ghost predicate NoBraceOutputs(c: Capabilities)
  {
    && (forall s, k :: '}' !in s ==> '}' !in c.parseStringKeepCase(s, k))
    && (forall v, b :: '}' !in c.ull2String(v, b))
    && (forall s :: '}' !in c.urlEncode(s))
    && (forall a, b, d, e :: c.mathMacro(a, b, d, e).Some? ==> '}' !in c.mathMacro(a, b, d, e).value)
  }

  /** `compareIntValues(compare, a, b)`. */
  function IntCompare(compare: Compare, a: int, b: int): bool
  {
    match compare
    case Equal => a == b
    case NotEqual => a != b
    case Less => a < b
    case LessEqual => a <= b
    case Greater => a > b
    case GreaterEqual => a >= b
  }
}
