/**
 * The `{function:arg1:arg2:arg3}` macro expander of the rules engine: the
 * innermost brace pair is found, its command is evaluated and the braces with
 * their contents are replaced by the result; a macro that yields nothing is
 * masked (its braces become the bytes 0x02/0x03) so that the search moves on,
 * and the masks are turned back into braces at the end.
 */
module MacroExpander {
  import opened Wrappers
  import opened ArduinoString
  import opened Collaborators
  import opened Bits

  // ---------------------------------------------------------------------------
  // get_next_inner_bracket
  // ---------------------------------------------------------------------------

  datatype Bracket = NotFound | Found(open: nat, close: nat)

  function OpeningFor(closing: char): Option<char>
  {
    if closing == ']' then Some('[')
    else if closing == '}' then Some('{')
    else if closing == ')' then Some('(')
    else None
  }

  /**
   * `get_next_inner_bracket(line, startIndex, closingIndex, closing)`: the first
   * closing bracket after position `startIndex + 1`, together with the nearest
   * opening bracket before it that lies strictly after `startIndex`.
   */
  function InnerBracket(line: string, startIndex: nat, closing: char): (r: Bracket)
    ensures |line| <= 1 || OpeningFor(closing).None? ==> r == NotFound
    ensures r.Found? ==>
      && startIndex < r.open < r.close < |line|
      && OpeningFor(closing) == Some(line[r.open])
      && line[r.close] == closing
      && (forall k :: startIndex + 1 <= k < r.close ==> line[k] != closing)
      && (forall k :: r.open < k < r.close ==> line[k] != line[r.open])
    ensures r.NotFound? && |line| > 1 && OpeningFor(closing).Some? ==>
      var c := IndexOfChar(line, closing, startIndex + 1);
      c == -1 || forall k :: startIndex < k < c ==> line[k] != OpeningFor(closing).value
  {
    if |line| <= 1 then NotFound
    else match OpeningFor(closing)
      case None => NotFound
      case Some(opening) =>
        var closingIndex := IndexOfChar(line, closing, startIndex + 1);
        if closingIndex == -1 then NotFound
        else
          var i := LastIndexBetween(line, opening, startIndex, closingIndex);
          if i == -1 then NotFound else Found(i, closingIndex)
  }

  /** The opening bracket at `startIndex` itself is never reported, so neither is one at position 0 on the first search. */
  lemma BracketAtLineStartSkipped(line: string)
    requires |line| >= 2 && line[0] == '{' && line[|line| - 1] == '}'
    requires forall k :: 0 < k < |line| - 1 ==> line[k] != '{' && line[k] != '}'
    ensures InnerBracket(line, 0, '}') == NotFound
  {
    assert IndexOfChar(line, '}', 1) == |line| - 1;
  }

  /**
   * Searching again from the opening bracket just found, in an unchanged line,
   * finds nothing: the pair found has no opening bracket between its ends.
   */
  lemma SearchFromOpeningEnds(line: string, startIndex: nat, closing: char)
    requires InnerBracket(line, startIndex, closing).Found?
    ensures InnerBracket(line, InnerBracket(line, startIndex, closing).open, closing) == NotFound
  {
    var b := InnerBracket(line, startIndex, closing);
    var c := IndexOfChar(line, closing, b.open + 1);
    assert c == b.close;
  }

  // ---------------------------------------------------------------------------
  // get_next_argument
  // ---------------------------------------------------------------------------

  /** The outcome of one `get_next_argument` call: the result, the argument and the next index. */
  datatype ArgumentStep = ArgumentStep(found: bool, argument: string, next: int)

  /**
   * `get_next_argument(fullCommand, index, argument, separator)`; `index == -1`
   * means the previous field was the last one (the argument is then left empty).
   */
  function NextArgument(full: string, index: int, sep: char): (r: ArgumentStep)
    requires index >= -1
    ensures index == -1 ==> r == ArgumentStep(false, "", -1)
    ensures r.found <==> |r.argument| > 0
    ensures sep !in r.argument
    ensures r.next == -1 || (index >= 0 && index < r.next <= |full| && full[r.next - 1] == sep)
    ensures index >= 0 && r.next == -1 ==> r.argument == SubstringFrom(full, index)
    ensures index >= 0 && r.next != -1 ==> r.argument == full[index..r.next - 1]
  {
    if index == -1 then ArgumentStep(false, "", -1)
    else
      var newIndex := IndexOfChar(full, sep, index);
      var arg0 := if newIndex == -1 then SubstringFrom(full, index) else Substring(full, index, newIndex);
      var arg := if |arg0| > 0 && arg0[0] == sep then arg0[1..] else arg0;
      ArgumentStep(|arg| > 0, arg, if newIndex != -1 then newIndex + 1 else -1)
  }

  // ---------------------------------------------------------------------------
  // parse_bitwise_functions
  // ---------------------------------------------------------------------------

  /** `parse_bitwise_functions(cmd, arg1, arg2, arg3, result)`. */
  function BitwiseFunction(c: Capabilities, cmd: string, arg1: string, arg2: string, arg3: string): (r: Option<U64>)
    ensures |cmd| < 2 ==> r == None
    ensures r.Some? ==> cmd in ["bitread", "bitset", "bitclear", "bitwrite", "xor", "and", "or"]
    ensures "bit" <= cmd && (c.validUInt(arg1).None? || c.validUInt64(arg2).None?) ==> r == None
    ensures !("bit" <= cmd) && (c.validUInt64(arg1).None? || c.validUInt64(arg2).None?) ==> r == None
    ensures cmd == "bitwrite" && c.validUInt(arg3).None? ==> r == None
    ensures c.validUInt(arg1).Some? && c.validUInt64(arg2).Some? ==>
      var bit, v := c.validUInt(arg1).value, c.validUInt64(arg2).value;
      && (cmd == "bitread" ==> r == Some(BitRead(v, bit)))
      && (cmd == "bitset" ==> r == Some(BitSet(v, bit)))
      && (cmd == "bitclear" ==> r == Some(BitClear(v, bit)))
      && (cmd == "bitwrite" && c.validUInt(arg3).Some? ==>
            r == Some(if c.validUInt(arg3).value % 2 == 1 then BitSet(v, bit) else BitClear(v, bit)))
    ensures c.validUInt64(arg1).Some? && c.validUInt64(arg2).Some? ==>
      var a, b := c.validUInt64(arg1).value, c.validUInt64(arg2).value;
      && (cmd == "xor" ==> r == Some(BitwiseU64(Xor, a, b)))
      && (cmd == "and" ==> r == Some(BitwiseU64(And, a, b)))
      && (cmd == "or" ==> r == Some(BitwiseU64(Or, a, b)))
  {
    assert "bit"[0] != "xor"[0] && "bit"[0] != "and"[0] && "bit"[0] != "or"[0];
    if |cmd| < 2 then None
    else if "bit" <= cmd then
      match (c.validUInt(arg1), c.validUInt64(arg2))
      case (Some(bit), Some(v)) =>
        if cmd == "bitread" then Some(BitRead(v, bit))
        else if cmd == "bitset" then Some(BitSet(v, bit))
        else if cmd == "bitclear" then Some(BitClear(v, bit))
        else if cmd == "bitwrite" then
          match c.validUInt(arg3)
          case Some(w) => Some(if w % 2 == 1 then BitSet(v, bit) else BitClear(v, bit))
          case None => None
        else None
      case _ => None
    else
      match (c.validUInt64(arg1), c.validUInt64(arg2))
      case (Some(a), Some(b)) =>
        if cmd == "xor" then Some(BitwiseU64(Xor, a, b))
        else if cmd == "and" then Some(BitwiseU64(And, a, b))
        else if cmd == "or" then Some(BitwiseU64(Or, a, b))
        else None
      case _ => None
  }

  /** `bitwrite` looks only at the lowest bit of its third argument. */
  lemma BitwriteUsesLowBit(c: Capabilities, arg1: string, arg2: string, arg3: string, arg3': string)
    requires c.validUInt(arg3).Some? && c.validUInt(arg3').Some?
    requires c.validUInt(arg3).value % 2 == c.validUInt(arg3').value % 2
    ensures BitwiseFunction(c, "bitwrite", arg1, arg2, arg3) == BitwiseFunction(c, "bitwrite", arg1, arg2, arg3')
  {
  }

  /** A `bit…` name that is none of the four functions yields no result. */
  lemma UnknownBitFunction(c: Capabilities, cmd: string, arg1: string, arg2: string, arg3: string)
    requires "bit" <= cmd && cmd !in ["bitread", "bitset", "bitclear", "bitwrite"]
    ensures BitwiseFunction(c, cmd, arg1, arg2, arg3) == None
  {
  }

  lemma DecimalLiterals()
    ensures DecimalValue("0") == 0 && DecimalValue("15") == 15 && DecimalValue("122") == 122
    ensures DecimalValue("123") == 123 && DecimalValue("127") == 127 && DecimalValue("254") == 254
  {
    assert "12"[..1] == "1" && "15"[..1] == "1" && "25"[..1] == "2";
    assert "122"[..2] == "12" && "123"[..2] == "12" && "127"[..2] == "12" && "254"[..2] == "25";
  }

  lemma XorExample()
    ensures Bitwise(Xor, 127, 15) == 112
  {
    assert Bitwise(Xor, 1, 0) == 1;
    assert Bitwise(Xor, 3, 0) == 3;
    assert Bitwise(Xor, 7, 0) == 7;
    assert Bitwise(Xor, 15, 1) == 14;
    assert Bitwise(Xor, 31, 3) == 28;
    assert Bitwise(Xor, 63, 7) == 56;
  }

  lemma AndExample()
    ensures Bitwise(And, 254, 15) == 14
  {
    assert Bitwise(And, 1, 0) == 0;
    assert Bitwise(And, 3, 0) == 0;
    assert Bitwise(And, 7, 0) == 0;
    assert Bitwise(And, 15, 1) == 1;
    assert Bitwise(And, 31, 3) == 3;
    assert Bitwise(And, 63, 7) == 7;
    assert Bitwise(And, 127, 15) == 15;
  }

  lemma OrExample()
    ensures Bitwise(Or, 254, 15) == 255
  {
    assert Bitwise(Or, 1, 0) == 1;
    assert Bitwise(Or, 3, 0) == 3;
    assert Bitwise(Or, 7, 0) == 7;
    assert Bitwise(Or, 15, 1) == 15;
    assert Bitwise(Or, 31, 3) == 31;
    assert Bitwise(Or, 63, 7) == 63;
    assert Bitwise(Or, 127, 15) == 127;
  }

  /** What the number parsers give for a short decimal literal. */
  lemma ReadsDecimal(c: Capabilities, s: string, n: nat)
    requires DecimalParser(c) && AllDigits(s) && |s| > 0 && DecimalValue(s) == n && n < 0x1_0000_0000
    ensures c.validUInt(s) == Some(n) && c.validUInt64(s) == Some(n)
  {
  }

  /** `{bitset:0:122}`: setting bit 0 of 122 gives 123. */
  lemma BitSetMacroExample(c: Capabilities)
    requires DecimalParser(c)
    ensures BitwiseFunction(c, "bitset", "0", "122", "") == Some(123)
  {
    DecimalLiterals();
    ReadsDecimal(c, "0", 0);
    ReadsDecimal(c, "122", 122);
    assert BitSet(122, 0) == 123;
  }

  /** `{bitclear:0:123}`: clearing bit 0 of 123 gives 122. */
  lemma BitClearMacroExample(c: Capabilities)
    requires DecimalParser(c)
    ensures BitwiseFunction(c, "bitclear", "0", "123", "") == Some(122)
  {
    DecimalLiterals();
    ReadsDecimal(c, "0", 0);
    ReadsDecimal(c, "123", 123);
    assert BitClear(123, 0) == 122;
  }

  /** `{bitread:0:123}`: bit 0 of 123 is 1. */
  lemma BitReadMacroExample(c: Capabilities)
    requires DecimalParser(c)
    ensures BitwiseFunction(c, "bitread", "0", "123", "") == Some(1)
  {
    DecimalLiterals();
    ReadsDecimal(c, "0", 0);
    ReadsDecimal(c, "123", 123);
    assert BitRead(123, 0) == 1;
  }

  /** `{bitwrite:0:122:1}`: writing 1 into bit 0 of 122 gives 123. */
  lemma BitWriteMacroExample(c: Capabilities)
    requires DecimalParser(c)
    ensures BitwiseFunction(c, "bitwrite", "0", "122", "1") == Some(123)
  {
    DecimalLiterals();
    assert DecimalValue("1") == 1;
    ReadsDecimal(c, "0", 0);
    ReadsDecimal(c, "1", 1);
    ReadsDecimal(c, "122", 122);
    assert BitSet(122, 0) == 123;
  }

  /** The worked example of `xor`. */
  lemma XorMacroExample(c: Capabilities)
    requires DecimalParser(c)
    ensures BitwiseFunction(c, "xor", "127", "15", "") == Some(112)
  {
    DecimalLiterals();
    ReadsDecimal(c, "15", 15);
    ReadsDecimal(c, "127", 127);
    XorExample();
    assert BitwiseU64(Xor, 127, 15) == 112;
    assert "bit"[0] != "xor"[0];
  }

  /** The worked example of `and`. */
  lemma AndMacroExample(c: Capabilities)
    requires DecimalParser(c)
    ensures BitwiseFunction(c, "and", "254", "15", "") == Some(14)
  {
    DecimalLiterals();
    ReadsDecimal(c, "15", 15);
    ReadsDecimal(c, "254", 254);
    AndExample();
    assert "bit"[0] != "and"[0];
    assert BitwiseU64(And, 254, 15) == 14;
  }

  /** The worked example of `or`. */
  lemma OrMacroExample(c: Capabilities)
    requires DecimalParser(c)
    ensures BitwiseFunction(c, "or", "254", "15", "") == Some(255)
  {
    DecimalLiterals();
    ReadsDecimal(c, "15", 15);
    ReadsDecimal(c, "254", 254);
    OrExample();
    assert "bit"[0] != "or"[0];
    assert BitwiseU64(Or, 254, 15) == 255;
  }

  // ---------------------------------------------------------------------------
  // One macro
  // ---------------------------------------------------------------------------

  /** Arduino `substring` takes `unsigned int` bounds: a negative bound wraps. */
  function ToUnsigned32(i: int): nat
  {
    i % 0x1_0000_0000
  }

  /**
   * The replacement text of the macro whose text between the braces is `fc`, or
   * `None` when its command field is empty (the line is then left alone).  An
   * empty replacement means the macro is not supported.
   */
  function MacroReplacement(c: Capabilities, fc: string): Option<string>
  {
    var cmd := c.parseString(fc, 1);
    var arg1 := c.parseStringKeepCase(fc, 2);
    var arg2 := c.parseStringKeepCase(fc, 3);
    var arg3 := c.parseStringKeepCase(fc, 4);
    if |cmd| == 0 then None
    else Some(
      if c.mathMacro(cmd, arg1, arg2, arg3).Some? then c.mathMacro(cmd, arg1, arg2, arg3).value
      else if BitwiseFunction(c, cmd, arg1, arg2, arg3).Some? then c.ull2String(BitwiseFunction(c, cmd, arg1, arg2, arg3).value, 10)
      else if cmd == "substring" then
        (match (c.validInt(arg1), c.validInt(arg2))
         case (Some(s), Some(e)) => Substring(arg3, ToUnsigned32(s), ToUnsigned32(e))
         case _ => "")
      else if cmd == "strtol" then
        (match (c.validUInt64(arg1), c.validUInt64(arg2))
         case (Some(base), Some(_)) => NatToString(c.strtoul(arg2, base))
         case _ => "")
      else if cmd == "tobin" then
        (match c.validUInt64(arg1) case Some(v) => c.ull2String(v, 2) case None => "")
      else if cmd == "tohex" then
        (match c.validUInt64(arg1) case Some(v) => c.ull2String(v, 16) case None => "")
      else if cmd == "ord" then
        NatToString(if |arg1| == 0 then 0 else arg1[0] as int % 256)
      else if cmd == "urlencode" then
        (if |arg1| > 0 then c.urlEncode(arg1) else "")
      else "")
  }

  /** A supported macro's replacement holds no '}' unless its own text did. */
  lemma ReplacementHasNoCloseBrace(c: Capabilities, fc: string)
    requires NoBraceOutputs(c) && '}' !in fc && MacroReplacement(c, fc).Some?
    ensures '}' !in MacroReplacement(c, fc).value
  {
    var arg1 := c.parseStringKeepCase(fc, 1 + 1);
    var arg3 := c.parseStringKeepCase(fc, 4);
    assert '}' !in arg3;
    var cmd := c.parseString(fc, 1);
    if cmd == "strtol" {
      var arg2 := c.parseStringKeepCase(fc, 3);
      if c.validUInt64(c.parseStringKeepCase(fc, 2)).Some? && c.validUInt64(arg2).Some? {
        DecimalHasNoBraces(c.strtoul(arg2, c.validUInt64(c.parseStringKeepCase(fc, 2)).value));
      }
    }
    DecimalHasNoBraces(if |arg1| == 0 then 0 else arg1[0] as int % 256);
  }

  // ---------------------------------------------------------------------------
  // Masking
  // ---------------------------------------------------------------------------

  /** An unsupported macro's braces hidden behind 0x02 and 0x03. */
  function Mask(s: string): (r: string)
    ensures |r| == |s| && '{' !in r && '}' !in r
  {
    ReplaceChar(ReplaceChar(s, '{', STX), '}', ETX)
  }

  /** The final pass: 0x02 back to '{', then 0x03 back to '}'. */
  function Unmask(s: string): (r: string)
    ensures |r| == |s| && STX !in r && ETX !in r
    ensures forall i :: 0 <= i < |s| ==> r[i] == if s[i] == STX then '{' else if s[i] == ETX then '}' else s[i]
  {
    ReplaceChar(ReplaceChar(s, STX, '{'), ETX, '}')
  }

  /** A masked span unmasks to what the span itself unmasks to. */
  lemma UnmaskMask(s: string)
    ensures Unmask(Mask(s)) == Unmask(s)
  {
    var a, b := Unmask(Mask(s)), Unmask(s);
    assert forall i :: 0 <= i < |s| ==> a[i] == b[i];
  }

  lemma UnmaskAppend(a: string, b: string)
    ensures Unmask(a + b) == Unmask(a) + Unmask(b)
  {
    var l, r := Unmask(a + b), Unmask(a) + Unmask(b);
    assert forall i :: 0 <= i < |a + b| ==> l[i] == r[i];
  }

  lemma UnmaskIdentity(s: string)
    requires STX !in s && ETX !in s
    ensures Unmask(s) == s
  {
    var r := Unmask(s);
    assert forall i :: 0 <= i < |s| ==> r[i] == s[i];
  }

  /** Replacing a span by its masked copy changes nothing the final unmasking can see. */
  lemma {:induction false} MaskedReplaceInvisible(s: string, pat: string)
    ensures Unmask(ReplaceAll(s, pat, Mask(pat))) == Unmask(s)
    decreases |s|
  {
    if |pat| == 0 || |s| == 0 {
    } else if pat <= s {
      var rest := s[|pat|..];
      assert s == pat + rest;
      UnmaskAppend(Mask(pat), ReplaceAll(rest, pat, Mask(pat)));
      UnmaskAppend(pat, rest);
      UnmaskMask(pat);
      MaskedReplaceInvisible(rest, pat);
    } else {
      assert s == [s[0]] + s[1..];
      UnmaskAppend([s[0]], ReplaceAll(s[1..], pat, Mask(pat)));
      UnmaskAppend([s[0]], s[1..]);
      MaskedReplaceInvisible(s[1..], pat);
    }
  }

  // ---------------------------------------------------------------------------
  // parse_string_commands
  // ---------------------------------------------------------------------------

  /** A span `{…}` found by the bracket search holds exactly one '}'. */
  lemma SpanHasOneCloseBrace(line: string, startIndex: nat)
    requires InnerBracket(line, startIndex, '}').Found?
    ensures var b := InnerBracket(line, startIndex, '}');
      Count('}', line[b.open..b.close + 1]) == 1 && '}' !in line[b.open + 1..b.close]
  {
    var b := InnerBracket(line, startIndex, '}');
    var inner := line[b.open..b.close];
    assert line[b.open..b.close + 1] == inner + [line[b.close]];
    assert '}' !in inner by {
      assert forall k :: 0 <= k < |inner| ==> inner[k] == line[b.open + k];
    }
    CountZero('}', inner);
    CountAppend('}', inner, [line[b.close]]);
    assert line[b.open + 1..b.close] == inner[1..];
  }

  /** Each expansion step removes at least one '}' from the line. */
  lemma StepRemovesCloseBrace(line: string, startIndex: nat, rep: string)
    requires InnerBracket(line, startIndex, '}').Found? && '}' !in rep
    ensures var b := InnerBracket(line, startIndex, '}');
      Count('}', ReplaceAll(line, line[b.open..b.close + 1], rep)) < Count('}', line)
  {
    var b := InnerBracket(line, startIndex, '}');
    var span := line[b.open..b.close + 1];
    SpanHasOneCloseBrace(line, startIndex);
    CountZero('}', rep);
    ReplaceAllCount('}', line, span, rep);
    var n := Occurrences(line, span);
    assert n * Count('}', span) == n && n * Count('}', rep) == 0;
    assert OccursAt(line, span, b.open);
    OccursMeansReplaced(line, span, b.open);
  }

  /** The result of the macro between the brackets `b`. */
  function MacroAt(c: Capabilities, line: string, b: Bracket): Option<string>
    requires b.Found? && b.open < b.close < |line|
  {
    MacroReplacement(c, line[b.open + 1..b.close])
  }

  /** A macro's result holds no '}'. */
  predicate NoCloseBrace(r: Option<string>)
  {
    r.None? || '}' !in r.value
  }

  /** The macro found by the bracket search never yields a '}'. */
  lemma MacroAtHasNoCloseBrace(c: Capabilities, line: string, startIndex: nat)
    requires NoBraceOutputs(c) && InnerBracket(line, startIndex, '}').Found?
    ensures NoCloseBrace(MacroAt(c, line, InnerBracket(line, startIndex, '}')))
  {
    var b := InnerBracket(line, startIndex, '}');
    SpanHasOneCloseBrace(line, startIndex);
    var fc := line[b.open + 1..b.close];
    if MacroReplacement(c, fc).Some? {
      ReplacementHasNoCloseBrace(c, fc);
    }
  }

  /**
   * The text the loop substitutes for the span between the brackets `b`, given
   * the macro's result `r`: nothing for an empty command, the masked span for an
   * unsupported one, and the result otherwise.
   */
  function SpanReplacement(line: string, b: Bracket, r: Option<string>): (rep: Option<string>)
    requires b.Found? && b.open < b.close < |line|
    ensures rep.Some? <==> r.Some?
    ensures rep.Some? ==> rep.value != ""
    ensures NoCloseBrace(r) ==> NoCloseBrace(rep)
  {
    match r
    case None => None
    case Some(text) => Some(if text == "" then Mask(line[b.open..b.close + 1]) else text)
  }

  /** The outcome of one pass of the loop body: the new line and whether it masked a span. */
  datatype Pass = Pass(line: string, masked: bool)

  function LoopPass(line: string, b: Bracket, r: Option<string>): Pass
    requires b.Found? && b.open < b.close < |line|
  {
    match SpanReplacement(line, b, r)
    case None => Pass(line, false)
    case Some(rep) => Pass(ReplaceAll(line, line[b.open..b.close + 1], rep), r == Some(""))
  }

  /**
   * A pass either removes a '}' from the line, or leaves the line as it is and
   * the next search finds nothing.
   */
  lemma PassProgresses(line: string, startIndex: nat, r: Option<string>)
    requires InnerBracket(line, startIndex, '}').Found? && NoCloseBrace(r)
    ensures var b := InnerBracket(line, startIndex, '}');
      var p := LoopPass(line, b, r);
      Count('}', p.line) < Count('}', line) || (p.line == line && InnerBracket(line, b.open, '}') == NotFound)
  {
    var b := InnerBracket(line, startIndex, '}');
    var rep := SpanReplacement(line, b, r);
    if rep.Some? {
      StepRemovesCloseBrace(line, startIndex, rep.value);
    } else {
      SearchFromOpeningEnds(line, startIndex, '}');
    }
  }

  /**
   * The line `parse_string_commands` produces, continuing from a search position
   * and a "something was masked" flag.
   */
  function Expand(c: Capabilities, line: string, startIndex: nat, masked: bool): string
    requires NoBraceOutputs(c)
    decreases Count('}', line), if InnerBracket(line, startIndex, '}').Found? then 1 else 0
  {
    var b := InnerBracket(line, startIndex, '}');
    if b.NotFound? then (if masked then Unmask(line) else line)
    else
      MacroAtHasNoCloseBrace(c, line, startIndex);
      PassProgresses(line, startIndex, MacroAt(c, line, b));
      var p := LoopPass(line, b, MacroAt(c, line, b));
      Expand(c, p.line, b.open, masked || p.masked)
  }

  /** The command names the expander evaluates itself, besides the math functions. */
  const BUILT_IN_COMMANDS: seq<string> :=
    ["bitread", "bitset", "bitclear", "bitwrite", "xor", "and", "or",
     "substring", "strtol", "tobin", "tohex", "ord", "urlencode"]

  /** The macro text `fc` names a command that is neither built in nor a math function. */
  ghost predicate UnknownCommand(c: Capabilities, fc: string)
  {
    var cmd := c.parseString(fc, 1);
    && cmd !in BUILT_IN_COMMANDS
    && c.mathMacro(cmd, c.parseStringKeepCase(fc, 2), c.parseStringKeepCase(fc, 3), c.parseStringKeepCase(fc, 4)).None?
  }

  /** A macro result that leaves the span to the masking: no command, or an empty result. */
  predicate Unsupported(r: Option<string>)
  {
    r.None? || r == Some("")
  }

  /** A macro whose command is unknown is not evaluated: it yields no text. */
  lemma UnknownCommandIsUnsupported(c: Capabilities, fc: string)
    requires UnknownCommand(c, fc)
    ensures Unsupported(MacroReplacement(c, fc))
  {
  }

  /**
   * Every macro the search of `parse_string_commands` visits in `line`, from
   * `startIndex` on, names an unknown command.
   */
  ghost predicate OnlyUnknownMacros(c: Capabilities, line: string, startIndex: nat)
    requires NoBraceOutputs(c)
    decreases Count('}', line), if InnerBracket(line, startIndex, '}').Found? then 1 else 0
  {
    var b := InnerBracket(line, startIndex, '}');
    b.NotFound? ||
      (&& UnknownCommand(c, line[b.open + 1..b.close])
       && (MacroAtHasNoCloseBrace(c, line, startIndex);
           PassProgresses(line, startIndex, MacroAt(c, line, b));
           OnlyUnknownMacros(c, LoopPass(line, b, MacroAt(c, line, b)).line, b.open)))
  }

  /** An unsupported macro's pass at most masks a span, which unmasking undoes. */
  lemma UnsupportedPass(line: string, b: Bracket, r: Option<string>)
    requires b.Found? && b.open < b.close < |line|
    requires Unsupported(r)
    ensures var p := LoopPass(line, b, r);
      Unmask(p.line) == Unmask(line) && (p.line == line || p.masked)
  {
    if r.Some? {
      MaskedReplaceInvisible(line, line[b.open..b.close + 1]);
    }
  }

  /** A line whose macros all name unknown commands comes out as it went in. */
  lemma {:induction false} UnsupportedMacrosUnchanged(c: Capabilities, line: string, startIndex: nat, masked: bool)
    requires NoBraceOutputs(c) && OnlyUnknownMacros(c, line, startIndex)
    requires !masked ==> STX !in line && ETX !in line
    ensures Expand(c, line, startIndex, masked) == if masked then Unmask(line) else line
    decreases Count('}', line), if InnerBracket(line, startIndex, '}').Found? then 1 else 0
  {
    var b := InnerBracket(line, startIndex, '}');
    if b.Found? {
      var r := MacroAt(c, line, b);
      MacroAtHasNoCloseBrace(c, line, startIndex);
      PassProgresses(line, startIndex, r);
      UnknownCommandIsUnsupported(c, line[b.open + 1..b.close]);
      UnsupportedPass(line, b, r);
      var p := LoopPass(line, b, r);
      UnsupportedMacrosUnchanged(c, p.line, b.open, masked || p.masked);
      if !masked && p.masked {
        UnmaskIdentity(line);
      }
    }
  }

  /** Without a '}' the bracket search finds nothing. */
  lemma NoCloseBraceNotFound(line: string, startIndex: nat)
    requires '}' !in line
    ensures InnerBracket(line, startIndex, '}') == NotFound
  {
    if |line| > 1 {
      var k := IndexOfChar(line, '}', startIndex + 1);
      assert k == -1;
    }
  }

  /** Text holding neither a brace nor a mask byte. */
  predicate Plain(s: string)
  {
    '{' !in s && '}' !in s && STX !in s && ETX !in s
  }

  /** Where the braces of `pre + "{" + fc + "}" + post` are, for plain `pre`, `fc` and `post`. */
  lemma SingleMacroShape(pre: string, fc: string, post: string)
    requires Plain(pre) && Plain(fc) && Plain(post)
    ensures var line, o, e := pre + "{" + fc + "}" + post, |pre|, |pre| + 1 + |fc|;
      && line[o] == '{' && line[e] == '}' && line[o + 1..e] == fc
      && (forall k :: 0 <= k < |line| && k != o ==> line[k] != '{')
      && (forall k :: 0 <= k < |line| && k != e ==> line[k] != '}')
      && STX !in line && ETX !in line
  {
    var line, o, e := pre + "{" + fc + "}" + post, |pre|, |pre| + 1 + |fc|;
    forall k | 0 <= k < |line|
      ensures k != o ==> line[k] != '{'
      ensures k != e ==> line[k] != '}'
      ensures line[k] != STX && line[k] != ETX
    {
      if k < o {
        assert line[k] == pre[k];
      } else if o < k < e {
        assert line[k] == fc[k - o - 1];
      } else if k > e {
        assert line[k] == post[k - e - 1];
      }
    }
    assert line[o + 1..e] == fc;
  }

  /** The one '}' of such a line. */
  lemma SingleMacroCount(pre: string, fc: string, post: string)
    requires Plain(pre) && Plain(fc) && Plain(post)
    ensures Count('}', pre + "{" + fc + "}" + post) == 1
  {
    CountAppend('}', pre + "{" + fc, "}" + post);
    CountAppend('}', pre + "{", fc);
    CountAppend('}', pre, "{");
    CountAppend('}', "}", post);
    CountZero('}', pre);
    CountZero('}', fc);
    CountZero('}', post);
    assert pre + "{" + fc + ("}" + post) == pre + "{" + fc + "}" + post;
  }

  /** After the pass over the single macro, the search finds nothing more. */
  lemma SingleMacroPassEnds(c: Capabilities, line: string)
    requires NoBraceOutputs(c) && Count('}', line) == 1 && InnerBracket(line, 0, '}').Found?
    ensures var b := InnerBracket(line, 0, '}');
      InnerBracket(LoopPass(line, b, MacroAt(c, line, b)).line, b.open, '}') == NotFound
  {
    var b := InnerBracket(line, 0, '}');
    var r := MacroAt(c, line, b);
    MacroAtHasNoCloseBrace(c, line, 0);
    PassProgresses(line, 0, r);
    var p := LoopPass(line, b, r);
    if p.line != line {
      CountZero('}', p.line);
      NoCloseBraceNotFound(p.line, b.open);
    }
  }

  /**
   * A line holding one macro `{fc}` whose command is unknown, and no other
   * brace, comes out of the expansion unchanged.
   */
  lemma SingleUnknownMacroUnchanged(c: Capabilities, pre: string, fc: string, post: string)
    requires NoBraceOutputs(c) && UnknownCommand(c, fc)
    requires Plain(pre) && Plain(fc) && Plain(post)
    ensures Expand(c, pre + "{" + fc + "}" + post, 0, false) == pre + "{" + fc + "}" + post
  {
    var line := pre + "{" + fc + "}" + post;
    SingleMacroShape(pre, fc, post);
    var b := InnerBracket(line, 0, '}');
    if b.Found? {
      assert b.open == |pre| && b.close == |pre| + 1 + |fc|;
      SingleMacroCount(pre, fc, post);
      SingleMacroPassEnds(c, line);
      assert OnlyUnknownMacros(c, line, 0);
    }
    UnsupportedMacrosUnchanged(c, line, 0, false);
  }

  /**
   * One pass of the loop of `parse_string_commands`: evaluate the macro between
   * the brackets and replace every copy of its text, masking the braces of an
   * unsupported macro.
   */
  method ReplaceMacro(c: Capabilities, line0: string, b: Bracket) returns (line: string, masked: bool)
    requires b.Found? && b.open < b.close < |line0|
    ensures Pass(line, masked) == LoopPass(line0, b, MacroAt(c, line0, b))
  {
    line, masked := line0, false;
    var fullCommand := line[b.open + 1..b.close];
    var replacement := MacroReplacement(c, fullCommand);
    if replacement.Some? {
      var span := line[b.open..b.close + 1];
      var rep := replacement.value;
      if rep == "" {
        rep := Mask(span);
        masked := true;
      }
      line := ReplaceAll(line, span, rep);
    }
  }

  /** `parse_string_commands(line)`. */
  method ParseStringCommands(c: Capabilities, line0: string) returns (line: string)
    requires NoBraceOutputs(c)
    ensures line == Expand(c, line0, 0, false)
    ensures OnlyUnknownMacros(c, line0, 0) && STX !in line0 && ETX !in line0 ==> line == line0
  {
    line := line0;
    var startIndex: nat := 0;
    var mustReplaceMaskedChars := false;
    var b := InnerBracket(line, startIndex, '}');
    while b.Found?
      invariant b == InnerBracket(line, startIndex, '}')
      invariant Expand(c, line, startIndex, mustReplaceMaskedChars) == Expand(c, line0, 0, false)
      decreases Count('}', line), if b.Found? then 1 else 0
    {
      MacroAtHasNoCloseBrace(c, line, startIndex);
      PassProgresses(line, startIndex, MacroAt(c, line, b));
      startIndex := b.open;
      var masked;
      line, masked := ReplaceMacro(c, line, b);
      mustReplaceMaskedChars := mustReplaceMaskedChars || masked;
      b := InnerBracket(line, startIndex, '}');
    }
    if mustReplaceMaskedChars {
      line := ReplaceChar(line, STX, '{');
      line := ReplaceChar(line, ETX, '}');
    }
    if OnlyUnknownMacros(c, line0, 0) && STX !in line0 && ETX !in line0 {
      UnsupportedMacrosUnchanged(c, line0, 0, false);
    }
  }
}
