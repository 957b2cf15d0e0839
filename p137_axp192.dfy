/**
 * The AXP192 power-management plugin: how its voltage settings are stored
 * (negative values above a threshold, two settings packed in one register),
 * the presets for the supported boards, the `axp,…` write command's
 * bookkeeping of rail values and ranges, and the value-name lookup.
 */
module Axp192 {
  import opened Wrappers
  import opened Bits

  type U16 = x: nat | x < 0x1_0000
  type I16 = x: int | -0x8000 <= x < 0x8000

  /** Conversion of an `int` to `uint16_t`: the value modulo 2^16. */
  function ToU16(x: int): U16
  {
    x % 0x1_0000
  }

  /** Conversion of an `int` to `int16_t`: the value modulo 2^16, read as a signed number. */
  function ToI16(x: int): (r: I16)
    ensures -0x8000 <= x < 0x8000 ==> r == x
    ensures (r - x) % 0x1_0000 == 0
  {
    var u := x % 0x1_0000;
    if u < 0x8000 then u else u - 0x1_0000
  }

  /**
   * `P137_settingToValue(data, threshold)`: a stored setting above the
   * threshold stands for the negative value `threshold - data`.
   */
  function SettingToValue(data: U16, threshold: U16): (v: I16)
    ensures data > threshold && data - threshold <= 0x8000 ==> v == threshold - data && v < 0
    ensures data <= threshold && data < 0x8000 ==> v == data
  {
    if data > threshold then ToI16(threshold - data) else ToI16(data)
  }

  /**
   * `P137_valueToSetting(data, threshold)`: a negative value is stored as
   * `threshold - data`, above the threshold; any other value as itself, cut
   * to 16 bits.
   */
  function ValueToSetting(data: int, threshold: U16): (s: U16)
    ensures data <= -1 && threshold - data < 0x1_0000 ==> s == threshold - data && s > threshold
    ensures 0 <= data < 0x1_0000 ==> s == data
  {
    if data <= -1 then ToU16(threshold - data) else ToU16(data)
  }

  /**
   * Decoding an encoded value gives it back, for every value up to the
   * threshold whose encoding fits 16 bits and which fits 16 signed bits.
   */
  lemma SettingRoundTrip(d: int, t: U16)
    requires -0x8000 <= d <= t && d < 0x8000 && t - d < 0x1_0000
    ensures SettingToValue(ValueToSetting(d, t), t) == d
    ensures d == -1 && t < 0xFFFF ==> ValueToSetting(d, t) == t + 1
  {
  }

  /** A value above the threshold does not survive the round trip: it reads back negative. */
  lemma AboveThresholdReadsNegative(d: int, t: U16)
    requires t < d < 0x8000 && d - t <= 0x8000
    ensures SettingToValue(ValueToSetting(d, t), t) == t - d < 0
  {
  }

  lemma Pow2Of16()
    ensures Pow2(16) == 0x1_0000
  {
    assert Pow2(2) == 4;
    Pow2Add(2, 2);
    assert Pow2(4) == 16;
    Pow2Add(4, 4);
    assert Pow2(8) == 256;
    Pow2Add(8, 8);
  }

  /** `(hi << 16) | lo` for two 16-bit settings. */
  function Pack(hi: U16, lo: U16): nat
  {
    Bitwise(Or, hi * Pow2(16), lo)
  }

  /** Or-ing a value below 2^n into a multiple of 2^n adds it. */
  lemma {:induction false} OrBelow(x: nat, lo: nat, n: nat)
    requires lo < Pow2(n)
    ensures Bitwise(Or, x * Pow2(n), lo) == x * Pow2(n) + lo
    decreases n
  {
    if n == 0 {
      OrZero(x);
    } else {
      var a := x * Pow2(n);
      assert a == 2 * (x * Pow2(n - 1));
      if !(a == 0 && lo == 0) {
        assert a / 2 == x * Pow2(n - 1) && a % 2 == 0;
        OrBelow(x, lo / 2, n - 1);
      }
    }
  }

  /** Or-ing zero changes nothing. */
  lemma {:induction false} OrZero(x: nat)
    ensures Bitwise(Or, x, 0) == x
    decreases x
  {
    if x != 0 {
      OrZero(x / 2);
    }
  }

  /**
   * A packed register holds the first setting in its upper 16 bits and the
   * second in its lower 16 bits, and fits 32 bits.
   */
  lemma PackHalves(hi: U16, lo: U16)
    ensures Pack(hi, lo) == hi * 0x1_0000 + lo
    ensures Pack(hi, lo) / 0x1_0000 == hi && Pack(hi, lo) % 0x1_0000 == lo
    ensures Pack(hi, lo) < 0x1_0000_0000
  {
    Pow2Of16();
    OrBelow(hi, lo, 16);
  }

  /** The plugin's constants, whose header is not part of this model. */
  datatype Limits = Limits(
    /** `P137_CONST_MAX_DCDC2`, `P137_CONST_MAX_DCDC`, `P137_CONST_MAX_LDO`, `P137_CONST_MAX_LDOIO`. */
    maxDcdc2: U16, maxDcdc: U16, maxLdo: U16, maxLdoio: U16,
    /** `P137_CONST_MIN_LDOIO`. */
    minLdoio: int,
    /** `P137_CONST_1_PERCENT` and `P137_CONST_100_PERCENT`. */
    onePercent: int, hundredPercent: int)

  /** Enum values whose header is not part of this model. */
  datatype Codes = Codes(
    /** `P137_PredefinedDevices_e::M5Stack_StickC`, `::M5Stack_Core2`, `::LilyGO_TBeam`, `::UserDefined`. */
    stickC: int, core2: int, tBeam: int, userDefined: int,
    /** `P137_GPIOBootState_e::Default` and `::Output_high`. */
    gpioDefault: int, gpioOutputHigh: int,
    /** `P137_valueOptions_e::DCDC2` and `::DCDC3`. */
    dcdc2Option: int, dcdc3Option: int)

  /** The register and disable-bit settings a board preset writes. */
  datatype Preset = Preset(dcdc2Ldo2: nat, dcdc3Ldo3: nat, ldoio: nat, disableBits: nat)

  /**
   * The preset of a board: DCDC2/LDO2 and DCDC3/LDO3 voltages, the LDOIO
   * voltage (negative for "off") and the disable bits of unconnected pins
   * (bit 0 LDO2, 1 LDO3, 2 LDOIO, 3..7 GPIO0..4, 8 DCDC2, 9 DCDC3); `None`
   * for `Unselected` and any other value.
   */
  function DevicePreset(e: Codes, lim: Limits, device: int): Option<Preset>
  {
    if device == e.stickC then
      Some(Preset(Pack(ValueToSetting(-1, lim.maxDcdc2), ValueToSetting(3000, lim.maxLdo)),
                  Pack(ValueToSetting(-1, lim.maxDcdc), ValueToSetting(3000, lim.maxLdo)),
                  ValueToSetting(2800, lim.maxLdoio), 0x3F0))  // 0b1111110000
    else if device == e.core2 then
      Some(Preset(Pack(ValueToSetting(-1, lim.maxDcdc2), ValueToSetting(3300, lim.maxLdo)),
                  Pack(ValueToSetting(0, lim.maxDcdc), ValueToSetting(0, lim.maxLdo)),
                  ValueToSetting(3300, lim.maxLdoio), 0x140))  // 0b0101000000
    else if device == e.tBeam then
      Some(Preset(Pack(ValueToSetting(-1, lim.maxDcdc2), ValueToSetting(3300, lim.maxLdo)),
                  Pack(ValueToSetting(3300, lim.maxDcdc), ValueToSetting(3300, lim.maxLdo)),
                  ValueToSetting(3300, lim.maxLdoio), 0x3F8))  // 0b1111111000
    else if device == e.userDefined then
      Some(Preset(Pack(ValueToSetting(-1, lim.maxDcdc2), ValueToSetting(3300, lim.maxLdo)),
                  Pack(ValueToSetting(-1, lim.maxDcdc), ValueToSetting(-1, lim.maxLdo)),
                  ValueToSetting(-1, lim.maxLdoio), 0))
    else None
  }

  /** The boot states of GPIO0..4 after a preset: Core2 drives GPIO1 and GPIO4 high, all else is `Default`. */
  function BootStates(e: Codes, device: int): seq<int>
  {
    var d, h := e.gpioDefault, e.gpioOutputHigh;
    if device == e.core2 && device != e.stickC then [d, h, d, d, h] else [d, d, d, d, d]
  }

  /** The plugin's stored settings that a board preset overwrites. */
  class Settings {
    /** `P137_CONFIG_PREDEFINED`: the board chosen, 0 when none. */
    var predefined: int
    /** `P137_CURRENT_PREDEFINED`: the board whose preset was applied last. */
    var currentPredefined: int
    /** The boot-state slots of GPIO0..4 that `P137_SET_GPIO_FLAGS` writes. */
    const gpioFlags: array<int>
    /** `P137_REG_DCDC2_LDO2`, `P137_REG_DCDC3_LDO3`, `P137_REG_LDOIO` and `P137_CONFIG_DISABLEBITS`. */
    var registers: Preset

    ghost predicate Valid()
      reads this
    {
      gpioFlags.Length == 5
    }

    constructor(predefined: int, currentPredefined: int, flags: seq<int>, registers: Preset)
      requires |flags| == 5
      ensures Valid() && fresh(gpioFlags) && gpioFlags[..] == flags
      ensures this.predefined == predefined && this.currentPredefined == currentPredefined && this.registers == registers
    {
      this.predefined := predefined;
      this.currentPredefined := currentPredefined;
      this.registers := registers;
      gpioFlags := new int[5](i requires 0 <= i < 5 => flags[i]);
    }

    /**
     * `P137_CheckPredefinedParameters`: without a chosen board nothing
     * changes; otherwise the board is recorded as applied, GPIO0..4 are reset
     * to `Default` and the board's preset, if it has one, is written.
     */
    method CheckPredefinedParameters(e: Codes, lim: Limits)
      requires Valid()
      modifies this, gpioFlags
      ensures predefined == old(predefined)
      ensures old(predefined) <= 0 ==>
        currentPredefined == old(currentPredefined) && gpioFlags[..] == old(gpioFlags[..]) && registers == old(registers)
      ensures old(predefined) > 0 ==>
        && currentPredefined == predefined
        && gpioFlags[..] == BootStates(e, predefined)
        && registers == (if DevicePreset(e, lim, predefined).Some? then DevicePreset(e, lim, predefined).value else old(registers))
    {
      if predefined > 0 {
        currentPredefined := predefined;
        for i := 0 to 5
          invariant predefined == old(predefined) && currentPredefined == predefined && registers == old(registers)
          invariant forall k :: 0 <= k < i ==> gpioFlags[k] == e.gpioDefault
        {
          gpioFlags[i] := e.gpioDefault;
        }
        assert gpioFlags[..] == [e.gpioDefault, e.gpioDefault, e.gpioDefault, e.gpioDefault, e.gpioDefault];
        var preset := DevicePreset(e, lim, predefined);
        if preset.Some? {
          registers := preset.value;
        }
        if predefined == e.core2 && predefined != e.stickC {
          gpioFlags[1] := e.gpioOutputHigh;
          gpioFlags[4] := e.gpioOutputHigh;
        }
      }
    }
  }

  /**
   * Every preset leaves DCDC2 off (stored as `threshold + 1`, which reads
   * back as -1), and the Core2 preset sets LDO2 to 3300 mV and its disable
   * bits `0b0101000000` turn off GPIO3 (bit 6) and DCDC2 (bit 8) while
   * leaving LDOIO (bit 2) on.
   */
  lemma PresetContents(e: Codes, lim: Limits, device: int)
    requires DevicePreset(e, lim, device).Some?
    requires lim.maxDcdc2 < 0xFFFF && 3300 <= lim.maxLdo < 0x8000
    ensures var p := DevicePreset(e, lim, device).value;
      && p.dcdc2Ldo2 / 0x1_0000 == lim.maxDcdc2 + 1
      && SettingToValue(p.dcdc2Ldo2 / 0x1_0000, lim.maxDcdc2) == -1
    ensures device == e.core2 && device != e.stickC ==>
      var p := DevicePreset(e, lim, device).value;
      && SettingToValue(p.dcdc2Ldo2 % 0x1_0000, lim.maxLdo) == 3300
      && BitOf(p.disableBits, 2) == 0 && BitOf(p.disableBits, 6) == 1 && BitOf(p.disableBits, 8) == 1
  {
    var p := DevicePreset(e, lim, device).value;
    var lo := if device == e.stickC then ValueToSetting(3000, lim.maxLdo) else ValueToSetting(3300, lim.maxLdo);
    assert p.dcdc2Ldo2 == Pack(ValueToSetting(-1, lim.maxDcdc2), lo);
    PackHalves(ValueToSetting(-1, lim.maxDcdc2), lo);
  }

  /** Only the Core2 preset changes a GPIO boot state away from `Default`, and only GPIO1 and GPIO4. */
  lemma BootStatesOfCore2(e: Codes, device: int, pin: nat)
    requires pin < 5
    ensures |BootStates(e, device)| == 5
    ensures BootStates(e, device)[pin] != e.gpioDefault ==> device == e.core2 && (pin == 1 || pin == 4)
    ensures device == e.core2 && device != e.stickC && (pin == 1 || pin == 4) ==> BootStates(e, device)[pin] == e.gpioOutputHigh
  {
  }

  // ---------------------------------------------------------------------
  // The `axp,…` write command
  // ---------------------------------------------------------------------

  /** The five regulated outputs the command can set. */
  datatype Rail = Ldo2 | Ldo3 | LdoIo | Dcdc2 | Dcdc3

  /** One value per rail: `ldo2_value` … `dcdc3_value`, or `ldo2_range` … `dcdc3_range`. */
  datatype PerRail<T> = PerRail(ldo2: T, ldo3: T, ldoio: T, dcdc2: T, dcdc3: T)

  function Get<T>(p: PerRail<T>, r: Rail): T
  {
    match r
    case Ldo2 => p.ldo2
    case Ldo3 => p.ldo3
    case LdoIo => p.ldoio
    case Dcdc2 => p.dcdc2
    case Dcdc3 => p.dcdc3
  }

  function Set<T>(p: PerRail<T>, r: Rail, v: T): (q: PerRail<T>)
    ensures forall r' :: Get(q, r') == if r' == r then v else Get(p, r')
  {
    match r
    case Ldo2 => p.(ldo2 := v)
    case Ldo3 => p.(ldo3 := v)
    case LdoIo => p.(ldoio := v)
    case Dcdc2 => p.(dcdc2 := v)
    case Dcdc3 => p.(dcdc3 := v)
  }

  /** A percentage range `<low>,<high>` in mV, the two entries of a `*_range` array. */
  datatype Range = Range(low: int, high: int)

  /** A call into the AXP192 driver: `setLDO2(mV)` … `setDCDC3(mV)`, or `setGPIOn(state)`. */
  datatype DeviceCall = SetRail(rail: Rail, millivolt: int) | SetGpio(pin: nat, state: int)

  /** The bit of `P137_CONFIG_DISABLEBITS` that disables a rail. */
  function DisableBit(r: Rail): nat
  {
    match r
    case Ldo2 => 0
    case Ldo3 => 1
    case LdoIo => 2
    case Dcdc2 => 8
    case Dcdc3 => 9
  }

  /** The rail of `ldo2`, `ldo3`, `ldoio`, `dcdc2`, `dcdc3` (`P137_subcommands_e` 0, 1, 2, 8, 9). */
  function DirectRail(sub: int): (r: Option<Rail>)
    ensures r.Some? ==> sub == DisableBit(r.value)
  {
    if sub == 0 then Some(Ldo2) else if sub == 1 then Some(Ldo3) else if sub == 2 then Some(LdoIo)
    else if sub == 8 then Some(Dcdc2) else if sub == 9 then Some(Dcdc3) else None
  }

  /** The rail of `ldo2perc` … `dcdc3perc` (codes 10..14). */
  function PercentRail(sub: int): Option<Rail>
  {
    if sub == 10 then Some(Ldo2) else if sub == 11 then Some(Ldo3) else if sub == 12 then Some(LdoIo)
    else if sub == 13 then Some(Dcdc2) else if sub == 14 then Some(Dcdc3) else None
  }

  /** The rail of `ldo2map` … `dcdc3map` (codes 15..19). */
  function MapRail(sub: int): Option<Rail>
  {
    if sub == 15 then Some(Ldo2) else if sub == 16 then Some(Ldo3) else if sub == 17 then Some(LdoIo)
    else if sub == 18 then Some(Dcdc2) else if sub == 19 then Some(Dcdc3) else None
  }

  /** The rail a subcommand code names, if any. */
  function NamedRail(sub: int): Option<Rail>
  {
    if DirectRail(sub).Some? then DirectRail(sub) else if PercentRail(sub).Some? then PercentRail(sub) else MapRail(sub)
  }

  /** `P137_subcommands` as written: entries 11, 14 and 16 misspell `ldo3perc`, `dcdc3perc` and `ldo3map`. */
  const P137_SUBCOMMANDS: seq<string> := [
    "ldo2", "ldo3", "ldoio", "gpio0", "gpio1", "gpio2", "gpio3", "gpio4", "dcdc2", "dcdc3",
    "ldo2perc", "lco3perc", "ldoioperc", "dcdc2perc", "dcdc3pers",
    "ldo2map", "lco3map", "ldoiomap", "dcdc2map", "dcdc3map"]

  /** The subcommand list spelled as the `P137_subcommands_e` names: entry k is the name of code k. */
  const SUBCOMMAND_NAMES: seq<string> := [
    "ldo2", "ldo3", "ldoio", "gpio0", "gpio1", "gpio2", "gpio3", "gpio4", "dcdc2", "dcdc3",
    "ldo2perc", "ldo3perc", "ldoioperc", "dcdc2perc", "dcdc3perc",
    "ldo2map", "ldo3map", "ldoiomap", "dcdc2map", "dcdc3map"]

  /** Helpers the command handlers call, whose code is not part of this model. */
  datatype Helpers = Helpers(
    /** `parseString(string, k)`: the k-th comma-separated argument, lower-cased, "" when absent. */
    parseString: (string, nat) -> string,
    /** `GetCommandCode(name, list)`: the code of `name` in a '|'-separated list, -1 when absent. */
    getCommandCode: (string, seq<string>) -> int,
    /** Arduino `map(x, inLow, inHigh, outLow, outHigh)`. */
    arduinoMap: (int, int, int, int, int) -> int)

  /**
   * `GetCommandCode` finds `name` in `list` by exact match: -1 when it is not
   * there, otherwise the position of its first occurrence.
   */
  ghost predicate FindsExactly(h: Helpers, name: string, list: seq<string>)
  {
    var k := h.getCommandCode(name, list);
    && (k == -1 <==> name !in list)
    && (k != -1 ==> 0 <= k < |list| && list[k] == name && forall j :: 0 <= j < k ==> list[j] != name)
  }

  /** What the handler reads off the command line: the subcommand code and whether arguments 3 and 4 are given. */
  datatype Command = Command(sub: int, empty3: bool, empty4: bool)

  function DecodeCommand(h: Helpers, subcommands: seq<string>, line: string): Command
  {
    Command(h.getCommandCode(h.parseString(line, 2), subcommands), h.parseString(line, 3) == "", h.parseString(line, 4) == "")
  }

  /** The outcome of a write: `success`, the new values and ranges, and the driver calls in order. */
  datatype WriteResult = WriteResult(success: bool, values: PerRail<int>, ranges: PerRail<Range>, calls: seq<DeviceCall>)

  /** `axp,<rail>perc,<percentage>`: a percentage above 0 maps into the rail's range, 0 switches it off. */
  function PercentWrite(h: Helpers, sub: int, par2: int, disableBits: U64, lim: Limits, values: PerRail<int>, ranges: PerRail<Range>): WriteResult
  {
    match PercentRail(sub)
    case None => WriteResult(false, values, ranges, [])
    case Some(r) =>
      if BitRead(disableBits, DisableBit(r)) == 1 || (r == LdoIo && par2 <= 0) then WriteResult(true, values, ranges, [])
      else
        var v := if par2 > 0 then h.arduinoMap(par2, lim.onePercent, lim.hundredPercent, Get(ranges, r).low, Get(ranges, r).high) else 0;
        WriteResult(true, Set(values, r, v), ranges, [SetRail(r, v)])
  }

  /** `axp,<rail>map,<low>,<high>`: records the rail's percentage range. */
  function MapWrite(sub: int, par2: int, par3: int, disableBits: U64, lim: Limits, values: PerRail<int>, ranges: PerRail<Range>): WriteResult
  {
    match MapRail(sub)
    case None => WriteResult(false, values, ranges, [])
    case Some(r) =>
      if BitRead(disableBits, DisableBit(r)) == 0 && (r != LdoIo || par2 >= lim.minLdoio) && (r != Dcdc2 || par3 <= lim.maxDcdc2)
      then WriteResult(true, values, Set(ranges, r, Range(par2, par3)), [])
      else WriteResult(true, values, ranges, [])
  }

  /**
   * `axp,<rail>,<mV>` and `axp,gpio<n>,<state>`.  The disable bit is read at
   * the code cast to `uint8_t`, so the invalid code -1 reads bit 255.
   */
  function DirectWrite(sub: int, par2: int, empty3: bool, disableBits: U64, values: PerRail<int>, ranges: PerRail<Range>): WriteResult
  {
    if BitRead(disableBits, sub % 256) == 1 then WriteResult(false, values, ranges, [])
    else if DirectRail(sub).Some? then
      var r := DirectRail(sub).value;
      if !empty3 then WriteResult(true, Set(values, r, par2), ranges, [SetRail(r, par2)])
      else WriteResult(true, values, ranges, [])
    else if 3 <= sub <= 7 then
      if !empty3 && (par2 == 0 || par2 == 1) then WriteResult(true, values, ranges, [SetGpio(sub - 3, par2)])
      else WriteResult(true, values, ranges, [])
    else WriteResult(false, values, ranges, [])
  }

  /** The branch an `axp` command takes: percentage, range, or direct value. */
  function Dispatch(h: Helpers, cmd: Command, par2: int, par3: int, disableBits: U64, lim: Limits, values: PerRail<int>, ranges: PerRail<Range>): WriteResult
  {
    if 0 <= par2 <= lim.hundredPercent && !cmd.empty3 && cmd.empty4 then
      PercentWrite(h, cmd.sub, par2, disableBits, lim, values, ranges)
    else if par2 >= 0 && par3 <= lim.maxLdo && par2 < par3 && !cmd.empty3 && !cmd.empty4 then
      MapWrite(cmd.sub, par2, par3, disableBits, lim, values, ranges)
    else
      DirectWrite(cmd.sub, par2, cmd.empty3, disableBits, values, ranges)
  }

  /**
   * `plugin_write(event, string)` with the subcommand list `subcommands`: a
   * command other than `axp`, or a plugin without a driver, is not handled.
   */
  function Write(h: Helpers, subcommands: seq<string>, initialized: bool, line: string, par2: int, par3: int,
                 disableBits: U64, lim: Limits, values: PerRail<int>, ranges: PerRail<Range>): WriteResult
  {
    if initialized && h.parseString(line, 1) == "axp" then
      Dispatch(h, DecodeCommand(h, subcommands, line), par2, par3, disableBits, lim, values, ranges)
    else WriteResult(false, values, ranges, [])
  }

  /** The state of the plugin between commands. */
  class Axp192Plugin {
    /** `isInitialized()`: the driver object exists. */
    const initialized: bool
    /** `ldo2_value` … `dcdc3_value`, in mV. */
    var values: PerRail<int>
    /** `ldo2_range` … `dcdc3_range`: the mV range a percentage maps into. */
    var ranges: PerRail<Range>

    /**
     * The constructor: with a driver, the values start as the configured
     * voltages (`P137_GET_CONFIG_LDO2` …); without one they keep their
     * initial values.
     */
    constructor(initialized: bool, config: PerRail<int>, initialValues: PerRail<int>, initialRanges: PerRail<Range>)
      ensures this.initialized == initialized && ranges == initialRanges
      ensures values == if initialized then config else initialValues
    {
      this.initialized := initialized;
      ranges := initialRanges;
      if initialized {
        values := config;
      } else {
        values := initialValues;
      }
    }

    /** The `*perc` switch. */
    method PercentCommand(h: Helpers, sub: int, par2: int, disableBits: U64, lim: Limits) returns (success: bool, calls: seq<DeviceCall>)
      modifies this
      ensures WriteResult(success, values, ranges, calls) == PercentWrite(h, sub, par2, disableBits, lim, old(values), old(ranges))
    {
      success, calls := true, [];
      var rail := PercentRail(sub);
      if rail.None? {
        return false, [];
      }
      var r := rail.value;
      if r == LdoIo {
        if par2 > 0 && BitRead(disableBits, DisableBit(r)) == 0 {
          var v := h.arduinoMap(par2, lim.onePercent, lim.hundredPercent, ranges.ldoio.low, ranges.ldoio.high);
          values := values.(ldoio := v);
          calls := [SetRail(r, v)];
        }
      } else if BitRead(disableBits, DisableBit(r)) == 0 {
        var range := Get(ranges, r);
        var v := if par2 > 0 then h.arduinoMap(par2, lim.onePercent, lim.hundredPercent, range.low, range.high) else 0;
        values := Set(values, r, v);
        calls := [SetRail(r, v)];
      }
    }

    /** The `*map` switch. */
    method MapCommand(sub: int, par2: int, par3: int, disableBits: U64, lim: Limits) returns (success: bool)
      modifies this
      ensures WriteResult(success, values, ranges, []) == MapWrite(sub, par2, par3, disableBits, lim, old(values), old(ranges))
    {
      success := true;
      var rail := MapRail(sub);
      if rail.None? {
        return false;
      }
      var r := rail.value;
      if r == LdoIo {
        if par2 >= lim.minLdoio && BitRead(disableBits, 2) == 0 {
          ranges := ranges.(ldoio := Range(par2, par3));
        }
      } else if r == Dcdc2 {
        if par3 <= lim.maxDcdc2 && BitRead(disableBits, 8) == 0 {
          ranges := ranges.(dcdc2 := Range(par2, par3));
        }
      } else if BitRead(disableBits, DisableBit(r)) == 0 {
        ranges := Set(ranges, r, Range(par2, par3));
      }
    }

    /** The switch over direct values and GPIO states. */
    method DirectCommand(sub: int, par2: int, empty3: bool, disableBits: U64) returns (success: bool, calls: seq<DeviceCall>)
      modifies this
      ensures WriteResult(success, values, ranges, calls) == DirectWrite(sub, par2, empty3, disableBits, old(values), old(ranges))
    {
      success, calls := true, [];
      if BitRead(disableBits, sub % 256) == 1 {
        return false, [];
      }
      var state3 := !empty3 && (par2 == 0 || par2 == 1);
      var rail := DirectRail(sub);
      if rail.Some? {
        if !empty3 {
          calls := [SetRail(rail.value, par2)];
          values := Set(values, rail.value, par2);
        }
      } else if 3 <= sub <= 7 {
        if state3 {
          calls := [SetGpio(sub - 3, par2)];
        }
      } else {
        success := false;
      }
    }

    /**
     * `plugin_write(event, string)`, with `par2`/`par3` the command's second
     * and third parameters as numbers and `disableBits` the stored
     * `P137_CONFIG_DISABLEBITS`.  The subcommands are looked up in the list
     * as the enum spells them.
     */
    method PluginWrite(h: Helpers, line: string, par2: int, par3: int, disableBits: U64, lim: Limits)
      returns (success: bool, calls: seq<DeviceCall>)
      modifies this
      ensures WriteResult(success, values, ranges, calls)
           == Write(h, SUBCOMMAND_NAMES, initialized, line, par2, par3, disableBits, lim, old(values), old(ranges))
    {
      success, calls := false, [];
      var cmd := h.parseString(line, 1);
      if initialized && cmd == "axp" {
        var command := DecodeCommand(h, SUBCOMMAND_NAMES, line);
        if 0 <= par2 <= lim.hundredPercent && !command.empty3 && command.empty4 {
          success, calls := PercentCommand(h, command.sub, par2, disableBits, lim);
        } else if par2 >= 0 && par3 <= lim.maxLdo && par2 < par3 && !command.empty3 && !command.empty4 {
          success := MapCommand(command.sub, par2, par3, disableBits, lim);
        } else {
          success, calls := DirectCommand(command.sub, par2, command.empty3, disableBits);
        }
      }
    }
  }

  /**
   * A rail whose disable bit is set keeps its value and its range whatever
   * the command, and the driver is never asked to set it.
   */
  lemma DisabledRailUntouched(h: Helpers, cmd: Command, par2: int, par3: int, disableBits: U64, lim: Limits,
                              values: PerRail<int>, ranges: PerRail<Range>, r: Rail)
    requires BitRead(disableBits, DisableBit(r)) == 1
    ensures var w := Dispatch(h, cmd, par2, par3, disableBits, lim, values, ranges);
      Get(w.values, r) == Get(values, r) && Get(w.ranges, r) == Get(ranges, r)
      && forall k :: 0 <= k < |w.calls| ==> !(w.calls[k].SetRail? && w.calls[k].rail == r)
  {
    if DirectRail(cmd.sub) == Some(r) {
      assert cmd.sub % 256 == DisableBit(r);
    }
  }

  /** A command changes at most the one rail its subcommand names. */
  lemma OnlyNamedRailChanges(h: Helpers, cmd: Command, par2: int, par3: int, disableBits: U64, lim: Limits,
                             values: PerRail<int>, ranges: PerRail<Range>, r: Rail)
    requires NamedRail(cmd.sub) != Some(r)
    ensures var w := Dispatch(h, cmd, par2, par3, disableBits, lim, values, ranges);
      Get(w.values, r) == Get(values, r) && Get(w.ranges, r) == Get(ranges, r)
  {
  }

  /**
   * In the range branch a `*map` subcommand always succeeds, changes no value
   * and calls no driver function, and records `<low>,<high>` exactly when the
   * rail is enabled and, for LDOIO, low is at least the minimum and, for
   * DCDC2, high is at most DCDC2's maximum.
   */
  lemma MapBranchSetsRange(h: Helpers, cmd: Command, par2: int, par3: int, disableBits: U64, lim: Limits,
                           values: PerRail<int>, ranges: PerRail<Range>, r: Rail)
    requires !(0 <= par2 <= lim.hundredPercent && !cmd.empty3 && cmd.empty4)
    requires par2 >= 0 && par3 <= lim.maxLdo && par2 < par3 && !cmd.empty3 && !cmd.empty4
    requires MapRail(cmd.sub) == Some(r)
    ensures var w := Dispatch(h, cmd, par2, par3, disableBits, lim, values, ranges);
      && w.success && w.values == values && w.calls == []
      && w.ranges == if BitRead(disableBits, DisableBit(r)) == 0 && (r != LdoIo || par2 >= lim.minLdoio) && (r != Dcdc2 || par3 <= lim.maxDcdc2)
                     then Set(ranges, r, Range(par2, par3)) else ranges
  {
  }

  /**
   * A command with exactly three arguments whose second is 0..100 takes the
   * percentage branch: it never changes a range; a subcommand other than a
   * `*perc` one fails and changes nothing; an enabled rail other than LDOIO
   * gets the mapped value, or 0 for 0 %; `ldoioperc` with 0 changes nothing.
   */
  lemma PercentBranch(h: Helpers, cmd: Command, par2: int, par3: int, disableBits: U64, lim: Limits,
                      values: PerRail<int>, ranges: PerRail<Range>)
    requires 0 <= par2 <= lim.hundredPercent && !cmd.empty3 && cmd.empty4
    ensures var w := Dispatch(h, cmd, par2, par3, disableBits, lim, values, ranges);
      && w.ranges == ranges
      && (PercentRail(cmd.sub).None? ==> !w.success && w.values == values && w.calls == [])
      && (PercentRail(cmd.sub) == Some(LdoIo) && par2 == 0 ==> w.success && w.values == values && w.calls == [])
      && (forall r :: PercentRail(cmd.sub) == Some(r) && r != LdoIo && BitRead(disableBits, DisableBit(r)) == 0 ==>
            w.success && w.values == Set(values, r, if par2 > 0 then h.arduinoMap(par2, lim.onePercent, lim.hundredPercent, Get(ranges, r).low, Get(ranges, r).high) else 0))
  {
  }

  /** A line that is not an `axp` command, or a plugin without a driver, leaves everything alone. */
  lemma OtherCommandsIgnored(h: Helpers, subcommands: seq<string>, initialized: bool, line: string, par2: int, par3: int,
                             disableBits: U64, lim: Limits, values: PerRail<int>, ranges: PerRail<Range>)
    requires !initialized || h.parseString(line, 1) != "axp"
    ensures Write(h, subcommands, initialized, line, par2, par3, disableBits, lim, values, ranges) == WriteResult(false, values, ranges, [])
  {
  }

  /** The corrected list names every code once. */
  lemma DistinctNames(j: nat, k: nat)
    requires j < k < |SUBCOMMAND_NAMES|
    ensures SUBCOMMAND_NAMES[j] != SUBCOMMAND_NAMES[k]
  {
  }

  /** With the corrected list an exact lookup gives every subcommand its enum code. */
  lemma CorrectedListFindsEveryCode(h: Helpers, k: nat)
    requires k < |SUBCOMMAND_NAMES| && FindsExactly(h, SUBCOMMAND_NAMES[k], SUBCOMMAND_NAMES)
    ensures h.getCommandCode(SUBCOMMAND_NAMES[k], SUBCOMMAND_NAMES) == k
  {
    var code := h.getCommandCode(SUBCOMMAND_NAMES[k], SUBCOMMAND_NAMES);
    if code < k {
      DistinctNames(code, k);
    }
  }

  /**
   * As written, the list lacks `ldo3perc`: with an exact lookup the command
   * the handler's comment names, `axp,ldo3perc,<percentage>`, gets code -1
   * and fails, while the corrected list reaches the LDO3 percentage case.
   */
  lemma Ldo3PercentAsWritten(h: Helpers, line: string, par2: int, par3: int, disableBits: U64, lim: Limits,
                             values: PerRail<int>, ranges: PerRail<Range>)
    requires FindsExactly(h, "ldo3perc", P137_SUBCOMMANDS) && FindsExactly(h, "ldo3perc", SUBCOMMAND_NAMES)
    requires h.parseString(line, 1) == "axp" && h.parseString(line, 2) == "ldo3perc"
    requires h.parseString(line, 3) != "" && h.parseString(line, 4) == "" && 0 <= par2 <= lim.hundredPercent
    ensures !Write(h, P137_SUBCOMMANDS, true, line, par2, par3, disableBits, lim, values, ranges).success
    ensures Write(h, SUBCOMMAND_NAMES, true, line, par2, par3, disableBits, lim, values, ranges).success
  {
    AsWrittenLacksLdo3Perc(h);
    CorrectedListHasLdo3Perc(h);
    PercentCommandWrite(h, P137_SUBCOMMANDS, line, -1, par2, par3, disableBits, lim, values, ranges);
    PercentCommandWrite(h, SUBCOMMAND_NAMES, line, 11, par2, par3, disableBits, lim, values, ranges);
  }

  /** With the list as written, `ldo3perc` has the invalid code -1. */
  lemma AsWrittenLacksLdo3Perc(h: Helpers)
    requires FindsExactly(h, "ldo3perc", P137_SUBCOMMANDS)
    ensures h.getCommandCode("ldo3perc", P137_SUBCOMMANDS) == -1
  {
    assert forall j :: 0 <= j < |P137_SUBCOMMANDS| ==> P137_SUBCOMMANDS[j] != "ldo3perc";
  }

  /** With the corrected list, `ldo3perc` has its enum code 11. */
  lemma CorrectedListHasLdo3Perc(h: Helpers)
    requires FindsExactly(h, "ldo3perc", SUBCOMMAND_NAMES)
    ensures h.getCommandCode("ldo3perc", SUBCOMMAND_NAMES) == 11
  {
    assert SUBCOMMAND_NAMES[11] == "ldo3perc";
    assert forall j :: 0 <= j < 11 ==> SUBCOMMAND_NAMES[j] != "ldo3perc";
  }

  /** An `axp` command with three arguments and a percentage runs the percentage switch on its code. */
  lemma PercentCommandWrite(h: Helpers, subcommands: seq<string>, line: string, sub: int, par2: int, par3: int,
                            disableBits: U64, lim: Limits, values: PerRail<int>, ranges: PerRail<Range>)
    requires h.getCommandCode(h.parseString(line, 2), subcommands) == sub
    requires h.parseString(line, 1) == "axp" && h.parseString(line, 3) != "" && h.parseString(line, 4) == ""
    requires 0 <= par2 <= lim.hundredPercent
    ensures Write(h, subcommands, true, line, par2, par3, disableBits, lim, values, ranges)
         == PercentWrite(h, sub, par2, disableBits, lim, values, ranges)
  {
  }

  // ---------------------------------------------------------------------
  // `[<taskname>#<valuename>]` lookup
  // ---------------------------------------------------------------------

  /** `P137_getvalues`: the value names, in order. */
  const GETVALUE_NAMES: seq<string> := [
    "batvoltage", "batdischarge", "batcharge", "batpower", "inpvoltage", "inpcurrent", "vbusvolt",
    "vbuscurr", "inttemp", "apsvolt", "ldo2volt", "ldo3volt", "ldoiovolt", "dcdc2volt", "dcdc3volt"]

  /** The `P137_valueOptions_e` value each name stands for, as the list's comments give them. */
  const GETVALUE_OPTIONS: seq<int> := [0x01, 0x02, 0x03, 0x04, 0x05, 0x06, 0x07, 0x08, 0x09, 0x0A, 0x0B, 0x0C, 0x0D, 0x12, 0x13]

  /**
   * The index patch of `plugin_get_config_value`: an unknown name (-1) is
   * not handled; codes 13 and 14 become DCDC2 and DCDC3, past the gap in the
   * enum; every other code moves up by one, past `None` (0).
   */
  function ConfigValueOption(e: Codes, code: int): (o: Option<int>)
    ensures o.None? <==> code == -1
    ensures code >= 0 && e.dcdc2Option > 0 && e.dcdc3Option > 0 ==> o.Some? && o.value > 0
  {
    if code == -1 then None
    else if code == 13 then Some(e.dcdc2Option)
    else if code == 14 then Some(e.dcdc3Option)
    else Some(code + 1)
  }

  /** `plugin_get_config_value(event, string)`: the value option its first argument selects. */
  function GetConfigValue(h: Helpers, e: Codes, line: string): Option<int>
  {
    ConfigValueOption(e, h.getCommandCode(h.parseString(line, 1), GETVALUE_NAMES))
  }

  /**
   * With the enum values the list's comments give, the k-th name selects
   * exactly the option commented beside it, and never `None`.
   */
  lemma ConfigValuesMatchList(e: Codes, k: nat)
    requires e.dcdc2Option == 0x12 && e.dcdc3Option == 0x13
    requires k < |GETVALUE_NAMES|
    ensures |GETVALUE_OPTIONS| == |GETVALUE_NAMES|
    ensures ConfigValueOption(e, k) == Some(GETVALUE_OPTIONS[k])
    ensures GETVALUE_OPTIONS[k] != 0
  {
  }

  /** Under an exact lookup, only a listed name is handled. */
  lemma UnknownValueNameNotHandled(h: Helpers, e: Codes, line: string)
    requires FindsExactly(h, h.parseString(line, 1), GETVALUE_NAMES)
    ensures GetConfigValue(h, e, line).None? <==> h.parseString(line, 1) !in GETVALUE_NAMES
  {
  }
}
