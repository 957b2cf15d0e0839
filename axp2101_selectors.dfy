/**
 * Index-to-value maps of the AXP2101 power-management form selectors: a
 * selector's option index becomes an enum value, a current in mA, or the text
 * shown for a voltage.
 */
module Axp2101Selectors {
  import opened ArduinoString

  /**
   * The enums of the AXP2101 settings library, whose headers are not part of
   * this model: the numeric values a function needs and the names `toString`
   * gives them stay symbolic.
   */
  datatype Enums = Enums(
    /** `AXP2101_chargeled_d::Off`, `::Steady_On` and `::Protected`. */
    chargeLedOff: int, chargeLedSteadyOn: int, chargeLedProtected: int,
    /** `toString(AXP2101_chargeled_d)`. */
    chargeLedName: int -> string,
    /** `AXP2101_CV_charger_voltage_e::reserved`, `::limit_4_00V` and `::MAX`. */
    cvReserved: int, cvLimit4V: int, cvMax: int,
    /** `toString(AXP2101_CV_charger_voltage_e)`. */
    cvName: int -> string,
    /** `AXP2101_Linear_Charger_Vsys_dpm_e::MAX` and `AXP2101_InputCurrentLimit_e::MAX`. */
    vsysMax: int, inputCurrentMax: int)

  /** The number of options of each selector, as its constructor passes it on. */
  const CHARGE_LED_OPTIONS: int := 5
  const PRE_CHARGE_OPTIONS: int := 9
  const CONST_CHARGE_OPTIONS: int := 17
  const TERMINATION_CHARGE_OPTIONS: int := 9

  /** `get_AXP2101_chargeled_d(index)`: below range is `Off`, above `Steady_On` is `Protected`. */
  function ChargeLed(e: Enums, index: int): (r: int)
    ensures index < 0 ==> r == e.chargeLedOff
    ensures 0 <= index <= e.chargeLedSteadyOn ==> r == index
    ensures index > e.chargeLedSteadyOn && index >= 0 ==> r == e.chargeLedProtected
  {
    if index < 0 then e.chargeLedOff
    else if index <= e.chargeLedSteadyOn then index
    else e.chargeLedProtected
  }

  /** `get_AXP2101_0_to_200mA_ChargeCurrentLimit(index)`: 25 mA steps up to 200 mA. */
  function ZeroTo200mA(index: int): (r: int)
    ensures 0 <= r <= 200 && r % 25 == 0
  {
    if index < 0 then 0
    else
      var res := 25 * index;
      if res > 200 then 200 else res
  }

  /**
   * `get_AXP2101_ConstChargeCurrentLimit(index)`: 25 mA steps up to 200 mA,
   * then 100 mA steps up to 1000 mA.
   */
  function ConstChargeCurrent(index: int): (r: int)
    ensures 0 <= r <= 1000 && r % 25 == 0
  {
    if index < 0 then 0
    else
      var res := if index <= 8 then 25 * index else (index - 8) * 100 + 200;
      if res > 1000 then 1000 else res
  }

  /**
   * `get_AXP2101_CV_charger_voltage_e(index)`: index 0 is `limit_4_00V`;
   * anything outside the enum is `reserved`.
   */
  function CvChargerVoltage(e: Enums, index: int): (r: int)
    ensures r == e.cvReserved || (e.cvLimit4V <= r < e.cvMax && r == index + e.cvLimit4V)
    ensures index >= 0 && index + e.cvLimit4V < e.cvMax ==> r == index + e.cvLimit4V
  {
    if index < 0 then e.cvReserved
    else
      var i := index + e.cvLimit4V;
      if i >= e.cvMax then e.cvReserved else i
  }

  /** The option text of the minimum system voltage selector: "4.1" for index 0, and so on. */
  function VsysOptionString(e: Enums, index: int): (s: string)
    ensures s == "" <==> index < 0 || index >= e.vsysMax
    ensures 0 <= index < e.vsysMax ==> s == "4." + NatToString(index + 1)
  {
    if index >= e.vsysMax || index < 0 then "" else "4." + IntToString(index + 1)
  }

  /** The input current limit for an in-range index: 100, 500, 900 mA, then 500 mA steps from 1000 mA. */
  function InputCurrentLimit(index: nat): (mA: nat)
  {
    if index < 3 then 100 + 400 * index else 1000 + (index - 3) * 500
  }

  /** The option text of the input current limit selector. */
  function InputCurrentLimitOptionString(e: Enums, index: int): (s: string)
    ensures s == "" <==> index < 0 || index >= e.inputCurrentMax
    ensures 0 <= index < e.inputCurrentMax ==> s == NatToString(InputCurrentLimit(index))
  {
    if index >= e.inputCurrentMax || index < 0 then "" else IntToString(InputCurrentLimit(index))
  }

  /** The explicit current table the AXP2101 settings page lists for register 62. */
  const CONST_CHARGE_TABLE: seq<int> := [0, 25, 50, 75, 100, 125, 150, 175, 200, 300, 400, 500, 600, 700, 800, 900, 1000]

  /** Each of the selector's 17 options agrees with the explicit table. */
  lemma ConstChargeMatchesTable()
    ensures |CONST_CHARGE_TABLE| == CONST_CHARGE_OPTIONS
    ensures forall i :: 0 <= i < CONST_CHARGE_OPTIONS ==> ConstChargeCurrent(i) == CONST_CHARGE_TABLE[i]
  {
  }

  /** A higher index never selects a lower charge current. */
  lemma ConstChargeMonotone(i: int, j: int)
    requires i <= j
    ensures ConstChargeCurrent(i) <= ConstChargeCurrent(j)
  {
  }

  /** Below 200 mA the 0..200 mA selector moves in 25 mA steps; from index 8 on it stays at 200 mA. */
  lemma ZeroTo200mASteps(i: int, j: int)
    requires i <= j
    ensures ZeroTo200mA(i) <= ZeroTo200mA(j)
    ensures 0 <= i <= 8 ==> ZeroTo200mA(i) == 25 * i
    ensures i >= 8 ==> ZeroTo200mA(i) == 200
  {
  }

  /** The input current limits are 100, 500, 900, 1000, 1500 and 2000 mA, in increasing order. */
  lemma InputCurrentLimitValues(i: nat, j: nat)
    requires i < j
    ensures InputCurrentLimit(i) < InputCurrentLimit(j)
    ensures [InputCurrentLimit(0), InputCurrentLimit(1), InputCurrentLimit(2),
             InputCurrentLimit(3), InputCurrentLimit(4), InputCurrentLimit(5)]
         == [100, 500, 900, 1000, 1500, 2000]
  {
  }

  /** The eight minimum system voltage options read 4.1 to 4.8. */
  lemma VsysOptionStrings(e: Enums)
    requires e.vsysMax == 8
    ensures VsysOptionString(e, 0) == "4.1" && VsysOptionString(e, 7) == "4.8"
    ensures VsysOptionString(e, 8) == "" && VsysOptionString(e, -1) == ""
  {
    assert NatToString(1) == "1";
    assert NatToString(8) == "8";
  }
}
