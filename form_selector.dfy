/**
 * The options of a drop-down form selector: how many there are, the text and
 * the value each one shows, and which one is marked selected.
 */
module FormSelector {
  import opened Wrappers
  import opened ArduinoString
  import opened Axp2101Selectors

  /**
   * Which class's `getOptionString`/`getIndexValue` an object uses: the base
   * class, or one of the AXP2101 selectors that override one or both of them.
   */
  datatype Kind =
    | Generic
    | ChargeLedSelector(e: Enums)
    | PreChargeCurrentSelector
    | ConstChargeCurrentSelector
    | TerminationChargeCurrentSelector
    | CvChargerVoltageSelector(e: Enums)
    | VsysSelector(e: Enums)
    | InputCurrentLimitSelector(e: Enums)

  /** One `addSelector_Item(text, value, selected, disabled, attr)` call. */
  datatype Item = Item(text: string, value: int, selected: bool, attr: string)

  /** A copy of the first `n` entries of `source`. */
  method CopyPrefix<T(0)>(source: array<T>, n: nat) returns (copy: array<T>)
    requires n <= source.Length
    ensures fresh(copy) && copy[..] == source[..n]
  {
    copy := new T[n];
    for i := 0 to n
      invariant copy[..i] == source[..i]
    {
      copy[i] := source[i];
    }
  }

  class FormSelectorOptions {
    const kind: Kind
    /** `_optionCount`. */
    const optionCount: int
    /** `_names_f`, `_names_str`, `_indices` and `_attr_str`; `None` for a null pointer. */
    const namesF: Option<array<string>>
    const namesStr: Option<array<string>>
    const indices: Option<array<int>>
    const attrStr: Option<array<string>>

    /** Every array holds one entry per option, and the AXP2101 selectors have none. */
    ghost predicate Valid()
      reads this
    {
      && (namesF.Some? ==> namesF.value.Length == optionCount)
      && (namesStr.Some? ==> namesStr.value.Length == optionCount)
      && (indices.Some? ==> indices.value.Length == optionCount)
      && (attrStr.Some? ==> attrStr.value.Length == optionCount)
      && (!kind.Generic? ==> namesF.None? && namesStr.None? && indices.None? && attrStr.None?)
    }

    /** The arrays the lookups read. */
    ghost function Arrays(): set<object>
      reads this
    {
      (if namesF.Some? then {namesF.value as object} else {}) + (if namesStr.Some? then {namesStr.value as object} else {})
      + (if indices.Some? then {indices.value as object} else {}) + (if attrStr.Some? then {attrStr.value as object} else {})
    }

    /** `FormSelectorOptions(optionCount)`. */
    constructor(optionCount: int)
      ensures Valid() && kind == Generic && this.optionCount == optionCount
      ensures namesF.None? && namesStr.None? && indices.None? && attrStr.None?
    {
      kind := Generic;
      this.optionCount := optionCount;
      namesF, namesStr, indices, attrStr := None, None, None, None;
    }

    /** `FormSelectorOptions(optionCount, indices, attr)`: copies the values and the optional attributes. */
    constructor WithIndices(optionCount: nat, indices: array<int>, attr: Option<array<string>>)
      requires optionCount <= indices.Length
      requires attr.Some? ==> optionCount <= attr.value.Length
      ensures Valid() && kind == Generic && this.optionCount == optionCount
      ensures namesF.None? && namesStr.None?
      ensures this.indices.Some? && fresh(this.indices.value) && this.indices.value[..] == old(indices[..optionCount])
      ensures attrStr.Some? <==> attr.Some?
      ensures attr.Some? ==> fresh(attrStr.value) && attrStr.value[..] == old(attr.value[..optionCount])
    {
      kind := Generic;
      this.optionCount := optionCount;
      namesF, namesStr := None, None;
      var copy := CopyPrefix(indices, optionCount);
      this.indices := Some(copy);
      if attr.Some? {
        var attrCopy := CopyPrefix(attr.value, optionCount);
        attrStr := Some(attrCopy);
      } else {
        attrStr := None;
      }
    }

    /**
     * `FormSelectorOptions(optionCount, options, indices, attr)` for `String`
     * names (`flash` false) or flash-string names (`flash` true).
     */
    constructor WithNames(optionCount: nat, flash: bool, options: array<string>, indices: Option<array<int>>, attr: Option<array<string>>)
      requires optionCount <= options.Length
      requires indices.Some? ==> optionCount <= indices.value.Length
      requires attr.Some? ==> optionCount <= attr.value.Length
      ensures Valid() && kind == Generic && this.optionCount == optionCount
      ensures flash ==> namesF.Some? && namesStr.None? && fresh(namesF.value) && namesF.value[..] == old(options[..optionCount])
      ensures !flash ==> namesStr.Some? && namesF.None? && fresh(namesStr.value) && namesStr.value[..] == old(options[..optionCount])
      ensures this.indices.Some? <==> indices.Some?
      ensures indices.Some? ==> fresh(this.indices.value) && this.indices.value[..] == old(indices.value[..optionCount])
      ensures attrStr.Some? <==> attr.Some?
      ensures attr.Some? ==> fresh(attrStr.value) && attrStr.value[..] == old(attr.value[..optionCount])
    {
      kind := Generic;
      this.optionCount := optionCount;
      var names := CopyPrefix(options, optionCount);
      if flash {
        namesF, namesStr := Some(names), None;
      } else {
        namesF, namesStr := None, Some(names);
      }
      if indices.Some? {
        var copy := CopyPrefix(indices.value, optionCount);
        this.indices := Some(copy);
      } else {
        this.indices := None;
      }
      if attr.Some? {
        var attrCopy := CopyPrefix(attr.value, optionCount);
        attrStr := Some(attrCopy);
      } else {
        attrStr := None;
      }
    }

    /** The constructor of an AXP2101 selector: `FormSelectorOptions(n)` with the selector's option count. */
    constructor Axp2101(kind: Kind)
      requires !kind.Generic?
      ensures Valid() && this.kind == kind && optionCount == Axp2101OptionCount(kind)
    {
      this.kind := kind;
      optionCount := Axp2101OptionCount(kind);
      namesF, namesStr, indices, attrStr := None, None, None, None;
    }

    /**
     * The base class's `getOptionString(index)`: empty past the last option,
     * otherwise the first of the names, the values and the index itself that
     * exists.  A negative index reads the arrays out of bounds, so it is only
     * allowed when there are none.
     */
    function BaseOptionString(index: int): (s: string)
      reads this, Arrays()
      requires Valid() && (index >= 0 || (namesF.None? && namesStr.None? && indices.None?))
      ensures index >= optionCount ==> s == ""
      ensures index < optionCount && namesF.Some? ==> s == namesF.value[index]
      ensures index < optionCount && namesF.None? && namesStr.Some? ==> s == namesStr.value[index]
      ensures index < optionCount && namesF.None? && namesStr.None? && indices.Some? ==> s == IntToString(indices.value[index])
      ensures index < optionCount && namesF.None? && namesStr.None? && indices.None? ==> s == IntToString(index)
    {
      if index >= optionCount then ""
      else if namesF.Some? then namesF.value[index]
      else if namesStr.Some? then namesStr.value[index]
      else if indices.Some? then IntToString(indices.value[index])
      else IntToString(index)
    }

    /** The base class's `getIndexValue(index)`: -1 past the last option, else the stored value or the index. */
    function BaseIndexValue(index: int): (v: int)
      reads this, Arrays()
      requires Valid() && (index >= 0 || indices.None?)
      ensures index >= optionCount ==> v == -1
      ensures index < optionCount && indices.Some? ==> v == indices.value[index]
      ensures index < optionCount && indices.None? ==> v == index
    {
      if index >= optionCount then -1
      else if indices.Some? then indices.value[index]
      else index
    }

    /** `getOptionString(index)` of the object's class. */
    function GetOptionString(index: int): (s: string)
      reads this, Arrays()
      requires Valid() && (index >= 0 || (namesF.None? && namesStr.None? && indices.None?))
    {
      match kind
      case Generic => BaseOptionString(index)
      case ChargeLedSelector(e) => e.chargeLedName(ChargeLed(e, index))
      case PreChargeCurrentSelector => IntToString(ZeroTo200mA(index))
      case ConstChargeCurrentSelector => IntToString(ConstChargeCurrent(index))
      case TerminationChargeCurrentSelector => IntToString(ZeroTo200mA(index))
      case CvChargerVoltageSelector(e) => e.cvName(CvChargerVoltage(e, index))
      case VsysSelector(e) => VsysOptionString(e, index)
      case InputCurrentLimitSelector(e) => InputCurrentLimitOptionString(e, index)
    }

    /** `getIndexValue(index)` of the object's class. */
    function GetIndexValue(index: int): (v: int)
      reads this, Arrays()
      requires Valid() && (index >= 0 || indices.None?)
    {
      match kind
      case ChargeLedSelector(e) => ChargeLed(e, index)
      case PreChargeCurrentSelector => ZeroTo200mA(index)
      case ConstChargeCurrentSelector => ConstChargeCurrent(index)
      case TerminationChargeCurrentSelector => ZeroTo200mA(index)
      case CvChargerVoltageSelector(e) => CvChargerVoltage(e, index)
      case _ => BaseIndexValue(index)
    }

    /** The attribute passed with option `i`: the stored one, or empty without an attribute array. */
    function AttrAt(i: nat): string
      reads this, Arrays()
      requires Valid() && i < optionCount
    {
      if attrStr.Some? then attrStr.value[i] else ""
    }

    /**
     * The option list `addFormSelector(label, id, selectedIndex)` emits, in
     * order: option `i` is marked selected exactly when its value equals
     * `selectedIndex`.
     */
    method AddFormSelector(selectedIndex: int) returns (items: seq<Item>)
      requires Valid()
      ensures |items| == if optionCount < 0 then 0 else optionCount
      ensures forall i :: 0 <= i < |items| ==>
        items[i] == Item(GetOptionString(i), GetIndexValue(i), GetIndexValue(i) == selectedIndex, AttrAt(i))
    {
      items := [];
      var i := 0;
      while i < optionCount
        invariant 0 <= i <= (if optionCount < 0 then 0 else optionCount) && |items| == i
        invariant forall k :: 0 <= k < i ==>
          items[k] == Item(GetOptionString(k), GetIndexValue(k), GetIndexValue(k) == selectedIndex, AttrAt(k))
      {
        var index := GetIndexValue(i);
        var item := Item(GetOptionString(i), index, selectedIndex == index, AttrAt(i));
        items := items + [item];
        i := i + 1;
      }
    }
  }

  /** The option count each AXP2101 selector's constructor passes to the base class. */
  function Axp2101OptionCount(kind: Kind): int
  {
    match kind
    case Generic => 0
    case ChargeLedSelector(_) => CHARGE_LED_OPTIONS
    case PreChargeCurrentSelector => PRE_CHARGE_OPTIONS
    case ConstChargeCurrentSelector => CONST_CHARGE_OPTIONS
    case TerminationChargeCurrentSelector => TERMINATION_CHARGE_OPTIONS
    case CvChargerVoltageSelector(e) => e.cvMax - 1
    case VsysSelector(e) => e.vsysMax
    case InputCurrentLimitSelector(e) => e.inputCurrentMax
  }

  /** Without a values array the value of each option is its index. */
  lemma NoIndicesMeansIdentity(sel: FormSelectorOptions, i: int)
    requires sel.Valid() && sel.kind.Generic? && sel.indices.None?
    ensures i < sel.optionCount ==> sel.GetIndexValue(i) == i
    ensures i >= sel.optionCount ==> sel.GetIndexValue(i) == -1
  {
  }

  /** A values-only selector shows each option's value as its text. */
  lemma ValuesOnlyShowValues(sel: FormSelectorOptions, i: int)
    requires sel.Valid() && sel.kind.Generic? && sel.namesF.None? && sel.namesStr.None?
    requires 0 <= i < sel.optionCount
    ensures sel.GetOptionString(i) == IntToString(sel.GetIndexValue(i))
  {
  }

  /** The current selectors show each option's value, in decimal, as its text. */
  lemma NumericSelectorsShowValues(sel: FormSelectorOptions, i: int)
    requires sel.Valid()
    requires sel.kind.PreChargeCurrentSelector? || sel.kind.ConstChargeCurrentSelector? || sel.kind.TerminationChargeCurrentSelector?
    ensures sel.GetOptionString(i) == NatToString(sel.GetIndexValue(i))
  {
  }
}
