/** The gateway's item records and the two per-item decisions of the sensor
    platform: whether an item becomes an entity, and which unit and device
    class the entity reports. */
module Items {
  import opened Options
  import opened PyStrings
  import opened NumericState

  /** One record of the gateway's item list. A field is `None` when its key is
      absent from the record. */
  datatype Item = Item(name: Option<string>, itemType: Option<string>, state: Option<Value>, itemLabel: Option<string>)

  /** `item.get("state")`: an absent state reads as `None`. */
  function GetState(it: Item): Value {
    it.state.GetOr(NullValue)
  }

  /** `item.get("state", "")`: an absent state reads as the empty string. */
  function GetStateOrEmpty(it: Item): Value {
    it.state.GetOr(Text(""))
  }

  /** `item.get("type", "")`. */
  function GetTypeOrEmpty(it: Item): string {
    it.itemType.GetOr("")
  }

  /** `isinstance(state, str) and marker in state`. */
  predicate TextContains(state: Value, marker: string) {
    state.Text? && Contains(state.s, marker)
  }

  // ---------------------------------------------------------------------------
  // Eligibility

  /** An item gets an entity when its type starts with `"Number"` or its state
      is a string carrying a power or percentage marker. */
  predicate Eligible(it: Item) {
    var st := GetStateOrEmpty(it);
    StartsWith(GetTypeOrEmpty(it), "Number") || TextContains(st, "W") || TextContains(st, "%")
  }

  /** Eligibility in terms of the record's fields: a missing type or state
      never qualifies, and a non-string state never does either. */
  lemma EligibleIff(it: Item)
    ensures Eligible(it) <==>
      (it.itemType.Some? && "Number" <= it.itemType.value)
      || (it.state.Some? && it.state.value.Text? && ('W' in it.state.value.s || '%' in it.state.value.s))
  {
    if it.state.Some? && it.state.value.Text? {
      ContainsChar(it.state.value.s, 'W');
      ContainsChar(it.state.value.s, '%');
    }
  }

  // ---------------------------------------------------------------------------
  // Unit and device class

  /** `DEVICE_CLASS_POWER` and `DEVICE_CLASS_BATTERY`. */
  datatype DeviceClass = PowerClass | BatteryClass

  /** `POWER_WATT` and `"%"`. */
  datatype Unit = Watt | Percent

  /** The device class and unit an entity is given at construction. */
  datatype Guess = Guess(deviceClass: Option<DeviceClass>, unit: Option<Unit>)

  const PowerGuess := Guess(Some(PowerClass), Some(Watt))
  const BatteryGuess := Guess(Some(BatteryClass), Some(Percent))
  const NoGuess := Guess(None, None)

  /** The condition chain of `SolarwattSensor.__init__`; its outcome is
      always one of the three pairs. */
  function Classify(itype: string, state: Value): (g: Guess)
    ensures g == PowerGuess || g == BatteryGuess || g == NoGuess
  {
    if Contains(itype, "Power") || TextContains(state, "W") then PowerGuess
    else if Contains(itype, "Battery") || TextContains(state, "%") then BatteryGuess
    else NoGuess
  }

  /** Power wins over battery: a type mentioning `"Power"` or a string state
      with a `W` gives power/W; failing that a type mentioning `"Battery"` or a
      string state with a `%` gives battery/%; otherwise neither is set. */
  lemma ClassifyPriority(itype: string, state: Value)
    ensures Classify(itype, state) == PowerGuess <==>
      Contains(itype, "Power") || (state.Text? && 'W' in state.s)
    ensures Classify(itype, state) == BatteryGuess <==>
      !(Contains(itype, "Power") || (state.Text? && 'W' in state.s))
      && (Contains(itype, "Battery") || (state.Text? && '%' in state.s))
    ensures Classify(itype, state) == NoGuess <==>
      !(Contains(itype, "Power") || (state.Text? && 'W' in state.s))
      && !(Contains(itype, "Battery") || (state.Text? && '%' in state.s))
  {
    if state.Text? {
      ContainsChar(state.s, 'W');
      ContainsChar(state.s, '%');
    }
  }

  /** Classification of an item, from `item.get("type", "")` and
      `item.get("state")`. */
  function ClassifyItem(it: Item): Guess {
    Classify(GetTypeOrEmpty(it), GetState(it))
  }

  /** An item's device class is set exactly when its unit is, and the two
      always match. */
  lemma GuessPairs(it: Item)
    ensures ClassifyItem(it).deviceClass.None? <==> ClassifyItem(it).unit.None?
    ensures ClassifyItem(it).deviceClass == Some(PowerClass) <==> ClassifyItem(it).unit == Some(Watt)
    ensures ClassifyItem(it).deviceClass == Some(BatteryClass) <==> ClassifyItem(it).unit == Some(Percent)
  {
  }

  /** A non-string state never takes part in classification: only the type
      decides. */
  lemma ClassifyIgnoresNonText(itype: string, a: Value, b: Value)
    requires !a.Text? && !b.Text?
    ensures Classify(itype, a) == Classify(itype, b)
  {
  }

  /** An item admitted for its state rather than a `Number` type always gets a
      unit and a device class. */
  lemma StateEligibleHasUnit(it: Item)
    requires Eligible(it) && !StartsWith(GetTypeOrEmpty(it), "Number")
    ensures ClassifyItem(it) != NoGuess
  {
    var st := GetStateOrEmpty(it);
    assert st.Text?;
    ContainsChar(st.s, 'W');
    ContainsChar(st.s, '%');
  }
}
