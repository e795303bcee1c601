/** `SolarwattSensor`: one entity per gateway item, holding the item it was
    built from and swapping in a fresh copy of it on every coordinator update. */
module Sensor {
  import opened Options
  import opened NumericState
  import opened Items

  /** `extra_state_attributes`: the raw state, type and label of the held item. */
  datatype Attributes = Attributes(rawState: Value, itemType: Option<string>, itemLabel: Option<string>)

  function AttributesOf(it: Item): Attributes {
    Attributes(GetState(it), it.itemType, it.itemLabel)
  }

  // ---------------------------------------------------------------------------
  // Refresh, as a function of the held item and the new snapshot

  /** The position of the first item of `items` whose name is `name`, if any. */
  function FirstNamed(items: seq<Item>, name: Option<string>): (r: Option<nat>)
    ensures r.Some? ==> r.value < |items| && items[r.value].name == name
    ensures r.Some? ==> forall j :: 0 <= j < r.value ==> items[j].name != name
    ensures r.None? ==> forall j :: 0 <= j < |items| ==> items[j].name != name
  {
    if items == [] then None
    else if items[0].name == name then Some(0)
    else match FirstNamed(items[1..], name)
      case Some(k) => Some(k + 1)
      case None => None
  }

  /** The item an entity holds after an update that brought `data`
      (`coordinator.data`, `None` when there is none): the first item of the
      snapshot with the held item's name, or the held item itself when the
      snapshot has no such item. */
  function Refreshed(held: Item, data: Option<seq<Item>>): (r: Item)
    ensures r.name == held.name
    ensures r == held || r in data.GetOr([])
    ensures data.None? ==> r == held
    ensures (forall j :: 0 <= j < |data.GetOr([])| ==> data.GetOr([])[j].name != held.name) ==> r == held
    ensures forall k :: 0 <= k < |data.GetOr([])| && data.GetOr([])[k].name == held.name
                        && (forall j :: 0 <= j < k ==> data.GetOr([])[j].name != held.name)
                        ==> r == data.GetOr([])[k]
  {
    var items := data.GetOr([]);
    match FirstNamed(items, held.name)
    case Some(k) => items[k]
    case None => held
  }

  /** A second update with the same snapshot changes nothing. */
  lemma RefreshedIdempotent(held: Item, data: Option<seq<Item>>)
    ensures Refreshed(Refreshed(held, data), data) == Refreshed(held, data)
  {
  }

  // ---------------------------------------------------------------------------
  // The entity

  class SolarwattSensor {
    /** `_item`: the record the entity currently shows, `None` if it held none. */
    var item: Option<Item>
    /** `_attr_name` and `_attr_unique_id`. */
    const name: Option<string>
    const uniqueId: Option<string>
    /** `_attr_device_class` and `_unit`, fixed at construction. */
    const deviceClass: Option<DeviceClass>
    const unit: Option<Unit>

    /** The entity holds an item, that item carries the entity's own name, and
        its device class and unit form one of the three pairs. */
    ghost predicate Valid()
      reads this
    {
      item.Some? && name == item.value.name && uniqueId == item.value.name
      && (var g := Guess(deviceClass, unit); g == PowerGuess || g == BatteryGuess || g == NoGuess)
    }

    /** The entity is exactly what the constructor makes of `it`. */
    ghost predicate BuiltFrom(it: Item)
      reads this
    {
      item == Some(it) && name == it.name && uniqueId == it.name && Guess(deviceClass, unit) == ClassifyItem(it)
    }

    constructor (it: Item)
      ensures Valid() && BuiltFrom(it) && Available()
    {
      item := Some(it);
      name := it.name;
      uniqueId := it.name;
      var g := ClassifyItem(it);
      deviceClass := g.deviceClass;
      unit := g.unit;
    }

    /** `native_unit_of_measurement`: W, % or nothing, always matching the
        device class. */
    function NativeUnitOfMeasurement(): (u: Option<Unit>)
      reads this
      requires Valid()
      ensures u.None? <==> deviceClass.None?
      ensures u == Some(Watt) <==> deviceClass == Some(PowerClass)
      ensures u == Some(Percent) <==> deviceClass == Some(BatteryClass)
    {
      unit
    }

    /** `native_value`: the held item's state, parsed. */
    function NativeValue(): (r: Reading)
      reads this
      requires Valid()
      ensures r.Num? <==> item.value.state.Some? && item.value.state.value.Text?
                          && IsDecimalLiteral(Clean(item.value.state.value.s))
      ensures r == TypeError <==> item.value.state == Some(Scalar)
      ensures r.Num? ==> exists d :: WellFormed(d) && Render(d) == Clean(item.value.state.value.s)
                                     && r.value == DecimalValue(d)
    {
      ParseNumeric(GetState(item.value))
    }

    /** `extra_state_attributes`: type and label copied verbatim, and the raw
        state kept beside the value parsed from it. */
    function ExtraStateAttributes(): (a: Attributes)
      reads this
      requires Valid()
      ensures a.rawState == GetState(item.value)
      ensures a.itemType == item.value.itemType && a.itemLabel == item.value.itemLabel
      ensures ParseNumeric(a.rawState) == NativeValue()
      ensures a.rawState == NullValue ==> item.value.state.None? || item.value.state == Some(NullValue)
    {
      AttributesOf(item.value)
    }

    /** `available`: the entity holds an item. */
    predicate Available()
      reads this
    {
      item.Some?
    }

    /** A valid entity is available: neither construction nor an update
        ever leaves it without an item. */
    lemma ValidIsAvailable()
      requires Valid()
      ensures Available()
    {
    }

    /** `_handle_coordinator_update`: scan the snapshot for the first item
        with the held item's name and hold that one instead; keep the held
        item when there is none. Name, unit and device class do not change;
        value and attributes follow the new item; the entity stays available. */
    method HandleUpdate(data: Option<seq<Item>>)
      requires Valid()
      modifies this`item
      ensures Valid() && Available()
      ensures item == Some(Refreshed(old(item).value, data))
      ensures NativeValue() == ParseNumeric(GetState(Refreshed(old(item).value, data)))
      ensures ExtraStateAttributes() == AttributesOf(Refreshed(old(item).value, data))
    {
      var items := data.GetOr([]);
      var held := item.value;
      var i := 0;
      while i < |items|
        invariant 0 <= i <= |items|
        invariant item == old(item)
        invariant forall j :: 0 <= j < i ==> items[j].name != held.name
      {
        if items[i].name == held.name {
          item := Some(items[i]);
          break;
        }
        i := i + 1;
      }
    }
  }
}
