# Solarwatt local gateway: sensor platform model

This project models the sensor platform of the Solarwatt local integration for
Home Assistant. The platform turns the item records of a photovoltaic gateway
(`name`, `type`, `state`, `label`) into sensor entities. It follows four rules.

- **Numeric state** (`_parse_numeric_state`). The state string is cleaned to
  its digits, `.` and `-` characters. What is left is converted as Python's
  `float()` would. An empty or malformed remainder gives `None`.
- **Eligibility** (`async_setup_entry`). An item gets an entity when its type
  starts with `"Number"`, or when its state is a string containing `W` or `%`.
- **Unit and device class** (`SolarwattSensor.__init__`). The tests run in
  priority order: power/W, then battery/%, then neither.
- **Refresh** (`_handle_coordinator_update`). The entity swaps in the first
  item of the new snapshot that has its name. With no such item it keeps the
  item it holds.

Files and modules:

- `options.dfy` (`Options`): an Option type, with `GetOr` for `dict.get(key, default)`.
- `pystrings.dfy` (`PyStrings`): Python's `str.startswith` and substring `in`.
  The substring search is proved against a reference definition, an occurrence
  at some offset.
- `subsequences.dfy` (`Subsequences`): order-preserving selection. Both
  filters of the platform use it.
- `numeric.dfy` (`NumericState`): the state values, the `Reading` a state gives, cleaning, the decimal
  literals `float()` accepts after cleaning, their exact values, and
  `ParseNumeric`.
- `numeric_examples.dfy` (`NumericExamples`): worked readings of concrete states.
- `items.dfy` (`Items`): the item record, `dict.get` with its defaults,
  eligibility and classification.
- `sensor.dfy` (`Sensor`): the entity class `SolarwattSensor`. It has the held
  item as a mutable field. Name, unique id, device class and unit are fixed at
  construction. Its properties are functions and the refresh is a method with
  a loop.
- `setup.dfy` (`SensorSetup`): the loop that builds the entity list.
- `setup_examples.dfy` (`SetupExamples`): single-item snapshots, traced from
  record to entity.

How the model represents the source:

- An item is a record whose fields are `None` when the key is absent.
- A state is JSON `null`, a string, or a non-string scalar (a number or a
  boolean).
- `item.get("state")`, `item.get("state", "")` and `item.get("type", "")` are
  written out with their defaults.
- `coordinator.data` is a parameter of the operations that read it. `None`
  stands for no data.

Behaviour of the code worth noting:

- A `-` is kept wherever it stands, not only in the leading position. So
  `"5-3 W"` has no value.
- A snapshot that lacks the entity's item leaves the old item in place, and
  `available` stays true. The entity does not become unavailable.
- A refresh does not recompute the unit or the device class. They are fixed
  at construction.
- Entities are made per eligible item, with no de-duplication by name.
- A state that is a JSON number or boolean makes `native_value` raise a
  `TypeError`. The character scan runs outside the `try`, so parsing is not
  total over all states. The model gives the outcome `TypeError` for such a
  state.

## Model

| member | source | states |
|---|---|---|
| `PyStrings.ContainsIff` | custom_components/solarwatt_local/sensor.py:27-30 | the substring test `t in s` holds exactly when `t` occurs at some offset of `s` |
| `PyStrings.ContainsChar` | custom_components/solarwatt_local/sensor.py:85 | a one-character marker such as `"W"` or `"%"` is contained exactly when that character occurs in the string |
| `NumericState.CleanKeepsExactly` | custom_components/solarwatt_local/sensor.py:8 | the cleaned state is a subsequence of the state (original order); it holds only digits, `.` and `-`; and each of those occurs in it exactly as often as in the state |
| `NumericState.CleanAppend` | custom_components/solarwatt_local/sensor.py:8 | cleaning works character by character: cleaning a concatenation concatenates the cleaned parts |
| `NumericState.CleanIdempotent` | custom_components/solarwatt_local/sensor.py:8 | cleaning a cleaned string changes nothing |
| `NumericState.ParseDecimal` | custom_components/solarwatt_local/sensor.py:10 | an accepted text is spelled by a well-formed literal: optional `-`, digits, at most one `.`, at least one digit |
| `NumericState.ParseRender` | custom_components/solarwatt_local/sensor.py:10 | every well-formed literal is accepted and read back as itself (round trip) |
| `NumericState.ParseDecimalIff` | custom_components/solarwatt_local/sensor.py:10 | the conversion yields literal `d` exactly when `d` is well-formed and spells the text |
| `NumericState.ParseDecimalRejects` | custom_components/solarwatt_local/sensor.py:9-12 | the conversion fails (the `except` path) exactly when the text is no decimal literal |
| `NumericState.EmptyIsNoLiteral` | custom_components/solarwatt_local/sensor.py:10 | the empty cleaned string is no literal, so it gives `None` |
| `NumericState.ParseNumeric` | custom_components/solarwatt_local/sensor.py:4-12 | a `None` state gives `None`; a non-string scalar, and only that, raises `TypeError`; a number comes back exactly when the state is a string whose cleaned form is a decimal literal, and it is that literal's exact value |
| `NumericState.ParseNumericClean` | custom_components/solarwatt_local/sensor.py:8-10 | parsing the cleaned state gives the same reading as parsing the raw state |
| `NumericExamples.PowerReading` | custom_components/solarwatt_local/sensor.py:4-12 | `"123.4 W"` reads as 123.4 |
| `NumericExamples.BatteryReading` | custom_components/solarwatt_local/sensor.py:4-12 | `"87 %"` reads as 87 |
| `NumericExamples.OffReading` | custom_components/solarwatt_local/sensor.py:8-10 | `"off"` cleans to the empty string and reads as `None` |
| `NumericExamples.RejectedLiterals` | custom_components/solarwatt_local/sensor.py:9-12 | `"-"`, `"1.2.3"`, `"5-3"` and `"--1"` are rejected |
| `NumericExamples.AcceptedLiterals` | custom_components/solarwatt_local/sensor.py:10 | `"5."`, `".5"` and `"-0"` are accepted |
| `NumericExamples.InnerMinusReading` | custom_components/solarwatt_local/sensor.py:8-12 | a minus sign inside the state is kept, so `"5-3 W"` reads as `None` |
| `Items.EligibleIff` | custom_components/solarwatt_local/sensor.py:83-85 | an item is eligible exactly when its type is present and starts with `"Number"`, or its state is present, a string, and contains `W` or `%` |
| `Items.Classify` | custom_components/solarwatt_local/sensor.py:25-35 | the device class and unit are always one of power/W, battery/% or neither |
| `Items.ClassifyPriority` | custom_components/solarwatt_local/sensor.py:27-35 | power/W exactly when the type contains `"Power"` or a string state contains `W`; battery/% exactly when that fails and the type contains `"Battery"` or a string state contains `%`; neither otherwise |
| `Items.GuessPairs` | custom_components/solarwatt_local/sensor.py:27-35 | for every item, a device class is set exactly when a unit is; power goes with W and battery with % |
| `Items.ClassifyIgnoresNonText` | custom_components/solarwatt_local/sensor.py:26-30 | a non-string state never takes part in classification: only the type decides |
| `Items.StateEligibleHasUnit` | custom_components/solarwatt_local/sensor.py:27-32 | an item admitted for its state marker, not for a `Number` type, always gets a unit and device class |
| `Sensor.FirstNamed` | custom_components/solarwatt_local/sensor.py:65-68 | the search finds the first position holding the name, and fails only when no item has the name |
| `Sensor.Refreshed` | custom_components/solarwatt_local/sensor.py:64-68 | the new item has the held item's name; it is the held item or a snapshot item; missing data or no matching name keep the held item; otherwise it is the first matching item |
| `Sensor.RefreshedIdempotent` | custom_components/solarwatt_local/sensor.py:64-68 | a second update with the same snapshot changes nothing |
| `Sensor.SolarwattSensor.constructor` | custom_components/solarwatt_local/sensor.py:18-35 | the entity holds the item and is available; its name and unique id are the item's name; device class and unit are the item's classification |
| `Sensor.SolarwattSensor.NativeUnitOfMeasurement` | custom_components/solarwatt_local/sensor.py:38-40 | the unit is W, % or none, and always matches the device class (W with power, % with battery, none with none); it is the unit fixed at construction (`BuiltFrom`) |
| `Sensor.SolarwattSensor.NativeValue` | custom_components/solarwatt_local/sensor.py:43-48 | the value is a number exactly when the held item's state is a string whose cleaned form is a decimal literal, and then it is that literal's exact value; a `TypeError` exactly when the state is a non-string scalar |
| `Sensor.SolarwattSensor.ExtraStateAttributes` | custom_components/solarwatt_local/sensor.py:51-53 | raw state, type and label are the held item's, verbatim (an absent state reads as `None`); the raw state is the one `native_value` parses |
| `Sensor.SolarwattSensor.ValidIsAvailable` | custom_components/solarwatt_local/sensor.py:56-58 | a valid entity holds an item, so it is available; the constructor and every update keep it valid |
| `Sensor.SolarwattSensor.HandleUpdate` | custom_components/solarwatt_local/sensor.py:61-69 | the held item becomes `Refreshed(old item, data)`; the entity stays valid (name still equal to the item's name, one of the three unit pairs); value and attributes follow the new item; the entity stays available; name, unit and device class are unchanged |
| `SensorSetup.EligibleItemsInOrder` | custom_components/solarwatt_local/sensor.py:80-86 | the items that get entities are taken from the snapshot in order, and all of them are eligible |
| `SensorSetup.EligibleItemsCount` | custom_components/solarwatt_local/sensor.py:80-86 | an eligible item gets as many entities as it has occurrences in the snapshot (no de-duplication); an ineligible one gets none |
| `SensorSetup.EligibleItemsMembership` | custom_components/solarwatt_local/sensor.py:82-86 | an item gets an entity exactly when it is in the snapshot and eligible |
| `SensorSetup.SetupEntities` | custom_components/solarwatt_local/sensor.py:80-86 | one fresh, distinct entity per eligible item in snapshot order, each built from its item; none when the data is `None` |
| `SetupExamples.BatterySnapshot` | custom_components/solarwatt_local/sensor.py:17-48 | a `Battery` item with state `"87 %"` gets one entity: battery, %, value 87 |
| `SetupExamples.GridSnapshot` | custom_components/solarwatt_local/sensor.py:17-48 | a `Number:Power` item with state `"1523 W"` gets one entity: power, W, value 1523 |
| `SetupExamples.LoneMinusSnapshot` | custom_components/solarwatt_local/sensor.py:43-48 | a `Number` item whose state is `"-"` gets an entity whose value is `None` |

## Left out

- `custom_components/solarwatt_local/api.py` is not part of this model. It is
  the HTTP client: login, item fetches, JSON decoding and session close, all
  network I/O.
- `custom_components/solarwatt_local/__init__.py` is not part of this model.
  It is config-entry lifecycle and `DataUpdateCoordinator` scheduling, which
  belong to the host framework.
- Neither `config_flow.py` file is part of this model. They are UI
  configuration forms.
- Host-framework calls and base classes are left out:
  `super().__init__(coordinator)`, `async_write_ha_state`, `async_add_entities`
  and the `hass.data` lookups. The coordinator's `data` is passed as a
  parameter.
- The `_attr_native_value = None` assignment is left out. The
  `native_value` property shadows it.
- IEEE floating point is left out. A parsed state is the exact real value of
  the decimal literal, without rounding.
- Non-ASCII digits: `Clean` keeps only the ASCII digits `0`-`9` and drops
  every other character. Python's `str.isdigit` also keeps other Unicode
  digits; `float()` then accepts the decimal ones and rejects the rest. So
  `"１２ W"` (fullwidth digits) reads as 12 in Python but has no value in the
  model, and `"5² W"` (superscript two) has no value in Python but reads as 5
  in the model.
- Item fields are restricted. `name`, `type` and `label` are strings or
  absent. A state is absent, `null`, a string, or a number or boolean.
  JSON lists and objects in these fields are not modelled, and neither are a
  `null` or non-string `type` (which would raise in the source).
- Snapshot elements are assumed to be objects. An element that is not one,
  such as a JSON `null` in the list, makes `get` raise `AttributeError` in the
  refresh loop and in the setup loop. The model cannot express such an element.
- `coordinator.data` is taken to be a list.
