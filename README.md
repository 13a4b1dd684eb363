# deerma jsq2w / jsq2g humidifier integration, modelled in Dafny

This project models the MIoT integration for the deerma `jsq2w` and `jsq2g`
air humidifiers (`airhumidifier_jsqs.py`). It has four parts:

- **Property table** (`JsqsMapping`). The symbolic property names map to
  MIoT (siid, piid) pairs. The table is written as a Python dict display,
  so the model keeps the display's 18 entries as a sequence. `PyDict.BuildDict`
  folds that sequence into a map, and a later entry for a name replaces an
  earlier one. `overtop_humidity` appears twice in the display, so it resolves
  to (7, 8) and the table holds 17 names. Both supported model strings select
  this same table.
- **Status projection** (`JsqsStatus.Project`). The raw property results
  `{did, code, value}` become the snapshot's name→value map through the same
  fold. A result with a non-zero `code` stores `None`. Later results for a
  name override earlier ones, as in a dict comprehension.
- **Accessors and fan-level decoding** (`JsqsStatus.AirHumidifierJsqsStatus`,
  `JsqsStatus.OperationMode`, `JsqsStatus.DecodeFanLevel`).
  - `is_on`, `error` and `fan_level` index the map directly, and `power`
    reads `is_on`, so all four require their key to be present.
  - The other accessors use `.get`, so they give `None` for an absent key.
  - The fan level is looked up by Python value equality, so `True` finds
    `Low`. Any failed lookup gives `Auto`.
- **Command facade** (`JsqsDevice.AirHumidifierJsqs`). Each command issues at
  most one `set_property(name, value)` call. The device object keeps these
  calls in a `writes` log. `set_target_humidity` rejects any value outside
  41..69 and then writes nothing. The class invariant `Valid()` says that every
  logged write names a key of the table.

Values are `PyValues.Value`: a boolean, an integer or `None`. Python
truthiness and Python's numeric equality (`True == 1`, `False == 0`) are
spelled out there.

Two points where the code is narrower than its comments suggest:

- The `ValueError` message says "between 40 and 70", and the table comment
  gives [40, 80]. The guard `humidity <= 40 or humidity >= 70` rejects both 40
  and 70, so only 41..69 is accepted.
- The `fan_level` accessor catches only `ValueError`. It indexes
  `data["fan_level"]` directly, so an absent key raises `KeyError`, and the
  model states this as a precondition. A key whose read failed holds `None`,
  which decodes to `Auto`.

## Model

| member | source | states |
|---|---|---|
| `PyDict.BuildDict` | custom_components/xiaomi_miio_airpurifier_jsq2g/miio/integrations/deerma/humidifier/airhumidifier_jsqs.py:11-36 | a dict built from ordered pairs has exactly the keys of the pairs, no more and no fewer |
| `PyDict.BuildDictLast` | custom_components/xiaomi_miio_airpurifier_jsq2g/miio/integrations/deerma/humidifier/airhumidifier_jsqs.py:34-35 | the last pair for a key gives that key's value: a later pair replaces an earlier one |
| `PyDict.BuildDictSize` | custom_components/xiaomi_miio_airpurifier_jsq2g/miio/integrations/deerma/humidifier/airhumidifier_jsqs.py:11-36 | pairs with pairwise distinct keys build a dict with one entry per pair |
| `JsqsMapping.EntriesKept` | custom_components/xiaomi_miio_airpurifier_jsq2g/miio/integrations/deerma/humidifier/airhumidifier_jsqs.py:14-35 | each of the first 16 names maps to its own (siid, piid); the duplicated `overtop_humidity` maps to its later entry (7, 8) |
| `JsqsMapping.MappingKeys` | custom_components/xiaomi_miio_airpurifier_jsq2g/miio/integrations/deerma/humidifier/airhumidifier_jsqs.py:11-36 | the table's names are exactly the 17 distinct names of the display |
| `JsqsMapping.MappingSize` | custom_components/xiaomi_miio_airpurifier_jsq2g/miio/integrations/deerma/humidifier/airhumidifier_jsqs.py:11-36 | the display has 18 entries and the table has 17 |
| `JsqsMapping.ModelsShareTable` | custom_components/xiaomi_miio_airpurifier_jsq2g/miio/integrations/deerma/humidifier/airhumidifier_jsqs.py:38-42 | exactly the two supported model strings have a table, and both get the identical one |
| `JsqsMapping.CommandNamesMapped` | custom_components/xiaomi_miio_airpurifier_jsq2g/miio/integrations/deerma/humidifier/airhumidifier_jsqs.py:185-253 | every property name a command writes (power, target_humidity, fan_level, led_light, buzzer, overwet_protect, overwet_protect_on) is a key of the table |
| `JsqsMapping.CommandNamesInEveryTable` | custom_components/xiaomi_miio_airpurifier_jsq2g/miio/integrations/deerma/humidifier/airhumidifier_jsqs.py:157 | whichever supported model is active, its table resolves every name a command writes |
| `JsqsStatus.Project` | custom_components/xiaomi_miio_airpurifier_jsq2g/miio/integrations/deerma/humidifier/airhumidifier_jsqs.py:177-182 | the snapshot has one entry per name some result answers, and no other entries |
| `JsqsStatus.ProjectLast` | custom_components/xiaomi_miio_airpurifier_jsq2g/miio/integrations/deerma/humidifier/airhumidifier_jsqs.py:179 | the last result for a name decides its entry: the reported value when its code is 0, None when the code is non-zero |
| `JsqsStatus.ProjectGet` | custom_components/xiaomi_miio_airpurifier_jsq2g/miio/integrations/deerma/humidifier/airhumidifier_jsqs.py:179 | `.get` on the projected snapshot equals the reference reading of that name; a name is present exactly when some result answers it |
| `JsqsStatus.ReadingOfLast` | custom_components/xiaomi_miio_airpurifier_jsq2g/miio/integrations/deerma/humidifier/airhumidifier_jsqs.py:179 | the reference reading of a name is the reading of the last result that answers it |
| `JsqsStatus.ReadingOfAbsent` | custom_components/xiaomi_miio_airpurifier_jsq2g/miio/integrations/deerma/humidifier/airhumidifier_jsqs.py:179 | a name that no result answers reads as None |
| `JsqsStatus.OperationMode.IntValue` | custom_components/xiaomi_miio_airpurifier_jsq2g/miio/integrations/deerma/humidifier/airhumidifier_jsqs.py:45-49 | every fan level's protocol value lies in 1..4 |
| `JsqsStatus.OperationMode.FromValue` | custom_components/xiaomi_miio_airpurifier_jsq2g/miio/integrations/deerma/humidifier/airhumidifier_jsqs.py:80 | the enum lookup succeeds exactly when the value equals an integer in 1..4, and then finds the member with that value |
| `JsqsStatus.DecodeFanLevel` | custom_components/xiaomi_miio_airpurifier_jsq2g/miio/integrations/deerma/humidifier/airhumidifier_jsqs.py:76-85 | total: the result is Low, Mid or High exactly when the raw value equals 1, 2 or 3, and that level's value; anything else, including None, gives Auto |
| `JsqsStatus.FanLevelRoundTrip` | custom_components/xiaomi_miio_airpurifier_jsq2g/miio/integrations/deerma/humidifier/airhumidifier_jsqs.py:45-49 | decoding a level's protocol value gives the level back, both through the enum lookup and through the accessor's decoding |
| `JsqsStatus.PowerFromResults` | custom_components/xiaomi_miio_airpurifier_jsq2g/miio/integrations/deerma/humidifier/airhumidifier_jsqs.py:60-68 | for a snapshot built from results with a power entry, `is_on` is the power reading and `power` is "on" exactly when it is truthy; a failed read gives "off" |
| `JsqsStatus.ErrorFromResults` | custom_components/xiaomi_miio_airpurifier_jsq2g/miio/integrations/deerma/humidifier/airhumidifier_jsqs.py:70-73 | for a snapshot built from results with a fault entry, `error` is the fault reading unchanged |
| `JsqsStatus.FanLevelFromResults` | custom_components/xiaomi_miio_airpurifier_jsq2g/miio/integrations/deerma/humidifier/airhumidifier_jsqs.py:75-85 | for a snapshot built from results with a fan_level entry, `fan_level` decodes its reading; a failed read gives Auto |
| `JsqsStatus.OptionalAccessorsFromResults` | custom_components/xiaomi_miio_airpurifier_jsq2g/miio/integrations/deerma/humidifier/airhumidifier_jsqs.py:87-150 | each of the 12 `.get` accessors returns its own property's reading unchanged: the value if the read succeeded, None if it failed or no result answered |
| `JsqsDevice.AirHumidifierJsqs.SetProperty` | custom_components/xiaomi_miio_airpurifier_jsq2g/miio/integrations/deerma/humidifier/airhumidifier_jsqs.py:187 | a write of a table property appends exactly that (name, value) to the log and keeps the invariant |
| `JsqsDevice.AirHumidifierJsqs.Status` | custom_components/xiaomi_miio_airpurifier_jsq2g/miio/integrations/deerma/humidifier/airhumidifier_jsqs.py:174-182 | the status snapshot's data is the projection of the raw results |
| `JsqsDevice.AirHumidifierJsqs.On` | custom_components/xiaomi_miio_airpurifier_jsq2g/miio/integrations/deerma/humidifier/airhumidifier_jsqs.py:184-187 | appends exactly one write, ("power", True) |
| `JsqsDevice.AirHumidifierJsqs.Off` | custom_components/xiaomi_miio_airpurifier_jsq2g/miio/integrations/deerma/humidifier/airhumidifier_jsqs.py:189-192 | appends exactly one write, ("power", False) |
| `JsqsDevice.AirHumidifierJsqs.SetTargetHumidity` | custom_components/xiaomi_miio_airpurifier_jsq2g/miio/integrations/deerma/humidifier/airhumidifier_jsqs.py:198-204 | succeeds exactly for 41..69 and then appends one write ("target_humidity", h); otherwise fails with the rejected value and writes nothing |
| `JsqsDevice.AirHumidifierJsqs.SetFanLevel` | custom_components/xiaomi_miio_airpurifier_jsq2g/miio/integrations/deerma/humidifier/airhumidifier_jsqs.py:206-212 | appends exactly one write, ("fan_level", the level's value), and that value decodes back to the level |
| `JsqsDevice.AirHumidifierJsqs.SetLight` | custom_components/xiaomi_miio_airpurifier_jsq2g/miio/integrations/deerma/humidifier/airhumidifier_jsqs.py:220-222 | appends exactly one write, ("led_light", the argument) |
| `JsqsDevice.AirHumidifierJsqs.SetBuzzer` | custom_components/xiaomi_miio_airpurifier_jsq2g/miio/integrations/deerma/humidifier/airhumidifier_jsqs.py:230-232 | appends exactly one write, ("buzzer", the argument) |
| `JsqsDevice.AirHumidifierJsqs.SetOverwetProtect` | custom_components/xiaomi_miio_airpurifier_jsq2g/miio/integrations/deerma/humidifier/airhumidifier_jsqs.py:240-242 | appends exactly one write, ("overwet_protect", the argument) |
| `JsqsDevice.AirHumidifierJsqs.SetOverwetProtectOn` | custom_components/xiaomi_miio_airpurifier_jsq2g/miio/integrations/deerma/humidifier/airhumidifier_jsqs.py:252-253 | appends exactly one write, ("overwet_protect_on", the argument) |

## Left out

- `MiotDevice.get_properties_for_mapping` and `MiotDevice.set_property` live in `miot_device.py`, which is not part of this model. The transport, request batching and network I/O are therefore absent. A status read takes the raw results as a parameter. A write is an entry appended to the device's `writes` log.
- The return value of `set_property`, which every command passes back, is device output and is not modelled.
- `JsqsDevice.AirHumidifierJsqs.SetProperty` requires its name to be a key of the table. What the `MiotDevice` client does with an unknown name is not modelled. Every command meets this requirement.
- Floating-point values: `Value` holds only booleans, integers and None, so a float reading is outside the model. The temperature accessor passes its value through unchanged and never computes with it.
- The text of the `ValueError` message in `set_target_humidity` is not modelled. The error carries only the rejected value.
- Logging: `_LOGGER.exception` on a failed fan-level lookup is a side effect and is left out.
- The click decorators, `EnumType` and the `format_output` strings are CLI formatting. This includes `result.mode`, which has no accessor.
- The `status` and `mode` table entries have no accessor in the source. They appear only in the table.
- `is_on`, `power`, `error` and `fan_level` raise `KeyError` when their key is absent. The model states this as a precondition that the key is present, not as an error result.
- The deprecation shim and re-exports in `miio/__init__.py` are left out: runtime reflection on module globals.
- The exception classes in `miio/exceptions.py` are declarations only. The only explicit raise, the `ValueError` of `set_target_humidity`, is modelled as `JsqsDevice.Error`.
