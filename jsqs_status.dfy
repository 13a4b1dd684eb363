/** Reading the humidifier: the projection of raw MIoT property results into a
    name-to-value snapshot, the fan-level enum, and the snapshot's accessors. */
module JsqsStatus {
  import opened PyValues
  import opened PyDict

  /** One raw property result: the symbolic name it answers (`did`), the
      per-property error code (0 is success) and the reported value. */
  datatype PropResult = PropResult(did: string, code: int, value: Value)

  /** What the snapshot stores for one result: its value, or `None` when the
      read of that property failed. */
  function Reading(r: PropResult): Value
  {
    if r.code == 0 then r.value else Null
  }

  /** Result `i` is the last one in `rs` that answers its name. */
  ghost predicate IsLastResult(rs: seq<PropResult>, i: int)
    requires 0 <= i < |rs|
  {
    forall j :: i < j < |rs| ==> rs[j].did != rs[i].did
  }

  /** Some result in `rs` answers `name`. */
  ghost predicate Answers(rs: seq<PropResult>, name: string)
  {
    exists i :: 0 <= i < |rs| && rs[i].did == name
  }

  /** The key/value pairs the status dict comprehension produces, in order. */
  function ResultPairs(rs: seq<PropResult>): seq<(string, Value)>
  {
    seq(|rs|, i requires 0 <= i < |rs| => (rs[i].did, Reading(rs[i])))
  }

  /** The snapshot data built from the results: one entry per answered name
      and no other. */
  function Project(rs: seq<PropResult>): (data: map<string, Value>)
    ensures data.Keys == set i | 0 <= i < |rs| :: rs[i].did
  {
    var ps := ResultPairs(rs);
    assert forall i :: 0 <= i < |ps| ==> ps[i].0 == rs[i].did;
    BuildDict(ps)
  }

  /** The last result for a name decides its entry: the reported value when
      its code is 0, `None` otherwise. */
  lemma ProjectLast(rs: seq<PropResult>, i: int)
    requires 0 <= i < |rs| && IsLastResult(rs, i)
    ensures rs[i].code == 0 ==> Project(rs)[rs[i].did] == rs[i].value
    ensures rs[i].code != 0 ==> Project(rs)[rs[i].did] == Null
  {
    var ps := ResultPairs(rs);
    assert IsLastFor(ps, i);
    BuildDictLast(ps, i);
  }

  /** Reference reading of one name: scanning the results from the end, the
      reading of the first one that answers `name`, or `None` if none does. */
  function ReadingOf(rs: seq<PropResult>, name: string): Value
  {
    if rs == [] then Null
    else if rs[|rs| - 1].did == name then Reading(rs[|rs| - 1])
    else ReadingOf(rs[..|rs| - 1], name)
  }

  /** The fan levels; the integer of each is its protocol value. */
  datatype OperationMode = Low | Mid | High | Auto {
    function IntValue(): (n: int)
      ensures 1 <= n <= 4
    {
      match this
      case Low => 1
      case Mid => 2
      case High => 3
      case Auto => 4
    }

    /** Looking a raw value up in the enum by value, as `OperationMode(v)` does:
        the member whose integer the value equals in Python (so `True` finds
        Low), or `None` where the lookup raises `ValueError`. */
    static function FromValue(v: Value): (m: Option<OperationMode>)
      ensures m.Some? <==> NumericValue(v).Some? && 1 <= NumericValue(v).value <= 4
      ensures m.Some? ==> m.value.IntValue() == NumericValue(v).value
    {
      match v
      case B(b) => if b then Some(Low) else None
      case I(n) =>
        if n == 1 then Some(Low)
        else if n == 2 then Some(Mid)
        else if n == 3 then Some(High)
        else if n == 4 then Some(Auto)
        else None
      case Null => None
    }
  }

  /** The `fan_level` decoding: the enum member, or Auto when the lookup fails. */
  function DecodeFanLevel(v: Value): (m: OperationMode)
    ensures m != Auto <==> NumericValue(v).Some? && 1 <= NumericValue(v).value <= 3
    ensures m != Auto ==> m.IntValue() == NumericValue(v).value
  {
    match OperationMode.FromValue(v)
    case Some(mode) => mode
    case None => Auto
  }

  /** The status snapshot the device returns. */
  datatype AirHumidifierJsqsStatus = AirHumidifierJsqsStatus(data: map<string, Value>) {

    /** `data.get(key)`: the stored value, or `None` when the key is absent. */
    function Get(key: string): Value
    {
      if key in data then data[key] else Null
    }

    function IsOn(): Value
      requires "power" in data
    {
      data["power"]
    }

    function Power(): string
      requires "power" in data
    {
      if Truthy(IsOn()) then "on" else "off"
    }

    function Error(): Value
      requires "fault" in data
    {
      data["fault"]
    }

    function FanLevel(): OperationMode
      requires "fan_level" in data
    {
      DecodeFanLevel(data["fan_level"])
    }

    function TargetHumidity(): Value { Get("target_humidity") }
    function RelativeHumidity(): Value { Get("relative_humidity") }
    function Temperature(): Value { Get("temperature") }
    function Buzzer(): Value { Get("buzzer") }
    function LedLight(): Value { Get("led_light") }
    function TankFiled(): Value { Get("tank_filed") }
    function WaterShortageFault(): Value { Get("water_shortage_fault") }
    function HumiSensorFault(): Value { Get("humi_sensor_fault") }
    function OverwetProtect(): Value { Get("overwet_protect") }
    function OverwetProtectOn(): Value { Get("overwet_protect_on") }
    function OvertopHumidity(): Value { Get("overtop_humidity") }
    function TempSensorFault(): Value { Get("temp_sensor_fault") }
  }

  /** Appending one result updates the projection at that result's name only. */
  lemma ProjectSnoc(rs: seq<PropResult>, r: PropResult)
    ensures Project(rs + [r]) == Project(rs)[r.did := Reading(r)]
  {
    var rs' := rs + [r];
    assert ResultPairs(rs')[..|rs|] == ResultPairs(rs);
  }

  /** Looking a name up in the projected snapshot gives its reference reading. */
  lemma {:induction false} ProjectGet(rs: seq<PropResult>, name: string)
    ensures AirHumidifierJsqsStatus(Project(rs)).Get(name) == ReadingOf(rs, name)
    ensures name in Project(rs) <==> Answers(rs, name)
  {
    if rs != [] {
      var init, last := rs[..|rs| - 1], rs[|rs| - 1];
      assert rs == init + [last];
      ProjectSnoc(init, last);
      ProjectGet(init, name);
    }
  }

  /** The reference reading agrees with the projection's last-result-wins
      rule, and a name no result answers reads as `None`. */
  lemma {:induction false} ReadingOfLast(rs: seq<PropResult>, i: int)
    requires 0 <= i < |rs| && IsLastResult(rs, i)
    ensures ReadingOf(rs, rs[i].did) == Reading(rs[i])
  {
    ProjectGet(rs, rs[i].did);
    ProjectLast(rs, i);
  }

  lemma {:induction false} ReadingOfAbsent(rs: seq<PropResult>, name: string)
    requires !Answers(rs, name)
    ensures ReadingOf(rs, name) == Null
  {
    ProjectGet(rs, name);
  }

  /** Every optional accessor of the snapshot built from `rs` returns the
      reading of its own property unchanged: the last result's value if that
      read succeeded, `None` if it failed or no result answers it. */
  lemma {:induction false} OptionalAccessorsFromResults(rs: seq<PropResult>)
    ensures var s := AirHumidifierJsqsStatus(Project(rs));
      && s.TargetHumidity() == ReadingOf(rs, "target_humidity")
      && s.RelativeHumidity() == ReadingOf(rs, "relative_humidity")
      && s.Temperature() == ReadingOf(rs, "temperature")
      && s.Buzzer() == ReadingOf(rs, "buzzer")
      && s.LedLight() == ReadingOf(rs, "led_light")
      && s.TankFiled() == ReadingOf(rs, "tank_filed")
      && s.WaterShortageFault() == ReadingOf(rs, "water_shortage_fault")
      && s.HumiSensorFault() == ReadingOf(rs, "humi_sensor_fault")
      && s.OverwetProtect() == ReadingOf(rs, "overwet_protect")
      && s.OverwetProtectOn() == ReadingOf(rs, "overwet_protect_on")
      && s.OvertopHumidity() == ReadingOf(rs, "overtop_humidity")
      && s.TempSensorFault() == ReadingOf(rs, "temp_sensor_fault")
  {
    ProjectGet(rs, "target_humidity");
    ProjectGet(rs, "relative_humidity");
    ProjectGet(rs, "temperature");
    ProjectGet(rs, "buzzer");
    ProjectGet(rs, "led_light");
    ProjectGet(rs, "tank_filed");
    ProjectGet(rs, "water_shortage_fault");
    ProjectGet(rs, "humi_sensor_fault");
    ProjectGet(rs, "overwet_protect");
    ProjectGet(rs, "overwet_protect_on");
    ProjectGet(rs, "overtop_humidity");
    ProjectGet(rs, "temp_sensor_fault");
  }

  /** When the snapshot has a "power" entry, `is_on` is its reading and `power` is
      "on" exactly when that reading is truthy; a failed read gives "off". */
  lemma PowerFromResults(rs: seq<PropResult>)
    requires "power" in Project(rs)
    ensures var s := AirHumidifierJsqsStatus(Project(rs));
      && s.IsOn() == ReadingOf(rs, "power")
      && (s.Power() == "on" <==> Truthy(ReadingOf(rs, "power")))
      && (ReadingOf(rs, "power") == Null ==> s.Power() == "off")
  {
    ProjectGet(rs, "power");
  }

  /** When the snapshot has a "fault" entry, `error` is its reading. */
  lemma ErrorFromResults(rs: seq<PropResult>)
    requires "fault" in Project(rs)
    ensures var s := AirHumidifierJsqsStatus(Project(rs));
      s.Error() == ReadingOf(rs, "fault")
  {
    ProjectGet(rs, "fault");
  }

  /** When the snapshot has a "fan_level" entry, `fan_level` decodes its reading; a
      failed read (reading `None`) gives Auto. */
  lemma FanLevelFromResults(rs: seq<PropResult>)
    requires "fan_level" in Project(rs)
    ensures var s := AirHumidifierJsqsStatus(Project(rs));
      && s.FanLevel() == DecodeFanLevel(ReadingOf(rs, "fan_level"))
      && (ReadingOf(rs, "fan_level") == Null ==> s.FanLevel() == Auto)
  {
    ProjectGet(rs, "fan_level");
  }

  /** Decoding the protocol value of a fan level gives that level back. */
  lemma FanLevelRoundTrip(m: OperationMode)
    ensures OperationMode.FromValue(I(m.IntValue())) == Some(m)
    ensures DecodeFanLevel(I(m.IntValue())) == m
  {
  }
}
