/** The humidifier device facade: commands that validate their argument and
    issue one MIoT property write, and the status read. The transport is not
    modelled: writes go to a log on the device object, and the raw results of
    a status read are a parameter. */
module JsqsDevice {
  import opened PyValues
  import opened JsqsMapping
  import opened JsqsStatus

  /** One `set_property(name, value)` call. */
  datatype Write = Write(name: string, value: Value)

  /** The `ValueError` that `set_target_humidity` raises, with the rejected value. */
  datatype Error = InvalidTargetHumidity(humidity: int)

  datatype Outcome = Pass | Fail(error: Error)

  class AirHumidifierJsqs {
    /** The property writes issued so far, oldest first. */
    var writes: seq<Write>

    /** Every write names a property of the table, so it resolves to a
        (siid, piid) pair. */
    ghost predicate Valid()
      reads this
    {
      forall k :: 0 <= k < |writes| ==> writes[k].name in Mapping
    }

    constructor ()
      ensures Valid() && writes == []
    {
      writes := [];
    }

    /** The device client's write of one property. */
    method SetProperty(name: string, value: Value)
      requires Valid() && name in Mapping
      modifies this
      ensures Valid()
      ensures writes == old(writes) + [Write(name, value)]
    {
      writes := writes + [Write(name, value)];
    }

    /** The snapshot built from the raw results of one full-table read. */
    method Status(results: seq<PropResult>) returns (s: AirHumidifierJsqsStatus)
      ensures s.data == Project(results)
    {
      s := AirHumidifierJsqsStatus(Project(results));
    }

    method On()
      requires Valid()
      modifies this
      ensures Valid()
      ensures writes == old(writes) + [Write("power", B(true))]
    {
      CommandNamesMapped();
      SetProperty("power", B(true));
    }

    method Off()
      requires Valid()
      modifies this
      ensures Valid()
      ensures writes == old(writes) + [Write("power", B(false))]
    {
      CommandNamesMapped();
      SetProperty("power", B(false));
    }

    /** Accepts exactly 41 through 69; any other value is rejected before
        anything is written. */
    method SetTargetHumidity(humidity: int) returns (r: Outcome)
      requires Valid()
      modifies this
      ensures Valid()
      ensures r.Pass? <==> 40 < humidity < 70
      ensures r.Fail? ==> r.error == InvalidTargetHumidity(humidity) && writes == old(writes)
      ensures r.Pass? ==> writes == old(writes) + [Write("target_humidity", I(humidity))]
    {
      if humidity <= 40 || humidity >= 70 {
        return Fail(InvalidTargetHumidity(humidity));
      }
      CommandNamesMapped();
      SetProperty("target_humidity", I(humidity));
      r := Pass;
    }

    /** Writes the level's protocol value, which decodes back to the level. */
    method SetFanLevel(fanLevel: OperationMode)
      requires Valid()
      modifies this
      ensures Valid()
      ensures writes == old(writes) + [Write("fan_level", I(fanLevel.IntValue()))]
      ensures DecodeFanLevel(writes[|writes| - 1].value) == fanLevel
    {
      CommandNamesMapped();
      SetProperty("fan_level", I(fanLevel.IntValue()));
      FanLevelRoundTrip(fanLevel);
    }

    method SetLight(light: bool)
      requires Valid()
      modifies this
      ensures Valid()
      ensures writes == old(writes) + [Write("led_light", B(light))]
    {
      CommandNamesMapped();
      SetProperty("led_light", B(light));
    }

    method SetBuzzer(buzzer: bool)
      requires Valid()
      modifies this
      ensures Valid()
      ensures writes == old(writes) + [Write("buzzer", B(buzzer))]
    {
      CommandNamesMapped();
      SetProperty("buzzer", B(buzzer));
    }

    method SetOverwetProtect(overwet: bool)
      requires Valid()
      modifies this
      ensures Valid()
      ensures writes == old(writes) + [Write("overwet_protect", B(overwet))]
    {
      CommandNamesMapped();
      SetProperty("overwet_protect", B(overwet));
    }

    method SetOverwetProtectOn(overwetProtectOn: bool)
      requires Valid()
      modifies this
      ensures Valid()
      ensures writes == old(writes) + [Write("overwet_protect_on", B(overwetProtectOn))]
    {
      CommandNamesMapped();
      SetProperty("overwet_protect_on", B(overwetProtectOn));
    }
  }

  /** A client: out-of-range targets write nothing, an in-range one writes once. */
  method TargetHumidityClient()
  {
    var d := new AirHumidifierJsqs();
    var r := d.SetTargetHumidity(39);
    assert r.Fail? && d.writes == [];
    r := d.SetTargetHumidity(40);
    assert r.Fail? && d.writes == [];
    r := d.SetTargetHumidity(70);
    assert r.Fail? && d.writes == [];
    r := d.SetTargetHumidity(71);
    assert r.Fail? && d.writes == [];
    r := d.SetTargetHumidity(55);
    assert r.Pass? && d.writes == [Write("target_humidity", I(55))];
  }
}
