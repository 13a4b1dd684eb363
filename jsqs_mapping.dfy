/** The MIoT property table of the deerma jsq2w / jsq2g humidifiers: symbolic
    property name to (service id, property id). */
module JsqsMapping {
  import opened PyDict

  /** The protocol coordinates of one property. */
  datatype PropRef = PropRef(siid: nat, piid: nat)

  /** The entries of the table's dict display, in source order. The name
      "overtop_humidity" occurs twice, so the display has 18 entries. */
  const MappingEntries: seq<(string, PropRef)> := [
    // Air Humidifier (siid 2)
    ("power", PropRef(2, 1)),
    ("fault", PropRef(2, 2)),
    ("fan_level", PropRef(2, 5)),
    ("target_humidity", PropRef(2, 6)),
    ("status", PropRef(2, 7)),
    ("mode", PropRef(2, 8)),
    // Environment (siid 3)
    ("relative_humidity", PropRef(3, 1)),
    ("temperature", PropRef(3, 7)),
    // Alarm (siid 5)
    ("buzzer", PropRef(5, 1)),
    // Light (siid 6)
    ("led_light", PropRef(6, 1)),
    // Other (siid 7)
    ("tank_filed", PropRef(7, 1)),
    ("water_shortage_fault", PropRef(7, 2)),
    ("humi_sensor_fault", PropRef(7, 3)),
    ("temp_sensor_fault", PropRef(7, 4)),
    ("overwet_protect", PropRef(7, 5)),
    ("overwet_protect_on", PropRef(7, 6)),
    ("overtop_humidity", PropRef(7, 7)),
    ("overtop_humidity", PropRef(7, 8))
  ]

  /** The table the display evaluates to. */
  const Mapping: map<string, PropRef> := BuildDict(MappingEntries)

  /** The models the integration supports. */
  const SupportedModels: seq<string> := ["deerma.humidifier.jsq2w", "deerma.humidifier.jsq2g"]

  /** The per-model tables: every supported model shares the one table. */
  const MiotMapping: map<string, map<string, PropRef>> := map model | model in SupportedModels :: Mapping

  /** The property names the device commands write. */
  const CommandNames: set<string> :=
    {"power", "target_humidity", "fan_level", "led_light", "buzzer", "overwet_protect", "overwet_protect_on"}

  /** No name repeats among the first 17 entries of the display. */
  lemma FirstEntriesDistinct()
    ensures forall i, j :: 0 <= i < j < 17 ==> MappingEntries[i].0 != MappingEntries[j].0
  {
  }

  /** The entry the table keeps for each name: the last one in the display. */
  lemma EntriesKept()
    ensures forall i :: 0 <= i < 16 ==> Mapping[MappingEntries[i].0] == MappingEntries[i].1
    ensures Mapping["overtop_humidity"] == PropRef(7, 8)
  {
    var ps := MappingEntries;
    FirstEntriesDistinct();
    assert ps[16].0 == ps[17].0;
    forall i | 0 <= i < 16 ensures Mapping[ps[i].0] == ps[i].1 {
      assert IsLastFor(ps, i);
      BuildDictLast(ps, i);
    }
    assert IsLastFor(ps, 17);
    BuildDictLast(ps, 17);
  }

  /** The 17 distinct names of the display. */
  const TableNames: set<string> := {
    "power", "fault", "fan_level", "target_humidity", "status", "mode",
    "relative_humidity", "temperature", "buzzer", "led_light", "tank_filed",
    "water_shortage_fault", "humi_sensor_fault", "temp_sensor_fault",
    "overwet_protect", "overwet_protect_on", "overtop_humidity"}

  /** The table's names are exactly those 17. */
  lemma MappingKeys()
    ensures Mapping.Keys == TableNames
  {
    EntryNamesListed();
    ListedNamesMapped();
  }

  /** Every name of the display is one of the 17. */
  lemma EntryNamesListed()
    ensures forall i :: 0 <= i < |MappingEntries| ==> MappingEntries[i].0 in TableNames
  {
    var ps := MappingEntries;
    forall i | 0 <= i < 18 ensures ps[i].0 in TableNames {
      assert i == 0 || i == 1 || i == 2 || i == 3 || i == 4 || i == 5 || i == 6 || i == 7 || i == 8 || i == 9 || i == 10 || i == 11 || i == 12 || i == 13 || i == 14 || i == 15 || i == 16 || i == 17;
    }
  }

  /** Each of the 17 names is a key of the table. */
  lemma ListedNamesMapped()
    ensures TableNames <= Mapping.Keys
  {
    var ps := MappingEntries;
    assert ps[0].0 in Mapping && ps[1].0 in Mapping && ps[2].0 in Mapping && ps[3].0 in Mapping && ps[4].0 in Mapping && ps[5].0 in Mapping && ps[6].0 in Mapping && ps[7].0 in Mapping && ps[8].0 in Mapping && ps[9].0 in Mapping && ps[10].0 in Mapping && ps[11].0 in Mapping && ps[12].0 in Mapping && ps[13].0 in Mapping && ps[14].0 in Mapping && ps[15].0 in Mapping && ps[16].0 in Mapping && ps[17].0 in Mapping;
  }

  /** 18 entries in the display, 17 distinct names in the table. */
  lemma MappingSize()
    ensures |MappingEntries| == 18 && |Mapping| == 17
  {
    var ps := MappingEntries;
    FirstEntriesDistinct();
    BuildDictSize(ps[..17]);
    assert ps[..17][16].0 == ps[17].0;
    BuildDictRepeatSize(ps);
  }

  /** Every name a command writes is a key of the table. */
  lemma CommandNamesMapped()
    ensures CommandNames <= Mapping.Keys
  {
    ListedNamesMapped();
    assert CommandNames <= TableNames;
  }

  /** Both supported model strings, and no other, select the identical table. */
  lemma ModelsShareTable()
    ensures MiotMapping.Keys == {"deerma.humidifier.jsq2w", "deerma.humidifier.jsq2g"}
    ensures MiotMapping["deerma.humidifier.jsq2w"] == MiotMapping["deerma.humidifier.jsq2g"] == Mapping
  {
  }

  /** Whichever supported model is active, every name a command writes resolves in its table. */
  lemma CommandNamesInEveryTable()
    ensures forall model :: model in MiotMapping ==> CommandNames <= MiotMapping[model].Keys
  {
    assert forall model :: model in MiotMapping ==> MiotMapping[model] == Mapping;
    CommandNamesMapped();
  }
}
