/** Single-item snapshots followed from the gateway record to the entity that
    reports it. */
module SetupExamples {
  import opened Options
  import opened PyStrings
  import opened NumericState
  import opened NumericExamples
  import opened Items
  import opened SensorSetup

  /** A snapshot of one eligible item gives that item an entity. */
  lemma SingleEligible(it: Item)
    requires Eligible(it)
    ensures EligibleItems([it]) == [it]
  {
    assert [it][..0] == [];
  }

  /** A battery item: `{"name": "Battery1", "type": "Battery", "state": "87 %"}`
      becomes one entity reporting 87 in %, as a battery. */
  lemma BatterySnapshot()
    ensures var it := Item(Some("Battery1"), Some("Battery"), Some(Text("87 %")), None);
      EligibleItems([it]) == [it]
      && ClassifyItem(it) == BatteryGuess
      && ParseNumeric(GetState(it)) == Num(87.0)
  {
    var it := Item(Some("Battery1"), Some("Battery"), Some(Text("87 %")), None);
    BatteryItemClassified(it);
    SingleEligible(it);
    BatteryReading();
  }

  lemma BatteryItemClassified(it: Item)
    requires it == Item(Some("Battery1"), Some("Battery"), Some(Text("87 %")), None)
    ensures Eligible(it) && ClassifyItem(it) == BatteryGuess
  {
    ContainsChar("87 %", '%');
    ContainsChar("87 %", 'W');
    if Contains("Battery", "Power") {
      ContainsFirstChar("Battery", "Power");
    }
  }

  /** A power item: `{"name": "Grid", "type": "Number:Power", "state": "1523 W"}`
      becomes one entity reporting 1523 in W, as power. */
  lemma GridSnapshot()
    ensures var it := Item(Some("Grid"), Some("Number:Power"), Some(Text("1523 W")), None);
      EligibleItems([it]) == [it]
      && ClassifyItem(it) == PowerGuess
      && ParseNumeric(GetState(it)) == Num(1523.0)
  {
    var it := Item(Some("Grid"), Some("Number:Power"), Some(Text("1523 W")), None);
    GridItemClassified(it);
    SingleEligible(it);
    GridReading();
    assert GetState(it) == Text("1523 W");
  }

  lemma GridReading()
    ensures ParseNumeric(Text("1523 W")) == Num(1523.0)
  {
    GridReadingCleans();
    GridReadingParses();
    GridReadingValue();
  }

  lemma GridItemClassified(it: Item)
    requires it == Item(Some("Grid"), Some("Number:Power"), Some(Text("1523 W")), None)
    ensures Eligible(it) && ClassifyItem(it) == PowerGuess
  {
    assert "Number:Power"[7..12] == "Power";
    assert OccursAt("Number:Power", "Power", 7);
    ContainsIff("Number:Power", "Power");
  }

  lemma GridReadingCleans()
    ensures Clean("1523 W") == "1523"
  {
    assert Clean(" W") == "";
  }

  lemma GridReadingParses()
    ensures ParseDecimal("1523") == Some(Decimal(false, "1523", None))
  {
    var d := Decimal(false, "1523", None);
    assert Render(d) == "1523";
    ParseRender(d);
  }

  lemma GridReadingValue()
    ensures DecimalValue(Decimal(false, "1523", None)) == 1523.0
  {
    assert DigitsValue("1") == 1;
    assert "15"[..1] == "1";
    assert DigitsValue("15") == 15;
    assert "152"[..2] == "15";
    assert DigitsValue("152") == 152;
    assert "1523"[..3] == "152";
    assert DigitsValue("1523") == 1523;
    assert FractionDigits(Decimal(false, "1523", None)) == "";
  }

  /** A state that is a lone minus sign is eligible by its type but has no
      value. */
  lemma LoneMinusSnapshot()
    ensures var it := Item(Some("Meter"), Some("Number"), Some(Text("-")), None);
      EligibleItems([it]) == [it] && ParseNumeric(GetState(it)) == NoValue
  {
    var it := Item(Some("Meter"), Some("Number"), Some(Text("-")), None);
    SingleEligible(it);
    assert Clean("-") == "-";
    RejectedLiterals();
  }
}
