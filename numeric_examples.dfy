/** Worked readings of gateway states, following `_parse_numeric_state`. */
module NumericExamples {
  import opened Options
  import opened NumericState

  /** A power reading: `"123.4 W"` cleans to `"123.4"` and reads as 123.4. */
  lemma PowerReading()
    ensures ParseNumeric(Text("123.4 W")) == Num(123.4)
  {
    PowerReadingCleans();
    PowerReadingParses();
    PowerReadingValue();
  }

  lemma PowerReadingCleans()
    ensures Clean("123.4 W") == "123.4"
  {
    assert Clean(" W") == "";
    assert Clean("4 W") == "4";
  }

  lemma PowerReadingParses()
    ensures ParseDecimal("123.4") == Some(Decimal(false, "123", Some("4")))
  {
    var d := Decimal(false, "123", Some("4"));
    assert Render(d) == "123.4";
    ParseRender(d);
  }

  lemma PowerReadingValue()
    ensures DecimalValue(Decimal(false, "123", Some("4"))) == 123.4
  {
    assert DigitsValue("12") == 12;
    assert DigitsValue("123") == 123;
    assert DigitsValue("4") == 4;
    assert Pow10(1) == 10;
    assert FractionDigits(Decimal(false, "123", Some("4"))) == "4";
  }

  /** A battery reading: `"87 %"` reads as 87. */
  lemma BatteryReading()
    ensures ParseNumeric(Text("87 %")) == Num(87.0)
  {
    assert Clean("87 %") == "87";
    var d := Decimal(false, "87", None);
    assert Render(d) == "87";
    ParseRender(d);
    assert DigitsValue("87") == 87;
  }

  /** A state without digits has no value: `"off"` reads as `None`. */
  lemma OffReading()
    ensures ParseNumeric(Text("off")) == NoValue
  {
    assert Clean("off") == "";
  }

  /** Texts `float()` rejects after cleaning: a lone sign, two points, an inner
      minus and a doubled minus. */
  lemma RejectedLiterals()
    ensures ParseDecimal("-") == None
    ensures ParseDecimal("1.2.3") == None
    ensures ParseDecimal("5-3") == None
    ensures ParseDecimal("--1") == None
  {
    assert LeadingDigits("") == 0;
    assert LeadingDigits("1.2.3") == 1;
    assert !AllDigits("2.3") by { assert !IsDigit("2.3"[1]); }
    assert LeadingDigits("5-3") == 1;
    assert LeadingDigits("-1") == 0;
  }

  /** Texts `float()` accepts: a trailing point, a leading point, minus zero. */
  lemma AcceptedLiterals()
    ensures ParseDecimal("5.") == Some(Decimal(false, "5", Some("")))
    ensures ParseDecimal(".5") == Some(Decimal(false, "", Some("5")))
    ensures ParseDecimal("-0") == Some(Decimal(true, "0", None))
  {
    assert Render(Decimal(false, "5", Some(""))) == "5.";
    ParseRender(Decimal(false, "5", Some("")));
    assert Render(Decimal(false, "", Some("5"))) == ".5";
    ParseRender(Decimal(false, "", Some("5")));
    assert Render(Decimal(true, "0", None)) == "-0";
    ParseRender(Decimal(true, "0", None));
  }

  /** A minus sign is kept wherever it stands, so a date-like state has no value. */
  lemma InnerMinusReading()
    ensures ParseNumeric(Text("5-3 W")) == NoValue
  {
    assert Clean("5-3 W") == "5-3";
    assert LeadingDigits("5-3") == 1;
  }
}
