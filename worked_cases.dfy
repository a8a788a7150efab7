/** Concrete inputs and the outputs the calculators of app.py give for them,
    including the boundary values of the BMI bands. */
module WorkedCases {
  import opened Rounding
  import opened Calculators

  /** 70 kg at 175 cm: 22.857... rounds to 22.86; a zero height has no index. */
  lemma BmiCases()
    ensures CalculateBmi(70.0, 175.0) == Some(22.86)
    ensures CalculateBmi(70.0, 0.0) == None
  {
    assert Scale(2) == 100.0;
    assert BmiValue(70.0, 175.0) * 100.0 == 70000.0 / 30.625;
    assert RoundInt(70000.0 / 30.625) == 2286;
  }

  /** Each threshold belongs to the higher band; 24.95 is already overweight. */
  lemma InterpretCases()
    ensures InterpretBmi(Some(18.4)) == "Bajo peso"
    ensures InterpretBmi(Some(18.5)) == "Peso normal"
    ensures InterpretBmi(Some(24.9)) == "Sobrepeso"
    ensures InterpretBmi(Some(24.95)) == "Sobrepeso"
    ensures InterpretBmi(Some(29.9)) == "Obesidad"
    ensures InterpretBmi(None) == "Datos inválidos"
  {
  }

  /** 70 kg, 175 cm, 30 years: 1648.75 rounds to 1649 for a man and 1482.75
      to 1483 for a woman; any other gender has no rate. */
  lemma BmrCases()
    ensures CalculateBmr(70.0, 175.0, 30, Male) == Some(1649.0)
    ensures CalculateBmr(70.0, 175.0, 30, Female) == Some(1483.0)
    ensures CalculateBmr(70.0, 175.0, 30, ParseGender("other")) == None
  {
    assert BmrValue(70.0, 175.0, 30, Male) == 1648.75;
    assert BmrValue(70.0, 175.0, 30, Female) == 1482.75;
    RoundUnits(1648.75);
    RoundUnits(1482.75);
  }

  /** 1674 kcal at "sedentario" gives 2008.8, rounded to 2009; an unknown
      level gives the same. */
  lemma TdeeCases()
    ensures CalculateTdee(Some(1674.0), "sedentario") == Some(2009.0)
    ensures CalculateTdee(Some(1674.0), "unknown_level") == Some(2009.0)
    ensures CalculateTdee(None, "activo") == None
  {
    RoundUnits(2008.8);
    assert "unknown_level" !in ACTIVITY_MULTIPLIERS;
  }

  /** 150 cm is below the formula's range; 180 cm gives 75.116, rounded to 75.1. */
  lemma IdealWeightCases()
    ensures CalculateIdealWeight(150.0, Male) == Some(50.0)
    ensures CalculateIdealWeight(180.0, Male) == Some(75.1)
    ensures CalculateIdealWeight(180.0, Unsupported) == None
  {
    assert Scale(1) == 10.0;
  }

  /** 2000 kcal at 50/30/20 gives 250 g, 150 g and 44.4 g, and accounts for
      all 2000 kcal; percentages adding up to 99 are refused. */
  lemma MacrosCases()
    ensures CalculateMacros(Some(2000.0), 50.0, 30.0, 20.0) == Some(Macros(250.0, 150.0, 44.4, 2000.0))
    ensures CalculateMacros(Some(2000.0), 50.0, 30.0, 19.0) == None
  {
    assert Kcal(2000.0, 50.0) == 1000.0 && Kcal(2000.0, 30.0) == 600.0 && Kcal(2000.0, 20.0) == 400.0;
    RoundedGrams();
  }

  lemma RoundedGrams()
    ensures Round(250.0, 1) == 250.0 && Round(150.0, 1) == 150.0 && Round(400.0 / 9.0, 1) == 44.4
  {
    assert Scale(1) == 10.0;
    RoundExact(250.0, 1, 2500);
    RoundExact(150.0, 1, 1500);
    assert 400.0 / 9.0 * 10.0 == 4000.0 / 9.0;
    assert RoundInt(4000.0 / 9.0) == 444;
  }
}
