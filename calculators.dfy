/** The nutrition calculators of app.py: body-mass index and its
    interpretation, Mifflin-St Jeor basal metabolic rate, total daily energy
    expenditure, ideal body weight and the macronutrient split.

    Quantities are exact reals. Python's `None` is `None` of `Option`;
    Python's `round` is `Rounding.Round`. Each calculator is stated against
    its value before rounding (`BmiValue`, `BmrValue`, ...). */
module Calculators {
  import opened Rounding

  datatype Option<T> = None | Some(value: T)

  // ---------------------------------------------------------------------
  // Gender

  /** The gender field of the form. Only "male" and "female" select a
      formula; every other string is `Unsupported`. */
  datatype Gender = Male | Female | Unsupported

  function ParseGender(s: string): (g: Gender)
    ensures g == Male <==> s == "male"
    ensures g == Female <==> s == "female"
    ensures g == Unsupported <==> s != "male" && s != "female"
  {
    if s == "male" then Male
    else if s == "female" then Female
    else Unsupported
  }

  // ---------------------------------------------------------------------
  // Activity multipliers

  /** Read-only table from activity level to the factor applied to the BMR. */
  const ACTIVITY_MULTIPLIERS: map<string, real> := map[
    "sedentario" := 1.2,
    "ligero" := 1.375,
    "moderado" := 1.55,
    "activo" := 1.725,
    "muy_activo" := 1.9
  ]

  /** The factor used for a level missing from the table. */
  const DEFAULT_MULTIPLIER: real := 1.2

  /** `ACTIVITY_MULTIPLIERS.get(level, 1.2)`. */
  function Multiplier(level: string): (m: real)
    ensures 1.2 <= m <= 1.9
  {
    if level in ACTIVITY_MULTIPLIERS then ACTIVITY_MULTIPLIERS[level] else DEFAULT_MULTIPLIER
  }

  /** An unrecognised level is silently treated as "sedentario"; the five
      listed levels are strictly increasing in the order of the table. */
  lemma MultiplierTable(level: string)
    ensures level !in ACTIVITY_MULTIPLIERS ==> Multiplier(level) == Multiplier("sedentario")
    ensures Multiplier("sedentario") < Multiplier("ligero") < Multiplier("moderado")
              < Multiplier("activo") < Multiplier("muy_activo")
    ensures Multiplier("sedentario") == 1.2 && Multiplier("muy_activo") == 1.9
  {
  }

  // ---------------------------------------------------------------------
  // Body-mass index

  /** weight / height_m^2 with the height converted from centimetres. */
  function BmiValue(weight: real, height: real): real
    requires height != 0.0
  {
    var heightM := height / 100.0;
    weight / (heightM * heightM)
  }

  /** `calculate_bmi`: `None` exactly for a zero height, otherwise the index
      rounded to two decimals. */
  function CalculateBmi(weight: real, height: real): (r: Option<real>)
    ensures r.None? <==> height == 0.0
    ensures r.Some? ==> Near(r.value, BmiValue(weight, height), 2)
  {
    if height == 0.0 then None
    else
      RoundError(BmiValue(weight, height), 2);
      Some(Round(BmiValue(weight, height), 2))
  }

  /** The index times the squared height in metres gives back the weight. */
  lemma BmiRecoversWeight(weight: real, height: real)
    requires height != 0.0
    ensures BmiValue(weight, height) * ((height / 100.0) * (height / 100.0)) == weight
  {
    DivTimesSquare(weight, height / 100.0);
  }

  // The helpers below keep every square written out as `m * m`: the
  // solver loses track of a square once it is bound to a name.

  lemma SquarePositive(m: real)
    requires m != 0.0
    ensures m * m > 0.0
  {
    if m < 0.0 {
      assert (-m) * (-m) > 0.0;
    }
  }

  lemma DivTimesSquare(a: real, m: real)
    requires m != 0.0
    ensures a / (m * m) * (m * m) == a
  {
    SquarePositive(m);
  }

  lemma TimesSquareCancel(x: real, y: real, m: real)
    requires m != 0.0 && x * (m * m) <= y * (m * m)
    ensures x <= y
  {
    SquarePositive(m);
  }

  lemma DivSquareMonotone(a: real, b: real, m: real)
    requires a <= b && m != 0.0
    ensures a / (m * m) <= b / (m * m)
  {
    DivTimesSquare(a, m);
    DivTimesSquare(b, m);
    TimesSquareCancel(a / (m * m), b / (m * m), m);
  }

  /** For a fixed height the index grows with the weight. */
  lemma BmiMonotoneInWeight(w1: real, w2: real, height: real)
    requires height != 0.0 && w1 <= w2
    ensures BmiValue(w1, height) <= BmiValue(w2, height)
    ensures CalculateBmi(w1, height).value <= CalculateBmi(w2, height).value
  {
    DivSquareMonotone(w1, w2, height / 100.0);
    RoundMonotone(BmiValue(w1, height), BmiValue(w2, height), 2);
  }

  // ---------------------------------------------------------------------
  // BMI interpretation

  /** The four bands, in increasing order of BMI. */
  datatype Category = BajoPeso | PesoNormal | Sobrepeso | Obesidad

  const INVALID_DATA: string := "Datos inválidos"

  /** Position of a band in the order Bajo peso < Peso normal < Sobrepeso < Obesidad. */
  function Rank(c: Category): nat {
    match c
    case BajoPeso => 0
    case PesoNormal => 1
    case Sobrepeso => 2
    case Obesidad => 3
  }

  /** Strict upper bounds 18.5, 24.9 and 29.9: a value on a bound belongs to
      the higher band. */
  function Classify(bmi: real): (c: Category)
    ensures c == BajoPeso <==> bmi < 18.5
    ensures c == PesoNormal <==> 18.5 <= bmi < 24.9
    ensures c == Sobrepeso <==> 24.9 <= bmi < 29.9
    ensures c == Obesidad <==> 29.9 <= bmi
  {
    if bmi < 18.5 then BajoPeso
    else if bmi < 24.9 then PesoNormal
    else if bmi < 29.9 then Sobrepeso
    else Obesidad
  }

  function Label(c: Category): (s: string)
    ensures s != INVALID_DATA
  {
    match c
    case BajoPeso => "Bajo peso"
    case PesoNormal => "Peso normal"
    case Sobrepeso => "Sobrepeso"
    case Obesidad => "Obesidad"
  }

  /** `interpret_bmi`: the sentinel for a missing index, otherwise the band's label. */
  function InterpretBmi(bmi: Option<real>): (s: string)
    ensures s == INVALID_DATA <==> bmi.None?
  {
    match bmi
    case None => INVALID_DATA
    case Some(b) => Label(Classify(b))
  }

  /** Each label is returned for exactly its half-open interval of BMI values. */
  lemma InterpretBmiBands(b: real)
    ensures InterpretBmi(Some(b)) == "Bajo peso" <==> b < 18.5
    ensures InterpretBmi(Some(b)) == "Peso normal" <==> 18.5 <= b < 24.9
    ensures InterpretBmi(Some(b)) == "Sobrepeso" <==> 24.9 <= b < 29.9
    ensures InterpretBmi(Some(b)) == "Obesidad" <==> 29.9 <= b
  {
  }

  /** A larger index never gets an earlier band. */
  lemma ClassifyMonotone(b1: real, b2: real)
    requires b1 <= b2
    ensures Rank(Classify(b1)) <= Rank(Classify(b2))
  {
  }

  // ---------------------------------------------------------------------
  // Basal metabolic rate (Mifflin-St Jeor)

  /** kcal/day before rounding, for a supported gender. */
  function BmrValue(weight: real, height: real, age: int, gender: Gender): real
    requires gender != Unsupported
  {
    if gender == Male then 10.0 * weight + 6.25 * height - 5.0 * age as real + 5.0
    else 10.0 * weight + 6.25 * height - 5.0 * age as real - 161.0
  }

  /** `calculate_bmr`: `None` exactly for an unsupported gender, otherwise the
      rate rounded to a whole number. */
  function CalculateBmr(weight: real, height: real, age: int, gender: Gender): (r: Option<real>)
    ensures r.None? <==> gender == Unsupported
    ensures r.Some? ==> Near(r.value, BmrValue(weight, height, age, gender), 0)
  {
    if gender == Unsupported then None
    else
      RoundError(BmrValue(weight, height, age, gender), 0);
      Some(Round(BmrValue(weight, height, age, gender), 0))
  }

  /** The male rate exceeds the female rate by exactly 166 kcal, before
      rounding and, because 166 is even, after rounding too. */
  lemma BmrGenderGap(weight: real, height: real, age: int)
    ensures BmrValue(weight, height, age, Male) - BmrValue(weight, height, age, Female) == 166.0
    ensures CalculateBmr(weight, height, age, Male).value
              == CalculateBmr(weight, height, age, Female).value + 166.0
  {
    var female := BmrValue(weight, height, age, Female);
    assert BmrValue(weight, height, age, Male) == female + 166 as real;
    RoundUnitsShiftEven(female, 166);
  }

  /** More weight or height, or fewer years, never lowers the rate. */
  lemma BmrMonotone(w1: real, h1: real, a1: int, w2: real, h2: real, a2: int, gender: Gender)
    requires gender != Unsupported
    requires w1 <= w2 && h1 <= h2 && a2 <= a1
    ensures BmrValue(w1, h1, a1, gender) <= BmrValue(w2, h2, a2, gender)
    ensures CalculateBmr(w1, h1, a1, gender).value <= CalculateBmr(w2, h2, a2, gender).value
  {
    RoundMonotone(BmrValue(w1, h1, a1, gender), BmrValue(w2, h2, a2, gender), 0);
  }

  // ---------------------------------------------------------------------
  // Total daily energy expenditure

  /** `calculate_tdee`: `None` exactly when the BMR is `None`, otherwise the
      BMR times the level's multiplier, rounded to a whole number. */
  function CalculateTdee(bmr: Option<real>, level: string): (r: Option<real>)
    ensures r.None? <==> bmr.None?
    ensures r.Some? ==> Near(r.value, bmr.value * Multiplier(level), 0)
  {
    var multiplier := Multiplier(level);
    match bmr
    case None => None
    case Some(b) =>
      RoundError(b * multiplier, 0);
      Some(Round(b * multiplier, 0))
  }

  /** For a non-negative BMR the unrounded TDEE lies between the sedentary
      and the very-active extremes; an unknown level gives the sedentary value. */
  lemma TdeeBounds(bmr: real, level: string)
    requires bmr >= 0.0
    ensures 1.2 * bmr <= bmr * Multiplier(level) <= 1.9 * bmr
    ensures level !in ACTIVITY_MULTIPLIERS ==>
              CalculateTdee(Some(bmr), level) == CalculateTdee(Some(bmr), "sedentario")
  {
    var m := Multiplier(level);
    assert bmr * m - 1.2 * bmr == bmr * (m - 1.2);
    assert 1.9 * bmr - bmr * m == bmr * (1.9 - m);
    MultiplierTable(level);
  }

  /** Chaining the two calculators: a TDEE is produced exactly when the
      gender is supported. */
  lemma TdeeOfBmrDefined(weight: real, height: real, age: int, gender: Gender, level: string)
    ensures CalculateTdee(CalculateBmr(weight, height, age, gender), level).None? <==>
              gender == Unsupported
  {
  }

  // ---------------------------------------------------------------------
  // Ideal body weight

  /** Heights below this many centimetres get the fixed floor weight. */
  const MIN_FORMULA_HEIGHT: real := 152.4

  /** kg gained per centimetre above `MIN_FORMULA_HEIGHT`. */
  const KG_PER_CM: real := 0.91

  /** The floor weight of a supported gender. */
  function IdealWeightFloor(gender: Gender): (w: real)
    requires gender != Unsupported
    ensures w == 50.0 || w == 45.5
    ensures w == 50.0 <==> gender == Male
  {
    if gender == Male then 50.0 else 45.5
  }

  /** The linear formula before rounding: the floor plus 0.91 kg per
      centimetre above 152.4 cm. */
  function IdealWeightValue(height: real, gender: Gender): (w: real)
    requires gender != Unsupported
    ensures height >= MIN_FORMULA_HEIGHT ==> w >= IdealWeightFloor(gender)
    ensures height == MIN_FORMULA_HEIGHT ==> w == IdealWeightFloor(gender)
  {
    if gender == Male then 50.0 + KG_PER_CM * (height - MIN_FORMULA_HEIGHT)
    else 45.5 + KG_PER_CM * (height - MIN_FORMULA_HEIGHT)
  }

  /** The floor weights have one decimal, so rounding to one decimal keeps them. */
  lemma FloorIsRounded(gender: Gender)
    requires gender != Unsupported
    ensures Round(IdealWeightFloor(gender), 1) == IdealWeightFloor(gender)
  {
    assert Scale(1) == 10.0;
    if gender == Male {
      RoundExact(50.0, 1, 500);
    } else {
      RoundExact(45.5, 1, 455);
    }
  }

  /** `calculate_ideal_weight`: `None` exactly for an unsupported gender;
      the floor below 152.4 cm; otherwise the formula rounded to one decimal,
      which is never below the floor. */
  function CalculateIdealWeight(height: real, gender: Gender): (r: Option<real>)
    ensures r.None? <==> gender == Unsupported
    ensures r.Some? && height < MIN_FORMULA_HEIGHT ==> r.value == IdealWeightFloor(gender)
    ensures r.Some? && height >= MIN_FORMULA_HEIGHT ==>
              Near(r.value, IdealWeightValue(height, gender), 1)
    ensures r.Some? ==> r.value >= IdealWeightFloor(gender)
  {
    if height < MIN_FORMULA_HEIGHT then
      if gender == Male then Some(50.0)
      else if gender == Female then Some(45.5)
      else assert gender.Unsupported?; None
    else if gender == Unsupported then None
    else
      var pci := IdealWeightValue(height, gender);
      RoundError(pci, 1);
      RoundMonotone(IdealWeightFloor(gender), pci, 1);
      FloorIsRounded(gender);
      Some(Round(pci, 1))
  }

  /** At exactly 152.4 cm both branches agree: the result is the floor. */
  lemma IdealWeightContinuous(gender: Gender)
    requires gender != Unsupported
    ensures CalculateIdealWeight(MIN_FORMULA_HEIGHT, gender) == Some(IdealWeightFloor(gender))
  {
    FloorIsRounded(gender);
  }

  /** Ideal weight never decreases with height, before and after rounding. */
  lemma IdealWeightMonotone(h1: real, h2: real, gender: Gender)
    requires gender != Unsupported
    requires h1 <= h2
    ensures IdealWeightValue(h1, gender) <= IdealWeightValue(h2, gender)
    ensures CalculateIdealWeight(h1, gender).value <= CalculateIdealWeight(h2, gender).value
  {
    if h1 >= MIN_FORMULA_HEIGHT {
      RoundMonotone(IdealWeightValue(h1, gender), IdealWeightValue(h2, gender), 1);
    }
  }

  // ---------------------------------------------------------------------
  // Macronutrient split

  /** Grams of each macronutrient and the sum of the three kcal allocations. */
  datatype Macros = Macros(
    carbohidratosG: real,
    proteinasG: real,
    grasasG: real,
    totalKcalVerificacion: real)

  const KCAL_PER_G_CARB: real := 4.0
  const KCAL_PER_G_PROT: real := 4.0
  const KCAL_PER_G_FAT: real := 9.0

  /** The share of `tdee` kcal given to a macronutrient at `perc` percent. */
  function Kcal(tdee: real, perc: real): real {
    tdee * (perc / 100.0)
  }

  /** Percentages summing to 100 hand out the whole energy budget. */
  lemma KcalConservation(tdee: real, carb: real, prot: real, fat: real)
    requires carb + prot + fat == 100.0
    ensures Kcal(tdee, carb) + Kcal(tdee, prot) + Kcal(tdee, fat) == tdee
  {
    assert Kcal(tdee, carb) + Kcal(tdee, prot) + Kcal(tdee, fat)
        == tdee * ((carb + prot + fat) / 100.0);
  }

  /** `calculate_macros`: `None` exactly when the TDEE is missing or the three
      percentages do not add up to 100; otherwise grams at 4, 4 and 9 kcal/g,
      each rounded to one decimal, and the unrounded kcal total, which equals
      the TDEE. */
  function CalculateMacros(tdee: Option<real>, carb: real, prot: real, fat: real): (r: Option<Macros>)
    ensures r.None? <==> tdee.None? || carb + prot + fat != 100.0
    ensures r.Some? ==> r.value.totalKcalVerificacion == tdee.value
    ensures r.Some? ==> Near(r.value.carbohidratosG, Kcal(tdee.value, carb) / KCAL_PER_G_CARB, 1)
    ensures r.Some? ==> Near(r.value.proteinasG, Kcal(tdee.value, prot) / KCAL_PER_G_PROT, 1)
    ensures r.Some? ==> Near(r.value.grasasG, Kcal(tdee.value, fat) / KCAL_PER_G_FAT, 1)
  {
    if tdee.None? || carb + prot + fat != 100.0 then None
    else
      var t := tdee.value;
      var carbKcal := Kcal(t, carb);
      var protKcal := Kcal(t, prot);
      var fatKcal := Kcal(t, fat);
      KcalConservation(t, carb, prot, fat);
      RoundError(carbKcal / KCAL_PER_G_CARB, 1);
      RoundError(protKcal / KCAL_PER_G_PROT, 1);
      RoundError(fatKcal / KCAL_PER_G_FAT, 1);
      Some(Macros(
        Round(carbKcal / KCAL_PER_G_CARB, 1),
        Round(protKcal / KCAL_PER_G_PROT, 1),
        Round(fatKcal / KCAL_PER_G_FAT, 1),
        carbKcal + protKcal + fatKcal))
  }

  /** Non-negative energy and percentages give non-negative grams. */
  lemma MacrosNonNegative(tdee: real, carb: real, prot: real, fat: real)
    requires tdee >= 0.0 && carb >= 0.0 && prot >= 0.0 && fat >= 0.0
    requires carb + prot + fat == 100.0
    ensures CalculateMacros(Some(tdee), carb, prot, fat).Some?
    ensures var m := CalculateMacros(Some(tdee), carb, prot, fat).value;
            m.carbohidratosG >= 0.0 && m.proteinasG >= 0.0 && m.grasasG >= 0.0
  {
    NonNegativeShare(tdee, carb, KCAL_PER_G_CARB);
    NonNegativeShare(tdee, prot, KCAL_PER_G_PROT);
    NonNegativeShare(tdee, fat, KCAL_PER_G_FAT);
    RoundNonNegative(Kcal(tdee, carb) / KCAL_PER_G_CARB, 1);
    RoundNonNegative(Kcal(tdee, prot) / KCAL_PER_G_PROT, 1);
    RoundNonNegative(Kcal(tdee, fat) / KCAL_PER_G_FAT, 1);
  }

  lemma NonNegativeShare(tdee: real, perc: real, perGram: real)
    requires tdee >= 0.0 && perc >= 0.0 && perGram > 0.0
    ensures Kcal(tdee, perc) / perGram >= 0.0
  {
    assert Kcal(tdee, perc) >= 0.0;
  }

  /** Turning the rounded grams back into kcal misses the TDEE by at most
      0.85 kcal: the drift `total_kcal_verificacion` lets a caller check. */
  lemma MacrosEnergyDrift(tdee: real, carb: real, prot: real, fat: real)
    requires carb + prot + fat == 100.0
    ensures var m := CalculateMacros(Some(tdee), carb, prot, fat).value;
            var energy := KCAL_PER_G_CARB * m.carbohidratosG + KCAL_PER_G_PROT * m.proteinasG
                          + KCAL_PER_G_FAT * m.grasasG;
            -0.85 <= energy - m.totalKcalVerificacion <= 0.85
  {
    assert HalfUlp(1) == 0.05 by { assert Scale(1) == 10.0; }
    KcalConservation(tdee, carb, prot, fat);
  }
}
