# Nutrition calculators — a verified model

This project models the six calculator functions of the nutrition web
application (`app.py`, lines 9–86) and proves their properties in Dafny:

- body-mass index (`calculate_bmi`): weight in kilograms over the square of
  the height in metres, `None` for a zero height, rounded to two decimals;
- its interpretation (`interpret_bmi`): four bands with strict upper bounds
  18.5, 24.9 and 29.9, plus the sentinel "Datos inválidos" for a missing index;
- basal metabolic rate (`calculate_bmr`): the Mifflin–St Jeor equation for
  `'male'` and `'female'`, `None` for any other gender, rounded to a whole number;
- total daily energy expenditure (`calculate_tdee`): the rate times a factor
  from the `ACTIVITY_MULTIPLIERS` table (Spanish keys, default 1.2), rounded
  to a whole number;
- ideal body weight (`calculate_ideal_weight`): a floor of 50 kg (male) or
  45.5 kg (female) below 152.4 cm, 0.91 kg per centimetre above it, rounded
  to one decimal;
- macronutrient split (`calculate_macros`): refused unless the three
  percentages add up to 100; grams at 4, 4 and 9 kcal per gram, each rounded
  to one decimal, and the unrounded kcal total `total_kcal_verificacion`.

Files:

- `rounding.dfy` — module `Rounding`: Python's `round(x, d)` over exact reals
  (nearest multiple of 10^-d, ties to the even neighbour), with its error
  bound, monotonicity, exactness on values that already have d decimals, and
  its behaviour under a shift by an even integer.
- `calculators.dfy` — module `Calculators`: the six calculators, each stated
  against its value before rounding (`BmiValue`, `BmrValue`, `IdealWeightValue`,
  `Kcal`), and the lemmas that relate them.
- `worked_cases.dfy` — module `WorkedCases`: concrete inputs and outputs.

Python's `None` is `Calculators.Option.None`. The gender field is the datatype
`Gender` with an explicit `Unsupported` variant (`ParseGender` maps the form
string onto it); the activity level stays a string looked up in the map
`ACTIVITY_MULTIPLIERS`, exactly as `dict.get` does.

Sample values sometimes quoted for the metabolic rate
(1674 kcal for a 70 kg, 175 cm, 30-year-old man and 1508 kcal for
a woman) do not follow from the equation in `app.py:35-37`, which gives
1648.75 and 1482.75, rounded to 1649 and 1483. The model follows the code
(`WorkedCases.BmrCases`).

## Model

| member | source | states |
|---|---|---|
| `Rounding.RoundInt` | app.py:40 | rounding to an integer lands within 0.5 of the input, and on a tie picks the even integer (Python's `round`) |
| `Rounding.Round` | app.py:22 | Python's `round(x, d)`, as called here and at app.py:40, 47, 66 and 77-79: the multiple of 10^-d nearest to x, a tie going to the even neighbour; its properties are the lemmas below |
| `Rounding.RoundError` | app.py:22 | `round(x, d)` differs from `x` by at most half a unit in the d-th decimal |
| `Rounding.RoundMonotone` | app.py:66 | `round(., d)` never reverses the order of two values |
| `Rounding.RoundExact` | app.py:66 | a value with at most d decimals is unchanged by `round(., d)` |
| `Rounding.RoundUnitsShiftEven` | app.py:40 | `round(x + k, 0) == round(x, 0) + k` for every even integer k, ties included |
| `Rounding.RoundNonNegative` | app.py:77-79 | rounding a non-negative value gives a non-negative value |
| `Calculators.ParseGender` | app.py:34-38 | only the strings "male" and "female" select a formula; every other string is unsupported |
| `Calculators.Multiplier` | app.py:44 | the factor looked up with default 1.2 always lies in [1.2, 1.9] |
| `Calculators.MultiplierTable` | app.py:9-15 | an unknown level gets the same factor as "sedentario"; the five levels are strictly increasing from 1.2 to 1.9 |
| `Calculators.BmiValue` | app.py:20-21 | weight / (height/100)^2, the index before rounding, against which `CalculateBmi`'s contract is stated |
| `Calculators.CalculateBmi` | app.py:17-22 | `None` exactly when the height is 0; otherwise within 0.005 of weight / (height/100)^2 |
| `Calculators.BmiRecoversWeight` | app.py:20-21 | the unrounded index times the squared height in metres is the weight (the index is the inverse of that product) |
| `Calculators.BmiMonotoneInWeight` | app.py:20-22 | at a fixed non-zero height a heavier weight never gets a lower index, before or after rounding |
| `Calculators.Classify` | app.py:27-30 | band `BajoPeso` iff bmi < 18.5, `PesoNormal` iff 18.5 <= bmi < 24.9, `Sobrepeso` iff 24.9 <= bmi < 29.9, `Obesidad` iff bmi >= 29.9 |
| `Calculators.Label` | app.py:27-30 | no band label equals the "Datos inválidos" sentinel |
| `Calculators.InterpretBmi` | app.py:24-30 | the result is "Datos inválidos" exactly when the index is missing |
| `Calculators.InterpretBmiBands` | app.py:26-30 | "Bajo peso" iff bmi < 18.5, "Peso normal" iff 18.5 <= bmi < 24.9, "Sobrepeso" iff 24.9 <= bmi < 29.9, "Obesidad" iff bmi >= 29.9: each bound belongs to the higher band |
| `Calculators.ClassifyMonotone` | app.py:27-30 | a larger index never falls in an earlier band of Bajo peso < Peso normal < Sobrepeso < Obesidad |
| `Calculators.BmrValue` | app.py:35-37 | the Mifflin–St Jeor value before rounding (+5 for a man, −161 for a woman), against which `CalculateBmr`'s contract is stated |
| `Calculators.CalculateBmr` | app.py:32-40 | `None` exactly for an unsupported gender; otherwise within 0.5 of the Mifflin–St Jeor value |
| `Calculators.BmrGenderGap` | app.py:34-37 | for the same weight, height and age the male value exceeds the female value by exactly 166, before and after rounding |
| `Calculators.BmrMonotone` | app.py:35-37 | more weight or height, or fewer years, never lowers the rate, before or after rounding |
| `Calculators.CalculateTdee` | app.py:42-47 | `None` exactly when the BMR is `None`; otherwise within 0.5 of BMR times the level's factor |
| `Calculators.TdeeBounds` | app.py:44-46 | for a non-negative BMR the unrounded TDEE lies between 1.2 and 1.9 times the BMR; an unknown level gives the "sedentario" result |
| `Calculators.TdeeOfBmrDefined` | app.py:34-47 | feeding the BMR into the TDEE calculator yields a value exactly when the gender is supported |
| `Calculators.IdealWeightFloor` | app.py:52-55 | the floor is 50 kg exactly for a man and 45.5 kg for a woman |
| `Calculators.IdealWeightValue` | app.py:59-62 | from 152.4 cm up the unrounded formula is never below the floor, and equals it at exactly 152.4 cm |
| `Calculators.CalculateIdealWeight` | app.py:49-66 | `None` exactly for an unsupported gender; the floor below 152.4 cm; otherwise within 0.05 of floor + 0.91·(height − 152.4); never below the floor |
| `Calculators.IdealWeightContinuous` | app.py:51-62 | at exactly 152.4 cm the rounded formula returns the floor, so the two branches meet |
| `Calculators.IdealWeightMonotone` | app.py:51-66 | ideal weight never decreases with height, before and after rounding, across the 152.4 cm switch |
| `Calculators.Kcal` | app.py:73-75 | tdee · perc/100, the kcal share before conversion to grams, against which `CalculateMacros`'s contract is stated |
| `Calculators.KcalConservation` | app.py:73-75 | percentages adding up to 100 allocate exactly the whole TDEE |
| `Calculators.CalculateMacros` | app.py:68-86 | `None` exactly when the TDEE is missing or the percentages do not add up to 100; otherwise `total_kcal_verificacion` equals the TDEE and each gram figure is within 0.05 of its kcal share over 4, 4 or 9 |
| `Calculators.MacrosNonNegative` | app.py:77-79 | non-negative TDEE and percentages give non-negative grams |
| `Calculators.MacrosEnergyDrift` | app.py:77-85 | converting the rounded grams back to kcal misses `total_kcal_verificacion` by at most 0.85 kcal |
| `WorkedCases.BmiCases` | app.py:17-22 | 70 kg at 175 cm gives 22.86; a zero height gives `None` |
| `WorkedCases.InterpretCases` | app.py:24-30 | 18.4, 18.5, 24.9, 24.95 and 29.9 fall in Bajo peso, Peso normal, Sobrepeso, Sobrepeso and Obesidad; `None` gives "Datos inválidos" |
| `WorkedCases.BmrCases` | app.py:32-40 | 70 kg, 175 cm, 30 years give 1649 (male) and 1483 (female); "other" gives `None` |
| `WorkedCases.TdeeCases` | app.py:42-47 | 1674 kcal at "sedentario" and at an unknown level both give 2009 |
| `WorkedCases.IdealWeightCases` | app.py:49-66 | 150 cm (male) gives the floor 50; 180 cm (male) gives 75.1; an unsupported gender gives `None` |
| `WorkedCases.MacrosCases` | app.py:68-86 | 2000 kcal at 50/30/20 gives 250, 150 and 44.4 g with a 2000 kcal total; 50/30/19 gives `None` |

## Left out

- The Flask routes `index`, `calculadoras` and `calcular` (app.py:89-198): HTTP routing and template rendering, no calculation logic of their own.
- Form parsing with `float()`/`int()` and the `ValueError`/`Exception` handlers in `calcular`: input I/O; the model takes already-parsed numbers.
- The recipe search against the external recipe API (`requests.get`): a network call, outside the calculators.
- The hard-coded API credentials (app.py:6-7): configuration, not logic.
- IEEE-754 double arithmetic: every quantity is an exact real, so sums such as `carb + prot + fat == 100` and the identity `total_kcal_verificacion == tdee` hold exactly here, not bit for bit as in Python.
- Non-finite floats: `float()` accepts "nan" and "inf", which have no counterpart among the reals. With a NaN index every comparison at app.py:27-29 is false, so `interpret_bmi` returns "Obesidad"; `InterpretBmi` has no such input.
- Underflow: for a tiny non-zero height, `height_m ** 2` underflows to 0.0 and app.py:21 raises `ZeroDivisionError`, where `CalculateBmi` returns `Some` because a non-zero real has a non-zero square.
- `Rounding.Round` rounds the exact real value half-to-even; Python's `round` on a float rounds the binary double nearest to the decimal literal, so a decimal tie such as 2.675 may round differently there.
- Python returns the integer `50` (not a float) for a short man; the model returns the real 50.0.
