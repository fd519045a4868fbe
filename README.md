# Pastry calculator: a Dafny model of the scaling and conversion engine

This project models the logic of the pastry-calculator web application and
proves properties of that model. The application scales baking recipes and
converts between kitchen units.

- **Unit conversion and estimation helpers** (`Conversions`):
  - the unit-multiplier table and the ingredient-density table;
  - `convertUnit`, covering same-system conversion, the two-phase density lookup and every error it throws;
  - `optimizeUnit`, `formatQuantity` and `formatUnit`;
  - the bucketed `estimateCookingTime`;
  - the dead-band `adjustTemperature`.
- **The recipe provider** (`RecipeContext`):
  - the `Ingredient`, `Recipe` and `ScaledRecipe` records;
  - `calculateScaledQuantity`, which applies the optional exponent, then the minimum clamp, then two-decimal rounding;
  - the provider's own square-root cooking-time estimate;
  - the scaled-recipe record;
  - the recent-calculations update, which is newest first, de-duplicated by id and capped at five;
  - the preference merge.

  The provider's state cells are the fields of the class `RecipeStore`. Its methods replace those fields the way the provider's setters do.
- **The calculator form's submit handler** (`CalculatorForm`):
  - it resolves a servings, rectangular-pan, round-pan or custom request into one factor, falling back to 1 when inputs are missing;
  - it then calls `scaleRecipe` once.

  The method `ResolveScalingFactor` keeps the handler's shape: `let scalingFactor = 1`, overwritten inside a `switch`. It is proved equal to the reference function `ResolvedFactor`.
- **The recipe list** (`RecipeList`):
  - the sorted, duplicate-free category list;
  - the search and category filter;
  - the category toggle;
  - recipe selection.

  The component's `searchTerm` and `activeCategory` state is the class `RecipeBrowser`.
- **`formatTime`** (`TimeFormat`): the recipe list and the results panel each contain the same copy of this function. It is modelled once, together with a reader `ParseTime`. `FormatTime`'s contract uses the reader to show that the text loses no information.

`JsBuiltins` and `JsText` model the JavaScript built-ins the engine relies on:

- optional properties and truthiness;
- `Math.round`, which is `Floor(x + 0.5)`, so halves go towards +infinity;
- the `%` operator, whose result takes the sign of the dividend;
- `Math.PI`;
- ASCII `toLowerCase`;
- `includes`, with a proof that it holds exactly when the needle occurs at some position;
- the decimal text of an integer.

`Math.pow`, `Math.sqrt` and `Math.log2` have no algebraic definition here.
- The model takes them as a record `MathLib` of functions.
- The predicate `Lawful` states the only facts about them the proofs use, and every one of these facts holds for the real functions:
  - `pow(1, p) = 1` and `pow(x, 1) = x`;
  - `pow(x, p) > 0` for `x > 0`;
  - `pow` is monotone in its base for a positive exponent;
  - `pow(x, 2) = x * x`, and `pow(x * x, 0.5) = x` for `x >= 0`;
  - `sqrt(x) = pow(x, 0.5)` for `x >= 0`;
  - `log2(x) > 0` for `x > 1`.

Some behaviour of the code that is easy to miss:
- **Cooking time.** `scaleRecipe` computes the cooking time with the provider's local `originalTime * Math.sqrt(factor)` (`RecipeContext.tsx:166-170`), not with the bucketed `estimateCookingTime` of `conversions.ts`. Both are modelled, separately.
- **Factor resolution.** A missing input leaves the factor at 1; nothing is rejected (`CalculatorForm.tsx:67-98`).
- **Density lookup.** An exact, case-sensitive key match comes first (`conversions.ts:78`). Only then are lowercased strings compared for a substring match (`conversions.ts:82-84`).
- **Rounding.** `Math.round` rounds halves towards +infinity.
- **Whole hours.** `formatTime` of a whole number of hours ends with a space and has no minute part (`"2 hr "`).

## Model

| member | source | states |
|---|---|---|
| Conversions.ParseUnit | src/lib/utils/conversions.ts:4-19 | a string that parses as a unit is that unit's key |
| Conversions.ParseUnitName | src/lib/utils/conversions.ts:4-19 | every unit's key parses back to that unit, so distinct units have distinct keys |
| Conversions.Factor | src/lib/utils/conversions.ts:4-19 | every unit's multiplier to its base unit is positive |
| Conversions.DensitiesPositive | src/lib/utils/conversions.ts:22-38 | every density in the table is positive |
| Conversions.FindExactKey | src/lib/utils/conversions.ts:78-79 | the exact search over the density table returns, if anything, a position inside the table |
| Conversions.FindPartialKey | src/lib/utils/conversions.ts:82-88 | the substring search over the density table returns, if anything, a position inside the table |
| Conversions.FindExactKeySpec | src/lib/utils/conversions.ts:78-79 | the exact search returns the first entry whose key equals the name, and returns nothing exactly when no key equals it |
| Conversions.FindExactKeyAt | src/lib/utils/conversions.ts:78-79 | an entry whose key is the name, with no earlier such entry, is what the exact search returns |
| Conversions.FindPartialKeySpec | src/lib/utils/conversions.ts:82-88 | the `find` returns the first key, in table order, that occurs in the lowercased name, and returns nothing exactly when no key occurs |
| Conversions.FindPartialKeyAt | src/lib/utils/conversions.ts:82-88 | the first entry whose key occurs in the lowercased name is what the `find` returns |
| Conversions.LookupDensity | src/lib/utils/conversions.ts:75-91 | any density found is positive |
| Conversions.LookupDensitySpec | src/lib/utils/conversions.ts:75-91 | an exact key wins; otherwise the first key in table order contained in the lowercased name gives the density; there is no density exactly when no key is equal or contained |
| Conversions.MilkDensity | src/lib/utils/conversions.ts:78-79 | "milk" is an exact key, with density 1.03 |
| Conversions.LightBrownSugarExample | src/lib/utils/conversions.ts:82-87 | "light brown sugar" has no exact key and resolves to "sugar" (0.85), the first contained key, not to "brown sugar" |
| Conversions.ConvertUnit | src/lib/utils/conversions.ts:41-106 | equal unit strings return the quantity, even when they are not units; otherwise an unknown unit on either side is `CannotConvert`; "name required" happens only for units not within one measurement system (including `pinch` and `piece`) and without a non-empty name; "no density" happens only for a name with no density |
| Conversions.ConvertUnitOfNames | src/lib/utils/conversions.ts:48-55 | between two different units' keys, the identity and validity checks pass |
| Conversions.SameSystemConversion | src/lib/utils/conversions.ts:58-67 | inside one measurement system the result is the quantity times the source multiplier divided by the target multiplier, whatever the ingredient name |
| Conversions.SameSystemRoundTrip | src/lib/utils/conversions.ts:58-67 | converting inside one system and back returns the quantity exactly |
| Conversions.TeaspoonsToTablespoon | src/lib/utils/conversions.ts:12-13 | 3 tsp converts to 1 tbsp |
| Conversions.CupToTablespoons | src/lib/utils/conversions.ts:13-14 | 1 cup converts to 16 tbsp |
| Conversions.GramsKilogramsRoundTrip | src/lib/utils/conversions.ts:58-67 | 250 g to kg and back is 250 g |
| Conversions.CrossSystemNeedsName | src/lib/utils/conversions.ts:69-72 | a weight/volume conversion with an absent or empty name is the "ingredient name required" error |
| Conversions.KnownUnitsWithDensity | src/lib/utils/conversions.ts:74-91 | across systems, a named ingredient with a density reaches the density step with that density |
| Conversions.WeightToVolumeConversion | src/lib/utils/conversions.ts:94-97 | `convertUnit` from a weight unit to a volume unit gives grams divided by the density, in the target unit |
| Conversions.VolumeToWeightConversion | src/lib/utils/conversions.ts:98-101 | `convertUnit` from a volume unit to a weight unit gives millilitres times the density, in the target unit |
| Conversions.CrossSystemRoundTrip | src/lib/utils/conversions.ts:94-101 | weight to volume and back (or volume to weight and back) for the same ingredient returns the quantity exactly |
| Conversions.UnknownDensityFails | src/lib/utils/conversions.ts:86-90 | across systems, a name with neither an exact nor a partial key is the "no density" error naming that ingredient |
| Conversions.PseudoUnitsNeverConvert | src/lib/utils/conversions.ts:58-105 | `pinch` and `piece` never convert to a different unit: every such call is an error |
| Conversions.MilkExample | src/lib/utils/conversions.ts:94-97 | 100 g of milk is 100 / 1.03 ml |
| Conversions.BogusUnitExample | src/lib/utils/conversions.ts:48-72 | g to tsp without a name needs a name; g to an unknown unit cannot convert |
| Conversions.OptimizeUnit | src/lib/utils/conversions.ts:109-133 | the measure changes exactly for g >= 1000 (to kg), kg < 1 (to g), ml >= 1000 (to l) and l < 1 (to ml); it stays a weight unit or a volume unit exactly when it was one |
| Conversions.OptimizeUnitSameAmount | src/lib/utils/conversions.ts:109-133 | converting the optimised measure back to the original unit gives the original quantity: the amount is unchanged |
| Conversions.OptimizeUnitIdempotent | src/lib/utils/conversions.ts:109-133 | optimising an optimised measure changes nothing |
| Conversions.ToFixed1 | src/lib/utils/conversions.ts:154 | `toFixed(1)` is within 0.05 of the number |
| Conversions.FormatQuantity | src/lib/utils/conversions.ts:136-155 | an integer renders as itself; exactly 0.25, 0.5 and 0.75 render as ¼, ½ and ¾; a value equal to 0.33, 0.67, 0.2, 0.4, 0.6 or 0.8, or within 0.01 of 1/3, 2/3, 1/5, 2/5, 3/5 or 4/5, renders as that fraction's glyph; a glyph appears exactly in those cases; any other value renders as its one-decimal rounding, without a trailing ".0"; the text is always within 0.05 of the quantity |
| Conversions.FormatQuantityExamples | src/lib/utils/conversions.ts:136-155 | 2, 0.5, 0.335, 0.795, 1.25 and 2.96 render as "2", ½, ⅓, ⅘, "1.3" and "3" |
| Conversions.FormatUnit | src/lib/utils/conversions.ts:158-178 | a quantity of 1 (the default) keeps the unit; the text changes exactly for piece, pinch and cup with a quantity other than 1, and then it is the plural |
| Conversions.CookingTimeExponent | src/lib/utils/conversions.ts:187-196 | the exponent is 0.25 up to 20 minutes, 0.33 up to 45 and 0.5 above, boundaries inclusive |
| Conversions.EstimateCookingTime | src/lib/utils/conversions.ts:181-197 | the estimate is the original time times the factor raised to the original time's bucket exponent |
| Conversions.EstimateCookingTimeIdentity | src/lib/utils/conversions.ts:181-197 | a factor of 1 returns the original time |
| Conversions.EstimateCookingTimeMonotone | src/lib/utils/conversions.ts:181-197 | for a fixed original time a larger factor never gives a shorter estimate |
| Conversions.EstimateCookingTimeLargeExample | src/lib/utils/conversions.ts:193-196 | 50 minutes at factor 4 becomes 100 minutes |
| Conversions.AdjustTemperature | src/lib/utils/conversions.ts:200-227 | for ratios from 0.67 to 1.5 inclusive the temperature is unchanged; above 1.5 it rises by round(5 in Celsius, 10 in Fahrenheit, times log2 of the ratio); below 0.67 it falls by the same step for the inverse ratio |
| Conversions.AdjustTemperatureLargerPan | src/lib/utils/conversions.ts:208-214 | above 1.5 the temperature never falls |
| Conversions.AdjustTemperatureSmallerPan | src/lib/utils/conversions.ts:215-222 | below 0.67 the temperature never rises |
| Conversions.AdjustTemperatureExample | src/lib/utils/conversions.ts:200-227 | ratio 1.5625 in Celsius adds 3 degrees; ratio 1.2 changes nothing |
| JsBuiltins.Round | src/lib/context/RecipeContext.tsx:109 | `Math.round` is the integer within half of the number, halves going up |
| JsBuiltins.JsRemainder | src/components/calculator/ResultsDisplay.tsx:23 | `%` by a positive divisor differs from the dividend by a multiple of the divisor; it agrees with the mathematical remainder for a non-negative dividend and lies in (-divisor, 0] for a negative one, so it is the truncating remainder |
| JsText.Lower | src/components/recipe/RecipeList.tsx:26 | `toLowerCase` keeps the length and maps each character on its own |
| JsText.Contains | src/components/recipe/RecipeList.tsx:26 | the empty text is contained in every text, and no text longer than the haystack is contained in it |
| JsText.ContainsIff | src/components/recipe/RecipeList.tsx:26 | `includes` holds exactly when the needle occurs at some position of the text |
| JsText.NatToString | src/components/calculator/ResultsDisplay.tsx:26 | the text of a number is a non-empty run of digits with no leading zero |
| JsText.NatToStringRoundTrip | src/components/calculator/ResultsDisplay.tsx:26 | reading the digits of a number back gives the number |
| RecipeContext.RoundTo2 | src/lib/context/RecipeContext.tsx:162 | the result is a whole number of hundredths within 0.005 of the input |
| RecipeContext.RoundTo2Monotone | src/lib/context/RecipeContext.tsx:162 | rounding to two decimals preserves order |
| RecipeContext.EffectiveFactor | src/lib/context/RecipeContext.tsx:150-152 | without a truthy exponent the factor is used as it is, and with one the factor is raised to that exponent; a factor of 1 stays 1 and a positive factor stays positive |
| RecipeContext.ClampToMinimum | src/lib/context/RecipeContext.tsx:157-159 | the result is never below the scaled value, never below a truthy minimum, and is either the scaled value or a truthy minimum |
| RecipeContext.CalculateScaledQuantity | src/lib/context/RecipeContext.tsx:148-163 | the quantity is a whole number of hundredths, never below a truthy minimum rounded to two decimals (the clamp comes before the rounding), and within 0.005 of the clamped product of the quantity and the factor (raised to the exponent when it is truthy) |
| RecipeContext.ScaledQuantityAtFactorOne | src/lib/context/RecipeContext.tsx:148-163 | at factor 1 the quantity is only rounded to two decimals, when it already meets its minimum |
| RecipeContext.ScaledQuantityMonotone | src/lib/context/RecipeContext.tsx:148-163 | for a non-negative quantity and a positive or absent exponent, a larger factor never gives a smaller quantity |
| RecipeContext.EggWashExample | src/lib/data/sampleRecipes.ts:166-172 | the one-piece egg wash with minimum 1 stays 1 at factor 0.1 |
| RecipeContext.VanillaExample | src/lib/data/sampleRecipes.ts:40-46 | the teaspoon of vanilla with exponent 0.7 stays 1 at factor 1 and is at least 1 at factor 2 |
| RecipeContext.SqrtCookTime | src/lib/context/RecipeContext.tsx:166-170 | the provider's cooking-time estimate keeps the time at factor 1 and multiplies it by k at factor k squared |
| RecipeContext.ScaledRecipeOf | src/lib/context/RecipeContext.tsx:106-119 | the scaled record has: the original servings and the factor; servings within half of servings times factor; prep time unchanged; cook time the rounded square-root estimate; total time prep plus the new cook time; the same number of ingredients, each with only its quantity replaced by the scaled quantity; every other field copied |
| RecipeContext.ScaleByOne | src/lib/context/RecipeContext.tsx:106-119 | at factor 1 servings and cook time are kept, total time is prep plus cook, and each quantity that meets its minimum is only rounded |
| RecipeContext.WithoutId | src/lib/context/RecipeContext.tsx:125 | the filter keeps exactly the entries with another id, in their order; it keeps a list id-distinct; it changes nothing when no entry has the id |
| RecipeContext.WithoutIdCounts | src/lib/context/RecipeContext.tsx:125 | each entry with another id occurs in the result as often as in the input; entries with the id do not occur at all |
| RecipeContext.UpdateRecent | src/lib/context/RecipeContext.tsx:124-125 | the new list starts with the new result and has one more entry than the previous entries with another id, capped at five |
| RecipeContext.UpdateRecentTail | src/lib/context/RecipeContext.tsx:125 | after the head come the previous entries with another id, in their order, cut to the limit |
| RecipeContext.UpdateRecentKeepsOrder | src/lib/context/RecipeContext.tsx:125 | the entries after the head are a subsequence of the previous list |
| RecipeContext.UpdateRecentUniqueHead | src/lib/context/RecipeContext.tsx:125 | no entry after the head has the head's id |
| RecipeContext.UpdateRecentKeepsAll | src/lib/context/RecipeContext.tsx:125 | while there is room, every previous entry with another id is kept |
| RecipeContext.UpdateRecentDistinct | src/lib/context/RecipeContext.tsx:124-125 | an id-distinct list stays id-distinct |
| RecipeContext.UpdateRecentTwice | src/lib/context/RecipeContext.tsx:124-125 | scaling the same recipe twice leaves only the latest result for its id |
| RecipeContext.MergePreferences | src/lib/context/RecipeContext.tsx:81 | a key present in the patch takes the patch's value; an absent key keeps the previous value |
| RecipeContext.MergeEmptyPatch | src/lib/context/RecipeContext.tsx:81 | an empty patch changes nothing |
| RecipeContext.MergeIdempotent | src/lib/context/RecipeContext.tsx:81 | applying the same patch twice is applying it once |
| RecipeContext.MergeSequence | src/lib/context/RecipeContext.tsx:81 | two patches in a row equal their combination, where the later keys win |
| RecipeContext.MergeFullPatch | src/lib/context/RecipeContext.tsx:81 | a patch with every key replaces the preferences |
| RecipeContext.RecipeStore.constructor | src/lib/context/RecipeContext.tsx:70-78 | the initial state: the given recipes, no selection, factor 1, no scaled recipe, an empty recent list and the default preferences |
| RecipeContext.RecipeStore.SetSelectedRecipe | src/lib/context/RecipeContext.tsx:71 | the selected recipe is replaced, nothing else changes, and the invariant is kept |
| RecipeContext.RecipeStore.SetScalingFactor | src/lib/context/RecipeContext.tsx:72 | the factor is replaced, nothing else changes, and the invariant is kept |
| RecipeContext.RecipeStore.ScaleRecipe | src/lib/context/RecipeContext.tsx:103-132 | an absent recipe changes nothing; otherwise the scaled recipe becomes the new record and the recent list its update; only those two fields change; the invariant (at most five entries, distinct ids) is kept |
| RecipeContext.RecipeStore.UpdateUserPreferences | src/lib/context/RecipeContext.tsx:80-81 | the preferences become the merge of the previous ones with the patch, nothing else changes, and the invariant is kept |
| CalculatorForm.CircleAreaRatio | src/components/calculator/CalculatorForm.tsx:89-91 | the ratio of the two round-pan areas is the square of the ratio of the diameters |
| CalculatorForm.ResolveScalingFactor | src/components/calculator/CalculatorForm.tsx:66-99 | the factor the handler computes equals the reference factor: the servings ratio, the rectangle area ratio, the squared diameter ratio or the custom factor, and 1 when a needed field is missing |
| CalculatorForm.ResolvedFactorPositive | src/components/calculator/CalculatorForm.tsx:18-29 | with the schema's positivity constraints and a positive recipe size, the factor is positive |
| CalculatorForm.ResolvedFactorDefaults | src/components/calculator/CalculatorForm.tsx:67-98 | a missing servings count, missing pan fields, no pan shape or a missing custom factor leave the factor at 1; a custom factor is used as it is |
| CalculatorForm.ServingsRequestGivesServings | src/components/calculator/CalculatorForm.tsx:70-73 | asking for n servings gives a scaled recipe for exactly n servings |
| CalculatorForm.RectanglePanExample | src/components/calculator/CalculatorForm.tsx:76-84 | a 20 x 20 pan replaced by a 30 x 20 pan gives 1.5 |
| CalculatorForm.RoundPanExample | src/components/calculator/CalculatorForm.tsx:85-91 | a 20 cm round pan replaced by a 25 cm one gives 1.5625 |
| CalculatorForm.Submit | src/components/calculator/CalculatorForm.tsx:66-102 | the selected recipe is scaled once, with the resolved factor; the store's scaled recipe and recent list are set as `scaleRecipe` sets them; the invariant is kept |
| RecipeList.CategoriesOf | src/components/recipe/RecipeList.tsx:20 | a category is listed exactly when some recipe has it |
| RecipeList.AllCategories | src/components/recipe/RecipeList.tsx:19-21 | the list is strictly sorted (sorted and duplicate-free), and holds exactly the categories of the recipes |
| RecipeList.AllCategoriesUnique | src/components/recipe/RecipeList.tsx:19-21 | any strictly sorted list of exactly those categories is that list |
| RecipeList.MatchesSearch | src/components/recipe/RecipeList.tsx:25-27 | a recipe matches the search exactly when the term is empty or the lowercased term occurs somewhere in the lowercased name or description |
| RecipeList.MatchesCategory | src/components/recipe/RecipeList.tsx:29-30 | with no active category every recipe matches; otherwise a recipe matches exactly when one of its categories is the active one |
| RecipeList.Filtered | src/components/recipe/RecipeList.tsx:24-33 | the shown recipes are exactly the matching ones, in their original order, each as often as in the input; when every recipe matches, all are shown |
| RecipeList.NoFilterShowsAll | src/components/recipe/RecipeList.tsx:24-33 | an empty search with no active category shows every recipe |
| RecipeList.SearchIgnoresCase | src/components/recipe/RecipeList.tsx:25-27 | lowering the search term does not change which recipes match |
| RecipeList.NarrowingSearch | src/components/recipe/RecipeList.tsx:25-27 | a recipe matching a longer term also matches every non-empty prefix of it |
| RecipeList.ToggleCategory | src/components/recipe/RecipeList.tsx:35-37 | clicking the active category clears it; clicking any other category makes it active |
| RecipeList.ToggleTwice | src/components/recipe/RecipeList.tsx:35-37 | two clicks on the same category from no selection come back to no selection |
| RecipeList.ToggleFilters | src/components/recipe/RecipeList.tsx:29-37 | after a click, clearing shows everything, and otherwise only recipes in the clicked category are shown |
| RecipeList.RecipeBrowser.constructor | src/components/recipe/RecipeList.tsx:15-16 | the search starts empty, no category is active, and every recipe is shown |
| RecipeList.RecipeBrowser.SetSearchTerm | src/components/recipe/RecipeList.tsx:15 | the search term is replaced and nothing else changes |
| RecipeList.RecipeBrowser.HandleCategoryClick | src/components/recipe/RecipeList.tsx:35-37 | the active category becomes the toggle of the previous one, and nothing else changes |
| RecipeList.RecipeBrowser.HandleRecipeSelect | src/components/recipe/RecipeList.tsx:50-51 | the chosen recipe becomes the store's selected recipe, and nothing else changes |
| TimeFormat.FormatTime | src/components/calculator/ResultsDisplay.tsx:21-30 | for any non-negative number of minutes the text reads back as that number |
| TimeFormat.FormatTimeUnderAnHour | src/components/calculator/ResultsDisplay.tsx:28-29 | from -59 to 59 minutes the text is the minutes followed by " min" |
| TimeFormat.FormatTimeHoursAndMinutes | src/components/calculator/ResultsDisplay.tsx:22-26 | from an hour up with minutes left over, the text is "H hr M min" with H the hours and M the remainder; hours times 60 plus minutes is the input, and 0 < M < 60 |
| TimeFormat.FormatTimeWholeHours | src/components/calculator/ResultsDisplay.tsx:25-26 | a whole number of hours is "H hr ", with a trailing space and no minute part |
| TimeFormat.FormatTimeNegativeCollisions | src/components/calculator/ResultsDisplay.tsx:22-29 | for negative minutes the hours are dropped: -90 and -30 give the same text, and so do -60 and 0 |
| TimeFormat.FormatTimeInjective | src/components/recipe/RecipeList.tsx:39-48 | different non-negative numbers of minutes never produce the same text |

## Left out

- Persistence is not modelled: the `localStorage` reads and writes and the `JSON.parse` of saved state. A recent list loaded from storage may therefore break `RecipeStore.Valid`. `ScaleRecipe` only promises to keep the invariant when it held before.
- The saved preferences are built from the render-time `userPreferences`, not from the previous state. This affects only what is written to storage, which is not modelled.
- An explicit `undefined` value in a preferences patch is not modelled. The model's patch has only present or absent keys.
- Browser and library calls are not modelled:
  - PDF generation;
  - `navigator.share`, `mailto:` and `window.open`;
  - the `document.querySelector` tab click in `handleRecipeSelect`.
- JSX rendering, the form library's wiring, the form's default values and the `toFixed(2)` display of the factor are not modelled. Only the schema's positivity constraints are modelled, as the predicate `SchemaValid`.
- `Math.pow`, `Math.sqrt` and `Math.log2` are a `MathLib` parameter constrained by `Lawful`. They are not computed.
- Floating point is not modelled: numbers are mathematical reals.
  - There is no IEEE rounding, no NaN and no infinity.
  - `AdjustTemperature` requires a positive ratio. The source produces -Infinity for a ratio of 0 (`log2(1/0)` is Infinity) and NaN for a negative ratio.
  - `ResolvedFactor`, `ResolveScalingFactor` and `Submit` require a non-zero recipe servings count when the servings method is used with a servings value. The source would divide by zero and produce Infinity or -Infinity.
  - The constant `0.33` in `formatQuantity` and the constant `1/3` are compared as exact reals.
- `Conversions.FormatQuantity`: the result is a datatype, not digits. It is a whole number, a glyph or a count of tenths. The `toString`/`toFixed` digit generation and the "-0" text for small negative values are not modelled.
- `Conversions.ToFixed1`: rounds to the nearest tenth with ties away from zero. JavaScript rounds the binary double, so some decimal ties round the other way.
- `JsText.Lower` maps only the ASCII letters. `toLowerCase` also lowercases the rest of Unicode.
- `RecipeList.AllCategories`: the model sorts by character code. JavaScript's `sort()` compares UTF-16 code units, which orders characters beyond the Basic Multilingual Plane differently.
- `Conversions.ConvertUnit`: the unit check (`conversions.ts:53`) and the exact density lookup (`conversions.ts:78`) treat their tables as lists of keys. JavaScript's `in` also finds inherited properties such as "toString". In the source such a unit name passes the unit check, so without an ingredient name the error is "ingredient name required" rather than "cannot convert". As an ingredient name such a property skips the substring search and yields a density that is not a number. That quirk is not modelled: the model reports any name outside the unit table as `CannotConvert` and looks densities up among the table's own keys only.
- Recipe times are integers in the model. The source's `number` could hold a fraction.
- `TimeFormat.FormatTime`: the read-back is stated for non-negative minutes only. For negative minutes the source drops the hours, so no reader can recover the input: -90 and -30 both give "-30 min", and -60 gives "0 min", the same as 0 (`FormatTimeNegativeCollisions`).
