/**
 * The calculator form's submit handler: it turns a servings, pan-size or
 * custom request into one scaling factor and hands the selected recipe and
 * that factor to the store.
 */
module CalculatorForm {
  import opened JsBuiltins
  import opened RecipeContext

  datatype ScalingMethod = ByServings | ByPanSize | Custom

  datatype PanShape = Rectangle | Round

  /** The submitted form; every numeric field is optional. */
  datatype ScalingFormData = ScalingFormData(
    scalingMethod: ScalingMethod,
    servings: Option<real>,
    originalPanWidth: Option<real>,
    originalPanLength: Option<real>,
    originalPanDiameter: Option<real>,
    newPanWidth: Option<real>,
    newPanLength: Option<real>,
    newPanDiameter: Option<real>,
    customFactor: Option<real>,
    panShape: Option<PanShape>)

  predicate PositiveIfPresent(x: Option<real>) {
    x.Some? ==> x.value > 0.0
  }

  /** The form schema: each numeric field, when present, is positive. */
  predicate SchemaValid(data: ScalingFormData) {
    && PositiveIfPresent(data.servings)
    && PositiveIfPresent(data.originalPanWidth)
    && PositiveIfPresent(data.originalPanLength)
    && PositiveIfPresent(data.originalPanDiameter)
    && PositiveIfPresent(data.newPanWidth)
    && PositiveIfPresent(data.newPanLength)
    && PositiveIfPresent(data.newPanDiameter)
    && PositiveIfPresent(data.customFactor)
  }

  predicate RectangleGiven(data: ScalingFormData) {
    && data.panShape == Some(Rectangle)
    && Truthy(data.originalPanWidth) && Truthy(data.originalPanLength)
    && Truthy(data.newPanWidth) && Truthy(data.newPanLength)
  }

  predicate RoundGiven(data: ScalingFormData) {
    data.panShape == Some(Round) && Truthy(data.originalPanDiameter) && Truthy(data.newPanDiameter)
  }

  /** The servings method divides by the recipe's servings; the other methods never do. */
  predicate DividesByServings(recipe: Recipe, data: ScalingFormData) {
    data.scalingMethod == ByServings && Truthy(data.servings) ==> recipe.servings != 0
  }

  function Ratio(a: real, b: real): real
    requires b != 0.0
  {
    a / b
  }

  /**
   * The factor a request stands for: the ratio of servings, the ratio of pan
   * areas (the square of the diameter ratio for round pans), or the custom
   * factor; 1 whenever a field the method needs is missing.
   */
  function ResolvedFactor(recipe: Recipe, data: ScalingFormData): real
    requires DividesByServings(recipe, data)
  {
    match data.scalingMethod
    case ByServings =>
      if Truthy(data.servings) then Ratio(data.servings.value, recipe.servings as real) else 1.0
    case ByPanSize =>
      if RectangleGiven(data) then
        Ratio(data.newPanWidth.value * data.newPanLength.value, data.originalPanWidth.value * data.originalPanLength.value)
      else if RoundGiven(data) then
        Square(Ratio(data.newPanDiameter.value, data.originalPanDiameter.value))
      else 1.0
    case Custom =>
      if Truthy(data.customFactor) then data.customFactor.value else 1.0
  }

  /** The area of a round pan as the form computes it. */
  function CircleArea(m: MathLib, diameter: real): real {
    PI * m.pow(diameter / 2.0, 2.0)
  }

  lemma SquareOfProduct(q: real, r: real)
    ensures Square(q * r) == Square(q) * Square(r)
  {
  }

  lemma ScaledAreaRatio(area: real, k: real, scaled: real)
    requires area != 0.0 && scaled == k * area
    ensures scaled / area == k
  {
  }

  lemma CircleAreaIsSquare(m: MathLib, d: real)
    requires Lawful(m)
    ensures CircleArea(m, d) == PI * Square(d / 2.0)
  {
    assert m.pow(d / 2.0, 2.0) == (d / 2.0) * (d / 2.0);
  }

  lemma DiscAreaRatio(d1: real, d2: real)
    requires d1 != 0.0
    ensures PI * Square(d1 / 2.0) != 0.0
    ensures (PI * Square(d2 / 2.0)) / (PI * Square(d1 / 2.0)) == Square(d2 / d1)
  {
    var r1 := d1 / 2.0;
    var q := d2 / d1;
    assert d2 / 2.0 == q * r1;
    SquareOfProduct(q, r1);
    SquarePositive(r1);
    var a1 := PI * Square(r1);
    assert a1 > 0.0;
    assert PI * (Square(q) * Square(r1)) == Square(q) * a1;
    ScaledAreaRatio(a1, Square(q), PI * Square(q * r1));
  }

  /** The ratio of two circle areas is the square of the ratio of their diameters. */
  lemma CircleAreaRatio(m: MathLib, d1: real, d2: real)
    requires Lawful(m) && d1 != 0.0
    ensures CircleArea(m, d1) != 0.0
    ensures CircleArea(m, d2) / CircleArea(m, d1) == Square(d2 / d1)
  {
    CircleAreaIsSquare(m, d1);
    CircleAreaIsSquare(m, d2);
    DiscAreaRatio(d1, d2);
  }

  /** `onSubmit`'s factor computation: start from 1 and overwrite it per method. */
  method ResolveScalingFactor(m: MathLib, recipe: Recipe, data: ScalingFormData) returns (scalingFactor: real)
    requires Lawful(m) && DividesByServings(recipe, data)
    ensures scalingFactor == ResolvedFactor(recipe, data)
  {
    scalingFactor := 1.0;
    match data.scalingMethod {
      case ByServings =>
        if Truthy(data.servings) {
          scalingFactor := data.servings.value / recipe.servings as real;
        }
      case ByPanSize =>
        if RectangleGiven(data) {
          var originalArea := data.originalPanWidth.value * data.originalPanLength.value;
          var newArea := data.newPanWidth.value * data.newPanLength.value;
          scalingFactor := newArea / originalArea;
        } else if RoundGiven(data) {
          var originalArea := CircleArea(m, data.originalPanDiameter.value);
          var newArea := CircleArea(m, data.newPanDiameter.value);
          CircleAreaRatio(m, data.originalPanDiameter.value, data.newPanDiameter.value);
          scalingFactor := newArea / originalArea;
        }
      case Custom =>
        if Truthy(data.customFactor) {
          scalingFactor := data.customFactor.value;
        }
    }
  }

  /** With the schema's positivity constraints and a positive recipe size, the factor is positive. */
  lemma ResolvedFactorPositive(recipe: Recipe, data: ScalingFormData)
    requires recipe.servings > 0 && SchemaValid(data)
    ensures ResolvedFactor(recipe, data) > 0.0
  {
    match data.scalingMethod
    case ByServings =>
    case ByPanSize =>
      if RectangleGiven(data) {
        assert data.originalPanWidth.value * data.originalPanLength.value > 0.0;
        assert data.newPanWidth.value * data.newPanLength.value > 0.0;
      } else if RoundGiven(data) {
        assert Ratio(data.newPanDiameter.value, data.originalPanDiameter.value) > 0.0;
      }
    case Custom =>
  }

  /** The fields each method needs, and the silent default of 1 when they are missing. */
  lemma ResolvedFactorDefaults(recipe: Recipe, data: ScalingFormData)
    requires DividesByServings(recipe, data)
    ensures data.scalingMethod == ByServings && !Truthy(data.servings) ==> ResolvedFactor(recipe, data) == 1.0
    ensures data.scalingMethod == ByPanSize && !RectangleGiven(data) && !RoundGiven(data) ==> ResolvedFactor(recipe, data) == 1.0
    ensures data.scalingMethod == ByPanSize && data.panShape.None? ==> ResolvedFactor(recipe, data) == 1.0
    ensures data.scalingMethod == Custom && !Truthy(data.customFactor) ==> ResolvedFactor(recipe, data) == 1.0
    ensures data.scalingMethod == Custom && Truthy(data.customFactor) ==> ResolvedFactor(recipe, data) == data.customFactor.value
  {
  }

  /** Asking for `n` servings of a recipe for `s` gives a scaled recipe for exactly `n`. */
  lemma ServingsRequestGivesServings(m: MathLib, recipe: Recipe, data: ScalingFormData, n: int)
    requires recipe.servings > 0 && n > 0
    requires data.scalingMethod == ByServings && data.servings == Some(n as real)
    ensures ScaledRecipeOf(m, recipe, ResolvedFactor(recipe, data)).recipe.servings == n
  {
    var s := recipe.servings as real;
    assert s * (n as real / s) == n as real;
    RoundOfInt(n);
  }

  /** A 20 x 20 pan swapped for a 30 x 20 pan scales by 1.5. */
  lemma RectanglePanExample(recipe: Recipe, data: ScalingFormData)
    requires data.scalingMethod == ByPanSize && data.panShape == Some(Rectangle)
    requires data.originalPanWidth == Some(20.0) && data.originalPanLength == Some(20.0)
    requires data.newPanWidth == Some(30.0) && data.newPanLength == Some(20.0)
    ensures ResolvedFactor(recipe, data) == 1.5
  {
  }

  /** A 20 cm round tin swapped for a 25 cm tin scales by 1.5625. */
  lemma RoundPanExample(recipe: Recipe, data: ScalingFormData)
    requires data.scalingMethod == ByPanSize && data.panShape == Some(Round)
    requires data.originalPanDiameter == Some(20.0) && data.newPanDiameter == Some(25.0)
    ensures ResolvedFactor(recipe, data) == 1.5625
  {
  }

  /** `onSubmit`: resolve the factor, then scale the selected recipe once with it. */
  method Submit(m: MathLib, store: RecipeStore, data: ScalingFormData)
    requires Lawful(m)
    requires store.selectedRecipe.Some? && DividesByServings(store.selectedRecipe.value, data)
    modifies store`scaledRecipe, store`recentCalculations
    ensures store.scaledRecipe == Some(ScaledRecipeOf(m, store.selectedRecipe.value, ResolvedFactor(store.selectedRecipe.value, data)))
    ensures store.recentCalculations == UpdateRecent(old(store.recentCalculations), store.scaledRecipe.value)
    ensures old(store.Valid()) ==> store.Valid()
  {
    var factor := ResolveScalingFactor(m, store.selectedRecipe.value, data);
    store.ScaleRecipe(m, store.selectedRecipe, factor);
  }
}
