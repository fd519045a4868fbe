/**
 * The recipe scaler and the provider state that remembers its results: the
 * recipe records, the per-ingredient scaling rule, the scaled-recipe record,
 * the list of recent calculations and the user preferences.
 */
module RecipeContext {
  import opened JsBuiltins
  import Conversions

  datatype Ingredient = Ingredient(
    id: string,
    name: string,
    quantity: real,
    unit: Conversions.Unit,
    notes: Option<string>,
    /** Exponent for ingredients that do not scale linearly. */
    scalingFactor: Option<real>,
    /** Smallest quantity that still works in the recipe. */
    minimumQuantity: Option<real>)

  datatype Difficulty = Easy | Medium | Hard

  datatype Recipe = Recipe(
    id: string,
    name: string,
    description: string,
    servings: int,
    prepTime: int,
    cookTime: int,
    totalTime: int,
    difficulty: Difficulty,
    equipment: seq<string>,
    ingredients: seq<Ingredient>,
    instructions: seq<string>,
    notes: seq<string>,
    categories: seq<string>,
    imageUrl: Option<string>)

  /** A recipe with scaled fields, plus where it came from. */
  datatype ScaledRecipe = ScaledRecipe(recipe: Recipe, originalServings: int, scalingFactor: real)

  // ---------------------------------------------------------------------
  // Scaling one ingredient

  /** `Math.round(x * 100) / 100`. */
  function RoundTo2(x: real): (r: real)
    ensures -0.005 < r - x <= 0.005
    ensures (r * 100.0).Floor as real == r * 100.0
  {
    Round(x * 100.0) as real / 100.0
  }

  lemma RoundTo2Monotone(x: real, y: real)
    requires x <= y
    ensures RoundTo2(x) <= RoundTo2(y)
  {
    RoundMonotone(x * 100.0, y * 100.0);
  }

  /** The factor after the ingredient's own exponent, applied only when that exponent is truthy. */
  function EffectiveFactor(m: MathLib, ing: Ingredient, factor: real): (f: real)
    ensures !Truthy(ing.scalingFactor) ==> f == factor
    ensures Truthy(ing.scalingFactor) ==> f == m.pow(factor, ing.scalingFactor.value)
    ensures Lawful(m) && factor == 1.0 ==> f == 1.0
    ensures Lawful(m) && factor > 0.0 ==> f > 0.0
  {
    if Truthy(ing.scalingFactor) then m.pow(factor, ing.scalingFactor.value) else factor
  }

  /** Raise a quantity to the ingredient's minimum when that minimum is truthy and not reached. */
  function ClampToMinimum(ing: Ingredient, scaled: real): (r: real)
    ensures r >= scaled
    ensures Truthy(ing.minimumQuantity) ==> r >= ing.minimumQuantity.value
    ensures r == scaled || (Truthy(ing.minimumQuantity) && r == ing.minimumQuantity.value)
  {
    if Truthy(ing.minimumQuantity) && scaled < ing.minimumQuantity.value then ing.minimumQuantity.value else scaled
  }

  function Linear(quantity: real, factor: real): real {
    quantity * factor
  }

  /** `calculateScaledQuantity`. */
  function CalculateScaledQuantity(m: MathLib, ing: Ingredient, factor: real): (q: real)
    ensures ((q * 100.0).Floor as real == q * 100.0)
    ensures Truthy(ing.minimumQuantity) ==> q >= RoundTo2(ing.minimumQuantity.value)
    ensures -0.005 < q - ClampToMinimum(ing, Linear(ing.quantity, EffectiveFactor(m, ing, factor))) <= 0.005
  {
    var scaled := Linear(ing.quantity, EffectiveFactor(m, ing, factor));
    var clamped := ClampToMinimum(ing, scaled);
    if Truthy(ing.minimumQuantity) then
      RoundTo2Monotone(ing.minimumQuantity.value, clamped);
      RoundTo2(clamped)
    else
      RoundTo2(clamped)
  }

  /** At factor 1 the quantity is only rounded to two decimals (unless it is below its minimum). */
  lemma ScaledQuantityAtFactorOne(m: MathLib, ing: Ingredient)
    requires Lawful(m)
    requires !Truthy(ing.minimumQuantity) || ing.quantity >= ing.minimumQuantity.value
    ensures CalculateScaledQuantity(m, ing, 1.0) == RoundTo2(ing.quantity)
  {
    assert EffectiveFactor(m, ing, 1.0) == 1.0;
  }

  /** For a non-negative quantity and a positive (or absent) exponent, a larger factor never gives less. */
  lemma ScaledQuantityMonotone(m: MathLib, ing: Ingredient, f1: real, f2: real)
    requires Lawful(m)
    requires ing.quantity >= 0.0
    requires Truthy(ing.scalingFactor) ==> ing.scalingFactor.value > 0.0
    requires 0.0 < f1 <= f2
    ensures CalculateScaledQuantity(m, ing, f1) <= CalculateScaledQuantity(m, ing, f2)
  {
    var e1 := EffectiveFactor(m, ing, f1);
    var e2 := EffectiveFactor(m, ing, f2);
    assert e1 <= e2 by {
      if Truthy(ing.scalingFactor) {
        assert m.pow(f1, ing.scalingFactor.value) <= m.pow(f2, ing.scalingFactor.value);
      }
    }
    var l1 := Linear(ing.quantity, e1);
    var l2 := Linear(ing.quantity, e2);
    assert l1 <= l2 by {
      assert ing.quantity * (e2 - e1) >= 0.0;
    }
    assert ClampToMinimum(ing, l1) <= ClampToMinimum(ing, l2);
    RoundTo2Monotone(ClampToMinimum(ing, l1), ClampToMinimum(ing, l2));
  }

  /** The egg wash of the sample pastry: one piece with minimum one stays one piece at a tenth of the recipe. */
  lemma EggWashExample(m: MathLib, ing: Ingredient)
    requires ing.quantity == 1.0 && ing.unit == Conversions.Piece
    requires ing.scalingFactor == None && ing.minimumQuantity == Some(1.0)
    ensures CalculateScaledQuantity(m, ing, 0.1) == 1.0
  {
    assert ClampToMinimum(ing, Linear(1.0, 0.1)) == 1.0;
    assert RoundTo2(1.0) == 1.0 by {
      RoundOfInt(100);
    }
  }

  /** The sponge cake's teaspoon of vanilla (exponent 0.7) never drops below a teaspoon when the cake is doubled. */
  lemma VanillaExample(m: MathLib, ing: Ingredient)
    requires Lawful(m)
    requires ing.quantity == 1.0 && ing.unit == Conversions.Tsp
    requires ing.scalingFactor == Some(0.7) && ing.minimumQuantity == None
    ensures CalculateScaledQuantity(m, ing, 1.0) == 1.0
    ensures CalculateScaledQuantity(m, ing, 2.0) >= 1.0
  {
    ScaledQuantityAtFactorOne(m, ing);
    assert RoundTo2(1.0) == 1.0 by {
      RoundOfInt(100);
    }
    ScaledQuantityMonotone(m, ing, 1.0, 2.0);
  }

  // ---------------------------------------------------------------------
  // Scaling a recipe

  /** The provider's own cooking-time estimate: time times the square root of the factor. */
  function SqrtCookTime(m: MathLib, originalTime: real, factor: real): (t: real)
    ensures Lawful(m) && factor == 1.0 ==> t == originalTime
    ensures forall k :: Lawful(m) && k >= 0.0 && factor == Square(k) ==> t == originalTime * k
  {
    assert Lawful(m) ==> m.sqrt(1.0) == m.pow(1.0, 0.5) == 1.0;
    originalTime * m.sqrt(factor)
  }

  function ScaleIngredient(m: MathLib, ing: Ingredient, factor: real): Ingredient {
    ing.(quantity := CalculateScaledQuantity(m, ing, factor))
  }

  /** The record `scaleRecipe` builds for a recipe and a factor. */
  function ScaledRecipeOf(m: MathLib, recipe: Recipe, factor: real): (s: ScaledRecipe)
    ensures s.originalServings == recipe.servings
    ensures s.scalingFactor == factor
    ensures recipe.servings as real * factor - 0.5 < s.recipe.servings as real <= recipe.servings as real * factor + 0.5
    ensures s.recipe.prepTime == recipe.prepTime
    ensures s.recipe.cookTime == Round(SqrtCookTime(m, recipe.cookTime as real, factor))
    ensures s.recipe.totalTime == s.recipe.prepTime + s.recipe.cookTime
    ensures |s.recipe.ingredients| == |recipe.ingredients|
    ensures forall i :: 0 <= i < |recipe.ingredients| ==>
      s.recipe.ingredients[i] == recipe.ingredients[i].(quantity := s.recipe.ingredients[i].quantity)
    ensures forall i :: 0 <= i < |recipe.ingredients| ==>
      s.recipe.ingredients[i].quantity == CalculateScaledQuantity(m, recipe.ingredients[i], factor)
    ensures s.recipe == recipe.(servings := s.recipe.servings, prepTime := s.recipe.prepTime,
      cookTime := s.recipe.cookTime, totalTime := s.recipe.totalTime, ingredients := s.recipe.ingredients)
  {
    var cook := Round(SqrtCookTime(m, recipe.cookTime as real, factor));
    ScaledRecipe(
      recipe.(
        servings := Round(recipe.servings as real * factor),
        ingredients := seq(|recipe.ingredients|, i requires 0 <= i < |recipe.ingredients| =>
          ScaleIngredient(m, recipe.ingredients[i], factor)),
        prepTime := recipe.prepTime,
        cookTime := cook,
        totalTime := recipe.prepTime + cook),
      recipe.servings,
      factor)
  }

  /** Scaling by 1 keeps servings and cook time, and only rounds the quantities. */
  lemma ScaleByOne(m: MathLib, recipe: Recipe)
    requires Lawful(m)
    ensures ScaledRecipeOf(m, recipe, 1.0).recipe.servings == recipe.servings
    ensures ScaledRecipeOf(m, recipe, 1.0).recipe.cookTime == recipe.cookTime
    ensures ScaledRecipeOf(m, recipe, 1.0).recipe.totalTime == recipe.prepTime + recipe.cookTime
    ensures forall i :: 0 <= i < |recipe.ingredients| && ClampToMinimum(recipe.ingredients[i], recipe.ingredients[i].quantity) == recipe.ingredients[i].quantity ==>
      ScaledRecipeOf(m, recipe, 1.0).recipe.ingredients[i].quantity == RoundTo2(recipe.ingredients[i].quantity)
  {
    RoundOfInt(recipe.servings);
    RoundOfInt(recipe.cookTime);
    forall i | 0 <= i < |recipe.ingredients| && ClampToMinimum(recipe.ingredients[i], recipe.ingredients[i].quantity) == recipe.ingredients[i].quantity
      ensures ScaledRecipeOf(m, recipe, 1.0).recipe.ingredients[i].quantity == RoundTo2(recipe.ingredients[i].quantity)
    {
      assert EffectiveFactor(m, recipe.ingredients[i], 1.0) == 1.0;
    }
  }

  // ---------------------------------------------------------------------
  // Recent calculations

  predicate DistinctIds(rs: seq<ScaledRecipe>) {
    forall i, j :: 0 <= i < j < |rs| ==> rs[i].recipe.id != rs[j].recipe.id
  }

  /** `a` is `b` with some elements dropped and the rest kept in order. */
  predicate SubsequenceOf<T(==)>(a: seq<T>, b: seq<T>) {
    if |a| == 0 then true
    else if |b| == 0 then false
    else (a[0] == b[0] && SubsequenceOf(a[1..], b[1..])) || SubsequenceOf(a, b[1..])
  }

  /** The entries of `rs` whose id is not `id`. */
  function WithoutId(rs: seq<ScaledRecipe>, id: string): (r: seq<ScaledRecipe>)
    ensures forall x :: x in r <==> x in rs && x.recipe.id != id
    ensures SubsequenceOf(r, rs)
    ensures DistinctIds(rs) ==> DistinctIds(r)
    ensures (forall x :: x in rs ==> x.recipe.id != id) ==> r == rs
  {
    if |rs| == 0 then []
    else if rs[0].recipe.id == id then WithoutId(rs[1..], id)
    else
      var tail := WithoutId(rs[1..], id);
      assert ([rs[0]] + tail)[1..] == tail;
      assert rs == [rs[0]] + rs[1..];
      ConsDistinct(rs[0], rs[1..], tail);
      [rs[0]] + tail
  }

  /** Each entry without the id is kept as often as it occurs; entries with the id are all gone. */
  lemma {:induction false} WithoutIdCounts(rs: seq<ScaledRecipe>, id: string)
    ensures forall x :: multiset(WithoutId(rs, id))[x] == if x.recipe.id != id then multiset(rs)[x] else 0
  {
    if |rs| > 0 {
      WithoutIdCounts(rs[1..], id);
      assert rs == [rs[0]] + rs[1..];
    }
  }

  /** Dropping entries from the tail of an id-distinct list keeps it id-distinct. */
  lemma ConsDistinct(x: ScaledRecipe, rest: seq<ScaledRecipe>, tail: seq<ScaledRecipe>)
    requires forall y :: y in tail ==> y in rest
    ensures DistinctIds([x] + rest) && DistinctIds(tail) ==> DistinctIds([x] + tail)
  {
    if DistinctIds([x] + rest) && DistinctIds(tail) {
      forall i, j | 0 <= i < j < |[x] + tail|
        ensures ([x] + tail)[i].recipe.id != ([x] + tail)[j].recipe.id
      {
        if i == 0 {
          assert tail[j - 1] in tail;
          var k :| 0 <= k < |rest| && rest[k] == tail[j - 1];
          assert ([x] + rest)[k + 1] == rest[k] && ([x] + rest)[0] == x;
        } else {
          assert ([x] + tail)[i] == tail[i - 1];
          assert ([x] + tail)[j] == tail[j - 1];
        }
      }
    }
  }

  const RecentLimit: nat := 5

  /** The recent-calculations list after `scaled` was computed: newest first, at most five. */
  function UpdateRecent(prev: seq<ScaledRecipe>, scaled: ScaledRecipe): (r: seq<ScaledRecipe>)
    ensures 0 < |r| <= RecentLimit
    ensures r[0] == scaled
    ensures var kept := |WithoutId(prev, scaled.recipe.id)|;
      |r| == if 1 + kept < RecentLimit then 1 + kept else RecentLimit
  {
    var all := [scaled] + WithoutId(prev, scaled.recipe.id);
    all[..if |all| < RecentLimit then |all| else RecentLimit]
  }

  /** After the head come the previous entries without that id, in their order, cut to the limit. */
  lemma UpdateRecentTail(prev: seq<ScaledRecipe>, scaled: ScaledRecipe)
    ensures var r := UpdateRecent(prev, scaled);
      r[1..] == WithoutId(prev, scaled.recipe.id)[..|r| - 1]
  {
    var rest := WithoutId(prev, scaled.recipe.id);
    var all := [scaled] + rest;
    assert all[1..] == rest;
  }

  /** The kept entries are a subsequence of the previous list: their order is unchanged. */
  lemma UpdateRecentKeepsOrder(prev: seq<ScaledRecipe>, scaled: ScaledRecipe)
    ensures SubsequenceOf(UpdateRecent(prev, scaled)[1..], prev)
  {
    var r := UpdateRecent(prev, scaled);
    var rest := WithoutId(prev, scaled.recipe.id);
    UpdateRecentTail(prev, scaled);
    PrefixIsSubsequence(rest, |r| - 1);
    SubsequenceTransitive(r[1..], rest, prev);
  }

  /** No entry after the head has the head's id. */
  lemma UpdateRecentUniqueHead(prev: seq<ScaledRecipe>, scaled: ScaledRecipe)
    ensures var r := UpdateRecent(prev, scaled);
      forall i :: 1 <= i < |r| ==> r[i].recipe.id != scaled.recipe.id
  {
    var r := UpdateRecent(prev, scaled);
    var rest := WithoutId(prev, scaled.recipe.id);
    UpdateRecentTail(prev, scaled);
    forall i | 1 <= i < |r| ensures r[i].recipe.id != scaled.recipe.id {
      assert r[i] == rest[i - 1];
      assert r[i] in rest;
    }
  }

  /** While there is room, every previous entry with another id is kept. */
  lemma UpdateRecentKeepsAll(prev: seq<ScaledRecipe>, scaled: ScaledRecipe)
    requires |WithoutId(prev, scaled.recipe.id)| < RecentLimit
    ensures forall x :: x in prev && x.recipe.id != scaled.recipe.id ==> x in UpdateRecent(prev, scaled)
  {
    var r := UpdateRecent(prev, scaled);
    var rest := WithoutId(prev, scaled.recipe.id);
    UpdateRecentTail(prev, scaled);
    assert r[1..] == rest;
    forall x | x in prev && x.recipe.id != scaled.recipe.id ensures x in r {
      assert x in r[1..];
    }
  }

  /** An id-distinct list stays id-distinct. */
  lemma UpdateRecentDistinct(prev: seq<ScaledRecipe>, scaled: ScaledRecipe)
    requires DistinctIds(prev)
    ensures DistinctIds(UpdateRecent(prev, scaled))
  {
    var r := UpdateRecent(prev, scaled);
    var rest := WithoutId(prev, scaled.recipe.id);
    UpdateRecentTail(prev, scaled);
    UpdateRecentUniqueHead(prev, scaled);
    forall i, j | 0 <= i < j < |r| ensures r[i].recipe.id != r[j].recipe.id {
      if i > 0 {
        assert r[i] == rest[i - 1] && r[j] == rest[j - 1];
      }
    }
  }

  lemma {:induction false} PrefixIsSubsequence<T>(s: seq<T>, n: nat)
    requires n <= |s|
    ensures SubsequenceOf(s[..n], s)
  {
    if n > 0 {
      PrefixIsSubsequence(s[1..], n - 1);
      assert s[..n][1..] == s[1..][..n - 1];
    }
  }

  lemma {:induction false} SubsequenceTransitive<T>(a: seq<T>, b: seq<T>, c: seq<T>)
    requires SubsequenceOf(a, b) && SubsequenceOf(b, c)
    ensures SubsequenceOf(a, c)
    decreases |c|
  {
    if |a| > 0 {
      if b[0] == c[0] && SubsequenceOf(b[1..], c[1..]) {
        if a[0] == b[0] && SubsequenceOf(a[1..], b[1..]) {
          SubsequenceTransitive(a[1..], b[1..], c[1..]);
        } else {
          SubsequenceTransitive(a, b[1..], c[1..]);
        }
      } else {
        SubsequenceTransitive(a, b, c[1..]);
      }
    }
  }

  /** Scaling the same recipe twice in a row leaves only its latest result for that id. */
  lemma UpdateRecentTwice(prev: seq<ScaledRecipe>, s1: ScaledRecipe, s2: ScaledRecipe)
    requires s1.recipe.id == s2.recipe.id
    ensures UpdateRecent(UpdateRecent(prev, s1), s2)[0] == s2
    ensures forall x :: x in UpdateRecent(UpdateRecent(prev, s1), s2) ==> x == s2 || x.recipe.id != s2.recipe.id
  {
    var r1 := UpdateRecent(prev, s1);
    var r := UpdateRecent(r1, s2);
    UpdateRecentUniqueHead(r1, s2);
    forall x | x in r ensures x == s2 || x.recipe.id != s2.recipe.id {
      var i :| 0 <= i < |r| && r[i] == x;
      assert i == 0 || r[i].recipe.id != s2.recipe.id;
    }
  }

  // ---------------------------------------------------------------------
  // User preferences

  datatype FontSize = Normal | Large | ExtraLarge

  datatype UserPreferences = UserPreferences(fontSize: FontSize, highContrast: bool)

  /** A partial set of preferences: the keys that are present override. */
  datatype PreferencesPatch = PreferencesPatch(fontSize: Option<FontSize>, highContrast: Option<bool>)

  const DefaultPreferences := UserPreferences(Normal, false)

  /** `{ ...prev, ...patch }`. */
  function MergePreferences(prev: UserPreferences, patch: PreferencesPatch): (r: UserPreferences)
    ensures r.fontSize == (if patch.fontSize.Some? then patch.fontSize.value else prev.fontSize)
    ensures r.highContrast == (if patch.highContrast.Some? then patch.highContrast.value else prev.highContrast)
  {
    UserPreferences(
      if patch.fontSize.Some? then patch.fontSize.value else prev.fontSize,
      if patch.highContrast.Some? then patch.highContrast.value else prev.highContrast)
  }

  /** Two patches one after the other: the later one's keys win. */
  function CombinePatches(first: PreferencesPatch, second: PreferencesPatch): PreferencesPatch {
    PreferencesPatch(
      if second.fontSize.Some? then second.fontSize else first.fontSize,
      if second.highContrast.Some? then second.highContrast else first.highContrast)
  }

  lemma MergeEmptyPatch(prev: UserPreferences)
    ensures MergePreferences(prev, PreferencesPatch(None, None)) == prev
  {
  }

  lemma MergeIdempotent(prev: UserPreferences, patch: PreferencesPatch)
    ensures MergePreferences(MergePreferences(prev, patch), patch) == MergePreferences(prev, patch)
  {
  }

  lemma MergeSequence(prev: UserPreferences, first: PreferencesPatch, second: PreferencesPatch)
    ensures MergePreferences(MergePreferences(prev, first), second) == MergePreferences(prev, CombinePatches(first, second))
  {
  }

  /** A full patch replaces everything. */
  lemma MergeFullPatch(prev: UserPreferences, next: UserPreferences)
    ensures MergePreferences(prev, PreferencesPatch(Some(next.fontSize), Some(next.highContrast))) == next
  {
  }

  // ---------------------------------------------------------------------
  // The provider's state

  class RecipeStore {
    const recipes: seq<Recipe>
    var selectedRecipe: Option<Recipe>
    var scalingFactor: real
    var scaledRecipe: Option<ScaledRecipe>
    var recentCalculations: seq<ScaledRecipe>
    var userPreferences: UserPreferences

    /** The recent list is capped and holds one entry per recipe id. */
    ghost predicate Valid()
      reads this
    {
      |recentCalculations| <= RecentLimit && DistinctIds(recentCalculations)
    }

    constructor(initialRecipes: seq<Recipe>)
      ensures Valid()
      ensures recipes == initialRecipes
      ensures selectedRecipe == None && scalingFactor == 1.0 && scaledRecipe == None
      ensures recentCalculations == [] && userPreferences == DefaultPreferences
    {
      recipes := initialRecipes;
      selectedRecipe := None;
      scalingFactor := 1.0;
      scaledRecipe := None;
      recentCalculations := [];
      userPreferences := DefaultPreferences;
    }

    method SetSelectedRecipe(recipe: Option<Recipe>)
      modifies this`selectedRecipe
      ensures selectedRecipe == recipe
      ensures old(Valid()) ==> Valid()
    {
      selectedRecipe := recipe;
    }

    method SetScalingFactor(factor: real)
      modifies this`scalingFactor
      ensures scalingFactor == factor
      ensures old(Valid()) ==> Valid()
    {
      scalingFactor := factor;
    }

    /** `scaleRecipe`: an absent recipe changes nothing. */
    method ScaleRecipe(m: MathLib, recipe: Option<Recipe>, factor: real)
      modifies this`scaledRecipe, this`recentCalculations
      ensures recipe.None? ==> scaledRecipe == old(scaledRecipe) && recentCalculations == old(recentCalculations)
      ensures recipe.Some? ==> scaledRecipe == Some(ScaledRecipeOf(m, recipe.value, factor))
      ensures recipe.Some? ==> recentCalculations == UpdateRecent(old(recentCalculations), ScaledRecipeOf(m, recipe.value, factor))
      ensures old(Valid()) ==> Valid()
    {
      if recipe.None? {
        return;
      }
      var scaled := ScaledRecipeOf(m, recipe.value, factor);
      if Valid() {
        UpdateRecentDistinct(recentCalculations, scaled);
      }
      scaledRecipe := Some(scaled);
      recentCalculations := UpdateRecent(recentCalculations, scaled);
    }

    /** `updateUserPreferences`: the supplied keys override, the others stay. */
    method UpdateUserPreferences(patch: PreferencesPatch)
      modifies this`userPreferences
      ensures userPreferences == MergePreferences(old(userPreferences), patch)
      ensures old(Valid()) ==> Valid()
    {
      userPreferences := MergePreferences(userPreferences, patch);
    }
  }
}
