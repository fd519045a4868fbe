/**
 * The recipe browser: the sorted set of categories, the search and category
 * filter, the category toggle and the selection of a recipe.
 */
module RecipeList {
  import opened JsBuiltins
  import opened JsText
  import opened RecipeContext

  // ---------------------------------------------------------------------
  // String order used by `sort()`

  /** Lexicographic order on characters: a proper prefix comes first. */
  predicate StrLt(a: string, b: string) {
    if |a| == 0 then |b| > 0
    else if |b| == 0 then false
    else if a[0] == b[0] then StrLt(a[1..], b[1..])
    else a[0] < b[0]
  }

  lemma {:induction false} StrLtIrreflexive(a: string)
    ensures !StrLt(a, a)
  {
    if |a| > 0 {
      StrLtIrreflexive(a[1..]);
    }
  }

  lemma {:induction false} StrLtAsymmetric(a: string, b: string)
    requires StrLt(a, b)
    ensures !StrLt(b, a)
  {
    if |a| > 0 && |b| > 0 && a[0] == b[0] {
      StrLtAsymmetric(a[1..], b[1..]);
    }
  }

  lemma {:induction false} StrLtTransitive(a: string, b: string, c: string)
    requires StrLt(a, b) && StrLt(b, c)
    ensures StrLt(a, c)
  {
    if |a| > 0 && a[0] == b[0] && b[0] == c[0] {
      StrLtTransitive(a[1..], b[1..], c[1..]);
    }
  }

  lemma {:induction false} StrLtTotal(a: string, b: string)
    requires a != b
    ensures StrLt(a, b) || StrLt(b, a)
  {
    if |a| > 0 && |b| > 0 && a[0] == b[0] {
      assert a == [a[0]] + a[1..] && b == [b[0]] + b[1..];
      StrLtTotal(a[1..], b[1..]);
    }
  }

  /** Strictly increasing: sorted and free of duplicates. */
  predicate StrictlySorted(s: seq<string>) {
    forall i, j :: 0 <= i < j < |s| ==> StrLt(s[i], s[j])
  }

  lemma SortedCons(x: string, s: seq<string>)
    requires StrictlySorted(s) && forall y :: y in s ==> StrLt(x, y)
    ensures StrictlySorted([x] + s)
  {
    forall i, j | 0 <= i < j < |[x] + s| ensures StrLt(([x] + s)[i], ([x] + s)[j]) {
      if i == 0 {
        assert ([x] + s)[j] in s;
      } else {
        assert ([x] + s)[i] == s[i - 1] && ([x] + s)[j] == s[j - 1];
      }
    }
  }

  /** Put `x` in its place in a strictly sorted list, unless it is already there. */
  function Insert(s: seq<string>, x: string): (r: seq<string>)
    requires StrictlySorted(s)
    ensures StrictlySorted(r)
    ensures forall y :: y in r <==> y in s || y == x
  {
    if |s| == 0 then [x]
    else if x == s[0] then s
    else if StrLt(x, s[0]) then
      assert forall y :: y in s ==> StrLt(x, y) by {
        forall y | y in s ensures StrLt(x, y) {
          if y != s[0] {
            var k :| 0 <= k < |s| && s[k] == y;
            StrLtTransitive(x, s[0], y);
          }
        }
      }
      SortedCons(x, s);
      [x] + s
    else
      var tail := Insert(s[1..], x);
      StrLtTotal(x, s[0]);
      assert forall y :: y in tail ==> StrLt(s[0], y) by {
        forall y | y in tail ensures StrLt(s[0], y) {
          if y != x {
            var k :| 0 <= k < |s[1..]| && s[1..][k] == y;
            assert s[k + 1] == y;
          }
        }
      }
      SortedCons(s[0], tail);
      assert s == [s[0]] + s[1..];
      [s[0]] + tail
  }

  /** Insert every element of `todo`, in order. */
  function InsertAll(acc: seq<string>, todo: seq<string>): (r: seq<string>)
    requires StrictlySorted(acc)
    ensures StrictlySorted(r)
    ensures forall y :: y in r <==> y in acc || y in todo
    decreases |todo|
  {
    if |todo| == 0 then acc
    else
      var r := InsertAll(Insert(acc, todo[0]), todo[1..]);
      assert forall y :: y in todo <==> y == todo[0] || y in todo[1..] by {
        assert todo == [todo[0]] + todo[1..];
      }
      r
  }

  lemma EmptyIffNoElements(s: seq<string>)
    ensures s == [] <==> forall y :: y !in s
  {
    if s != [] {
      assert s[0] in s;
    }
  }

  /** Two strictly sorted lists with the same elements are equal. */
  lemma {:induction false} StrictlySortedUnique(a: seq<string>, b: seq<string>)
    requires StrictlySorted(a) && StrictlySorted(b)
    requires forall y :: y in a <==> y in b
    ensures a == b
  {
    EmptyIffNoElements(a);
    EmptyIffNoElements(b);
    if |a| > 0 && |b| > 0 {
      if a[0] != b[0] {
        assert a[0] in b && b[0] in a;
        var i :| 0 <= i < |a| && a[i] == b[0];
        var j :| 0 <= j < |b| && b[j] == a[0];
        assert StrLt(a[0], a[i]) && StrLt(b[0], b[j]);
        StrLtAsymmetric(a[0], b[0]);
        assert false;
      }
      forall y ensures y in a[1..] <==> y in b[1..] {
        if y in a[1..] {
          var i :| 0 < i < |a| && a[i] == y;
          assert StrLt(a[0], y);
          StrLtIrreflexive(y);
          assert y in b && y != b[0];
          var j :| 0 <= j < |b| && b[j] == y;
          assert j != 0;
          assert y == b[1..][j - 1];
        }
        if y in b[1..] {
          var j :| 0 < j < |b| && b[j] == y;
          assert StrLt(b[0], y);
          StrLtIrreflexive(y);
          assert y in a && y != a[0];
          var i :| 0 <= i < |a| && a[i] == y;
          assert i != 0;
          assert y == a[1..][i - 1];
        }
      }
      StrictlySortedUnique(a[1..], b[1..]);
      assert a == [a[0]] + a[1..] && b == [b[0]] + b[1..];
    }
  }

  // ---------------------------------------------------------------------
  // Categories

  /** `recipes.flatMap(recipe => recipe.categories)`. */
  function CategoriesOf(recipes: seq<Recipe>): (cs: seq<string>)
    ensures forall c :: c in cs <==> exists r :: r in recipes && c in r.categories
  {
    if |recipes| == 0 then []
    else
      var rest := CategoriesOf(recipes[1..]);
      assert forall r :: r in recipes <==> r == recipes[0] || r in recipes[1..] by {
        assert recipes == [recipes[0]] + recipes[1..];
      }
      recipes[0].categories + rest
  }

  /** `allCategories`: the distinct categories of all recipes, in sorted order. */
  function AllCategories(recipes: seq<Recipe>): (cs: seq<string>)
    ensures StrictlySorted(cs)
    ensures forall c :: c in cs <==> exists r :: r in recipes && c in r.categories
  {
    InsertAll([], CategoriesOf(recipes))
  }

  /** Any other way of computing a sorted duplicate-free list of the categories gives the same list. */
  lemma AllCategoriesUnique(recipes: seq<Recipe>, cs: seq<string>)
    requires StrictlySorted(cs)
    requires forall c :: c in cs <==> exists r :: r in recipes && c in r.categories
    ensures cs == AllCategories(recipes)
  {
    StrictlySortedUnique(cs, AllCategories(recipes));
  }

  // ---------------------------------------------------------------------
  // Filtering

  /** The search test: an empty term, or (ignoring case) a piece of the name or the description. */
  predicate MatchesSearch(recipe: Recipe, searchTerm: string): (b: bool)
    ensures b <==> || searchTerm == ""
                   || (exists i :: OccursAt(Lower(recipe.name), Lower(searchTerm), i))
                   || (exists i :: OccursAt(Lower(recipe.description), Lower(searchTerm), i))
  {
    ContainsIff(Lower(recipe.name), Lower(searchTerm));
    ContainsIff(Lower(recipe.description), Lower(searchTerm));
    || searchTerm == ""
    || Contains(Lower(recipe.name), Lower(searchTerm))
    || Contains(Lower(recipe.description), Lower(searchTerm))
  }

  /** The category test: no active category, or one of the recipe's categories. */
  predicate MatchesCategory(recipe: Recipe, activeCategory: Option<string>): (b: bool)
    ensures activeCategory.None? ==> b
    ensures activeCategory.Some? ==>
              (b <==> exists i :: 0 <= i < |recipe.categories| && recipe.categories[i] == activeCategory.value)
  {
    activeCategory.None? || activeCategory.value in recipe.categories
  }

  predicate Matches(recipe: Recipe, searchTerm: string, activeCategory: Option<string>) {
    MatchesSearch(recipe, searchTerm) && MatchesCategory(recipe, activeCategory)
  }

  /** `filteredRecipes`: the matching recipes, in their order. */
  function Filtered(recipes: seq<Recipe>, searchTerm: string, activeCategory: Option<string>): (r: seq<Recipe>)
    ensures forall x :: x in r <==> x in recipes && Matches(x, searchTerm, activeCategory)
    ensures SubsequenceOf(r, recipes)
    ensures (forall x :: x in recipes ==> Matches(x, searchTerm, activeCategory)) ==> r == recipes
    ensures forall x :: multiset(r)[x] == if Matches(x, searchTerm, activeCategory) then multiset(recipes)[x] else 0
  {
    if |recipes| == 0 then []
    else
      var tail := Filtered(recipes[1..], searchTerm, activeCategory);
      assert recipes == [recipes[0]] + recipes[1..];
      if Matches(recipes[0], searchTerm, activeCategory) then
        assert ([recipes[0]] + tail)[1..] == tail;
        [recipes[0]] + tail
      else
        tail
  }

  /** With an empty search and no active category every recipe is shown. */
  lemma NoFilterShowsAll(recipes: seq<Recipe>)
    ensures Filtered(recipes, "", None) == recipes
  {
  }

  /** Upper and lower case in the search term make no difference. */
  lemma SearchIgnoresCase(recipe: Recipe, searchTerm: string)
    ensures MatchesSearch(recipe, Lower(searchTerm)) == MatchesSearch(recipe, searchTerm)
  {
    LowerIdempotent(searchTerm);
    assert (Lower(searchTerm) == "") == (searchTerm == "");
  }

  /** A longer search term never shows more recipes. */
  lemma NarrowingSearch(recipe: Recipe, term: string, extra: string)
    requires term != ""
    requires MatchesSearch(recipe, term + extra)
    ensures MatchesSearch(recipe, term)
  {
    var big := Lower(term + extra);
    var small := Lower(term);
    assert small == big[..|term|];
    var hay := if Contains(Lower(recipe.name), big) then Lower(recipe.name) else Lower(recipe.description);
    assert Contains(hay, small) by {
      PrefixContained(hay, big, |term|);
    }
  }

  /** A text that contains a needle contains every prefix of it. */
  lemma PrefixContained(hay: string, needle: string, n: nat)
    requires n <= |needle| && Contains(hay, needle)
    ensures Contains(hay, needle[..n])
  {
    ContainsIff(hay, needle);
    var i :| OccursAt(hay, needle, i);
    assert hay[i..i + n] == needle[..n];
    assert OccursAt(hay, needle[..n], i);
    ContainsIff(hay, needle[..n]);
  }

  // ---------------------------------------------------------------------
  // Category toggle

  /** `handleCategoryClick`: the active category is cleared, any other becomes active. */
  function ToggleCategory(activeCategory: Option<string>, category: string): (r: Option<string>)
    ensures activeCategory == Some(category) ==> r.None?
    ensures activeCategory != Some(category) ==> r == Some(category)
  {
    if activeCategory == Some(category) then None else Some(category)
  }

  /** Clicking the same category twice from no selection comes back to no selection. */
  lemma ToggleTwice(category: string)
    ensures ToggleCategory(ToggleCategory(None, category), category) == None
  {
  }

  /** After a click on a category either nothing is filtered by category or exactly that category is. */
  lemma ToggleFilters(recipes: seq<Recipe>, activeCategory: Option<string>, category: string)
    ensures var shown := Filtered(recipes, "", ToggleCategory(activeCategory, category));
      activeCategory == Some(category) ==> shown == recipes
    ensures forall x :: x in Filtered(recipes, "", ToggleCategory(activeCategory, category)) ==>
      activeCategory == Some(category) || category in x.categories
  {
  }

  // ---------------------------------------------------------------------
  // The component's state

  class RecipeBrowser {
    const recipes: seq<Recipe>
    var searchTerm: string
    var activeCategory: Option<string>

    constructor(recipes: seq<Recipe>)
      ensures this.recipes == recipes && searchTerm == "" && activeCategory == None
      ensures FilteredRecipes() == recipes
    {
      this.recipes := recipes;
      searchTerm := "";
      activeCategory := None;
      new;
      NoFilterShowsAll(recipes);
    }

    function FilteredRecipes(): seq<Recipe>
      reads this
    {
      Filtered(recipes, searchTerm, activeCategory)
    }

    method SetSearchTerm(term: string)
      modifies this`searchTerm
      ensures searchTerm == term
    {
      searchTerm := term;
    }

    method HandleCategoryClick(category: string)
      modifies this`activeCategory
      ensures activeCategory == ToggleCategory(old(activeCategory), category)
    {
      activeCategory := if activeCategory == Some(category) then None else Some(category);
    }

    /** `handleRecipeSelect`: the chosen recipe becomes the store's selected recipe. */
    method HandleRecipeSelect(store: RecipeStore, recipe: Recipe)
      modifies store`selectedRecipe
      ensures store.selectedRecipe == Some(recipe)
    {
      store.SetSelectedRecipe(Some(recipe));
    }
  }
}
