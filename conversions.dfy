/**
 * Unit conversion and estimation helpers: conversion between weight and
 * volume units (through an ingredient-density table when the measurement
 * system changes), choosing a more readable metric unit, display text for
 * quantities and units, the bucketed cooking-time curve and the oven
 * temperature rule for a changed pan size.
 */
module Conversions {
  import opened JsBuiltins
  import opened JsText

  // ---------------------------------------------------------------------
  // Tables

  /** The units of the conversion table, each with its key. */
  datatype Unit = G | Kg | Ml | L | Tsp | Tbsp | Cup | Pinch | Piece {
    function Name(): string {
      match this
      case G => "g"
      case Kg => "kg"
      case Ml => "ml"
      case L => "l"
      case Tsp => "tsp"
      case Tbsp => "tbsp"
      case Cup => "cup"
      case Pinch => "pinch"
      case Piece => "piece"
    }
  }

  /** The unit whose key is `s`; `None` when `s` is not a key of the table. */
  function ParseUnit(s: string): (u: Option<Unit>)
    ensures u.Some? ==> u.value.Name() == s
  {
    match s
    case "g" => Some(G)
    case "kg" => Some(Kg)
    case "ml" => Some(Ml)
    case "l" => Some(L)
    case "tsp" => Some(Tsp)
    case "tbsp" => Some(Tbsp)
    case "cup" => Some(Cup)
    case "pinch" => Some(Pinch)
    case "piece" => Some(Piece)
    case _ => None
  }

  /** Every unit's key is recognised as that unit, so distinct units have distinct keys. */
  lemma ParseUnitName(u: Unit)
    ensures ParseUnit(u.Name()) == Some(u)
  {
  }

  /** Multiplier from each unit to its base unit (grams, millilitres); `pinch` is a quarter teaspoon. */
  function Factor(u: Unit): (f: real)
    ensures f > 0.0
  {
    match u
    case G => 1.0
    case Kg => 1000.0
    case Ml => 1.0
    case L => 1000.0
    case Tsp => 5.0
    case Tbsp => 15.0
    case Cup => 240.0
    case Pinch => 0.25
    case Piece => 1.0
  }

  predicate IsWeight(u: Unit) {
    u == G || u == Kg
  }

  predicate IsVolume(u: Unit) {
    u == Ml || u == L || u == Tsp || u == Tbsp || u == Cup
  }

  /** Densities in g/ml, in the order in which the table lists its keys. */
  const Densities: seq<(string, real)> := [
    ("flour", 0.55), ("sugar", 0.85), ("brown sugar", 0.8), ("powdered sugar", 0.56),
    ("butter", 0.96), ("oil", 0.92), ("milk", 1.03), ("water", 1.0), ("honey", 1.42),
    ("maple syrup", 1.32), ("salt", 1.25), ("cocoa powder", 0.51), ("baking powder", 0.9),
    ("baking soda", 0.9), ("rice", 0.85)]

  lemma DensitiesPositive()
    ensures forall i :: 0 <= i < |Densities| ==> Densities[i].1 > 0.0
  {
  }

  // ---------------------------------------------------------------------
  // Density lookup

  /** The first entry of the table whose key is `name` (an exact, case-sensitive match). */
  function FindExactKey(table: seq<(string, real)>, name: string): (i: Option<nat>)
    ensures i.Some? ==> i.value < |table|
  {
    if |table| == 0 then None
    else if table[0].0 == name then Some(0)
    else match FindExactKey(table[1..], name)
      case None => None
      case Some(j) => Some(j + 1)
  }

  /** `FindExactKey` finds the first entry with the key, and nothing only when no entry has it. */
  lemma {:induction false} FindExactKeySpec(table: seq<(string, real)>, name: string)
    ensures FindExactKey(table, name).Some? ==>
              var i := FindExactKey(table, name).value;
              table[i].0 == name && forall j :: 0 <= j < i ==> table[j].0 != name
    ensures FindExactKey(table, name).None? <==> forall j :: 0 <= j < |table| ==> table[j].0 != name
  {
    if |table| > 0 && table[0].0 != name {
      FindExactKeySpec(table[1..], name);
      assert forall j :: 1 <= j < |table| ==> table[j] == table[1..][j - 1];
    }
  }

  /** The search stops at the first entry with the key. */
  lemma FindExactKeyAt(table: seq<(string, real)>, name: string, i: nat)
    requires i < |table| && table[i].0 == name
    requires forall j :: 0 <= j < i ==> table[j].0 != name
    ensures FindExactKey(table, name) == Some(i)
  {
    FindExactKeySpec(table, name);
  }

  /** The key, lowercased, occurs in the lowercased ingredient name. */
  predicate KeyOccursIn(lowered: string, key: string) {
    Contains(lowered, Lower(key))
  }

  /** The first entry in table order whose key occurs in `lowered` (the `find` over the keys). */
  function FindPartialKey(table: seq<(string, real)>, lowered: string): (i: Option<nat>)
    ensures i.Some? ==> i.value < |table|
  {
    if |table| == 0 then None
    else if KeyOccursIn(lowered, table[0].0) then Some(0)
    else match FindPartialKey(table[1..], lowered)
      case None => None
      case Some(j) => Some(j + 1)
  }

  /** `FindPartialKey` finds the first entry whose key occurs, and nothing only when no key occurs. */
  lemma {:induction false} FindPartialKeySpec(table: seq<(string, real)>, lowered: string)
    ensures FindPartialKey(table, lowered).Some? ==>
              var i := FindPartialKey(table, lowered).value;
              KeyOccursIn(lowered, table[i].0) && forall j :: 0 <= j < i ==> !KeyOccursIn(lowered, table[j].0)
    ensures FindPartialKey(table, lowered).None? <==> forall j :: 0 <= j < |table| ==> !KeyOccursIn(lowered, table[j].0)
  {
    if |table| > 0 && !KeyOccursIn(lowered, table[0].0) {
      FindPartialKeySpec(table[1..], lowered);
      assert forall j :: 1 <= j < |table| ==> table[j] == table[1..][j - 1];
    }
  }

  /** The search stops at the first entry whose key occurs. */
  lemma FindPartialKeyAt(table: seq<(string, real)>, lowered: string, i: nat)
    requires i < |table| && KeyOccursIn(lowered, table[i].0)
    requires forall j :: 0 <= j < i ==> !KeyOccursIn(lowered, table[j].0)
    ensures FindPartialKey(table, lowered) == Some(i)
  {
    FindPartialKeySpec(table, lowered);
  }

  /** The density for an ingredient name: an exact key first, else the first key the name contains. */
  function LookupDensity(name: string): (d: Option<real>)
    ensures d.Some? ==> d.value > 0.0
  {
    DensitiesPositive();
    match FindExactKey(Densities, name)
    case Some(i) => Some(Densities[i].1)
    case None =>
      match FindPartialKey(Densities, Lower(name))
      case Some(i) => Some(Densities[i].1)
      case None => None
  }

  /**
   * An exact key wins; otherwise the first key in table order that the
   * lowercased name contains; and there is no density only when neither exists.
   */
  lemma LookupDensitySpec(name: string)
    ensures (exists i :: 0 <= i < |Densities| && Densities[i].0 == name) ==>
              exists i :: 0 <= i < |Densities| && Densities[i].0 == name && LookupDensity(name) == Some(Densities[i].1)
    ensures (forall i :: 0 <= i < |Densities| ==> Densities[i].0 != name) ==>
              forall i :: 0 <= i < |Densities| && KeyOccursIn(Lower(name), Densities[i].0) ==>
                ((forall j :: 0 <= j < i ==> !KeyOccursIn(Lower(name), Densities[j].0)) ==>
                  LookupDensity(name) == Some(Densities[i].1))
    ensures LookupDensity(name).None? <==> forall j :: 0 <= j < |Densities| ==>
              Densities[j].0 != name && !KeyOccursIn(Lower(name), Densities[j].0)
  {
    FindExactKeySpec(Densities, name);
    FindPartialKeySpec(Densities, Lower(name));
    match FindExactKey(Densities, name)
    case Some(i) =>
    case None =>
      match FindPartialKey(Densities, Lower(name))
      case Some(i) =>
        forall k | 0 <= k < |Densities| && KeyOccursIn(Lower(name), Densities[k].0) &&
            (forall j :: 0 <= j < k ==> !KeyOccursIn(Lower(name), Densities[j].0))
          ensures k == i
        {
        }
      case None =>
  }

  // ---------------------------------------------------------------------
  // convertUnit

  datatype ConversionError =
    | CannotConvert(fromUnit: string, toUnit: string)
    | IngredientNameRequired
    | NoDensityInformation(ingredientName: string)

  datatype Result<T> = Ok(value: T) | Err(error: ConversionError)

  predicate SameSystem(a: Unit, b: Unit) {
    (IsWeight(a) && IsWeight(b)) || (IsVolume(a) && IsVolume(b))
  }

  /** The measurement system changes: weight to volume or volume to weight. */
  predicate CrossSystem(a: Unit, b: Unit) {
    (IsWeight(a) && IsVolume(b)) || (IsVolume(a) && IsWeight(b))
  }

  /** A name was supplied and is not the empty (falsy) string. */
  predicate HasName(name: Option<string>) {
    name.Some? && name.value != ""
  }

  /** The amount in the base unit of `unit`'s measurement system. */
  function ToBase(quantity: real, unit: Unit): real {
    quantity * Factor(unit)
  }

  /** A base-unit amount expressed in `unit`. */
  function FromBase(amount: real, unit: Unit): real {
    amount / Factor(unit)
  }

  /** Millilitres of an ingredient weighing `grams`. */
  function VolumeOfWeight(grams: real, density: real): real
    requires density > 0.0
  {
    grams / density
  }

  /** Grams of an ingredient measuring `millilitres`. */
  function WeightOfVolume(millilitres: real, density: real): real {
    millilitres * density
  }

  lemma DensityRoundTrip(amount: real, density: real)
    requires density > 0.0
    ensures WeightOfVolume(VolumeOfWeight(amount, density), density) == amount
    ensures VolumeOfWeight(WeightOfVolume(amount, density), density) == amount
  {
  }

  lemma FromBaseToBase(amount: real, unit: Unit)
    ensures ToBase(FromBase(amount, unit), unit) == amount
  {
  }

  lemma ToBaseFromBase(quantity: real, unit: Unit)
    ensures FromBase(ToBase(quantity, unit), unit) == quantity
  {
  }

  /** The weight/volume step once a density is known. */
  function ConvertWithDensity(quantity: real, from: Unit, to: Unit, fromUnit: string, toUnit: string, density: real): Result<real>
    requires density > 0.0
  {
    if IsWeight(from) && IsVolume(to) then Ok(FromBase(VolumeOfWeight(ToBase(quantity, from), density), to))
    else if IsVolume(from) && IsWeight(to) then Ok(FromBase(WeightOfVolume(ToBase(quantity, from), density), to))
    else Err(CannotConvert(fromUnit, toUnit))
  }

  /** `convertUnit` once both unit names are known units. */
  function ConvertKnownUnits(quantity: real, from: Unit, to: Unit, fromUnit: string, toUnit: string, ingredientName: Option<string>): Result<real> {
    if SameSystem(from, to) then Ok(FromBase(ToBase(quantity, from), to))
    else if !HasName(ingredientName) then Err(IngredientNameRequired)
    else match LookupDensity(ingredientName.value)
      case None => Err(NoDensityInformation(ingredientName.value))
      case Some(density) => ConvertWithDensity(quantity, from, to, fromUnit, toUnit, density)
  }

  /** `convertUnit`; `Err` stands for each of the errors it throws. */
  function ConvertUnit(quantity: real, fromUnit: string, toUnit: string, ingredientName: Option<string>): (r: Result<real>)
    ensures fromUnit == toUnit ==> r == Ok(quantity)
    ensures fromUnit != toUnit && (ParseUnit(fromUnit).None? || ParseUnit(toUnit).None?) ==>
              r == Err(CannotConvert(fromUnit, toUnit))
    ensures r.Err? && r.error == IngredientNameRequired ==>
              !HasName(ingredientName) && !SameSystem(ParseUnit(fromUnit).value, ParseUnit(toUnit).value)
    ensures r.Err? && r.error.NoDensityInformation? ==>
              HasName(ingredientName) && LookupDensity(ingredientName.value).None?
  {
    if fromUnit == toUnit then Ok(quantity)
    else if ParseUnit(fromUnit).None? || ParseUnit(toUnit).None? then Err(CannotConvert(fromUnit, toUnit))
    else ConvertKnownUnits(quantity, ParseUnit(fromUnit).value, ParseUnit(toUnit).value, fromUnit, toUnit, ingredientName)
  }

  /** Between the names of two different units, `convertUnit` goes straight to the unit step. */
  lemma ConvertUnitOfNames(q: real, a: Unit, b: Unit, name: Option<string>)
    requires a != b
    ensures ConvertUnit(q, a.Name(), b.Name(), name) == ConvertKnownUnits(q, a, b, a.Name(), b.Name(), name)
  {
    ParseUnitName(a);
    ParseUnitName(b);
  }

  /** A conversion inside one measurement system multiplies by the ratio of the unit factors. */
  lemma SameSystemConversion(q: real, a: Unit, b: Unit, name: Option<string>)
    requires a != b && SameSystem(a, b)
    ensures ConvertUnit(q, a.Name(), b.Name(), name) == Ok(q * Factor(a) / Factor(b))
  {
    ParseUnitName(a);
    ParseUnitName(b);
  }

  /** Converting inside one measurement system and back returns the quantity exactly. */
  lemma SameSystemRoundTrip(q: real, a: Unit, b: Unit)
    requires SameSystem(a, b)
    ensures ConvertUnit(q, a.Name(), b.Name(), None).Ok?
    ensures ConvertUnit(ConvertUnit(q, a.Name(), b.Name(), None).value, b.Name(), a.Name(), None) == Ok(q)
  {
    if a != b {
      SameSystemConversion(q, a, b, None);
      var there := FromBase(ToBase(q, a), b);
      SameSystemConversion(there, b, a, None);
      FromBaseToBase(ToBase(q, a), b);
      ToBaseFromBase(q, a);
    }
  }

  /** Three teaspoons are one tablespoon. */
  lemma TeaspoonsToTablespoon()
    ensures ConvertUnit(3.0, "tsp", "tbsp", None) == Ok(1.0)
  {
    SameSystemConversion(3.0, Tsp, Tbsp, None);
  }

  /** A cup is sixteen tablespoons. */
  lemma CupToTablespoons()
    ensures ConvertUnit(1.0, "cup", "tbsp", None) == Ok(16.0)
  {
    SameSystemConversion(1.0, Cup, Tbsp, None);
  }

  /** 250 g to kilograms and back is 250 g. */
  lemma GramsKilogramsRoundTrip()
    ensures ConvertUnit(ConvertUnit(250.0, "g", "kg", None).value, "kg", "g", None) == Ok(250.0)
  {
    SameSystemConversion(250.0, G, Kg, None);
    SameSystemConversion(0.25, Kg, G, None);
  }

  /** Changing measurement system without a (non-empty) ingredient name is an error. */
  lemma CrossSystemNeedsName(q: real, a: Unit, b: Unit, name: Option<string>)
    requires CrossSystem(a, b) && !HasName(name)
    ensures ConvertUnit(q, a.Name(), b.Name(), name) == Err(IngredientNameRequired)
  {
    ParseUnitName(a);
    ParseUnitName(b);
  }

  /** Across measurement systems, a named ingredient with a density goes to the density step. */
  lemma KnownUnitsWithDensity(q: real, a: Unit, b: Unit, name: string, density: real)
    requires !SameSystem(a, b)
    requires name != "" && LookupDensity(name) == Some(density)
    ensures ConvertKnownUnits(q, a, b, a.Name(), b.Name(), Some(name)) == ConvertWithDensity(q, a, b, a.Name(), b.Name(), density)
  {
  }

  /** Weight to volume divides the gram amount by the density. */
  lemma WeightToVolume(q: real, a: Unit, b: Unit, fromUnit: string, toUnit: string, density: real)
    requires IsWeight(a) && IsVolume(b) && density > 0.0
    ensures ConvertWithDensity(q, a, b, fromUnit, toUnit, density) == Ok(FromBase(VolumeOfWeight(ToBase(q, a), density), b))
  {
  }

  /** Volume to weight multiplies the millilitre amount by the density. */
  lemma VolumeToWeight(q: real, a: Unit, b: Unit, fromUnit: string, toUnit: string, density: real)
    requires IsVolume(a) && IsWeight(b) && density > 0.0
    ensures ConvertWithDensity(q, a, b, fromUnit, toUnit, density) == Ok(FromBase(WeightOfVolume(ToBase(q, a), density), b))
  {
  }

  /** A weight becomes a volume: grams divided by the density, expressed in the target unit. */
  lemma WeightToVolumeConversion(q: real, a: Unit, b: Unit, name: string, density: real)
    requires IsWeight(a) && IsVolume(b)
    requires name != "" && LookupDensity(name) == Some(density)
    ensures ConvertUnit(q, a.Name(), b.Name(), Some(name)) == Ok(FromBase(VolumeOfWeight(ToBase(q, a), density), b))
  {
    ConvertUnitOfNames(q, a, b, Some(name));
    KnownUnitsWithDensity(q, a, b, name, density);
    WeightToVolume(q, a, b, a.Name(), b.Name(), density);
  }

  /** A volume becomes a weight: millilitres times the density, expressed in the target unit. */
  lemma VolumeToWeightConversion(q: real, a: Unit, b: Unit, name: string, density: real)
    requires IsVolume(a) && IsWeight(b)
    requires name != "" && LookupDensity(name) == Some(density)
    ensures ConvertUnit(q, a.Name(), b.Name(), Some(name)) == Ok(FromBase(WeightOfVolume(ToBase(q, a), density), b))
  {
    ConvertUnitOfNames(q, a, b, Some(name));
    KnownUnitsWithDensity(q, a, b, name, density);
    VolumeToWeight(q, a, b, a.Name(), b.Name(), density);
  }

  /** With a known density, weight to volume and back (or the reverse) returns the quantity exactly. */
  lemma CrossSystemRoundTrip(q: real, a: Unit, b: Unit, name: string)
    requires CrossSystem(a, b)
    requires name != "" && LookupDensity(name).Some?
    ensures ConvertUnit(q, a.Name(), b.Name(), Some(name)).Ok?
    ensures ConvertUnit(ConvertUnit(q, a.Name(), b.Name(), Some(name)).value, b.Name(), a.Name(), Some(name)) == Ok(q)
  {
    var d := LookupDensity(name).value;
    var base := ToBase(q, a);
    if IsWeight(a) {
      WeightToVolumeConversion(q, a, b, name, d);
      VolumeToWeightConversion(FromBase(VolumeOfWeight(base, d), b), b, a, name, d);
      FromBaseToBase(VolumeOfWeight(base, d), b);
      DensityRoundTrip(base, d);
    } else {
      VolumeToWeightConversion(q, a, b, name, d);
      WeightToVolumeConversion(FromBase(WeightOfVolume(base, d), b), b, a, name, d);
      FromBaseToBase(WeightOfVolume(base, d), b);
      DensityRoundTrip(base, d);
    }
    ToBaseFromBase(q, a);
  }

  /** With a name and no density (exact or partial), the conversion fails naming the ingredient. */
  lemma UnknownDensityFails(q: real, a: Unit, b: Unit, name: string)
    requires CrossSystem(a, b)
    requires name != "" && LookupDensity(name).None?
    ensures ConvertUnit(q, a.Name(), b.Name(), Some(name)) == Err(NoDensityInformation(name))
  {
    ParseUnitName(a);
    ParseUnitName(b);
  }

  /** `pinch` and `piece` never convert to another unit, whatever the name. */
  lemma PseudoUnitsNeverConvert(q: real, a: string, b: string, name: Option<string>)
    requires a != b
    requires a in ["pinch", "piece"] || b in ["pinch", "piece"]
    ensures ConvertUnit(q, a, b, name).Err?
  {
  }

  /** "milk" is an exact key of the density table. */
  lemma MilkDensity(name: string)
    requires name == "milk"
    ensures LookupDensity(name) == Some(1.03)
  {
    assert Densities[6] == (name, 1.03);
    assert forall j :: 0 <= j < 6 ==> Densities[j].0 != name;
    FindExactKeyAt(Densities, name, 6);
  }

  /** 100 g of milk is 100 / 1.03 ml. */
  lemma MilkExample(name: string)
    requires name == "milk"
    ensures ConvertUnit(100.0, "g", "ml", Some(name)) == Ok(100.0 / 1.03)
  {
    MilkDensity(name);
    WeightToVolumeConversion(100.0, G, Ml, name, 1.03);
  }

  lemma BogusUnitExample()
    ensures ConvertUnit(1.0, "g", "tsp", None) == Err(IngredientNameRequired)
    ensures ConvertUnit(1.0, "g", "bogus", None) == Err(CannotConvert("g", "bogus"))
  {
    CrossSystemNeedsName(1.0, G, Tsp, None);
  }

  lemma LightBrownSugarNoExactKey(name: string)
    requires name == "light brown sugar"
    ensures FindExactKey(Densities, name).None?
  {
    assert forall j :: 0 <= j < |Densities| ==> |Densities[j].0| != |name|;
    FindExactKeySpec(Densities, name);
  }

  lemma LightBrownSugarIsLowercase(name: string)
    requires name == "light brown sugar"
    ensures Lower(name) == name
  {
  }

  lemma LightBrownSugarWithoutFlour(name: string)
    requires name == "light brown sugar"
    ensures !KeyOccursIn(name, Densities[0].0)
  {
    assert Lower(Densities[0].0) == "flour";
    NotContainsWithoutFirstChar(name, "flour");
  }

  lemma LightBrownSugarWithSugar(name: string)
    requires name == "light brown sugar"
    ensures KeyOccursIn(name, Densities[1].0)
  {
    assert Lower(Densities[1].0) == "sugar";
    assert OccursAt(name, "sugar", 12);
    ContainsIff(name, "sugar");
  }

  /**
   * "light brown sugar" has no exact key, and the partial match takes the
   * first key in table order: "sugar" comes before "brown sugar".
   */
  lemma LightBrownSugarExample(name: string)
    requires name == "light brown sugar"
    ensures LookupDensity(name) == Some(0.85)
  {
    LightBrownSugarNoExactKey(name);
    LightBrownSugarIsLowercase(name);
    LightBrownSugarWithoutFlour(name);
    LightBrownSugarWithSugar(name);
    FindPartialKeyAt(Densities, name, 1);
  }

  // ---------------------------------------------------------------------
  // optimizeUnit

  datatype Measure = Measure(quantity: real, unit: string)

  predicate IsWeightKey(s: string) {
    ParseUnit(s).Some? && IsWeight(ParseUnit(s).value)
  }

  predicate IsVolumeKey(s: string) {
    ParseUnit(s).Some? && IsVolume(ParseUnit(s).value)
  }

  /** `optimizeUnit`: g and kg, ml and l, swapped at the 1000 / 1 thresholds. */
  function OptimizeUnit(quantity: real, unit: string): (r: Measure)
    ensures r != Measure(quantity, unit) <==>
              || (unit == "g" && quantity >= 1000.0) || (unit == "kg" && quantity < 1.0)
              || (unit == "ml" && quantity >= 1000.0) || (unit == "l" && quantity < 1.0)
    ensures IsWeightKey(r.unit) <==> IsWeightKey(unit)
    ensures IsVolumeKey(r.unit) <==> IsVolumeKey(unit)
    ensures unit == "g" && quantity >= 1000.0 ==> r.unit == "kg"
    ensures unit == "kg" && quantity < 1.0 ==> r.unit == "g"
    ensures unit == "ml" && quantity >= 1000.0 ==> r.unit == "l"
    ensures unit == "l" && quantity < 1.0 ==> r.unit == "ml"
  {
    if unit !in ["g", "kg", "ml", "l"] then Measure(quantity, unit)
    else if unit == "g" && quantity >= 1000.0 then Measure(quantity / 1000.0, "kg")
    else if unit == "kg" && quantity < 1.0 then Measure(quantity * 1000.0, "g")
    else if unit == "ml" && quantity >= 1000.0 then Measure(quantity / 1000.0, "l")
    else if unit == "l" && quantity < 1.0 then Measure(quantity * 1000.0, "ml")
    else Measure(quantity, unit)
  }

  /** The optimised measure denotes the same amount: converting it back gives the original quantity. */
  lemma OptimizeUnitSameAmount(quantity: real, unit: string)
    ensures ConvertUnit(OptimizeUnit(quantity, unit).quantity, OptimizeUnit(quantity, unit).unit, unit, None)
            == Ok(quantity)
  {
    var r := OptimizeUnit(quantity, unit);
    if r.unit != unit {
      SameSystemConversion(r.quantity, ParseUnit(r.unit).value, ParseUnit(unit).value, None);
    }
  }

  /** Optimising an optimised measure changes nothing. */
  lemma OptimizeUnitIdempotent(quantity: real, unit: string)
    ensures OptimizeUnit(OptimizeUnit(quantity, unit).quantity, OptimizeUnit(quantity, unit).unit)
            == OptimizeUnit(quantity, unit)
  {
  }

  // ---------------------------------------------------------------------
  // formatQuantity and formatUnit

  /**
   * The text `formatQuantity` produces: an integer's digits, one of the
   * fraction glyphs, or a number with exactly one (non-zero) decimal,
   * `tenths / 10`.
   */
  datatype QuantityText = Whole(n: int) | Glyph(glyph: char) | OneDecimal(tenths: int)

  function GlyphValue(c: char): real {
    match c
    case '¼' => 0.25
    case '½' => 0.5
    case '¾' => 0.75
    case '⅓' => 1.0 / 3.0
    case '⅔' => 2.0 / 3.0
    case '⅕' => 0.2
    case '⅖' => 0.4
    case '⅗' => 0.6
    case '⅘' => 0.8
    case _ => 0.0
  }

  function Value(t: QuantityText): real {
    match t
    case Whole(n) => n as real
    case Glyph(c) => GlyphValue(c)
    case OneDecimal(tenths) => tenths as real / 10.0
  }

  function Abs(x: real): real {
    if x < 0.0 then -x else x
  }

  predicate IsInteger(x: real) {
    x == x.Floor as real
  }

  /** `toFixed(1)` as a count of tenths: the nearest, ties away from zero. */
  function ToFixed1(x: real): (tenths: int)
    ensures Abs(tenths as real / 10.0 - x) <= 0.05
  {
    if x < 0.0 then -Round(-x * 10.0) else Round(x * 10.0)
  }

  /** The test for one-third style glyphs: the two-decimal spelling, or within 0.01 of the fraction. */
  predicate NearFraction(q: real, spelled: real, fraction: real) {
    q == spelled || Abs(q - fraction) < 0.01
  }

  /** No fraction glyph applies to `q`. */
  predicate NoGlyph(q: real) {
    q != 0.25 && q != 0.5 && q != 0.75
    && !NearFraction(q, 0.33, 1.0 / 3.0) && !NearFraction(q, 0.67, 2.0 / 3.0)
    && !NearFraction(q, 0.2, 1.0 / 5.0) && !NearFraction(q, 0.4, 2.0 / 5.0)
    && !NearFraction(q, 0.6, 3.0 / 5.0) && !NearFraction(q, 0.8, 4.0 / 5.0)
  }

  /**
   * `formatQuantity`. The glyph windows are disjoint and contain no
   * integer, so each glyph case holds on its own, whatever its place in
   * the chain.
   */
  function FormatQuantity(quantity: real): (t: QuantityText)
    ensures IsInteger(quantity) ==> t == Whole(quantity.Floor)
    ensures quantity == 0.25 ==> t == Glyph('¼')
    ensures quantity == 0.5 ==> t == Glyph('½')
    ensures quantity == 0.75 ==> t == Glyph('¾')
    ensures NearFraction(quantity, 0.33, 1.0 / 3.0) ==> t == Glyph('⅓')
    ensures NearFraction(quantity, 0.67, 2.0 / 3.0) ==> t == Glyph('⅔')
    ensures NearFraction(quantity, 0.2, 1.0 / 5.0) ==> t == Glyph('⅕')
    ensures NearFraction(quantity, 0.4, 2.0 / 5.0) ==> t == Glyph('⅖')
    ensures NearFraction(quantity, 0.6, 3.0 / 5.0) ==> t == Glyph('⅗')
    ensures NearFraction(quantity, 0.8, 4.0 / 5.0) ==> t == Glyph('⅘')
    ensures t.Glyph? <==> !IsInteger(quantity) && !NoGlyph(quantity)
    ensures !IsInteger(quantity) && NoGlyph(quantity) ==>
              var tenths := ToFixed1(quantity);
              t == if tenths % 10 == 0 then Whole(tenths / 10) else OneDecimal(tenths)
    ensures t.Glyph? ==> 0.0 < quantity < 1.0 && Abs(quantity - GlyphValue(t.glyph)) < 0.01
    ensures t.OneDecimal? ==> t.tenths % 10 != 0
    ensures Abs(Value(t) - quantity) <= 0.05
  {
    if IsInteger(quantity) then Whole(quantity.Floor)
    else if quantity == 0.25 then Glyph('¼')
    else if quantity == 0.5 then Glyph('½')
    else if quantity == 0.75 then Glyph('¾')
    else if quantity == 0.33 || Abs(quantity - 1.0 / 3.0) < 0.01 then Glyph('⅓')
    else if quantity == 0.67 || Abs(quantity - 2.0 / 3.0) < 0.01 then Glyph('⅔')
    else if quantity == 0.2 || Abs(quantity - 1.0 / 5.0) < 0.01 then Glyph('⅕')
    else if quantity == 0.4 || Abs(quantity - 2.0 / 5.0) < 0.01 then Glyph('⅖')
    else if quantity == 0.6 || Abs(quantity - 3.0 / 5.0) < 0.01 then Glyph('⅗')
    else if quantity == 0.8 || Abs(quantity - 4.0 / 5.0) < 0.01 then Glyph('⅘')
    else
      var tenths := ToFixed1(quantity);
      if tenths % 10 == 0 then Whole(tenths / 10) else OneDecimal(tenths)
  }

  lemma FormatQuantityExamples()
    ensures FormatQuantity(2.0) == Whole(2)
    ensures FormatQuantity(0.5) == Glyph('½')
    ensures FormatQuantity(0.335) == Glyph('⅓')
    ensures FormatQuantity(0.795) == Glyph('⅘')
    ensures FormatQuantity(1.25) == OneDecimal(13)
    ensures FormatQuantity(2.96) == Whole(3)
  {
  }

  /** `formatUnit`; the quantity defaults to 1. */
  function FormatUnit(unit: string, quantity: real := 1.0): (s: string)
    ensures quantity == 1.0 ==> s == unit
    ensures s != unit <==> quantity != 1.0 && unit in ["piece", "pinch", "cup"]
    ensures s != unit ==> s == unit + (if unit == "pinch" then "es" else "s")
  {
    if quantity != 1.0 then
      match unit
      case "piece" => "pieces"
      case "pinch" => "pinches"
      case "cup" => "cups"
      case "tsp" => "tsp"
      case "tbsp" => "tbsp"
      case _ => unit
    else unit
  }

  // ---------------------------------------------------------------------
  // estimateCookingTime

  /**
   * `estimateCookingTime` of the conversion helpers: the original time
   * times the factor to the exponent of the time's bucket.
   */
  function EstimateCookingTime(m: MathLib, originalTime: real, scalingFactor: real): (t: real)
    ensures t == originalTime * m.pow(scalingFactor, CookingTimeExponent(originalTime))
  {
    if originalTime <= 20.0 then originalTime * m.pow(scalingFactor, 0.25)
    else if originalTime <= 45.0 then originalTime * m.pow(scalingFactor, 0.33)
    else originalTime * m.pow(scalingFactor, 0.5)
  }

  /** The exponent of the curve for an original time; the boundaries 20 and 45 are inclusive. */
  function CookingTimeExponent(originalTime: real): (e: real)
    ensures originalTime <= 20.0 ==> e == 0.25
    ensures 20.0 < originalTime <= 45.0 ==> e == 0.33
    ensures 45.0 < originalTime ==> e == 0.5
  {
    if originalTime <= 20.0 then 0.25 else if originalTime <= 45.0 then 0.33 else 0.5
  }

  lemma EstimateCookingTimeIdentity(m: MathLib, originalTime: real)
    requires Lawful(m)
    ensures EstimateCookingTime(m, originalTime, 1.0) == originalTime
  {
  }

  lemma MulLeftMonotone(t: real, a: real, b: real)
    requires t >= 0.0 && a <= b
    ensures t * a <= t * b
  {
    assert t * b - t * a == t * (b - a);
  }

  /** For a fixed original time, a larger factor never gives a shorter estimate. */
  lemma EstimateCookingTimeMonotone(m: MathLib, originalTime: real, f1: real, f2: real)
    requires Lawful(m)
    requires originalTime >= 0.0 && 0.0 < f1 <= f2
    ensures EstimateCookingTime(m, originalTime, f1) <= EstimateCookingTime(m, originalTime, f2)
  {
    var e := CookingTimeExponent(originalTime);
    assert m.pow(f1, e) <= m.pow(f2, e);
    MulLeftMonotone(originalTime, m.pow(f1, e), m.pow(f2, e));
  }

  /** A large item (over 45 minutes) scaled by 4 takes the square root: twice as long. */
  lemma EstimateCookingTimeLargeExample(m: MathLib)
    requires Lawful(m)
    ensures EstimateCookingTime(m, 50.0, 4.0) == 100.0
  {
    assert Square(2.0) == 4.0;
    assert m.pow(Square(2.0), 0.5) == 2.0;
  }

  // ---------------------------------------------------------------------
  // adjustTemperature

  datatype TemperatureUnit = Celsius | Fahrenheit

  /** Degrees per doubling of the pan area. */
  function DegreesPerDoubling(unit: TemperatureUnit): real {
    if unit == Celsius then 5.0 else 10.0
  }

  /**
   * `adjustTemperature`; the ratio must be positive (the source computes
   * `log2(1/ratio)`). Between 0.67 and 1.5 inclusive the temperature is
   * kept; outside that band it moves by the rounded number of degrees per
   * doubling (or halving) of the pan area.
   */
  function AdjustTemperature(m: MathLib, originalTemp: real, unit: TemperatureUnit, panSizeRatio: real): (t: real)
    requires panSizeRatio > 0.0
    ensures 0.67 <= panSizeRatio <= 1.5 ==> t == originalTemp
    ensures panSizeRatio > 1.5 ==> t == originalTemp + Round(DegreesPerDoubling(unit) * m.log2(panSizeRatio)) as real
    ensures panSizeRatio < 0.67 ==> t == originalTemp - Round(DegreesPerDoubling(unit) * m.log2(1.0 / panSizeRatio)) as real
  {
    if panSizeRatio > 1.5 || panSizeRatio < 0.67 then
      if panSizeRatio > 1.0 then
        if unit == Celsius then originalTemp + Round(5.0 * m.log2(panSizeRatio)) as real
        else originalTemp + Round(10.0 * m.log2(panSizeRatio)) as real
      else
        if unit == Celsius then originalTemp - Round(5.0 * m.log2(1.0 / panSizeRatio)) as real
        else originalTemp - Round(10.0 * m.log2(1.0 / panSizeRatio)) as real
    else originalTemp
  }

  /** A larger pan (ratio above 1.5) never lowers the temperature. */
  lemma AdjustTemperatureLargerPan(m: MathLib, originalTemp: real, unit: TemperatureUnit, panSizeRatio: real)
    requires Lawful(m)
    requires panSizeRatio > 1.5
    ensures AdjustTemperature(m, originalTemp, unit, panSizeRatio) >= originalTemp
  {
    RoundNonNegative(DegreesPerDoubling(unit) * m.log2(panSizeRatio));
  }

  /** A smaller pan (ratio below 0.67) never raises the temperature. */
  lemma AdjustTemperatureSmallerPan(m: MathLib, originalTemp: real, unit: TemperatureUnit, panSizeRatio: real)
    requires Lawful(m)
    requires 0.0 < panSizeRatio < 0.67
    ensures AdjustTemperature(m, originalTemp, unit, panSizeRatio) <= originalTemp
  {
    assert 1.0 / panSizeRatio > 1.0;
    RoundNonNegative(DegreesPerDoubling(unit) * m.log2(1.0 / panSizeRatio));
  }

  /**
   * A round pan from 20 to 25 cm (ratio 1.5625) warms a Celsius oven by 3
   * degrees. The range of `log2(1.5625)` (about 0.644) is a hypothesis of
   * the lemma: the laws of the maths library do not determine it.
   */
  lemma AdjustTemperatureExample(m: MathLib, originalTemp: real)
    requires 0.6 < m.log2(1.5625) < 0.7
    ensures AdjustTemperature(m, originalTemp, Celsius, 1.5625) == originalTemp + 3.0
    ensures AdjustTemperature(m, originalTemp, Celsius, 1.2) == originalTemp
  {
  }
}
