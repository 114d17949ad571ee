/**
 * A taco and the four constraint annotations on its two fields
 * (tacos/Taco.java). Validation collects every violation: the name checks
 * and the ingredient checks are independent.
 */
module Tacos {
  import opened Optional
  import opened Ingredients
  import opened Constraints
  import opened Text

  /** Taco(name, ingredients): either field may be null, and so may an element of the list. */
  datatype Taco = Taco(name: Option<string>, ingredients: Option<seq<Option<Ingredient>>>)

  /** One violated constraint of a taco, with the property it is reported on and its message. */
  datatype Violation = NameNull | NameTooShort | IngredientsNull | IngredientsEmpty {
    function Field(): string {
      if NameNull? || NameTooShort? then "name" else "ingredients"
    }

    function Message(): string {
      match this
      case NameNull => "Taco name cannot be null"
      case NameTooShort => "Name must be at least 5 characters long"
      case IngredientsNull => "Ingredients cannot be null"
      case IngredientsEmpty => "You must choose at least 1 ingredient"
    }
  }

  /** @NotNull and @Size(min=5) on name; the size check skips a null name and counts UTF-16 code units. */
  function NameViolations(name: Option<string>): (r: set<Violation>)
    ensures NameNull in r <==> name.None?
    ensures NameTooShort in r <==> (name.Some? && Utf16Length(name.value) < 5)
    ensures r <= {NameNull, NameTooShort}
  {
    (if NotNull(name) then {} else {NameNull})
    + (if MinLength(name, 5) then {} else {NameTooShort})
  }

  /** @NotNull and @Size(min=1) on ingredients; the size check skips a null list. */
  function IngredientViolations(ingredients: Option<seq<Option<Ingredient>>>): (r: set<Violation>)
    ensures IngredientsNull in r <==> ingredients.None?
    ensures IngredientsEmpty in r <==> (ingredients.Some? && |ingredients.value| == 0)
    ensures r <= {IngredientsNull, IngredientsEmpty}
  {
    (if NotNull(ingredients) then {} else {IngredientsNull})
    + (if MinCount(ingredients, 1) then {} else {IngredientsEmpty})
  }

  /** Every violation of a taco, name and ingredients together. */
  function TacoViolations(t: Taco): (r: set<Violation>)
    ensures r == {} <==> (t.name.Some? && Utf16Length(t.name.value) >= 5 && t.ingredients.Some? && |t.ingredients.value| >= 1)
  {
    NameViolations(t.name) + IngredientViolations(t.ingredients)
  }

  /** Each violation is reported on the property its annotation sits on, and no two share a message. */
  lemma ViolationsOnTheirField(t: Taco)
    ensures forall v :: v in NameViolations(t.name) ==> v.Field() == "name"
    ensures forall v :: v in IngredientViolations(t.ingredients) ==> v.Field() == "ingredients"
    ensures forall v: Violation, w: Violation :: v.Message() == w.Message() ==> v == w
  {
    forall v: Violation, w: Violation | v.Message() == w.Message() ensures v == w {
      assert v.Message()[0] == w.Message()[0] && v.Message()[1] == w.Message()[1];
    }
  }

  /** The new Taco() behind the design form: both fields null, so both null messages. */
  function EmptyTaco(): (t: Taco)
    ensures TacoViolations(t) == {NameNull, IngredientsNull}
  {
    Taco(None, None)
  }

  /** A null name yields its own message only: the size rule does not apply to null. */
  lemma NullNameOnlyNotNull(t: Taco)
    requires t.name.None?
    ensures NameNull in TacoViolations(t) && NameTooShort !in TacoViolations(t)
  {
  }

  /** The length boundary of the name: four code units fail, five pass. */
  lemma NameLengthBoundary(name: string)
    ensures Utf16Length(name) <= 4 ==> NameViolations(Some(name)) == {NameTooShort}
    ensures Utf16Length(name) >= 5 ==> NameViolations(Some(name)) == {}
  {
  }

  /** Within the Basic Multilingual Plane a code unit is a character: four characters fail, five pass. */
  lemma BmpNameBoundary(name: string)
    requires forall i :: 0 <= i < |name| ==> !Supplementary(name[i])
    ensures |name| <= 4 ==> NameViolations(Some(name)) == {NameTooShort}
    ensures |name| >= 5 ==> NameViolations(Some(name)) == {}
  {
    NameLengthBoundary(name);
  }

  /** Three characters above U+FFFF are six code units, so such a name is long enough. */
  lemma SupplementaryNameAccepted(name: string)
    requires |name| >= 3 && forall i :: 0 <= i < |name| ==> Supplementary(name[i])
    ensures NameViolations(Some(name)) == {}
  {
    NameLengthBoundary(name);
  }

  /** Three U+1F600 faces pass the size rule; three letters do not. */
  lemma ThreeFacesSample()
    ensures NameViolations(Some("\U{1F600}\U{1F600}\U{1F600}")) == {}
    ensures NameViolations(Some("abc")) == {NameTooShort}
  {
    SupplementaryNameAccepted("\U{1F600}\U{1F600}\U{1F600}");
    BmpNameBoundary("abc");
  }

  /** Three BMP characters and one above U+FFFF are five code units, so the name passes. */
  lemma MixedNameAccepted(bmp: string, c: char)
    requires |bmp| == 3 && (forall i :: 0 <= i < 3 ==> !Supplementary(bmp[i])) && Supplementary(c)
    ensures NameViolations(Some(bmp + [c])) == {}
  {
    Utf16Concat(bmp, [c]);
    NameLengthBoundary(bmp + [c]);
  }

  /** "abc" followed by U+1F600 passes the size rule, as in Java where it has length 5. */
  lemma MixedNameSample()
    ensures NameViolations(Some("abc\U{1F600}")) == {}
  {
    assert "abc\U{1F600}" == "abc" + ['\U{1F600}'];
    MixedNameAccepted("abc", '\U{1F600}');
  }

  /** An empty list fails the size rule and any non-empty list satisfies it. */
  lemma IngredientCountBoundary(ingredients: seq<Option<Ingredient>>)
    ensures |ingredients| == 0 ==> IngredientViolations(Some(ingredients)) == {IngredientsEmpty}
    ensures |ingredients| >= 1 ==> IngredientViolations(Some(ingredients)) == {}
  {
  }

  /**
   * Only nullness and lengths matter: tacos that agree on them have the same
   * violations, whatever the names and ingredients are.
   */
  lemma ViolationsDependOnlyOnShape(a: Taco, b: Taco)
    requires a.name.Some? == b.name.Some? && a.ingredients.Some? == b.ingredients.Some?
    requires a.name.Some? ==> Utf16Length(a.name.value) == Utf16Length(b.name.value)
    requires a.ingredients.Some? ==> |a.ingredients.value| == |b.ingredients.value|
    ensures TacoViolations(a) == TacoViolations(b)
  {
  }

  /** Elements are not checked: a list holding a null, or a duplicate, still passes. */
  lemma ElementsUnchecked(name: string, x: Ingredient)
    requires Utf16Length(name) >= 5
    ensures TacoViolations(Taco(Some(name), Some([None]))) == {}
    ensures TacoViolations(Taco(Some(name), Some([Some(x), Some(x)]))) == {}
  {
  }

  /** A name problem and an ingredient problem are both reported for one taco. */
  lemma BothFieldsReported(t: Taco)
    requires !(t.name.Some? && Utf16Length(t.name.value) >= 5)
    requires !(t.ingredients.Some? && |t.ingredients.value| >= 1)
    ensures |TacoViolations(t)| == 2
    ensures exists v, w :: v in TacoViolations(t) && w in TacoViolations(t) && v.Field() == "name" && w.Field() == "ingredients"
  {
    var v := OneNameViolation(t.name);
    var w := OneIngredientViolation(t.ingredients);
    assert TacoViolations(t) == {v, w} && v != w;
  }

  /** A name that fails has exactly one violation, on the name field. */
  lemma OneNameViolation(name: Option<string>) returns (v: Violation)
    requires !(name.Some? && Utf16Length(name.value) >= 5)
    ensures NameViolations(name) == {v} && v.Field() == "name"
  {
    v := if name.None? then NameNull else NameTooShort;
  }

  /** A list that fails has exactly one violation, on the ingredients field. */
  lemma OneIngredientViolation(ingredients: Option<seq<Option<Ingredient>>>) returns (w: Violation)
    requires !(ingredients.Some? && |ingredients.value| >= 1)
    ensures IngredientViolations(ingredients) == {w} && w.Field() == "ingredients"
  {
    w := if ingredients.None? then IngredientsNull else IngredientsEmpty;
  }
}
