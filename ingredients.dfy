/**
 * The immutable ingredient value and its category enum
 * (tacos/Ingredient.java). Lombok's @Data gives the class getters for its
 * three final fields and structural equals; a Dafny datatype has exactly
 * that: destructors and equality by components.
 */
module Ingredients {

  /** Ingredient.Type; the constructors are listed in declaration order. */
  datatype IngredientType = Wrap | Protein | Veggies | Cheese | Sauce

  /** Ingredient(id, name, type); `type` is a Dafny keyword, so the field is `kind`. */
  datatype Ingredient = Ingredient(id: string, name: string, kind: IngredientType)

  /** Type.values(): every constant, in declaration order. */
  function TypeValues(): (r: seq<IngredientType>)
    ensures |r| == 5
    ensures forall i, j :: 0 <= i < j < |r| ==> r[i] != r[j]
  {
    [Wrap, Protein, Veggies, Cheese, Sauce]
  }

  /** The position of a constant in declaration order (Enum.ordinal()). */
  function Ordinal(t: IngredientType): (r: nat)
    ensures r < 5 && TypeValues()[r] == t
  {
    match t
    case Wrap => 0
    case Protein => 1
    case Veggies => 2
    case Cheese => 3
    case Sauce => 4
  }

  /** Every constant occurs in Type.values(). */
  lemma EveryTypeListed(t: IngredientType)
    ensures t in TypeValues()
  {
    assert TypeValues()[Ordinal(t)] == t;
  }

  /** Enum.toString(): the constant's declared name. */
  function TypeName(t: IngredientType): (r: string)
    ensures |r| > 0 && forall i :: 0 <= i < |r| ==> 'A' <= r[i] <= 'Z'
  {
    match t
    case Wrap => "WRAP"
    case Protein => "PROTEIN"
    case Veggies => "VEGGIES"
    case Cheese => "CHEESE"
    case Sauce => "SAUCE"
  }

  /** The generated constructor stores its arguments and the getters return them unchanged. */
  lemma ConstructorGetters(id: string, name: string, kind: IngredientType)
    ensures Ingredient(id, name, kind).id == id
    ensures Ingredient(id, name, kind).name == name
    ensures Ingredient(id, name, kind).kind == kind
  {
  }

  /** equals() from @Data: two ingredients are equal iff all three fields are. */
  lemma StructuralEquality(a: Ingredient, b: Ingredient)
    ensures a == b <==> (a.id == b.id && a.name == b.name && a.kind == b.kind)
  {
  }

  /** Distinct constants have distinct names, so toString() is injective on Type. */
  lemma TypeNameInjective(s: IngredientType, t: IngredientType)
    ensures TypeName(s) == TypeName(t) <==> s == t
  {
  }
}
