/**
 * The id-to-ingredient converter that data binding uses for the design form
 * (tacos/web/IngredientByIdConverter.java). Its constructor fills a hash map
 * with the same ten ingredients the design controller lists; convert is a
 * plain lookup that yields null for an id it does not know.
 */
module Converter {
  import opened Optional
  import opened Ingredients
  import opened Design

  /** The map that successive put(x.id, x) calls build from an empty map; a later put replaces an earlier one. */
  function ById(xs: seq<Ingredient>): map<string, Ingredient> {
    if xs == [] then map[]
    else ById(xs[..|xs| - 1])[xs[|xs| - 1].id := xs[|xs| - 1]]
  }

  /** The ids of a list of ingredients. */
  function Ids(xs: seq<Ingredient>): set<string> {
    set x | x in xs :: x.id
  }

  /** The keys are exactly the ids that were put. */
  lemma {:induction false} ByIdKeys(xs: seq<Ingredient>)
    ensures ById(xs).Keys == Ids(xs)
  {
    if xs != [] {
      var init, last := xs[..|xs| - 1], xs[|xs| - 1];
      ByIdKeys(init);
      assert xs == init + [last];
      assert forall x :: x in xs <==> x in init || x == last;
    }
  }

  /** Every entry is one of the ingredients that were put, stored under its own id. */
  lemma {:induction false} ByIdEntries(xs: seq<Ingredient>)
    ensures forall k :: k in ById(xs) ==> ById(xs)[k].id == k && ById(xs)[k] in xs
  {
    if xs != [] {
      var init, last := xs[..|xs| - 1], xs[|xs| - 1];
      ByIdEntries(init);
      assert forall x :: x in init ==> x in xs;
    }
  }

  /** With distinct ids no put overwrites another, so every ingredient is found under its id. */
  lemma {:induction false} ByIdFindsEach(xs: seq<Ingredient>)
    requires forall i, j :: 0 <= i < j < |xs| ==> xs[i].id != xs[j].id
    ensures forall i :: 0 <= i < |xs| ==> xs[i].id in ById(xs) && ById(xs)[xs[i].id] == xs[i]
  {
    if xs != [] {
      var init := xs[..|xs| - 1];
      ByIdFindsEach(init);
      forall i | 0 <= i < |xs| ensures xs[i].id in ById(xs) && ById(xs)[xs[i].id] == xs[i] {
        if i < |xs| - 1 {
          assert init[i] == xs[i];
        }
      }
    }
  }

  /** With distinct ids, the keys whose entry has a given type are the ids of that type's filtered group. */
  lemma ByIdOfType(xs: seq<Ingredient>, t: IngredientType)
    requires forall i, j :: 0 <= i < j < |xs| ==> xs[i].id != xs[j].id
    ensures (set k | k in ById(xs) && ById(xs)[k].kind == t) == Ids(FilterByType(xs, t))
  {
    var m := ById(xs);
    ByIdEntries(xs);
    ByIdFindsEach(xs);
    FilterMembership(xs, t);
    forall k | k in m && m[k].kind == t ensures k in Ids(FilterByType(xs, t)) {
      assert m[k] in FilterByType(xs, t);
    }
    forall k | k in Ids(FilterByType(xs, t)) ensures k in m && m[k].kind == t {
      var x :| x in FilterByType(xs, t) && x.id == k;
      var i :| 0 <= i < |xs| && xs[i] == x;
    }
  }

  /** Each type's group in the catalog has two distinct ids. */
  lemma GroupIdsCount(t: IngredientType)
    ensures |Ids(FilterByType(Catalog(), t))| == 2
  {
    CatalogIdsDistinct();
    assert PairedLayout(Catalog());
    LayoutGroupIds(Catalog(), t);
  }

  /** In a paired layout with distinct ids, each group holds two ids. */
  lemma LayoutGroupIds(c: seq<Ingredient>, t: IngredientType)
    requires PairedLayout(c)
    requires forall i, j :: 0 <= i < j < |c| ==> c[i].id != c[j].id
    ensures |Ids(FilterByType(c, t))| == 2
  {
    var k := 2 * Ordinal(t);
    PairedGroups(c, t);
    assert c[k].id != c[k + 1].id;
    PairIds(c, k, FilterByType(c, t));
  }

  lemma PairIds(c: seq<Ingredient>, k: nat, g: seq<Ingredient>)
    requires k + 2 <= |c| && g == c[k..k + 2] && c[k].id != c[k + 1].id
    ensures |Ids(g)| == 2
  {
    assert g == [c[k], c[k + 1]];
    assert Ids(g) == {c[k].id, c[k + 1].id};
  }

  class IngredientByIdConverter {
    var ingredientMap: map<string, Ingredient>

    /** The object invariant: the map holds the catalog, keyed by id. */
    predicate Valid()
      reads this
    {
      ingredientMap == ById(Catalog())
    }

    /** The ten puts of the constructor, in their order. */
    constructor ()
      ensures Valid()
    {
      var m: map<string, Ingredient> := map[];
      m := m["FLTO" := Ingredient("FLTO", "Flour Tortilla", Wrap)];
      m := m["COTO" := Ingredient("COTO", "Corn Tortilla", Wrap)];
      m := m["GRBF" := Ingredient("GRBF", "Ground Beef", Protein)];
      m := m["CARN" := Ingredient("CARN", "Carnitas", Protein)];
      m := m["TMTO" := Ingredient("TMTO", "Diced Tomatoes", Veggies)];
      m := m["LETC" := Ingredient("LETC", "Lettuce", Veggies)];
      m := m["CHED" := Ingredient("CHED", "Cheddar", Cheese)];
      m := m["JACK" := Ingredient("JACK", "Monterrey Jack", Cheese)];
      m := m["SLSA" := Ingredient("SLSA", "Salsa", Sauce)];
      m := m["SRCR" := Ingredient("SRCR", "Sour Cream", Sauce)];
      ingredientMap := m;
      CatalogById();
    }

    /**
     * convert(id): the catalog ingredient with that id, or null when the id
     * is not one of the catalog's.
     */
    function Convert(id: string): (r: Option<Ingredient>)
      reads this
      requires Valid()
      ensures r.Some? <==> id in Ids(Catalog())
      ensures r.Some? ==> r.value.id == id && r.value in Catalog()
    {
      ByIdKeys(Catalog());
      ByIdEntries(Catalog());
      if id in ingredientMap then Some(ingredientMap[id]) else None
    }

    /** Converting an ingredient's id gives back that very ingredient. */
    lemma ConvertInvertsId(x: Ingredient)
      requires Valid()
      requires x in Catalog()
      ensures Convert(x.id) == Some(x)
    {
      CatalogIdsDistinct();
      ByIdFindsEach(Catalog());
      var i :| 0 <= i < |Catalog()| && Catalog()[i] == x;
    }

    /** After construction the keys are exactly the ten catalog ids. */
    lemma KeysAreCatalogIds()
      requires Valid()
      ensures ingredientMap.Keys == {"FLTO", "COTO", "GRBF", "CARN", "TMTO", "LETC", "CHED", "JACK", "SLSA", "SRCR"}
      ensures ingredientMap.Keys == Ids(Catalog())
    {
      CatalogById();
      ByIdKeys(Catalog());
    }

    /** The ids of the entries of one type. */
    function KeysOfType(t: IngredientType): set<string>
      reads this
    {
      set k | k in ingredientMap && ingredientMap[k].kind == t
    }

    /** Each of the five types has exactly two entries, the two of its group in the design view. */
    lemma TwoEntriesPerType(t: IngredientType)
      requires Valid()
      ensures KeysOfType(t) == Ids(FilterByType(Catalog(), t))
      ensures |KeysOfType(t)| == 2
    {
      CatalogIdsDistinct();
      ByIdOfType(Catalog(), t);
      GroupIdsCount(t);
    }

    /** Every ingredient the design view offers under a type converts back from its id. */
    lemma OfferedIngredientsConvert(t: IngredientType, x: Ingredient)
      requires Valid()
      requires x in FilterByType(Catalog(), t)
      ensures Convert(x.id) == Some(x)
    {
      FilterMembership(Catalog(), t);
      ConvertInvertsId(x);
    }

    /** The error path: an id outside the catalog converts to null. */
    lemma UnknownIdIsNull(id: string)
      requires Valid()
      requires forall x :: x in Catalog() ==> x.id != id
      ensures Convert(id) == None
    {
    }
  }

  /** The ten literal puts build the map of the catalog. */
  lemma CatalogById()
    ensures ById(Catalog()) == map[
      "FLTO" := Ingredient("FLTO", "Flour Tortilla", Wrap),
      "COTO" := Ingredient("COTO", "Corn Tortilla", Wrap),
      "GRBF" := Ingredient("GRBF", "Ground Beef", Protein),
      "CARN" := Ingredient("CARN", "Carnitas", Protein),
      "TMTO" := Ingredient("TMTO", "Diced Tomatoes", Veggies),
      "LETC" := Ingredient("LETC", "Lettuce", Veggies),
      "CHED" := Ingredient("CHED", "Cheddar", Cheese),
      "JACK" := Ingredient("JACK", "Monterrey Jack", Cheese),
      "SLSA" := Ingredient("SLSA", "Salsa", Sauce),
      "SRCR" := Ingredient("SRCR", "Sour Cream", Sauce)]
  {
    var c := Catalog();
    assert c[..10] == c;
    CatalogFirstFive();
    var m := ByIdStep(c, 6, map[
      "FLTO" := c[0], "COTO" := c[1], "GRBF" := c[2], "CARN" := c[3], "TMTO" := c[4]]);
    m := ByIdStep(c, 7, m);
    m := ByIdStep(c, 8, m);
    m := ByIdStep(c, 9, m);
    m := ByIdStep(c, 10, m);
  }

  /** The first five puts: the wraps, the proteins and the tomatoes. */
  lemma CatalogFirstFive()
    ensures ById(Catalog()[..5]) == map[
      "FLTO" := Catalog()[0], "COTO" := Catalog()[1], "GRBF" := Catalog()[2],
      "CARN" := Catalog()[3], "TMTO" := Catalog()[4]]
  {
    var c := Catalog();
    assert c[..0] == [];
    var m := ByIdStep(c, 1, map[]);
    m := ByIdStep(c, 2, m);
    m := ByIdStep(c, 3, m);
    m := ByIdStep(c, 4, m);
    m := ByIdStep(c, 5, m);
  }

  /** One more put: from the map of the first k - 1 ingredients to the map of the first k. */
  lemma ByIdStep(xs: seq<Ingredient>, k: nat, before: map<string, Ingredient>) returns (after: map<string, Ingredient>)
    requires 0 < k <= |xs| && ById(xs[..k - 1]) == before
    ensures after == before[xs[k - 1].id := xs[k - 1]] && ById(xs[..k]) == after
  {
    ByIdPrefix(xs, k);
    after := before[xs[k - 1].id := xs[k - 1]];
  }

  lemma ByIdPrefix(xs: seq<Ingredient>, k: nat)
    requires 0 < k <= |xs|
    ensures ById(xs[..k]) == ById(xs[..k - 1])[xs[k - 1].id := xs[k - 1]]
  {
    assert xs[..k][..k - 1] == xs[..k - 1];
  }
}
