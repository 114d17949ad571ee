/**
 * The taco design controller (tacos/web/DesignTacoController.java): the
 * ingredient catalog and its grouping by type for the view, the factories
 * for the session order and the form-backing taco, and the two handlers.
 */
module Design {
  import opened Ingredients
  import opened Text
  import opened Tacos
  import opened Orders

  /** The hard-coded ingredient list of addIngredientsToModel, in its order. */
  function Catalog(): seq<Ingredient> {
    [ Ingredient("FLTO", "Flour Tortilla", Wrap),
      Ingredient("COTO", "Corn Tortilla", Wrap),
      Ingredient("GRBF", "Ground Beef", Protein),
      Ingredient("CARN", "Carnitas", Protein),
      Ingredient("TMTO", "Diced Tomatoes", Veggies),
      Ingredient("LETC", "Lettuce", Veggies),
      Ingredient("CHED", "Cheddar", Cheese),
      Ingredient("JACK", "Monterrey Jack", Cheese),
      Ingredient("SLSA", "Salsa", Sauce),
      Ingredient("SRCR", "Sour Cream", Sauce) ]
  }

  /** filterByType: the ingredients of the given type, in their original relative order. */
  function FilterByType(xs: seq<Ingredient>, t: IngredientType): (r: seq<Ingredient>)
    ensures |r| <= |xs|
    ensures forall i :: 0 <= i < |r| ==> r[i].kind == t
  {
    if xs == [] then []
    else if xs[0].kind == t then [xs[0]] + FilterByType(xs[1..], t)
    else FilterByType(xs[1..], t)
  }

  /** The filter keeps exactly the elements of the given type. */
  lemma {:induction false} FilterMembership(xs: seq<Ingredient>, t: IngredientType)
    ensures forall x :: x in FilterByType(xs, t) <==> x in xs && x.kind == t
  {
    if xs != [] {
      FilterMembership(xs[1..], t);
      assert xs == [xs[0]] + xs[1..];
    }
  }

  /** Filtering distributes over concatenation, so relative order is kept. */
  lemma {:induction false} FilterConcat(xs: seq<Ingredient>, ys: seq<Ingredient>, t: IngredientType)
    ensures FilterByType(xs + ys, t) == FilterByType(xs, t) + FilterByType(ys, t)
  {
    if xs != [] {
      assert (xs + ys)[1..] == xs[1..] + ys;
      FilterConcat(xs[1..], ys, t);
    } else {
      assert xs + ys == ys;
    }
  }

  /** Filtering keeps each element of the right type exactly as often as it occurs. */
  lemma {:induction false} FilterMultiplicity(xs: seq<Ingredient>, t: IngredientType, x: Ingredient)
    ensures multiset(FilterByType(xs, t))[x] == if x.kind == t then multiset(xs)[x] else 0
  {
    if xs != [] {
      FilterMultiplicity(xs[1..], t, x);
      assert xs == [xs[0]] + xs[1..];
    }
  }

  /** Filtering a two-element list. */
  lemma FilterPair(a: Ingredient, b: Ingredient, t: IngredientType)
    ensures FilterByType([a, b], t) == (if a.kind == t then [a] else []) + (if b.kind == t then [b] else [])
  {
    assert [a, b][1..] == [b];
    assert [b][1..] == [];
  }

  /** The sizes of the five groups add up to the size of the list. */
  function GroupSizes(xs: seq<Ingredient>): nat {
    |FilterByType(xs, Wrap)| + |FilterByType(xs, Protein)| + |FilterByType(xs, Veggies)|
    + |FilterByType(xs, Cheese)| + |FilterByType(xs, Sauce)|
  }

  /**
   * The groups partition the list: distinct types share no element, every
   * element lies in its own type's group, and the sizes add up.
   */
  lemma {:induction false} GroupsPartition(xs: seq<Ingredient>)
    ensures forall s, t, x :: s != t && x in FilterByType(xs, s) ==> x !in FilterByType(xs, t)
    ensures forall x :: x in xs ==> x in FilterByType(xs, x.kind)
    ensures GroupSizes(xs) == |xs|
  {
    forall t {
      FilterMembership(xs, t);
    }
    GroupSizesAddUp(xs);
  }

  lemma {:induction false} GroupSizesAddUp(xs: seq<Ingredient>)
    ensures GroupSizes(xs) == |xs|
  {
    if xs != [] {
      GroupSizesAddUp(xs[1..]);
    }
  }

  /** The catalog holds ten ingredients with distinct ids. */
  lemma CatalogIdsDistinct()
    ensures |Catalog()| == 10
    ensures forall i, j :: 0 <= i < j < |Catalog()| ==> Catalog()[i].id != Catalog()[j].id
  {
    var c := Catalog();
    forall i, j | 0 <= i < j < 10 ensures c[i].id != c[j].id {
      assert |c[i].id| == |c[j].id| == 4;
      assert c[i].id[0] != c[j].id[0] || c[i].id[1] != c[j].id[1];
    }
  }

  /** Each type owns two consecutive entries of the catalog, in declaration order of the types. */
  lemma CatalogGroup(t: IngredientType)
    ensures FilterByType(Catalog(), t) == Catalog()[2 * Ordinal(t)..2 * Ordinal(t) + 2]
  {
    var c := Catalog();
    assert PairedLayout(c);
    PairedGroups(c, t);
  }

  /** Ten ingredients laid out two per type, in the declaration order of the types. */
  predicate PairedLayout(c: seq<Ingredient>) {
    |c| == 10 && forall i :: 0 <= i < 10 ==> c[i].kind == TypeValues()[i / 2]
  }

  /** In a paired layout, the group of the k-th type is the k-th pair. */
  lemma PairedGroups(c: seq<Ingredient>, t: IngredientType)
    requires PairedLayout(c)
    ensures FilterByType(c, t) == c[2 * Ordinal(t)..2 * Ordinal(t) + 2]
  {
    var k := Ordinal(t);
    OutsidePairOtherTypes(c, k);
    assert c[2 * k].kind == t && c[2 * k + 1].kind == t;
    GroupIsPair(c, 2 * k, t);
  }

  /** The two entries at i and i + 1 are the only ones of type t, so they are its group. */
  lemma GroupIsPair(c: seq<Ingredient>, i: nat, t: IngredientType)
    requires i + 2 <= |c| && c[i].kind == t && c[i + 1].kind == t
    requires forall x :: x in c[..i] ==> x.kind != t
    requires forall x :: x in c[i + 2..] ==> x.kind != t
    ensures FilterByType(c, t) == c[i..i + 2]
  {
    var pre, mid, post := c[..i], c[i..i + 2], c[i + 2..];
    SplitThree(c, i, i + 2);
    FilterConcat(pre + mid, post, t);
    FilterConcat(pre, mid, t);
    FilterNone(pre, t);
    FilterNone(post, t);
    PairSlice(c, i);
    FilterPair(c[i], c[i + 1], t);
  }

  lemma SplitThree<T>(c: seq<T>, i: nat, j: nat)
    requires i <= j <= |c|
    ensures c == c[..i] + c[i..j] + c[j..]
  {
  }

  lemma PairSlice<T>(c: seq<T>, i: nat)
    requires i + 2 <= |c|
    ensures c[i..i + 2] == [c[i], c[i + 1]]
  {
  }

  lemma OutsidePairOtherTypes(c: seq<Ingredient>, k: nat)
    requires PairedLayout(c) && k < 5
    ensures forall x :: x in c[..2 * k] ==> x.kind != TypeValues()[k]
    ensures forall x :: x in c[2 * k + 2..] ==> x.kind != TypeValues()[k]
  {
    forall x | x in c[..2 * k] ensures x.kind != TypeValues()[k] {
      var i :| 0 <= i < 2 * k && c[..2 * k][i] == x;
      assert x == c[i] && i / 2 < k;
    }
    forall x | x in c[2 * k + 2..] ensures x.kind != TypeValues()[k] {
      var i :| 0 <= i < 10 - (2 * k + 2) && c[2 * k + 2..][i] == x;
      assert x == c[2 * k + 2 + i] && (2 * k + 2 + i) / 2 > k;
    }
  }

  /** A list with no element of the type filters to nothing. */
  lemma {:induction false} FilterNone(xs: seq<Ingredient>, t: IngredientType)
    requires forall x :: x in xs ==> x.kind != t
    ensures FilterByType(xs, t) == []
  {
    if xs != [] {
      assert forall x :: x in xs[1..] ==> x in xs;
      FilterNone(xs[1..], t);
    }
  }

  /** Two ingredients of each of the five types. */
  lemma TwoOfEachType(t: IngredientType)
    ensures |FilterByType(Catalog(), t)| == 2
  {
    CatalogGroup(t);
  }

  /** The model attribute for a type: its name lower-cased ("wrap", "protein", ...). */
  function AttributeName(t: IngredientType): string {
    ToLower(TypeName(t))
  }

  /** Lower-casing keeps the names apart, so every group gets an attribute of its own. */
  lemma AttributeNamesDistinct(s: IngredientType, t: IngredientType)
    ensures AttributeName(s) == AttributeName(t) <==> s == t
  {
    if AttributeName(s) == AttributeName(t) {
      assert TypeName(s) == TypeName(t) by {
        forall i | 0 <= i < |TypeName(s)|
          ensures TypeName(s)[i] == TypeName(t)[i]
        {
          assert LowerChar(TypeName(s)[i]) == LowerChar(TypeName(t)[i]);
        }
      }
      TypeNameInjective(s, t);
    }
  }

  /** The five attribute names as the view reads them. */
  lemma AttributeNameValues(t: IngredientType)
    ensures AttributeName(t) == match t
      case Wrap => "wrap"
      case Protein => "protein"
      case Veggies => "veggies"
      case Cheese => "cheese"
      case Sauce => "sauce"
  {
    match t
    case Wrap => LowerMatches("WRAP", "wrap");
    case Protein => LowerMatches("PROTEIN", "protein");
    case Veggies => LowerMatches("VEGGIES", "veggies");
    case Cheese => LowerMatches("CHEESE", "cheese");
    case Sauce => LowerMatches("SAUCE", "sauce");
  }

  /** Lower-casing an upper-case word, given its lower-case spelling letter by letter. */
  lemma LowerMatches(upper: string, lower: string)
    requires |upper| == |lower|
    requires forall i :: 0 <= i < |upper| ==> 'A' <= upper[i] <= 'Z' && lower[i] as int == upper[i] as int + 32
    ensures ToLower(upper) == lower
  {
    var r := ToLower(upper);
    forall i | 0 <= i < |upper| ensures r[i] == lower[i] {
      assert r[i] == LowerChar(upper[i]);
    }
  }

  /** The attribute names of a sequence of types. */
  function AttributeNames(ts: seq<IngredientType>): set<string> {
    set t | t in ts :: AttributeName(t)
  }

  lemma AttributeNamesSnoc(ts: seq<IngredientType>, t: IngredientType)
    ensures AttributeNames(ts + [t]) == AttributeNames(ts) + {AttributeName(t)}
  {
    assert forall u :: u in ts + [t] <==> u in ts || u == t;
  }

  /**
   * addIngredientsToModel: for each type in declaration order, put the
   * catalog's ingredients of that type under the lower-cased type name;
   * attributes under other names are left as they were.
   */
  method AddIngredientsToModel(model: map<string, seq<Ingredient>>) returns (m: map<string, seq<Ingredient>>)
    ensures forall t :: AttributeName(t) in m && m[AttributeName(t)] == FilterByType(Catalog(), t)
    ensures m.Keys == model.Keys + AttributeNames(TypeValues())
    ensures forall k :: k in model && k !in AttributeNames(TypeValues()) ==> m[k] == model[k]
  {
    var ingredients := Catalog();
    m := AddGroups(ingredients, model);
  }

  /** Every type of ts has its group of ingredients under its attribute name. */
  predicate Grouped(m: map<string, seq<Ingredient>>, ingredients: seq<Ingredient>, ts: seq<IngredientType>) {
    forall j :: 0 <= j < |ts| ==> AttributeName(ts[j]) in m && m[AttributeName(ts[j])] == FilterByType(ingredients, ts[j])
  }

  /** m is model with the attribute names of ts added and nothing else changed. */
  predicate Extends(m: map<string, seq<Ingredient>>, model: map<string, seq<Ingredient>>, ts: seq<IngredientType>) {
    && m.Keys == model.Keys + AttributeNames(ts)
    && forall k :: k in model && k !in AttributeNames(ts) ==> m[k] == model[k]
  }

  lemma PutKeepsGroups(m: map<string, seq<Ingredient>>, ingredients: seq<Ingredient>, ts: seq<IngredientType>, t: IngredientType)
    requires Grouped(m, ingredients, ts)
    requires forall j :: 0 <= j < |ts| ==> AttributeName(ts[j]) != AttributeName(t)
    ensures Grouped(m[AttributeName(t) := FilterByType(ingredients, t)], ingredients, ts + [t])
  {
    var key := AttributeName(t);
    var m' := m[key := FilterByType(ingredients, t)];
    var ts' := ts + [t];
    forall j | 0 <= j < |ts'|
      ensures AttributeName(ts'[j]) in m' && m'[AttributeName(ts'[j])] == FilterByType(ingredients, ts'[j])
    {
      if j < |ts| {
        var k := AttributeName(ts[j]);
        assert ts'[j] == ts[j];
        assert k != key && k in m;
        assert m'[k] == m[k];
      }
    }
  }

  lemma PutExtends(m: map<string, seq<Ingredient>>, model: map<string, seq<Ingredient>>, ts: seq<IngredientType>, t: IngredientType, g: seq<Ingredient>)
    requires Extends(m, model, ts)
    ensures Extends(m[AttributeName(t) := g], model, ts + [t])
  {
    AttributeNamesSnoc(ts, t);
    PutKey(m, model, AttributeNames(ts), AttributeName(t), g);
  }

  /** Putting one more key: the added names grow by that key and no other entry of model changes. */
  lemma PutKey(m: map<string, seq<Ingredient>>, model: map<string, seq<Ingredient>>, names: set<string>, key: string, g: seq<Ingredient>)
    requires m.Keys == model.Keys + names
    requires forall k :: k in model && k !in names ==> m[k] == model[k]
    ensures m[key := g].Keys == model.Keys + (names + {key})
    ensures forall k :: k in model && k !in names + {key} ==> m[key := g][k] == model[k]
  {
  }

  lemma TakeSnoc<T>(s: seq<T>, i: nat)
    requires i < |s|
    ensures s[..i + 1] == s[..i] + [s[i]]
  {
  }

  /** The loop of addIngredientsToModel, instantiated with Type.values(). */
  method AddGroups(ingredients: seq<Ingredient>, model: map<string, seq<Ingredient>>) returns (m: map<string, seq<Ingredient>>)
    ensures forall t :: AttributeName(t) in m && m[AttributeName(t)] == FilterByType(ingredients, t)
    ensures m.Keys == model.Keys + AttributeNames(TypeValues())
    ensures forall k :: k in model && k !in AttributeNames(TypeValues()) ==> m[k] == model[k]
  {
    var types := TypeValues();
    forall j, k | 0 <= j < k < |types| ensures AttributeName(types[j]) != AttributeName(types[k]) {
      AttributeNamesDistinct(types[j], types[k]);
    }
    m := PutGroups(ingredients, types, model);
    forall t ensures AttributeName(t) in m && m[AttributeName(t)] == FilterByType(ingredients, t) {
      assert types[Ordinal(t)] == t;
    }
  }

  /**
   * The loop itself: for each type of types in turn, put its group under its
   * attribute name. The names must be distinct, as those of Type.values() are.
   */
  method PutGroups(ingredients: seq<Ingredient>, types: seq<IngredientType>, model: map<string, seq<Ingredient>>) returns (m: map<string, seq<Ingredient>>)
    requires forall j, k :: 0 <= j < k < |types| ==> AttributeName(types[j]) != AttributeName(types[k])
    ensures Grouped(m, ingredients, types)
    ensures Extends(m, model, types)
  {
    m := model;
    for i := 0 to |types|
      invariant Grouped(m, ingredients, types[..i])
      invariant Extends(m, model, types[..i])
    {
      TakeSnoc(types, i);
      PutKeepsGroups(m, ingredients, types[..i], types[i]);
      PutExtends(m, model, types[..i], types[i], FilterByType(ingredients, types[i]));
      m := m[AttributeName(types[i]) := FilterByType(ingredients, types[i])];
    }
    assert types[..|types|] == types;
  }

  /** order(): the session's order when there is none yet; a new, empty TacoOrder. */
  method Order() returns (o: TacoOrder)
    ensures fresh(o)
    ensures o.tacos == [] && o.Details() == Unset
  {
    o := new TacoOrder();
  }

  /** taco(): the form-backing taco, with both fields null. */
  function NewTaco(): (t: Taco)
    ensures t.name.None? && t.ingredients.None?
  {
    EmptyTaco()
  }

  /** showDesignForm: always the design view. */
  method ShowDesignForm() returns (view: string)
    ensures view == "design"
  {
    view := "design";
  }

  /**
   * processTaco: with validation errors the design view comes back and the
   * order is left alone; otherwise the taco is appended once and the client
   * is sent to the current order.
   */
  method ProcessTaco(taco: Taco, errors: set<Tacos.Violation>, tacoOrder: TacoOrder) returns (view: string)
    modifies tacoOrder
    ensures errors != {} ==> view == "design" && tacoOrder.tacos == old(tacoOrder.tacos)
    ensures errors == {} ==> view == "redirect:/orders/current" && tacoOrder.tacos == old(tacoOrder.tacos) + [taco]
    ensures tacoOrder.Details() == old(tacoOrder.Details())
  {
    if errors != {} {
      return "design";
    }
    tacoOrder.AddTaco(taco);
    return "redirect:/orders/current";
  }
}
