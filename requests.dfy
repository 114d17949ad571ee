/**
 * Whole requests, composed the way the framework runs them: resolve the
 * session's order, bind the submitted form (converting ingredient ids with
 * the converter), validate it, and call the handler with the violations.
 */
module Requests {
  import opened Optional
  import opened Ingredients
  import opened Tacos
  import opened Orders
  import opened Design
  import opened Converter
  import opened Sessions
  import Checkout
  import opened Text

  /** The tacos the session's order holds so far; none when the session holds no order. */
  function PendingTacos(s: Session): seq<Taco>
    reads s, s.tacoOrder
  {
    if s.tacoOrder == null then [] else s.tacoOrder.tacos
  }

  /** Each submitted id converted in turn; an unknown id becomes a null element. */
  function ConvertIds(c: IngredientByIdConverter, ids: seq<string>): (r: seq<Option<Ingredient>>)
    reads c
    requires c.Valid()
    ensures |r| == |ids|
    ensures forall i :: 0 <= i < |ids| ==> r[i] == c.Convert(ids[i])
  {
    if ids == [] then [] else ConvertIds(c, ids[..|ids| - 1]) + [c.Convert(ids[|ids| - 1])]
  }

  /** Binding the design form onto the Taco from taco(): a parameter that is absent leaves its field null. */
  function BindTaco(c: IngredientByIdConverter, name: Option<string>, ids: Option<seq<string>>): (t: Taco)
    reads c
    requires c.Valid()
    ensures t.name == name
    ensures t.ingredients.Some? <==> ids.Some?
    ensures ids.Some? ==> |t.ingredients.value| == |ids.value|
    ensures ids.Some? ==> forall i :: 0 <= i < |ids.value| ==> t.ingredients.value[i] == c.Convert(ids.value[i])
  {
    Taco(name, if ids.None? then None else Some(ConvertIds(c, ids.value)))
  }

  /**
   * GET /design: the ingredient groups go into the model, the session's order
   * is resolved (created if missing) and the design view is shown.
   */
  method DesignGet(session: Session) returns (view: string, model: map<string, seq<Ingredient>>, taco: Taco)
    modifies session
    ensures view == "design"
    ensures forall t :: AttributeName(t) in model && model[AttributeName(t)] == FilterByType(Catalog(), t)
    ensures model.Keys == AttributeNames(TypeValues())
    ensures taco == NewTaco()
    ensures session.tacoOrder != null && session.tacoOrder.tacos == old(PendingTacos(session))
    ensures old(session.tacoOrder) != null ==> session.tacoOrder == old(session.tacoOrder)
    ensures old(session.tacoOrder) == null ==> fresh(session.tacoOrder) && session.tacoOrder.Details() == Unset
  {
    model := AddIngredientsToModel(map[]);
    var order := session.Resolve();
    taco := NewTaco();
    view := ShowDesignForm();
  }

  /**
   * POST /design: the submitted taco is bound and validated; a valid one is
   * appended to the session's order and nothing else in the order changes.
   */
  method DesignPost(session: Session, c: IngredientByIdConverter, name: Option<string>, ids: Option<seq<string>>)
    returns (view: string, taco: Taco)
    requires c.Valid()
    modifies session, session.tacoOrder
    ensures taco == BindTaco(c, name, ids)
    ensures session.tacoOrder != null
    ensures old(session.tacoOrder) != null ==> session.tacoOrder == old(session.tacoOrder)
    ensures old(session.tacoOrder) == null ==> fresh(session.tacoOrder)
    ensures TacoViolations(taco) != {} ==> view == "design" && session.tacoOrder.tacos == old(PendingTacos(session))
    ensures TacoViolations(taco) == {} ==>
      view == "redirect:/orders/current" && session.tacoOrder.tacos == old(PendingTacos(session)) + [taco]
    ensures old(session.tacoOrder) != null ==> session.tacoOrder.Details() == old(session.tacoOrder.Details())
    ensures old(session.tacoOrder) == null ==> session.tacoOrder.Details() == Unset
  {
    var order := session.Resolve();
    taco := BindTaco(c, name, ids);
    view := ProcessTaco(taco, TacoViolations(taco), order);
  }

  /**
   * POST /orders: the form is bound onto the session's order and validated; a
   * valid order completes the session, an invalid one stays in it, holding
   * the submitted values and the same tacos.
   */
  method OrderPost(session: Session, form: OrderDetails) returns (view: string)
    modifies session, session.tacoOrder
    ensures OrderValid(form) ==> view == "redirect:/" && session.tacoOrder == null
    ensures !OrderValid(form) ==> view == "orderForm" && session.tacoOrder != null
    ensures !OrderValid(form) ==> session.tacoOrder.Details() == form && session.tacoOrder.tacos == old(PendingTacos(session))
    ensures !OrderValid(form) && old(session.tacoOrder) != null ==> session.tacoOrder == old(session.tacoOrder)
    ensures !OrderValid(form) && old(session.tacoOrder) == null ==> fresh(session.tacoOrder)
  {
    var order := session.Resolve();
    order.BindForm(form);
    view := Checkout.ProcessOrder(order, OrderViolations(order.Details()), session);
  }

  /** The submitted design form: the name parameter and the ingredient ids, either of which may be missing. */
  datatype DesignForm = DesignForm(name: Option<string>, ids: Option<seq<string>>)

  /** The form of the "Veggie Deluxe" walk-through. */
  function VeggieDeluxeForm(): DesignForm {
    DesignForm(Some("Veggie Deluxe"), Some(["COTO", "LETC", "CHED"]))
  }

  /** A form whose name is one letter short. */
  function ShortNameForm(): DesignForm {
    DesignForm(Some("Taco"), Some(["FLTO"]))
  }

  /** The taco of the "Veggie Deluxe" walk-through. */
  function VeggieDeluxe(): Taco {
    Taco(Some("Veggie Deluxe"), Some([Some(Ingredient("COTO", "Corn Tortilla", Wrap)),
                                     Some(Ingredient("LETC", "Lettuce", Veggies)),
                                     Some(Ingredient("CHED", "Cheddar", Cheese))]))
  }

  /** The design form with COTO, LETC and CHED binds to the Veggie Deluxe taco, ingredients in that order. */
  lemma VeggieDeluxeBinds(c: IngredientByIdConverter)
    requires c.Valid()
    ensures BindTaco(c, Some("Veggie Deluxe"), Some(["COTO", "LETC", "CHED"])) == VeggieDeluxe()
    ensures TacoViolations(VeggieDeluxe()) == {}
  {
    var cat := Catalog();
    c.ConvertInvertsId(cat[1]);
    c.ConvertInvertsId(cat[5]);
    c.ConvertInvertsId(cat[6]);
    ConvertThree(c, ["COTO", "LETC", "CHED"]);
    NameLengthBoundary("Veggie Deluxe");
    IngredientCountBoundary(VeggieDeluxe().ingredients.value);
  }

  lemma ConvertThree(c: IngredientByIdConverter, ids: seq<string>)
    requires c.Valid() && |ids| == 3
    ensures ConvertIds(c, ids) == [c.Convert(ids[0]), c.Convert(ids[1]), c.Convert(ids[2])]
  {
    var r := ConvertIds(c, ids);
    assert r == [r[0], r[1], r[2]];
  }

  /** A four-letter name is refused whatever ingredients come with it. */
  lemma ShortNameRefused(c: IngredientByIdConverter, name: string, ids: seq<string>)
    requires c.Valid()
    requires |name| == 4 && !Supplementary(name[0]) && !Supplementary(name[1])
    requires !Supplementary(name[2]) && !Supplementary(name[3])
    ensures NameTooShort in TacoViolations(BindTaco(c, Some(name), Some(ids)))
  {
    assert forall i :: 0 <= i < |name| ==> !Supplementary(name[i]);
    BmpNameBoundary(name);
  }

  /** An order whose expiration month is 13. */
  function BadExpiration(): OrderDetails {
    SampleDetails().(ccExpiration := Some("13/25"))
  }

  /** The two checkout forms of the visit below: month 13 is refused, the sample order is accepted. */
  lemma CheckoutForms()
    ensures !OrderValid(BadExpiration()) && OrderValid(SampleDetails())
  {
    ExpirationRejected(BadExpiration());
    SampleOrderValid();
  }

  /**
   * One customer's visit: design a taco, fail to submit a taco with a short
   * name, fail checkout with an invalid form, check out with a valid one, and
   * come back to the design page, which shows a fresh, empty order.
   */
  method Visit(c: IngredientByIdConverter, accepted: DesignForm, refused: DesignForm, bad: OrderDetails, good: OrderDetails)
    returns (views: seq<string>, kept: seq<Taco>, keptDetails: OrderDetails, next: seq<Taco>, nextDetails: OrderDetails)
    requires c.Valid()
    requires TacoViolations(BindTaco(c, accepted.name, accepted.ids)) == {} && TacoViolations(BindTaco(c, refused.name, refused.ids)) != {}
    requires !OrderValid(bad) && OrderValid(good)
    ensures views == ["design", "redirect:/orders/current", "design", "orderForm", "orderForm", "redirect:/", "design"]
    ensures kept == [BindTaco(c, accepted.name, accepted.ids)] && keptDetails == bad
    ensures next == [] && nextDetails == Unset
  {
    var session := new Session();
    var v1, v2, v3 := DesignTwoTacos(session, c, accepted, refused);
    var v4 := Checkout.OrderForm();
    var v5 := OrderPost(session, bad);
    kept, keptDetails := session.tacoOrder.tacos, session.tacoOrder.Details();
    var v6 := OrderPost(session, good);
    var v7, _, _ := DesignGet(session);
    next, nextDetails := session.tacoOrder.tacos, session.tacoOrder.Details();
    views := [v1, v2, v3, v4, v5, v6, v7];
  }

  /** The design forms of the walk-through: the Veggie Deluxe binds and is kept, "Taco" is refused. */
  lemma VisitForms(c: IngredientByIdConverter)
    requires c.Valid()
    ensures BindTaco(c, VeggieDeluxeForm().name, VeggieDeluxeForm().ids) == VeggieDeluxe()
    ensures TacoViolations(VeggieDeluxe()) == {}
    ensures TacoViolations(BindTaco(c, ShortNameForm().name, ShortNameForm().ids)) != {}
  {
    VeggieDeluxeBinds(c);
    ShortNameRefused(c, "Taco", ["FLTO"]);
  }

  /** The design half of the visit: the first GET creates the order, the accepted taco is kept and the refused one is not. */
  method DesignTwoTacos(session: Session, c: IngredientByIdConverter, accepted: DesignForm, refused: DesignForm)
    returns (v1: string, v2: string, v3: string)
    requires c.Valid() && session.tacoOrder == null
    requires TacoViolations(BindTaco(c, accepted.name, accepted.ids)) == {} && TacoViolations(BindTaco(c, refused.name, refused.ids)) != {}
    modifies session
    ensures v1 == "design" && v2 == "redirect:/orders/current" && v3 == "design"
    ensures session.tacoOrder != null && fresh(session.tacoOrder) && session.tacoOrder.tacos == [BindTaco(c, accepted.name, accepted.ids)]
  {
    var model, taco;
    v1, model, taco := DesignGet(session);
    v2 := PostAccepted(session, c, accepted.name, accepted.ids, BindTaco(c, accepted.name, accepted.ids));
    v3 := PostRefused(session, c, refused.name, refused.ids);
  }

  /** A design post whose taco binds to a valid one appends that taco to the session's order. */
  method PostAccepted(session: Session, c: IngredientByIdConverter, name: Option<string>, ids: Option<seq<string>>, expected: Taco)
    returns (view: string)
    requires c.Valid() && session.tacoOrder != null
    requires BindTaco(c, name, ids) == expected && TacoViolations(expected) == {}
    modifies session, session.tacoOrder
    ensures view == "redirect:/orders/current"
    ensures session.tacoOrder == old(session.tacoOrder) && session.tacoOrder.tacos == old(session.tacoOrder.tacos) + [expected]
  {
    var taco;
    view, taco := DesignPost(session, c, name, ids);
  }

  /** A design post whose taco has a violation leaves the session's order as it was. */
  method PostRefused(session: Session, c: IngredientByIdConverter, name: Option<string>, ids: Option<seq<string>>)
    returns (view: string)
    requires c.Valid() && session.tacoOrder != null
    requires TacoViolations(BindTaco(c, name, ids)) != {}
    modifies session, session.tacoOrder
    ensures view == "design"
    ensures session.tacoOrder == old(session.tacoOrder) && session.tacoOrder.tacos == old(session.tacoOrder.tacos)
  {
    var taco;
    view, taco := DesignPost(session, c, name, ids);
  }
}
