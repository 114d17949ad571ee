/**
 * The order (tacos/TacoOrder.java): five delivery fields and three payment
 * fields, each with its constraint, and the list of tacos that addTaco grows
 * in place.
 */
module Orders {
  import opened Optional
  import opened Constraints
  import Tacos
  import Luhn

  /** The eight form fields of an order, as one value; null is None. */
  datatype OrderDetails = OrderDetails(
    deliveryName: Option<string>,
    deliveryStreet: Option<string>,
    deliveryCity: Option<string>,
    deliveryState: Option<string>,
    deliveryZip: Option<string>,
    ccNumber: Option<string>,
    ccExpiration: Option<string>,
    ccCVV: Option<string>)

  /** The fields of a new TacoOrder(): all null. */
  const Unset := OrderDetails(None, None, None, None, None, None, None, None)

  /** One violated constraint of an order, with the property it is reported on and its message. */
  datatype Violation =
    | NameRequired | StreetRequired | CityRequired | StateRequired | ZipRequired
    | CardInvalid | ExpirationInvalid | CvvInvalid
  {
    function Field(): string {
      match this
      case NameRequired => "deliveryName"
      case StreetRequired => "deliveryStreet"
      case CityRequired => "deliveryCity"
      case StateRequired => "deliveryState"
      case ZipRequired => "deliveryZip"
      case CardInvalid => "ccNumber"
      case ExpirationInvalid => "ccExpiration"
      case CvvInvalid => "ccCVV"
    }

    function Message(): string {
      match this
      case NameRequired => "Delivery name is required"
      case StreetRequired => "Street is required"
      case CityRequired => "City is required"
      case StateRequired => "State is required"
      case ZipRequired => "Zip code is required"
      case CardInvalid => "Not a valid credit card number"
      case ExpirationInvalid => "Must be formatted MM/YY"
      case CvvInvalid => "Invalid CVV"
    }
  }

  /** Each property carries one constraint, so a property names its violation, and no two messages coincide. */
  lemma FieldsAndMessagesDistinct()
    ensures forall v: Violation, w: Violation :: v.Field() == w.Field() ==> v == w
    ensures forall v: Violation, w: Violation :: v.Message() == w.Message() ==> v == w
  {
    forall v: Violation, w: Violation | v.Field() == w.Field() ensures v == w {
      assert v.Field()[2] == w.Field()[2] && v.Field()[|v.Field()| - 1] == w.Field()[|w.Field()| - 1];
    }
    forall v: Violation, w: Violation | v.Message() == w.Message() ensures v == w {
      assert v.Message()[0] == w.Message()[0] && v.Message()[1] == w.Message()[1];
    }
  }

  /** Whether the order's fields satisfy the constraint whose violation is v. */
  predicate Satisfies(d: OrderDetails, v: Violation) {
    match v
    case NameRequired => NotBlank(d.deliveryName)
    case StreetRequired => NotBlank(d.deliveryStreet)
    case CityRequired => NotBlank(d.deliveryCity)
    case StateRequired => NotBlank(d.deliveryState)
    case ZipRequired => NotBlank(d.deliveryZip)
    case CardInvalid => CardNumberValid(d.ccNumber)
    case ExpirationInvalid => ExpirationValid(d.ccExpiration)
    case CvvInvalid => CvvValid(d.ccCVV)
  }

  /** Every kind of order violation. */
  function AllViolations(): set<Violation> {
    {NameRequired, StreetRequired, CityRequired, StateRequired, ZipRequired, CardInvalid, ExpirationInvalid, CvvInvalid}
  }

  lemma AllViolationsListed(v: Violation)
    ensures v in AllViolations()
  {
    match v
    case NameRequired =>
    case StreetRequired =>
    case CityRequired =>
    case StateRequired =>
    case ZipRequired =>
    case CardInvalid =>
    case ExpirationInvalid =>
    case CvvInvalid =>
  }

  /** Every field constraint of the order holds. */
  predicate OrderValid(d: OrderDetails) {
    && NotBlank(d.deliveryName) && NotBlank(d.deliveryStreet) && NotBlank(d.deliveryCity)
    && NotBlank(d.deliveryState) && NotBlank(d.deliveryZip)
    && CardNumberValid(d.ccNumber) && ExpirationValid(d.ccExpiration) && CvvValid(d.ccCVV)
  }

  /**
   * All violations of an order's fields, collected together: one per failed
   * constraint. The taco list carries no constraint, so it is not an argument.
   */
  function OrderViolations(d: OrderDetails): (r: set<Violation>)
    ensures forall v :: v in r <==> !Satisfies(d, v)
    ensures r == {} <==> OrderValid(d)
  {
    var r := set v | v in AllViolations() && !Satisfies(d, v);
    assert forall v :: v in AllViolations() by {
      forall v ensures v in AllViolations() {
        AllViolationsListed(v);
      }
    }
    assert r == {} ==> OrderValid(d) by {
      if r == {} {
        assert !(NameRequired in r) && !(StreetRequired in r) && !(CityRequired in r) && !(StateRequired in r);
        assert !(ZipRequired in r) && !(CardInvalid in r) && !(ExpirationInvalid in r) && !(CvvInvalid in r);
      }
    }
    r
  }

  /** Two blank delivery fields are both reported by the same validation. */
  lemma MissingFieldsReportedTogether(d: OrderDetails)
    requires d.deliveryCity.None? && d.deliveryZip == Some("   ")
    ensures CityRequired in OrderViolations(d) && ZipRequired in OrderViolations(d)
  {
    NotBlankIff(d.deliveryZip);
  }

  /** A card number failing the Luhn check is reported whatever the other fields hold. */
  lemma BadCardAlwaysRejected(d: OrderDetails)
    requires d.ccNumber.Some? && !Luhn.LuhnValid(d.ccNumber.value)
    ensures CardInvalid in OrderViolations(d) && !OrderValid(d)
  {
  }

  /** The expiration samples reach the order's violations. */
  lemma ExpirationRejected(d: OrderDetails)
    requires d.ccExpiration == Some("13/25") || d.ccExpiration == Some("05/19")
    ensures ExpirationInvalid in OrderViolations(d)
  {
    ExpirationSamples();
  }

  /** A new order is invalid: all five delivery fields are null. */
  lemma UnsetOrderInvalid()
    ensures OrderViolations(Unset) == {NameRequired, StreetRequired, CityRequired, StateRequired, ZipRequired}
  {
    var r := OrderViolations(Unset);
    var delivery := {NameRequired, StreetRequired, CityRequired, StateRequired, ZipRequired};
    forall v ensures v in r <==> v in delivery {
      AllViolationsListed(v);
    }
  }

  /** A completely filled-in order with a Luhn-valid card passes; nothing is required of its tacos. */
  lemma SampleOrderValid()
    ensures OrderValid(SampleDetails())
  {
    SampleDeliveryFilled(SampleDetails());
    SamplePaymentValid(SampleDetails());
  }

  lemma SampleDeliveryFilled(d: OrderDetails)
    requires d == SampleDetails()
    ensures NotBlank(d.deliveryName) && NotBlank(d.deliveryStreet) && NotBlank(d.deliveryCity)
    ensures NotBlank(d.deliveryState) && NotBlank(d.deliveryZip)
  {
    VisibleFirst(d.deliveryName.value);
    VisibleFirst(d.deliveryStreet.value);
    VisibleFirst(d.deliveryCity.value);
    VisibleFirst(d.deliveryState.value);
    VisibleFirst(d.deliveryZip.value);
  }

  lemma VisibleFirst(s: string)
    requires |s| > 0 && s[0] > ' '
    ensures NotBlank(Some(s))
  {
    NotBlankIff(Some(s));
  }

  lemma SamplePaymentValid(d: OrderDetails)
    requires d == SampleDetails()
    ensures CardNumberValid(d.ccNumber) && ExpirationValid(d.ccExpiration) && CvvValid(d.ccCVV)
  {
    Luhn.VisaTestNumber();
    ExpirationSamples();
    Decimal.CvvUpToThreeDigits();
  }

  function SampleDetails(): OrderDetails {
    OrderDetails(Some("Jane Doe"), Some("1 Main St"), Some("Dallas"), Some("TX"), Some("75201"),
                 Some("4111111111111111"), Some("12/20"), Some("123"))
  }

  /** TacoOrder: Lombok's @Data gives a setter per field; tacos starts as an empty list. */
  class TacoOrder {
    var deliveryName: Option<string>
    var deliveryStreet: Option<string>
    var deliveryCity: Option<string>
    var deliveryState: Option<string>
    var deliveryZip: Option<string>
    var ccNumber: Option<string>
    var ccExpiration: Option<string>
    var ccCVV: Option<string>
    var tacos: seq<Tacos.Taco>

    /** The fields that validation looks at. */
    function Details(): OrderDetails
      reads this
    {
      OrderDetails(deliveryName, deliveryStreet, deliveryCity, deliveryState, deliveryZip,
                   ccNumber, ccExpiration, ccCVV)
    }

    /** new TacoOrder(): every field null and no tacos. */
    constructor ()
      ensures Details() == Unset && tacos == []
    {
      deliveryName, deliveryStreet, deliveryCity, deliveryState, deliveryZip := None, None, None, None, None;
      ccNumber, ccExpiration, ccCVV := None, None, None;
      tacos := [];
    }

    /** addTaco: appends to the list in place; earlier tacos and every other field are untouched. */
    method AddTaco(taco: Tacos.Taco)
      modifies this
      ensures tacos == old(tacos) + [taco]
      ensures Details() == old(Details())
    {
      tacos := tacos + [taco];
    }

    /** Data binding of the order form: the eight setters called with the submitted values. */
    method BindForm(form: OrderDetails)
      modifies this
      ensures Details() == form
      ensures tacos == old(tacos)
    {
      deliveryName, deliveryStreet, deliveryCity := form.deliveryName, form.deliveryStreet, form.deliveryCity;
      deliveryState, deliveryZip := form.deliveryState, form.deliveryZip;
      ccNumber, ccExpiration, ccCVV := form.ccNumber, form.ccExpiration, form.ccCVV;
    }
  }
}
