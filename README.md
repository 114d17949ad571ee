# Taco Cloud ordering workflow in Dafny

This project models the ordering workflow of the Taco Cloud example
application (chapter 2). A customer picks ingredients from a fixed catalog of
ten, names a taco and submits it. Each valid taco is appended to an order that
lives in the customer's session. At checkout the delivery and payment fields
are validated. A valid order ends the session's order, so the next visit
starts with a fresh, empty one.

The modules follow the Java sources:

- `Ingredients` (`Ingredient.java`): the immutable ingredient value and its `Type` enum.
- `Tacos` (`Taco.java`): a taco and its `@NotNull` / `@Size` constraints.
- `Orders` (`TacoOrder.java`): the order's eight form fields with their constraints, and the `TacoOrder` class whose `addTaco` appends in place.
- `Constraints`, `Text`, `Luhn`, `Decimal`: the Bean Validation constraints those classes use. As in Hibernate Validator, every constraint except `@NotNull` and `@NotBlank` accepts null. `@NotBlank` uses `String.trim()`. `@Pattern` is written out as a character-level check. `@Digits` follows the `BigDecimal` parser. `@CreditCardNumber` uses Hibernate's right-to-left Luhn sum, and that sum is proved equal to the left-to-right rule of ISO/IEC 7812-1, Annex B.
- `Design` (`web/DesignTacoController.java`): the catalog, `filterByType`, the `addIngredientsToModel` loop, `order()`, `taco()`, `showDesignForm` and `processTaco`.
- `Converter` (`web/IngredientByIdConverter.java`): the id-to-ingredient map filled by ten `put`s, and `convert`.
- `Sessions`: the `tacoOrder` session attribute, as one optional order in a `Session` class.
- `Checkout` (`web/OrderController.java`): `orderForm` and `processOrder`.
- `Requests`: whole requests composed as the framework runs them. Each one resolves the session's order, binds the form (converting ingredient ids), validates it and calls the handler. `Visit` walks one customer through the workflow.

Java `null` is `Option.None`. Validation returns a set of violations: one per failed constraint, all reported together. Each violation carries the field it is reported on and the message written in the annotation.

Where the code and its comments or annotations' names suggest different rules:

- The code is followed throughout.
- The comment on `ccCVV` says "exactly 3 digits". `@Digits(integer=3, fraction=0)` is an upper bound on the number of significant integer digits. So "12", "0123", "-12", "12." and "1E2" pass, while "1.0" and "1234" fail.
- The payment annotations accept null, so an order without payment data can pass checkout.
- Nothing constrains `tacos`, so an order with no taco can pass checkout too.

## Model

| member | source | states |
|---|---|---|
| Ingredients.TypeValues | exercises/taco-cloud-ch2/src/main/java/tacos/Ingredient.java:30-36 | `Type.values()` lists five distinct constants |
| Ingredients.Ordinal | exercises/taco-cloud-ch2/src/main/java/tacos/Ingredient.java:30-36 | each constant sits at its declaration position in `values()` |
| Ingredients.EveryTypeListed | exercises/taco-cloud-ch2/src/main/java/tacos/Ingredient.java:30-36 | every constant occurs in `values()` |
| Ingredients.TypeName | exercises/taco-cloud-ch2/src/main/java/tacos/Ingredient.java:30-36 | `toString()` of a constant is a non-empty upper-case name |
| Ingredients.TypeNameInjective | exercises/taco-cloud-ch2/src/main/java/tacos/Ingredient.java:30-36 | distinct constants have distinct names, in both directions |
| Ingredients.ConstructorGetters | exercises/taco-cloud-ch2/src/main/java/tacos/Ingredient.java:14-24 | the generated getters return the constructor's arguments |
| Ingredients.StructuralEquality | exercises/taco-cloud-ch2/src/main/java/tacos/Ingredient.java:14-24 | `@Data` equality: equal exactly when id, name and type are equal |
| Text.Utf16Length | exercises/taco-cloud-ch2/src/main/java/tacos/Taco.java:28 | `String.length()` in UTF-16 code units: a character above U+FFFF is two units and any other is one; between the number of characters and twice it |
| Text.Utf16Concat | exercises/taco-cloud-ch2/src/main/java/tacos/Taco.java:28 | the units of a concatenation are the sum of its parts; with the one-character case this fixes the count of every string |
| Text.Trim | exercises/taco-cloud-ch2/src/main/java/tacos/TacoOrder.java:29-58 | `String.trim()`: the characters up to U+0020 dropped from both ends (its meaning is stated by `Text.TrimNonEmptyIff`) |
| Text.TrimNonEmptyIff | exercises/taco-cloud-ch2/src/main/java/tacos/TacoOrder.java:29-30 | `trim()` leaves something exactly when some character is above U+0020 |
| Text.ToLower | exercises/taco-cloud-ch2/src/main/java/tacos/web/DesignTacoController.java:62 | lower-casing keeps the length and maps each character on its own |
| Constraints.NotNull | exercises/taco-cloud-ch2/src/main/java/tacos/Taco.java:27-39 | `@NotNull`: the value is not null |
| Constraints.MinLength | exercises/taco-cloud-ch2/src/main/java/tacos/Taco.java:28 | `@Size(min=m)` on a String: null passes, otherwise `length()` in UTF-16 code units is at least m |
| Constraints.MinCount | exercises/taco-cloud-ch2/src/main/java/tacos/Taco.java:38 | `@Size(min=m)` on a List: null passes, otherwise the list has at least m elements |
| Constraints.NotBlank | exercises/taco-cloud-ch2/src/main/java/tacos/TacoOrder.java:29-58 | `@NotBlank`: not null and `trim()` leaves at least one character |
| Constraints.NotBlankIff | exercises/taco-cloud-ch2/src/main/java/tacos/TacoOrder.java:29-58 | `@NotBlank` holds iff the value is non-null and has a character above U+0020 |
| Constraints.ExpirationMatches | exercises/taco-cloud-ch2/src/main/java/tacos/TacoOrder.java:73-75 | the regular expression `^(0[1-9]|1[0-2])([\/])([2-9][0-9])$` matched against the whole value, one position at a time |
| Constraints.ExpirationValid | exercises/taco-cloud-ch2/src/main/java/tacos/TacoOrder.java:73-75 | `@Pattern` on ccExpiration: null passes, otherwise the whole value must match |
| Constraints.CardNumberValid | exercises/taco-cloud-ch2/src/main/java/tacos/TacoOrder.java:65-66 | `@CreditCardNumber`: null passes, otherwise the Luhn check |
| Constraints.CvvValid | exercises/taco-cloud-ch2/src/main/java/tacos/TacoOrder.java:81-82 | `@Digits(integer=3, fraction=0)` on ccCVV |
| Constraints.ExpirationMatchesIffMonthYear | exercises/taco-cloud-ch2/src/main/java/tacos/TacoOrder.java:73-75 | the MM/YY pattern matches exactly "two digits / two digits" with month 1 to 12 and year 20 to 99, both directions |
| Constraints.ExpirationSamples | exercises/taco-cloud-ch2/src/main/java/tacos/TacoOrder.java:73-75 | "13/25", "05/19", "00/25", "1/25", "12/205", "12-20" fail; "12/20" and "01/99" match |
| Luhn.RightSum | exercises/taco-cloud-ch2/src/main/java/tacos/TacoOrder.java:65-66 | Hibernate's Luhn sum, taken from the last digit to the first with every second digit doubled and its digits added |
| Luhn.CheckDigit | exercises/taco-cloud-ch2/src/main/java/tacos/TacoOrder.java:65-66 | the check digit `(10 - sum % 10) % 10` of a payload, a single digit |
| Luhn.LuhnValid | exercises/taco-cloud-ch2/src/main/java/tacos/TacoOrder.java:65-66 | the Luhn check on a non-null value: not empty, digits only, and the last digit equals the check digit of the others |
| Luhn.LuhnValidIffIso | exercises/taco-cloud-ch2/src/main/java/tacos/TacoOrder.java:65-66 | the check-digit comparison accepts exactly the numbers whose ISO/IEC 7812-1 Annex B sum is a multiple of 10 |
| Luhn.IsoSumIsRightSum | exercises/taco-cloud-ch2/src/main/java/tacos/TacoOrder.java:65-66 | the left-to-right ISO sum equals the right-to-left sum |
| Luhn.CheckDigitMatchesIffMultipleOfTen | exercises/taco-cloud-ch2/src/main/java/tacos/TacoOrder.java:65-66 | digit c equals (10 - sum % 10) % 10 iff sum + c is a multiple of 10 |
| Luhn.VisaTestNumber | exercises/taco-cloud-ch2/src/main/java/tacos/TacoOrder.java:65-66 | 4111111111111111 passes and 4111111111111112 fails |
| Luhn.EdgeCases | exercises/taco-cloud-ch2/src/main/java/tacos/TacoOrder.java:65-66 | the empty string and a string with '-' fail; "0" passes |
| Decimal.Precision | exercises/taco-cloud-ch2/src/main/java/tacos/TacoOrder.java:81-82 | `BigDecimal.precision()` of the unscaled value: its number of decimal digits, so value < 10^r and, unless zero, 10^(r-1) <= value; 1 for zero |
| Decimal.ParseExponent | exercises/taco-cloud-ch2/src/main/java/tacos/TacoOrder.java:81-82 | the exponent of `new BigDecimal(s)`: some iff an optional sign is followed by at least one digit and nothing else |
| Decimal.ParseMantissa | exercises/taco-cloud-ch2/src/main/java/tacos/TacoOrder.java:81-82 | the digits before the exponent: an integer part, optionally a point and a fraction, with at least one digit; the precision and scale they give |
| Decimal.Parse | exercises/taco-cloud-ch2/src/main/java/tacos/TacoOrder.java:81-82 | `new BigDecimal(s)` reduced to precision and scale; a `NumberFormatException` is none |
| Decimal.DigitsValid | exercises/taco-cloud-ch2/src/main/java/tacos/TacoOrder.java:81-82 | `@Digits(integer, fraction)` on a String: null passes, a parse error fails, otherwise precision minus scale and the non-negative scale are bounded |
| Decimal.PlainDigitsValidIff | exercises/taco-cloud-ch2/src/main/java/tacos/TacoOrder.java:81-82 | a run of digits passes `@Digits(3,0)` iff at most three digits remain after leading zeros |
| Decimal.FractionRejected | exercises/taco-cloud-ch2/src/main/java/tacos/TacoOrder.java:81-82 | any fraction digit after a point fails `fraction=0` |
| Decimal.SignIgnored | exercises/taco-cloud-ch2/src/main/java/tacos/TacoOrder.java:81-82 | a leading sign changes neither precision nor scale |
| Decimal.TrailingPointIgnored | exercises/taco-cloud-ch2/src/main/java/tacos/TacoOrder.java:81-82 | digits followed by a bare point parse like the digits alone |
| Decimal.ExponentShift | exercises/taco-cloud-ch2/src/main/java/tacos/TacoOrder.java:81-82 | an exponent digit keeps the precision and lowers the scale by its value |
| Decimal.ExponentValidIff | exercises/taco-cloud-ch2/src/main/java/tacos/TacoOrder.java:81-82 | with one exponent digit, the CVV passes iff precision plus exponent is at most three |
| Decimal.CvvUpToThreeDigits | exercises/taco-cloud-ch2/src/main/java/tacos/TacoOrder.java:81-82 | "123", "12" and "7" all pass |
| Decimal.CvvSignSample | exercises/taco-cloud-ch2/src/main/java/tacos/TacoOrder.java:81-82 | a leading sign is ignored: "-12" passes |
| Decimal.CvvFourDigits | exercises/taco-cloud-ch2/src/main/java/tacos/TacoOrder.java:81-82 | "1234" fails; "0123" passes |
| Decimal.CvvPointSamples | exercises/taco-cloud-ch2/src/main/java/tacos/TacoOrder.java:81-82 | "12." passes; "1.0" fails |
| Decimal.CvvExponentSamples | exercises/taco-cloud-ch2/src/main/java/tacos/TacoOrder.java:81-82 | "1E2" passes; "1E3" fails |
| Decimal.CvvMalformedSamples | exercises/taco-cloud-ch2/src/main/java/tacos/TacoOrder.java:81-82 | "", "abc" and " 123" fail; null passes |
| Decimal.NotANumber | exercises/taco-cloud-ch2/src/main/java/tacos/TacoOrder.java:81-82 | text with no point or exponent that starts with neither a digit nor a sign is a parse error |
| Tacos.Violation.Field | exercises/taco-cloud-ch2/src/main/java/tacos/Taco.java:27-39 | the property each of the four taco constraints is reported on |
| Tacos.Violation.Message | exercises/taco-cloud-ch2/src/main/java/tacos/Taco.java:27-38 | the `message=` attribute of each of the four taco constraints |
| Tacos.ViolationsOnTheirField | exercises/taco-cloud-ch2/src/main/java/tacos/Taco.java:27-39 | name violations are reported on "name", list violations on "ingredients", and the four messages are distinct |
| Tacos.NameViolations | exercises/taco-cloud-ch2/src/main/java/tacos/Taco.java:27-29 | the null message iff the name is null; the size message iff it is non-null and shorter than 5 UTF-16 code units |
| Tacos.IngredientViolations | exercises/taco-cloud-ch2/src/main/java/tacos/Taco.java:37-39 | the null message iff the list is null; the size message iff it is non-null and empty |
| Tacos.TacoViolations | exercises/taco-cloud-ch2/src/main/java/tacos/Taco.java:27-39 | no violation iff the name has at least 5 UTF-16 code units and the list at least 1 element |
| Tacos.EmptyTaco | exercises/taco-cloud-ch2/src/main/java/tacos/Taco.java:27-39 | a taco with both fields null gets exactly the two null messages |
| Tacos.NullNameOnlyNotNull | exercises/taco-cloud-ch2/src/main/java/tacos/Taco.java:27-28 | a null name is reported by `@NotNull` only, not by `@Size` |
| Tacos.NameLengthBoundary | exercises/taco-cloud-ch2/src/main/java/tacos/Taco.java:28 | four code units fail and five pass |
| Tacos.BmpNameBoundary | exercises/taco-cloud-ch2/src/main/java/tacos/Taco.java:28 | for a name without characters above U+FFFF: four characters fail and five pass |
| Tacos.SupplementaryNameAccepted | exercises/taco-cloud-ch2/src/main/java/tacos/Taco.java:28 | three characters above U+FFFF are six code units, so the name passes |
| Tacos.ThreeFacesSample | exercises/taco-cloud-ch2/src/main/java/tacos/Taco.java:28 | three U+1F600 faces pass the size rule; "abc" does not |
| Tacos.MixedNameAccepted | exercises/taco-cloud-ch2/src/main/java/tacos/Taco.java:28 | three BMP characters and one above U+FFFF are five units, so the size rule passes |
| Tacos.MixedNameSample | exercises/taco-cloud-ch2/src/main/java/tacos/Taco.java:28 | "abc" followed by U+1F600 passes the size rule |
| Tacos.IngredientCountBoundary | exercises/taco-cloud-ch2/src/main/java/tacos/Taco.java:38 | an empty list fails and a non-empty one passes |
| Tacos.ViolationsDependOnlyOnShape | exercises/taco-cloud-ch2/src/main/java/tacos/Taco.java:27-39 | only nullness and lengths decide the violations |
| Tacos.ElementsUnchecked | exercises/taco-cloud-ch2/src/main/java/tacos/Taco.java:37-39 | null or repeated list elements are not checked |
| Tacos.BothFieldsReported | exercises/taco-cloud-ch2/src/main/java/tacos/Taco.java:27-39 | a bad name and a bad list give two violations, one per field |
| Orders.Violation.Field | exercises/taco-cloud-ch2/src/main/java/tacos/TacoOrder.java:29-82 | the property each of the eight order constraints is reported on |
| Orders.Violation.Message | exercises/taco-cloud-ch2/src/main/java/tacos/TacoOrder.java:29-81 | the `message=` attribute of each of the eight order constraints |
| Orders.FieldsAndMessagesDistinct | exercises/taco-cloud-ch2/src/main/java/tacos/TacoOrder.java:29-82 | each property carries one constraint, so its name identifies the violation; the eight messages are distinct |
| Orders.Satisfies | exercises/taco-cloud-ch2/src/main/java/tacos/TacoOrder.java:29-82 | the constraint behind each order violation, on its own field |
| Orders.OrderValid | exercises/taco-cloud-ch2/src/main/java/tacos/TacoOrder.java:29-82 | all eight field constraints hold; the taco list is not constrained |
| Orders.OrderViolations | exercises/taco-cloud-ch2/src/main/java/tacos/TacoOrder.java:29-82 | a violation is reported iff its constraint fails; none iff every constraint holds |
| Orders.AllViolationsListed | exercises/taco-cloud-ch2/src/main/java/tacos/TacoOrder.java:29-82 | the eight constraints are all accounted for |
| Orders.MissingFieldsReportedTogether | exercises/taco-cloud-ch2/src/main/java/tacos/TacoOrder.java:43-58 | a null city and a blank zip are reported together |
| Orders.BadCardAlwaysRejected | exercises/taco-cloud-ch2/src/main/java/tacos/TacoOrder.java:65-66 | a card number failing Luhn is rejected whatever the other fields hold |
| Orders.ExpirationRejected | exercises/taco-cloud-ch2/src/main/java/tacos/TacoOrder.java:73-75 | "13/25" and "05/19" are reported as bad expirations |
| Orders.UnsetOrderInvalid | exercises/taco-cloud-ch2/src/main/java/tacos/TacoOrder.java:29-82 | a new order gets exactly the five delivery messages |
| Orders.SampleOrderValid | exercises/taco-cloud-ch2/src/main/java/tacos/TacoOrder.java:29-88 | a filled-in order with a Luhn-valid card passes, with no requirement on its tacos |
| Orders.TacoOrder.constructor | exercises/taco-cloud-ch2/src/main/java/tacos/TacoOrder.java:88 | a new order has every field null and no tacos |
| Orders.TacoOrder.Details | exercises/taco-cloud-ch2/src/main/java/tacos/TacoOrder.java:29-82 | the eight form fields of the order, read together |
| Orders.TacoOrder.AddTaco | exercises/taco-cloud-ch2/src/main/java/tacos/TacoOrder.java:94-96 | the taco list becomes the old list plus the new taco at the end; the other fields are unchanged |
| Orders.TacoOrder.BindForm | exercises/taco-cloud-ch2/src/main/java/tacos/TacoOrder.java:22-82 | the setters store the form's values and leave the tacos alone |
| Design.Catalog | exercises/taco-cloud-ch2/src/main/java/tacos/web/DesignTacoController.java:45-56 | the ten ingredients of the hard-coded list, in its order |
| Design.FilterByType | exercises/taco-cloud-ch2/src/main/java/tacos/web/DesignTacoController.java:125-130 | the result is no longer than the input and every element has the requested type |
| Design.FilterMembership | exercises/taco-cloud-ch2/src/main/java/tacos/web/DesignTacoController.java:125-130 | an element is kept iff it is in the input and has the requested type |
| Design.FilterConcat | exercises/taco-cloud-ch2/src/main/java/tacos/web/DesignTacoController.java:125-130 | filtering distributes over concatenation, so relative order is kept |
| Design.FilterMultiplicity | exercises/taco-cloud-ch2/src/main/java/tacos/web/DesignTacoController.java:125-130 | each element of the type is kept as often as it occurs; others never |
| Design.FilterNone | exercises/taco-cloud-ch2/src/main/java/tacos/web/DesignTacoController.java:125-130 | a list without the type filters to nothing |
| Design.GroupsPartition | exercises/taco-cloud-ch2/src/main/java/tacos/web/DesignTacoController.java:59-65 | the per-type groups are disjoint, cover every element and their sizes add up |
| Design.CatalogIdsDistinct | exercises/taco-cloud-ch2/src/main/java/tacos/web/DesignTacoController.java:45-56 | ten catalog ingredients with distinct ids |
| Design.CatalogGroup | exercises/taco-cloud-ch2/src/main/java/tacos/web/DesignTacoController.java:45-65 | each type's group is the pair of catalog entries at its declaration position |
| Design.TwoOfEachType | exercises/taco-cloud-ch2/src/main/java/tacos/web/DesignTacoController.java:45-56 | two ingredients per type |
| Design.AttributeNamesDistinct | exercises/taco-cloud-ch2/src/main/java/tacos/web/DesignTacoController.java:61-62 | the lower-cased type names are equal only for equal types |
| Design.AttributeNameValues | exercises/taco-cloud-ch2/src/main/java/tacos/web/DesignTacoController.java:62 | the attribute names are "wrap", "protein", "veggies", "cheese" and "sauce" |
| Design.AddIngredientsToModel | exercises/taco-cloud-ch2/src/main/java/tacos/web/DesignTacoController.java:42-66 | afterwards every type's catalog group is stored under its lower-cased name; only those keys are added; other attributes are kept |
| Design.PutGroups | exercises/taco-cloud-ch2/src/main/java/tacos/web/DesignTacoController.java:59-65 | the loop puts each type's group under its name, adds only those keys and keeps the other entries |
| Design.Order | exercises/taco-cloud-ch2/src/main/java/tacos/web/DesignTacoController.java:72-75 | a new order with no tacos and every field null |
| Design.NewTaco | exercises/taco-cloud-ch2/src/main/java/tacos/web/DesignTacoController.java:81-84 | a taco with both fields null |
| Design.ShowDesignForm | exercises/taco-cloud-ch2/src/main/java/tacos/web/DesignTacoController.java:90-93 | always the "design" view, with no state changed |
| Design.ProcessTaco | exercises/taco-cloud-ch2/src/main/java/tacos/web/DesignTacoController.java:100-119 | with errors: "design" and the order unchanged; without: the taco appended once and the redirect to /orders/current; the form fields never change |
| Converter.ById | exercises/taco-cloud-ch2/src/main/java/tacos/web/IngredientByIdConverter.java:34-53 | the map that successive `put(x.id, x)` calls build from an empty map, a later put replacing an earlier one |
| Converter.ByIdKeys | exercises/taco-cloud-ch2/src/main/java/tacos/web/IngredientByIdConverter.java:34-53 | the keys after the puts are exactly the ids put |
| Converter.ByIdEntries | exercises/taco-cloud-ch2/src/main/java/tacos/web/IngredientByIdConverter.java:34-53 | every entry is an ingredient that was put, stored under its own id |
| Converter.ByIdFindsEach | exercises/taco-cloud-ch2/src/main/java/tacos/web/IngredientByIdConverter.java:34-53 | with distinct ids, every ingredient put is found under its id |
| Converter.ByIdOfType | exercises/taco-cloud-ch2/src/main/java/tacos/web/IngredientByIdConverter.java:34-53 | with distinct ids, the keys of one type are the ids of that type's filtered group |
| Converter.GroupIdsCount | exercises/taco-cloud-ch2/src/main/java/tacos/web/DesignTacoController.java:45-56 | each type's group has two distinct ids |
| Converter.CatalogById | exercises/taco-cloud-ch2/src/main/java/tacos/web/IngredientByIdConverter.java:31-54 | the ten literal puts build the map of the design controller's catalog |
| Converter.IngredientByIdConverter.Valid | exercises/taco-cloud-ch2/src/main/java/tacos/web/IngredientByIdConverter.java:24-54 | the map holds the catalog keyed by id, as the constructor leaves it and nothing later changes |
| Converter.IngredientByIdConverter.constructor | exercises/taco-cloud-ch2/src/main/java/tacos/web/IngredientByIdConverter.java:31-54 | after construction the map is the catalog keyed by id |
| Converter.IngredientByIdConverter.Convert | exercises/taco-cloud-ch2/src/main/java/tacos/web/IngredientByIdConverter.java:65-67 | some ingredient iff the id is a catalog id, and then a catalog ingredient with that id; null otherwise. As a function, it changes nothing and gives the same answer every time |
| Converter.IngredientByIdConverter.ConvertInvertsId | exercises/taco-cloud-ch2/src/main/java/tacos/web/IngredientByIdConverter.java:33-53 | converting a catalog ingredient's id returns that same ingredient, so the map agrees with the catalog entry by entry |
| Converter.IngredientByIdConverter.KeysAreCatalogIds | exercises/taco-cloud-ch2/src/main/java/tacos/web/IngredientByIdConverter.java:34-53 | the keys are exactly FLTO, COTO, GRBF, CARN, TMTO, LETC, CHED, JACK, SLSA, SRCR |
| Converter.IngredientByIdConverter.TwoEntriesPerType | exercises/taco-cloud-ch2/src/main/java/tacos/web/IngredientByIdConverter.java:34-53 | each type has exactly two entries: the ids of its group in the design view |
| Converter.IngredientByIdConverter.OfferedIngredientsConvert | exercises/taco-cloud-ch2/src/main/java/tacos/web/IngredientByIdConverter.java:65-67 | every ingredient offered under a type converts back from its id |
| Converter.IngredientByIdConverter.UnknownIdIsNull | exercises/taco-cloud-ch2/src/main/java/tacos/web/IngredientByIdConverter.java:62-67 | an id outside the catalog converts to null and raises nothing |
| Sessions.Session.constructor | exercises/taco-cloud-ch2/src/main/java/tacos/web/DesignTacoController.java:35 | a new session holds no order |
| Sessions.Session.Resolve | exercises/taco-cloud-ch2/src/main/java/tacos/web/DesignTacoController.java:72-75 | the session's order if there is one; otherwise a fresh empty order from `order()`, which the session then keeps |
| Sessions.Session.SetComplete | exercises/taco-cloud-ch2/src/main/java/tacos/web/OrderController.java:63 | the order is removed from the session |
| Checkout.OrderForm | exercises/taco-cloud-ch2/src/main/java/tacos/web/OrderController.java:36-39 | always the "orderForm" view, with no state changed |
| Checkout.ProcessOrder | exercises/taco-cloud-ch2/src/main/java/tacos/web/OrderController.java:51-67 | with errors: "orderForm" and the session keeps its order; without: the session is completed and the view is "redirect:/"; the order itself never changes |
| Requests.ConvertIds | exercises/taco-cloud-ch2/src/main/java/tacos/web/IngredientByIdConverter.java:65-67 | one conversion per submitted id, in order |
| Requests.BindTaco | exercises/taco-cloud-ch2/src/main/java/tacos/web/DesignTacoController.java:81-84 | the name is stored as submitted; the list is null iff no ids were sent, else one element per id, element i being the conversion of id i |
| Requests.DesignGet | exercises/taco-cloud-ch2/src/main/java/tacos/web/DesignTacoController.java:42-93 | "design", the grouped model, an empty taco, and the session's order kept, or else a fresh order with no tacos and every field null |
| Requests.DesignPost | exercises/taco-cloud-ch2/src/main/java/tacos/web/DesignTacoController.java:100-119 | an invalid taco leaves the session's tacos as they were; a valid one is appended to them; an existing order keeps its identity and fields; a new order has every field null |
| Requests.OrderPost | exercises/taco-cloud-ch2/src/main/java/tacos/web/OrderController.java:51-67 | a valid form completes the session; an invalid one leaves the order in the session, holding the submitted values and the same tacos |
| Requests.VeggieDeluxeBinds | exercises/taco-cloud-ch2/src/main/java/tacos/web/IngredientByIdConverter.java:65-67 | COTO, LETC, CHED bind to those three ingredients in that order, and the taco "Veggie Deluxe" is valid |
| Requests.DesignTwoTacos | exercises/taco-cloud-ch2/src/main/java/tacos/web/DesignTacoController.java:100-119 | from an empty session: a new order, the valid taco appended, the invalid one refused, so exactly one taco pending |
| Requests.PostAccepted | exercises/taco-cloud-ch2/src/main/java/tacos/web/DesignTacoController.java:112-118 | a design post whose taco binds without violation appends exactly that taco to the same order |
| Requests.PostRefused | exercises/taco-cloud-ch2/src/main/java/tacos/web/DesignTacoController.java:106-109 | a design post whose taco has a violation shows "design" and leaves the order's tacos as they were |
| Requests.ShortNameRefused | exercises/taco-cloud-ch2/src/main/java/tacos/web/DesignTacoController.java:106-109 | a four-letter name is refused whatever ingredient ids come with it |
| Requests.VisitForms | exercises/taco-cloud-ch2/src/main/java/tacos/web/DesignTacoController.java:100-119 | the walk-through forms: COTO, LETC, CHED bind to the Veggie Deluxe, which is valid; "Taco" is refused |
| Requests.CheckoutForms | exercises/taco-cloud-ch2/src/main/java/tacos/TacoOrder.java:65-82 | expiration month 13 is refused; the sample order is accepted |
| Requests.Visit | exercises/taco-cloud-ch2/src/main/java/tacos/web/OrderController.java:62-66 | for any valid and any refused design form and any failing and passing checkout form: the seven views in order; the refused checkout keeps the taco and the submitted values; after checkout the next visit gets an order with no tacos and every field null |

## Left out

- `WebConfig.java` only maps "/" to a view, and `TacoCloudCh2Application.java` only starts Spring Boot. Neither has logic to model.
- HTTP routing, Thymeleaf rendering and the Spring `Model` object are not modelled. The model is a map from attribute name to ingredient list. The `tacoOrder` and `taco` attributes are results of the request methods rather than map entries.
- The Spring session machinery (`@SessionAttributes`, `SessionStatus`) and the validation engine are not modelled. The session is one optional order. The handlers receive the violation set that `TacoViolations` or `OrderViolations` computes.
- Requests.DesignPost does not rebuild the ingredient groups, although the framework runs `addIngredientsToModel` before every design request. The groups do not affect the outcome of a post.
- Sessions.Session.Resolve is also used by the order controller. Without `order()`, the framework fills that controller's parameter from the `TacoOrder` constructor, which gives the same empty state.
- Type-conversion and binding failures are not modelled. The framework reports them as field errors; here the submitted form is already typed as optional strings and id lists.
- Orders.TacoOrder.BindForm sets all eight fields. A field that a request leaves out keeps its old value in Spring; that case is not modelled.
- Text.ToLower: ASCII only, with no locale rule (for example the Turkish dotless i). The type names are plain ASCII.
- Text.IsDigit: ASCII digits only. `BigDecimal` and Hibernate's Luhn check both read digits with `Character.isDigit`, which also accepts other Unicode digits, so `Decimal.Parse` and `Luhn.LuhnValid` refuse such digits where Java may accept them.
- Decimal.Parse: exponents of unbounded size are accepted. `BigDecimal` refuses an exponent that overflows an `int`.
- Luhn.RightSum: the sum is unbounded. Java's `int` sum could only overflow for strings hundreds of millions of digits long.
- Logging (`log.info`), Lombok's `toString`/`hashCode` and concurrency are not modelled: none of them has logic here.
