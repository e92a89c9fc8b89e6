/** The `validateProduct` middleware: a first-failing-check decision over the
    four fields of a write request's body. */
module Validation {
  import opened Js

  /** The fields of `req.body` that the validator reads. */
  datatype Body = Body(name: Value, description: Value, price: Value, category: Value)

  /** Which of the validator's three exits is taken. */
  datatype Verdict = Accept | MissingFields | BadPrice

  /** What the middleware does: call `next()` or answer the request itself. */
  datatype Response = Next | Reject(status: nat, error: string)

  const BadRequest: nat := 400
  const MissingFieldsMessage := "Missing required fields: name, description, price, category"
  const BadPriceMessage := "Price must be a positive number"

  /** The presence test: `price === undefined` is the only absence test for
      the price, the other three fields are tested for truthiness. */
  predicate FieldsPresent(b: Body) {
    Truthy(b.name) && Truthy(b.description) && b.price != Undefined && Truthy(b.category)
  }

  function ValidateProduct(b: Body): (r: Verdict)
    // accepted exactly when the three text fields are truthy and the price
    // is a non-negative number (so the undefined-price test is subsumed)
    ensures r == Accept <==>
      Truthy(b.name) && Truthy(b.description) && Truthy(b.category) &&
      b.price.Num? && b.price.x >= 0.0
    // a price check failure needs every field present; then null, booleans,
    // strings (numeric or not), objects and negative numbers all fail
    ensures r == BadPrice <==>
      Truthy(b.name) && Truthy(b.description) && Truthy(b.category) &&
      (b.price == Null || b.price.Bool? || b.price.Str? || b.price == Composite ||
       (b.price.Num? && b.price.x < 0.0))
  {
    if !FieldsPresent(b) then
      MissingFields
    else if !IsNumber(b.price) || b.price.x < 0.0 then
      BadPrice
    else
      Accept
  }

  /** The response the middleware sends for a verdict. */
  function Reply(v: Verdict): (r: Response)
    ensures r.Next? <==> v == Accept
    ensures r.Reject? ==> r.status == BadRequest
    ensures r.Reject? ==> (r.error == MissingFieldsMessage <==> v == MissingFields)
    ensures v == MissingFields ==> r == Reject(BadRequest, MissingFieldsMessage)
    ensures v == BadPrice ==> r == Reject(BadRequest, BadPriceMessage)
  {
    match v
    case Accept => Next
    case MissingFields => Reject(BadRequest, MissingFieldsMessage)
    case BadPrice => Reject(BadRequest, BadPriceMessage)
  }

  /** The presence check runs first: whatever the price is, a body with a
      falsy text field or an undefined price gets the missing-fields message. */
  lemma PresenceCheckWins(b: Body)
    requires !Truthy(b.name) || !Truthy(b.description) || b.price == Undefined || !Truthy(b.category)
    ensures ValidateProduct(b) == MissingFields
    ensures Reply(ValidateProduct(b)) == Reject(BadRequest, MissingFieldsMessage)
  {
  }

  /** A missing name together with a negative price reports the missing field. */
  lemma MissingNameNegativePrice(description: Value, category: Value)
    ensures ValidateProduct(Body(Undefined, description, Num(-1.0), category)) == MissingFields
  {
  }

  /** `price == 0` is accepted: the range test is a strict `< 0`. */
  lemma ZeroPriceAccepted(name: Value, description: Value, category: Value)
    requires Truthy(name) && Truthy(description) && Truthy(category)
    ensures ValidateProduct(Body(name, description, Num(0.0), category)) == Accept
    ensures Reply(ValidateProduct(Body(name, description, Num(0.0), category))) == Next
  {
  }

  /** A negative number, with the other fields present, gets the price message. */
  lemma NegativePriceRejected(b: Body)
    requires Truthy(b.name) && Truthy(b.description) && Truthy(b.category)
    requires b.price.Num? && b.price.x < 0.0
    ensures Reply(ValidateProduct(b)) == Reject(BadRequest, BadPriceMessage)
  {
  }

  /** A numeric string and `null` pass the presence test but not the type
      test: the price is never coerced. */
  lemma StringOrNullPriceRejected(name: Value, description: Value, category: Value)
    requires Truthy(name) && Truthy(description) && Truthy(category)
    ensures FieldsPresent(Body(name, description, Str("5"), category))
    ensures ValidateProduct(Body(name, description, Str("5"), category)) == BadPrice
    ensures FieldsPresent(Body(name, description, Null, category))
    ensures ValidateProduct(Body(name, description, Null, category)) == BadPrice
  {
  }
}
