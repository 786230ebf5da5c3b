/** Values shared by every layer of the order service: optional values, the
    outcome of an operation that may fail, and the errors the service reports. */
module Common {

  datatype Option<+T> = None | Some(value: T)

  /** The value an operation produced, or the error that stopped it. */
  datatype Result<+T> = Success(value: T) | Failure(error: Error)

  /** The outcome of an operation that produces no value. */
  datatype Outcome = Pass | Fail(error: Error)

  /** Every error the service reports to its caller. */
  datatype Error =
    | EmptyOrder                                    // an order request without line items
    | CrossRestaurantItem                           // a menu item of another restaurant
    | InvalidQuantity(quantity: int)                // a quantity below 1
    | InvalidPrice(price: int)                      // a price below 0.01 (in cents)
    | InvalidChoice(value: string)                  // a status string that is not one of the choices
    | IllegalTransition(current: string, requested: string)
    | DuplicateLineItem                             // (order, menu item) already present
    | DuplicateName                                 // restaurant name or (restaurant, item name) taken
    | MissingRestaurantId                           // `restaurant_id` query parameter absent or empty
    | NotFound                                      // no restaurant with the requested id

  /** The text the caller sees for an error: the service's own texts and
      the framework's validator texts. The wording of the database's
      uniqueness errors and of the framework's 404 depends on the backend and
      the framework version, and is left unspecified (`None`). */
  function Message(e: Error): (m: Option<string>)
    ensures m.None? <==> e.DuplicateLineItem? || e.DuplicateName? || e.NotFound?
  {
    match e
    case EmptyOrder => Some("Order must contain at least one item.")
    case CrossRestaurantItem => Some("Menu item must belong to the same restaurant as the order.")
    case InvalidQuantity(_) => Some("Ensure this value is greater than or equal to 1.")
    case InvalidPrice(_) => Some("Ensure this value is greater than or equal to 0.01.")
    case InvalidChoice(v) => Some("\"" + v + "\" is not a valid choice.")
    case IllegalTransition(c, r) => Some("Cannot change status from '" + c + "' to '" + r + "'")
    case DuplicateLineItem => None
    case DuplicateName => None
    case MissingRestaurantId => Some("restaurant_id parameter is required")
    case NotFound => None
  }
}
