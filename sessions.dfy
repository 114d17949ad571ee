/**
 * The session attribute "tacoOrder" that both controllers declare with
 * @SessionAttributes: one optional order per customer session. The order is
 * looked up when a request needs it, created when the session has none, and
 * dropped when a handler marks the session complete.
 */
module Sessions {
  import opened Orders
  import Design

  class Session {
    /** The stored "tacoOrder" attribute; null when the session holds none. */
    var tacoOrder: TacoOrder?

    /** A new session holds no order. */
    constructor ()
      ensures tacoOrder == null
    {
      tacoOrder := null;
    }

    /**
     * The order a request works on: the one in the session, or else a new one
     * from order() that is then kept in the session. (Without order() in
     * scope, the order controller gets one from the TacoOrder constructor,
     * which leaves it in the same state.)
     */
    method Resolve() returns (o: TacoOrder)
      modifies this
      ensures old(tacoOrder) != null ==> o == old(tacoOrder)
      ensures old(tacoOrder) == null ==> fresh(o) && o.tacos == [] && o.Details() == Unset
      ensures tacoOrder == o
    {
      if tacoOrder == null {
        o := Design.Order();
        tacoOrder := o;
      } else {
        o := tacoOrder;
      }
    }

    /** SessionStatus.setComplete(): the order is removed from the session. */
    method SetComplete()
      modifies this
      ensures tacoOrder == null
    {
      tacoOrder := null;
    }
  }
}
