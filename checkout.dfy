/**
 * The checkout controller (tacos/web/OrderController.java): showing the
 * order form, and accepting the submitted order, which ends the session's
 * order only when validation found nothing.
 */
module Checkout {
  import opened Orders
  import opened Sessions

  /** orderForm: always the order form view. */
  method OrderForm() returns (view: string)
    ensures view == "orderForm"
  {
    view := "orderForm";
  }

  /**
   * processOrder: with validation errors the form comes back and the session
   * keeps its order for correction; otherwise the session is completed and
   * the client is sent home. The order itself is never changed.
   */
  method ProcessOrder(order: TacoOrder, errors: set<Orders.Violation>, session: Session) returns (view: string)
    modifies session
    ensures errors != {} ==> view == "orderForm" && session.tacoOrder == old(session.tacoOrder)
    ensures errors == {} ==> view == "redirect:/" && session.tacoOrder == null
    ensures order.Details() == old(order.Details()) && order.tacos == old(order.tacos)
  {
    if errors != {} {
      return "orderForm";
    }
    session.SetComplete();
    return "redirect:/";
  }
}
