/** frontend/src/Checkout.jsx: loading the cart into the checkout view and
    placing the order. The clock is a parameter counting days; the request is
    split at its `await`, so the view's state while the request is in flight can
    be stated. */
module Checkout {
  import opened Wrappers
  import opened Text

  /** A line item as the frontend passes it along; its contents are not inspected. */
  datatype LineItem = LineItem(trueId: string, productId: string, quantity: int)

  /** The body of GET /cart/{userId}: the cart id (absent or null as None), the
      stored total and the line items (absent or null as None). */
  datatype CartData = CartData(id: Option<string>, totalCost: real, lineItems: Option<seq<LineItem>>)

  /** The body of POST /orders/{cartId}: the created order's id, if any. */
  datatype OrderData = OrderData(id: Option<string>)

  /** What `placeOrder` sends: the cart id in the path, the address exactly as
      typed and the delivery date, here as a day number (the ISO 8601 rendering
      of `Date.toISOString` is not modelled). */
  datatype OrderRequest = OrderRequest(cartId: string, address: string, deliveryDay: int)

  /** Why `placeOrder` stopped before calling the backend, with the toast it shows. */
  datatype Invalid =
    | NoAddress     // "Please provide a delivery address"
    | NoCart        // "Cart information is missing"
    | EmptyCart     // "Your cart is empty"

  /** Fixed delivery policy: two days after the order is placed. */
  const DeliveryDays: int := 2

  /** `!cartId`: no id, or the empty string. */
  predicate MissingId(id: Option<string>) {
    id.None? || id.value == ""
  }

  /** The target of `navigate` after a placed order. */
  function ThankYouPath(orderId: string): (path: string)
    ensures |path| > |orderId| && path[|path| - |orderId|..] == orderId
  {
    "/thankyou?orderId=" + orderId
  }

  /** The order checks of `placeOrder`, in their order: a blank address first,
      then a missing cart id, then an empty cart; None when all pass. */
  function Validate(address: string, cartId: Option<string>, items: seq<LineItem>): (r: Option<Invalid>)
    ensures r == Some(NoAddress) <==> AllSpace(address)
    ensures r == Some(NoCart) <==> !AllSpace(address) && MissingId(cartId)
    ensures r == Some(EmptyCart) <==> !AllSpace(address) && !MissingId(cartId) && items == []
    ensures r.None? <==> !AllSpace(address) && !MissingId(cartId) && items != []
  {
    if Trim(address) == [] then Some(NoAddress)
    else if MissingId(cartId) then Some(NoCart)
    else if |items| == 0 then Some(EmptyCart)
    else None
  }

  class CheckoutView {
    var address: string
    var total: real
    var cartId: Option<string>
    var isSubmitting: bool
    var cartItems: seq<LineItem>

    /** The initial state of the view's hooks. */
    constructor()
      ensures address == "" && total == 0.0 && cartId.None? && !isSubmitting && cartItems == []
    {
      address, total, cartId, isSubmitting, cartItems := "", 0.0, None, false, [];
    }

    /** The address field's change handler. */
    method SetAddress(value: string)
      modifies this
      ensures address == value
      ensures total == old(total) && cartId == old(cartId) && isSubmitting == old(isSubmitting) && cartItems == old(cartItems)
    {
      address := value;
    }

    /** `getCart()`: a loaded cart sets the id and the total from the response, and
        the items to `lineItems`, or to [] when absent; a failed request changes nothing. */
    method GetCart(response: Result<CartData, RequestError>)
      modifies this
      ensures response.Ok? ==>
        && cartId == response.value.id
        && total == response.value.totalCost
        && cartItems == (if response.value.lineItems.Some? then response.value.lineItems.value else [])
      ensures response.Err? ==>
        cartId == old(cartId) && total == old(total) && cartItems == old(cartItems)
      ensures address == old(address) && isSubmitting == old(isSubmitting)
    {
      match response {
        case Ok(data) =>
          cartId := data.id;
          total := data.totalCost;
          cartItems := if data.lineItems.Some? then data.lineItems.value else [];
        case Err(_) =>
      }
    }

    /** `placeOrder()` up to its `await`: the checks run in order and stop before
        any request; when all pass, `isSubmitting` is set and the request carries the
        cart id, the address as typed and the day two days after `today`. */
    method StartPlaceOrder(today: int) returns (r: Result<OrderRequest, Invalid>)
      modifies this
      ensures r.Err? <==> Validate(address, cartId, cartItems).Some?
      ensures r.Err? ==> r.error == Validate(address, cartId, cartItems).value && isSubmitting == old(isSubmitting)
      ensures r.Ok? ==>
        && isSubmitting
        && r.value == OrderRequest(cartId.value, address, today + DeliveryDays)
      ensures address == old(address) && cartId == old(cartId) && cartItems == old(cartItems) && total == old(total)
    {
      if Trim(address) == [] {
        return Err(NoAddress);
      }
      if cartId.None? || cartId.value == "" {
        return Err(NoCart);
      }
      if |cartItems| == 0 {
        return Err(EmptyCart);
      }
      isSubmitting := true;
      var deliveryDay := today;
      deliveryDay := deliveryDay + DeliveryDays;
      return Ok(OrderRequest(cartId.value, address, deliveryDay));
    }

    /** `placeOrder()` after its `await`: navigation to the thank-you page happens
        exactly when the response carries a non-empty id; any failure, including a
        response without an id, navigates nowhere. `isSubmitting` ends false either way. */
    method FinishPlaceOrder(response: Result<OrderData, RequestError>) returns (navigateTo: Option<string>)
      modifies this
      ensures !isSubmitting
      ensures navigateTo.Some? <==> response.Ok? && !MissingId(response.value.id)
      ensures navigateTo.Some? ==> navigateTo.value == ThankYouPath(response.value.id.value)
      ensures address == old(address) && cartId == old(cartId) && cartItems == old(cartItems) && total == old(total)
    {
      navigateTo := None;
      if response.Ok? && response.value.id.Some? && response.value.id.value != "" {
        navigateTo := Some(ThankYouPath(response.value.id.value));
      }
      isSubmitting := false;
    }
  }
}
