/** backend/.../PlaceOrderCommand.java: turning a shopping cart into an order,
    and undoing that. The cart and order repositories are maps from id to
    document; the clock and the id the order store assigns are parameters. */
module PlaceOrder {
  import opened Wrappers

  /** A cart line; its fields are carried, never inspected, by this command. */
  datatype LineItem = LineItem(trueId: string, productId: string, quantity: int)

  /** A shopping-cart document; `lineItems` may be null. */
  datatype ShoppingCart = ShoppingCart(id: string, userId: string, lineItems: Option<seq<LineItem>>, totalCost: real)

  /** Order.java. */
  datatype Order = Order(id: string, userId: string, lineItems: seq<LineItem>, totalCost: real,
                         address: string, deliveryDate: string, orderDate: string)

  /** The shopping-cart repository: documents by id. */
  class CartRepo {
    var carts: map<string, ShoppingCart>

    constructor(carts: map<string, ShoppingCart>)
      ensures this.carts == carts
    {
      this.carts := carts;
    }

    /** Every document is stored under its own id. */
    ghost predicate Valid()
      reads this
    {
      forall k :: k in carts ==> carts[k].id == k
    }
  }

  /** The order repository: documents by id. */
  class OrdersRepo {
    var orders: map<string, Order>

    constructor(orders: map<string, Order>)
      ensures this.orders == orders
    {
      this.orders := orders;
    }
  }

  /** `cart.getLineItems() == null || cart.getLineItems().isEmpty()`. */
  predicate NoItems(cart: ShoppingCart) {
    cart.lineItems.None? || cart.lineItems.value == []
  }

  /** The order built from a cart: the cart's owner, a copy of its lines, its
      stored total (not a recomputation) and the request's address and date. */
  function OrderFrom(cart: ShoppingCart, id: string, address: string, deliveryDate: string, orderDate: string): (o: Order)
    requires !NoItems(cart)
    ensures o.userId == cart.userId && o.lineItems == cart.lineItems.value && o.totalCost == cart.totalCost
    ensures o.lineItems != []
    ensures o.id == id && o.address == address && o.deliveryDate == deliveryDate && o.orderDate == orderDate
  {
    Order(id, cart.userId, cart.lineItems.value, cart.totalCost, address, deliveryDate, orderDate)
  }

  /** The cart after placement: same id and owner, no lines, total 0. */
  function Emptied(cart: ShoppingCart): (c: ShoppingCart)
    ensures c.id == cart.id && c.userId == cart.userId
    ensures c.lineItems == Some([]) && c.totalCost == 0.0
  {
    cart.(lineItems := Some([]), totalCost := 0.0)
  }

  /** Why `execute` threw. */
  datatype Failure = CartNotFound(cartId: string) | EmptyCart

  class PlaceOrderCommand {
    const cartId: string
    const address: string
    const deliveryDate: string
    const ordersRepo: OrdersRepo
    const cartRepo: CartRepo
    var savedOrder: Option<Order>
    var originalCart: Option<ShoppingCart>

    constructor(cartId: string, address: string, deliveryDate: string, ordersRepo: OrdersRepo, cartRepo: CartRepo)
      ensures this.cartId == cartId && this.address == address && this.deliveryDate == deliveryDate
      ensures this.ordersRepo == ordersRepo && this.cartRepo == cartRepo
      ensures savedOrder.None? && originalCart.None?
    {
      this.cartId := cartId;
      this.address := address;
      this.deliveryDate := deliveryDate;
      this.ordersRepo := ordersRepo;
      this.cartRepo := cartRepo;
      savedOrder := None;
      originalCart := None;
    }

    /** `getSavedOrder()`: the order the last successful `execute` saved, if any. */
    function GetSavedOrder(): (o: Option<Order>)
      reads this
      ensures o.Some? ==> savedOrder.Some? && o.value == savedOrder.value
      ensures o.None? ==> savedOrder.None?
    {
      savedOrder
    }

    /** `execute()`. `now` is the order date the clock gives and `newOrderId`
        the id the order store assigns on save. An unknown cart or a cart without
        lines fails and changes nothing. Otherwise the order is saved under the
        new id, the cart keeps its id and owner but loses its lines and its total,
        and a snapshot of the cart is kept for `undo`. */
    method Execute(now: string, newOrderId: string) returns (r: Result<(), Failure>)
      requires cartRepo.Valid()
      modifies this, ordersRepo, cartRepo
      ensures cartRepo.Valid()
      ensures cartId !in old(cartRepo.carts) ==> r == Err(CartNotFound(cartId))
      ensures cartId in old(cartRepo.carts) && NoItems(old(cartRepo.carts)[cartId]) ==> r == Err(EmptyCart)
      ensures r.Err? ==>
        && cartRepo.carts == old(cartRepo.carts) && ordersRepo.orders == old(ordersRepo.orders)
        && savedOrder == old(savedOrder) && originalCart == old(originalCart)
      ensures r.Ok? <==> cartId in old(cartRepo.carts) && !NoItems(old(cartRepo.carts)[cartId])
      ensures r.Ok? ==>
        var cart := old(cartRepo.carts)[cartId];
        && savedOrder == Some(OrderFrom(cart, newOrderId, address, deliveryDate, now))
        && ordersRepo.orders == old(ordersRepo.orders)[newOrderId := savedOrder.value]
        && originalCart == Some(cart)
        && cartRepo.carts == old(cartRepo.carts)[cartId := Emptied(cart)]
    {
      if cartId !in cartRepo.carts {
        return Err(CartNotFound(cartId));
      }
      var cart := cartRepo.carts[cartId];
      if cart.lineItems.None? || cart.lineItems.value == [] {
        return Err(EmptyCart);
      }
      // snapshot for undo
      originalCart := Some(ShoppingCart(cart.id, cart.userId, Some(cart.lineItems.value), cart.totalCost));
      var order := Order(newOrderId, cart.userId, cart.lineItems.value, cart.totalCost, address, deliveryDate, now);
      ordersRepo.orders := ordersRepo.orders[newOrderId := order];
      savedOrder := Some(order);
      // clear the cart's lines but keep the cart
      cart := cart.(lineItems := Some([]), totalCost := 0.0);
      cartRepo.carts := cartRepo.carts[cart.id := cart];
      return Ok(());
    }

    /** `undo()`. Without a saved order nothing changes. Otherwise the saved
        order is deleted and, when the cart still exists, its lines and total are
        put back from the snapshot; its other fields are kept. */
    method Undo()
      requires cartRepo.Valid()
      modifies ordersRepo, cartRepo
      ensures cartRepo.Valid()
      ensures savedOrder.None? ==>
        ordersRepo.orders == old(ordersRepo.orders) && cartRepo.carts == old(cartRepo.carts)
      ensures savedOrder.Some? ==>
        && ordersRepo.orders == old(ordersRepo.orders) - {savedOrder.value.id}
        && cartRepo.carts ==
             if originalCart.Some? && cartId in old(cartRepo.carts) then
               old(cartRepo.carts)[cartId := old(cartRepo.carts)[cartId].(
                 lineItems := originalCart.value.lineItems, totalCost := originalCart.value.totalCost)]
             else old(cartRepo.carts)
    {
      if savedOrder.Some? {
        ordersRepo.orders := ordersRepo.orders - {savedOrder.value.id};
        if originalCart.Some? && cartId in cartRepo.carts {
          var currentCart := cartRepo.carts[cartId];
          currentCart := currentCart.(lineItems := originalCart.value.lineItems, totalCost := originalCart.value.totalCost);
          cartRepo.carts := cartRepo.carts[currentCart.id := currentCart];
        }
      }
    }
  }

  /** Undo is the inverse of a successful execute: when the order store assigns
      an unused id, both repositories end exactly as they began, and the order
      that existed in between carried the cart's owner, lines and total. */
  method ExecuteThenUndo(command: PlaceOrderCommand, now: string, newOrderId: string)
    returns (r: Result<(), Failure>, placed: Option<Order>)
    requires command.cartRepo.Valid()
    requires newOrderId !in command.ordersRepo.orders
    modifies command, command.ordersRepo, command.cartRepo
    ensures command.ordersRepo.orders == old(command.ordersRepo.orders)
    ensures command.cartRepo.carts == old(command.cartRepo.carts)
    ensures r.Ok? <==> command.cartId in old(command.cartRepo.carts) && !NoItems(old(command.cartRepo.carts)[command.cartId])
    ensures r.Ok? ==>
      var cart := old(command.cartRepo.carts)[command.cartId];
      placed.Some? && placed.value.userId == cart.userId && placed.value.lineItems == cart.lineItems.value &&
      placed.value.totalCost == cart.totalCost && placed.value.lineItems != []
  {
    r := command.Execute(now, newOrderId);
    placed := command.GetSavedOrder();
    if r.Ok? {
      command.Undo();
      assert command.cartRepo.carts == old(command.cartRepo.carts);
    }
  }
}
