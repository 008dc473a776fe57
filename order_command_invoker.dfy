/** backend/.../OrderCommandInvoker.java: runs order commands and keeps the
    successful ones on a stack so that the last one can be undone. */
module OrderInvoker {
  import opened Wrappers
  import opened PlaceOrder

  /** Why `executeCommand` threw: a null command, or the command's own failure
      passed on unchanged. */
  datatype InvokeError = NullCommand | CommandFailed(cause: Failure)

  class OrderCommandInvoker {
    /** The history deque; its head (`push`/`pop` end) is index 0. */
    var history: seq<PlaceOrderCommand>
    /** How many commands executed successfully, and how many were undone. */
    ghost var executed: nat
    ghost var undone: nat

    constructor()
      ensures history == [] && executed == 0 && undone == 0
      ensures Valid()
    {
      history := [];
      executed, undone := 0, 0;
    }

    /** The history holds exactly the successful commands not yet undone, and the
        cart repository of every remembered command stores carts by id. */
    ghost predicate Valid()
      reads this, set i | 0 <= i < |history| :: history[i].cartRepo
    {
      && |history| + undone == executed
      && forall i :: 0 <= i < |history| ==> history[i].cartRepo.Valid()
    }

    /** `executeCommand(command)`: a null command fails with nothing changed; a
        command that fails is not remembered; a command that succeeds is pushed
        on the history. */
    method ExecuteCommand(command: PlaceOrderCommand?, now: string, newOrderId: string)
      returns (r: Result<(), InvokeError>)
      requires Valid()
      requires command != null ==> command.cartRepo.Valid()
      modifies this, if command == null then {} else {command, command.ordersRepo, command.cartRepo}
      ensures Valid()
      ensures command == null ==> r == Err(NullCommand) && history == old(history)
      ensures command != null ==>
        (r.Ok? <==> command.cartId in old(command.cartRepo.carts) && !NoItems(old(command.cartRepo.carts)[command.cartId]))
      ensures r.Ok? ==> command != null && history == [command] + old(history)
      ensures r.Err? ==> history == old(history)
      ensures executed == old(executed) + (if r.Ok? then 1 else 0) && undone == old(undone)
      ensures command != null && r.Ok? ==>
        var cart := old(command.cartRepo.carts)[command.cartId];
        && command.savedOrder == Some(OrderFrom(cart, newOrderId, command.address, command.deliveryDate, now))
        && command.ordersRepo.orders == old(command.ordersRepo.orders)[newOrderId := command.savedOrder.value]
        && command.originalCart == Some(cart)
        && command.cartRepo.carts == old(command.cartRepo.carts)[command.cartId := Emptied(cart)]
      ensures command != null && r.Err? ==>
        r.error.CommandFailed? &&
        command.cartRepo.carts == old(command.cartRepo.carts) && command.ordersRepo.orders == old(command.ordersRepo.orders)
    {
      if command == null {
        return Err(NullCommand);
      }
      var e := command.Execute(now, newOrderId);
      if e.Err? {
        return Err(CommandFailed(e.error));
      }
      history := [command] + history;
      executed := executed + 1;
      r := Ok(());
    }

    /** `undoLastCommand()`: with an empty history nothing happens; otherwise the
        most recent command is popped and undone. */
    method UndoLastCommand() returns (popped: PlaceOrderCommand?)
      requires Valid()
      modifies this, if history == [] then {} else {history[0].ordersRepo, history[0].cartRepo}
      ensures Valid()
      ensures old(history) == [] ==> popped == null && history == []
      ensures old(history) != [] ==> popped == old(history)[0] && history == old(history)[1..]
      ensures undone == old(undone) + (if old(history) == [] then 0 else 1) && executed == old(executed)
      ensures old(history) != [] && popped.savedOrder.None? ==>
        popped.ordersRepo.orders == old(popped.ordersRepo.orders) && popped.cartRepo.carts == old(popped.cartRepo.carts)
      ensures old(history) != [] && popped.savedOrder.Some? ==>
        && popped.ordersRepo.orders == old(popped.ordersRepo.orders) - {popped.savedOrder.value.id}
        && popped.cartRepo.carts ==
             if popped.originalCart.Some? && popped.cartId in old(popped.cartRepo.carts) then
               old(popped.cartRepo.carts)[popped.cartId := old(popped.cartRepo.carts)[popped.cartId].(
                 lineItems := popped.originalCart.value.lineItems, totalCost := popped.originalCart.value.totalCost)]
             else old(popped.cartRepo.carts)
    {
      if history == [] {
        return null;
      }
      popped := history[0];
      history := history[1..];
      undone := undone + 1;
      popped.Undo();
    }
  }

  /** Running a command through the invoker and, when it succeeded, undoing the
      last command leaves the history, whatever it held before, and both
      repositories as they were, as long as the order store assigns an unused id:
      the undo pops exactly the command just pushed. A failed command is not
      pushed and changes nothing, so there is nothing of it to undo. */
  method ExecuteThenUndoLast(invoker: OrderCommandInvoker, command: PlaceOrderCommand, now: string, newOrderId: string)
    returns (r: Result<(), InvokeError>)
    requires invoker.Valid() && command.cartRepo.Valid()
    requires newOrderId !in command.ordersRepo.orders
    modifies invoker, command, command.ordersRepo, command.cartRepo
    ensures invoker.Valid()
    ensures invoker.history == old(invoker.history)
    ensures invoker.executed - invoker.undone == old(invoker.executed) - old(invoker.undone)
    ensures command.ordersRepo.orders == old(command.ordersRepo.orders)
    ensures command.cartRepo.carts == old(command.cartRepo.carts)
  {
    r := invoker.ExecuteCommand(command, now, newOrderId);
    if r.Ok? {
      var popped := invoker.UndoLastCommand();
      assert popped == command;
    }
  }
}
