/**
 * `ordersFactoryFactory`: builds a new order from its line items with an id
 * from the injected `uuid()` and a creation time from the injected `now()`.
 *
 * The two injected functions have effects (each call may answer
 * differently), so they are modelled by the values their successive calls
 * return; building an order takes the next value of each.
 */
module OrdersFactory {
  import opened Orders

  /** The values the next calls of `uuid()` and `now()` will return, in order. */
  datatype OrdersFactoryDependencies = OrdersFactoryDependencies(uuids: seq<UUID>, nows: seq<ISO8601DateTimeString>)

  /** The result of one factory call: the order and what is left of the injected values. */
  datatype Built = Built(order: Order, rest: OrdersFactoryDependencies)

  /**
   * One call of the factory on `items`: the items unchanged, the next uuid
   * as id, the next timestamp as creation time and status Created; exactly
   * one value of each injected supply is used up.
   */
  function NewOrder(deps: OrdersFactoryDependencies, items: seq<LineItem>): (r: Built)
    requires |deps.uuids| >= 1 && |deps.nows| >= 1
    ensures r.order.status == Created
    ensures r.order.items == items
    ensures r.order.id == deps.uuids[0] && r.order.createdWhen == deps.nows[0]
    ensures deps.uuids == [r.order.id] + r.rest.uuids && deps.nows == [r.order.createdWhen] + r.rest.nows
  {
    Built(Order(deps.uuids[0], deps.nows[0], Created, items), OrdersFactoryDependencies(deps.uuids[1..], deps.nows[1..]))
  }

  /** Successive factory calls, one per list of items. */
  function NewOrders(deps: OrdersFactoryDependencies, itemLists: seq<seq<LineItem>>): (orders: seq<Order>)
    requires |deps.uuids| >= |itemLists| && |deps.nows| >= |itemLists|
    ensures |orders| == |itemLists|
    ensures forall k :: 0 <= k < |orders| ==>
              && orders[k].status == Created
              && orders[k].items == itemLists[k]
              && orders[k].id == deps.uuids[k]
              && orders[k].createdWhen == deps.nows[k]
    decreases |itemLists|
  {
    if itemLists == [] then []
    else
      var built := NewOrder(deps, itemLists[0]);
      [built.order] + NewOrders(built.rest, itemLists[1..])
  }
}
