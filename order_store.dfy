/** The admin client's order store (`useOrders`): the order list, the member and product lists
    the order form picks from, the loading flag and the status banner. The server's answer to a
    request is a parameter, and so is the user's answer to the confirmation dialog. */
module OrderStore {
  import opened Common
  import opened Dto

  function OrderKey(o: OrderResponse): int {
    o.orderId
  }

  class Store {
    var orders: seq<OrderResponse>
    var members: seq<MemberResponse>
    var products: seq<ProductResponse>
    var loading: bool
    var message: Message

    constructor()
      ensures orders == [] && members == [] && products == [] && !loading && message == Blank
    {
      orders := [];
      members := [];
      products := [];
      loading := false;
      message := Blank;
    }

    /** `showMessage`: the banner holds the latest message (its timed expiry is not modelled). */
    method ShowMessage(level: Level, notice: Notice)
      modifies this
      ensures message == Shown(level, notice)
      ensures orders == old(orders) && members == old(members) && products == old(products)
      ensures loading == old(loading)
    {
      message := Shown(level, notice);
    }

    /** `fetchOrders`: the body of any response replaces the list (the status is not checked);
        without a usable response the list stays and an error is shown. */
    method FetchOrders(reply: Reply<seq<OrderResponse>>)
      modifies this
      ensures reply.Answered? ==> orders == reply.body && message == old(message)
      ensures reply.NoReply? ==> orders == old(orders) && message == Shown(Error, ListFailed)
      ensures members == old(members) && products == old(products) && !loading
    {
      loading := true;
      if reply.Answered? {
        orders := reply.body;
        loading := false;
      } else {
        ShowMessage(Error, ListFailed);
        loading := false;
      }
    }

    /** `fetchMembers`: no loading flag and no message; a failure is only logged. */
    method FetchMembers(reply: Reply<seq<MemberResponse>>)
      modifies this
      ensures members == (if reply.Answered? then reply.body else old(members))
      ensures orders == old(orders) && products == old(products)
      ensures loading == old(loading) && message == old(message)
    {
      if reply.Answered? {
        members := reply.body;
      }
    }

    /** `fetchProducts`: no loading flag and no message; a failure is only logged. */
    method FetchProducts(reply: Reply<seq<ProductResponse>>)
      modifies this
      ensures products == (if reply.Answered? then reply.body else old(products))
      ensures orders == old(orders) && members == old(members)
      ensures loading == old(loading) && message == old(message)
    {
      if reply.Answered? {
        products := reply.body;
      }
    }

    /** `createOrder`: `Some(saved)` is the promise resolving with the saved order, `None` its
        rejection (rethrown after the error is shown). */
    method CreateOrder(reply: Reply<OrderResponse>) returns (r: Option<OrderResponse>)
      modifies this
      ensures Accepted(reply) ==>
        r == Some(reply.body) && orders == Saved(old(orders), OrderKey, reply.body, None)
        && message == Shown(Success, Created)
      ensures !Accepted(reply) ==> r == None && orders == old(orders) && message == Shown(Error, SaveFailed)
      ensures members == old(members) && products == old(products) && !loading
    {
      loading := true;
      if !reply.Answered? || !reply.ok {
        ShowMessage(Error, SaveFailed);
        r := None;
      } else {
        var saved := reply.body;
        orders := [saved] + orders;
        ShowMessage(Success, Created);
        r := Some(saved);
      }
      loading := false;
    }

    /** `updateOrderStatus(id, status)`: `reply` is the server's answer to the status change;
        the echoed order replaces the listed order with its id. */
    method UpdateOrderStatus(reply: Reply<OrderResponse>) returns (r: Option<OrderResponse>)
      modifies this
      ensures Accepted(reply) ==>
        r == Some(reply.body) && orders == ReplaceByKey(old(orders), OrderKey, reply.body)
        && message == Shown(Success, StatusChanged)
      ensures !Accepted(reply) ==>
        r == None && orders == old(orders) && message == Shown(Error, StatusChangeFailed)
      ensures |orders| == |old(orders)|
      ensures members == old(members) && products == old(products) && !loading
    {
      loading := true;
      if !reply.Answered? || !reply.ok {
        ShowMessage(Error, StatusChangeFailed);
        r := None;
      } else {
        var updated := reply.body;
        orders := ReplaceByKey(orders, OrderKey, updated);
        ShowMessage(Success, StatusChanged);
        r := Some(updated);
      }
      loading := false;
    }

    /** `deleteOrder`: declined confirmation resolves `false` and touches nothing. */
    method DeleteOrder(id: int, confirmed: bool, reply: Reply<()>) returns (deleted: bool)
      modifies this
      ensures !confirmed ==> !deleted && orders == old(orders) && loading == old(loading) && message == old(message)
      ensures confirmed ==> deleted == Accepted(reply) && !loading
      ensures confirmed && deleted ==>
        orders == RemoveByKey(old(orders), OrderKey, id) && message == Shown(Success, Deleted)
      ensures confirmed && !deleted ==> orders == old(orders) && message == Shown(Error, DeleteFailed)
      ensures members == old(members) && products == old(products)
    {
      if !confirmed {
        return false;
      }
      loading := true;
      if reply.Answered? && reply.ok {
        orders := RemoveByKey(orders, OrderKey, id);
        ShowMessage(Success, Deleted);
        deleted := true;
      } else {
        ShowMessage(Error, DeleteFailed);
        deleted := false;
      }
      loading := false;
    }
  }
}
